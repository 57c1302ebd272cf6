/** The tag screen of the extension's options page (src/components/organisms/CreateTags.tsx).
    Tags are created, renamed and deleted there. A tag's WhatsApp groups are ticked in a
    list and then saved in one go, so the screen keeps two sets of group ids: the pending
    selection and what the database holds.

    The React component becomes a class: `this.state` is a field holding a record, and each
    `setState` is a record update. Rendering is not modelled. Each `await` runs to
    completion before the next handler starts. The page's answer to a groups request
    arrives as a parameter, and so do fresh ids and the clock. */
module CreateTags {
  import opened Js
  import opened IndexedDb
  import WaJs

  type Group = WaJs.Group

  /** The palette offered for new tags; the first colour is the default. */
  const TagColors: seq<string> := ["#EF4444", "#F59E0B", "#10B981", "#3B82F6", "#6366F1",
                                   "#8B5CF6", "#EC4899", "#F43F5E", "#14B8A6", "#06B6D4"]

  const NoGroupsText := "No groups found. Make sure you are logged into WhatsApp Web and have groups."
  const TimeoutText := "Timeout: Groups did not load in time. Make sure WhatsApp Web is fully loaded and you are logged in."

  /** A string id in the state is truthy when it is present and non-empty. */
  predicate IsSet(id: Option<string>) {
    id.Some? && id.value != ""
  }

  // ---------------------------------------------------------------------------
  // Sets and lists
  // ---------------------------------------------------------------------------

  /** `setsAreEqual`: compares the sizes first, then looks up each element of the first set
      in the second. */
  method SetsAreEqual(set1: set<string>, set2: set<string>) returns (equal: bool)
    ensures equal <==> set1 == set2
  {
    if |set1| != |set2| {
      return false;
    }
    var rest := set1;
    while rest != {}
      invariant rest <= set1
      invariant set1 - rest <= set2
      decreases rest
    {
      var item :| item in rest;
      if item !in set2 {
        return false;
      }
      rest := rest - {item};
    }
    SubsetOfSameSize(set1, set2);
    return true;
  }

  /** A subset as large as its superset is the whole superset. */
  lemma SubsetOfSameSize(a: set<string>, b: set<string>)
    requires a <= b && |a| == |b|
    ensures a == b
  {
    assert b * a == a;
    assert |b - a| == 0;
    assert b - a == {};
  }

  /** `Array.from(s)`: the elements of `s`, each once, in some order. */
  method ToSeq(s: set<string>) returns (xs: seq<string>)
    ensures forall x :: x in xs <==> x in s
  {
    xs := [];
    var rest := s;
    while rest != {}
      invariant rest <= s
      invariant forall x :: x in xs <==> x in s - rest
      decreases rest
    {
      var x :| x in rest;
      xs := xs + [x];
      rest := rest - {x};
    }
  }

  /** The two lists `handleSaveGroups` works through: the ticked groups not saved yet,
      and the saved groups no longer ticked. */
  method PendingChanges(selected: set<string>, saved: set<string>)
    returns (toAdd: seq<string>, toRemove: seq<string>)
    ensures forall g :: g in toAdd <==> g in selected && g !in saved
    ensures forall g :: g in toRemove <==> g in saved && g !in selected
  {
    var selectedList := ToSeq(selected);
    toAdd := Filter((id: string) => id !in saved, selectedList);
    var savedList := ToSeq(saved);
    toRemove := Filter((id: string) => id !in selected, savedList);
  }

  /** The selection with `groupId` ticked or unticked: only that id changes. */
  function Toggled(selected: set<string>, groupId: string): (r: set<string>)
    ensures groupId in r <==> groupId !in selected
    ensures forall g :: g != groupId ==> (g in r <==> g in selected)
  {
    if groupId in selected then selected - {groupId} else selected + {groupId}
  }

  /** Ticking a group twice restores the selection. */
  lemma ToggleTwice(selected: set<string>, groupId: string)
    ensures Toggled(Toggled(selected, groupId), groupId) == selected
  {
    var once := Toggled(selected, groupId);
    assert forall g :: g in Toggled(once, groupId) <==> g in selected;
  }

  /** `groups.find(g => g.id === groupId)`: the first group with that id, if any. */
  function FindGroup(groups: seq<Group>, groupId: string): (r: Option<Group>)
    ensures r.Some? <==> exists g :: g in groups && g.id == groupId
    ensures r.Some? ==> r.value.id == groupId
    ensures r.Some? ==> exists i :: 0 <= i < |groups| && groups[i] == r.value &&
                                    (forall j :: 0 <= j < i ==> groups[j].id != groupId)
  {
    if groups == [] then None
    else if groups[0].id == groupId then Some(groups[0])
    else
      var r := FindGroup(groups[1..], groupId);
      assert forall g :: g in groups <==> g == groups[0] || g in groups[1..];
      if r.Some? then
        var i :| 0 <= i < |groups[1..]| && groups[1..][i] == r.value &&
          forall j :: 0 <= j < i ==> groups[1..][j].id != groupId;
        assert groups[i + 1] == r.value;
        assert forall j :: 0 <= j < i + 1 ==> groups[j].id != groupId by {
          forall j | 0 <= j < i + 1 ensures groups[j].id != groupId {
            if j > 0 { assert groups[j] == groups[1..][j - 1]; }
          }
        }
        r
      else r
  }

  // ---------------------------------------------------------------------------
  // Searching the group list
  // ---------------------------------------------------------------------------

  /** A group is listed for a query when the query is blank or the group's name contains it,
      ignoring case. */
  predicate Listed(g: Group, searchQuery: string) {
    IsBlank(searchQuery) || Includes(ToLower(g.name), ToLower(searchQuery))
  }

  /** `getFilteredGroups`: every group for a blank query, otherwise the groups whose name
      contains the query, ignoring case, in their order. The query is not trimmed before
      the search. */
  function FilteredGroups(groups: seq<Group>, searchQuery: string): (r: seq<Group>)
    ensures |r| <= |groups|
    ensures forall g :: g in r <==> g in groups && Listed(g, searchQuery)
    ensures IsBlank(searchQuery) ==> r == groups
  {
    if IsBlank(searchQuery) then groups
    else
      var query := ToLower(searchQuery);
      Filter((g: Group) => Includes(ToLower(g.name), query), groups)
  }

  /** The filtered list keeps the order of the groups: filtering distributes over
      concatenation. */
  lemma FilteredGroupsKeepOrder(front: seq<Group>, back: seq<Group>, searchQuery: string)
    ensures FilteredGroups(front + back, searchQuery)
         == FilteredGroups(front, searchQuery) + FilteredGroups(back, searchQuery)
  {
    if !IsBlank(searchQuery) {
      var query := ToLower(searchQuery);
      FilterAppend((g: Group) => Includes(ToLower(g.name), query), front, back);
    }
  }

  /** Typing more characters after a non-blank query can only narrow the list. */
  lemma TypingNarrows(groups: seq<Group>, searchQuery: string, more: string)
    requires !IsBlank(searchQuery)
    ensures forall g :: g in FilteredGroups(groups, searchQuery + more) ==>
      g in FilteredGroups(groups, searchQuery)
  {
    var longer := searchQuery + more;
    assert !AllWhitespace(searchQuery);
    var i :| 0 <= i < |searchQuery| && !IsWhitespace(searchQuery[i]);
    assert longer[i] == searchQuery[i];
    assert !IsBlank(longer);
    var query, longerQuery := ToLower(searchQuery), ToLower(longer);
    ToLowerAppend(searchQuery, more);
    assert FilteredGroups(groups, longer) == Filter((g: Group) => Includes(ToLower(g.name), longerQuery), groups);
    assert FilteredGroups(groups, searchQuery) == Filter((g: Group) => Includes(ToLower(g.name), query), groups);
    forall g | g in FilteredGroups(groups, longer)
      ensures g in FilteredGroups(groups, searchQuery)
    {
      IncludesPrefix(ToLower(g.name), query, ToLower(more));
    }
  }

  /** A string containing `a + b` contains `a`. */
  lemma IncludesPrefix(s: string, a: string, b: string)
    requires Includes(s, a + b)
    ensures Includes(s, a)
  {
    var i :| OccursAt(s, a + b, i);
    assert s[i..i + |a|] == s[i..i + |a + b|][..|a|];
    assert OccursAt(s, a, i);
  }

  // ---------------------------------------------------------------------------
  // Asking the page for its groups
  // ---------------------------------------------------------------------------

  /** What the pending `requestGroupsFromPage` makes of one window message: not its
      answer, a rejection, or the groups. */
  datatype GroupsReply = Ignore | Reject(message: string) | Resolve(groups: seq<Group>)

  /** The response listener of `requestGroupsFromPage`. It takes only a groups response
      from this window that carries its request id. A non-empty error rejects. Otherwise
      it resolves with the listed groups, or none when the response lists none. */
  function AcceptGroupsResponse(ev: WaJs.WindowMessage, messageId: string): (reply: GroupsReply)
    ensures reply != Ignore <==>
      ev.fromThisWindow && ev.kind == WaJs.GroupsResponseKind && ev.id == messageId
    ensures reply.Reject? <==> reply != Ignore && ev.error.Some? && ev.error.value != ""
    ensures reply.Reject? ==> reply.message == ev.error.value
    ensures reply.Resolve? && ev.groups.Some? ==> reply.groups == ev.groups.value
    ensures reply.Resolve? && ev.groups.None? ==> reply.groups == []
  {
    if !ev.fromThisWindow then Ignore
    else if ev.kind != WaJs.GroupsResponseKind || ev.id != messageId then Ignore
    else if ev.error.Some? && ev.error.value != "" then Reject(ev.error.value)
    else Resolve(if ev.groups.Some? then ev.groups.value else [])
  }

  /** What `loadGroups` leaves in the state as (groups, load error). `settled` is the reply
      that settled the request, or None when the 15-second timer fired first. */
  function GroupsLoaded(settled: Option<GroupsReply>): (r: (seq<Group>, Option<string>))
    requires settled != Some(Ignore)
    ensures r.1.None? <==> r.0 != []
    ensures r.0 != [] ==> settled == Some(Resolve(r.0))
    ensures settled.None? ==> r.1 == Some(TimeoutText)
    ensures settled.Some? && settled.value.Reject? ==> r.1 == Some(settled.value.message)
    ensures settled.Some? && settled.value.Resolve? && settled.value.groups != [] ==>
      r == (settled.value.groups, None)
    ensures settled == Some(Resolve([])) ==> r == ([], Some(NoGroupsText))
  {
    match settled
    case None => ([], Some(TimeoutText))
    case Some(Reject(message)) => ([], Some(message))
    case Some(Resolve(groups)) =>
      if groups != [] then (groups, None) else ([], Some(NoGroupsText))
  }

  /** The round trip between the options page and the page script. The requester does not
      take its own request, which it hears too. The page script answers the request and
      does not answer its own answer. The screen then ends up with exactly the groups the
      page script listed, or with the page's reason for listing none. */
  lemma GroupsRoundTrip(messageId: string, api: WaJs.PageApi)
    ensures
      var request := WaJs.WindowMessage(true, WaJs.GroupsRequestKind, messageId, None, None);
      var answer := WaJs.AnswerGroupsRequest(request, api);
      var listed := WaJs.CollectGroups(api.chats, api.domGroups);
      && AcceptGroupsResponse(request, messageId) == Ignore
      && answer.Some?
      && WaJs.AnswerGroupsRequest(answer.value, api).None?
      && AcceptGroupsResponse(answer.value, messageId) != Ignore
      && GroupsLoaded(Some(AcceptGroupsResponse(answer.value, messageId))) ==
           (if !api.loaded then ([], Some(WaJs.NotLoadedText))
            else if api.readiness.WaitFailed() then ([], Some(api.readiness.Message()))
            else if api.hasConn && !api.authenticated then ([], Some(WaJs.NotLoggedInText))
            else if listed == [] then ([], Some(NoGroupsText))
            else (listed, None))
  {
  }

  // ---------------------------------------------------------------------------
  // The screen
  // ---------------------------------------------------------------------------

  /** `CreateTagsState` */
  datatype EditorState = EditorState(
    tags: seq<Tag>,
    groups: seq<Group>,
    assignments: seq<Assignment>,
    isLoading: bool,
    isLoadingGroups: bool,
    groupsLoadError: Option<string>,
    showCreateModal: bool,
    showDeleteConfirm: bool,
    tagToDelete: Option<string>,
    editingTag: Option<Tag>,
    newTagName: string,
    newTagColor: string,
    selectedTagId: Option<string>,
    selectedGroupIds: set<string>,   // pending selection, not yet saved
    savedGroupIds: set<string>,      // what the database holds for the selected tag
    searchQuery: string,
    hasUnsavedChanges: bool)

  /** `(t, g)` is assigned afterwards exactly when it was before, unless `t` is `tagId` and
      `g` is one of the `touched` groups. */
  ghost predicate SamePairsOutside(before: Store, after: Store, tagId: string, touched: set<string>) {
    forall t, g :: (t != tagId || g !in touched) ==>
      (HasAssignment(after, t, g) <==> HasAssignment(before, t, g))
  }

  /** The newly ticked groups that `handleSaveGroups` assigns: ticked, not saved yet, and
      present in the group list. */
  function ToAdd(selected: set<string>, saved: set<string>, groups: seq<Group>): (ids: set<string>)
    ensures forall g :: g in ids ==> g in selected && g !in saved
    ensures forall g :: g in ids <==> g in selected - saved && exists x :: x in groups && x.id == g
  {
    set g | g in selected - saved && FindGroup(groups, g).Some?
  }

  /** The assignment table after a save: the tag has each `added` group and none of the
      `removed` ones, and no other pair has changed. */
  ghost predicate SavedSelection(before: Store, after: Store, tagId: string,
                                 added: set<string>, removed: set<string>)
  {
    && SamePairsOutside(before, after, tagId, added + removed)
    && (forall g :: g in added ==> HasAssignment(after, tagId, g))
    && (forall g :: g in removed ==> !HasAssignment(after, tagId, g))
  }

  /** Saving in two steps: first assigning the groups `added`, then unassigning the groups
      `removed`. When the two are disjoint, the added groups stay assigned, and only the
      pairs of the tag with either kind of group have changed. */
  lemma SaveSteps(s0: Store, s1: Store, s2: Store, tagId: string,
                  added: set<string>, removed: set<string>)
    requires SamePairsOutside(s0, s1, tagId, added)
    requires SamePairsOutside(s1, s2, tagId, removed)
    requires forall g :: g in added ==> HasAssignment(s1, tagId, g)
    requires forall g :: g in removed ==> !HasAssignment(s2, tagId, g)
    requires added !! removed
    ensures SavedSelection(s0, s2, tagId, added, removed)
  {
    forall g | g in added
      ensures HasAssignment(s2, tagId, g)
    {
      assert g !in removed;
    }
  }

  /** Where the first loop of `handleSaveGroups` stands after `i` groups. The table is free of
      duplicates. Each of the first `i` ids that names a known group is assigned to the tag.
      Only the tag's `touched` groups differ from `start`. */
  ghost predicate AssignedSoFar(start: Store, st: Store, tagId: string, ids: seq<string>,
                                groups: seq<Group>, touched: set<string>, i: nat)
  {
    && i <= |ids|
    && AssignmentsUnique(st)
    && (forall j :: 0 <= j < i && FindGroup(groups, ids[j]).Some? ==> HasAssignment(st, tagId, ids[j]))
    && SamePairsOutside(start, st, tagId, touched)
  }

  /** One step of that loop. An id that names no group changes nothing. Otherwise the
      assignment either succeeds and the loop moves on, or is rejected because the fresh
      id is already in use. */
  lemma AssignNext(start: Store, before: Store, tagId: string, ids: seq<string>, groups: seq<Group>,
                   touched: set<string>, freshId: nat -> string, i: nat, now: int)
    requires i < |ids|
    requires AssignedSoFar(start, before, tagId, ids, groups, touched, i)
    requires forall g :: g in ids && FindGroup(groups, g).Some? ==> g in touched
    ensures FindGroup(groups, ids[i]).None? ==>
      AssignedSoFar(start, before, tagId, ids, groups, touched, i + 1)
    ensures FindGroup(groups, ids[i]).Some? ==>
      var spec := AssignSpec(before, tagId, ids[i], FindGroup(groups, ids[i]).value.name, freshId(i), now);
      && (spec.Success? ==> AssignedSoFar(start, spec.value, tagId, ids, groups, touched, i + 1))
      && (spec.Failure? ==> freshId(i) in before)
  {
    var group := FindGroup(groups, ids[i]);
    if group.Some? {
      var spec := AssignSpec(before, tagId, ids[i], group.value.name, freshId(i), now);
      if spec.Success? {
        AssignStep(start, before, tagId, ids[i], group.value.name, freshId(i), now, touched);
        forall j | 0 <= j < i + 1 && FindGroup(groups, ids[j]).Some?
          ensures HasAssignment(spec.value, tagId, ids[j])
        {
          if j < i {
            assert HasAssignment(before, tagId, ids[j]);
          }
        }
      }
    } else {
      forall j | 0 <= j < i + 1 && FindGroup(groups, ids[j]).Some?
        ensures HasAssignment(before, tagId, ids[j])
      {
        assert j < i;
      }
    }
  }

  /** Where the second loop of `handleSaveGroups` stands after `j` groups. The table is free
      of duplicates, none of the first `j` groups is assigned to the tag, and only the
      tag's `touched` groups differ from `start`. */
  ghost predicate RemovedSoFar(start: Store, st: Store, tagId: string, ids: seq<string>,
                               touched: set<string>, j: nat)
  {
    && j <= |ids|
    && AssignmentsUnique(st)
    && (forall m :: 0 <= m < j ==> !HasAssignment(st, tagId, ids[m]))
    && SamePairsOutside(start, st, tagId, touched)
  }

  /** One step of that loop: unassigning the next group moves it forward. */
  lemma UnassignNext(start: Store, before: Store, after: Store, tagId: string, ids: seq<string>,
                     touched: set<string>, j: nat)
    requires j < |ids| && ids[j] in touched
    requires RemovedSoFar(start, before, tagId, ids, touched, j)
    requires UnassignSpec(before, after, tagId, ids[j])
    ensures RemovedSoFar(start, after, tagId, ids, touched, j + 1)
  {
    UnassignRemovesPair(before, after, tagId, ids[j]);
    forall m | 0 <= m < j + 1
      ensures !HasAssignment(after, tagId, ids[m])
    {
      if m < j {
        assert !HasAssignment(before, tagId, ids[m]);
      }
    }
  }

  /** One assignment made while saving: the table stays free of duplicates, gains the pair,
      keeps every group the tag already had, gains no key but the fresh one, and still
      differs from `start` only on the tag's `touched` groups. */
  lemma AssignStep(start: Store, before: Store, tagId: string, groupId: string, groupName: string,
                   newId: string, now: int, touched: set<string>)
    requires AssignmentsUnique(before)
    requires AssignSpec(before, tagId, groupId, groupName, newId, now).Success?
    requires groupId in touched
    requires SamePairsOutside(start, before, tagId, touched)
    ensures var after := AssignSpec(before, tagId, groupId, groupName, newId, now).value;
      && AssignmentsUnique(after)
      && HasAssignment(after, tagId, groupId)
      && SamePairsOutside(start, after, tagId, touched)
      && (forall g :: HasAssignment(before, tagId, g) ==> HasAssignment(after, tagId, g))
      && (forall k :: k in after ==> k in before || k == newId)
  {
    AssignEstablishes(before, tagId, groupId, groupName, newId, now);
    AssignKeepsOtherPairs(before, tagId, groupId, groupName, newId, now);
    AssignKeepsUnique(before, tagId, groupId, groupName, newId, now);
  }

  /** After a tag is deleted, none of its assignments is left, nor listed. */
  lemma NothingLeftOfTag(st: Store, tagId: string, listed: seq<Assignment>)
    requires forall a :: a in listed <==> AssignmentRecord(a) in WithoutTag(st, tagId).Values
    ensures forall g :: !HasAssignment(WithoutTag(st, tagId), tagId, g)
    ensures forall a :: a in listed ==> a.tagId != tagId
  {
    WithoutTagCascade(st, tagId);
    forall a | a in listed
      ensures a.tagId != tagId
    {
      var after := WithoutTag(st, tagId);
      var k :| k in after && after[k] == AssignmentRecord(a);
      assert !IsAssignmentOf(after[k], tagId, a.groupId);
    }
  }

  /** The group ids of a tag's assignments are exactly the groups assigned to it. */
  lemma AssignedGroupIds(st: Store, tagId: string, assignments: seq<Assignment>)
    requires forall a :: a in assignments <==> AssignmentRecord(a) in st.Values && a.tagId == tagId
    ensures forall g :: g in (set a | a in assignments :: a.groupId) <==> HasAssignment(st, tagId, g)
  {
    forall g ensures g in (set a | a in assignments :: a.groupId) <==> HasAssignment(st, tagId, g) {
      if g in (set a | a in assignments :: a.groupId) {
        var a :| a in assignments && a.groupId == g;
        var k :| k in st && st[k] == AssignmentRecord(a);
        assert IsAssignmentOf(st[k], tagId, g);
      }
      if HasAssignment(st, tagId, g) {
        var k :| k in st && IsAssignmentOf(st[k], tagId, g);
        assert st[k].assignment in assignments;
      }
    }
  }

  class TagEditor {
    /** The database the screen reads and writes. */
    const db: DbManager
    /** `this.state` */
    var state: EditorState

    /** The database is consistent. No (tag, group) pair is assigned twice, which holds
        because assignments are only written through `assignGroupToTag`. The unsaved-changes
        flag is set exactly when the pending selection differs from the saved one. */
    ghost predicate Valid()
      reads this, db
    {
      && DbConsistent()
      && (state.hasUnsavedChanges <==> state.selectedGroupIds != state.savedGroupIds)
    }

    /** The database half of `Valid()`. */
    ghost predicate DbConsistent()
      reads db
    {
      db.Valid() && AssignmentsUnique(db.stores[TagGroupAssignments])
    }

    /** The component's initial state, over the given database. */
    constructor (db: DbManager)
      requires db.Valid() && AssignmentsUnique(db.stores[TagGroupAssignments])
      ensures Valid() && this.db == db
      ensures state == EditorState([], [], [], true, false, None, false, false, None, None, "",
                                   TagColors[0], None, {}, {}, "", false)
    {
      this.db := db;
      state := EditorState([], [], [], true, false, None, false, false, None, None, "",
                           TagColors[0], None, {}, {}, "", false);
    }

    /** `componentDidMount`: loads the tags, the groups and the assignments, then stops
        loading. Opening the database is not modelled. */
    method Mount(settled: Option<GroupsReply>)
      requires Valid()
      requires settled != Some(Ignore)
      modifies this
      ensures Valid()
      ensures state == old(state).(tags := state.tags, assignments := state.assignments,
                                   groups := GroupsLoaded(settled).0,
                                   groupsLoadError := GroupsLoaded(settled).1,
                                   isLoadingGroups := false, isLoading := false)
      ensures forall t :: t in state.tags <==> TagRecord(t) in db.stores[Tags].Values
      ensures forall a :: a in state.assignments <==>
        AssignmentRecord(a) in db.stores[TagGroupAssignments].Values
    {
      LoadTags();
      LoadGroups(settled);
      LoadAssignments();
      state := state.(isLoading := false);
    }

    /** `loadTags` */
    method LoadTags()
      requires Valid()
      modifies this
      ensures Valid()
      ensures state == old(state).(tags := state.tags)
      ensures forall t :: t in state.tags <==> TagRecord(t) in db.stores[Tags].Values
    {
      var tags := db.GetAllTags();
      state := state.(tags := tags);
    }

    /** `loadGroups`: the groups the page listed, or none and the reason why. It is also
        called while a tag is being selected, when the unsaved-changes flag is briefly out
        of step with the selection, so it does not rely on `Valid()`. */
    method LoadGroups(settled: Option<GroupsReply>)
      requires settled != Some(Ignore)
      modifies this
      ensures state == old(state).(groups := GroupsLoaded(settled).0,
                                   groupsLoadError := GroupsLoaded(settled).1,
                                   isLoadingGroups := false)
    {
      var loaded := GroupsLoaded(settled);
      state := state.(groups := loaded.0, isLoadingGroups := false, groupsLoadError := loaded.1);
    }

    /** `loadAssignments`: every assignment in the database. */
    method LoadAssignments()
      requires Valid()
      modifies this
      ensures Valid()
      ensures state == old(state).(assignments := state.assignments)
      ensures forall a :: a in state.assignments <==>
        AssignmentRecord(a) in db.stores[TagGroupAssignments].Values
    {
      var rs := db.GetAll(TagGroupAssignments);
      assert forall i :: 0 <= i < |rs| ==> rs[i].AssignmentRecord? by {
        forall i | 0 <= i < |rs| ensures rs[i].AssignmentRecord? {
          assert rs[i] in db.stores[TagGroupAssignments].Values;
        }
      }
      var assignments := seq(|rs|, i requires 0 <= i < |rs| => rs[i].assignment);
      forall a | AssignmentRecord(a) in db.stores[TagGroupAssignments].Values
        ensures a in assignments
      {
        var i :| 0 <= i < |rs| && rs[i] == AssignmentRecord(a);
        assert assignments[i] == a;
      }
      state := state.(assignments := assignments);
    }

    /** `handleCreateTag`: a blank name does nothing. Otherwise the tag is created with the
        trimmed name, the tag list is reloaded and the dialog is reset. When the database
        rejects the new tag, the handler fails and the screen stays as it was. */
    method HandleCreateTag(newId: string, now: int) returns (outcome: Result<(), DbError>)
      requires Valid()
      modifies this, db
      ensures Valid()
      ensures IsBlank(old(state.newTagName)) ==>
        outcome.Success? && state == old(state) && db.stores == old(db.stores)
      ensures !IsBlank(old(state.newTagName)) ==>
        (outcome.Success? <==> newId !in old(db.stores[Tags]))
      ensures outcome.Failure? ==>
        outcome.error == AddFailed(Tags) && state == old(state) && db.stores == old(db.stores)
      ensures !IsBlank(old(state.newTagName)) && outcome.Success? ==>
        var tag := Tag(newId, Trim(old(state.newTagName)), old(state.newTagColor), now, now);
        && tag.name != []
        && db.stores == old(db.stores)[Tags := old(db.stores[Tags])[newId := TagRecord(tag)]]
        && state == old(state).(tags := state.tags, showCreateModal := false, newTagName := "",
                                newTagColor := TagColors[0])
        && (forall t :: t in state.tags <==> TagRecord(t) in db.stores[Tags].Values)
    {
      if IsBlank(state.newTagName) {
        return Success(());
      }
      var created := db.CreateTag(Trim(state.newTagName), state.newTagColor, newId, now);
      if created.Failure? {
        return Failure(created.error);
      }
      LoadTags();
      state := state.(showCreateModal := false, newTagName := "", newTagColor := TagColors[0]);
      return Success(());
    }

    /** `handleUpdateTag`: with no tag being edited or a blank name, does nothing. Otherwise
        the stored tag gets the trimmed name and the chosen colour, and the dialog is reset.
        A tag that is no longer stored makes the handler fail and leaves the screen as it
        was. */
    method HandleUpdateTag(now: int) returns (outcome: Result<(), DbError>)
      requires Valid()
      modifies this, db
      ensures Valid()
      ensures old(state.editingTag).None? || IsBlank(old(state.newTagName)) ==>
        outcome.Success? && state == old(state) && db.stores == old(db.stores)
      ensures old(state.editingTag).Some? && !IsBlank(old(state.newTagName)) ==>
        (outcome.Failure? <==> old(state.editingTag).value.id !in old(db.stores[Tags]))
      ensures outcome.Failure? ==>
        outcome.error == TagNotFound && state == old(state) && db.stores == old(db.stores)
      ensures old(state.editingTag).Some? && !IsBlank(old(state.newTagName)) && outcome.Success? ==>
        var id := old(state.editingTag).value.id;
        var stored := old(db.stores[Tags])[id].tag;
        var updated := Tag(stored.id, Trim(old(state.newTagName)), old(state.newTagColor),
                           stored.createdAt, now);
        && db.stores == old(db.stores)[Tags := old(db.stores[Tags])[updated.id := TagRecord(updated)]]
        && state == old(state).(tags := state.tags, showCreateModal := false, editingTag := None,
                                newTagName := "", newTagColor := TagColors[0])
        && (forall t :: t in state.tags <==> TagRecord(t) in db.stores[Tags].Values)
    {
      if state.editingTag.None? || IsBlank(state.newTagName) {
        return Success(());
      }
      var patch := TagPatch(None, Some(Trim(state.newTagName)), Some(state.newTagColor), None, None);
      var updated := db.UpdateTag(state.editingTag.value.id, patch, now);
      if updated.Failure? {
        return updated;
      }
      LoadTags();
      state := state.(showCreateModal := false, editingTag := None, newTagName := "",
                      newTagColor := TagColors[0]);
      return Success(());
    }

    /** `handleDeleteTag`: asks for confirmation before deleting the tag. */
    method HandleDeleteTag(tagId: string)
      requires Valid()
      modifies this
      ensures Valid()
      ensures state == old(state).(showDeleteConfirm := true, tagToDelete := Some(tagId))
    {
      state := state.(showDeleteConfirm := true, tagToDelete := Some(tagId));
    }

    /** `cancelDeleteTag` */
    method CancelDeleteTag()
      requires Valid()
      modifies this
      ensures Valid()
      ensures state == old(state).(showDeleteConfirm := false, tagToDelete := None)
    {
      state := state.(showDeleteConfirm := false, tagToDelete := None);
    }

    /** `confirmDeleteTag`: does nothing unless a tag awaits deletion. Otherwise it deletes
        the tag and every assignment of it, reloads both lists and closes the confirmation.
        When the deleted tag was the selected one, the selection is cleared too. */
    method ConfirmDeleteTag()
      requires Valid()
      modifies this, db
      ensures Valid()
      ensures !IsSet(old(state.tagToDelete)) ==> state == old(state) && db.stores == old(db.stores)
      ensures IsSet(old(state.tagToDelete)) ==>
        var tagId := old(state.tagToDelete).value;
        var kept := if old(state.selectedTagId) == Some(tagId)
                    then old(state).(selectedTagId := None, selectedGroupIds := {},
                                     savedGroupIds := {}, hasUnsavedChanges := false)
                    else old(state);
        && db.stores == old(db.stores)
             [TagGroupAssignments := WithoutTag(old(db.stores[TagGroupAssignments]), tagId)]
             [Tags := old(db.stores[Tags]) - {tagId}]
        && (forall g :: !HasAssignment(db.stores[TagGroupAssignments], tagId, g))
        && state == kept.(tags := state.tags, assignments := state.assignments,
                          showDeleteConfirm := false, tagToDelete := None)
        && (forall t :: t in state.tags <==> TagRecord(t) in db.stores[Tags].Values)
        && (forall a :: a in state.assignments <==>
              AssignmentRecord(a) in db.stores[TagGroupAssignments].Values)
        && (forall a :: a in state.assignments ==> a.tagId != tagId)
    {
      if !IsSet(state.tagToDelete) {
        return;
      }
      var tagId := state.tagToDelete.value;
      ghost var before := db.stores[TagGroupAssignments];
      WithoutTagCascade(before, tagId);
      db.DeleteTag(tagId);
      LoadTags();
      LoadAssignments();
      NothingLeftOfTag(before, tagId, state.assignments);
      var kept := if state.selectedTagId == Some(tagId)
                  then state.(selectedTagId := None, selectedGroupIds := {}, savedGroupIds := {},
                              hasUnsavedChanges := false)
                  else state;
      state := kept.(showDeleteConfirm := false, tagToDelete := None);
    }

    /** `handleSelectTag`: selects the tag with no unsaved changes, loads the groups first
        when the list is empty, and starts both the pending and the saved selection from
        the groups the database assigns to the tag. */
    method SelectTag(tagId: string, settled: Option<GroupsReply>)
      requires Valid()
      requires settled != Some(Ignore)
      modifies this
      ensures Valid()
      ensures forall g :: g in state.selectedGroupIds <==>
        HasAssignment(db.stores[TagGroupAssignments], tagId, g)
      ensures var reload := old(state.groups) == [];
        state == old(state).(selectedTagId := Some(tagId), hasUnsavedChanges := false,
                             selectedGroupIds := state.selectedGroupIds,
                             savedGroupIds := state.selectedGroupIds,
                             groups := if reload then GroupsLoaded(settled).0 else old(state.groups),
                             groupsLoadError := if reload then GroupsLoaded(settled).1
                                                else old(state.groupsLoadError),
                             isLoadingGroups := if reload then false else old(state.isLoadingGroups))
    {
      state := state.(selectedTagId := Some(tagId), hasUnsavedChanges := false);
      if |state.groups| == 0 {
        LoadGroups(settled);
      }
      var groupIds := AssignedGroups(tagId);
      state := state.(selectedGroupIds := groupIds, savedGroupIds := groupIds);
    }

    /** `new Set((await getGroupsForTag(tagId)).map(a => a.groupId))`: the groups assigned
        to the tag. */
    method AssignedGroups(tagId: string) returns (groupIds: set<string>)
      requires db.Valid()
      ensures forall g :: g in groupIds <==> HasAssignment(db.stores[TagGroupAssignments], tagId, g)
    {
      var assignments := db.GetGroupsForTag(tagId);
      groupIds := set a | a in assignments :: a.groupId;
      AssignedGroupIds(db.stores[TagGroupAssignments], tagId, assignments);
    }

    /** `handleToggleGroup`: with no tag selected, does nothing. Otherwise it ticks or
        unticks the group in the pending selection and recomputes whether anything is
        unsaved. */
    method ToggleGroup(groupId: string)
      requires Valid()
      modifies this
      ensures Valid()
      ensures !IsSet(old(state.selectedTagId)) ==> state == old(state)
      ensures IsSet(old(state.selectedTagId)) ==>
        var selected := Toggled(old(state.selectedGroupIds), groupId);
        state == old(state).(selectedGroupIds := selected,
                             hasUnsavedChanges := selected != old(state.savedGroupIds))
    {
      if !IsSet(state.selectedTagId) {
        return;
      }
      var newSelectedIds := state.selectedGroupIds;
      if groupId in newSelectedIds {
        newSelectedIds := newSelectedIds - {groupId};
      } else {
        newSelectedIds := newSelectedIds + {groupId};
      }
      var same := SetsAreEqual(newSelectedIds, state.savedGroupIds);
      state := state.(selectedGroupIds := newSelectedIds, hasUnsavedChanges := !same);
    }

    /** The first loop of `handleSaveGroups`: assigns the tag to each listed group id that
        names a known group, in order. It stops at the first rejected assignment, which
        happens only when the fresh id drawn for it is already in use. */
    method AssignEach(tagId: string, ids: seq<string>, groups: seq<Group>, ghost touched: set<string>,
                      freshId: nat -> string, now: int) returns (ok: bool)
      requires db.Valid() && AssignmentsUnique(db.stores[TagGroupAssignments])
      requires forall g :: g in ids && FindGroup(groups, g).Some? ==> g in touched
      modifies db
      ensures db.Valid() && AssignmentsUnique(db.stores[TagGroupAssignments])
      ensures db.stores == old(db.stores)[TagGroupAssignments := db.stores[TagGroupAssignments]]
      ensures SamePairsOutside(old(db.stores[TagGroupAssignments]), db.stores[TagGroupAssignments],
                               tagId, touched)
      ensures ok ==> forall g :: g in ids && FindGroup(groups, g).Some? ==>
        HasAssignment(db.stores[TagGroupAssignments], tagId, g)
      ensures !ok ==> exists i: nat :: freshId(i) in db.stores[TagGroupAssignments]
    {
      ghost var start := db.stores[TagGroupAssignments];
      var i := 0;
      while i < |ids|
        invariant 0 <= i <= |ids|
        invariant db.Valid()
        invariant db.stores == old(db.stores)[TagGroupAssignments := db.stores[TagGroupAssignments]]
        invariant AssignedSoFar(start, db.stores[TagGroupAssignments], tagId, ids, groups, touched, i)
      {
        var group := FindGroup(groups, ids[i]);
        AssignNext(start, db.stores[TagGroupAssignments], tagId, ids, groups, touched, freshId, i, now);
        if group.Some? {
          var r := db.AssignGroupToTag(tagId, ids[i], group.value.name, freshId(i), now);
          if r.Failure? {
            assert freshId(i) in db.stores[TagGroupAssignments];
            return false;
          }
        }
        i := i + 1;
      }
      forall g | g in ids && FindGroup(groups, g).Some?
        ensures HasAssignment(db.stores[TagGroupAssignments], tagId, g)
      {
        var m :| 0 <= m < |ids| && ids[m] == g;
      }
      return true;
    }

    /** The second loop of `handleSaveGroups`: unassigns each listed group id from the tag. */
    method UnassignEach(tagId: string, ids: seq<string>, ghost touched: set<string>)
      requires db.Valid() && AssignmentsUnique(db.stores[TagGroupAssignments])
      requires forall g :: g in ids ==> g in touched
      modifies db
      ensures db.Valid() && AssignmentsUnique(db.stores[TagGroupAssignments])
      ensures db.stores == old(db.stores)[TagGroupAssignments := db.stores[TagGroupAssignments]]
      ensures SamePairsOutside(old(db.stores[TagGroupAssignments]), db.stores[TagGroupAssignments],
                               tagId, touched)
      ensures forall g :: g in ids ==> !HasAssignment(db.stores[TagGroupAssignments], tagId, g)
    {
      ghost var start := db.stores[TagGroupAssignments];
      var j := 0;
      while j < |ids|
        invariant 0 <= j <= |ids|
        invariant db.Valid()
        invariant db.stores == old(db.stores)[TagGroupAssignments := db.stores[TagGroupAssignments]]
        invariant RemovedSoFar(start, db.stores[TagGroupAssignments], tagId, ids, touched, j)
      {
        ghost var before := db.stores[TagGroupAssignments];
        db.UnassignGroupFromTag(tagId, ids[j]);
        UnassignNext(start, before, db.stores[TagGroupAssignments], tagId, ids, touched, j);
        j := j + 1;
      }
    }

    /** The database writes of `handleSaveGroups` for tag `tagId`. It assigns the newly
        ticked groups that are in the group list, then unassigns the unticked ones. It
        stops after the first rejected assignment, which happens only when a fresh id is
        already in use. */
    method WriteSelection(tagId: string, selected: set<string>, saved: set<string>,
                          groups: seq<Group>, freshId: nat -> string, now: int) returns (ok: bool)
      requires db.Valid() && AssignmentsUnique(db.stores[TagGroupAssignments])
      modifies db
      ensures db.Valid() && AssignmentsUnique(db.stores[TagGroupAssignments])
      ensures db.stores == old(db.stores)[TagGroupAssignments := db.stores[TagGroupAssignments]]
      ensures SamePairsOutside(old(db.stores[TagGroupAssignments]), db.stores[TagGroupAssignments],
                               tagId, ToAdd(selected, saved, groups) + (saved - selected))
      ensures ok ==> SavedSelection(old(db.stores[TagGroupAssignments]), db.stores[TagGroupAssignments],
                                    tagId, ToAdd(selected, saved, groups), saved - selected)
      ensures !ok ==> exists i: nat :: freshId(i) in db.stores[TagGroupAssignments]
    {
      ghost var start := db.stores[TagGroupAssignments];
      ghost var added := ToAdd(selected, saved, groups);
      ghost var removed := saved - selected;
      var toAdd, toRemove := PendingChanges(selected, saved);
      ok := AssignEach(tagId, toAdd, groups, added, freshId, now);
      if !ok {
        return;
      }
      ghost var middle := db.stores[TagGroupAssignments];
      UnassignEach(tagId, toRemove, removed);
      SaveSteps(start, middle, db.stores[TagGroupAssignments], tagId, added, removed);
    }

    /** `handleSaveGroups`: with no tag selected, does nothing. Otherwise it writes the
        pending selection to the database and makes it the saved one. Nothing else in the
        database changes. When an assignment is rejected, the handler stops there (after
        any earlier writes) and leaves the screen as it was. That happens only if a fresh
        id it drew was already taken. */
    method SaveGroups(freshId: nat -> string, now: int) returns (saved: bool)
      requires Valid()
      modifies this, db
      ensures Valid()
      ensures db.stores == old(db.stores)[TagGroupAssignments := db.stores[TagGroupAssignments]]
      ensures !IsSet(old(state.selectedTagId)) ==>
        !saved && state == old(state) && db.stores == old(db.stores)
      ensures !saved ==> state == old(state)
      ensures saved ==>
        && IsSet(old(state.selectedTagId))
        && state == old(state).(savedGroupIds := old(state.selectedGroupIds),
                                hasUnsavedChanges := false, assignments := state.assignments)
        && (forall a :: a in state.assignments <==>
              AssignmentRecord(a) in db.stores[TagGroupAssignments].Values)
      ensures IsSet(old(state.selectedTagId)) ==>
        var added := ToAdd(old(state.selectedGroupIds), old(state.savedGroupIds), old(state.groups));
        var removed := old(state.savedGroupIds) - old(state.selectedGroupIds);
        && SamePairsOutside(old(db.stores[TagGroupAssignments]), db.stores[TagGroupAssignments],
                            old(state.selectedTagId).value, added + removed)
        && (saved ==> SavedSelection(old(db.stores[TagGroupAssignments]), db.stores[TagGroupAssignments],
                                     old(state.selectedTagId).value, added, removed))
        && (!saved ==> exists i: nat :: freshId(i) in db.stores[TagGroupAssignments])
    {
      if !IsSet(state.selectedTagId) {
        return false;
      }
      var ok := WriteSelection(state.selectedTagId.value, state.selectedGroupIds,
                               state.savedGroupIds, state.groups, freshId, now);
      if !ok {
        return false;
      }
      LoadAssignments();
      state := state.(savedGroupIds := state.selectedGroupIds, hasUnsavedChanges := false);
      return true;
    }

    /** `openCreateModal`: an empty dialog for a new tag in the default colour. */
    method OpenCreateModal()
      requires Valid()
      modifies this
      ensures Valid()
      ensures state == old(state).(showCreateModal := true, editingTag := None, newTagName := "",
                                   newTagColor := TagColors[0])
    {
      state := state.(showCreateModal := true, editingTag := None, newTagName := "",
                      newTagColor := TagColors[0]);
    }

    /** `openEditModal`: the dialog filled in with the tag's name and colour. */
    method OpenEditModal(tag: Tag)
      requires Valid()
      modifies this
      ensures Valid()
      ensures state == old(state).(showCreateModal := true, editingTag := Some(tag),
                                   newTagName := tag.name, newTagColor := tag.color)
    {
      state := state.(showCreateModal := true, editingTag := Some(tag), newTagName := tag.name,
                      newTagColor := tag.color);
    }

    /** `closeModal`: closes the dialog and forgets what was typed. */
    method CloseModal()
      requires Valid()
      modifies this
      ensures Valid()
      ensures state == old(state).(showCreateModal := false, editingTag := None, newTagName := "",
                                   newTagColor := TagColors[0])
    {
      state := state.(showCreateModal := false, editingTag := None, newTagName := "",
                      newTagColor := TagColors[0]);
    }
  }
}
