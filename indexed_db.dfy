/** The extension's local database (src/utils/IndexedDBManager.ts): three IndexedDB object
    stores, each keyed by its records' `id`: tags, scheduled messages, and the assignments
    of WhatsApp groups to tags. An object store is modelled as a map from key to record;
    `add` refuses a key that is already present, `put` inserts or overwrites.

    Opening the database, transactions and their failure callbacks are not modelled, nor
    is the clock or the random part of generated ids: fresh ids and timestamps are
    parameters. */
module IndexedDb {
  import opened Js

  datatype StoreName = Tags | ScheduledMessages | TagGroupAssignments

  datatype Tag = Tag(id: string, name: string, color: string, createdAt: int, updatedAt: int)

  datatype StoredAttachment = StoredAttachment(name: string, mimeType: string, size: int, path: string)

  datatype Repeat = NoRepeat | Daily | Weekly | Monthly

  datatype Status = Pending | Sending | Sent | Failed | Cancelled

  datatype ScheduledMessage = ScheduledMessage(
    id: string, message: string, attachment: Option<StoredAttachment>,
    groupIds: seq<string>, tagIds: seq<string>, scheduledTime: int, createdTime: int,
    repeatOption: Repeat, status: Status,
    sentToGroups: Option<seq<string>>, failedGroups: Option<seq<string>>)

  datatype Assignment = Assignment(id: string, tagId: string, groupId: string, groupName: string,
                                   createdAt: int)

  /** A record of any of the three stores. */
  datatype Record =
    | TagRecord(tag: Tag)
    | MessageRecord(msg: ScheduledMessage)
    | AssignmentRecord(assignment: Assignment)
  {
    /** The record's key: every store uses `id` as its key path. */
    function Id(): string {
      match this
      case TagRecord(t) => t.id
      case MessageRecord(m) => m.id
      case AssignmentRecord(a) => a.id
    }

    /** The store records of this shape belong to. */
    function Kind(): StoreName {
      match this
      case TagRecord(_) => Tags
      case MessageRecord(_) => ScheduledMessages
      case AssignmentRecord(_) => TagGroupAssignments
    }
  }

  /** An index key: the indexed fields are strings or numbers. */
  datatype IndexKey = Text(text: string) | Number(number: int)

  function StatusName(s: Status): string {
    match s
    case Pending => "pending"
    case Sending => "sending"
    case Sent => "sent"
    case Failed => "failed"
    case Cancelled => "cancelled"
  }

  /** The indexes created for each store when the database is set up. */
  function IndexNames(s: StoreName): set<string> {
    match s
    case Tags => {"name", "createdAt"}
    case ScheduledMessages => {"scheduledTime", "status", "createdTime"}
    case TagGroupAssignments => {"tagId", "groupId"}
  }

  /** The value a record has for an indexed field, if it has that field at all. */
  function IndexValue(r: Record, index: string): Option<IndexKey> {
    match r
    case TagRecord(t) =>
      if index == "name" then Some(Text(t.name))
      else if index == "createdAt" then Some(Number(t.createdAt))
      else None
    case MessageRecord(m) =>
      if index == "scheduledTime" then Some(Number(m.scheduledTime))
      else if index == "status" then Some(Text(StatusName(m.status)))
      else if index == "createdTime" then Some(Number(m.createdTime))
      else None
    case AssignmentRecord(a) =>
      if index == "tagId" then Some(Text(a.tagId))
      else if index == "groupId" then Some(Text(a.groupId))
      else None
  }

  predicate Matches(r: Record, index: string, v: IndexKey) {
    IndexValue(r, index) == Some(v)
  }

  /** The ways the database operations reject. */
  datatype DbError =
    | AddFailed(store: StoreName)   // `add` of a key that is already present
    | IndexNotFound(index: string)  // `store.index(name)` of an index the store lacks
    | TagNotFound
    | MessageNotFound

  /** An object store: records by key. */
  type Store = map<string, Record>

  /** Every record is filed under its own id. */
  ghost predicate Keyed(st: Store) {
    forall k :: k in st ==> st[k].Id() == k
  }

  /** Every record has the shape of the store it is in. */
  ghost predicate OfKind(st: Store, s: StoreName) {
    forall k :: k in st ==> st[k].Kind() == s
  }

  /** The records are listed once each: no two share a key. */
  ghost predicate Distinct(rs: seq<Record>) {
    forall i, j :: 0 <= i < j < |rs| ==> rs[i].Id() != rs[j].Id()
  }

  // ---------------------------------------------------------------------------
  // Assignments of groups to tags
  // ---------------------------------------------------------------------------

  predicate IsAssignmentOf(r: Record, tagId: string, groupId: string) {
    r.AssignmentRecord? && r.assignment.tagId == tagId && r.assignment.groupId == groupId
  }

  /** Group `groupId` is assigned to tag `tagId`. */
  ghost predicate HasAssignment(st: Store, tagId: string, groupId: string) {
    exists k :: k in st && IsAssignmentOf(st[k], tagId, groupId)
  }

  /** At most one assignment per (tag, group) pair. */
  ghost predicate AssignmentsUnique(st: Store) {
    forall k1, k2 ::
      k1 in st && k2 in st && st[k1].AssignmentRecord? && st[k2].AssignmentRecord?
      && st[k1].assignment.tagId == st[k2].assignment.tagId
      && st[k1].assignment.groupId == st[k2].assignment.groupId
      ==> k1 == k2
  }

  /** `a.groupId === groupId` */
  predicate HasGroupId(r: Record, groupId: string) {
    r.AssignmentRecord? && r.assignment.groupId == groupId
  }

  /** `rs.findIndex(a => a.groupId === groupId)`, with `|rs|` for "none". */
  function FirstWithGroup(rs: seq<Record>, groupId: string): (i: nat)
    ensures i <= |rs|
    ensures i < |rs| ==> HasGroupId(rs[i], groupId)
    ensures forall j :: 0 <= j < i ==> !HasGroupId(rs[j], groupId)
  {
    if rs == [] then 0
    else if HasGroupId(rs[0], groupId) then 0
    else 1 + FirstWithGroup(rs[1..], groupId)
  }

  /** The assignment table after `assignGroupToTag`: unchanged when the pair is already
      assigned, otherwise the new assignment added under the fresh id (which fails when
      that id is taken). */
  ghost function AssignSpec(st: Store, tagId: string, groupId: string, groupName: string,
                            newId: string, now: int): Result<Store, DbError>
  {
    if HasAssignment(st, tagId, groupId) then Success(st)
    else if newId in st then Failure(AddFailed(TagGroupAssignments))
    else Success(st[newId := AssignmentRecord(Assignment(newId, tagId, groupId, groupName, now))])
  }

  /** After a successful assignment the pair is assigned, and nothing already there is lost. */
  lemma AssignEstablishes(st: Store, tagId: string, groupId: string, groupName: string,
                          newId: string, now: int)
    requires AssignSpec(st, tagId, groupId, groupName, newId, now).Success?
    ensures var after := AssignSpec(st, tagId, groupId, groupName, newId, now).value;
      && HasAssignment(after, tagId, groupId)
      && (forall k :: k in st ==> k in after && after[k] == st[k])
  {
    var after := AssignSpec(st, tagId, groupId, groupName, newId, now).value;
    if !HasAssignment(st, tagId, groupId) {
      assert IsAssignmentOf(after[newId], tagId, groupId);
    }
  }

  /** Assigning touches no other pair: every other (tag, group) pair is assigned afterwards
      exactly when it was before. */
  lemma AssignKeepsOtherPairs(st: Store, tagId: string, groupId: string, groupName: string,
                              newId: string, now: int)
    requires AssignSpec(st, tagId, groupId, groupName, newId, now).Success?
    ensures var after := AssignSpec(st, tagId, groupId, groupName, newId, now).value;
      forall t, g :: (t, g) != (tagId, groupId) ==>
        (HasAssignment(after, t, g) <==> HasAssignment(st, t, g))
  {
    var after := AssignSpec(st, tagId, groupId, groupName, newId, now).value;
    forall t, g | (t, g) != (tagId, groupId)
      ensures HasAssignment(after, t, g) <==> HasAssignment(st, t, g)
    {
      if HasAssignment(after, t, g) {
        var k :| k in after && IsAssignmentOf(after[k], t, g);
        assert k in st && st[k] == after[k];
      }
      if HasAssignment(st, t, g) {
        var k :| k in st && IsAssignmentOf(st[k], t, g);
        assert k in after && after[k] == st[k];
      }
    }
  }

  /** Assigning is idempotent: once assigned, assigning the same pair again (whatever the
      name, id and time) leaves the table as it is. */
  lemma AssignIdempotent(st: Store, tagId: string, groupId: string, groupName: string,
                         newId: string, now: int, name2: string, id2: string, now2: int)
    requires AssignSpec(st, tagId, groupId, groupName, newId, now).Success?
    ensures var after := AssignSpec(st, tagId, groupId, groupName, newId, now).value;
      AssignSpec(after, tagId, groupId, name2, id2, now2) == Success(after)
  {
    AssignEstablishes(st, tagId, groupId, groupName, newId, now);
  }

  /** Assigning keeps the table free of duplicate (tag, group) pairs. */
  lemma AssignKeepsUnique(st: Store, tagId: string, groupId: string, groupName: string,
                          newId: string, now: int)
    requires AssignmentsUnique(st)
    requires AssignSpec(st, tagId, groupId, groupName, newId, now).Success?
    ensures AssignmentsUnique(AssignSpec(st, tagId, groupId, groupName, newId, now).value)
  {
    if !HasAssignment(st, tagId, groupId) {
      var after := st[newId := AssignmentRecord(Assignment(newId, tagId, groupId, groupName, now))];
      forall k1, k2 |
        k1 in after && k2 in after && after[k1].AssignmentRecord? && after[k2].AssignmentRecord?
        && after[k1].assignment.tagId == after[k2].assignment.tagId
        && after[k1].assignment.groupId == after[k2].assignment.groupId
        ensures k1 == k2
      {
        if k1 == newId && k2 != newId {
          assert IsAssignmentOf(st[k2], tagId, groupId);
        }
      }
    }
  }

  /** The assignment table after `unassignGroupFromTag`: one matching assignment removed,
      or no change when there is none. */
  ghost predicate UnassignSpec(before: Store, after: Store, tagId: string, groupId: string) {
    if HasAssignment(before, tagId, groupId) then
      exists k :: k in before && IsAssignmentOf(before[k], tagId, groupId) && after == before - {k}
    else
      after == before
  }

  /** In a table without duplicate pairs, unassigning removes the pair for good, keeps the
      table duplicate-free, and leaves every other pair assigned. */
  lemma UnassignRemovesPair(before: Store, after: Store, tagId: string, groupId: string)
    requires AssignmentsUnique(before)
    requires UnassignSpec(before, after, tagId, groupId)
    ensures !HasAssignment(after, tagId, groupId)
    ensures AssignmentsUnique(after)
    ensures forall t, g :: HasAssignment(before, t, g) && (t, g) != (tagId, groupId) ==>
      HasAssignment(after, t, g)
    ensures forall t, g :: HasAssignment(after, t, g) ==> HasAssignment(before, t, g)
  {
    if HasAssignment(before, tagId, groupId) {
      var k :| k in before && IsAssignmentOf(before[k], tagId, groupId) && after == before - {k};
      forall j | j in after
        ensures !IsAssignmentOf(after[j], tagId, groupId)
      {
        assert before[j] == after[j];
      }
      forall t, g | HasAssignment(before, t, g) && (t, g) != (tagId, groupId)
        ensures HasAssignment(after, t, g)
      {
        var j :| j in before && IsAssignmentOf(before[j], t, g);
        assert j != k;
        assert j in after && IsAssignmentOf(after[j], t, g);
      }
      forall t, g | HasAssignment(after, t, g)
        ensures HasAssignment(before, t, g)
      {
        var j :| j in after && IsAssignmentOf(after[j], t, g);
        assert j in before && before[j] == after[j];
      }
    }
  }

  /** The assignment table after `deleteTag`: every assignment of the tag removed. */
  ghost function WithoutTag(st: Store, tagId: string): Store {
    map k | k in st && !Matches(st[k], "tagId", Text(tagId)) :: st[k]
  }

  /** Deleting a tag leaves none of its assignments, and keeps every other tag's. */
  lemma WithoutTagCascade(st: Store, tagId: string)
    ensures forall g :: !HasAssignment(WithoutTag(st, tagId), tagId, g)
    ensures forall t, g :: t != tagId ==>
      (HasAssignment(WithoutTag(st, tagId), t, g) <==> HasAssignment(st, t, g))
    ensures AssignmentsUnique(st) ==> AssignmentsUnique(WithoutTag(st, tagId))
  {
    var after := WithoutTag(st, tagId);
    forall t, g | t != tagId && HasAssignment(st, t, g)
      ensures HasAssignment(after, t, g)
    {
      var k :| k in st && IsAssignmentOf(st[k], t, g);
      assert k in after;
    }
  }

  /** Deleting, one key at a time, exactly the records that the `tagId` index lists for a
      tag leaves the table without that tag's assignments. */
  lemma RemovingListedKeys(st: Store, tagId: string, listed: seq<Record>)
    requires Keyed(st)
    requires forall x :: x in listed <==> x in st.Values && Matches(x, "tagId", Text(tagId))
    ensures st - (set j | 0 <= j < |listed| :: listed[j].Id()) == WithoutTag(st, tagId)
  {
    var removed := set j | 0 <= j < |listed| :: listed[j].Id();
    forall k | k in st
      ensures k in removed <==> Matches(st[k], "tagId", Text(tagId))
    {
      if Matches(st[k], "tagId", Text(tagId)) {
        assert st[k] in listed;
        var j :| 0 <= j < |listed| && listed[j] == st[k];
        assert listed[j].Id() == k;
      }
      if k in removed {
        var j :| 0 <= j < |listed| && listed[j].Id() == k;
        assert listed[j] in st.Values;
        var k' :| k' in st && st[k'] == listed[j];
        assert k' == k;
      }
    }
  }

  // ---------------------------------------------------------------------------
  // Partial updates
  // ---------------------------------------------------------------------------

  /** `Partial<Tag>`: the fields an update mentions. */
  datatype TagPatch = TagPatch(id: Option<string>, name: Option<string>, color: Option<string>,
                               createdAt: Option<int>, updatedAt: Option<int>)

  /** `{ ...existing, ...updates, updatedAt: now }`: mentioned fields replaced, the others
      kept, and the update time refreshed whatever the patch says. */
  function PatchTag(t: Tag, p: TagPatch, now: int): (u: Tag)
    ensures u.updatedAt == now
    ensures p.id.None? ==> u.id == t.id
    ensures p.name.None? ==> u.name == t.name
    ensures p.color.None? ==> u.color == t.color
    ensures p.createdAt.None? ==> u.createdAt == t.createdAt
    ensures p.id.Some? ==> u.id == p.id.value
    ensures p.name.Some? ==> u.name == p.name.value
    ensures p.color.Some? ==> u.color == p.color.value
    ensures p.createdAt.Some? ==> u.createdAt == p.createdAt.value
  {
    Tag(if p.id.Some? then p.id.value else t.id,
        if p.name.Some? then p.name.value else t.name,
        if p.color.Some? then p.color.value else t.color,
        if p.createdAt.Some? then p.createdAt.value else t.createdAt,
        now)
  }

  /** A new scheduled message as the caller describes it: everything but id, creation time
      and status. */
  datatype MessageDraft = MessageDraft(
    message: string, attachment: Option<StoredAttachment>, groupIds: seq<string>,
    tagIds: seq<string>, scheduledTime: int, repeatOption: Repeat,
    sentToGroups: Option<seq<string>>, failedGroups: Option<seq<string>>)

  /** `Partial<ScheduledMessage>`; `attachment`, `sentToGroups` and `failedGroups` are
      optional fields, so a patch either leaves them or sets them. */
  datatype MessagePatch = MessagePatch(
    id: Option<string>, message: Option<string>, attachment: Option<StoredAttachment>,
    groupIds: Option<seq<string>>, tagIds: Option<seq<string>>, scheduledTime: Option<int>,
    createdTime: Option<int>, repeatOption: Option<Repeat>, status: Option<Status>,
    sentToGroups: Option<seq<string>>, failedGroups: Option<seq<string>>)

  function Pick<T>(o: Option<T>, otherwise: T): T {
    if o.Some? then o.value else otherwise
  }

  function PickOptional<T>(o: Option<T>, otherwise: Option<T>): Option<T> {
    if o.Some? then o else otherwise
  }

  /** `{ ...existing, ...updates }`: every field the patch mentions is replaced, every other
      field is kept. */
  function PatchMessage(m: ScheduledMessage, p: MessagePatch): (u: ScheduledMessage)
    ensures u.id == (if p.id.Some? then p.id.value else m.id)
    ensures u.message == (if p.message.Some? then p.message.value else m.message)
    ensures u.attachment == (if p.attachment.Some? then p.attachment else m.attachment)
    ensures u.groupIds == (if p.groupIds.Some? then p.groupIds.value else m.groupIds)
    ensures u.tagIds == (if p.tagIds.Some? then p.tagIds.value else m.tagIds)
    ensures u.scheduledTime == (if p.scheduledTime.Some? then p.scheduledTime.value else m.scheduledTime)
    ensures u.createdTime == (if p.createdTime.Some? then p.createdTime.value else m.createdTime)
    ensures u.repeatOption == (if p.repeatOption.Some? then p.repeatOption.value else m.repeatOption)
    ensures u.status == (if p.status.Some? then p.status.value else m.status)
    ensures u.sentToGroups == (if p.sentToGroups.Some? then p.sentToGroups else m.sentToGroups)
    ensures u.failedGroups == (if p.failedGroups.Some? then p.failedGroups else m.failedGroups)
    ensures p == MessagePatch(None, None, None, None, None, None, None, None, None, None, None) ==> u == m
  {
    ScheduledMessage(
      Pick(p.id, m.id), Pick(p.message, m.message), PickOptional(p.attachment, m.attachment),
      Pick(p.groupIds, m.groupIds), Pick(p.tagIds, m.tagIds),
      Pick(p.scheduledTime, m.scheduledTime), Pick(p.createdTime, m.createdTime),
      Pick(p.repeatOption, m.repeatOption), Pick(p.status, m.status),
      PickOptional(p.sentToGroups, m.sentToGroups), PickOptional(p.failedGroups, m.failedGroups))
  }

  // ---------------------------------------------------------------------------
  // Listing a store
  // ---------------------------------------------------------------------------

  /** The records of `st` that `keep` accepts, each once, in some order. */
  method CollectMatching(st: Store, keep: Record -> bool) returns (rs: seq<Record>)
    requires Keyed(st)
    ensures forall r :: r in rs <==> r in st.Values && keep(r)
    ensures Distinct(rs)
  {
    rs := [];
    var todo := st.Keys;
    while todo != {}
      invariant todo <= st.Keys
      invariant forall r :: r in rs <==> r in st.Values && keep(r) && r.Id() !in todo
      invariant Distinct(rs)
      decreases todo
    {
      var k :| k in todo;
      if keep(st[k]) {
        rs := rs + [st[k]];
      }
      todo := todo - {k};
    }
  }

  // ---------------------------------------------------------------------------
  // The database manager
  // ---------------------------------------------------------------------------

  class DbManager {
    /** The contents of the three object stores. */
    var stores: map<StoreName, Store>

    ghost predicate Valid()
      reads this
    {
      && Tags in stores && ScheduledMessages in stores && TagGroupAssignments in stores
      && forall s :: s in stores ==> Keyed(stores[s]) && OfKind(stores[s], s)
    }

    /** A freshly created database: three empty stores. */
    constructor ()
      ensures Valid()
      ensures stores == map[Tags := map[], ScheduledMessages := map[], TagGroupAssignments := map[]]
    {
      stores := map[Tags := map[], ScheduledMessages := map[], TagGroupAssignments := map[]];
    }

    /** `add`: inserts a record, rejecting a key that is already present. */
    method Add(s: StoreName, data: Record) returns (r: Result<(), DbError>)
      requires Valid() && data.Kind() == s
      modifies this
      ensures Valid()
      ensures r.Success? <==> data.Id() !in old(stores[s])
      ensures r.Success? ==> stores == old(stores)[s := old(stores[s])[data.Id() := data]]
      ensures r.Failure? ==> stores == old(stores) && r.error == AddFailed(s)
    {
      if data.Id() in stores[s] {
        return Failure(AddFailed(s));
      }
      stores := stores[s := stores[s][data.Id() := data]];
      return Success(());
    }

    /** `update` (`put`): inserts a record or overwrites the one under its key. */
    method Update(s: StoreName, data: Record)
      requires Valid() && data.Kind() == s
      modifies this
      ensures Valid()
      ensures stores == old(stores)[s := old(stores[s])[data.Id() := data]]
    {
      stores := stores[s := stores[s][data.Id() := data]];
    }

    /** `get`: the record under `id`, or null when there is none. */
    method Get(s: StoreName, id: string) returns (r: Option<Record>)
      requires Valid()
      ensures r.Some? <==> id in stores[s]
      ensures r.Some? ==> r.value == stores[s][id] && r.value.Id() == id && r.value.Kind() == s
    {
      if id in stores[s] {
        r := Some(stores[s][id]);
      } else {
        r := None;
      }
    }

    /** `getAll`: every record of the store, each once. */
    method GetAll(s: StoreName) returns (rs: seq<Record>)
      requires Valid()
      ensures forall r :: r in rs <==> r in stores[s].Values
      ensures Distinct(rs)
    {
      rs := CollectMatching(stores[s], _ => true);
    }

    /** `delete`: removes the record under `id`; deleting a missing key changes nothing. */
    method Delete(s: StoreName, id: string)
      requires Valid()
      modifies this
      ensures Valid()
      ensures stores == old(stores)[s := old(stores[s]) - {id}]
    {
      stores := stores[s := stores[s] - {id}];
    }

    /** `getByIndex`: exactly the records whose indexed field equals `v`, each once; asking
        for an index the store does not have fails. */
    method GetByIndex(s: StoreName, index: string, v: IndexKey) returns (r: Result<seq<Record>, DbError>)
      requires Valid()
      ensures index !in IndexNames(s) ==> r == Failure(IndexNotFound(index))
      ensures index in IndexNames(s) ==>
        && r.Success?
        && (forall x :: x in r.value <==> x in stores[s].Values && Matches(x, index, v))
        && Distinct(r.value)
    {
      if index !in IndexNames(s) {
        return Failure(IndexNotFound(index));
      }
      var rs := CollectMatching(stores[s], x => Matches(x, index, v));
      return Success(rs);
    }

    // ------------------------------- tags -----------------------------------

    /** `createTag`: a new tag with a fresh id, created and updated now. */
    method CreateTag(name: string, color: string, newId: string, now: int)
      returns (r: Result<Tag, DbError>)
      requires Valid()
      modifies this
      ensures Valid()
      ensures r.Success? <==> newId !in old(stores[Tags])
      ensures r.Success? ==>
        && r.value == Tag(newId, name, color, now, now)
        && stores == old(stores)[Tags := old(stores[Tags])[newId := TagRecord(r.value)]]
      ensures r.Failure? ==> stores == old(stores) && r.error == AddFailed(Tags)
    {
      var tag := Tag(newId, name, color, now, now);
      var added := Add(Tags, TagRecord(tag));
      if added.Failure? {
        return Failure(added.error);
      }
      return Success(tag);
    }

    /** `updateTag`: fails with "Tag not found" for a missing id; otherwise stores the tag
        with the mentioned fields replaced and its update time refreshed. */
    method UpdateTag(id: string, updates: TagPatch, now: int) returns (r: Result<(), DbError>)
      requires Valid()
      modifies this
      ensures Valid()
      ensures r.Failure? <==> id !in old(stores[Tags])
      ensures r.Failure? ==> r.error == TagNotFound && stores == old(stores)
      ensures r.Success? ==>
        var updated := PatchTag(old(stores[Tags])[id].tag, updates, now);
        stores == old(stores)[Tags := old(stores[Tags])[updated.id := TagRecord(updated)]]
    {
      var existing := Get(Tags, id);
      if existing.None? {
        return Failure(TagNotFound);
      }
      var updated := PatchTag(existing.value.tag, updates, now);
      Update(Tags, TagRecord(updated));
      return Success(());
    }

    /** `deleteTag`: deletes every assignment of the tag, one by one, then the tag itself;
        all other records stay. */
    method DeleteTag(id: string)
      requires Valid()
      modifies this
      ensures Valid()
      ensures stores == old(stores)[TagGroupAssignments := WithoutTag(old(stores[TagGroupAssignments]), id)]
                                   [Tags := old(stores[Tags]) - {id}]
    {
      var found := GetByIndex(TagGroupAssignments, "tagId", Text(id));
      var assignments := found.value;
      ghost var before := stores[TagGroupAssignments];
      var i := 0;
      while i < |assignments|
        invariant 0 <= i <= |assignments|
        invariant Valid()
        invariant stores == old(stores)[TagGroupAssignments := stores[TagGroupAssignments]]
        invariant stores[TagGroupAssignments] ==
          before - (set j | 0 <= j < i :: assignments[j].Id())
      {
        Delete(TagGroupAssignments, assignments[i].Id());
        assert (set j | 0 <= j < i + 1 :: assignments[j].Id())
            == (set j | 0 <= j < i :: assignments[j].Id()) + {assignments[i].Id()};
        i := i + 1;
      }
      RemovingListedKeys(before, id, assignments);
      Delete(Tags, id);
    }

    /** `getAllTags` */
    method GetAllTags() returns (tags: seq<Tag>)
      requires Valid()
      ensures forall t :: t in tags <==> TagRecord(t) in stores[Tags].Values
    {
      var rs := GetAll(Tags);
      assert forall i :: 0 <= i < |rs| ==> rs[i].TagRecord? by {
        forall i | 0 <= i < |rs| ensures rs[i].TagRecord? {
          assert rs[i] in stores[Tags].Values;
        }
      }
      tags := seq(|rs|, i requires 0 <= i < |rs| => rs[i].tag);
      forall t | TagRecord(t) in stores[Tags].Values
        ensures t in tags
      {
        var i :| 0 <= i < |rs| && rs[i] == TagRecord(t);
        assert tags[i] == t;
      }
    }

    // ------------------------- tag-group assignments ------------------------

    /** `assignGroupToTag`: does nothing when the group is already assigned to the tag,
        otherwise adds an assignment under a fresh id. */
    method AssignGroupToTag(tagId: string, groupId: string, groupName: string,
                            newId: string, now: int) returns (r: Result<(), DbError>)
      requires Valid()
      modifies this
      ensures Valid()
      ensures var spec := AssignSpec(old(stores[TagGroupAssignments]), tagId, groupId,
                                     groupName, newId, now);
        && (r.Success? <==> spec.Success?)
        && (spec.Success? ==> stores == old(stores)[TagGroupAssignments := spec.value])
        && (spec.Failure? ==> stores == old(stores) && r.error == spec.error)
    {
      var found := GetByIndex(TagGroupAssignments, "tagId", Text(tagId));
      var existing := found.value;
      var i := FirstWithGroup(existing, groupId);
      if i < |existing| {
        assert existing[i] in stores[TagGroupAssignments].Values;
        assert IsAssignmentOf(stores[TagGroupAssignments][existing[i].Id()], tagId, groupId);
        return Success(());
      }
      forall k | k in stores[TagGroupAssignments]
        ensures !IsAssignmentOf(stores[TagGroupAssignments][k], tagId, groupId)
      {
        if Matches(stores[TagGroupAssignments][k], "tagId", Text(tagId)) {
          assert stores[TagGroupAssignments][k] in existing;
        }
      }
      var assignment := Assignment(newId, tagId, groupId, groupName, now);
      r := Add(TagGroupAssignments, AssignmentRecord(assignment));
    }

    /** `unassignGroupFromTag`: deletes the first assignment of the group to the tag, if any. */
    method UnassignGroupFromTag(tagId: string, groupId: string)
      requires Valid()
      modifies this
      ensures Valid()
      ensures stores == old(stores)[TagGroupAssignments := stores[TagGroupAssignments]]
      ensures UnassignSpec(old(stores[TagGroupAssignments]), stores[TagGroupAssignments],
                           tagId, groupId)
    {
      var found := GetByIndex(TagGroupAssignments, "tagId", Text(tagId));
      var assignments := found.value;
      var i := FirstWithGroup(assignments, groupId);
      if i < |assignments| {
        var k := assignments[i].Id();
        assert assignments[i] in stores[TagGroupAssignments].Values;
        assert IsAssignmentOf(stores[TagGroupAssignments][k], tagId, groupId);
        Delete(TagGroupAssignments, k);
      } else {
        forall k | k in stores[TagGroupAssignments]
          ensures !IsAssignmentOf(stores[TagGroupAssignments][k], tagId, groupId)
        {
          if Matches(stores[TagGroupAssignments][k], "tagId", Text(tagId)) {
            assert stores[TagGroupAssignments][k] in assignments;
          }
        }
      }
    }

    /** The assignments whose `index` field (tagId or groupId) is `key`. */
    method AssignmentsBy(index: string, key: string) returns (assignments: seq<Assignment>)
      requires Valid() && index in IndexNames(TagGroupAssignments)
      ensures forall a :: a in assignments <==>
        AssignmentRecord(a) in stores[TagGroupAssignments].Values
        && Matches(AssignmentRecord(a), index, Text(key))
    {
      var found := GetByIndex(TagGroupAssignments, index, Text(key));
      var rs := found.value;
      assert forall i :: 0 <= i < |rs| ==> rs[i].AssignmentRecord? by {
        forall i | 0 <= i < |rs| ensures rs[i].AssignmentRecord? {
          assert rs[i] in stores[TagGroupAssignments].Values;
        }
      }
      assignments := seq(|rs|, i requires 0 <= i < |rs| => rs[i].assignment);
      forall a | AssignmentRecord(a) in stores[TagGroupAssignments].Values
                 && Matches(AssignmentRecord(a), index, Text(key))
        ensures a in assignments
      {
        var i :| 0 <= i < |rs| && rs[i] == AssignmentRecord(a);
        assert assignments[i] == a;
      }
    }

    /** `getGroupsForTag`: exactly the tag's assignments. */
    method GetGroupsForTag(tagId: string) returns (assignments: seq<Assignment>)
      requires Valid()
      ensures forall a :: a in assignments <==>
        AssignmentRecord(a) in stores[TagGroupAssignments].Values && a.tagId == tagId
    {
      assignments := AssignmentsBy("tagId", tagId);
    }

    /** `getTagsForGroup`: exactly the group's assignments. */
    method GetTagsForGroup(groupId: string) returns (assignments: seq<Assignment>)
      requires Valid()
      ensures forall a :: a in assignments <==>
        AssignmentRecord(a) in stores[TagGroupAssignments].Values && a.groupId == groupId
    {
      assignments := AssignmentsBy("groupId", groupId);
    }

    // --------------------------- scheduled messages --------------------------

    /** `createScheduledMessage`: stores the draft with a fresh id, created now, and always
        with status "pending". */
    method CreateScheduledMessage(draft: MessageDraft, newId: string, now: int)
      returns (r: Result<ScheduledMessage, DbError>)
      requires Valid()
      modifies this
      ensures Valid()
      ensures r.Success? <==> newId !in old(stores[ScheduledMessages])
      ensures r.Success? ==>
        && r.value.status == Pending && r.value.id == newId && r.value.createdTime == now
        && r.value.message == draft.message && r.value.attachment == draft.attachment
        && r.value.groupIds == draft.groupIds && r.value.tagIds == draft.tagIds
        && r.value.scheduledTime == draft.scheduledTime
        && r.value.repeatOption == draft.repeatOption
        && r.value.sentToGroups == draft.sentToGroups && r.value.failedGroups == draft.failedGroups
        && stores == old(stores)[ScheduledMessages :=
                                   old(stores[ScheduledMessages])[newId := MessageRecord(r.value)]]
      ensures r.Failure? ==> stores == old(stores)
    {
      var m := ScheduledMessage(newId, draft.message, draft.attachment, draft.groupIds,
                                draft.tagIds, draft.scheduledTime, now, draft.repeatOption,
                                Pending, draft.sentToGroups, draft.failedGroups);
      var added := Add(ScheduledMessages, MessageRecord(m));
      if added.Failure? {
        return Failure(added.error);
      }
      return Success(m);
    }

    /** `updateScheduledMessage`: fails for a missing id; otherwise stores the message with
        the mentioned fields replaced. */
    method UpdateScheduledMessage(id: string, updates: MessagePatch) returns (r: Result<(), DbError>)
      requires Valid()
      modifies this
      ensures Valid()
      ensures r.Failure? <==> id !in old(stores[ScheduledMessages])
      ensures r.Failure? ==> r.error == MessageNotFound && stores == old(stores)
      ensures r.Success? ==>
        var updated := PatchMessage(old(stores[ScheduledMessages])[id].msg, updates);
        stores == old(stores)[ScheduledMessages :=
                                old(stores[ScheduledMessages])[updated.id := MessageRecord(updated)]]
    {
      var existing := Get(ScheduledMessages, id);
      if existing.None? {
        return Failure(MessageNotFound);
      }
      var updated := PatchMessage(existing.value.msg, updates);
      Update(ScheduledMessages, MessageRecord(updated));
      return Success(());
    }

    /** `deleteScheduledMessage` */
    method DeleteScheduledMessage(id: string)
      requires Valid()
      modifies this
      ensures Valid()
      ensures stores == old(stores)[ScheduledMessages := old(stores[ScheduledMessages]) - {id}]
    {
      Delete(ScheduledMessages, id);
    }

    /** `getAllScheduledMessages`: every stored message. */
    method GetAllScheduledMessages() returns (messages: seq<ScheduledMessage>)
      requires Valid()
      ensures forall m :: m in messages <==> MessageRecord(m) in stores[ScheduledMessages].Values
    {
      var rs := GetAll(ScheduledMessages);
      assert forall i :: 0 <= i < |rs| ==> rs[i].MessageRecord? by {
        forall i | 0 <= i < |rs| ensures rs[i].MessageRecord? {
          assert rs[i] in stores[ScheduledMessages].Values;
        }
      }
      messages := seq(|rs|, i requires 0 <= i < |rs| => rs[i].msg);
      forall m | MessageRecord(m) in stores[ScheduledMessages].Values
        ensures m in messages
      {
        var i :| 0 <= i < |rs| && rs[i] == MessageRecord(m);
        assert messages[i] == m;
      }
    }

    /** `getScheduledMessagesByStatus`: exactly the messages in that status. */
    method GetScheduledMessagesByStatus(status: Status) returns (messages: seq<ScheduledMessage>)
      requires Valid()
      ensures forall m :: m in messages <==>
        MessageRecord(m) in stores[ScheduledMessages].Values && m.status == status
    {
      var found := GetByIndex(ScheduledMessages, "status", Text(StatusName(status)));
      var rs := found.value;
      assert forall i :: 0 <= i < |rs| ==> rs[i].MessageRecord? by {
        forall i | 0 <= i < |rs| ensures rs[i].MessageRecord? {
          assert rs[i] in stores[ScheduledMessages].Values;
        }
      }
      messages := seq(|rs|, i requires 0 <= i < |rs| => rs[i].msg);
      forall m | m in messages
        ensures m.status == status
      {
        var i :| 0 <= i < |messages| && messages[i] == m;
        assert Matches(rs[i], "status", Text(StatusName(status)));
      }
      forall m | MessageRecord(m) in stores[ScheduledMessages].Values && m.status == status
        ensures m in messages
      {
        var i :| 0 <= i < |rs| && rs[i] == MessageRecord(m);
        assert messages[i] == m;
      }
    }
  }
}
