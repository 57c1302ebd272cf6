# WhatsApp scheduler: send path, local database and tag editor in Dafny

This project models the core of a browser extension that schedules WhatsApp messages.
It also lets the user organise WhatsApp groups under tags. The model covers three parts.

- **The page script** (`wa_js.dfy`, module `WaJs`). This script runs beside WhatsApp Web.
  - `sendWPPMessage` picks one of four send primitives.
  - `sendMessage` checks the session and reads the message body back from the hash store.
    It then looks the contact up, retrying once with the Brazilian mobile-digit fallback,
    sends the message and classifies the delivery acknowledgement.
  - `addToQueue` stores the message under its hash and enqueues a task.
  - The `GET_GROUPS_REQUEST` listener turns the chat list into `{id, name}` groups.
- **The local database** (`indexed_db.dfy`, module `IndexedDb`). This is class `DbManager`, with three
  IndexedDB object stores: tags, scheduled messages and tag-group assignments. Each store is a map
  from key to record. `add` refuses a present key, and `put` inserts or overwrites.
  The tag, assignment and message operations are built on those primitives.
- **The tag editor** (`create_tags.dfy`, module `CreateTags`). This is the React component
  `CreateTags`, modelled as class `TagEditor`.
  - Its `this.state` is a record field, and every `setState` is a record update.
  - Its handlers are methods over that state and the database.
  - The component keeps a pending and a saved set of group ids, and an unsaved-changes flag. The class
    invariant states that the flag is set exactly when the two sets differ, and that no (tag, group)
    pair is stored twice.

`js.dfy` (module `Js`) holds the JavaScript semantics the code relies on:
- optional values and thrown results;
- string truthiness;
- `startsWith`, `includes`, `trim` and `toLowerCase`;
- `Array.prototype.filter`.

Everything outside the program is a parameter of the operation that uses it:
- the WPPConnect API (contact lookup, send primitives, acknowledgement, authentication);
- the attachment download (`fetch`);
- the message-hash function;
- the clock;
- the random part of generated ids;
- the page's answer to a groups request.

Two behaviours of the code are worth knowing before reading the contracts:
- `sendMessage` only posts a level-1 log for an unknown contact and returns normally (src/wa-js.ts:102-107).
  `WaJs.SendMessage` states exactly that.
- The page script waits for WPP readiness once, with no retry (src/wa-js.ts:208-241). `WaJs.Readiness`
  has one outcome per way that wait ends.

## Model

| member | source | states |
|---|---|---|
| Js.Includes | src/wa-js.ts:271-272 | `s.includes(sub)` is true exactly when `sub` occurs at some index of `s` |
| Js.Trim | src/components/organisms/CreateTags.tsx:175-178 | `trim()` is the original with only white space removed in front and behind; it is empty exactly for an all-white-space string, and otherwise starts and ends with a non-space |
| Js.IsBlank | src/components/organisms/CreateTags.tsx:175 | the guard `!s.trim()` holds exactly when every character of `s` is white space |
| Js.StartsWith | src/wa-js.ts:97 | `s.startsWith(p)` holds exactly when `s` is at least as long as `p` and agrees with it character by character |
| Js.ToLower | src/components/organisms/CreateTags.tsx:370-371 | `toLowerCase()` keeps the length and lowers each ASCII letter in place |
| Js.ToLowerAppend | src/components/organisms/CreateTags.tsx:370-371 | lower-casing distributes over concatenation |
| Js.Filter | src/components/organisms/CreateTags.tsx:308-309 | `filter(p)` keeps exactly the elements satisfying `p` and is no longer than its input |
| Js.FilterAppend | src/components/organisms/CreateTags.tsx:371 | filtering keeps the input's order: it distributes over concatenation |
| Js.OrElse | src/wa-js.ts:283-290 | JavaScript's `or` on an optional string gives the string when it is non-empty, else the fallback |
| WaJs.SendWppMessage | src/wa-js.ts:34-80 | exactly one of four modes is chosen from attachment and buttons: file+image+buttons, text+buttons, file+auto-detect, plain text. Every call goes to the contact with createChat and waitForAck set. Buttons are passed only when there are some. A file call carries the fetched bytes and the text as caption |
| WaJs.FallbackNumber | src/wa-js.ts:96-101 | a 12-char "55" number gets '9' inserted at index 4 (length 13); a 13-char one loses index 4 (length 12); any other number is unchanged |
| WaJs.FallbackInsertThenRemove | src/wa-js.ts:97-100 | inserting the mobile digit and then removing it gives back the 12-digit number |
| WaJs.FallbackRemoveThenInsert | src/wa-js.ts:97-100 | removing a mobile digit '9' and then inserting it gives back the 13-digit number |
| WaJs.AckResult | src/wa-js.ts:112-114 | `messageSendResult ?? value` is OK exactly for an OK code or a report carrying OK; a report without the field is no result code |
| WaJs.Delivered | src/wa-js.ts:113-114 | a send counts as delivered exactly for the OK code or a report whose `messageSendResult` is OK |
| WaJs.Resolve | src/wa-js.ts:94-109 | the contact resolves exactly when the number or its fallback exists: to the number's own account when it exists, otherwise to whatever the fallback lookup answers |
| WaJs.SendArgumentAsWritten | src/wa-js.ts:111 | `{ contact, ...message }` as written sends to the stored message's contact, not the resolved one |
| WaJs.SendArgument | src/wa-js.ts:109-111 | the intended argument: the stored message, unchanged except that it is addressed to the resolved contact |
| WaJs.SpreadOverridesResolvedContact | src/wa-js.ts:94-111 | a 12-digit number that exists only with the mobile digit resolves to the 13-digit account, yet the as-written call goes to the 12-digit number |
| WaJs.SendMessage | src/wa-js.ts:86-120 | unauthenticated: throws before any read or lookup. Missing hash: throws. At most two lookups, the second being the fallback. Both lookups fail: one level-1 "not found" log and nothing sent. Otherwise it sends to the resolved contact in the mode of `sendWPPMessage`. An OK ack gives one level-3 log; any other ack throws |
| WaJs.PageContext.constructor | src/wa-js.ts:345 | the script starts with an empty hash store, queue and log |
| WaJs.PageContext.AddToQueue | src/wa-js.ts:125-137 | stores under the hash before enqueuing `{contact, hash, delay}` and returns true. A store failure enqueues nothing. Any failure adds a level-1 log (for an `Error`) and rethrows. Every queued hash stays resolvable |
| WaJs.PageContext.RunNext | src/wa-js.ts:86-129 | the queue hands its head task to `sendMessage` and drops it. Without a session: "connect first" error, no log. Neither number exists: the "not found" log, nothing sent. Otherwise the head task's stored message goes to the resolved contact; an OK ack appends the success log, another ack the delivery error. Never a missing body |
| WaJs.FailureLog | src/wa-js.ts:131-135 | a thrown `Error` gives one level-1 log with its message; other thrown values give none |
| WaJs.IsGroupChat | src/wa-js.ts:267-278 | a chat is a group when a group flag is true, or when its id names the group server; for an id read directly this is the very id the group gets, and a WID without `_serialized` counts only by its flags |
| WaJs.GroupIdOf | src/wa-js.ts:283-285 | the group id is a non-empty `_serialized`, else the id string or the WID's text, else empty |
| WaJs.GroupNameOf | src/wa-js.ts:286-290 | the name is the first non-empty of name, formattedTitle, subject and pushname, in that order, else "Unnamed Group"; never empty |
| WaJs.ListedGroups | src/wa-js.ts:267-292 | exactly the group chats mapped to `{id, name}` whose id contains "@g.us"; never more than the chats |
| WaJs.CollectGroups | src/wa-js.ts:258-322 | the chat-list groups when there are some; the page's groups exactly when that list is empty or the call threw; empty exactly when both are |
| WaJs.AnswerGroupsRequest | src/wa-js.ts:189-343 | only a request from this window is answered, always with its id. WPP missing, a failed wait and a logged-out session each answer with an error and no groups; otherwise the collected groups |
| IndexedDb.FirstWithGroup | src/utils/IndexedDBManager.ts:280 | `find(a => a.groupId === g)`: the first index whose group matches, or the length when none does |
| IndexedDb.AssignEstablishes | src/utils/IndexedDBManager.ts:250-271 | after a successful assignment the pair is assigned and every existing record is kept |
| IndexedDb.AssignKeepsOtherPairs | src/utils/IndexedDBManager.ts:250-271 | assigning changes no other (tag, group) pair |
| IndexedDb.AssignIdempotent | src/utils/IndexedDBManager.ts:250-260 | assigning an assigned pair again, with any name, id or time, leaves the table unchanged |
| IndexedDb.AssignKeepsUnique | src/utils/IndexedDBManager.ts:250-271 | assigning keeps at most one assignment per (tag, group) pair |
| IndexedDb.UnassignRemovesPair | src/utils/IndexedDBManager.ts:273-284 | in a duplicate-free table, unassigning leaves the pair unassigned and keeps the table duplicate-free; every other pair is assigned afterwards exactly when it was before |
| IndexedDb.WithoutTagCascade | src/utils/IndexedDBManager.ts:229-242 | after the cascade no assignment of the tag is left, every other tag's pairs are as before, and uniqueness is kept |
| IndexedDb.RemovingListedKeys | src/utils/IndexedDBManager.ts:231-238 | deleting the keys the `tagId` index lists removes exactly the tag's assignments |
| IndexedDb.PatchTag | src/utils/IndexedDBManager.ts:221-225 | `{...existing, ...updates, updatedAt: now}`: each of id, name, colour and creation time is replaced when given and kept otherwise; the update time is always refreshed |
| IndexedDb.PatchMessage | src/utils/IndexedDBManager.ts:321-324 | `{...existing, ...updates}`: each of the eleven fields is replaced when the patch mentions it and kept otherwise; an empty patch changes nothing |
| IndexedDb.CollectMatching | src/utils/IndexedDBManager.ts:190-202 | the records a predicate accepts, each exactly once |
| IndexedDb.DbManager.constructor | src/utils/IndexedDBManager.ts:79-103 | a new database has the three stores, empty |
| IndexedDb.DbManager.Add | src/utils/IndexedDBManager.ts:110-121 | `add` succeeds exactly when the key is new and then inserts; otherwise it fails with nothing changed |
| IndexedDb.DbManager.Update | src/utils/IndexedDBManager.ts:126-137 | `put` inserts or overwrites under the record's key; nothing else changes |
| IndexedDb.DbManager.Get | src/utils/IndexedDBManager.ts:142-153 | `get` returns the record under the id, or null exactly when there is none |
| IndexedDb.DbManager.GetAll | src/utils/IndexedDBManager.ts:158-169 | `getAll` lists every record of the store once |
| IndexedDb.DbManager.Delete | src/utils/IndexedDBManager.ts:174-185 | `delete` removes the key (a missing key changes nothing) and nothing else |
| IndexedDb.DbManager.GetByIndex | src/utils/IndexedDBManager.ts:190-202 | exactly the records whose indexed field equals the value, each once; an index the store lacks fails |
| IndexedDb.DbManager.CreateTag | src/utils/IndexedDBManager.ts:206-215 | the tag is stored under a fresh id with created = updated = now; a taken id fails with nothing changed |
| IndexedDb.DbManager.UpdateTag | src/utils/IndexedDBManager.ts:217-227 | fails with "Tag not found" exactly for an absent id; otherwise puts the patched tag |
| IndexedDb.DbManager.DeleteTag | src/utils/IndexedDBManager.ts:229-242 | removes the tag and every assignment of it; all other records stay |
| IndexedDb.DbManager.GetAllTags | src/utils/IndexedDBManager.ts:244-246 | exactly the stored tags |
| IndexedDb.DbManager.AssignGroupToTag | src/utils/IndexedDBManager.ts:250-271 | leaves the table unchanged when the pair is assigned; otherwise adds the assignment under the fresh id, failing only if that id is taken |
| IndexedDb.DbManager.UnassignGroupFromTag | src/utils/IndexedDBManager.ts:273-284 | deletes one matching assignment, or nothing when there is none; other stores unchanged |
| IndexedDb.DbManager.AssignmentsBy | src/utils/IndexedDBManager.ts:286-300 | exactly the assignments whose tagId or groupId field equals the key |
| IndexedDb.DbManager.GetGroupsForTag | src/utils/IndexedDBManager.ts:286-292 | exactly the tag's assignments |
| IndexedDb.DbManager.GetTagsForGroup | src/utils/IndexedDBManager.ts:294-300 | exactly the group's assignments |
| IndexedDb.DbManager.CreateScheduledMessage | src/utils/IndexedDBManager.ts:304-315 | stores the draft under a fresh id with status "pending" and created now; a taken id fails with nothing changed |
| IndexedDb.DbManager.UpdateScheduledMessage | src/utils/IndexedDBManager.ts:317-326 | fails exactly for an absent id; otherwise puts the patched message |
| IndexedDb.DbManager.DeleteScheduledMessage | src/utils/IndexedDBManager.ts:328-330 | removes the message and nothing else |
| IndexedDb.DbManager.GetAllScheduledMessages | src/utils/IndexedDBManager.ts:332-334 | exactly the stored messages |
| IndexedDb.DbManager.GetScheduledMessagesByStatus | src/utils/IndexedDBManager.ts:336-338 | exactly the messages in that status |
| CreateTags.SetsAreEqual | src/components/organisms/CreateTags.tsx:291-297 | size check plus lookup loop returns true exactly when the sets are equal |
| CreateTags.SubsetOfSameSize | src/components/organisms/CreateTags.tsx:292-296 | a subset of the same size is the whole set (why the loop's answer is right) |
| CreateTags.ToSeq | src/components/organisms/CreateTags.tsx:308-309 | `Array.from(set)` lists exactly the set's elements |
| CreateTags.PendingChanges | src/components/organisms/CreateTags.tsx:308-309 | toAdd is exactly selected − saved, toRemove exactly saved − selected |
| CreateTags.Toggled | src/components/organisms/CreateTags.tsx:271-277 | the toggled group's membership flips and every other id is unchanged |
| CreateTags.ToggleTwice | src/components/organisms/CreateTags.tsx:271-277 | toggling the same group twice restores the selection |
| CreateTags.FindGroup | src/components/organisms/CreateTags.tsx:313 | `groups.find` finds a group exactly when one has the id, and it is the first such |
| CreateTags.FilteredGroups | src/components/organisms/CreateTags.tsx:366-372 | a blank query lists every group; otherwise exactly the groups whose lower-cased name contains the lower-cased query |
| CreateTags.FilteredGroupsKeepOrder | src/components/organisms/CreateTags.tsx:371 | the filtered list keeps the groups' order |
| CreateTags.TypingNarrows | src/components/organisms/CreateTags.tsx:366-372 | extending a non-blank query only removes groups from the list |
| CreateTags.IncludesPrefix | src/components/organisms/CreateTags.tsx:371 | a name containing a longer query contains its prefix |
| CreateTags.AcceptGroupsResponse | src/components/organisms/CreateTags.tsx:123-137 | only a response from this window with the right type and id is taken; a non-empty error rejects with it; otherwise it resolves with the listed groups, or none when the response lists none |
| CreateTags.GroupsLoaded | src/components/organisms/CreateTags.tsx:79-112 | a non-empty resolved list is shown with no error, and groups are shown only then; an empty resolve gives the "no groups" message, a rejection its message, the timer the timeout message |
| CreateTags.GroupsRoundTrip | src/components/organisms/CreateTags.tsx:118-160 | the request is not taken by its own listener, the page answers it exactly once, and the editor ends with the page's groups or the page's reason for none |
| CreateTags.ToAdd | src/components/organisms/CreateTags.tsx:312-317 | the groups assigned while saving are exactly the ticked, unsaved ids found in the group list |
| CreateTags.SaveSteps | src/components/organisms/CreateTags.tsx:312-322 | assigning the added groups and then unassigning the disjoint removed ones leaves the added assigned, the removed unassigned, and every other pair unchanged |
| CreateTags.AssignNext | src/components/organisms/CreateTags.tsx:312-317 | one pass of the add loop: an unknown id changes nothing; an assignment either moves the loop on or fails only on a fresh id already in use |
| CreateTags.UnassignNext | src/components/organisms/CreateTags.tsx:320-322 | one pass of the remove loop leaves that group unassigned and the earlier ones still unassigned |
| CreateTags.AssignStep | src/components/organisms/CreateTags.tsx:315 | one assignment keeps uniqueness, adds the pair, keeps the tag's groups and adds no key but the fresh one |
| CreateTags.NothingLeftOfTag | src/components/organisms/CreateTags.tsx:222-224 | after deleting a tag neither the table nor the reloaded list holds an assignment of it |
| CreateTags.AssignedGroupIds | src/components/organisms/CreateTags.tsx:256-257 | the group ids of a tag's assignments are exactly the groups assigned to it |
| CreateTags.TagEditor.constructor | src/components/organisms/CreateTags.tsx:36-57 | the initial state: loading, nothing selected, default colour, no unsaved changes |
| CreateTags.TagEditor.Mount | src/components/organisms/CreateTags.tsx:59-65 | after mounting the tags and assignments mirror the database, the groups are loaded and loading has stopped |
| CreateTags.TagEditor.LoadTags | src/components/organisms/CreateTags.tsx:70-73 | the tag list becomes exactly the stored tags; nothing else changes |
| CreateTags.TagEditor.LoadGroups | src/components/organisms/CreateTags.tsx:79-112 | groups and load error become what the settled request gives; loading stops |
| CreateTags.TagEditor.LoadAssignments | src/components/organisms/CreateTags.tsx:165-168 | the assignment list becomes exactly the stored assignments |
| CreateTags.TagEditor.HandleCreateTag | src/components/organisms/CreateTags.tsx:173-188 | a blank name does nothing. Otherwise the trimmed, non-empty name is stored as a new tag, the tag list reloads and the dialog resets. A rejected add changes nothing |
| CreateTags.TagEditor.HandleUpdateTag | src/components/organisms/CreateTags.tsx:193-209 | with no tag being edited or a blank name, does nothing. Otherwise the stored tag gets the trimmed name, the colour and a new update time. A missing tag fails with nothing changed |
| CreateTags.TagEditor.HandleDeleteTag | src/components/organisms/CreateTags.tsx:214-216 | asks for confirmation of that tag, nothing else |
| CreateTags.TagEditor.CancelDeleteTag | src/components/organisms/CreateTags.tsx:240-242 | closes the confirmation and forgets the tag |
| CreateTags.TagEditor.ConfirmDeleteTag | src/components/organisms/CreateTags.tsx:218-238 | without a tag to delete, nothing changes. Otherwise the tag and its assignments are deleted and both lists reload. The selection is cleared exactly when the deleted tag was the selected one; otherwise it is untouched |
| CreateTags.TagEditor.SelectTag | src/components/organisms/CreateTags.tsx:247-262 | selects the tag with no unsaved changes; both sets become the groups the database assigns to it; groups are loaded only when the list was empty |
| CreateTags.TagEditor.AssignedGroups | src/components/organisms/CreateTags.tsx:256-257 | the set of the tag's assigned group ids |
| CreateTags.TagEditor.ToggleGroup | src/components/organisms/CreateTags.tsx:267-286 | with no tag selected nothing changes; otherwise only the group's membership flips and the unsaved flag becomes "pending ≠ saved" |
| CreateTags.TagEditor.AssignEach | src/components/organisms/CreateTags.tsx:312-317 | every listed id found in the group list ends up assigned to the tag; only the tag's listed groups change |
| CreateTags.TagEditor.UnassignEach | src/components/organisms/CreateTags.tsx:320-322 | every listed id ends up unassigned from the tag; only those pairs change |
| CreateTags.TagEditor.WriteSelection | src/components/organisms/CreateTags.tsx:306-322 | assigns the added and unassigns the removed groups; no other pair of the table changes |
| CreateTags.TagEditor.SaveGroups | src/components/organisms/CreateTags.tsx:302-334 | with no tag selected, nothing happens. After a save the database holds the pending selection (among known groups), saved = pending, the flag is cleared, and no other pair or store changed. A failed save leaves the screen as it was |
| CreateTags.TagEditor.OpenCreateModal | src/components/organisms/CreateTags.tsx:336-343 | opens an empty dialog in the default colour |
| CreateTags.TagEditor.OpenEditModal | src/components/organisms/CreateTags.tsx:345-352 | opens the dialog filled with the tag's name and colour |
| CreateTags.TagEditor.CloseModal | src/components/organisms/CreateTags.tsx:354-361 | closes the dialog and resets name, colour and the tag being edited |

## Left out

- The send queue, the cross-context message manager and the message-hash store are not part of this model. Their source is not available. The queue is a sequence of tasks, and the store is a map from hash to message.
- `pause`, `resume`, `stop` and `getStatus` of the queue, and their handlers (src/wa-js.ts:140-165, 183), are left out because they only forward to the queue.
- The SEND_MESSAGE handler's wait for `WPP.webpack.onReady` before `addToQueue` (src/wa-js.ts:167-181) is left out: it is event-loop timing, and the call it makes is `WaJs.PageContext.AddToQueue`.
- `alert`, `console` and `window.postMessage` as transport are not modelled; replies are return values.
- The DOM-scraping fallback (src/wa-js.ts:303-312) is a parameter (`domGroups`). It reads the page and the clock.
- Timers are outcomes, not time: the 15-second readiness timers and the 100 ms polling become `WaJs.Readiness`, and the 15-second request timeout becomes `None` for `settled`.
- The `document` CustomEvent copy of the groups request is left out, because nothing in the modelled code listens for it.
- Opening and upgrading the database, transactions and their error callbacks are not modelled. The index names per store are kept (`IndexedDb.IndexNames`).
- Ids built from `Date.now()` and `Math.random()` are fresh-id parameters. Each call uses one clock value, where the source reads `Date.now()` several times in a row.
- `IndexedDb.DbManager.GetAll`: the order IndexedDB lists records in (by key) is not stated; the result is any duplicate-free listing. The same holds for `IndexedDb.DbManager.GetByIndex` and everything built on them.
- `Js.ToLower`: lower-cases the Basic Latin letters only; JavaScript's full Unicode case mapping is not modelled.
- `WaJs.SendMessage`: the WPPConnect calls and the attachment download are total functions here. A rejected `queryExists`, a failed `fetch` of the attachment (src/wa-js.ts:36-37, 59-60) or a throwing send primitive would reject `sendMessage` in the source; the model has no outcome for them.
- `WaJs.PageContext.AddToQueue`: `calculateMessageHash` is a total function here; a hash computation that throws is not modelled (a failing store or enqueue is).
- Strings are sequences of Unicode code points, where JavaScript uses UTF-16 code units; a character outside the Basic Multilingual Plane is one element here and two in JavaScript. Lengths of such strings differ; the modelled code compares lengths only of phone numbers, which are ASCII digits.
- `WaJs.SendMessage`: the thrown delivery error carries the acknowledgement rather than the text `'Falha ao enviar a mensagem: ' + value`, and the `alert` before the "connect first" error is not modelled.
- `CreateTags.TagEditor.SelectTag`: the states between its `await`s are not stated. These are the selected tag with stale group sets, and `isLoadingGroups` set while groups load. Only the final state is.
- `CreateTags.TagEditor.SaveGroups`: a failure is characterised only as "some fresh id drawn for it was already in use". The handler's `alert` is left out. Writes made before the failing one stay, as in the source.
- `CreateTags.TagEditor.WriteSelection`: on failure, only "some fresh id drawn for it is now in the table" is stated, for the same reason as `CreateTags.TagEditor.AssignEach`.
- `CreateTags.TagEditor.AssignEach`: on failure, only "a drawn fresh id is now in the table" is stated. The model does not say whether it clashed with an existing record or with an earlier id drawn in the same save.
- Every `await` runs to completion before another handler starts. Interleavings of two handlers of the component are not modelled.
- React rendering and the inline `setState` calls in the markup are not modelled. These set `searchQuery`, `newTagName` and `newTagColor` from inputs. `src/sidebar.tsx`, the two placeholder components and the webpack configuration are not part of this model.

## Findings

| source | as written | input that shows it | evidently intended | confidence | as-written member | corrected member |
|---|---|---|---|---|---|---|
| src/wa-js.ts:109-111 | `sendWPPMessage({ contact, ...message })`: the spread comes after `contact`, so the stored message's own `contact` replaces the number the lookup resolved | the contact "551187654321" exists only as "5511987654321". The lookup resolves to the 13-digit account, but the message is sent to the 12-digit number | send to the resolved contact (`{ ...message, contact }`) | medium, not executed | WaJs.SendArgumentAsWritten, WaJs.SpreadOverridesResolvedContact | WaJs.SendArgument (used by WaJs.SendMessage) |
