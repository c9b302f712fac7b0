# EventBuddy model layer in Dafny

This project models the model layer of EventBuddy, a small browser app for
planning events. The model layer is one `AppModel` object. It owns three
insertion-ordered collections:

- events (`EventItem` objects with mutable fields);
- tags (`Tag` objects with a mutable name);
- participants (immutable `Participant` records).

It also owns two next-id counters and announces every change through a
notification.

The Dafny model follows the source's form:

- `Model.AppModel` is a class. Its fields are the three stores, the two
  counters and a notification `log` that stands in for `dispatchEvent`. Two
  ghost sets record every event id and tag id that has ever been stored, so
  that "an id is never reused" can be stated.
- A JavaScript `Map` is `OrderedMaps.OrderedMap`: a key order plus a map. It
  has `Set`, `Delete`, `Get` and `Values` with the `Map` semantics: `set` on a
  present key keeps its position, `delete` keeps the order of the rest.
- `Events.EventItem` and `Tags.Tag` are classes whose setters change one field
  each. The store holds the objects themselves, so `updateEvent` changes the
  stored event through its setters, as the source does.
- `Participants.Participant` is a datatype, since it has getters only. Its
  avatar derivation (`split(' ')`, the first character of each piece, upper
  case, first two characters) is written as recursive functions. It is
  proved equal to an independent description: the first two word starts of
  the name.
- The three loops of `load()` are methods with loop invariants
  (`Model.LoadParticipants`, `Model.LoadTags`, `Model.LoadEvents`). Each is
  proved against a fold of `OrderedMap.Set` over the seed records.
- Event state is specified through `AppModel.EventTable()`, the `toJSON()`
  fields of every stored event in store order. `TagTable()` does the same for
  tags. The `Stores` module holds the store consistency conditions: every
  entry sits under its own id, every stored id has been issued, and every
  issued id is below the counter. It also holds the lemmas showing that a
  `set`/`delete` on a store acts on these snapshots in the same way.

Coverage:

| part | modelled | source |
|---|---|---|
| store | `AppModel`: load, getters, lookups by id, `addTag`, `deleteTag`, `addEvent`, `updateEvent`, `deleteEvent`, `filterEvents` | `eventbuddy/js/model/model.js` |
| records | `EventItem`: constructor, getters, setters, tag and participant helpers, `toJSON` | `event.js` |
| records | `Participant`: constructor and avatar derivation | `participant.js` |
| records | `Tag`: constructor, id, name setter | `tag.js` |

Two behaviours of the code worth noting, both modelled as written:

- `load()` merges into the existing maps and only ever raises the counters
  (`model.js:26-41`); it does not overwrite the stores.
- `deleteTag` on an id that is neither stored nor referenced still emits a
  delete notification (`model.js:76-77`).

## Model

| member | source | states |
|---|---|---|
| `Seqs.AddIfAbsent` | eventbuddy/js/model/event.js:51 | the result contains `x` and keeps the old list as its prefix, growing by at most one; membership is exactly old members plus `x`; a present `x` changes nothing; no duplicates are introduced |
| `Seqs.AddIfAbsentIdempotent` | eventbuddy/js/model/event.js:51 | adding the same id twice is the same as adding it once |
| `Seqs.RemoveAll` | eventbuddy/js/model/event.js:52 | `x` no longer occurs, every other element survives, and an absent `x` changes nothing |
| `Seqs.RemoveAllAppend` | eventbuddy/js/model/event.js:52 | removing from a concatenation removes from each part |
| `Seqs.RemoveAllCounts` | eventbuddy/js/model/event.js:52 | other ids keep their multiplicity; `x` occurs zero times afterwards |
| `Seqs.RemoveAllIsSubsequence` | eventbuddy/js/model/event.js:52 | the survivors keep their relative order |
| `Seqs.RemoveAllDistinct` | eventbuddy/js/model/model.js:118 | in a duplicate-free key order, removing the key at index `j` cuts out exactly that position |
| `Seqs.RemoveAllKeepsDistinct` | eventbuddy/js/model/model.js:76 | removal keeps a key order free of duplicates |
| `OrderedMaps.OrderedMap.Get` | eventbuddy/js/model/model.js:52 | `get` finds a value exactly for stored keys, and it is the stored one |
| `OrderedMaps.OrderedMap.Values` | eventbuddy/js/model/model.js:48 | `[...map.values()]` lists the value of each key, in key order, and every stored value occurs |
| `OrderedMaps.OrderedMap.Set` | eventbuddy/js/model/model.js:28 | after `set(k, v)` the key maps to `v` and no other key changes; a present key keeps its place, a new key is appended |
| `OrderedMaps.OrderedMap.Delete` | eventbuddy/js/model/model.js:118 | after `delete(k)` the key is absent, no other key changes, and the key order loses only `k` |
| `OrderedMaps.OrderedMap.SetAll` | eventbuddy/js/model/model.js:26-29 | a sequence of `set`s keeps the old keys as a prefix and adds exactly the keys of the pairs |
| `OrderedMaps.Empty` | eventbuddy/js/model/model.js:14-16 | `new Map()` is consistent and enumerates nothing |
| `OrderedMaps.SetNewKeyAppends` | eventbuddy/js/model/model.js:92 | setting a new key appends its value to the enumeration |
| `OrderedMaps.SetPresentKeyReplaces` | eventbuddy/js/model/model.js:39 | setting a present key replaces its value in place |
| `OrderedMaps.DeleteCutsOut` | eventbuddy/js/model/model.js:118 | deleting a key cuts its value out of the enumeration and keeps the survivors in order |
| `OrderedMaps.SetAllGet` | eventbuddy/js/model/model.js:26-41 | after the `set` loop, a key set by some record holds the value of the last such record, and every other key keeps its old value |
| `OrderedMaps.SetAllStep` | eventbuddy/js/model/model.js:37-41 | one more loop iteration is one more `set` |
| `Tags.Tag.constructor` | eventbuddy/js/model/tag.js:5-8 | id and name are stored as given |
| `Tags.Tag.SetName` | eventbuddy/js/model/tag.js:12 | only the name changes, to the new value (the id is a constant) |
| `Tags.RenameTwice` | eventbuddy/js/model/tag.js:12 | of two renames, only the last value remains; the id is unchanged |
| `Participants.Split` | eventbuddy/js/model/participant.js:11 | `split(' ')` yields at least one piece and no piece contains a space (with `SplitJoin`, this pins down the split) |
| `Participants.FirstChars` | eventbuddy/js/model/participant.js:11 | at most one character per piece |
| `Participants.Upper` | eventbuddy/js/model/participant.js:11 | the length is kept, no lower-case ASCII letter remains, characters other than `a`-`z` are unchanged, and each `a`-`z` becomes its capital |
| `Participants.UpperIdempotent` | eventbuddy/js/model/participant.js:11 | upper-casing twice is upper-casing once |
| `Participants.Initials` | eventbuddy/js/model/participant.js:11 | the derived avatar has at most two characters and contains no lower-case ASCII letter |
| `Participants.NewParticipant` | eventbuddy/js/model/participant.js:7-12 | id, name and email are stored as given; `avatar \|\| initials`: a truthy supplied avatar is kept verbatim, otherwise the avatar is the derived initials, at most two characters |
| `Participants.SplitJoin` | eventbuddy/js/model/participant.js:11 | the pieces joined by single spaces give back the name, so the split loses nothing |
| `Participants.FirstCharsAreWordStarts` | eventbuddy/js/model/participant.js:11 | the first characters of the pieces are exactly the non-space characters at the start of the name or after a space |
| `Participants.ExtraSpaceIgnored` | eventbuddy/js/model/participant.js:11 | doubling a space changes no word start |
| `Participants.InitialsAreFirstTwoWordStarts` | eventbuddy/js/model/participant.js:11 | the derived avatar has at most two letters, and they are the first two word starts, upper-cased |
| `Participants.InitialsIgnoreEmptyPieces` | eventbuddy/js/model/participant.js:11 | the empty pieces of consecutive spaces add no letter to the avatar |
| `Participants.SplitWithoutSpaces` | eventbuddy/js/model/participant.js:11 | a name without spaces is a single piece |
| `Participants.InitialsOfOneWord` | eventbuddy/js/model/participant.js:11 | a one-word name yields just its upper-cased first character |
| `Events.Construct` | eventbuddy/js/model/event.js:13-24 | a constructed event never has an empty icon |
| `Events.ConstructFromJson` | eventbuddy/js/model/event.js:59-72 | rebuilding an event from its `toJSON()` reproduces all ten fields, except that an icon later set to `''` becomes the default glyph |
| `Events.ConstructDefaults` | eventbuddy/js/model/event.js:21-23 | a missing or empty icon becomes `'📅'` and any other icon is kept; missing lists become `[]`; id, title, date, time, location, description and status are stored as given |
| `Events.EventItem.constructor` | eventbuddy/js/model/event.js:13-24 | the new event's ten fields are the defaulted input fields |
| `Events.EventItem.ToJson` | eventbuddy/js/model/event.js:59-72 | `toJSON()` reports the event's own id; applied to its result, `ConstructFromJson` shows that the constructor rebuilds the event from these fields unless the icon has been emptied since |
| `Events.EventItem.GetTagIds` | eventbuddy/js/model/event.js:35 | the getter returns the stored tag list; it changes nothing |
| `Events.EventItem.GetParticipantIds` | eventbuddy/js/model/event.js:36 | the getter returns the stored participant list; it changes nothing |
| `Events.EventItem.SetTitle` | eventbuddy/js/model/event.js:39 | only the title changes, to the given value |
| `Events.EventItem.SetDate` | eventbuddy/js/model/event.js:40 | only the date changes |
| `Events.EventItem.SetTime` | eventbuddy/js/model/event.js:41 | only the time changes |
| `Events.EventItem.SetLocation` | eventbuddy/js/model/event.js:42 | only the location changes |
| `Events.EventItem.SetDescription` | eventbuddy/js/model/event.js:43 | only the description changes |
| `Events.EventItem.SetStatus` | eventbuddy/js/model/event.js:44 | only the status changes |
| `Events.EventItem.SetIcon` | eventbuddy/js/model/event.js:45 | only the icon changes, to the value as given (no default) |
| `Events.EventItem.SetTagIds` | eventbuddy/js/model/event.js:46 | only the tag list changes; it is not de-duplicated |
| `Events.EventItem.SetParticipantIds` | eventbuddy/js/model/event.js:47 | only the participant list changes; it is not de-duplicated |
| `Events.EventItem.HasTag` | eventbuddy/js/model/event.js:50 | `includes(t)` holds exactly when `t` stands at some position of the tag list |
| `Events.EventItem.AddTag` | eventbuddy/js/model/event.js:51 | the tag list becomes `AddIfAbsent` of the old one: afterwards `hasTag` holds and the old list is a prefix |
| `Events.EventItem.RemoveTag` | eventbuddy/js/model/event.js:52 | the tag list becomes `RemoveAll` of the old one, and `hasTag` is false afterwards |
| `Events.EventItem.HasParticipant` | eventbuddy/js/model/event.js:55 | `includes(p)` holds exactly when `p` stands at some position of the participant list |
| `Events.EventItem.AddParticipant` | eventbuddy/js/model/event.js:56 | as `AddTag`, for participants |
| `Events.EventItem.RemoveParticipant` | eventbuddy/js/model/event.js:57 | as `RemoveTag`, for participants |
| `Events.AddTagTwice` | eventbuddy/js/model/event.js:51 | two `addTag` calls with the same id leave the list as one call does |
| `Stores.EventStoreSet` | eventbuddy/js/model/model.js:39-40 | storing an event under its id and raising the counter past it keeps the event store consistent |
| `Stores.TagStoreSet` | eventbuddy/js/model/model.js:33-34 | the same for the tag store |
| `Stores.EventSnapshots` | eventbuddy/js/model/event.js:59-72 | the `toJSON()` view of the event store has the same keys in the same order |
| `Stores.TagSnapshots` | eventbuddy/js/model/tag.js:10-11 | the field view of the tag store has the same keys in the same order |
| `Stores.EventSnapshotsSet` | eventbuddy/js/model/model.js:92 | `set` on the event store is `set` of the new event's fields on its view |
| `Stores.EventSnapshotsDelete` | eventbuddy/js/model/model.js:118 | `delete` on the event store is `delete` on its view |
| `Stores.TagSnapshotsSet` | eventbuddy/js/model/model.js:67 | `set` on the tag store is `set` of the tag's fields on its view |
| `Stores.TagSnapshotsDelete` | eventbuddy/js/model/model.js:76 | `delete` on the tag store is `delete` on its view |
| `Stores.EventSnapshotsUnchanged` | eventbuddy/js/model/event.js:59-72 | the event view changes only when a stored event's fields change |
| `Stores.TagSnapshotsUnchanged` | eventbuddy/js/model/tag.js:10-11 | the tag view changes only when a stored tag's fields change |
| `Model.Matches` | eventbuddy/js/model/model.js:124-128 | the filter callback accepts every event when no criterion is truthy (`null`, `0` and `''` impose nothing) |
| `Model.FilterItems` | eventbuddy/js/model/model.js:124-129 | the result is an ordered subsequence of the events, all of its members match, and every matching event is in it |
| `Model.FilterWithoutCriteria` | eventbuddy/js/model/model.js:123-130 | a spec whose criteria are all falsy (`null`, `0`, `''`) returns every event in order |
| `Model.FilterIsConjunction` | eventbuddy/js/model/model.js:125-127 | filtering by all criteria is filtering by status, then participant, then tag |
| `Model.Patch` | eventbuddy/js/model/model.js:101-109 | the fields after an update: the id is never touched, and a supplied icon is stored as given, with no default |
| `Model.PatchNothing` | eventbuddy/js/model/model.js:101-109 | a patch that supplies no field changes nothing |
| `Model.PatchSingleField` | eventbuddy/js/model/model.js:101-109 | supplying one field changes that field only, and an empty string is applied like any other value |
| `Model.PatchCompose` | eventbuddy/js/model/model.js:101-109 | two updates in a row are one update by the merged patch |
| `Model.PatchIdempotent` | eventbuddy/js/model/model.js:101-109 | repeating an update changes nothing more |
| `Model.AssignSuppliedFields` | eventbuddy/js/model/model.js:101-109 | assigning the supplied fields through the setters turns the event's fields into `Patch` of the old ones |
| `Model.AssignTitleDateTime` | eventbuddy/js/model/model.js:101-103 | title, date and time change exactly when supplied |
| `Model.AssignLocationDescriptionStatus` | eventbuddy/js/model/model.js:104-106 | location, description and status change exactly when supplied |
| `Model.AssignIconAndLists` | eventbuddy/js/model/model.js:107-109 | icon and the two lists change exactly when supplied |
| `Model.AnyHasTag` | eventbuddy/js/model/model.js:74 | `some(e => e.hasTag(t))` holds exactly when some event's tag list contains `t` |
| `Model.RaiseAbove` | eventbuddy/js/model/model.js:34 | the counter after the loop is not below its old value and lies above the last loaded id |
| `Model.RaiseAboveStep` | eventbuddy/js/model/model.js:34 | one more loaded id raises the counter past that id when it is not below already |
| `Model.RaiseAboveBounds` | eventbuddy/js/model/model.js:31-41 | after the loop the counter is not below its old value, lies above every loaded id, and is either the old value or one past a loaded id |
| `Model.ParticipantEntries` | eventbuddy/js/model/model.js:26-29 | one pair per user record |
| `Model.ParticipantEntriesAt` | eventbuddy/js/model/model.js:27-28 | pair `i` is user `i` as a participant, under its id |
| `Model.TagEntries` | eventbuddy/js/model/model.js:31-35 | one pair per tag record |
| `Model.TagEntriesAt` | eventbuddy/js/model/model.js:32-33 | pair `i` is tag record `i`, under its id |
| `Model.EventEntries` | eventbuddy/js/model/model.js:37-41 | one pair per event record |
| `Model.EventEntriesAt` | eventbuddy/js/model/model.js:38-39 | pair `i` is event record `i` as constructed, under its id |
| `Model.LoadParticipants` | eventbuddy/js/model/model.js:26-29 | the participant loop yields the old map with every user `set` in order, and keeps the store consistent |
| `Model.LoadTag` | eventbuddy/js/model/model.js:32-34 | one iteration: the new tag's fields are `set` under its id, the counter is raised past it, the store stays consistent |
| `Model.LoadTags` | eventbuddy/js/model/model.js:31-35 | the tag loop yields the old tag fields with every record `set` in order, raises the counter past every id, and keeps the store consistent |
| `Model.LoadEvent` | eventbuddy/js/model/model.js:38-40 | one iteration: the constructed event's fields are `set` under its id, the counter is raised past it, the store stays consistent |
| `Model.LoadEvents` | eventbuddy/js/model/model.js:37-41 | the event loop yields the old event fields with every constructed record `set` in order, raises the counter past every id, and keeps the store consistent |
| `Model.AppModel.constructor` | eventbuddy/js/model/model.js:12-19 | empty stores, both counters at 1, no notification |
| `Model.AppModel.Load` | eventbuddy/js/model/model.js:22-44 | the stores become the old ones with every record `set` in order (no clearing); the counters are raised as the loops raise them (with `RaiseAboveBounds`: above every loaded id, never lower); exactly one `loaded` notification |
| `Model.AppModel.StoreTag` | eventbuddy/js/model/model.js:33-34 | the tag is `set` under its id, its id is recorded, the counter is raised past it |
| `Model.AppModel.StoreEvent` | eventbuddy/js/model/model.js:39-40 | the event is `set` under its id, its id is recorded, the counter is raised past it |
| `Model.AppModel.Participants` | eventbuddy/js/model/model.js:47-49 | the stored participants in insertion order |
| `Model.AppModel.GetParticipantById` | eventbuddy/js/model/model.js:51-53 | the stored participant with that id, or nothing exactly when none is stored |
| `Model.AppModel.Tags` | eventbuddy/js/model/model.js:56-58 | the stored tags in insertion order |
| `Model.AppModel.GetTagById` | eventbuddy/js/model/model.js:60-62 | the stored tag with that id, or nothing exactly when none is stored |
| `Model.AppModel.Events` | eventbuddy/js/model/model.js:81-83 | the stored events in insertion order |
| `Model.AppModel.GetEventById` | eventbuddy/js/model/model.js:85-87 | the stored event with that id, or nothing exactly when none is stored |
| `Model.AppModel.FilterEvents` | eventbuddy/js/model/model.js:123-130 | the ordered subsequence of the stored events meeting every truthy criterion; all events when no criterion is truthy; a function, so nothing changes |
| `Model.AppModel.TagInUse` | eventbuddy/js/model/model.js:74 | holds exactly when some stored event's tag list contains the tag |
| `Model.AppModel.AddTag` | eventbuddy/js/model/model.js:65-70 | a fresh tag with id = old counter and the given name, a never-issued id that is exactly the one added to the issued ids, the counter incremented, the tag appended to the store, nothing else changed, one `tagsChanged` add notification |
| `Model.AppModel.DeleteTag` | eventbuddy/js/model/model.js:73-78 | refuses exactly when the tag is in use, and a refusal changes nothing (log included); otherwise it `delete`s the tag (the other tags keep their order) and logs one delete notification, even for an unknown id |
| `Model.AppModel.AddEvent` | eventbuddy/js/model/model.js:90-95 | a fresh event with id = old counter (any supplied id is overridden), a never-issued id that is exactly the one added to the issued ids, fields as built by the constructor, the counter incremented, appended to the store, one `eventsChanged` add notification |
| `Model.AppModel.UpdateEvent` | eventbuddy/js/model/model.js:98-112 | an unknown id returns nothing and changes nothing; a known id gets exactly the supplied fields (`Patch`), every other event stays as it was, one `eventsChanged` update notification, and the stored event is returned |
| `Model.AppModel.DeleteEvent` | eventbuddy/js/model/model.js:115-120 | an unknown id changes nothing; otherwise only that event is `delete`d (the others keep their order) and one delete notification is logged |
| `Model.AddDeleteAdd` | eventbuddy/js/model/model.js:90-95 | an event added after another is deleted gets a larger id, so a deleted id is not reused |
| `Model.DeleteTagInUse` | eventbuddy/js/model/model.js:73-78 | a tag that a stored event carries cannot be deleted: the refusal leaves that very tag stored under its id |
| `Model.AddSameTagNameTwice` | eventbuddy/js/model/model.js:65-70 | two tags may share a name; they are distinct objects with increasing ids |

## Left out

- The `fetch('json/data.json')` and `response.json()` of `load()` (`model.js:23-24`) are network I/O. `Load` takes the three record lists as parameters instead.
- `EventTarget`/`CustomEvent` dispatch and listener registration are not modelled. Each notification is appended to `log` instead. Listeners run synchronously in the browser; they are code outside this model, so they cannot change the state in the middle of an operation here.
- A notification records the entity's fields (`toJSON()` or `{ id, name }`) as they stand at dispatch. In the browser, listeners receive the object itself.
- The views, the controller and the bootstrap script (`controller.js`, `main.js`, `views/`) are not part of this model.
- The avatar derivation upper-cases ASCII letters only and indexes by character, not by UTF-16 code unit.
- JavaScript's dynamic types are not modelled. Ids are integers. Optional string fields are `Option`: `None` is `undefined`, and a `null` value is not distinguished. Title, date and status are always present strings.
- `Model.AppModel.UpdateEvent`'s patch has one `Option` per field, with `None` as "not supplied". This agrees with the source, whose `!== undefined` guards (`model.js:101-109`) never assign `undefined` either. An empty string `Some("")` is applied like any other value.
- `Events.EventItem.ToJson` returns the lists as values. The source's `toJSON()` (`event.js:69-70`) hands out the live internal `#tagIds` and `#participantIds` arrays, so a caller that mutates them changes the stored event. The model does not capture that aliasing.
- Defensive copies of the id lists (`[...tagIds]`) are implicit: Dafny sequences are values, so aliasing between a caller's array and the stored list cannot arise.
- `Model.AppModel.Load`: the loops run on local copies of the stores and counters, which are written back together at the end. In the source the loops write the fields directly. The state reached is the same, as nothing reads the store in between.
- `Model.AppModel.Load` states the counters as `RaiseAbove` of the old values. That they lie above every loaded id and never decrease follows from `Model.RaiseAboveBounds`; it is not repeated in `Load`'s own `ensures`.
- The `throw new Error(...)` of `deleteTag` is the `InUse` outcome. State and log are unchanged on that path.
- The object returned by `updateEvent` is `Some(event)` and the source's `undefined` is `None`. `deleteEvent` returns nothing in either case.
- The participant getters are the datatype's fields. With no setters, the values cannot change after construction.
