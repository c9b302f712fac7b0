/** The application model: the single owner of the event, tag and
    participant collections, their id counters, and the stream of change
    notifications it dispatches. */
module Model {
  import opened JsValues
  import opened Seqs
  import opened OrderedMaps
  import opened Tags
  import opened Events
  import opened Participants
  import opened Stores

  // ---------------------------------------------------------------------
  // Notifications

  /** The `detail` of an `eventsChanged` notification. */
  datatype EventChange = EventAdded(event: EventData) | EventUpdated(event: EventData) | EventRemoved(eventId: int)

  /** The `detail` of a `tagsChanged` notification. */
  datatype TagChange = TagAdded(tag: TagData) | TagRemoved(tagId: int)

  /** One dispatched notification; the entity is recorded as it stands when
      the notification is dispatched. */
  datatype Notification = Loaded | EventsChanged(eventChange: EventChange) | TagsChanged(tagChange: TagChange)

  /** How `deleteTag` ends: normally, or by throwing because the tag is
      still referenced. */
  datatype TagDeletion = Deleted | InUse

  // ---------------------------------------------------------------------
  // Filtering

  /** The `{ status, participantId, tagId }` argument of `filterEvents`;
      `None` stands for a criterion left at its `null` default. */
  datatype FilterSpec = FilterSpec(status: Option<string>, participantId: Option<int>, tagId: Option<int>)

  const NoFilter: FilterSpec := FilterSpec(None, None, None)

  /** The filter callback: every truthy criterion must hold. */
  predicate Matches(ev: EventItem, f: FilterSpec)
    reads ev
    ensures ImposesNothing(f) ==> Matches(ev, f)
  {
    && (!IsTruthyString(f.status) || ev.status == f.status.value)
    && (!IsTruthyNumber(f.participantId) || ev.HasParticipant(f.participantId.value))
    && (!IsTruthyNumber(f.tagId) || ev.HasTag(f.tagId.value))
  }

  /** A filter none of whose criteria is truthy. */
  predicate ImposesNothing(f: FilterSpec)
  {
    !IsTruthyString(f.status) && !IsTruthyNumber(f.participantId) && !IsTruthyNumber(f.tagId)
  }

  /** `evs.filter(ev => Matches(ev, f))`. */
  function FilterItems(evs: seq<EventItem>, f: FilterSpec): (r: seq<EventItem>)
    reads evs
    ensures IsSubsequence(r, evs)
    ensures forall i :: 0 <= i < |r| ==> Matches(r[i], f)
    ensures forall i :: 0 <= i < |evs| && Matches(evs[i], f) ==> evs[i] in r
  {
    if evs == [] then []
    else
      var rest := FilterItems(evs[1..], f);
      if Matches(evs[0], f) then
        assert ([evs[0]] + rest)[1..] == rest;
        [evs[0]] + rest
      else
        assert forall i :: 1 <= i < |evs| ==> evs[i] == evs[1..][i - 1];
        rest
  }

  /** A filter whose criteria are all falsy returns every event, in order. */
  lemma {:induction false} FilterWithoutCriteria(evs: seq<EventItem>, f: FilterSpec)
    requires ImposesNothing(f)
    ensures FilterItems(evs, f) == evs
  {
    if evs != [] {
      FilterWithoutCriteria(evs[1..], f);
    }
  }

  /** The criteria combine conjunctively: filtering by all of them is
      filtering by status, then by participant, then by tag. */
  lemma {:induction false} FilterIsConjunction(evs: seq<EventItem>, f: FilterSpec)
    ensures FilterItems(evs, f)
         == FilterItems(FilterItems(FilterItems(evs, FilterSpec(f.status, None, None)),
                                    FilterSpec(None, f.participantId, None)),
                        FilterSpec(None, None, f.tagId))
  {
    if evs != [] {
      FilterIsConjunction(evs[1..], f);
    }
  }

  // ---------------------------------------------------------------------
  // Partial updates

  /** The `data` argument of `updateEvent`; `None` is a field left
      `undefined`. */
  datatype EventPatch = EventPatch(
    title: Option<string>,
    date: Option<string>,
    time: Option<string>,
    location: Option<string>,
    description: Option<string>,
    status: Option<string>,
    icon: Option<string>,
    tagIds: Option<seq<int>>,
    participantIds: Option<seq<int>>)

  const NoChange: EventPatch := EventPatch(None, None, None, None, None, None, None, None, None)

  /** The fields after `updateEvent`: each supplied field replaces the stored
      one, whatever its value; the id is never touched. */
  function Patch(d: EventData, p: EventPatch): (r: EventData)
    ensures r.id == d.id
    ensures p.icon.Some? ==> r.icon == p.icon.value
  {
    EventData(d.id,
      if p.title.Some? then p.title.value else d.title,
      if p.date.Some? then p.date.value else d.date,
      if p.time.Some? then p.time else d.time,
      if p.location.Some? then p.location else d.location,
      if p.description.Some? then p.description else d.description,
      if p.status.Some? then p.status.value else d.status,
      if p.icon.Some? then p.icon.value else d.icon,
      if p.tagIds.Some? then p.tagIds.value else d.tagIds,
      if p.participantIds.Some? then p.participantIds.value else d.participantIds)
  }

  /** The patch that applies `q` on top of `p`. */
  function Merge(p: EventPatch, q: EventPatch): EventPatch
  {
    EventPatch(
      if q.title.Some? then q.title else p.title,
      if q.date.Some? then q.date else p.date,
      if q.time.Some? then q.time else p.time,
      if q.location.Some? then q.location else p.location,
      if q.description.Some? then q.description else p.description,
      if q.status.Some? then q.status else p.status,
      if q.icon.Some? then q.icon else p.icon,
      if q.tagIds.Some? then q.tagIds else p.tagIds,
      if q.participantIds.Some? then q.participantIds else p.participantIds)
  }

  /** A patch that supplies nothing changes nothing. */
  lemma PatchNothing(d: EventData)
    ensures Patch(d, NoChange) == d
  {
  }

  /** Field independence: supplying only the title changes only the title;
      supplying only an empty location clears just the location. */
  lemma PatchSingleField(d: EventData, title: string)
    ensures Patch(d, NoChange.(title := Some(title))) == d.(title := title)
    ensures Patch(d, NoChange.(location := Some(""))) == d.(location := Some(""))
    ensures Patch(d, NoChange.(icon := Some(""))).icon == ""
  {
  }

  /** Two updates in a row are one update by the merged patch. */
  lemma PatchCompose(d: EventData, p: EventPatch, q: EventPatch)
    ensures Patch(Patch(d, p), q) == Patch(d, Merge(p, q))
  {
  }

  /** Repeating an update changes nothing further. */
  lemma PatchIdempotent(d: EventData, p: EventPatch)
    ensures Patch(Patch(d, p), p) == Patch(d, p)
  {
  }

  /** The body of `updateEvent` on a found event: each field whose value is
      not `undefined` is assigned through its setter, in source order (the
      nine assignments are taken three at a time). */
  method AssignSuppliedFields(ev: EventItem, p: EventPatch)
    modifies ev
    ensures ev.ToJson() == Patch(old(ev.ToJson()), p)
  {
    AssignTitleDateTime(ev, p);
    AssignLocationDescriptionStatus(ev, p);
    AssignIconAndLists(ev, p);
  }

  method AssignTitleDateTime(ev: EventItem, p: EventPatch)
    modifies ev`title, ev`date, ev`time
    ensures ev.title == if p.title.Some? then p.title.value else old(ev.title)
    ensures ev.date == if p.date.Some? then p.date.value else old(ev.date)
    ensures ev.time == if p.time.Some? then p.time else old(ev.time)
  {
    if p.title.Some? { ev.SetTitle(p.title.value); }
    if p.date.Some? { ev.SetDate(p.date.value); }
    if p.time.Some? { ev.SetTime(p.time); }
  }

  method AssignLocationDescriptionStatus(ev: EventItem, p: EventPatch)
    modifies ev`location, ev`description, ev`status
    ensures ev.location == if p.location.Some? then p.location else old(ev.location)
    ensures ev.description == if p.description.Some? then p.description else old(ev.description)
    ensures ev.status == if p.status.Some? then p.status.value else old(ev.status)
  {
    if p.location.Some? { ev.SetLocation(p.location); }
    if p.description.Some? { ev.SetDescription(p.description); }
    if p.status.Some? { ev.SetStatus(p.status.value); }
  }

  method AssignIconAndLists(ev: EventItem, p: EventPatch)
    modifies ev`icon, ev`tagIds, ev`participantIds
    ensures ev.icon == if p.icon.Some? then p.icon.value else old(ev.icon)
    ensures ev.tagIds == if p.tagIds.Some? then p.tagIds.value else old(ev.tagIds)
    ensures ev.participantIds == if p.participantIds.Some? then p.participantIds.value else old(ev.participantIds)
  {
    if p.icon.Some? { ev.SetIcon(p.icon.value); }
    if p.tagIds.Some? { ev.SetTagIds(p.tagIds.value); }
    if p.participantIds.Some? { ev.SetParticipantIds(p.participantIds.value); }
  }

  // ---------------------------------------------------------------------
  // The tag-in-use scan

  /** `evs.some(e => e.hasTag(t))`. */
  function AnyHasTag(evs: seq<EventItem>, t: int): (r: bool)
    reads evs
    ensures r <==> exists i :: 0 <= i < |evs| && t in evs[i].tagIds
  {
    if evs == [] then false
    else
      assert forall i :: 1 <= i < |evs| ==> evs[i] == evs[1..][i - 1];
      evs[0].HasTag(t) || AnyHasTag(evs[1..], t)
  }

  // ---------------------------------------------------------------------
  // Loading

  /** `if (id >= next) next = id + 1` over the ids in order. */
  function RaiseAbove(next: int, ids: seq<int>): (r: int)
    ensures r >= next
    ensures ids != [] ==> ids[|ids| - 1] < r
  {
    if ids == [] then next
    else
      var m := RaiseAbove(next, ids[..|ids| - 1]);
      if ids[|ids| - 1] >= m then ids[|ids| - 1] + 1 else m
  }

  /** Extending the ids by one raises the counter past that id. */
  lemma RaiseAboveStep(next: int, ids: seq<int>, i: nat)
    requires i < |ids|
    ensures RaiseAbove(next, ids[..i + 1])
         == if ids[i] >= RaiseAbove(next, ids[..i]) then ids[i] + 1 else RaiseAbove(next, ids[..i])
  {
    assert ids[..i + 1][..i] == ids[..i];
  }

  /** The raised counter is the least value that is at least the old one
      and above every loaded id: it never decreases, exceeds every id, and
      is either the old value or one past some id. */
  lemma {:induction false} RaiseAboveBounds(next: int, ids: seq<int>)
    ensures RaiseAbove(next, ids) >= next
    ensures forall i :: 0 <= i < |ids| ==> ids[i] < RaiseAbove(next, ids)
    ensures RaiseAbove(next, ids) == next || exists i :: 0 <= i < |ids| && RaiseAbove(next, ids) == ids[i] + 1
  {
    if ids != [] {
      var init := ids[..|ids| - 1];
      RaiseAboveBounds(next, init);
      assert forall i :: 0 <= i < |init| ==> init[i] == ids[i];
    }
  }

  /** The `[id, participant]` pairs the first loop of `load()` sets. */
  function ParticipantEntries(us: seq<ParticipantInit>): (r: seq<(int, Participant)>)
    ensures |r| == |us|
  {
    if us == [] then []
    else
      var last := us[|us| - 1];
      ParticipantEntries(us[..|us| - 1]) + [(last.id, NewParticipant(last))]
  }

  /** Entry `i` is user `i` as a participant, keyed by its id. */
  lemma {:induction false} ParticipantEntriesAt(us: seq<ParticipantInit>, i: nat)
    requires i < |us|
    ensures ParticipantEntries(us)[i] == (us[i].id, NewParticipant(us[i]))
  {
    if i < |us| - 1 {
      ParticipantEntriesAt(us[..|us| - 1], i);
    }
  }

  /** The `[id, fields]` pairs the second loop of `load()` sets. */
  function TagEntries(ts: seq<TagData>): (r: seq<(int, TagData)>)
    ensures |r| == |ts|
  {
    if ts == [] then []
    else
      var last := ts[|ts| - 1];
      TagEntries(ts[..|ts| - 1]) + [(last.id, last)]
  }

  /** Entry `i` is seed `i`, keyed by its id. */
  lemma {:induction false} TagEntriesAt(ts: seq<TagData>, i: nat)
    requires i < |ts|
    ensures TagEntries(ts)[i] == (ts[i].id, ts[i])
  {
    if i < |ts| - 1 {
      TagEntriesAt(ts[..|ts| - 1], i);
    }
  }

  /** The `[id, fields]` pairs the third loop of `load()` sets: each seed
      as the constructor completes it. */
  function EventEntries(es: seq<EventInit>): (r: seq<(int, EventData)>)
    ensures |r| == |es|
  {
    if es == [] then []
    else
      var last := es[|es| - 1];
      EventEntries(es[..|es| - 1]) + [(last.id, Construct(last))]
  }

  /** Entry `i` is seed `i` as constructed, keyed by its id. */
  lemma {:induction false} EventEntriesAt(es: seq<EventInit>, i: nat)
    requires i < |es|
    ensures EventEntries(es)[i] == (es[i].id, Construct(es[i]))
  {
    if i < |es| - 1 {
      EventEntriesAt(es[..|es| - 1], i);
    }
  }

  function TagSeedIds(ts: seq<TagData>): seq<int>
  {
    seq(|ts|, i requires 0 <= i < |ts| => ts[i].id)
  }

  function EventSeedIds(es: seq<EventInit>): seq<int>
  {
    seq(|es|, i requires 0 <= i < |es| => es[i].id)
  }

  // ---------------------------------------------------------------------
  // The loops of `load()`

  /** The first loop of `load()`: each user becomes a participant. */
  method LoadParticipants(m: OrderedMap<Participant>, users: seq<ParticipantInit>) returns (r: OrderedMap<Participant>)
    requires ParticipantStoreOk(m)
    ensures ParticipantStoreOk(r)
    ensures r == m.SetAll(ParticipantEntries(users))
  {
    r := m;
    ghost var pairs := ParticipantEntries(users);
    for i := 0 to |users|
      invariant ParticipantStoreOk(r)
      invariant r == m.SetAll(pairs[..i])
    {
      var p := NewParticipant(users[i]);
      SetAllStep(m, pairs, i);
      ParticipantEntriesAt(users, i);
      r := r.Set(p.id, p);
    }
    assert pairs[..|users|] == pairs;
  }

  /** One iteration of the second loop of `load()`: a new tag from the
      seed is `set` under its id and the counter is raised past it. */
  method LoadTag(m: OrderedMap<Tag>, ghost issued: set<int>, next: int, seed: TagData)
    returns (r: OrderedMap<Tag>, ghost rIssued: set<int>, rNext: int)
    requires TagStoreOk(m, issued, next)
    ensures TagStoreOk(r, rIssued, rNext)
    ensures TagSnapshots(r) == old(TagSnapshots(m)).Set(seed.id, seed)
    ensures rNext == if seed.id >= next then seed.id + 1 else next
    ensures issued <= rIssued
  {
    ghost var before := TagSnapshots(m);
    var tag := new Tag(seed);
    assert TagSnapshots(m) == before;
    TagSnapshotsSet(m, tag.id, tag);
    TagStoreSet(m, issued, next, tag);
    r, rIssued, rNext := m.Set(tag.id, tag), issued + {tag.id}, if tag.id >= next then tag.id + 1 else next;
  }

  /** The second loop of `load()`: each seed becomes a new tag and the
      counter is raised past its id. */
  method LoadTags(m: OrderedMap<Tag>, ghost issued: set<int>, next: int, seeds: seq<TagData>)
    returns (r: OrderedMap<Tag>, ghost rIssued: set<int>, rNext: int)
    requires TagStoreOk(m, issued, next)
    ensures TagStoreOk(r, rIssued, rNext)
    ensures TagSnapshots(r) == old(TagSnapshots(m)).SetAll(TagEntries(seeds))
    ensures rNext == RaiseAbove(next, TagSeedIds(seeds))
    ensures issued <= rIssued
  {
    r, rIssued, rNext := m, issued, next;
    ghost var start, pairs, ids := TagSnapshots(m), TagEntries(seeds), TagSeedIds(seeds);
    for i := 0 to |seeds|
      invariant TagStoreOk(r, rIssued, rNext)
      invariant TagSnapshots(r) == start.SetAll(pairs[..i])
      invariant rNext == RaiseAbove(next, ids[..i])
      invariant issued <= rIssued
    {
      SetAllStep(start, pairs, i);
      TagEntriesAt(seeds, i);
      RaiseAboveStep(next, ids, i);
      r, rIssued, rNext := LoadTag(r, rIssued, rNext, seeds[i]);
    }
    assert pairs[..|seeds|] == pairs;
    assert ids[..|seeds|] == ids;
  }

  /** One iteration of the third loop of `load()`: a new event from the
      seed is `set` under its id and the counter is raised past it. */
  method LoadEvent(m: OrderedMap<EventItem>, ghost issued: set<int>, next: int, seed: EventInit)
    returns (r: OrderedMap<EventItem>, ghost rIssued: set<int>, rNext: int)
    requires EventStoreOk(m, issued, next)
    ensures EventStoreOk(r, rIssued, rNext)
    ensures EventSnapshots(r) == old(EventSnapshots(m)).Set(seed.id, Construct(seed))
    ensures rNext == if seed.id >= next then seed.id + 1 else next
    ensures issued <= rIssued
  {
    ghost var before := EventSnapshots(m);
    var ev := new EventItem(seed);
    assert EventSnapshots(m) == before;
    EventSnapshotsSet(m, ev.id, ev);
    EventStoreSet(m, issued, next, ev);
    r, rIssued, rNext := m.Set(ev.id, ev), issued + {ev.id}, if ev.id >= next then ev.id + 1 else next;
  }

  /** The third loop of `load()`: each seed becomes a new event and the
      counter is raised past its id. */
  method LoadEvents(m: OrderedMap<EventItem>, ghost issued: set<int>, next: int, seeds: seq<EventInit>)
    returns (r: OrderedMap<EventItem>, ghost rIssued: set<int>, rNext: int)
    requires EventStoreOk(m, issued, next)
    ensures EventStoreOk(r, rIssued, rNext)
    ensures EventSnapshots(r) == old(EventSnapshots(m)).SetAll(EventEntries(seeds))
    ensures rNext == RaiseAbove(next, EventSeedIds(seeds))
    ensures issued <= rIssued
  {
    r, rIssued, rNext := m, issued, next;
    ghost var start, pairs, ids := EventSnapshots(m), EventEntries(seeds), EventSeedIds(seeds);
    for i := 0 to |seeds|
      invariant EventStoreOk(r, rIssued, rNext)
      invariant EventSnapshots(r) == start.SetAll(pairs[..i])
      invariant rNext == RaiseAbove(next, ids[..i])
      invariant issued <= rIssued
    {
      SetAllStep(start, pairs, i);
      EventEntriesAt(seeds, i);
      RaiseAboveStep(next, ids, i);
      r, rIssued, rNext := LoadEvent(r, rIssued, rNext, seeds[i]);
    }
    assert pairs[..|seeds|] == pairs;
    assert ids[..|seeds|] == ids;
  }

  // ---------------------------------------------------------------------
  // The store

  class AppModel {
    var events: OrderedMap<EventItem>
    var participants: OrderedMap<Participant>
    var tags: OrderedMap<Tag>
    var nextEventId: int
    var nextTagId: int
    /** Every notification dispatched so far, oldest first. */
    var log: seq<Notification>
    /** Every event id and tag id that has ever been stored. */
    ghost var issuedEventIds: set<int>
    ghost var issuedTagIds: set<int>

    ghost predicate Valid()
      reads this
    {
      && EventStoreOk(events, issuedEventIds, nextEventId)
      && TagStoreOk(tags, issuedTagIds, nextTagId)
      && ParticipantStoreOk(participants)
    }

    /** The stored events' fields. */
    ghost function EventTable(): OrderedMap<EventData>
      reads this`events, events.entries.Values
    {
      EventSnapshots(events)
    }

    /** The stored tags' fields. */
    ghost function TagTable(): OrderedMap<TagData>
      reads this`tags, tags.entries.Values
    {
      TagSnapshots(tags)
    }

    constructor ()
      ensures Valid()
      ensures events == Empty() && tags == Empty() && participants == Empty()
      ensures nextEventId == 1 && nextTagId == 1 && log == []
    {
      events := Empty();
      participants := Empty();
      tags := Empty();
      nextEventId := 1;
      nextTagId := 1;
      log := [];
      issuedEventIds := {};
      issuedTagIds := {};
    }

    /** `load()` with the fetched data passed in: every record is `set` into
        the existing maps (in place when its id is present, appended
        otherwise), the counters are raised past the loaded ids, and one
        `loaded` notification is dispatched. */
    method Load(users: seq<ParticipantInit>, tagSeeds: seq<TagData>, eventSeeds: seq<EventInit>)
      requires Valid()
      modifies this
      ensures Valid()
      ensures participants == old(participants).SetAll(ParticipantEntries(users))
      ensures TagTable() == old(TagTable()).SetAll(TagEntries(tagSeeds))
      ensures EventTable() == old(EventTable()).SetAll(EventEntries(eventSeeds))
      ensures nextTagId == RaiseAbove(old(nextTagId), TagSeedIds(tagSeeds))
      ensures nextEventId == RaiseAbove(old(nextEventId), EventSeedIds(eventSeeds))
      ensures old(issuedTagIds) <= issuedTagIds && old(issuedEventIds) <= issuedEventIds
      ensures log == old(log) + [Loaded]
    {
      var ps := LoadParticipants(participants, users);
      var ts, nextTag;
      ghost var tagIds;
      ts, tagIds, nextTag := LoadTags(tags, issuedTagIds, nextTagId, tagSeeds);
      var es, nextEvent;
      ghost var eventIds;
      es, eventIds, nextEvent := LoadEvents(events, issuedEventIds, nextEventId, eventSeeds);
      label Stored:
      participants, tags, issuedTagIds, nextTagId, events, issuedEventIds, nextEventId, log :=
        ps, ts, tagIds, nextTag, es, eventIds, nextEvent, log + [Loaded];
      assert Valid();
      TagSnapshotsUnchanged@Stored(ts);
      EventSnapshotsUnchanged@Stored(es);
    }

    /** `tags.set(tag.id, tag)` and the counter raised past the id, as
        `addTag()` does it; `LoadTag` is the same step of `load()` on a store
        held in locals. */
    method StoreTag(tag: Tag)
      requires TagStoreOk(tags, issuedTagIds, nextTagId)
      modifies this`tags, this`nextTagId, this`issuedTagIds
      ensures TagStoreOk(tags, issuedTagIds, nextTagId)
      ensures tags == old(tags).Set(tag.id, tag)
      ensures TagTable() == old(TagTable()).Set(tag.id, tag.Data())
      ensures issuedTagIds == old(issuedTagIds) + {tag.id}
      ensures nextTagId == if tag.id >= old(nextTagId) then tag.id + 1 else old(nextTagId)
    {
      TagSnapshotsSet(tags, tag.id, tag);
      TagStoreSet(tags, issuedTagIds, nextTagId, tag);
      tags, issuedTagIds, nextTagId :=
        tags.Set(tag.id, tag), issuedTagIds + {tag.id}, if tag.id >= nextTagId then tag.id + 1 else nextTagId;
    }

    /** `events.set(ev.id, ev)` and the counter raised past the id, as
        `addEvent()` does it; `LoadEvent` is the same step of `load()` on a
        store held in locals. */
    method StoreEvent(ev: EventItem)
      requires EventStoreOk(events, issuedEventIds, nextEventId)
      modifies this`events, this`nextEventId, this`issuedEventIds
      ensures EventStoreOk(events, issuedEventIds, nextEventId)
      ensures events == old(events).Set(ev.id, ev)
      ensures EventTable() == old(EventTable()).Set(ev.id, ev.ToJson())
      ensures issuedEventIds == old(issuedEventIds) + {ev.id}
      ensures nextEventId == if ev.id >= old(nextEventId) then ev.id + 1 else old(nextEventId)
    {
      EventSnapshotsSet(events, ev.id, ev);
      EventStoreSet(events, issuedEventIds, nextEventId, ev);
      events, issuedEventIds, nextEventId :=
        events.Set(ev.id, ev), issuedEventIds + {ev.id}, if ev.id >= nextEventId then ev.id + 1 else nextEventId;
    }

    /** `participants`: the stored participants in insertion order. */
    function Participants(): (r: seq<Participant>)
      reads this
      requires Valid()
      ensures |r| == |participants.keys|
      ensures forall i :: 0 <= i < |r| ==> r[i] == participants.entries[participants.keys[i]] && r[i].id == participants.keys[i]
    {
      participants.Values()
    }

    function GetParticipantById(id: int): (r: Option<Participant>)
      reads this
      requires Valid()
      ensures r.Some? <==> id in participants.keys
      ensures r.Some? ==> r.value == participants.entries[id] && r.value.id == id
    {
      participants.Get(id)
    }

    /** `tags`: the stored tags in insertion order. */
    function Tags(): (r: seq<Tag>)
      reads this
      requires Valid()
      ensures |r| == |tags.keys|
      ensures forall i :: 0 <= i < |r| ==> r[i] == tags.entries[tags.keys[i]] && r[i].id == tags.keys[i]
    {
      tags.Values()
    }

    function GetTagById(id: int): (r: Option<Tag>)
      reads this
      requires Valid()
      ensures r.Some? <==> id in tags.keys
      ensures r.Some? ==> r.value == tags.entries[id] && r.value.id == id
    {
      tags.Get(id)
    }

    /** `events`: the stored events in insertion order. */
    function Events(): (r: seq<EventItem>)
      reads this
      requires Valid()
      ensures |r| == |events.keys|
      ensures forall i :: 0 <= i < |r| ==> r[i] == events.entries[events.keys[i]] && r[i].id == events.keys[i]
      ensures forall i :: 0 <= i < |r| ==> r[i] in events.entries.Values
    {
      events.Values()
    }

    function GetEventById(id: int): (r: Option<EventItem>)
      reads this
      requires Valid()
      ensures r.Some? <==> id in events.keys
      ensures r.Some? ==> r.value == events.entries[id] && r.value.id == id
    {
      events.Get(id)
    }

    /** `filterEvents(f)`: the stored events that meet every truthy
        criterion, in storage order. */
    function FilterEvents(f: FilterSpec): (r: seq<EventItem>)
      reads this, events.entries.Values
      requires Valid()
      ensures IsSubsequence(r, Events())
      ensures forall i :: 0 <= i < |r| ==> Matches(r[i], f)
      ensures forall i :: 0 <= i < |Events()| && Matches(Events()[i], f) ==> Events()[i] in r
      ensures ImposesNothing(f) ==> r == Events()
    {
      if ImposesNothing(f) then FilterWithoutCriteria(Events(), f); FilterItems(Events(), f)
      else FilterItems(Events(), f)
    }

    /** The scan `deleteTag` performs: does any stored event carry tag `t`? */
    function TagInUse(t: int): (r: bool)
      reads this, events.entries.Values
      requires Valid()
      ensures r <==> exists k :: k in events.entries && t in events.entries[k].tagIds
    {
      var evs := events.Values();
      var found := AnyHasTag(evs, t);
      assert found ==> exists k :: k in events.entries && t in events.entries[k].tagIds by {
        if found {
          var i :| 0 <= i < |evs| && t in evs[i].tagIds;
          var k := events.keys[i];
          assert k in events.entries && evs[i] == events.entries[k];
          assert t in events.entries[k].tagIds;
        }
      }
      assert (exists k :: k in events.entries && t in events.entries[k].tagIds) ==> found by {
        if exists k :: k in events.entries && t in events.entries[k].tagIds {
          var k :| k in events.entries && t in events.entries[k].tagIds;
          var i :| 0 <= i < |events.keys| && events.keys[i] == k;
          assert t in evs[i].tagIds;
        }
      }
      found
    }

    /** `addTag(name)`: a fresh tag with the next id; names may repeat. */
    method AddTag(name: string) returns (tag: Tag)
      requires Valid()
      modifies this
      ensures Valid()
      ensures fresh(tag) && tag.id == old(nextTagId) && tag.name == name
      ensures tag.id !in old(issuedTagIds) && issuedTagIds == old(issuedTagIds) + {tag.id}
      ensures nextTagId == old(nextTagId) + 1
      ensures tags == old(tags).Set(tag.id, tag) && tags.keys == old(tags.keys) + [tag.id]
      ensures TagTable() == old(TagTable()).Set(tag.id, TagData(tag.id, name))
      ensures events == old(events) && participants == old(participants) && nextEventId == old(nextEventId)
      ensures issuedEventIds == old(issuedEventIds)
      ensures log == old(log) + [TagsChanged(TagAdded(TagData(tag.id, name)))]
    {
      tag := new Tag(TagData(nextTagId, name));
      StoreTag(tag);
      log := log + [TagsChanged(TagAdded(tag.Data()))];
    }

    /** `deleteTag(t)`: refused while any event carries the tag; otherwise
        the tag is removed (a missing id is not an error) and a delete
        notification is dispatched either way. */
    method DeleteTag(t: int) returns (outcome: TagDeletion)
      requires Valid()
      modifies this
      ensures Valid()
      ensures outcome == InUse <==> old(TagInUse(t))
      ensures outcome == InUse ==> unchanged(this)
      ensures outcome == Deleted ==>
        && tags == old(tags).Delete(t)
        && TagTable() == old(TagTable()).Delete(t)
        && log == old(log) + [TagsChanged(TagRemoved(t))]
      ensures events == old(events) && participants == old(participants)
      ensures nextEventId == old(nextEventId) && nextTagId == old(nextTagId)
      ensures issuedEventIds == old(issuedEventIds) && issuedTagIds == old(issuedTagIds)
    {
      if TagInUse(t) {
        return InUse;
      }
      TagSnapshotsDelete(tags, t);
      tags := tags.Delete(t);
      log := log + [TagsChanged(TagRemoved(t))];
      outcome := Deleted;
    }

    /** `addEvent(data)`: a fresh event built from `data` with the next id
        (any id in `data` is overridden). */
    method AddEvent(data: EventInit) returns (ev: EventItem)
      requires Valid()
      modifies this
      ensures Valid()
      ensures fresh(ev) && ev.id == old(nextEventId)
      ensures ev.id !in old(issuedEventIds) && issuedEventIds == old(issuedEventIds) + {ev.id}
      ensures ev.ToJson() == Construct(data.(id := old(nextEventId)))
      ensures nextEventId == old(nextEventId) + 1
      ensures events == old(events).Set(ev.id, ev) && events.keys == old(events.keys) + [ev.id]
      ensures EventTable() == old(EventTable()).Set(ev.id, ev.ToJson())
      ensures tags == old(tags) && participants == old(participants) && nextTagId == old(nextTagId)
      ensures issuedTagIds == old(issuedTagIds)
      ensures log == old(log) + [EventsChanged(EventAdded(ev.ToJson()))]
    {
      ev := new EventItem(data.(id := nextEventId));
      StoreEvent(ev);
      log := log + [EventsChanged(EventAdded(ev.ToJson()))];
    }

    /** `updateEvent(id, data)`: on an unknown id nothing happens; otherwise
        every supplied field is assigned through its setter and one update
        notification is dispatched. */
    method UpdateEvent(id: int, p: EventPatch) returns (r: Option<EventItem>)
      requires Valid()
      modifies this, events.entries.Values
      ensures Valid()
      ensures id !in old(events.keys) ==> r == None && unchanged(this) && EventTable() == old(EventTable())
      ensures id in old(events.keys) ==>
        && r == Some(old(events.entries[id]))
        && EventTable() == old(EventTable()).Set(id, Patch(old(EventTable().entries[id]), p))
        && log == old(log) + [EventsChanged(EventUpdated(Patch(old(EventTable().entries[id]), p)))]
      ensures events == old(events) && tags == old(tags) && participants == old(participants)
      ensures nextEventId == old(nextEventId) && nextTagId == old(nextTagId)
      ensures issuedEventIds == old(issuedEventIds) && issuedTagIds == old(issuedTagIds)
    {
      var found := events.Get(id);
      if found.None? {
        return None;
      }
      var ev := found.value;
      ghost var before := EventTable();
      AssignSuppliedFields(ev, p);
      assert forall k :: k in events.entries && k != id ==> events.entries[k] != ev;
      assert EventTable() == before.Set(id, ev.ToJson());
      log, r := log + [EventsChanged(EventUpdated(ev.ToJson()))], Some(ev);
    }

    /** `deleteEvent(id)`: on an unknown id nothing happens; otherwise the
        event is removed and one delete notification is dispatched. */
    method DeleteEvent(id: int)
      requires Valid()
      modifies this
      ensures Valid()
      ensures id !in old(events.keys) ==> unchanged(this)
      ensures id in old(events.keys) ==>
        && events == old(events).Delete(id)
        && EventTable() == old(EventTable()).Delete(id)
        && log == old(log) + [EventsChanged(EventRemoved(id))]
      ensures tags == old(tags) && participants == old(participants)
      ensures nextEventId == old(nextEventId) && nextTagId == old(nextTagId)
      ensures issuedEventIds == old(issuedEventIds) && issuedTagIds == old(issuedTagIds)
    {
      var found := events.Get(id);
      if found.None? {
        return;
      }
      EventSnapshotsDelete(events, id);
      events := events.Delete(id);
      log := log + [EventsChanged(EventRemoved(id))];
    }
  }

  // ---------------------------------------------------------------------
  // Scenarios

  /** An event added after another was deleted never gets the deleted id:
      ids keep rising. */
  method AddDeleteAdd(m: AppModel, first: EventInit, second: EventInit) returns (a: EventItem, b: EventItem)
    requires m.Valid()
    modifies m
    ensures m.Valid()
    ensures a.id < b.id
    ensures a.id !in m.events.keys && b.id in m.events.keys
  {
    a := m.AddEvent(first);
    m.DeleteEvent(a.id);
    b := m.AddEvent(second);
  }

  /** A tag that a stored event carries cannot be deleted; the refusal
      leaves the tag in place. */
  method DeleteTagInUse(m: AppModel, data: EventInit, name: string) returns (tag: Tag, outcome: TagDeletion)
    requires m.Valid()
    modifies m
    ensures m.Valid()
    ensures outcome == InUse
    ensures tag.id in m.tags.keys && m.tags.entries[tag.id] == tag && tag.name == name
  {
    tag := m.AddTag(name);
    var ev := m.AddEvent(data.(tagIds := Some([tag.id])));
    assert ev.id in m.events.entries && tag.id in m.events.entries[ev.id].tagIds;
    outcome := m.DeleteTag(tag.id);
    assert tag.id in m.tags.keys && m.tags.entries[tag.id] == tag;
  }

  /** Names are not checked for uniqueness: adding the same name twice
      stores two distinct tags. */
  method AddSameTagNameTwice(m: AppModel, name: string) returns (a: Tag, b: Tag)
    requires m.Valid()
    modifies m
    ensures m.Valid()
    ensures a != b && a.id < b.id && a.name == b.name == name
    ensures a.id in m.tags.keys && b.id in m.tags.keys
  {
    a := m.AddTag(name);
    b := m.AddTag(name);
  }
}
