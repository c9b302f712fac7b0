/** The consistency conditions of the model's three stores, stated on the
    stored maps and counters as values. */
module Stores {
  import opened OrderedMaps
  import opened Tags
  import opened Events
  import opened Participants

  /** Each event is stored under its own id; every stored id has been
      issued, and every issued id is below the counter. */
  ghost predicate EventStoreOk(m: OrderedMap<EventItem>, issued: set<int>, next: int)
  {
    && m.Valid()
    && (forall k :: k in m.entries ==> m.entries[k].id == k)
    && m.entries.Keys <= issued
    && (forall k :: k in issued ==> k < next)
  }

  /** The same for tags. */
  ghost predicate TagStoreOk(m: OrderedMap<Tag>, issued: set<int>, next: int)
  {
    && m.Valid()
    && (forall k :: k in m.entries ==> m.entries[k].id == k)
    && m.entries.Keys <= issued
    && (forall k :: k in issued ==> k < next)
  }

  /** Each participant is stored under its own id. */
  ghost predicate ParticipantStoreOk(m: OrderedMap<Participant>)
  {
    && m.Valid()
    && (forall k :: k in m.entries ==> m.entries[k].id == k)
  }

  /** Storing an event under its own id, recording the id as issued and
      raising the counter past it keeps the event store consistent. */
  lemma EventStoreSet(m: OrderedMap<EventItem>, issued: set<int>, next: int, ev: EventItem)
    requires EventStoreOk(m, issued, next)
    ensures EventStoreOk(m.Set(ev.id, ev), issued + {ev.id}, if ev.id >= next then ev.id + 1 else next)
  {
  }

  /** The same for tags. */
  lemma TagStoreSet(m: OrderedMap<Tag>, issued: set<int>, next: int, t: Tag)
    requires TagStoreOk(m, issued, next)
    ensures TagStoreOk(m.Set(t.id, t), issued + {t.id}, if t.id >= next then t.id + 1 else next)
  {
  }

  // ---------------------------------------------------------------------
  // Snapshots of stored objects

  /** The fields of every stored event, keyed and ordered as the store. */
  function EventSnapshots(m: OrderedMap<EventItem>): (r: OrderedMap<EventData>)
    reads m.entries.Values
    ensures m.Valid() ==> r.Valid()
    ensures r.keys == m.keys
  {
    OrderedMap(m.keys, map k | k in m.entries :: m.entries[k].ToJson())
  }

  /** The fields of every stored tag, keyed and ordered as the store. */
  function TagSnapshots(m: OrderedMap<Tag>): (r: OrderedMap<TagData>)
    reads m.entries.Values
    ensures m.Valid() ==> r.Valid()
    ensures r.keys == m.keys
  {
    OrderedMap(m.keys, map k | k in m.entries :: m.entries[k].Data())
  }

  lemma EventSnapshotsSet(m: OrderedMap<EventItem>, k: int, ev: EventItem)
    requires m.Valid()
    ensures EventSnapshots(m.Set(k, ev)) == EventSnapshots(m).Set(k, ev.ToJson())
  {
  }

  lemma EventSnapshotsDelete(m: OrderedMap<EventItem>, k: int)
    requires m.Valid()
    ensures EventSnapshots(m.Delete(k)) == EventSnapshots(m).Delete(k)
  {
  }

  lemma TagSnapshotsSet(m: OrderedMap<Tag>, k: int, t: Tag)
    requires m.Valid()
    ensures TagSnapshots(m.Set(k, t)) == TagSnapshots(m).Set(k, t.Data())
  {
  }

  lemma TagSnapshotsDelete(m: OrderedMap<Tag>, k: int)
    requires m.Valid()
    ensures TagSnapshots(m.Delete(k)) == TagSnapshots(m).Delete(k)
  {
  }

  /** The snapshots depend on the stored objects' fields only. */
  twostate lemma EventSnapshotsUnchanged(m: OrderedMap<EventItem>)
    requires unchanged(m.entries.Values)
    ensures EventSnapshots(m) == old(EventSnapshots(m))
  {
  }

  twostate lemma TagSnapshotsUnchanged(m: OrderedMap<Tag>)
    requires unchanged(m.entries.Values)
    ensures TagSnapshots(m) == old(TagSnapshots(m))
  {
  }
}
