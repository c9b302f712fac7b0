/** An event record: an immutable id, eight replaceable fields, and two id
    lists with set-like helpers. */
module Events {
  import opened JsValues
  import opened Seqs

  /** The glyph an event shows when it is built without an icon. */
  const DefaultIcon: string := "\U{1F4C5}"

  /** The ten fields of an event, as `toJSON` reports them. Optional fields
      that were never supplied are `None` (`undefined`). */
  datatype EventData = EventData(
    id: int,
    title: string,
    date: string,
    time: Option<string>,
    location: Option<string>,
    description: Option<string>,
    status: string,
    icon: string,
    tagIds: seq<int>,
    participantIds: seq<int>)

  /** The object the constructor destructures: `icon`, `tagIds` and
      `participantIds` may be `undefined`. */
  datatype EventInit = EventInit(
    id: int,
    title: string,
    date: string,
    time: Option<string>,
    location: Option<string>,
    description: Option<string>,
    status: string,
    icon: Option<string>,
    tagIds: Option<seq<int>>,
    participantIds: Option<seq<int>>)

  /** The fields the constructor stores: everything as given, `icon || '📅'`,
      and the lists defaulted to `[]` and copied. */
  function Construct(init: EventInit): (d: EventData)
    ensures d.icon != ""
  {
    EventData(init.id, init.title, init.date, init.time, init.location, init.description, init.status,
      if IsTruthyString(init.icon) then init.icon.value else DefaultIcon,
      if init.tagIds.Some? then init.tagIds.value else [],
      if init.participantIds.Some? then init.participantIds.value else [])
  }

  /** The `toJSON()` object handed back to the constructor: every field is
      defined. */
  function AsInit(d: EventData): EventInit
  {
    EventInit(d.id, d.title, d.date, d.time, d.location, d.description, d.status,
      Some(d.icon), Some(d.tagIds), Some(d.participantIds))
  }

  /** Rebuilding an event from its JSON reproduces it, except that an icon
      emptied by a later assignment falls back to the default glyph. */
  lemma ConstructFromJson(d: EventData)
    ensures Construct(AsInit(d)) == if d.icon == "" then d.(icon := DefaultIcon) else d
  {
  }

  /** The constructor's defaults: a falsy icon becomes the glyph, a truthy
      one is kept; missing lists become empty; all else is stored verbatim. */
  lemma ConstructDefaults(init: EventInit)
    ensures Construct(init).icon == if init.icon.None? || init.icon.value == "" then DefaultIcon else init.icon.value
    ensures Construct(init).tagIds == if init.tagIds.None? then [] else init.tagIds.value
    ensures Construct(init).participantIds == if init.participantIds.None? then [] else init.participantIds.value
    ensures Construct(init).id == init.id && Construct(init).title == init.title && Construct(init).date == init.date
    ensures Construct(init).time == init.time && Construct(init).location == init.location
    ensures Construct(init).description == init.description && Construct(init).status == init.status
  {
  }

  class EventItem {
    /** No setter exists for the id, so it is a constant. */
    const id: int
    var title: string
    var date: string
    var time: Option<string>
    var location: Option<string>
    var description: Option<string>
    var status: string
    var icon: string
    var tagIds: seq<int>
    var participantIds: seq<int>

    /** `new EventItem(init)`. The id lists are values here, so the stored
        list is independent of the caller's array. */
    constructor (init: EventInit)
      ensures ToJson() == Construct(init)
    {
      var d := Construct(init);
      id := d.id;
      title := d.title;
      date := d.date;
      time := d.time;
      location := d.location;
      description := d.description;
      status := d.status;
      icon := d.icon;
      tagIds := d.tagIds;
      participantIds := d.participantIds;
    }

    /** `toJSON()`: the ten stored fields. They are enough to rebuild the
        event: the constructor given them reproduces every field, as long as
        the icon has not been emptied since. */
    function ToJson(): (d: EventData)
      reads this
      ensures d.id == id
      ensures d.icon != "" ==> Construct(AsInit(d)) == d
    {
      EventData(id, title, date, time, location, description, status, icon, tagIds, participantIds)
    }

    /** The `tagIds` getter: a copy of the stored list. */
    method GetTagIds() returns (r: seq<int>)
      ensures r == tagIds
    {
      r := tagIds;
    }

    /** The `participantIds` getter: a copy of the stored list. */
    method GetParticipantIds() returns (r: seq<int>)
      ensures r == participantIds
    {
      r := participantIds;
    }

    method SetTitle(v: string)
      modifies this`title
      ensures title == v
    {
      title := v;
    }

    method SetDate(v: string)
      modifies this`date
      ensures date == v
    {
      date := v;
    }

    method SetTime(v: Option<string>)
      modifies this`time
      ensures time == v
    {
      time := v;
    }

    method SetLocation(v: Option<string>)
      modifies this`location
      ensures location == v
    {
      location := v;
    }

    method SetDescription(v: Option<string>)
      modifies this`description
      ensures description == v
    {
      description := v;
    }

    method SetStatus(v: string)
      modifies this`status
      ensures status == v
    {
      status := v;
    }

    /** The `icon` setter stores the value as it is: no default applies. */
    method SetIcon(v: string)
      modifies this`icon
      ensures icon == v
    {
      icon := v;
    }

    /** The `tagIds` setter stores a copy of the argument. */
    method SetTagIds(v: seq<int>)
      modifies this`tagIds
      ensures tagIds == v
    {
      tagIds := v;
    }

    /** The `participantIds` setter stores a copy of the argument. */
    method SetParticipantIds(v: seq<int>)
      modifies this`participantIds
      ensures participantIds == v
    {
      participantIds := v;
    }

    /** `tagIds.includes(t)`. */
    predicate HasTag(t: int)
      reads this
      ensures HasTag(t) <==> exists i :: 0 <= i < |tagIds| && tagIds[i] == t
    {
      t in tagIds
    }

    /** Appends `t` unless it is already there. */
    method AddTag(t: int)
      modifies this`tagIds
      ensures tagIds == AddIfAbsent(old(tagIds), t)
      ensures HasTag(t) && tagIds[..|old(tagIds)|] == old(tagIds)
    {
      if !HasTag(t) {
        tagIds := tagIds + [t];
      }
    }

    /** Drops every occurrence of `t`, keeping the other ids in order. */
    method RemoveTag(t: int)
      modifies this`tagIds
      ensures tagIds == RemoveAll(old(tagIds), t)
      ensures !HasTag(t)
    {
      tagIds := RemoveAll(tagIds, t);
    }

    /** `participantIds.includes(p)`. */
    predicate HasParticipant(p: int)
      reads this
      ensures HasParticipant(p) <==> exists i :: 0 <= i < |participantIds| && participantIds[i] == p
    {
      p in participantIds
    }

    /** Appends `p` unless it is already there. */
    method AddParticipant(p: int)
      modifies this`participantIds
      ensures participantIds == AddIfAbsent(old(participantIds), p)
      ensures HasParticipant(p) && participantIds[..|old(participantIds)|] == old(participantIds)
    {
      if !HasParticipant(p) {
        participantIds := participantIds + [p];
      }
    }

    /** Drops every occurrence of `p`, keeping the other ids in order. */
    method RemoveParticipant(p: int)
      modifies this`participantIds
      ensures participantIds == RemoveAll(old(participantIds), p)
      ensures !HasParticipant(p)
    {
      participantIds := RemoveAll(participantIds, p);
    }
  }

  /** Adding the same tag twice is the same as adding it once. */
  method AddTagTwice(ev: EventItem, t: int)
    modifies ev
    ensures ev.tagIds == AddIfAbsent(old(ev.tagIds), t)
  {
    ev.AddTag(t);
    ev.AddTag(t);
    AddIfAbsentIdempotent(old(ev.tagIds), t);
  }
}
