/** A tag: an immutable id and a renamable name. */
module Tags {

  /** The `{ id, name }` shape a tag is built from and reported as. */
  datatype TagData = TagData(id: int, name: string)

  class Tag {
    /** No setter exists for the id, so it is a constant. */
    const id: int
    var name: string

    constructor (init: TagData)
      ensures id == init.id && name == init.name
    {
      id := init.id;
      name := init.name;
    }

    /** The `name` setter: only the name changes. */
    method SetName(v: string)
      modifies this`name
      ensures name == v
    {
      name := v;
    }

    /** The tag's current fields. */
    function Data(): (d: TagData)
      reads this
    {
      TagData(id, name)
    }
  }

  /** Two renames in a row: the second one wins and the id stays. */
  method RenameTwice(t: Tag, first: string, second: string)
    modifies t
    ensures t.name == second
    ensures t.Data() == TagData(t.id, second)
  {
    t.SetName(first);
    t.SetName(second);
  }
}
