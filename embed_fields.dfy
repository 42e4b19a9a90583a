/**
 * The field list of a message embed, as the reaction handlers edit it
 * (src/events/messageReactionAdd.js, src/events/messageReactionRemove.js):
 * look a field up by name with `findIndex`, then overwrite its value, append
 * a new field, or `splice` it out.
 */
module EmbedFields {
  import opened Wrappers

  datatype Field = Field(name: string, value: string, inline: bool)

  /** The embed data a handler edits before sending it back with
      `message.edit`. A missing `fields` array is the empty list. */
  class EmbedData {
    var title: string
    var fields: seq<Field>

    constructor(title: string, fields: seq<Field>)
      ensures this.title == title && this.fields == fields
    {
      this.title := title;
      this.fields := fields;
    }

    /** `fields.findIndex(f => f.name === name)`: the first position holding
        a field of that name, or -1. */
    method FindField(name: string) returns (index: int)
      ensures -1 <= index < |fields|
      ensures index == -1 <==> forall j :: 0 <= j < |fields| ==> fields[j].name != name
      ensures index >= 0 ==> fields[index].name == name
                             && forall j :: 0 <= j < index ==> fields[j].name != name
      ensures index == (if FirstIndex(fields, name).Some? then FirstIndex(fields, name).value else -1)
    {
      var i := 0;
      while i < |fields|
        invariant 0 <= i <= |fields|
        invariant forall j :: 0 <= j < i ==> fields[j].name != name
      {
        if fields[i].name == name {
          FirstIndexIs(fields, name, i);
          return i;
        }
        i := i + 1;
      }
      FirstIndexNone(fields, name);
      return -1;
    }
  }

  /** The position of the first field named `name`. */
  function FirstIndex(fs: seq<Field>, name: string): (r: Option<nat>)
    ensures r.Some? ==> r.value < |fs| && fs[r.value].name == name
    ensures r.Some? ==> forall j :: 0 <= j < r.value ==> fs[j].name != name
    ensures r.None? <==> forall j :: 0 <= j < |fs| ==> fs[j].name != name
    decreases |fs|
  {
    if fs == [] then None
    else if fs[0].name == name then Some(0)
    else
      match FirstIndex(fs[1..], name)
      case None =>
        assert forall j :: 1 <= j < |fs| ==> fs[j] == fs[1..][j - 1];
        None
      case Some(i) =>
        assert forall j :: 1 <= j < i + 1 ==> fs[j] == fs[1..][j - 1];
        Some(i + 1)
  }

  lemma FirstIndexIs(fs: seq<Field>, name: string, i: nat)
    requires i < |fs| && fs[i].name == name
    requires forall j :: 0 <= j < i ==> fs[j].name != name
    ensures FirstIndex(fs, name) == Some(i)
  {
  }

  lemma FirstIndexNone(fs: seq<Field>, name: string)
    requires forall j :: 0 <= j < |fs| ==> fs[j].name != name
    ensures FirstIndex(fs, name) == None
  {
  }

  /** Find-or-append: the first field named `name` takes the new value, or,
      when there is none, a non-inline field with that name and value is
      appended. */
  function Upsert(fs: seq<Field>, name: string, value: string): (r: seq<Field>)
    ensures FirstIndex(r, name).Some? && r[FirstIndex(r, name).value].value == value
    ensures |r| == if FirstIndex(fs, name).Some? then |fs| else |fs| + 1
    ensures forall j :: 0 <= j < |fs| ==> r[j].name == fs[j].name && r[j].inline == fs[j].inline
    ensures forall j :: 0 <= j < |fs| && Some(j) != FirstIndex(fs, name) ==> r[j] == fs[j]
    ensures FirstIndex(fs, name).None? ==> r[|fs|] == Field(name, value, false)
  {
    match FirstIndex(fs, name)
    case Some(i) =>
      var r := fs[i := fs[i].(value := value)];
      FirstIndexIs(r, name, i);
      r
    case None =>
      var r := fs + [Field(name, value, false)];
      FirstIndexIs(r, name, |fs|);
      r
  }

  /** Update-only: the first field named `name` takes the new value; no
      field is ever added. */
  function UpdateOnly(fs: seq<Field>, name: string, value: string): (r: seq<Field>)
    ensures |r| == |fs|
    ensures forall j :: 0 <= j < |fs| ==> r[j].name == fs[j].name && r[j].inline == fs[j].inline
    ensures forall j :: 0 <= j < |fs| && Some(j) != FirstIndex(fs, name) ==> r[j] == fs[j]
    ensures FirstIndex(fs, name).Some? ==> r[FirstIndex(fs, name).value].value == value
    ensures FirstIndex(fs, name).None? ==> r == fs
  {
    match FirstIndex(fs, name)
    case Some(i) => fs[i := fs[i].(value := value)]
    case None => fs
  }

  /** `splice(findIndex(...), 1)` guarded by `index >= 0`: the first field
      named `name` is removed and the others keep their order. */
  function RemoveFirst(fs: seq<Field>, name: string): (r: seq<Field>)
    ensures FirstIndex(fs, name).None? ==> r == fs
    ensures FirstIndex(fs, name).Some? ==>
              var i := FirstIndex(fs, name).value;
              |r| == |fs| - 1
              && (forall j :: 0 <= j < i ==> r[j] == fs[j])
              && (forall j :: i <= j < |r| ==> r[j] == fs[j + 1])
  {
    match FirstIndex(fs, name)
    case Some(i) => fs[..i] + fs[i + 1..]
    case None => fs
  }

  /** Writing the same value twice is writing it once. */
  lemma UpsertIdempotent(fs: seq<Field>, name: string, value: string)
    ensures Upsert(Upsert(fs, name, value), name, value) == Upsert(fs, name, value)
  {
    var r := Upsert(fs, name, value);
    var i := FirstIndex(r, name).value;
    if FirstIndex(fs, name).Some? {
      FirstIndexIs(r, name, FirstIndex(fs, name).value);
    } else {
      FirstIndexIs(r, name, |fs|);
    }
    assert r[i := r[i].(value := value)] == r;
  }

  /** Appending the field to a list without one and removing it again gives
      back the list. */
  lemma RemoveUndoesAppend(fs: seq<Field>, name: string, value: string)
    requires FirstIndex(fs, name).None?
    ensures RemoveFirst(Upsert(fs, name, value), name) == fs
  {
    var r := Upsert(fs, name, value);
    FirstIndexIs(r, name, |fs|);
    assert r[..|fs|] == fs;
  }

  /** Editing or appending a field under one name leaves the lookup under a
      different name where it was. */
  lemma UpsertKeepsOtherLookup(fs: seq<Field>, name: string, value: string, other: string)
    requires other != name
    ensures FirstIndex(Upsert(fs, name, value), other) == FirstIndex(fs, other)
  {
    var r := Upsert(fs, name, value);
    match FirstIndex(fs, other)
    case Some(k) =>
      assert r[k].name == other;
      FirstIndexIs(r, other, k);
    case None =>
      assert forall j :: 0 <= j < |r| ==> r[j].name != other by {
        forall j | 0 <= j < |r| ensures r[j].name != other {
          if j < |fs| {
            assert r[j].name == fs[j].name;
          }
        }
      }
  }
}
