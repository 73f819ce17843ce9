/**
 * The training record (`Entrenamiento`): a name, a description and the id
 * of an icon drawable, with getters, setters and its `Parcelable` side
 * (`writeToParcel`, the reading constructor, `describeContents` and
 * `CREATOR`).
 */
module Trainings {
  import opened Java
  import opened Parcels
  import opened Resources

  /** The value a training record holds. */
  datatype Entry = Entry(name: string, description: string, iconResId: int32)

  /** Every name differs from every other under `equalsIgnoreCase`. */
  predicate NamesUnique(list: seq<Entry>) {
    forall i, j :: 0 <= i < j < |list| ==> !EqualsIgnoreCase(list[i].name, list[j].name)
  }

  /**
   * What the add form can produce: a trimmed non-empty name, a trimmed
   * non-empty description and one of the four training icons.
   */
  predicate WellFormed(e: Entry) {
    && e.name != [] && Trimmed(e.name)
    && e.description != [] && Trimmed(e.description)
    && IsTrainingIcon(e.iconResId)
  }

  // ---------------------------------------------------------------------
  // Parcel layout
  // ---------------------------------------------------------------------

  /** The values `writeToParcel` appends: name, description, icon id. */
  function Encode(e: Entry): seq<ParcelValue> {
    [StringValue(e.name), StringValue(e.description), IntValue(e.iconResId)]
  }

  /** The records of `list`, written one after the other. */
  function EncodeAll(list: seq<Entry>): seq<ParcelValue> {
    if list == [] then [] else Encode(list[0]) + EncodeAll(list[1..])
  }

  /**
   * How many of the three reads of the Parcel constructor (string, string,
   * int) succeed, in order, from `pos`.
   */
  function FieldsReadable(data: seq<ParcelValue>, pos: nat): (n: nat)
    ensures n <= 3
    ensures n == 3 ==> pos + 3 <= |data|
  {
    if StringAt(data, pos).None? then 0
    else if StringAt(data, pos + 1).None? then 1
    else if IntAt(data, pos + 2).None? then 2
    else 3
  }

  /**
   * The record the Parcel constructor reads at `pos`: it exists exactly when
   * the three reads succeed, and it is the record whose encoding lies there.
   */
  function ReadEntry(data: seq<ParcelValue>, pos: nat): (r: Option<Entry>)
    ensures r.Some? <==> FieldsReadable(data, pos) == 3
    ensures r.Some? ==> pos + 3 <= |data| && Encode(r.value) == data[pos..pos + 3]
  {
    if FieldsReadable(data, pos) == 3
    then Some(Entry(data[pos].s, data[pos + 1].s, data[pos + 2].i))
    else None
  }

  /** `n` records read one after the other from `pos`. */
  function ReadEntries(data: seq<ParcelValue>, pos: nat, n: nat): (r: Option<seq<Entry>>)
    ensures r.Some? ==> |r.value| == n
    decreases n
  {
    if n == 0 then Some([])
    else match ReadEntry(data, pos)
      case None => None
      case Some(e) =>
        match ReadEntries(data, pos + 3, n - 1)
        case None => None
        case Some(rest) => Some([e] + rest)
  }

  /**
   * Writing a record and reading from where it starts gives the same record
   * back, whatever precedes and follows it, and consumes exactly three values.
   */
  lemma ReadEntryOfEncoding(prefix: seq<ParcelValue>, e: Entry, suffix: seq<ParcelValue>)
    ensures FieldsReadable(prefix + Encode(e) + suffix, |prefix|) == 3
    ensures ReadEntry(prefix + Encode(e) + suffix, |prefix|) == Some(e)
  {
    var data := prefix + Encode(e) + suffix;
    assert data[|prefix|] == StringValue(e.name);
    assert data[|prefix| + 1] == StringValue(e.description);
    assert data[|prefix| + 2] == IntValue(e.iconResId);
  }

  /** Records written one after the other read back as the same list. */
  lemma {:induction false} ReadEntriesRoundTrip(prefix: seq<ParcelValue>, list: seq<Entry>, suffix: seq<ParcelValue>)
    ensures ReadEntries(prefix + EncodeAll(list) + suffix, |prefix|, |list|) == Some(list)
    decreases |list|
  {
    if list != [] {
      var data := prefix + EncodeAll(list) + suffix;
      var rest := EncodeAll(list[1..]);
      assert data == prefix + Encode(list[0]) + (rest + suffix);
      ReadEntryOfEncoding(prefix, list[0], rest + suffix);
      assert data == (prefix + Encode(list[0])) + rest + suffix;
      ReadEntriesRoundTrip(prefix + Encode(list[0]), list[1..], suffix);
      assert [list[0]] + list[1..] == list;
    }
  }

  /** A parcel holding just the records of `list` reads back as `list`. */
  lemma ReadAllOfEncoding(list: seq<Entry>)
    ensures ReadEntries(EncodeAll(list), 0, |list|) == Some(list)
  {
    ReadEntriesRoundTrip([], list, []);
    assert [] + EncodeAll(list) + [] == EncodeAll(list);
  }

  // ---------------------------------------------------------------------
  // The mutable record
  // ---------------------------------------------------------------------

  class Training {
    var name: string
    var description: string
    var iconResId: int32

    /** The record's current value. */
    function Value(): Entry
      reads this
    {
      Entry(name, description, iconResId)
    }

    constructor (name: string, description: string, iconResId: int32)
      ensures GetName() == name && GetDescription() == description && GetIconResId() == iconResId
    {
      this.name := name;
      this.description := description;
      this.iconResId := iconResId;
    }

    function GetName(): string
      reads this
    {
      name
    }

    function GetDescription(): string
      reads this
    {
      description
    }

    function GetIconResId(): int32
      reads this
    {
      iconResId
    }

    method SetName(name: string)
      modifies this
      ensures Value() == old(Value()).(name := name)
    {
      this.name := name;
    }

    method SetDescription(description: string)
      modifies this
      ensures Value() == old(Value()).(description := description)
    {
      this.description := description;
    }

    method SetIconResId(iconResId: int32)
      modifies this
      ensures Value() == old(Value()).(iconResId := iconResId)
    {
      this.iconResId := iconResId;
    }

    /** No file descriptors are ever written. */
    function DescribeContents(): (r: int32)
      ensures r == 0
    {
      0
    }

    /** Appends name, description and icon id, in that order; `flags` is unused. */
    method WriteToParcel(dest: Parcel, flags: int32)
      modifies dest
      ensures dest.data == old(dest.data) + Encode(Value())
      ensures dest.position == old(dest.position)
    {
      dest.WriteString(name);
      dest.WriteString(description);
      dest.WriteInt(iconResId);
    }

    /**
     * `CREATOR.createFromParcel`, i.e. the Parcel constructor: reads name,
     * description and icon id in that order. `None` stands for a parcel that
     * does not hold a string, a string and an int at the cursor.
     */
    static method CreateFromParcel(source: Parcel) returns (r: Option<Training>)
      modifies source
      ensures source.data == old(source.data)
      ensures source.position == old(source.position) + FieldsReadable(old(source.data), old(source.position))
      ensures r.Some? <==> ReadEntry(old(source.data), old(source.position)).Some?
      ensures r.Some? ==> fresh(r.value) && Some(r.value.Value()) == ReadEntry(old(source.data), old(source.position))
    {
      var name := source.ReadString();
      if name.None? {
        return None;
      }
      var description := source.ReadString();
      if description.None? {
        return None;
      }
      var icon := source.ReadInt();
      if icon.None? {
        return None;
      }
      var t := new Training(name.value, description.value, icon.value);
      return Some(t);
    }
  }

  /**
   * `CREATOR.newArray(size)`: a fresh array of `size` empty slots; `None`
   * stands for the `NegativeArraySizeException` a negative size raises.
   */
  method NewArray(size: int32) returns (r: Option<array<Training?>>)
    ensures r.None? <==> size < 0
    ensures r.Some? ==> fresh(r.value) && r.value.Length == size as int
    ensures r.Some? ==> forall k :: 0 <= k < r.value.Length ==> r.value[k] == null
  {
    if size < 0 {
      return None;
    }
    var a := new Training?[size as int](_ => null);
    return Some(a);
  }

  /**
   * Writing a record into a parcel and creating a record from the parcel at
   * the position the write started gives an equal record and moves the
   * cursor by exactly three values.
   */
  method ParcelRoundTrip(t: Training, dest: Parcel) returns (copy: Option<Training>)
    modifies dest
    ensures copy.Some? && fresh(copy.value) && copy.value.Value() == t.Value()
    ensures dest.position == |old(dest.data)| + 3
  {
    var start := |dest.data|;
    t.WriteToParcel(dest, 0);
    dest.SetDataPosition(start);
    ReadEntryOfEncoding(old(dest.data), t.Value(), []);
    assert dest.data == old(dest.data) + Encode(t.Value()) + [];
    copy := Training.CreateFromParcel(dest);
  }
}
