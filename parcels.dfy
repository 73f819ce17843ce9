/**
 * An Android `Parcel` as the training record uses it: a sequence of typed
 * values that writes append to, and a read cursor that reads advance.
 */
module Parcels {
  import opened Java

  datatype ParcelValue = StringValue(s: string) | IntValue(i: int32)

  /** The string at `pos`, if the value there is a string. */
  function StringAt(data: seq<ParcelValue>, pos: nat): Option<string> {
    if pos < |data| && data[pos].StringValue? then Some(data[pos].s) else None
  }

  /** The int at `pos`, if the value there is an int. */
  function IntAt(data: seq<ParcelValue>, pos: nat): Option<int32> {
    if pos < |data| && data[pos].IntValue? then Some(data[pos].i) else None
  }

  class Parcel {
    var data: seq<ParcelValue>
    var position: nat

    /** `Parcel.obtain()`: an empty parcel. */
    constructor ()
      ensures data == [] && position == 0
    {
      data, position := [], 0;
    }

    method WriteString(s: string)
      modifies this
      ensures data == old(data) + [StringValue(s)] && position == old(position)
    {
      data := data + [StringValue(s)];
    }

    method WriteInt(i: int32)
      modifies this
      ensures data == old(data) + [IntValue(i)] && position == old(position)
    {
      data := data + [IntValue(i)];
    }

    /** Moves the read cursor, as before reading back what was written. */
    method SetDataPosition(pos: nat)
      modifies this
      ensures data == old(data) && position == pos
    {
      position := pos;
    }

    /** Reads a string at the cursor; a read that finds none fails and does not move. */
    method ReadString() returns (r: Option<string>)
      modifies this
      ensures data == old(data)
      ensures r == StringAt(data, old(position))
      ensures position == if r.Some? then old(position) + 1 else old(position)
    {
      r := StringAt(data, position);
      if r.Some? {
        position := position + 1;
      }
    }

    /** Reads an int at the cursor; a read that finds none fails and does not move. */
    method ReadInt() returns (r: Option<int32>)
      modifies this
      ensures data == old(data)
      ensures r == IntAt(data, old(position))
      ensures position == if r.Some? then old(position) + 1 else old(position)
    {
      r := IntAt(data, position);
      if r.Some? {
        position := position + 1;
      }
    }
  }
}
