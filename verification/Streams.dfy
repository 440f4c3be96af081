/**
  The growable buffer `stream_t` (mproxy/src/stream.c).
 */
module Streams {

  const DEFAULT_STREAM_LEN := 512

  class Stream<T(0)> {
    /** The allocated block; its length is the field `cap` of the C structure. */
    var data: array<T>
    /** How many leading elements of `data` are in use. */
    var len: nat

    ghost predicate Valid()
      reads this
    {
      len <= data.Length
    }

    /** The elements in use. */
    ghost function Live(): seq<T>
      requires Valid()
      reads this, data
    {
      data[..len]
    }

    /** `stream_new` */
    constructor (size: nat)
      ensures Valid() && fresh(data)
      ensures data.Length == size && len == 0 && Live() == []
    {
      data := new T[size];
      len := 0;
    }

    /** `stream_expand`: `realloc` moves the block and keeps its contents. */
    method Expand(size: nat)
      requires Valid()
      modifies this`data
      ensures Valid() && fresh(data)
      ensures data.Length == old(data.Length) + size
      ensures Live() == old(Live())
    {
      var block := new T[data.Length + size];
      var from := data;
      for i := 0 to from.Length
        invariant data == from && from[..] == old(data[..])
        invariant forall k :: 0 <= k < i ==> block[k] == from[k]
      {
        block[i] := from[i];
      }
      data := block;
    }

    /** The copy of `items` behind the elements in use, for which there is room. */
    method Fill(items: seq<T>)
      requires Valid() && len + |items| <= data.Length
      modifies this`len, data
      ensures Valid() && data == old(data)
      ensures Live() == old(Live()) + items
    {
      for i := 0 to |items|
        invariant data == old(data) && len == old(len)
        invariant forall k :: 0 <= k < len ==> data[k] == old(data[k])
        invariant forall k :: 0 <= k < i ==> data[len + k] == items[k]
      {
        data[len + i] := items[i];
      }
      len := len + |items|;
    }

    /** `stream_append` */
    method Append(items: seq<T>)
      requires Valid()
      modifies this, data
      ensures Valid() && (data == old(data) || fresh(data))
      ensures data.Length == old(data.Length) + if old(len) + |items| > old(data.Length) then |items| else 0
      ensures Live() == old(Live()) + items
    {
      if len + |items| > data.Length {
        Expand(|items|);
      }
      Fill(items);
    }

    /** `stream_left_shift`: the source of the copy overlaps its target, which lies below it. */
    method LeftShift(size: nat)
      requires Valid() && size <= len
      modifies this`len, data
      ensures Valid() && data == old(data)
      ensures Live() == old(Live())[size..]
    {
      for i := 0 to len - size
        invariant data == old(data) && len == old(len)
        invariant forall k :: 0 <= k < i ==> data[k] == old(data[k + size])
        invariant forall k :: i <= k < data.Length ==> data[k] == old(data[k])
      {
        data[i] := data[i + size];
      }
      len := len - size;
    }
  }
}
