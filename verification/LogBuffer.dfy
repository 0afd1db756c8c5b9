/** The log monitor's circular buffer: a byte array overwritten in place that always
    holds the latest bytes of everything written. */
module LogBuffer {

  type Byte = b: int | 0 <= b < 256

  /** The last `n` elements. */
  function Last(s: seq<Byte>, n: nat): seq<Byte>
    requires n <= |s|
  {
    s[|s| - n..]
  }

  function Min(a: nat, b: nat): nat { if a < b then a else b }

  /** The index `j` steps before `head` in a circle of `cap`. */
  function Back(cap: nat, head: nat, j: nat): nat
    requires head < cap && j <= cap
  {
    if j <= head then head - j else head + cap - j
  }

  lemma WrapOnce(x: nat, cap: nat)
    requires 0 < cap && x < 2 * cap
    ensures x % cap == if x < cap then x else x - cap
  {
    if x >= cap {
      assert x == cap + (x - cap);
    }
  }

  class CircularBuffer {
    const data: array<Byte>
    var head: nat
    var size: nat
    ghost var written: seq<Byte>

    /** The byte `j` steps before the head is the `j`-th last one written. */
    ghost predicate Valid()
      reads this, data
    {
      && size == Min(|written|, data.Length)
      && (data.Length == 0 ==> head == 0) && (data.Length > 0 ==> head < data.Length)
      && forall j :: 1 <= j <= size ==> data[Back(data.Length, head, j)] == written[|written| - j]
    }

    constructor (capacity: nat)
      ensures Valid() && fresh(data) && data.Length == capacity && written == []
    {
      data := new Byte[capacity];
      head, size, written := 0, 0, [];
    }

    /** Copies `p` over the array from `at` on. */
    method Overwrite(at: nat, p: seq<Byte>)
      requires at + |p| <= data.Length
      modifies data
      ensures forall i :: 0 <= i < data.Length ==> data[i] == if at <= i < at + |p| then p[i - at] else old(data[i])
    {
      for k := 0 to |p|
        invariant forall i :: 0 <= i < data.Length ==> data[i] == if at <= i < at + k then p[i - at] else old(data[i])
      {
        data[at + k] := p[k];
      }
    }

    method Write(p: seq<Byte>)
      requires Valid()
      modifies this, data
      ensures Valid() && written == old(written) + p
    {
      if |p| == 0 {
        assert written + p == written;
        return;
      }
      var cap := data.Length;
      ghost var was := written;
      if |p| >= cap {
        Overwrite(0, p[|p| - cap..]);
        head, size := 0, cap;
        written := written + p;
        return;
      }
      WriteShort(p);
      written := written + p;
      size := size + |p|;
      if size > cap {
        size := cap;
      }
      forall j | 1 <= j <= size
        ensures data[Back(cap, head, j)] == written[|written| - j]
      {
        if j > |p| {
          assert was[|was| - (j - |p|)] == written[|written| - j];
        }
      }
    }

    /** A write shorter than the array, in one piece or wrapped around its end. */
    method WriteShort(p: seq<Byte>)
      requires Valid() && 0 < |p| < data.Length
      modifies data, this`head
      ensures head < data.Length
      ensures forall j :: 1 <= j <= |p| ==> data[Back(data.Length, head, j)] == p[|p| - j]
      ensures forall j :: |p| < j <= data.Length && j - |p| <= size ==>
        data[Back(data.Length, head, j)] == written[|written| - (j - |p|)]
    {
      var cap := data.Length;
      var firstPart := cap - head;
      ghost var before, from := data[..], head;
      if firstPart >= |p| {
        Overwrite(head, p);
        WrapOnce(head + |p|, cap);
        head := (head + |p|) % cap;
      } else {
        Overwrite(head, p[..firstPart]);
        Overwrite(0, p[firstPart..]);
        head := |p| - firstPart;
      }
      forall j | |p| < j <= cap && j - |p| <= size
        ensures data[Back(cap, head, j)] == written[|written| - (j - |p|)]
      {
        assert Back(cap, head, j) == Back(cap, from, j - |p|);
        assert before[Back(cap, from, j - |p|)] == written[|written| - (j - |p|)];
      }
    }

    /** Where the oldest byte held is. */
    method Oldest() returns (start: nat)
      requires Valid() && size > 0
      ensures start == if head >= size then head - size else head - size + data.Length
    {
      var cap := data.Length;
      WrapOnce(head - size + cap, cap);
      start := (head - size + cap) % cap;
    }

    /** Exactly the last bytes written, as many as there are or fit. */
    method GetHistory() returns (history: seq<Byte>)
      requires Valid()
      ensures history == Last(written, Min(|written|, data.Length))
    {
      if size == 0 {
        return [];
      }
      var cap := data.Length;
      var start := Oldest();
      if start + size <= cap {
        history := data[start..start + size];
      } else {
        var firstPart := cap - start;
        history := data[start..] + data[..size - firstPart];
      }
      forall i | 0 <= i < size
        ensures history[i] == Last(written, size)[i]
      {
        assert Back(cap, head, size - i) == if start + i < cap then start + i else start + i - cap;
        assert data[Back(cap, head, size - i)] == written[|written| - (size - i)];
      }
    }
  }

  /** After any writes, of any lengths, the history is the end of their concatenation. */
  method WriteAll(buffer: CircularBuffer, chunks: seq<seq<Byte>>) returns (history: seq<Byte>)
    requires buffer.Valid()
    modifies buffer, buffer.data
    ensures buffer.Valid() && buffer.written == old(buffer.written) + Concat(chunks)
    ensures history == Last(buffer.written, Min(|buffer.written|, buffer.data.Length))
  {
    for i := 0 to |chunks|
      invariant buffer.Valid() && buffer.written == old(buffer.written) + Concat(chunks[..i])
    {
      assert chunks[..i + 1][..i] == chunks[..i];
      buffer.Write(chunks[i]);
    }
    assert chunks[..|chunks|] == chunks;
    history := buffer.GetHistory();
  }

  function Concat(chunks: seq<seq<Byte>>): seq<Byte>
  {
    if chunks == [] then [] else Concat(chunks[..|chunks| - 1]) + chunks[|chunks| - 1]
  }
}
