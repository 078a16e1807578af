/** The growable queue between stages (soxr-sys/src/fifo.h).  The buffer is an array of cells;
    an item takes itemSize neighbouring cells, all offsets count cells. */
module Fifos {
  import opened Arith
  import opened Options

  const FIFO_MIN: nat := 0x4000

  class Fifo<T(0)> {
    var data: array<T>
    var allocation: nat
    const itemSize: nat
    var begin: nat
    var end: nat

    ghost predicate Valid()
      reads this
    {
      && 0 < itemSize
      && begin <= end <= allocation == data.Length
      && begin % itemSize == 0
      && end % itemSize == 0
    }

    /** The cells waiting to be read, oldest first. */
    ghost function Contents(): (s: seq<T>)
      reads this, data
      requires Valid()
    {
      data[begin..end]
    }

    constructor (itemSize: nat)
      requires 0 < itemSize
      ensures Valid() && fresh(data) && this.itemSize == itemSize
      ensures Contents() == []
    {
      this.itemSize := itemSize;
      allocation := FIFO_MIN;
      begin, end := 0, 0;
      data := new T[FIFO_MIN];
    }

    method Clear()
      requires Valid()
      modifies this`begin, this`end
      ensures Valid() && Contents() == []
    {
      begin, end := 0, 0;
    }

    /** Makes room for n0 items and returns where they start; their cells hold anything. */
    method Reserve(n0: nat) returns (p: nat)
      requires Valid()
      modifies this, data
      ensures Valid() && (data == old(data) || fresh(data))
      ensures p == end - n0 * itemSize && begin <= p
      ensures data[begin..p] == old(Contents())
    {
      ghost var was := Contents();
      var n := n0 * itemSize;
      if begin == end {
        Clear();
      }
      assert Contents() == was;
      while !(end + n <= allocation)
        invariant Valid() && (data == old(data) || fresh(data))
        invariant Contents() == was
        decreases if end + n <= allocation then 0 else 1, begin
      {
        if begin > FIFO_MIN {
          MoveDown();
        } else {
          Grow(n);
        }
      }
      p := end;
      AlignedSum(end, n0, itemSize);
      end := end + n;
    }

    /** Lines 57-59: the waiting cells move to the start of the buffer. */
    method MoveDown()
      requires Valid() && 0 < begin
      modifies this`begin, this`end, data
      ensures Valid() && begin == 0
      ensures Contents() == old(Contents())
    {
      var n := end - begin;
      MultipleApart(itemSize, end, begin);
      forall i | 0 <= i < n {
        data[i] := data[begin + i];
      }
      begin, end := 0, n;
    }

    /** Lines 62-63: a larger buffer with the same start. */
    method Grow(n: nat)
      requires Valid()
      modifies this`data, this`allocation
      ensures Valid() && fresh(data) && allocation == old(allocation) + n
      ensures Contents() == old(Contents())
    {
      var bigger := new T[allocation + n];
      forall i | 0 <= i < allocation {
        bigger[i] := data[i];
      }
      data := bigger;
      allocation := allocation + n;
    }

    /** Appends n0 items taken from src, or leaves room for them if there is no src. */
    method Write(n0: nat, src: array?<T>) returns (p: nat)
      requires Valid()
      requires src != null ==> n0 * itemSize <= src.Length && src != data
      modifies this, data
      ensures Valid() && (data == old(data) || fresh(data))
      ensures p == end - n0 * itemSize && begin <= p
      ensures data[begin..p] == old(Contents())
      ensures src != null ==> Contents() == old(Contents()) + src[..n0 * itemSize]
    {
      p := Reserve(n0);
      if src != null {
        forall i | 0 <= i < n0 * itemSize {
          data[p + i] := src[i];
        }
        assert Contents() == data[begin..p] + data[p..end];
        assert data[p..end] == src[..n0 * itemSize];
      }
    }

    /** Keeps the n0 oldest items. */
    method TrimTo(n0: nat)
      requires Valid() && n0 * itemSize <= |Contents()|
      modifies this`end
      ensures Valid() && Contents() == old(Contents())[..n0 * itemSize]
    {
      AlignedSum(begin, n0, itemSize);
      end := begin + n0 * itemSize;
    }

    /** Drops the n0 newest items. */
    method TrimBy(n0: nat)
      requires Valid() && n0 * itemSize <= |Contents()|
      modifies this`end
      ensures Valid() && Contents() == old(Contents())[..|old(Contents())| - n0 * itemSize]
    {
      AlignedSum(0, n0, itemSize);
      MultipleApart(itemSize, end, n0 * itemSize);
      end := end - n0 * itemSize;
    }

    /** The number of items waiting. */
    function Occupancy(): (n: nat)
      requires Valid()
      reads this, data
      ensures n * itemSize == |Contents()|
    {
      MultipleApart(itemSize, end, begin);
      WholeItems(end - begin, itemSize);
      (end - begin) / itemSize
    }

    /** Takes n0 items from the front, copying them to dst if there is one; does nothing if fewer
        are waiting. */
    method Read(n0: nat, dst: array?<T>) returns (p: Option<nat>)
      requires Valid()
      requires dst != null ==> n0 * itemSize <= dst.Length && dst != data
      modifies this`begin, dst
      ensures Valid()
      ensures n0 * itemSize > old(|Contents()|) ==> p == None && Contents() == old(Contents())
      ensures n0 * itemSize <= old(|Contents()|) ==>
                p == Some(old(begin)) && Contents() == old(Contents())[n0 * itemSize..]
      ensures dst != null && p.Some? ==> dst[..n0 * itemSize] == old(Contents())[..n0 * itemSize]
      ensures dst != null && p.None? ==> dst[..] == old(dst[..])
    {
      var n := n0 * itemSize;
      if n > end - begin {
        return None;
      }
      if dst != null {
        CopyOut(n, dst);
      }
      p := Some(begin);
      AlignedSum(begin, n0, itemSize);
      begin := begin + n;
      assert data[begin..end] == data[begin - n..end][n..];
    }

    method CopyOut(n: nat, dst: array<T>)
      requires Valid() && n <= |Contents()| && n <= dst.Length && dst != data
      modifies dst
      ensures dst[..n] == Contents()[..n] && Contents() == old(Contents())
    {
      forall i | 0 <= i < n {
        dst[i] := data[begin + i];
      }
    }
  }

  /** Where a piece of y written behind the cells b..p ends up. */
  lemma SplitCells(d: seq<real>, b: nat, p: nat, i: nat, room: nat, y: seq<real>)
    requires b <= p && i <= room && p + room <= |d| && d[p..p + i] == y
    ensures d[b..p + room][..p - b + i] == d[b..p] + y
  {
  }

  lemma WholeItems(c: nat, b: nat)
    requires 0 < b && c % b == 0
    ensures c == c / b * b
  {
  }

  lemma AlignedSum(a: nat, k: nat, b: nat)
    requires 0 < b && a % b == 0
    ensures (a + k * b) % b == 0 && k * b % b == 0
  {
    MulDistrib(b, a / b, k);
    DigitsDivMod(b, 0, a / b + k);
    DigitsDivMod(b, 0, k);
  }

}
