/** pipe.c's buffer: a ring of PIPESIZE bytes under two 32-bit counters that wrap around. */
module Pipe {

  const PIPESIZE := 512
  const WRAP := 0x1_0000_0000          // uint arithmetic

  datatype Ring = Ring(data: seq<char>, nread: nat, nwrite: nat)

  // nwrite - nread, as uint.
  function Count(r: Ring): (n: nat)
    ensures n < WRAP
  {
    (r.nwrite - r.nread) % WRAP
  }

  predicate Good(r: Ring) {
    |r.data| == PIPESIZE && r.nread < WRAP && r.nwrite < WRAP && Count(r) <= PIPESIZE
  }

  predicate Empty(r: Ring) {
    r.nread == r.nwrite
  }

  predicate Full(r: Ring) {
    r.nwrite == (r.nread + PIPESIZE) % WRAP
  }

  // The bytes in the pipe, oldest first.
  function Queue(r: Ring): (q: seq<char>)
    requires Good(r)
    ensures |q| == Count(r)
  {
    seq(Count(r), (k: nat) requires Good(r) => r.data[(r.nread + k) % WRAP % PIPESIZE])
  }

  function Store(r: Ring, ch: char): Ring
    requires |r.data| == PIPESIZE
  {
    Ring(r.data[r.nwrite % PIPESIZE := ch], r.nread, (r.nwrite + 1) % WRAP)
  }

  function Front(r: Ring): char
    requires |r.data| == PIPESIZE
  {
    r.data[r.nread % PIPESIZE]
  }

  function Take(r: Ring): Ring {
    r.(nread := (r.nread + 1) % WRAP)
  }

  // PIPESIZE divides WRAP, so a wrapped counter still selects the right cell.
  lemma Cell(n: nat)
    ensures n % WRAP % PIPESIZE == n % PIPESIZE
  {
    assert n == (n / WRAP) * WRAP + n % WRAP;
    assert n == PIPESIZE * ((n / WRAP) * 0x80_0000) + n % WRAP;
    Shift(n % WRAP, (n / WRAP) * 0x80_0000);
  }

  lemma Shift(a: nat, k: nat)
    ensures (a + PIPESIZE * k) % PIPESIZE == a % PIPESIZE
  {
  }

  lemma Apart(a: nat, i: nat, j: nat)
    requires i < j < i + PIPESIZE
    ensures (a + i) % PIPESIZE != (a + j) % PIPESIZE
  {
  }

  /** The pipe is empty, or full, exactly when its queue is. */
  lemma Extremes(r: Ring)
    requires Good(r)
    ensures Empty(r) <==> Queue(r) == []
    ensures Full(r) <==> |Queue(r)| == PIPESIZE
  {
  }

  lemma QueueAt(r: Ring, k: nat)
    requires Good(r) && k < Count(r)
    ensures Queue(r)[k] == r.data[(r.nread + k) % PIPESIZE]
  {
    Cell(r.nread + k);
  }

  lemma WriteCell(r: Ring)
    requires Good(r)
    ensures r.nwrite % PIPESIZE == (r.nread + Count(r)) % PIPESIZE
  {
    assert r.nwrite == (r.nread + Count(r)) % WRAP;
    Cell(r.nread + Count(r));
  }

  lemma StoreGood(r: Ring, ch: char)
    requires Good(r) && !Full(r)
    ensures Good(Store(r, ch)) && Count(Store(r, ch)) == Count(r) + 1
  {
  }

  lemma StoreAppends(r: Ring, ch: char)
    requires Good(r) && !Full(r)
    ensures Good(Store(r, ch)) && Queue(Store(r, ch)) == Queue(r) + [ch]
  {
    hide Queue;
    StoreGood(r, ch);
    var u, n := Store(r, ch), Count(r);
    forall k: nat | k <= n ensures Queue(u)[k] == (Queue(r) + [ch])[k] { StoreAt(r, ch, k); }
  }

  lemma StoreAt(r: Ring, ch: char, k: nat)
    requires Good(r) && !Full(r) && k <= Count(r)
    ensures Good(Store(r, ch)) && Count(Store(r, ch)) == Count(r) + 1
    ensures Queue(Store(r, ch))[k] == if k < Count(r) then Queue(r)[k] else ch
  {
    hide Queue;
    StoreGood(r, ch);
    QueueAt(Store(r, ch), k);
    WriteCell(r);
    if k < Count(r) { QueueAt(r, k); Apart(r.nread, k, Count(r)); }
  }

  lemma TakeGood(r: Ring)
    requires Good(r) && !Empty(r)
    ensures Good(Take(r)) && Count(r) > 0 && Count(Take(r)) == Count(r) - 1
  {
  }

  lemma TakeRemoves(r: Ring)
    requires Good(r) && !Empty(r)
    ensures Queue(r) != [] && Front(r) == Queue(r)[0] && Good(Take(r)) && Queue(Take(r)) == Queue(r)[1..]
  {
    hide Queue;
    TakeGood(r);
    QueueAt(r, 0);
    forall k: nat | k < Count(r) - 1 ensures Queue(Take(r))[k] == Queue(r)[1..][k] { TakeAt(r, k); }
  }

  lemma TakeAt(r: Ring, k: nat)
    requires Good(r) && !Empty(r) && k + 1 < Count(r)
    ensures Good(Take(r)) && k < Count(Take(r)) && Queue(Take(r))[k] == Queue(r)[k + 1]
  {
    TakeGood(r);
    QueueAt(r, k + 1);
    QueueAt(Take(r), k);
    NextCell(r.nread, k);
    hide Queue, Good;
  }

  lemma NextCell(n: nat, k: nat)
    requires n < WRAP
    ensures ((n + 1) % WRAP + k) % PIPESIZE == (n + (k + 1)) % PIPESIZE
  {
    if n + 1 == WRAP { Shift(k, WRAP / PIPESIZE); }
  }

  /** pi as the kernel holds it: the array is changed in place, one byte at a time. */
  class Buffer {
    var data: array<char>
    var nread: nat
    var nwrite: nat
    var readopen: bool
    var writeopen: bool

    ghost function Value(): Ring
      reads this, data
    {
      Ring(data[..], nread, nwrite)
    }

    ghost predicate Valid()
      reads this, data
    {
      Good(Value())
    }

    constructor (d: array<char>)
      requires d.Length == PIPESIZE
      ensures Valid() && data == d && Queue(Value()) == [] && readopen && writeopen
    {
      data, nread, nwrite, readopen, writeopen := d, 0, 0, true, true;
    }

    /** pipewrite's loop from one sleep to the next: it stores from src[i] on until everything is
        stored, copyin fails at bad, or the pipe is full and the writer has to sleep; broken is the
        return of -1. */
    method WriteSome(src: seq<char>, i: nat, killed: bool, bad: nat) returns (j: nat, broken: bool)
      requires Valid() && i <= |src|
      modifies this`nwrite, data
      ensures Valid() && i <= j <= |src|
      ensures broken <==> i < |src| && (!readopen || killed)
      ensures broken ==> j == i
      ensures Queue(Value()) == old(Queue(Value())) + src[i..j]
      ensures !broken ==> j == |src| || j == bad || |Queue(Value())| == PIPESIZE
    {
      hide Queue;
      j, broken := i, false;
      while j < |src|
        invariant Valid() && i <= j <= |src|
        invariant Queue(Value()) == old(Queue(Value())) + src[i..j]
        invariant j > i ==> readopen && !killed
      {
        if !readopen || killed {
          broken := true;
          return;
        }
        Extremes(Value());
        if nwrite == (nread + PIPESIZE) % WRAP || j == bad {
          break;
        }
        StoreAppends(Value(), src[j]);
        ghost var was := Value();
        data[nwrite % PIPESIZE] := src[j];
        nwrite := (nwrite + 1) % WRAP;
        assert Value() == Store(was, src[j]);
        j := j + 1;
        assert src[i..j] == src[i..j - 1] + [src[j - 1]];
      }
      if i == |src| { assert src[i..j] == []; }
    }

    /** piperead's copy loop, for up to n bytes; at bad copyout fails, and that byte is lost. */
    method ReadSome(n: nat, bad: nat) returns (got: seq<char>)
      requires Valid()
      modifies this`nread
      ensures Valid()
      ensures var q := old(Queue(Value()));
              var m := if |q| < n then |q| else n;
              if bad < m then got == q[..bad] && Queue(Value()) == q[bad + 1..]
              else got == q[..m] && Queue(Value()) == q[m..]
    {
      hide Queue;
      ghost var q := Queue(Value());
      got := [];
      var i := 0;
      while i < n
        invariant 0 <= i <= n && i <= |q| && i <= bad
        invariant Valid() && data == old(data) && data[..] == old(data[..]) && nwrite == old(nwrite)
        invariant got == q[..i] && Queue(Value()) == q[i..]
      {
        Extremes(Value());
        if nread == nwrite {
          break;
        }
        TakeRemoves(Value());
        var ch := data[nread % PIPESIZE];
        ghost var was := Value();
        nread := (nread + 1) % WRAP;
        assert Value() == Take(was);
        if i == bad {
          break;
        }
        got := got + [ch];
        i := i + 1;
      }
    }
  }
}
