/** What the address space looks like to a user program after uvmalloc, uvmdealloc and uvmcopy: which
    addresses it can use, how, and what it finds there. */
module UserView {
  import opened PageTable
  import opened Vm
  import opened UserMemory
  import opened CopyUser

  // Valid, and open to reading, writing and running by the user: the five low bits of an entry.
  predicate AllowsAll(e: nat) {
    e % 2 == 1 && e / 2 % 2 == 1 && e / 4 % 2 == 1 && e / 8 % 2 == 1 && e / 16 % 2 == 1
  }

  lemma AddedPage(s: Sys, t: Sys, r: nat, first: nat, pages: seq<Page>, flags: seq<nat>, v: nat)
    requires Extended(s, t, r, first, pages, flags) && Ok(t, {}) && first <= v < first + |pages|
    requires flags[v - first] < 1024
    ensures var e := Pte(t, r, v);
            && Flags(e) == WithV(flags[v - first]) && V(e) && 0 < t.lo <= Ppn(e) < t.hi && Ppn(e) < |t.mem|
            && t.mem[Ppn(e)] == pages[v - first]
  {
    hide Ok, Pte, Make, Ppn, Flags, V, WithV;
    var e := Pte(t, r, v);
    assert ExtendedPte(s, t, r, first, pages, flags, r, v);
    WithVIs(flags[v - first]);
    MakeIs(Ppn(e), WithV(flags[v - first]));
    DataInRange(t, Ppn(e));
    assert ExtendedDatum(s, t, r, first, pages, Ppn(e));
  }

  lemma DataInRange(t: Sys, p: nat)
    requires Ok(t, {}) && IsData(t, p)
    ensures 0 < t.lo <= p < t.hi <= |t.mem|
  {
    RolesOf(t);
    hide Ok;
  }

  /** After uvmalloc has succeeded the user can reach every page it has added, and read, write and
      run what is there. */
  lemma GrownReached(s: Sys, t: Sys, r: nat, first: nat, last: nat, v: nat)
    requires Grown(s, t, r, first, last) && Ok(t, {}) && first <= v < last
    ensures Reached(t, r, v) && AllowsAll(Pte(t, r, v))
  {
    hide Extended, Ok, Pte, AllowsAll, Flags;
    AddedPage(s, t, r, first, seq(last - first, _ => Zeros()), seq(last - first, _ => USER), v);
    UserBits(Pte(t, r, v));
  }

  lemma UserBits(e: nat)
    requires Flags(e) == WithV(USER)
    ensures AllowsAll(e) && U(e)
  {
    var q := e / 1024;
    Halves(e);
    Odd(e, 512 * q + 15);
    Odd(e / 2, 256 * q + 7);
    Odd(e / 4, 128 * q + 3);
    Odd(e / 8, 64 * q + 1);
    Odd(e / 16, 32 * q);
  }

  lemma Odd(x: nat, y: nat)
    requires x == 2 * y + 1
    ensures x % 2 == 1 && x / 2 == y
  {
  }

  lemma Halves(e: nat)
    ensures e / 4 == e / 2 / 2 && e / 8 == e / 4 / 2 && e / 16 == e / 8 / 2
  {
  }

  // All addresses of the pages from first up to last can be used.
  lemma GrownAllReached(s: Sys, t: Sys, r: nat, first: nat, last: nat, va: nat, n: nat)
    requires Grown(s, t, r, first, last) && Ok(t, {}) && first * PGSIZE <= va && va + n <= last * PGSIZE
    ensures AllReached(t, r, va, n)
  {
    hide Extended, Ok, Reached;
    forall a: nat | va <= a < va + n ensures ReachedAt(t, r, a) {
      assert first <= a / PGSIZE < last;
      GrownReached(s, t, r, first, last, a / PGSIZE);
    }
  }

  /** copyout to memory that uvmalloc has added goes through to the end: the result of copyout, as its
      contract gives it, is true. */
  lemma GrownTakesAll(s: Sys, t: Sys, r: nat, first: nat, last: nat, va: nat, len: nat, n: nat, ok: bool)
    requires Grown(s, t, r, first, last) && Ok(t, {}) && first * PGSIZE <= va && va + len <= last * PGSIZE
    requires n <= len && (ok <==> n == len) && (!ok ==> !ReachedAt(t, r, va + n))
    ensures ok
  {
    hide Extended, Ok, Reached, ReachedAt;
    if n < len {
      GrownAllReached(s, t, r, first, last, va, len);
    }
  }

  // ---- what is there ----

  lemma {:induction false} ZeroDigit(k: nat)
    ensures Digit(0, k) == 0
  {
    if k > 0 { ZeroDigit(k - 1); }
  }

  lemma OldByte(s: Sys, t: Sys, a: nat, va: nat)
    requires Ok(s, {}) && UsersOwn(s) && Pte(t, a, va / PGSIZE) == Pte(s, a, va / PGSIZE)
    requires forall q: nat :: IsData(s, q) && s.role[q].o == Mapped(a, va / PGSIZE) ==> SameDatum(s, t, q)
    ensures UserByte(t, a, va) == UserByte(s, a, va)
  {
    hide Ok, Pte, UsersOwn, ByteAt;
    if Reached(s, a, va / PGSIZE) {
      OwnerOf(s, a, va / PGSIZE);
      assert SameDatum(s, t, Ppn(Pte(s, a, va / PGSIZE)));
    }
  }

  /** After pages have been added, every other address of every address space holds what it held. */
  lemma ExtendedOthers(s: Sys, t: Sys, r: nat, first: nat, pages: seq<Page>, flags: seq<nat>, a: nat, va: nat)
    requires Ok(s, {}) && UsersOwn(s) && Extended(s, t, r, first, pages, flags)
    requires a != r || va / PGSIZE < first || va / PGSIZE >= first + |pages|
    ensures UserByte(t, a, va) == UserByte(s, a, va)
  {
    hide Ok, Pte, UsersOwn, UserByte;
    assert ExtendedPte(s, t, r, first, pages, flags, a, va / PGSIZE);
    forall q: nat | IsData(s, q) ensures SameDatum(s, t, q) {
      assert ExtendedDatum(s, t, r, first, pages, q);
    }
    OldByte(s, t, a, va);
  }

  /** What uvmalloc has added reads as zeros, and everything else as before. */
  lemma GrownBytes(s: Sys, t: Sys, r: nat, first: nat, last: nat, a: nat, va: nat)
    requires Ok(s, {}) && UsersOwn(s) && Grown(s, t, r, first, last) && Ok(t, {})
    ensures UserByte(t, a, va) == if a == r && first <= va / PGSIZE < last then 0 else UserByte(s, a, va)
  {
    hide Ok, Pte, UsersOwn, Extended, Reached;
    if a == r && first <= va / PGSIZE < last {
      GrownReached(s, t, r, first, last, va / PGSIZE);
      AddedPage(s, t, r, first, seq(last - first, _ => Zeros()), seq(last - first, _ => USER), va / PGSIZE);
      ZeroDigit(va % PGSIZE % 8);
    } else {
      ExtendedOthers(s, t, r, first, seq(last - first, _ => Zeros()), seq(last - first, _ => USER), a, va);
    }
  }

  lemma GrownOwn(s: Sys, t: Sys, r: nat, first: nat, pages: seq<Page>, flags: seq<nat>)
    requires UsersOwn(s) && Extended(s, t, r, first, pages, flags) && Ok(t, {})
    requires forall i: nat :: i < |flags| ==> flags[i] < 1024
    ensures UsersOwn(t)
  {
    hide Ok, Pte;
    forall a: nat, b: nat | Reached(t, a, b) ensures t.lo <= Ppn(Pte(t, a, b)) < t.hi {
      assert ExtendedPte(s, t, r, first, pages, flags, a, b);
      if a == r && first <= b < first + |pages| { AddedPage(s, t, r, first, pages, flags, b); }
      else { assert Reached(s, a, b); }
    }
  }

  lemma FlagBits(e: nat, f: nat)
    requires Flags(e) == Flags(f)
    ensures V(e) == V(f) && U(e) == U(f)
  {
    BitFour(e / 1024, e % 1024);
    BitFour(f / 1024, f % 1024);
  }

  lemma BitFour(q: nat, f: nat)
    ensures U(q * 1024 + f) == U(f) && V(q * 1024 + f) == V(f)
  {
    assert q * 1024 + f == 16 * (64 * q) + f;
    assert (q * 1024 + f) / 16 == 64 * q + f / 16;
  }

  lemma FlagsKnown(e: nat)
    requires V(e)
    ensures Flags(e) < 1024 && WithV(Flags(e)) == Flags(e)
  {
  }

  /** fork's child sees what the parent sees: each address below the copied size is usable by the
      child exactly if it is by the parent, with the same permissions, and holds the same byte. */
  lemma ChildSees(s: Sys, t: Sys, parent: nat, child: nat, pages: seq<Page>, flags: seq<nat>, va: nat)
    requires Ok(s, {}) && UsersOwn(s) && Ok(t, {}) && Parental(s, parent, |pages|, pages, flags)
    requires Extended(s, t, child, 0, pages, flags) && va / PGSIZE < |pages| && UserPage(s, parent, va / PGSIZE)
    ensures var v := va / PGSIZE;
            && (Reached(t, child, v) <==> Reached(s, parent, v))
            && Flags(Pte(t, child, v)) == Flags(Pte(s, parent, v))
            && UserByte(t, child, va) == UserByte(s, parent, va)
  {
    hide Ok, Pte, UsersOwn, Extended, ByteAt;
    var v := va / PGSIZE;
    assert ParentPage(s, parent, v, pages, flags);
    FlagsKnown(Pte(s, parent, v));
    AddedPage(s, t, child, 0, pages, flags, v);
    FlagBits(Pte(t, child, v), Pte(s, parent, v));
    DataInRange(s, Ppn(Pte(s, parent, v)));
    if Reached(s, parent, v) { OwnerOf(s, parent, v); }
  }

  /** After pages have been unmapped nothing can be used there, and every other address of every
      address space holds what it held. */
  lemma ShrunkBytes(s: Sys, t: Sys, r: nat, first: nat, done: nat, doFree: bool, a: nat, va: nat)
    requires Ok(s, {}) && UsersOwn(s) && UnmappedFrom(s, t, r, first, done, doFree)
    ensures var gone := a == r && first <= va / PGSIZE < first + done;
            UserByte(t, a, va) == (if gone then -1 else UserByte(s, a, va)) && (gone ==> !Reached(t, a, va / PGSIZE))
  {
    hide Ok, Pte, UsersOwn, ByteAt, V;
    ZeroIsInvalid();
    assert UnmappedPte(s, t, r, first, done, a, va / PGSIZE);
    if a != r || va / PGSIZE < first || va / PGSIZE >= first + done {
      forall q: nat | IsData(s, q) && s.role[q].o == Mapped(a, va / PGSIZE) ensures SameDatum(s, t, q) {
        assert UnmappedDatum(s, t, r, first, done, doFree, q);
        MappedData(s, q);
      }
      OldByte(s, t, a, va);
    }
  }

  lemma MappedData(s: Sys, q: nat)
    requires Ok(s, {}) && IsData(s, q)
    ensures q < |s.mem|
  {
    DataInRange(s, q);
    hide Ok;
  }
}
