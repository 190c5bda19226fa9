/** vm.c's copyout and copyin: bytes between the kernel and a user address space. */
module CopyUser {
  import opened Basics
  import opened Memlib
  import opened PageTable
  import opened Vm

  // ---- the bytes of a word, and of a page ----

  // Byte k of a little-endian word.
  function Digit(w: nat, k: nat): byte {
    if k == 0 then w % 256 else Digit(w / 256, k - 1)
  }

  function PutDigit(w: nat, k: nat, b: byte): nat {
    if k == 0 then w / 256 * 256 + b else PutDigit(w / 256, k - 1, b) * 256 + w % 256
  }

  lemma {:induction false} DigitPut(w: nat, k: nat, b: byte, j: nat)
    ensures Digit(PutDigit(w, k, b), j) == if j == k then b else Digit(w, j)
    decreases k
  {
    if k > 0 {
      if j > 0 { DigitPut(w / 256, k - 1, b, j - 1); }
      assert PutDigit(w, k, b) / 256 == PutDigit(w / 256, k - 1, b);
    } else {
      assert PutDigit(w, k, b) / 256 == w / 256;
    }
  }

  function ByteAt(x: Page, o: nat): byte
    requires o < PGSIZE
  {
    Digit(x[o / 8], o % 8)
  }

  function PutByte(x: Page, o: nat, b: byte): Page
    requires o < PGSIZE
  {
    x[o / 8 := PutDigit(x[o / 8], o % 8, b)]
  }

  lemma BytePut(x: Page, o: nat, b: byte, j: nat)
    requires o < PGSIZE && j < PGSIZE
    ensures ByteAt(PutByte(x, o, b), j) == if j == o then b else ByteAt(x, j)
  {
    DigitPut(x[o / 8], o % 8, b, j % 8);
  }

  /** memmove of data into a page, from offset o on. */
  function Moved(x: Page, o: nat, data: seq<byte>): Page
    requires o + |data| <= PGSIZE
    decreases |data|
  {
    if data == [] then x else PutByte(Moved(x, o, data[..|data| - 1]), o + |data| - 1, data[|data| - 1])
  }

  lemma {:induction false} MovedAt(x: Page, o: nat, data: seq<byte>, j: nat)
    requires o + |data| <= PGSIZE && j < PGSIZE
    ensures ByteAt(Moved(x, o, data), j) == if o <= j < o + |data| then data[j - o] else ByteAt(x, j)
    decreases |data|
  {
    if data != [] {
      var init := data[..|data| - 1];
      MovedAt(x, o, init, j);
      BytePut(Moved(x, o, init), o + |data| - 1, data[|data| - 1], j);
    }
  }

  /** memmove out of a page. */
  function Window(x: Page, o: nat, n: nat): (d: seq<byte>)
    requires o + n <= PGSIZE
    ensures |d| == n && forall i :: 0 <= i < n ==> d[i] == ByteAt(x, o + i)
  {
    seq<byte>(n, i requires 0 <= i < n => ByteAt(x, o + i))
  }

  // ---- user memory ----

  /** What walkaddr accepts. */
  ghost predicate Reached(s: Sys, r: nat, v: nat) {
    v < MAXVPN && V(Pte(s, r, v)) && U(Pte(s, r, v)) && Ppn(Pte(s, r, v)) != 0
  }

  /** The kernel gives users only pages of its allocator. */
  ghost predicate UsersOwn(s: Sys) {
    forall r: nat, v: nat :: Reached(s, r, v) ==> s.lo <= Ppn(Pte(s, r, v)) < s.hi
  }

  /** The byte at user address va of tree r, if there is one. */
  ghost function UserByte(s: Sys, r: nat, va: nat): int {
    if Reached(s, r, va / PGSIZE) && Ppn(Pte(s, r, va / PGSIZE)) < |s.mem|
    then ByteAt(s.mem[Ppn(Pte(s, r, va / PGSIZE))], va % PGSIZE) else -1
  }

  ghost predicate CopiedByte(s: Sys, t: Sys, r: nat, dst: nat, src: seq<byte>, n: nat, a: nat, va: nat)
    requires n <= |src|
  {
    UserByte(t, a, va) == if a == r && dst <= va < dst + n then src[va - dst] else UserByte(s, a, va)
  }

  /** t is s with the first n bytes of src at user address dst of tree r; every other byte of every
      address space is the same, and so are all mappings. */
  ghost predicate CopiedTo(s: Sys, t: Sys, r: nat, dst: nat, src: seq<byte>, n: nat) {
    && n <= |src| && SamePtes(s, t) && t.lo == s.lo && t.hi == s.hi && t.at == s.at && t.free == s.free
        && t.role == s.role
    && forall a: nat, va: nat :: CopiedByte(s, t, r, dst, src, n, a, va)
  }

  // All pages of the n bytes from va on can be reached.
  ghost predicate AllReached(s: Sys, r: nat, va: nat, n: nat) {
    forall a: nat :: va <= a < va + n ==> ReachedAt(s, r, a)
  }

  ghost predicate ReachedAt(s: Sys, r: nat, a: nat) {
    Reached(s, r, a / PGSIZE)
  }

  /** A page that a user can reach has one address, in one tree. */
  lemma OnePlace(s: Sys, r: nat, v: nat, a: nat, b: nat)
    requires Ok(s, {}) && UsersOwn(s) && Reached(s, r, v) && Reached(s, a, b)
    requires Ppn(Pte(s, r, v)) == Ppn(Pte(s, a, b))
    ensures a == r && b == v
  {
    OwnerOf(s, r, v);
    OwnerOf(s, a, b);
  }

  lemma OwnerOf(s: Sys, r: nat, v: nat)
    requires Ok(s, {}) && UsersOwn(s) && Reached(s, r, v)
    ensures var q := Ppn(Pte(s, r, v)); q < |s.mem| && q in s.role && s.role[q] == Data(Mapped(r, v))
  {
    hide Down, Up, FreeList, Owning;
    RolesOf(s);
    InRange(s, {}, Low(r, v));
    KnownLeaf(s, Low(r, v), v % ENTRIES);
  }

  lemma SameReach(s: Sys, t: Sys)
    requires SamePtes(s, t)
    ensures forall r: nat, v: nat :: Reached(t, r, v) == Reached(s, r, v)
  {
    hide Pte, V, U, Ppn;
  }

  lemma StillOwn(s: Sys, t: Sys)
    requires UsersOwn(s) && SamePtes(s, t) && t.lo == s.lo && t.hi == s.hi
    ensures UsersOwn(t)
  {
    hide Pte, V, U, Ppn;
    SameReach(s, t);
  }

  lemma CopiedNothing(s: Sys, r: nat, dst: nat, src: seq<byte>)
    ensures CopiedTo(s, s, r, dst, src, 0)
  {
    hide Pte, UserByte;
  }

  // One page written: the bytes of that page of that tree, and no others.
  lemma PageByte(t: Sys, r: nat, v: nat, x: Page, a: nat, va: nat)
    requires Ok(t, {}) && UsersOwn(t) && Reached(t, r, v)
    ensures var q := Ppn(Pte(t, r, v)); q < |t.mem| && SamePtes(t, Fill(t, q, x)) && Ok(Fill(t, q, x), {})
    ensures UserByte(Fill(t, Ppn(Pte(t, r, v)), x), a, va) ==
            if a == r && va / PGSIZE == v then ByteAt(x, va % PGSIZE) else UserByte(t, a, va)
  {
    hide Ok, Pte, V, U, Ppn, UsersOwn;
    var q := Ppn(Pte(t, r, v));
    OwnerOf(t, r, v);
    FillKeeps(t, q, x);
    var u := Fill(t, q, x);
    SameReach(t, u);
    if Reached(t, a, va / PGSIZE) && Ppn(Pte(t, a, va / PGSIZE)) == q {
      OnePlace(t, r, v, a, va / PGSIZE);
    }
  }

  lemma PieceByte(s: Sys, t: Sys, r: nat, dst: nat, src: seq<byte>, n: nat, m: nat, a: nat, va: nat)
    requires Ok(t, {}) && UsersOwn(t) && CopiedTo(s, t, r, dst, src, n)
    requires n < |src| && Reached(t, r, (dst + n) / PGSIZE)
    requires m == Least(|src| - n, PGSIZE - (dst + n) % PGSIZE)
    ensures var q := Ppn(Pte(t, r, (dst + n) / PGSIZE)); q < |t.mem|
    ensures var q := Ppn(Pte(t, r, (dst + n) / PGSIZE));
            CopiedByte(s, Fill(t, q, Moved(t.mem[q], (dst + n) % PGSIZE, src[n..n + m])), r, dst, src, n + m, a, va)
  {
    hide Ok, Pte, V, U, Ppn, UsersOwn, Reached, Fill, Moved, Digit;
    var at := dst + n;
    var v, o := at / PGSIZE, at % PGSIZE;
    OwnerOf(t, r, v);
    var q := Ppn(Pte(t, r, v));
    var x := Moved(t.mem[q], o, src[n..n + m]);
    PageByte(t, r, v, x, a, va);
    assert CopiedByte(s, t, r, dst, src, n, a, va);
    if a == r && va / PGSIZE == v {
      MovedAt(t.mem[q], o, src[n..n + m], va % PGSIZE);
      InPage(at, va, m);
    } else if at <= va < at + m {
      SamePage(at, va, m);
    }
  }

  // Two addresses in one page.
  lemma InPage(at: nat, va: nat, m: nat)
    requires va / PGSIZE == at / PGSIZE && at % PGSIZE + m <= PGSIZE
    ensures va % PGSIZE - at % PGSIZE == va - at
  {
  }

  lemma SamePage(at: nat, va: nat, m: nat)
    requires at <= va < at + m && at % PGSIZE + m <= PGSIZE
    ensures va / PGSIZE == at / PGSIZE
  {
  }

  lemma CopiedMore(s: Sys, t: Sys, r: nat, dst: nat, src: seq<byte>, n: nat, m: nat)
    requires Ok(t, {}) && UsersOwn(t) && CopiedTo(s, t, r, dst, src, n)
    requires n < |src| && Reached(t, r, (dst + n) / PGSIZE)
    requires m == Least(|src| - n, PGSIZE - (dst + n) % PGSIZE)
    ensures var q := Ppn(Pte(t, r, (dst + n) / PGSIZE)); q < |t.mem|
    ensures var q := Ppn(Pte(t, r, (dst + n) / PGSIZE));
            var u := Fill(t, q, Moved(t.mem[q], (dst + n) % PGSIZE, src[n..n + m]));
            Ok(u, {}) && UsersOwn(u) && CopiedTo(s, u, r, dst, src, n + m)
  {
    hide Ok, Pte, V, U, Ppn, UsersOwn, Reached, Moved, Digit, CopiedByte;
    var v := (dst + n) / PGSIZE;
    OwnerOf(t, r, v);
    var q := Ppn(Pte(t, r, v));
    var x := Moved(t.mem[q], (dst + n) % PGSIZE, src[n..n + m]);
    PageByte(t, r, v, x, r, 0);
    var u, k := Fill(t, q, x), n + m;
    StillOwn(t, u);
    forall a: nat, va: nat ensures CopiedByte(s, u, r, dst, src, k, a, va) {
      PieceByte(s, t, r, dst, src, n, m, a, va);
    }
  }

  lemma NoneReached(s: Sys, r: nat, va: nat)
    ensures AllReached(s, r, va, 0)
  {
  }

  lemma MoreReached(s: Sys, r: nat, va: nat, n: nat, m: nat)
    requires AllReached(s, r, va, n) && ReachedAt(s, r, va + n) && (va + n) % PGSIZE + m <= PGSIZE
    ensures AllReached(s, r, va, n + m)
  {
    forall a: nat | va <= a < va + n + m ensures ReachedAt(s, r, a) {
      if a >= va + n { SamePage(va + n, a, m); }
    }
  }

  lemma WalkReaches(s: Sys, t: Sys, r: nat, a: nat, q: nat)
    requires SamePtes(s, t)
    requires q == if a / PGSIZE < MAXVPN && V(Pte(t, r, a / PGSIZE)) && U(Pte(t, r, a / PGSIZE))
                  then Ppn(Pte(t, r, a / PGSIZE)) else 0
    ensures q != 0 <==> ReachedAt(s, r, a)
    ensures q != 0 ==> Reached(t, r, a / PGSIZE) && q == Ppn(Pte(t, r, a / PGSIZE))
  {
    hide Pte, V, U, Ppn;
  }

  /** copyout: src at user address dst; false at the first page the user cannot reach, with the
      n bytes before it copied. */
  method Copyout(k: Kernel, r: nat, dst: nat, src: seq<byte>) returns (ok: bool, ghost n: nat)
    requires k.Valid() && Root(r) in k.s.at && UsersOwn(k.s)
    modifies k
    ensures k.Valid() && UsersOwn(k.s) && n <= |src| && CopiedTo(old(k.s), k.s, r, dst, src, n)
    ensures AllReached(old(k.s), r, dst, n)
    ensures ok <==> n == |src|
    ensures !ok ==> !ReachedAt(old(k.s), r, dst + n)
  {
    hide Ok, Pte, V, U, Ppn, UsersOwn, Reached, Moved, CopiedByte, AllReached, ReachedAt;
    ghost var s := k.s;
    n := 0;
    CopiedNothing(s, r, dst, src);
    NoneReached(s, r, dst);
    var va, len, from := dst, |src|, 0;
    while len > 0
      invariant k.Valid() && Root(r) in k.s.at && UsersOwn(k.s)
      invariant n == from == |src| - len && (len > 0 ==> va == dst + n)
      invariant CopiedTo(s, k.s, r, dst, src, n) && AllReached(s, r, dst, n)
    {
      var v := va / PGSIZE;
      var q, _ := k.Walkaddr(r, v);
      WalkReaches(s, k.s, r, va, q);
      if q == 0 {
        return false, n;
      }
      OwnerOf(k.s, r, v);
      var m := PGSIZE - va % PGSIZE;
      if m > len {
        m := len;
      }
      CopiedMore(s, k.s, r, dst, src, n, m);
      MoreReached(s, r, dst, n, m);
      var x := Moved(k.mem[q], va % PGSIZE, src[from..from + m]);
      k.mem := k.mem[q := x];
      k.s := Fill(k.s, q, x);
      len, from, va, n := len - m, from + m, v * PGSIZE + PGSIZE, n + m;
    }
    ok := true;
  }

  // data is what user address va of tree r holds.
  ghost predicate ReadFrom(s: Sys, r: nat, va: nat, data: seq<byte>) {
    forall i :: 0 <= i < |data| ==> ReadByte(s, r, va, data, i)
  }

  ghost predicate ReadByte(s: Sys, r: nat, va: nat, data: seq<byte>, i: nat)
    requires i < |data|
  {
    UserByte(s, r, va + i) == data[i]
  }

  lemma ReadMore(s: Sys, r: nat, va: nat, data: seq<byte>, m: nat)
    requires Ok(s, {}) && UsersOwn(s) && ReadFrom(s, r, va, data) && Reached(s, r, (va + |data|) / PGSIZE)
    requires (va + |data|) % PGSIZE + m <= PGSIZE
    ensures var q := Ppn(Pte(s, r, (va + |data|) / PGSIZE)); q < |s.mem|
    ensures var q := Ppn(Pte(s, r, (va + |data|) / PGSIZE));
            ReadFrom(s, r, va, data + Window(s.mem[q], (va + |data|) % PGSIZE, m))
  {
    hide Ok, Pte, V, U, Ppn, UsersOwn, Reached, Digit;
    var at := va + |data|;
    OwnerOf(s, r, at / PGSIZE);
    var q := Ppn(Pte(s, r, at / PGSIZE));
    var more := data + Window(s.mem[q], at % PGSIZE, m);
    forall i | 0 <= i < |more| ensures ReadByte(s, r, va, more, i) {
      if i < |data| {
        assert ReadByte(s, r, va, data, i);
      } else {
        SamePage(at, va + i, m);
        InPage(at, va + i, m);
      }
    }
  }

  /** copyin: len bytes from user address from; false at the first page the user cannot reach, with
      the bytes before it read.  Nothing changes. */
  method Copyin(k: Kernel, r: nat, from: nat, len: nat) returns (ok: bool, data: seq<byte>)
    requires k.Valid() && Root(r) in k.s.at && UsersOwn(k.s)
    modifies k
    ensures k.Valid() && k.s == old(k.s)
    ensures |data| <= len && ReadFrom(k.s, r, from, data) && AllReached(k.s, r, from, |data|)
    ensures ok <==> |data| == len
    ensures !ok ==> !ReachedAt(k.s, r, from + |data|)
  {
    hide Ok, Pte, V, U, Ppn, UsersOwn, Reached, ReachedAt, AllReached, ReadByte;
    data := [];
    NoneReached(k.s, r, from);
    var va, left := from, len;
    while left > 0
      invariant k.Valid() && k.s == old(k.s) && 0 <= left == len - |data| && (left > 0 ==> va == from + |data|)
      invariant ReadFrom(k.s, r, from, data) && AllReached(k.s, r, from, |data|)
    {
      var v := va / PGSIZE;
      var q, _ := k.Walkaddr(r, v);
      SelfPtes(k.s);
      WalkReaches(k.s, k.s, r, va, q);
      if q == 0 {
        return false, data;
      }
      OwnerOf(k.s, r, v);
      var m := PGSIZE - va % PGSIZE;
      if m > left {
        m := left;
      }
      ReadMore(k.s, r, from, data, m);
      MoreReached(k.s, r, from, |data|, m);
      data := data + Window(k.mem[q], va % PGSIZE, m);
      left, va := left - m, v * PGSIZE + PGSIZE;
    }
    ok := true;
  }

  lemma SelfPtes(s: Sys)
    ensures SamePtes(s, s)
  {
    hide Pte;
  }

  /** What copyout has put there is what copyin finds. */
  lemma ReadsBack(s: Sys, t: Sys, r: nat, va: nat, src: seq<byte>, data: seq<byte>)
    requires CopiedTo(s, t, r, va, src, |src|) && |data| == |src| && ReadFrom(t, r, va, data)
    ensures data == src
  {
    hide UserByte, SamePtes;
    forall i | 0 <= i < |src| ensures data[i] == src[i] {
      assert ReadByte(t, r, va, data, i);
      assert CopiedByte(s, t, r, va, src, |src|, r, va + i);
    }
  }
}
