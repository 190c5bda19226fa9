/** vm.c's user memory: growing, shrinking, copying and freeing an address space. */
module UserMemory {
  import opened PageTable
  import opened Vm

  const USER: nat := 30            // PTE_W | PTE_X | PTE_R | PTE_U

  /** t is s with fresh pages mapped by tree r from first on: page k holds pages[k], with flags[k].
      Nothing else is mapped or changed. */
  ghost predicate Extended(s: Sys, t: Sys, r: nat, first: nat, pages: seq<Page>, flags: seq<nat>) {
    && |pages| == |flags| && t.lo == s.lo && t.hi == s.hi && SameRoots(s, t)
    && (forall a: nat, b: nat :: ExtendedPte(s, t, r, first, pages, flags, a, b))
    && (forall p: nat :: ExtendedDatum(s, t, r, first, pages, p))
  }

  ghost predicate ExtendedPte(s: Sys, t: Sys, r: nat, first: nat, pages: seq<Page>, flags: seq<nat>, a: nat, b: nat) {
    if a == r && first <= b < first + |pages| && |flags| == |pages| then
      var p := Ppn(Pte(t, a, b));
      Pte(t, a, b) == Make(p, WithV(flags[b - first])) && IsData(t, p) && t.role[p] == Data(Mapped(r, b))
          && !IsData(s, p)
    else Pte(t, a, b) == Pte(s, a, b)
  }

  predicate ExtendedDatum(s: Sys, t: Sys, r: nat, first: nat, pages: seq<Page>, p: nat) {
    if IsData(s, p) then SameDatum(s, t, p)
    else IsData(t, p) ==>
      && t.role[p].o.Mapped? && t.role[p].o.root == r && first <= t.role[p].o.vpn < first + |pages|
      && p < |t.mem| && t.mem[p] == pages[t.role[p].o.vpn - first]
  }

  /** Everything that was mapped is mapped as it was, nothing else is, and every page in use is the
      same: all pages taken on the way are back, but for page-table pages. */
  ghost predicate Restored(s: Sys, t: Sys) {
    && t.lo == s.lo && t.hi == s.hi && SameRoots(s, t)
    && (forall a: nat, b: nat :: SameView(s, t, a, b))
    && (forall p: nat :: SameDatum(s, t, p))
  }

  ghost predicate SameView(s: Sys, t: Sys, a: nat, b: nat) {
    (V(Pte(s, a, b)) || V(Pte(t, a, b))) ==> Pte(t, a, b) == Pte(s, a, b)
  }

  lemma ExtendedNone(s: Sys, r: nat, first: nat)
    requires Ok(s, {})
    ensures Extended(s, s, r, first, [], [])
  {
    hide FreeList, Down, Up, Owning, Pte;
  }

  lemma ZeroIsInvalid()
    ensures !V(0)
  {
  }

  // A page with an owner is found where its owner says.
  lemma OwnerValid(s: Sys, p: nat)
    requires Ok(s, {}) && IsData(s, p) && s.role[p].o.Mapped?
    ensures V(Pte(s, s.role[p].o.root, s.role[p].o.vpn)) && Ppn(Pte(s, s.role[p].o.root, s.role[p].o.vpn)) == p
  {
    KnownOwner(s, p);
    hide Ok;
  }

  /** Unmapping what was added restores what was there. */
  lemma ShrinkRestores(s: Sys, t: Sys, u: Sys, r: nat, first: nat, pages: seq<Page>, flags: seq<nat>)
    requires Ok(s, {}) && Extended(s, t, r, first, pages, flags) && UnmappedFrom(t, u, r, first, |pages|, true)
    requires forall v: nat :: first <= v < first + |pages| ==> !V(Pte(s, r, v))
    ensures Restored(s, u)
  {
    hide Ok, Pte, V;
    ZeroIsInvalid();
    forall a: nat, b: nat ensures SameView(s, u, a, b) {
      assert ExtendedPte(s, t, r, first, pages, flags, a, b) && UnmappedPte(t, u, r, first, |pages|, a, b);
    }
    forall p: nat ensures SameDatum(s, u, p) {
      assert ExtendedDatum(s, t, r, first, pages, p) && UnmappedDatum(t, u, r, first, |pages|, true, p);
      if IsData(s, p) && s.role[p].o.Mapped? { OwnerValid(s, p); }
    }
  }

  // w is s with page p taken from the list and filled with x.
  ghost predicate Took(s: Sys, w: Sys, p: nat, x: Page) {
    && w.lo == s.lo && w.hi == s.hi && SamePtes(s, w) && SameRoots(s, w)
    && s.lo <= p < s.hi && !IsData(s, p) && p in w.role && w.role[p] == Data(Loose) && p < |w.mem| && w.mem[p] == x
    && forall q: nat :: q != p ==> SameDatum(s, w, q)
  }

  lemma TookIs(s: Sys, x: Page)
    requires Ok(s, {}) && s.free != [] && s.free[0] < |s.mem| && SamePtes(s, Alloc(s))
    requires SamePtes(Alloc(s), Fill(Alloc(s), s.free[0], x))
    ensures Took(s, Fill(Alloc(s), s.free[0], x), s.free[0], x)
  {
    hide Down, Up, Owning, Pte;
    var p, w := s.free[0], Fill(Alloc(s), s.free[0], x);
    assert s.role[p].FreePage?;
    forall q: nat | q != p ensures SameDatum(s, w, q) { }
  }

  // Mapping failed: with the page given back, all is as it was.
  lemma GivenBack(s: Sys, w: Sys, m: Sys, p: nat, r: nat, v: nat, x: Page, flags: nat)
    requires Took(s, w, p, x) && MappedFrom(w, m, r, v, 0, p, flags) && Ok(m, {})
    ensures LooseAt(m, p) && p < |m.mem| && m.lo <= p < m.hi && m.lo == s.lo && m.hi == s.hi
    ensures SamePtes(m, Release(m, p)) ==> Quiet(s, Release(m, p))
  {
    hide Ok, Pte;
    assert MappedDatum(w, m, r, v, 0, p, p);
    if SamePtes(m, Release(m, p)) {
      forall a: nat, b: nat ensures Pte(Release(m, p), a, b) == Pte(s, a, b) {
        assert MappedPte(w, m, r, v, 0, p, flags, a, b);
        assert Pte(Release(m, p), a, b) == Pte(m, a, b) && Pte(w, a, b) == Pte(s, a, b);
      }
      forall q: nat ensures SameDatum(s, Release(m, p), q) {
        assert MappedDatum(w, m, r, v, 0, p, q) && (q != p ==> SameDatum(s, w, q));
      }
    }
  }

  // Mapping succeeded.
  lemma GrownBy(s: Sys, w: Sys, m: Sys, p: nat, r: nat, v: nat, x: Page, perm: nat)
    requires Took(s, w, p, x) && MappedFrom(w, m, r, v, 1, p, WithV(perm)) && perm < 1024
    ensures Extended(s, m, r, v, [x], [perm])
  {
    hide Pte, Make, Ppn;
    WithVIs(perm);
    MakeIs(p, WithV(perm));
    assert MappedDatum(w, m, r, v, 1, p, p);
    forall a: nat, b: nat ensures ExtendedPte(s, m, r, v, [x], [perm], a, b) {
      assert MappedPte(w, m, r, v, 1, p, WithV(perm), a, b);
      assert Pte(w, a, b) == Pte(s, a, b);
      if a == r && b == v { assert Pte(m, a, b) == Make(p, WithV(perm)) && [perm][b - v] == perm; }
    }
    forall q: nat ensures ExtendedDatum(s, m, r, v, [x], q) {
      assert MappedDatum(w, m, r, v, 1, p, q) && (q != p ==> SameDatum(s, w, q));
    }
  }

  lemma TookPte(s: Sys, w: Sys, p: nat, x: Page, r: nat, v: nat)
    requires Took(s, w, p, x)
    ensures Pte(w, r, v) == Pte(s, r, v) && LooseAt(w, p) && (Root(r) in s.at ==> Root(r) in w.at)
  {
    hide Pte;
  }

  /** One page more: kalloc, fill, and map; on failure the page goes back. */
  method GrowOne(k: Kernel, r: nat, v: nat, x: Page, perm: nat) returns (ok: bool, panicked: bool)
    requires k.Valid() && Root(r) in k.s.at && perm < 1024
    modifies k
    ensures panicked ==> v >= MAXVPN || V(Pte(old(k.s), r, v))
    ensures !panicked && !ok ==> k.Valid() && Quiet(old(k.s), k.s) && Root(r) in k.s.at
    ensures !panicked && ok ==> k.Valid() && Extended(old(k.s), k.s, r, v, [x], [perm]) && Root(r) in k.s.at
    ensures !panicked && ok ==> !V(Pte(old(k.s), r, v)) && v < MAXVPN
  {
    hide Ok, Restored, Extended, MappedFrom, Pte, SameRoots, SamePtes, Took, Quiet;
    ghost var s := k.s;
    var p := k.Kalloc();
    if p == 0 {
      QuietSelf(s);
      return false, false;
    }
    ghost var t := k.s;
    AllocIs(s);
    FillKeeps(t, p, x);
    TookIs(s, x);
    k.mem := k.mem[p := x];
    k.s := Fill(t, p, x);
    ghost var w := k.s;
    TookPte(s, w, p, x, r, v);
    WholeRange(v, p);
    var outcome, done := k.Mappages(r, v * PGSIZE, PGSIZE, p * PGSIZE, perm);
    if outcome.Panic? {
      return false, true;
    }
    if outcome.NoMemory? {
      GivenBack(s, w, k.s, p, r, v, x, WithV(perm));
      var refused := k.Kfree(p * PGSIZE);
      QuietRoot(s, k.s, r);
      return false, refused;
    }
    GrownBy(s, w, k.s, p, r, v, x, perm);
    ExtendedRoot(s, k.s, r, v, [x], [perm]);
    return true, false;
  }

  // One whole page.
  lemma WholeRange(v: nat, p: nat)
    ensures v * PGSIZE / PGSIZE == v && p * PGSIZE / PGSIZE == p && Touched(v * PGSIZE, PGSIZE) == 1
  {
  }

  lemma QuietRoot(s: Sys, t: Sys, r: nat)
    requires Quiet(s, t)
    ensures Root(r) in s.at <==> Root(r) in t.at
  {
    hide Pte;
  }

  lemma ExtendedRoot(s: Sys, t: Sys, r: nat, first: nat, pages: seq<Page>, flags: seq<nat>)
    requires Extended(s, t, r, first, pages, flags)
    ensures forall a: nat :: Root(a) in s.at <==> Root(a) in t.at
  {
    hide Pte;
  }

  lemma ExtendedMore(s: Sys, t: Sys, u: Sys, r: nat, first: nat, pages: seq<Page>, flags: seq<nat>, x: Page, perm: nat)
    requires Extended(s, t, r, first, pages, flags) && Extended(t, u, r, first + |pages|, [x], [perm])
    ensures Extended(s, u, r, first, pages + [x], flags + [perm])
  {
    hide Pte, Make, Ppn, WithV;
    var n := first + |pages|;
    var ps, fs, one, two := pages + [x], flags + [perm], [x], [perm];
    forall a: nat, b: nat ensures ExtendedPte(s, u, r, first, ps, fs, a, b) {
      assert ExtendedPte(s, t, r, first, pages, flags, a, b) && ExtendedPte(t, u, r, n, one, two, a, b);
      if a == r && first <= b < n {
        assert fs[b - first] == flags[b - first];
        assert ExtendedDatum(t, u, r, n, one, Ppn(Pte(t, a, b)));
      }
      if a == r && b == n { assert ExtendedDatum(s, t, r, first, pages, Ppn(Pte(u, a, b))); }
    }
    forall p: nat ensures ExtendedDatum(s, u, r, first, ps, p) {
      assert ExtendedDatum(s, t, r, first, pages, p) && ExtendedDatum(t, u, r, n, one, p);
    }
  }

  lemma ExtendedQuiet(s: Sys, t: Sys, u: Sys, r: nat, first: nat, pages: seq<Page>, flags: seq<nat>)
    requires Extended(s, t, r, first, pages, flags) && Quiet(t, u)
    ensures Extended(s, u, r, first, pages, flags)
  {
    hide Pte, Make, Ppn, WithV;
    forall a: nat, b: nat ensures ExtendedPte(s, u, r, first, pages, flags, a, b) {
      assert ExtendedPte(s, t, r, first, pages, flags, a, b) && Pte(u, a, b) == Pte(t, a, b);
      assert SameDatum(t, u, Ppn(Pte(t, a, b)));
    }
    forall p: nat ensures ExtendedDatum(s, u, r, first, pages, p) {
      assert ExtendedDatum(s, t, r, first, pages, p) && SameDatum(t, u, p);
    }
  }

  // What has been added can be unmapped: the entries are leaves and the pages the allocator's.
  lemma ExtendedFits(s: Sys, t: Sys, r: nat, first: nat, pages: seq<Page>, flags: seq<nat>, v: nat)
    requires Extended(s, t, r, first, pages, flags) && Ok(t, {}) && first <= v < first + |pages| && v < MAXVPN
    requires forall i: nat :: i < |flags| ==> flags[i] < 1024 && WithV(flags[i]) != 1
    ensures !Unfit(t, r, v, true)
  {
    RolesOf(t);
    RangeOf(t);
    hide Ok, Roles, Pte;
    assert ExtendedPte(s, t, r, first, pages, flags, r, v);
    WithVIs(flags[v - first]);
    MakeIs(Ppn(Pte(t, r, v)), WithV(flags[v - first]));
  }

  lemma MorePages(a: nat, b: nat)
    requires a <= b
    ensures Pages(a) <= Pages(b)
  {
  }

  /** uvmdealloc: the pages between the two sizes are unmapped and given back. */
  method Uvmdealloc(k: Kernel, r: nat, oldsz: nat, newsz: nat) returns (size: nat, panicked: bool)
    requires k.Valid() && Root(r) in k.s.at
    modifies k
    ensures size == if newsz >= oldsz then oldsz else newsz
    ensures panicked ==> exists v: nat :: Pages(newsz) <= v < Pages(oldsz) && Unfit(old(k.s), r, v, true)
    ensures !panicked ==> k.Valid()
    ensures !panicked && newsz >= oldsz ==> k.s == old(k.s)
    ensures !panicked && newsz < oldsz ==>
              UnmappedFrom(old(k.s), k.s, r, Pages(newsz), Pages(oldsz) - Pages(newsz), true)
  {
    hide Ok, Unfit, UnmappedFrom, Pages;
    if newsz >= oldsz {
      return oldsz, false;
    }
    MorePages(newsz, oldsz);
    panicked := false;
    if Pages(newsz) < Pages(oldsz) {
      var npages := Pages(oldsz) - Pages(newsz);
      ghost var done;
      WholeRange(Pages(newsz), 0);
      panicked, done := k.Uvmunmap(r, Pages(newsz) * PGSIZE, npages, true);
    } else {
      UnmappedNone(k.s, r, Pages(newsz), true);
    }
    size := newsz;
  }

  // Zeroed user pages added from first up to last.
  ghost predicate Grown(s: Sys, t: Sys, r: nat, first: nat, last: nat) {
    && first <= last && (first == last || last <= MAXVPN)
    && Extended(s, t, r, first, seq(last - first, _ => Zeros()), seq(last - first, _ => USER))
  }

  lemma Beyond(s: Sys, t: Sys, r: nat, first: nat, pages: seq<Page>, flags: seq<nat>)
    requires Extended(s, t, r, first, pages, flags)
    ensures Pte(t, r, first + |pages|) == Pte(s, r, first + |pages|)
  {
    hide Pte;
    assert ExtendedPte(s, t, r, first, pages, flags, r, first + |pages|);
  }

  // A failed growth undone.
  lemma ShrunkBack(s: Sys, u: Sys, w: Sys, r: nat, first: nat, a: nat, pages: seq<Page>, flags: seq<nat>)
    requires Ok(s, {}) && Extended(s, u, r, first, pages, flags) && |pages| == a - first && first <= a
    requires forall v: nat :: first <= v < a ==> !V(Pte(s, r, v))
    requires if a == first then w == u else UnmappedFrom(u, w, r, first, a - first, true)
    ensures Restored(s, w)
  {
    hide Ok, Pte, V;
    if a == first {
      forall x: nat, y: nat ensures SameView(s, w, x, y) { assert ExtendedPte(s, u, r, first, pages, flags, x, y); }
      forall p: nat ensures SameDatum(s, w, p) { assert ExtendedDatum(s, u, r, first, pages, p); }
    } else {
      ShrinkRestores(s, u, w, r, first, pages, flags);
    }
  }

  // uvmalloc's error path, which does not panic.
  method ShrinkBack(k: Kernel, ghost s: Sys, r: nat, first: nat, a: nat, ghost pages: seq<Page>, ghost flags: seq<nat>)
    returns (refused: bool)
    requires k.Valid() && Root(r) in k.s.at && first <= a && (a == first || a <= MAXVPN) && Ok(s, {})
    requires Extended(s, k.s, r, first, pages, flags) && |pages| == a - first
    requires forall i: nat :: i < |flags| ==> flags[i] < 1024 && WithV(flags[i]) != 1
    requires forall v: nat :: first <= v < a ==> !V(Pte(s, r, v))
    modifies k
    ensures k.Valid() && Restored(s, k.s) && !refused
  {
    hide Ok, Extended, Restored, Pte, V, Unfit, UnmappedFrom, Pages, WithV;
    ghost var u := k.s;
    forall v: nat | first <= v < a ensures !Unfit(u, r, v, true) { ExtendedFits(s, u, r, first, pages, flags, v); }
    WholePages(a);
    WholePages(first);
    var shrunk;
    shrunk, refused := Uvmdealloc(k, r, a * PGSIZE, first * PGSIZE);
    ShrunkBack(s, u, k.s, r, first, a, pages, flags);
  }

  lemma UserFlags()
    ensures USER < 1024 && WithV(USER) != 1
  {
  }

  lemma PageBelow(a: nat, sz: nat)
    ensures a * PGSIZE < sz <==> a < Pages(sz)
  {
  }

  lemma WholePages(a: nat)
    ensures Pages(a * PGSIZE) == a
  {
  }

  /** uvmalloc: grows the address space from oldsz to newsz bytes with zeroed pages, or leaves
      everything mapped and every page in use as it was. */
  method Uvmalloc(k: Kernel, r: nat, oldsz: nat, newsz: nat) returns (size: nat, outcome: Outcome)
    requires k.Valid() && Root(r) in k.s.at
    modifies k
    ensures outcome.Panic? ==>
              exists v: nat :: Pages(oldsz) <= v < Pages(newsz) && (v >= MAXVPN || V(Pte(old(k.s), r, v)))
    ensures outcome.Done? && newsz < oldsz ==> size == oldsz && k.s == old(k.s)
    ensures outcome.Done? && newsz >= oldsz ==> size == newsz && Grown(old(k.s), k.s, r, Pages(oldsz), Pages(newsz))
    ensures outcome.NoMemory? ==> size == 0 && newsz >= oldsz && Restored(old(k.s), k.s)
    ensures !outcome.Panic? ==> k.Valid()
  {
    hide Ok, Quiet, Extended, Restored, Pte, V, Unfit, UnmappedFrom, Pages, WithV;
    if newsz < oldsz {
      return oldsz, Done;
    }
    MorePages(oldsz, newsz);
    UserFlags();
    ghost var s := k.s;
    var first := Pages(oldsz);
    var a := first;
    ghost var pages: seq<Page>, flags: seq<nat> := [], [];
    ExtendedNone(s, r, first);
    while a * PGSIZE < newsz
      invariant first <= a <= Pages(newsz) && k.Valid() && Root(r) in k.s.at && (a == first || a <= MAXVPN)
      invariant pages == seq(a - first, _ => Zeros()) && flags == seq(a - first, _ => USER)
      invariant Extended(s, k.s, r, first, pages, flags)
      invariant forall v: nat :: first <= v < a ==> !V(Pte(s, r, v))
      decreases newsz - a * PGSIZE
    {
      ghost var t := k.s;
      PageBelow(a, newsz);
      Beyond(s, t, r, first, pages, flags);
      var ok, panicked := GrowOne(k, r, a, Zeros(), USER);
      if panicked {
        return 0, Panic;
      }
      if !ok {
        ExtendedQuiet(s, t, k.s, r, first, pages, flags);
        var refused := ShrinkBack(k, s, r, first, a, pages, flags);
        return 0, if refused then Panic else NoMemory;
      }
      ExtendedMore(s, t, k.s, r, first, pages, flags, Zeros(), USER);
      pages, flags := pages + [Zeros()], flags + [USER];
      a := a + 1;
    }
    PageBelow(a, newsz);
    return newsz, Done;
  }

  // The pages of a parent's first n mappings, and their flags.
  ghost predicate Parental(s: Sys, r: nat, n: nat, pages: seq<Page>, flags: seq<nat>) {
    |pages| == |flags| == n && forall v: nat :: v < n ==> ParentPage(s, r, v, pages, flags)
  }

  ghost predicate ParentPage(s: Sys, r: nat, v: nat, pages: seq<Page>, flags: seq<nat>) {
    var e := Pte(s, r, v);
    && V(e) && v < |pages| && v < |flags| && Ppn(e) < |s.mem|
    && pages[v] == s.mem[Ppn(e)] && flags[v] == Flags(e)
  }

  // What uvmcopy expects of page v of the parent, if it is mapped: a leaf for one of the
  // allocator's pages.
  ghost predicate UserPage(s: Sys, r: nat, v: nat) {
    V(Pte(s, r, v)) ==> IsData(s, Ppn(Pte(s, r, v))) && Flags(Pte(s, r, v)) != 1
  }

  /** uvmcopy: the child gets the same bytes with the same flags in pages of its own, or everything
      stays mapped and every page in use stays as it was.  It panics at a page the parent does not
      have, the child has already, or beyond MAXVA. */
  method Uvmcopy(k: Kernel, old_r: nat, new_r: nat, sz: nat) returns (outcome: Outcome)
    requires k.Valid() && Root(old_r) in k.s.at && Root(new_r) in k.s.at && old_r != new_r
    requires forall v: nat :: v < Pages(sz) ==> UserPage(k.s, old_r, v)
    modifies k
    ensures outcome.Panic? ==>
              exists v: nat :: v < Pages(sz) && (v >= MAXVPN || !V(Pte(old(k.s), old_r, v))
                  || V(Pte(old(k.s), new_r, v)))
    ensures outcome.Done? ==>
              exists pages, flags :: Parental(old(k.s), old_r, Pages(sz), pages, flags)
                                     && Extended(old(k.s), k.s, new_r, 0, pages, flags)
    ensures outcome.NoMemory? ==> Restored(old(k.s), k.s)
    ensures !outcome.Panic? ==> k.Valid()
  {
    hide Ok, Quiet, Extended, Restored, Pte, V, Unfit, UnmappedFrom, Pages, WithV, UserPage, ParentPage;
    ghost var s := k.s;
    var i := 0;
    ghost var pages: seq<Page>, flags: seq<nat> := [], [];
    ExtendedNone(s, new_r, 0);
    while i * PGSIZE < sz
      invariant 0 <= i <= Pages(sz) && i <= MAXVPN && k.Valid() && Root(old_r) in k.s.at && Root(new_r) in k.s.at
      invariant Parental(s, old_r, i, pages, flags) && Extended(s, k.s, new_r, 0, pages, flags)
      invariant forall v: nat :: v < i ==> !V(Pte(s, new_r, v))
      invariant forall j: nat :: j < |flags| ==> flags[j] < 1024 && WithV(flags[j]) != 1
      decreases sz - i * PGSIZE
    {
      ghost var t := k.s;
      PageBelow(i, sz);
      Beyond(s, t, new_r, 0, pages, flags);
      OtherTree(s, t, new_r, 0, pages, flags, old_r, i);
      var ok, panicked, p, at := k.Walk(old_r, i, false);
      if panicked {
        return Panic;
      }
      if !ok {
        NotThere(t, old_r, i);
        return Panic;
      }
      PteIs(t, old_r, i);
      var e := k.mem[p][at];
      if !V(e) {
        return Panic;
      }
      assert UserPage(s, old_r, i);
      StillUser(s, t, new_r, 0, pages, flags, old_r, i);
      var x := k.mem[Ppn(e)];
      ok, panicked := GrowOne(k, new_r, i, x, Flags(e));
      if panicked {
        return Panic;
      }
      if !ok {
        ExtendedQuiet(s, t, k.s, new_r, 0, pages, flags);
        var refused := CopyBack(k, s, new_r, i, pages, flags);
        return if refused then Panic else NoMemory;
      }
      ExtendedMore(s, t, k.s, new_r, 0, pages, flags, x, Flags(e));
      ExtendedRoot(t, k.s, new_r, i, [x], [Flags(e)]);
      assert ParentPage(s, old_r, i, pages + [x], flags + [Flags(e)]) by {
        ParentPageIs(s, old_r, i, pages, flags, x, Flags(e));
      }
      ParentalMore(s, old_r, i, pages, flags, x, Flags(e));
      pages, flags := pages + [x], flags + [Flags(e)];
      i := i + 1;
    }
    PageBelow(i, sz);
    return Done;
  }

  // uvmcopy's error path, which does not panic.
  method CopyBack(k: Kernel, ghost s: Sys, r: nat, i: nat, ghost pages: seq<Page>, ghost flags: seq<nat>)
    returns (refused: bool)
    requires k.Valid() && Root(r) in k.s.at && i <= MAXVPN && Ok(s, {})
    requires Extended(s, k.s, r, 0, pages, flags) && |pages| == i
    requires forall j: nat :: j < |flags| ==> flags[j] < 1024 && WithV(flags[j]) != 1
    requires forall v: nat :: v < i ==> !V(Pte(s, r, v))
    modifies k
    ensures k.Valid() && Restored(s, k.s) && !refused
  {
    hide Ok, Extended, Restored, Pte, V, Unfit, UnmappedFrom, WithV;
    ghost var u := k.s;
    forall v: nat | 0 <= v < i ensures !Unfit(u, r, v, true) { ExtendedFits(s, u, r, 0, pages, flags, v); }
    ghost var done;
    refused, done := k.Uvmunmap(r, 0, i, true);
    ShrinkRestores(s, u, k.s, r, 0, pages, flags);
  }

  lemma OtherTree(s: Sys, t: Sys, r: nat, first: nat, pages: seq<Page>, flags: seq<nat>, a: nat, v: nat)
    requires Extended(s, t, r, first, pages, flags) && a != r
    ensures Pte(t, a, v) == Pte(s, a, v)
  {
    hide Pte;
    assert ExtendedPte(s, t, r, first, pages, flags, a, v);
  }

  // The parent's page is where it was, with what it held.
  lemma StillUser(s: Sys, t: Sys, r: nat, first: nat, pages: seq<Page>, flags: seq<nat>, a: nat, v: nat)
    requires Extended(s, t, r, first, pages, flags) && UserPage(s, a, v) && V(Pte(s, a, v))
    ensures var e := Pte(s, a, v);
            Ppn(e) < |s.mem| && Ppn(e) < |t.mem| && t.mem[Ppn(e)] == s.mem[Ppn(e)]
            && Flags(e) < 1024 && Flags(e) % 2 == 1 && WithV(Flags(e)) != 1
  {
    hide Pte;
    assert ExtendedDatum(s, t, r, first, pages, Ppn(Pte(s, a, v)));
  }

  lemma ParentPageIs(s: Sys, r: nat, v: nat, pages: seq<Page>, flags: seq<nat>, x: Page, f: nat)
    requires |pages| == |flags| == v && V(Pte(s, r, v)) && Ppn(Pte(s, r, v)) < |s.mem|
    requires x == s.mem[Ppn(Pte(s, r, v))] && f == Flags(Pte(s, r, v))
    ensures ParentPage(s, r, v, pages + [x], flags + [f])
  {
  }

  lemma ParentalMore(s: Sys, r: nat, n: nat, pages: seq<Page>, flags: seq<nat>, x: Page, f: nat)
    requires Parental(s, r, n, pages, flags) && ParentPage(s, r, n, pages + [x], flags + [f])
    ensures Parental(s, r, n + 1, pages + [x], flags + [f])
  {
    hide Pte;
    forall v: nat | v < n + 1 ensures ParentPage(s, r, v, pages + [x], flags + [f]) {
      if v < n { assert ParentPage(s, r, v, pages, flags); }
    }
  }
}
