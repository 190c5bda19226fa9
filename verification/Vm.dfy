/** kalloc.c's free list and vm.c's page tables, in one physical memory. */
module Vm {
  import opened PageInit
  import opened PageTable

  datatype Outcome = Done | NoMemory | Panic

  // PGROUNDUP(sz) / PGSIZE
  function Pages(sz: nat): nat {
    (sz + PGSIZE - 1) / PGSIZE
  }

  // How far down the tree a walk at level l has come.
  function Prefix(l: nat, vpn: nat): nat {
    if l == 0 then vpn / 512 else if l == 1 then vpn / 512 / 512 else 0
  }

  lemma Descend(r: nat, l: nat, vpn: nat)
    requires 0 < l <= 2 && vpn < MAXVPN
    ensures Child(Place(r, l, Prefix(l, vpn)), Px(l, vpn)) == Place(r, l - 1, Prefix(l - 1, vpn))
  {
  }

  class Kernel {
    const lo: nat
    const hi: nat
    var mem: seq<Page>
    var freelist: nat
    ghost var s: Sys               // mem, with who has which page

    ghost predicate Valid()
      reads this
    {
      s.mem == mem && s.lo == lo && s.hi == hi && freelist == Address(s.free, 0) && Ok(s, {})
    }

    /** kinit, for a kernel that ends at byte end: every whole page from there up to phystop is on
        the list. */
    constructor (memory: seq<Page>, end: nat, phystop: nat)
      requires 0 < end && phystop % PGSIZE == 0 && Pages(end) <= phystop / PGSIZE <= |memory|
      ensures Valid() && lo == Pages(end) && hi == phystop / PGSIZE && |s.mem| == |memory| && s.at == map[]
      ensures forall p: nat :: lo <= p < hi ==> p in s.role && s.role[p] == FreePage
    {
      lo, hi, mem, freelist := Pages(end), phystop / PGSIZE, memory, 0;
      s := Unclaimed(Pages(end), phystop / PGSIZE, memory);
      new;
      UnclaimedOk(lo, hi, memory);
      ghost var u := s;
      var _ := Freerange(end, phystop);
      forall p: nat | lo <= p < hi ensures p in s.role && s.role[p] == FreePage {
        assert FreedUpTo(u, s, lo, hi, p);
      }
    }

    /** freerange: each whole page between the two addresses goes to the list, and kfree panics at none. */
    method Freerange(start: nat, end: nat) returns (panicked: bool)
      requires Valid() && lo <= Pages(start) && end / PGSIZE <= hi
      requires forall p: nat :: Pages(start) <= p < end / PGSIZE ==> LooseAt(s, p)
      modifies this
      ensures Valid() && s.at == old(s).at && |s.mem| == |old(s).mem| && !panicked
      ensures forall p: nat :: lo <= p < hi ==> FreedUpTo(old(s), s, Pages(start), end / PGSIZE, p)
    {
      hide Down, Up, Owning, FreeList, Pte;
      RangeOf(s);
      var p := Pages(start);
      panicked := false;
      while (p + 1) * PGSIZE <= end
        invariant !panicked && Valid() && s.at == old(s).at && |s.mem| == |old(s).mem| && p >= Pages(start)
        invariant p > Pages(start) ==> p <= end / PGSIZE
        invariant forall i: nat :: lo <= i < hi ==> FreedUpTo(old(s), s, Pages(start), p, i)
        decreases end - p * PGSIZE
      {
        WholePage(p, end);
        assert FreedUpTo(old(s), s, Pages(start), p, p) && LooseAt(old(s), p);
        ghost var u := s;
        panicked := Kfree(p * PGSIZE);
        ReleaseAt(u, p);
        ghost var next := p + 1;
        forall i: nat | lo <= i < hi ensures FreedUpTo(old(s), s, Pages(start), next, i) {
          assert FreedUpTo(old(s), u, Pages(start), p, i);
        }
        p := p + 1;
      }
      WholePage(p, end);
      forall i: nat | lo <= i < hi ensures FreedUpTo(old(s), s, Pages(start), end / PGSIZE, i) {
        assert FreedUpTo(old(s), s, Pages(start), p, i);
      }
    }

    /** uvmcreate: an empty tree of its own; 0 when the list is empty. */
    method Uvmcreate() returns (r: nat)
      requires Valid()
      modifies this
      ensures Valid() && SamePtes(old(s), s)
      ensures r == 0 <==> old(s).free == []
      ensures r == 0 ==> s == old(s)
      ensures r != 0 ==> Root(r) !in old(s).at && Root(r) in s.at && forall v: nat :: Pte(s, r, v) == 0
      ensures forall x :: x in old(s).at ==> x in s.at && s.at[x] == old(s).at[x]
      ensures forall q: nat :: SameDatum(old(s), s, q)
    {
      hide Ok, Pte, Alloc;
      ghost var u := s;
      r := Kalloc();
      if r == 0 {
        RolesOf(s);
        SameAll(s);
        return;
      }
      AllocIs(u);
      AllocData(u);
      ghost var t := s;
      FillKeeps(t, r, Zeros());
      AdoptKeeps(Fill(t, r, Zeros()), r);
      mem := mem[r := Zeros()];
      s := Adopt(Fill(t, r, Zeros()), r);
      Adopted(u, t, r);
    }

    /** kalloc: the first page of the list, filled with junk; 0 when the list is empty. */
    method Kalloc() returns (p: nat)
      requires Valid()
      modifies this
      ensures Valid()
      ensures p == 0 <==> old(s).free == []
      ensures p == 0 ==> s == old(s)
      ensures p != 0 ==> p == old(s).free[0] && p < |old(s).mem| && s == Alloc(old(s)) && lo <= p < hi
                         && p in s.role && s.role[p] == Data(Loose) && SamePtes(old(s), s)
      ensures p != 0 ==> p < |mem| && forall i :: 0 <= i < ENTRIES ==> mem[p][i] == 0x0505_0505_0505_0505
    {
      hide Down, Up, Owning, SamePtes;
      ListWorks(s);
      var r := freelist;
      if r == 0 {
        return 0;
      }
      p := r / PGSIZE;
      AllocKeeps(s, {});
      TablesDecidePtes(s, Alloc(s));
      freelist := mem[p][0];
      mem := mem[p := Filled(5)];
      s := Alloc(s);
    }

    // kfree's writes: the page filled with junk and put in front of the list; panics exactly when
    // it is not one of the allocator's.
    method Push(p: nat) returns (panicked: bool)
      requires hi <= |mem|
      modifies this`mem, this`freelist
      ensures panicked <==> !(lo <= p < hi)
      ensures panicked ==> mem == old(mem) && freelist == old(freelist)
      ensures !panicked ==> p < |old(mem)| && mem == Pushed(old(mem), p, old(freelist)) && freelist == p * PGSIZE
    {
      if p < lo || p >= hi {
        return true;
      }
      mem := mem[p := Filled(1)];
      mem := SetEntry(mem, p, 0, freelist);
      freelist := p * PGSIZE;
      panicked := false;
    }

    /** kfree of a page nothing maps, by its address: panics exactly when that is not the start of a
        page of the allocator. */
    method Kfree(pa: nat) returns (panicked: bool)
      requires Valid() && LooseAt(s, pa / PGSIZE)
      modifies this
      ensures Valid() && (panicked <==> pa % PGSIZE != 0 || !(lo <= pa / PGSIZE < hi))
      ensures pa / PGSIZE < |old(s).mem| || panicked
      ensures s == if panicked then old(s) else Release(old(s), pa / PGSIZE)
      ensures !panicked ==> var p := pa / PGSIZE;
                            p < |mem| && forall i :: 0 < i < ENTRIES ==> mem[p][i] == 0x0101_0101_0101_0101
      ensures SamePtes(old(s), s)
    {
      hide Down, Up, Owning, Pte;
      ghost var p := pa / PGSIZE;
      if lo <= p < hi {
        ReleaseKeeps(s, {}, p);
        TablesDecidePtes(s, Release(s, p));
        ListWorks(s);
      }
      if pa % PGSIZE != 0 {
        SamePtesSelf(s);
        return true;
      }
      panicked := Push(pa / PGSIZE);
      if panicked {
        SamePtesSelf(s);
      } else {
        s := Release(s, p);
      }
    }

    // walk's else branch: kalloc, memset, and the entry that leads to the new page; 0 if kalloc fails.
    method MakeTable(p: nat, i: nat, ghost x: Place) returns (q: nat)
      requires Valid() && x in s.at && x.l > 0 && i < ENTRIES && p == s.at[x] < |s.mem| && !V(Entry(s, x, i))
      modifies this
      ensures Valid() && Quiet(old(s), s) && x in s.at && s.at[x] == p
      ensures q == 0 ==> s.free == [] && s == old(s)
      ensures q != 0 ==> Child(x, i) in s.at && s.at[Child(x, i)] == q
    {
      hide Ok, Quiet, Entry, Alloc;
      QuietSelf(s);
      ghost var u := s;
      q := Kalloc();
      if q == 0 {
        return;
      }
      NewTableKeeps(u, x, i);
      AllocIs(u);
      mem := mem[q := Zeros()];
      mem := SetEntry(mem, p, i, Make(q, 1));
      s := NewTable(u, x, i);
    }

    /** walk: where the leaf entry for vpn is; with alloc, tables are made on the way.  It panics
        beyond MAXVA. */
    method Walk(r: nat, vpn: nat, alloc: bool) returns (ok: bool, panicked: bool, p: nat, i: nat)
      requires Valid() && Root(r) in s.at
      modifies this
      ensures Valid() && Quiet(old(s), s) && i == vpn % ENTRIES
      ensures panicked <==> vpn >= MAXVPN
      ensures ok ==> !panicked && Low(r, vpn) in s.at && p == s.at[Low(r, vpn)] < |s.mem|
      ensures !ok && !panicked ==> Low(r, vpn) !in s.at
      ensures !alloc || panicked ==> s == old(s)
      ensures alloc && !ok && !panicked ==> s.free == []
    {
      hide Ok, Quiet, Entry;
      InRange(s, {}, Root(r));
      KnownUp(s, Root(r));
      p, i, ok, panicked := r, vpn % ENTRIES, true, vpn >= MAXVPN;
      QuietSelf(s);
      if panicked {
        ok := false;
        return;
      }
      var l := 2;
      ghost var x := Root(r);
      while l > 0
        invariant 0 <= l <= 2 && ok && Valid() && Quiet(old(s), s)
        invariant x == Place(r, l, Prefix(l, vpn)) && x in s.at && p == s.at[x] < |s.mem|
        invariant !alloc ==> s == old(s)
      {
        Descend(r, l, vpn);
        var e := mem[p][Px(l, vpn)];
        assert e == Entry(s, x, Px(l, vpn)) by { EntryIs(s, x, Px(l, vpn)); }
        if V(e) {
          KnownDown(s, x, Px(l, vpn));
          MakeIs(s.at[Child(x, Px(l, vpn))], 1);
          p := Ppn(e);
        } else {
          NoWay(s, x, Px(l, vpn), vpn);
          if !alloc {
            ok := false;
            return;
          }
          var was := p;
          ghost var u := s;
          p := MakeTable(was, Px(l, vpn), x);
          QuietTwice(old(s), u, s);
          if p == 0 {
            ok := false;
            return;
          }
        }
        x := Child(x, Px(l, vpn));
        InRange(s, {}, x);
        l := l - 1;
      }
    }

    /** walkaddr: the physical page of vpn if it is mapped for the user, else 0; nothing changes, and
        walk never panics. */
    method Walkaddr(r: nat, vpn: nat) returns (q: nat, panicked: bool)
      requires Valid() && Root(r) in s.at
      modifies this
      ensures Valid() && s == old(s) && !panicked
      ensures q == if vpn < MAXVPN && V(Pte(s, r, vpn)) && U(Pte(s, r, vpn)) then Ppn(Pte(s, r, vpn)) else 0
    {
      hide Ok, Quiet, Pte, V, U;
      if vpn >= MAXVPN {
        return 0, false;
      }
      var ok, p, i;
      ok, panicked, p, i := Walk(r, vpn, false);
      NotThere(s, r, vpn);
      if !ok {
        return 0, panicked;
      }
      PteIs(s, r, vpn);
      var e := mem[p][i];
      if !V(e) || !U(e) {
        return 0, panicked;
      }
      q := Ppn(e);
    }

    /** The loop of mappages: n > 0 pages from q on, mapped from vpn first on.  It stops at the first
        page it has no table for, or panics at the first that is mapped already or beyond MAXVA; the
        pages before that stay mapped. */
    method MapPages(r: nat, first: nat, n: nat, q: nat, perm: nat) returns (outcome: Outcome, ghost done: nat)
      requires Valid() && Root(r) in s.at && 0 < n && perm < 1024
      requires forall p: nat :: q <= p < q + n ==> LooseAt(s, p)
      modifies this
      ensures Valid() && done <= n && MappedFrom(old(s), s, r, first, done, q, WithV(perm))
      ensures forall v: nat :: first <= v < first + done ==> !V(Pte(old(s), r, v))
      ensures outcome.Done? ==> done == n
      ensures outcome.NoMemory? ==> done < n && s.free == [] && !V(Pte(old(s), r, first + done))
      ensures outcome.Panic? ==> done < n && (first + done >= MAXVPN || V(Pte(old(s), r, first + done)))
      ensures done > 0 ==> first + done <= MAXVPN
    {
      hide Ok, Quiet, MappedFrom, Roles, Pte, WithV;
      done := 0;
      MappedNone(s, r, first, q, WithV(perm));
      var a, pa := first, q;
      while true
        invariant Valid() && done < n && a == first + done && pa == q + done
        invariant MappedFrom(old(s), s, r, first, done, q, WithV(perm)) && Root(r) in s.at
        invariant done > 0 ==> first + done <= MAXVPN
        invariant forall v: nat :: first <= v < first + done ==> !V(Pte(old(s), r, v))
        decreases n - done
      {
        ghost var u := s;
        var ok, panicked, p, i := Walk(r, a, true);
        if panicked {
          return Panic, done;
        }
        MappedQuiet(old(s), u, s, r, first, done, q, WithV(perm));
        ghost var w := s;
        StillLoose(old(s), w, r, first, done, q, WithV(perm));
        if !ok {
          NotThere(s, r, a);
          return NoMemory, done;
        }
        PteIs(s, r, a);
        if V(mem[p][i]) {
          return Panic, done;
        }
        WithVIs(perm);
        MapKeeps(s, r, a, pa, WithV(perm));
        mem := SetEntry(mem, p, i, Make(pa, WithV(perm)));
        s := MapLeaf(s, r, a, pa, WithV(perm));
        MapIs(w, r, a, pa, WithV(perm));
        MappedOneMore(old(s), w, s, r, first, done, q, WithV(perm));
        done := done + 1;
        if a == first + n - 1 {
          return Done, done;
        }
        a := a + 1;
        pa := pa + 1;
      }
    }

    /** mappages: all pages that the size bytes from va on touch, to those from pa on; size 0 panics. */
    method Mappages(r: nat, va: nat, size: nat, pa: nat, perm: nat) returns (outcome: Outcome, ghost done: nat)
      requires Valid() && Root(r) in s.at && perm < 1024
      requires forall p: nat :: pa / PGSIZE <= p < pa / PGSIZE + Touched(va, size) ==> LooseAt(s, p)
      modifies this
      ensures size == 0 ==> outcome.Panic? && done == 0
      ensures Valid() && done <= Touched(va, size)
      ensures MappedFrom(old(s), s, r, va / PGSIZE, done, pa / PGSIZE, WithV(perm))
      ensures forall v: nat :: va / PGSIZE <= v < va / PGSIZE + done ==> !V(Pte(old(s), r, v))
      ensures outcome.Done? ==> done == Touched(va, size)
      ensures outcome.NoMemory? ==> done < Touched(va, size) && s.free == [] && !V(Pte(old(s), r, va / PGSIZE + done))
      ensures outcome.Panic? && size > 0 ==>
        done < Touched(va, size) && (va / PGSIZE + done >= MAXVPN || V(Pte(old(s), r, va / PGSIZE + done)))
      ensures done > 0 ==> va / PGSIZE + done <= MAXVPN
    {
      hide Ok, MappedFrom, Pte, WithV;
      if size == 0 {
        MappedNone(s, r, va / PGSIZE, pa / PGSIZE, WithV(perm));
        return Panic, 0;
      }
      var a, last := va / PGSIZE, (va + size - 1) / PGSIZE;
      outcome, done := MapPages(r, a, last - a + 1, pa / PGSIZE, perm);
    }

    /** The loop of uvmunmap: the entries of n pages from first on are cleared, and with doFree their
        pages go back to the list.  It panics at the first page that is beyond MAXVA, is not mapped,
        whose entry is not a leaf, or that kfree refuses. */
    method UnmapPages(r: nat, first: nat, n: nat, doFree: bool) returns (panicked: bool, ghost done: nat)
      requires Valid() && Root(r) in s.at
      modifies this
      ensures done <= n && (panicked ==> done < n && Unfit(old(s), r, first + done, doFree))
      ensures !panicked ==> Valid() && done == n && UnmappedFrom(old(s), s, r, first, n, doFree)
      ensures !panicked ==> forall v: nat :: first <= v < first + n ==> !Unfit(old(s), r, v, doFree)
    {
      hide Ok, Quiet, UnmappedFrom, Roles, Pte, Unfit;
      done := 0;
      UnmappedNone(s, r, first, doFree);
      var a := first;
      while a < first + n
        invariant Valid() && done <= n && a == first + done && Root(r) in s.at
        invariant UnmappedFrom(old(s), s, r, first, done, doFree)
        invariant forall v: nat :: first <= v < a ==> !Unfit(old(s), r, v, doFree)
      {
        Frontier(old(s), s, r, first, done, doFree);
        var ok, beyond, p, i := Walk(r, a, false);
        NotFit(s, r, a, doFree);
        if beyond {
          return true, done;
        }
        if !ok {
          NotThere(s, r, a);
          return true, done;
        }
        PteIs(s, r, a);
        var e := mem[p][i];
        if !V(e) {
          return true, done;
        }
        if Flags(e) == 1 {
          return true, done;
        }
        ghost var t := s;
        if doFree {
          InRange(s, {}, Low(r, a));
          panicked := Push(Ppn(e));
          if panicked {
            return true, done;
          }
        }
        ClearKeeps(t, r, a, doFree);
        ClearedIs(t, r, a, doFree);
        UnmappedOneMore(old(s), t, Cleared(t, r, a, doFree), r, first, done, doFree);
        mem := SetEntry(mem, p, i, 0);
        s := Cleared(t, r, a, doFree);
        done := done + 1;
        a := a + 1;
      }
      panicked := false;
    }

    /** uvmunmap: n pages from address va on; an address inside a page panics. */
    method Uvmunmap(r: nat, va: nat, n: nat, doFree: bool) returns (panicked: bool, ghost done: nat)
      requires Valid() && Root(r) in s.at
      modifies this
      ensures va % PGSIZE != 0 ==> panicked && done == 0 && s == old(s)
      ensures panicked && va % PGSIZE == 0 ==> done < n && Unfit(old(s), r, va / PGSIZE + done, doFree)
      ensures !panicked ==> Valid() && done == n && UnmappedFrom(old(s), s, r, va / PGSIZE, n, doFree)
      ensures !panicked ==> forall v: nat :: va / PGSIZE <= v < va / PGSIZE + n ==> !Unfit(old(s), r, v, doFree)
    {
      hide Ok, UnmappedFrom, Unfit;
      if va % PGSIZE != 0 {
        return true, 0;
      }
      panicked, done := UnmapPages(r, va / PGSIZE, n, doFree);
    }

    /** uvmclear: the entry loses its user flag, mapped or not; panics exactly beyond MAXVA and when
        there is no table for the page. */
    method Uvmclear(r: nat, v: nat) returns (panicked: bool)
      requires Valid() && Root(r) in s.at
      modifies this
      ensures Valid() && (panicked <==> v >= MAXVPN || Low(r, v) !in old(s).at)
      ensures panicked ==> s == old(s)
      ensures !panicked ==> OneChange(old(s), s, r, v, Make(Ppn(Pte(old(s), r, v)), NotU(Flags(Pte(old(s), r, v)))))
      ensures forall q: nat :: SameDatum(old(s), s, q)
    {
      hide Ok, Quiet, Roles, OneChange, SameDatum, Pte;
      RolesOf(s);
      SameAll(s);
      var ok, beyond, p, i := Walk(r, v, false);
      if beyond || !ok {
        return true;
      }
      PteIs(s, r, v);
      var e := mem[p][i];
      ghost var f := Make(Ppn(e), NotU(Flags(e)));
      if V(e) {
        NotUIs(e);
        FlagsKeep(s, r, v, NotU(Flags(e)));
      } else {
        StillInvalid(e);
        InvalidKeeps(s, r, v, f);
      }
      FlagsQuiet(s, r, v, f);
      mem := SetEntry(mem, p, i, Make(Ppn(e), NotU(Flags(e))));
      s := Leaf(s, r, v, f, s.role);
      panicked := false;
    }
  }

  // How many pages the size bytes from va on touch.
  function Touched(va: nat, size: nat): nat {
    if size == 0 then 0 else (va + size - 1) / PGSIZE - va / PGSIZE + 1
  }

  /** These are the pages with a byte of the range, and no others. */
  lemma TouchedExactly(va: nat, size: nat, v: nat)
    ensures va / PGSIZE <= v < va / PGSIZE + Touched(va, size)
            <==> exists a: nat :: va <= a < va + size && a / PGSIZE == v
  {
    if va / PGSIZE <= v < va / PGSIZE + Touched(va, size) {
      var a := if v == va / PGSIZE then va else v * PGSIZE;
      assert va <= a < va + size && a / PGSIZE == v;
    }
    forall a: nat | va <= a < va + size && a / PGSIZE == v
      ensures va / PGSIZE <= v < va / PGSIZE + Touched(va, size)
    {
      Ordered(va, a, va + size - 1);
    }
  }

  lemma Ordered(a: nat, b: nat, c: nat)
    requires a <= b <= c
    ensures a / PGSIZE <= b / PGSIZE <= c / PGSIZE
  {
  }

  lemma SamePtesSelf(s: Sys)
    ensures SamePtes(s, s)
  {
    hide Pte;
  }

  lemma StillInvalid(e: nat)
    requires !V(e)
    ensures !V(Make(Ppn(e), NotU(Flags(e))))
  {
  }

  // Of the pages from first on, those before last are on the list, and the others are as they were.
  predicate FreedUpTo(s: Sys, t: Sys, first: nat, last: nat, p: nat) {
    && p in s.role && p in t.role
    && t.role[p] == if first <= p < last then FreePage else s.role[p]
  }

  lemma WholePage(p: nat, end: nat)
    ensures (p + 1) * PGSIZE <= end <==> p < end / PGSIZE
  {
  }

  lemma SameAll(s: Sys)
    requires Roles(s)
    ensures forall q: nat :: SameDatum(s, s, q)
  {
  }

  // kalloc leaves every page in use as it was.
  lemma AllocData(s: Sys)
    requires Ok(s, {}) && s.free != [] && s.free[0] < |s.mem|
    ensures s.free[0] in s.role && s.role[s.free[0]].FreePage?
    ensures forall q: nat :: q != s.free[0] ==> SameDatum(s, Alloc(s), q)
  {
    hide Down, Up, Owning;
  }

  // Neither page nor table has changed but the new root.
  lemma Adopted(u: Sys, t: Sys, r: nat)
    requires r in u.role && u.role[r].FreePage? && r < |t.mem| && t.at == u.at
    requires forall q: nat :: q != r ==> SameDatum(u, t, q)
    requires Root(r) !in u.at
    ensures forall q: nat :: SameDatum(u, Adopt(Fill(t, r, Zeros()), r), q)
    ensures var a := Adopt(Fill(t, r, Zeros()), r); forall x :: x in u.at ==> x in a.at && a.at[x] == u.at[x]
  {
    var w := Adopt(Fill(t, r, Zeros()), r);
    forall q: nat ensures SameDatum(u, w, q) {
      if q != r { assert SameDatum(u, t, q); }
    }
  }

  // flags & ~PTE_U
  function NotU(flags: nat): nat {
    if flags / 16 % 2 == 1 then flags - 16 else flags
  }

  lemma FlagBits(f: nat)
    requires f < 1024 && f % 2 == 1
    ensures NotU(f) < 1024 && NotU(f) % 2 == 1 && NotU(f) / 16 % 2 == 0
  {
  }

  lemma FlagOf(ppn: nat, f: nat)
    ensures U(Make(ppn, f)) <==> f / 16 % 2 == 1
  {
    var k, m := f / 16, f % 16;
    assert f == 16 * k + m;
    var e := Make(ppn, f);
    assert e == 16 * (64 * ppn + k) + m;
    assert e / 16 == 64 * ppn + k;
  }

  lemma EntryParts(e: nat)
    requires V(e)
    ensures Flags(e) < 1024 && Flags(e) % 2 == 1 && Make(Ppn(e), Flags(e)) == e
  {
    var q, f := e / 1024, e % 1024;
    assert e == 1024 * q + f;
    var h := e / 2;
    assert e == 2 * h + 1;
    assert f == 2 * (h - 512 * q) + 1;
  }

  lemma NotUIs(e: nat)
    requires V(e)
    ensures NotU(Flags(e)) < 1024 && NotU(Flags(e)) % 2 == 1 && Make(Ppn(e), Flags(e)) == e
    ensures !U(Make(Ppn(e), NotU(Flags(e))))
  {
    hide V, U, Make, Ppn, Flags, NotU;
    EntryParts(e);
    FlagBits(Flags(e));
    FlagOf(Ppn(e), NotU(Flags(e)));
  }

  lemma FlagsQuiet(s: Sys, r: nat, v: nat, e: nat)
    requires HasLeaf(s, r, v)
    ensures forall q: nat :: SameDatum(s, Leaf(s, r, v, e, s.role), q)
  {
    hide Ok;
    RolesOf(s);
    InRange(s, {}, Low(r, v));
    DataApart(s);
  }

  /** What uvmunmap panics at. */
  ghost predicate Unfit(s: Sys, r: nat, v: nat, doFree: bool) {
    var e := Pte(s, r, v);
    v >= MAXVPN || !V(e) || Flags(e) == 1 || (doFree && !(s.lo <= Ppn(e) < s.hi))
  }

  lemma NotFit(s: Sys, r: nat, v: nat, doFree: bool)
    ensures var e := Pte(s, r, v);
            Unfit(s, r, v, doFree) <==> v >= MAXVPN || !V(e) || Flags(e) == 1 || (doFree && !(s.lo <= Ppn(e) < s.hi))
  {
  }

  /** A leaf cleared and, with doFree, its page released. */
  ghost function Cleared(s: Sys, r: nat, v: nat, doFree: bool): Sys
    requires Low(r, v) in s.at && s.at[Low(r, v)] < |s.mem|
    requires doFree ==> Ppn(Entry(s, Low(r, v), v % ENTRIES)) < |s.mem|
  {
    var t := UnmapLeaf(s, r, v);
    if doFree then Release(t, Ppn(Entry(s, Low(r, v), v % ENTRIES))) else t
  }

  /** t is s without the mappings of done pages from first on. */
  ghost predicate UnmappedFrom(s: Sys, t: Sys, r: nat, first: nat, done: nat, doFree: bool) {
    && t.lo == s.lo && t.hi == s.hi && t.at == s.at
    && (forall a: nat, b: nat :: UnmappedPte(s, t, r, first, done, a, b))
    && (forall p: nat :: UnmappedDatum(s, t, r, first, done, doFree, p))
  }

  ghost predicate UnmappedPte(s: Sys, t: Sys, r: nat, first: nat, done: nat, a: nat, b: nat) {
    Pte(t, a, b) == if a == r && first <= b < first + done then 0 else Pte(s, a, b)
  }

  // Page p is mapped by tree r from first on.
  predicate MappedIn(s: Sys, r: nat, first: nat, done: nat, p: nat) {
    IsData(s, p) && s.role[p].o.Mapped? && s.role[p].o.root == r && first <= s.role[p].o.vpn < first + done
  }

  predicate UnmappedDatum(s: Sys, t: Sys, r: nat, first: nat, done: nat, doFree: bool, p: nat) {
    && (IsData(t, p) <==> IsData(s, p) && !(doFree && MappedIn(s, r, first, done, p)))
    && (IsData(t, p) ==>
          && p < |s.mem| && p < |t.mem| && t.mem[p] == s.mem[p]
          && t.role[p] == (if MappedIn(s, r, first, done, p) then Data(Loose) else s.role[p]))
  }

  // p is nobody's, or held by the kernel and not mapped.
  predicate LooseAt(s: Sys, p: nat) {
    s.lo <= p < s.hi ==> p in s.role && s.role[p] == Data(Loose)
  }

  /** t is s with done pages from q on mapped from first on, and perhaps more tables. */
  ghost predicate MappedFrom(s: Sys, t: Sys, r: nat, first: nat, done: nat, q: nat, flags: nat) {
    && t.lo == s.lo && t.hi == s.hi && SameRoots(s, t)
    && (forall a: nat, b: nat :: MappedPte(s, t, r, first, done, q, flags, a, b))
    && (forall p: nat :: MappedDatum(s, t, r, first, done, q, p))
  }

  ghost predicate MappedPte(s: Sys, t: Sys, r: nat, first: nat, done: nat, q: nat, flags: nat, a: nat, b: nat) {
    Pte(t, a, b) == if a == r && first <= b < first + done then Make(q + (b - first), flags) else Pte(s, a, b)
  }

  predicate MappedDatum(s: Sys, t: Sys, r: nat, first: nat, done: nat, q: nat, p: nat) {
    && (IsData(s, p) <==> IsData(t, p))
    && (IsData(s, p) ==>
          && p < |s.mem| && p < |t.mem| && t.mem[p] == s.mem[p]
          && t.role[p] == (if q <= p < q + done then Data(Mapped(r, first + (p - q))) else s.role[p]))
  }

  lemma ListWorks(s: Sys)
    requires Roles(s) && FreeList(s)
    ensures s.free == [] <==> Address(s.free, 0) == 0
    ensures s.free != [] ==> s.free[0] < |s.mem| && Address(s.free, 0) / PGSIZE == s.free[0] && s.lo <= s.free[0] < s.hi
                             && s.mem[s.free[0]][0] == Address(s.free[1..], 0)
  {
    if s.free != [] {
      assert s.free[0] in s.role;
      assert Chained(s.mem, s.free, 0);
    }
  }

  lemma EntryIs(s: Sys, x: Place, i: nat)
    requires x in s.at && s.at[x] < |s.mem| && i < ENTRIES
    ensures Entry(s, x, i) == s.mem[s.at[x]][i]
  {
  }

  // Where a walk stops there is no leaf table.
  lemma NoWay(s: Sys, x: Place, i: nat, vpn: nat)
    requires Ok(s, {}) && x in s.at && x.l > 0
    requires x.l <= 2 && x == Place(x.root, x.l, Prefix(x.l, vpn)) && i == Px(x.l, vpn)
    requires vpn < MAXVPN && s.at[x] < |s.mem| && !V(Entry(s, x, i))
    ensures Low(x.root, vpn) !in s.at
  {
    hide Ok, Entry;
    NoChildYet(s, x, i);
    Descend(x.root, x.l, vpn);
    LowParent(s, x.root, vpn);
  }

  // A leaf table hangs from a level-1 table.
  lemma LowParent(s: Sys, r: nat, vpn: nat)
    requires Ok(s, {}) && vpn < MAXVPN
    ensures Low(r, vpn) in s.at ==> Place(r, 1, Prefix(1, vpn)) in s.at
  {
    hide Ok, Entry;
    if Low(r, vpn) in s.at { KnownUp(s, Low(r, vpn)); }
  }

  lemma WithVIs(perm: nat)
    requires perm < 1024
    ensures WithV(perm) < 1024 && WithV(perm) % 2 == 1
  {
  }

  lemma MappedNone(s: Sys, r: nat, first: nat, q: nat, flags: nat)
    requires Ok(s, {})
    ensures MappedFrom(s, s, r, first, 0, q, flags)
  {
    hide FreeList, Down, Up, Owning, Pte;
  }

  lemma MappedQuiet(s: Sys, t: Sys, u: Sys, r: nat, first: nat, done: nat, q: nat, flags: nat)
    requires MappedFrom(s, t, r, first, done, q, flags) && Quiet(t, u)
    ensures MappedFrom(s, u, r, first, done, q, flags)
  {
    hide Pte;
    forall a: nat, b: nat ensures MappedPte(s, u, r, first, done, q, flags, a, b) {
      assert MappedPte(s, t, r, first, done, q, flags, a, b) && Pte(u, a, b) == Pte(t, a, b);
    }
    forall p: nat ensures MappedDatum(s, u, r, first, done, q, p) {
      assert MappedDatum(s, t, r, first, done, q, p) && SameDatum(t, u, p);
    }
  }

  lemma NotThere(s: Sys, r: nat, v: nat)
    ensures Low(r, v) !in s.at ==> !V(Pte(s, r, v))
  {
  }

  lemma PteIs(s: Sys, r: nat, v: nat)
    requires Low(r, v) in s.at && s.at[Low(r, v)] < |s.mem|
    ensures Pte(s, r, v) == Entry(s, Low(r, v), v % ENTRIES) == s.mem[s.at[Low(r, v)]][v % ENTRIES]
  {
  }

  lemma StillLoose(s: Sys, t: Sys, r: nat, first: nat, done: nat, q: nat, flags: nat)
    requires MappedFrom(s, t, r, first, done, q, flags)
    ensures Pte(t, r, first + done) == Pte(s, r, first + done)
    ensures LooseAt(s, q + done) ==> LooseAt(t, q + done)
    ensures forall x: nat :: Root(x) in s.at ==> Root(x) in t.at
  {
    hide Pte;
    assert MappedPte(s, t, r, first, done, q, flags, r, first + done);
    assert MappedDatum(s, t, r, first, done, q, q + done);
  }

  lemma MappedOneMore(s: Sys, t: Sys, u: Sys, r: nat, first: nat, done: nat, q: nat, flags: nat)
    requires MappedFrom(s, t, r, first, done, q, flags) && PageMapped(t, u, r, first + done, q + done)
    requires OneChange(t, u, r, first + done, Make(q + done, flags))
    ensures MappedFrom(s, u, r, first, done + 1, q, flags)
  {
    hide Pte, Make;
    var d := done + 1;
    forall a: nat, b: nat ensures MappedPte(s, u, r, first, d, q, flags, a, b) {
      assert MappedPte(s, t, r, first, done, q, flags, a, b);
    }
    forall p: nat ensures MappedDatum(s, u, r, first, d, q, p) {
      assert MappedDatum(s, t, r, first, done, q, p);
    }
  }

  // What mapping does to the pages.
  ghost predicate PageMapped(t: Sys, u: Sys, r: nat, v: nat, q: nat) {
    && u.at == t.at && u.lo == t.lo && u.hi == t.hi && |u.mem| == |t.mem| && u.role.Keys == t.role.Keys
    && (forall p: nat :: p in t.role ==> u.role[p] == if p == q then Data(Mapped(r, v)) else t.role[p])
    && (forall p: nat :: IsData(t, p) ==> p < |t.mem| && u.mem[p] == t.mem[p])
    && (IsData(t, q) <==> q in t.role)
  }

  lemma MapIs(t: Sys, r: nat, v: nat, q: nat, flags: nat)
    requires Mappable(t, r, v, q, flags)
    ensures PageMapped(t, MapLeaf(t, r, v, q, flags), r, v, q)
  {
    hide Ok, Pte;
    RolesOf(t);
  }

  function Pushed(mem: seq<Page>, p: nat, head: nat): seq<Page>
    requires p < |mem|
  {
    SetEntry(mem[p := Filled(1)], p, 0, head)
  }

  lemma UnmappedNone(s: Sys, r: nat, first: nat, doFree: bool)
    requires Ok(s, {})
    ensures UnmappedFrom(s, s, r, first, 0, doFree)
  {
    hide FreeList, Down, Up, Owning, Pte;
  }

  lemma Frontier(s: Sys, t: Sys, r: nat, first: nat, done: nat, doFree: bool)
    requires UnmappedFrom(s, t, r, first, done, doFree)
    ensures Pte(t, r, first + done) == Pte(s, r, first + done) && t.lo == s.lo && t.hi == s.hi
    ensures Unfit(t, r, first + done, doFree) <==> Unfit(s, r, first + done, doFree)
  {
    hide Pte;
    assert UnmappedPte(s, t, r, first, done, r, first + done);
  }

  ghost predicate Clearable(s: Sys, r: nat, v: nat, doFree: bool) {
    && HasLeaf(s, r, v) && V(Pte(s, r, v)) && (doFree ==>
        s.lo <= Ppn(Pte(s, r, v)) < s.hi && Ppn(Pte(s, r, v)) < |s.mem|)
  }

  // Releasing the page and then clearing the entry comes to the same as the other way round.
  lemma EitherOrder(s: Sys, r: nat, v: nat, q: nat)
    requires Low(r, v) in s.at && s.at[Low(r, v)] < |s.mem| && q < |s.mem| && q != s.at[Low(r, v)]
    ensures SetEntry(Pushed(s.mem, q, Address(s.free, 0)), s.at[Low(r, v)], v % ENTRIES, 0)
            == Release(UnmapLeaf(s, r, v), q).mem
  {
  }

  /** Clearing a leaf, and giving its page back, keeps the invariant. */
  lemma ClearKeeps(s: Sys, r: nat, v: nat, doFree: bool)
    requires Clearable(s, r, v, doFree)
    ensures Ok(Cleared(s, r, v, doFree), {}) && OneChange(s, Cleared(s, r, v, doFree), r, v, 0)
    ensures var u := Cleared(s, r, v, doFree);
            && u.lo == s.lo && u.hi == s.hi && u.at == s.at
            && u.mem == SetEntry(if doFree then Pushed(s.mem, Ppn(Pte(s, r, v)), Address(s.free, 0)) else s.mem,
                                 s.at[Low(r, v)], v % ENTRIES, 0)
            && Address(u.free, 0) == if doFree then Ppn(Pte(s, r, v)) * PGSIZE else Address(s.free, 0)
  {
    hide Ok, Entry, Roles, FreeList, Down, Up, Owning, UnmapLeaf, Release, SamePtes;
    UnmapKeeps(s, r, v);
    ClearParts(s, r, v);
    if doFree {
      var q, t := Ppn(Pte(s, r, v)), UnmapLeaf(s, r, v);
      ReleaseKeeps(t, {}, q);
      TablesDecidePtes(t, Release(t, q));
      EitherOrder(s, r, v, q);
      ReleaseIs(t, q);
      ReleaseAt(t, q);
      OneChangeSame(s, t, Release(t, q), r, v, 0);
    }
  }

  lemma OneChangeSame(s: Sys, t: Sys, u: Sys, r: nat, v: nat, e: nat)
    requires OneChange(s, t, r, v, e) && SamePtes(t, u)
    ensures OneChange(s, u, r, v, e)
  {
    hide Pte;
  }

  lemma ReleaseAt(s: Sys, q: nat)
    requires q < |s.mem|
    ensures var t := Release(s, q); t.lo == s.lo && t.hi == s.hi && t.at == s.at
  {
  }

  lemma ClearParts(s: Sys, r: nat, v: nat)
    requires HasLeaf(s, r, v) && V(Pte(s, r, v))
    ensures var q, t := Ppn(Pte(s, r, v)), UnmapLeaf(s, r, v);
            && t.lo == s.lo && t.hi == s.hi && t.at == s.at && t.free == s.free && |t.mem| == |s.mem|
            && t.mem == SetEntry(s.mem, s.at[Low(r, v)], v % ENTRIES, 0)
            && (s.lo <= q < s.hi ==> q in t.role && t.role[q] == Data(Loose) && q != s.at[Low(r, v)])
  {
    hide Ok, Roles;
    KnownLeaf(s, Low(r, v), v % ENTRIES);
    InRange(s, {}, Low(r, v));
  }

  // What clearing does to the pages.
  ghost predicate PageCleared(s: Sys, u: Sys, r: nat, v: nat, doFree: bool) {
    var q := Ppn(Pte(s, r, v));
    && u.at == s.at && u.lo == s.lo && u.hi == s.hi && |u.mem| == |s.mem| && u.role.Keys == s.role.Keys
    && (forall p: nat :: p in s.role && p != q ==> u.role[p] == s.role[p])
    && (q in s.role ==> s.role[q] == Data(Mapped(r, v)) && u.role[q] == if doFree then FreePage else Data(Loose))
    && (forall p: nat :: IsData(s, p) && (p != q || !doFree) ==> p < |s.mem| && u.mem[p] == s.mem[p])
    && (forall p: nat :: IsData(s, p) && s.role[p].o == Mapped(r, v) ==> p == q)
  }

  lemma ClearedIs(s: Sys, r: nat, v: nat, doFree: bool)
    requires Clearable(s, r, v, doFree)
    ensures PageCleared(s, Cleared(s, r, v, doFree), r, v, doFree)
  {
    hide Ok;
    KnownLeaf(s, Low(r, v), v % ENTRIES);
    RolesOf(s);
    InRange(s, {}, Low(r, v));
    DataApart(s);
    forall p: nat | IsData(s, p) && s.role[p].o == Mapped(r, v) ensures p == Ppn(Pte(s, r, v)) { KnownOwner(s, p); }
  }

  lemma DataApart(s: Sys)
    requires Roles(s)
    ensures forall p: nat :: IsData(s, p) ==> p < |s.mem| && forall x :: x in s.at ==> s.at[x] != p
  {
  }

  lemma UnmappedOneMore(s: Sys, t: Sys, u: Sys, r: nat, first: nat, done: nat, doFree: bool)
    requires UnmappedFrom(s, t, r, first, done, doFree)
    requires PageCleared(t, u, r, first + done, doFree) && OneChange(t, u, r, first + done, 0)
    ensures UnmappedFrom(s, u, r, first, done + 1, doFree)
  {
    hide Pte, V;
    var d := done + 1;
    forall a: nat, b: nat ensures UnmappedPte(s, u, r, first, d, a, b) {
      assert UnmappedPte(s, t, r, first, done, a, b);
    }
    forall p: nat ensures UnmappedDatum(s, u, r, first, d, doFree, p) {
      assert UnmappedDatum(s, t, r, first, done, doFree, p);
    }
  }
}
