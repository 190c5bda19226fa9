/** Sv39 page tables in raw pages (section 4.4 of the RISC-V Privileged Architecture), and who has
    each page of physical memory. */
module PageTable {

  const PGSIZE: nat := 4096
  const ENTRIES: nat := 512
  const MAXVPN: nat := 0x400_0000          // MAXVA / PGSIZE

  /** 512 words of 64 bits. */
  type Page = s: seq<nat> | |s| == ENTRIES witness seq(ENTRIES, _ => 0)

  // ---- the entry format ----

  function Make(ppn: nat, flags: nat): nat {
    ppn * 1024 + flags
  }

  // PTE2PA, as a page number, and PTE_FLAGS.
  function Ppn(e: nat): nat {
    e / 1024
  }

  function Flags(e: nat): nat {
    e % 1024
  }

  // PTE_V, PTE_U, and any of PTE_R, PTE_W and PTE_X.
  predicate V(e: nat) {
    e % 2 == 1
  }

  predicate U(e: nat) {
    e / 16 % 2 == 1
  }

  predicate Rwx(e: nat) {
    e / 2 % 8 != 0
  }

  // perm | PTE_V
  function WithV(perm: nat): nat {
    if perm % 2 == 1 then perm else perm + 1
  }

  lemma MakeIs(ppn: nat, flags: nat)
    requires flags < 1024
    ensures Ppn(Make(ppn, flags)) == ppn && Flags(Make(ppn, flags)) == flags
    ensures (V(Make(ppn, flags)) <==> flags % 2 == 1)
  {
  }

  // PX: the index of page number vpn at each level.
  function Px(l: nat, vpn: nat): (i: nat)
    ensures i < ENTRIES
  {
    if l == 0 then vpn % 512 else if l == 1 then vpn / 512 % 512 else vpn / 512 / 512 % 512
  }

  // ---- tables ----

  /** A page-table page: its tree, its level, and which part of the address space it covers. */
  datatype Place = Place(root: nat, l: nat, key: nat)

  function Child(x: Place, i: nat): Place
    requires x.l > 0
  {
    Place(x.root, x.l - 1, x.key * ENTRIES + i)
  }

  function Parent(x: Place): Place {
    Place(x.root, x.l + 1, x.key / ENTRIES)
  }

  lemma Family(x: Place, i: nat)
    requires x.l > 0 && i < ENTRIES
    ensures Parent(Child(x, i)) == x && Child(x, i).key % ENTRIES == i
  {
  }

  lemma Family2(x: Place)
    ensures Child(Parent(x), x.key % ENTRIES) == x
  {
  }

  function Root(r: nat): Place {
    Place(r, 2, 0)
  }

  // The level-0 page for vpn.
  function Low(r: nat, vpn: nat): Place {
    Place(r, 0, vpn / ENTRIES)
  }

  datatype Owner = Loose | Mapped(root: nat, vpn: nat)

  /** Every allocatable page is exactly one of these. */
  datatype Role = FreePage | Table(x: Place) | Data(o: Owner)

  /** Pages lo to hi are the allocator's.  free is its list, at and role say where each
      page-table page is and what each page is for. */
  datatype Sys = Sys(lo: nat, hi: nat, mem: seq<Page>, free: seq<nat>, at: map<Place, nat>, role: map<nat, Role>)

  function Entry(s: Sys, x: Place, i: nat): nat
    requires x in s.at && s.at[x] < |s.mem| && i < ENTRIES
  {
    s.mem[s.at[x]][i]
  }

  ghost predicate Roles(s: Sys) {
    && 0 < s.lo <= s.hi <= |s.mem|
    && (forall p :: p in s.role <==> s.lo <= p < s.hi)
    && (forall x :: x in s.at ==> s.at[x] in s.role && s.role[s.at[x]] == Table(x))
    && (forall p :: p in s.role && s.role[p].Table? ==> s.role[p].x in s.at && s.at[s.role[p].x] == p)
  }

  // The list runs through the first words of its pages.
  ghost predicate FreeList(s: Sys) {
    && (forall k :: 0 <= k < |s.free| ==> s.free[k] in s.role && s.role[s.free[k]].FreePage? && s.free[k] < |s.mem|)
    && (forall k, l :: 0 <= k < l < |s.free| ==> s.free[k] != s.free[l])
    && (forall p :: p in s.role && s.role[p].FreePage? ==> p in s.free)
    && (forall k: nat :: k < |s.free| ==> Chained(s.mem, s.free, k))
  }

  predicate Chained(mem: seq<Page>, free: seq<nat>, k: nat) {
    k < |free| && free[k] < |mem| && mem[free[k]][0] == Address(free, k + 1)
  }

  function Address(free: seq<nat>, k: nat): nat {
    if k < |free| then free[k] * PGSIZE else 0
  }

  // Valid entries above level 0 lead to the table that belongs there, except where pending.
  ghost predicate Down(s: Sys, pending: set<(Place, nat)>)
    requires Roles(s)
  {
    forall x, i :: x in s.at && x.l > 0 && 0 <= i < ENTRIES && V(Entry(s, x, i)) && (x, i) !in pending ==>
      Child(x, i) in s.at && Entry(s, x, i) == Make(s.at[Child(x, i)], 1)
  }

  // Every table but a root hangs from its parent, except where pending.
  ghost predicate Up(s: Sys, pending: set<(Place, nat)>)
    requires Roles(s)
  {
    forall x :: x in s.at ==>
      && x.l <= 2
      && (x.l == 2 ==> x == Root(s.at[x]))
      && (x.l < 2 && (Parent(x), x.key % ENTRIES) !in pending ==>
          Parent(x) in s.at && V(Entry(s, Parent(x), x.key % ENTRIES)))
  }

  // A valid leaf shows a page that is not the allocator's, or one that is mapped here and nowhere else.
  ghost predicate LeavesOwned(s: Sys)
    requires Roles(s)
  {
    forall x, i :: x in s.at && x.l == 0 && 0 <= i < ENTRIES && V(Entry(s, x, i)) ==>
      var q := Ppn(Entry(s, x, i));
      !(s.lo <= q < s.hi) || s.role[q] == Data(Mapped(x.root, x.key * ENTRIES + i))
  }

  ghost predicate OwnersMapped(s: Sys)
    requires Roles(s)
  {
    forall q :: q in s.role && s.role[q].Data? && s.role[q].o.Mapped? ==>
      var o := s.role[q].o;
      Low(o.root, o.vpn) in s.at && V(Entry(s, Low(o.root, o.vpn), o.vpn % ENTRIES))
      && Ppn(Entry(s, Low(o.root, o.vpn), o.vpn % ENTRIES)) == q
  }

  ghost predicate Owning(s: Sys)
    requires Roles(s)
  {
    LeavesOwned(s) && OwnersMapped(s)
  }

  ghost predicate Ok(s: Sys, pending: set<(Place, nat)>) {
    Roles(s) && FreeList(s) && Down(s, pending) && Up(s, pending) && Owning(s)
  }

  /** The leaf entry for page vpn of tree r; 0 where there is no level-0 table. */
  ghost function Pte(s: Sys, r: nat, vpn: nat): nat {
    if Low(r, vpn) in s.at && s.at[Low(r, vpn)] < |s.mem| then Entry(s, Low(r, vpn), vpn % ENTRIES) else 0
  }

  // ---- reading ----

  lemma EntryDown(s: Sys, pending: set<(Place, nat)>, x: Place, i: nat)
    requires Ok(s, pending) && x in s.at && x.l > 0 && i < ENTRIES && (x, i) !in pending
    ensures s.at[x] < |s.mem|
    ensures V(Entry(s, x, i)) ==> Child(x, i) in s.at && Entry(s, x, i) == Make(s.at[Child(x, i)], 1)
    ensures !V(Entry(s, x, i)) ==> Child(x, i) !in s.at
  {
    Family(x, i);
    hide Owning, FreeList;
  }

  lemma InRange(s: Sys, pending: set<(Place, nat)>, x: Place)
    requires Ok(s, pending) && x in s.at
    ensures s.lo <= s.at[x] < s.hi <= |s.mem| && s.role[s.at[x]] == Table(x)
  {
    hide Owning, FreeList, Down, Up;
  }

  // ---- the steps ----

  // A page filled with one byte.
  function Filled(byte: nat): Page {
    seq(ENTRIES, _ => byte * 0x0101_0101_0101_0101)
  }

  function Zeros(): Page {
    seq(ENTRIES, _ => 0)
  }

  function SetEntry(mem: seq<Page>, p: nat, i: nat, e: nat): seq<Page>
    requires p < |mem| && i < ENTRIES
  {
    mem[p := mem[p][i := e]]
  }

  /** kalloc, when the list is not empty. */
  function Alloc(s: Sys): Sys
    requires s.free != [] && s.free[0] < |s.mem|
  {
    var p := s.free[0];
    s.(free := s.free[1..], mem := s.mem[p := Filled(5)], role := s.role[p := Data(Loose)])
  }

  /** kfree of a page that nothing maps. */
  function Release(s: Sys, p: nat): Sys
    requires p < |s.mem|
  {
    s.(free := [p] + s.free, mem := SetEntry(s.mem[p := Filled(1)], p, 0, Address(s.free, 0)),
        role := s.role[p := FreePage])
  }

  /** walk hangs the zeroed page q below x. */
  function Link(s: Sys, x: Place, i: nat, q: nat): Sys
    requires x in s.at && s.at[x] < |s.mem| && i < ENTRIES && x.l > 0
  {
    s.(mem := SetEntry(s.mem, s.at[x], i, Make(q, 1)), at := s.at[Child(x, i) := q],
        role := s.role[q := Table(Child(x, i))])
  }

  // Page q, if it is the allocator's, gets owner o.
  function Owned(s: Sys, q: nat, o: Owner): map<nat, Role> {
    if s.lo <= q < s.hi then s.role[q := Data(o)] else s.role
  }

  /** A leaf entry written to map q. */
  function MapLeaf(s: Sys, r: nat, v: nat, q: nat, flags: nat): Sys
    requires Low(r, v) in s.at && s.at[Low(r, v)] < |s.mem|
  {
    s.(mem := SetEntry(s.mem, s.at[Low(r, v)], v % ENTRIES, Make(q, flags)), role := Owned(s, q, Mapped(r, v)))
  }

  /** A leaf entry cleared. */
  function UnmapLeaf(s: Sys, r: nat, v: nat): Sys
    requires Low(r, v) in s.at && s.at[Low(r, v)] < |s.mem|
  {
    s.(mem := SetEntry(s.mem, s.at[Low(r, v)], v % ENTRIES, 0),
       role := Owned(s, Ppn(Entry(s, Low(r, v), v % ENTRIES)), Loose))
  }

  // ---- what they keep ----

  ghost predicate SamePtes(s: Sys, t: Sys) {
    forall r: nat, v: nat :: Pte(t, r, v) == Pte(s, r, v)
  }

  ghost predicate SameTables(s: Sys, t: Sys) {
    t.at == s.at && |t.mem| == |s.mem| && forall x :: x in s.at && s.at[x] < |s.mem| ==>
        t.mem[s.at[x]] == s.mem[s.at[x]]
  }

  lemma TablesDecidePtes(s: Sys, t: Sys)
    requires SameTables(s, t)
    ensures SamePtes(s, t)
  {
  }

  // As long as no table changes and nothing is mapped or unmapped, the trees stay well formed.
  ghost predicate SameMapped(s: Sys, t: Sys) {
    && t.lo == s.lo && t.hi == s.hi && t.role.Keys == s.role.Keys
    && forall q :: q in s.role ==>
         (s.role[q].Data? && s.role[q].o.Mapped? ==> t.role[q] == s.role[q])
         && (t.role[q].Data? && t.role[q].o.Mapped? ==> t.role[q] == s.role[q])
  }

  lemma EntriesKept(s: Sys, t: Sys, x: Place, i: nat)
    requires SameTables(s, t) && x in s.at && s.at[x] < |s.mem| && i < ENTRIES
    ensures Entry(t, x, i) == Entry(s, x, i)
  {
  }

  lemma TreesKept(s: Sys, t: Sys, pending: set<(Place, nat)>)
    requires Roles(s) && Roles(t) && SameTables(s, t) && SameMapped(s, t)
    requires Down(s, pending) && Up(s, pending) && Owning(s)
    ensures Down(t, pending) && Up(t, pending) && Owning(t)
  {
    hide Entry;
    forall x, i | x in s.at && 0 <= i < ENTRIES ensures Entry(t, x, i) == Entry(s, x, i) { EntriesKept(s, t, x, i); }
    DownKept(s, t, pending);
    UpKept(s, t, pending);
    OwningKept(s, t);
  }

  lemma DownKept(s: Sys, t: Sys, pending: set<(Place, nat)>)
    requires Roles(s) && Roles(t) && SameTables(s, t) && Down(s, pending)
    requires forall x, i :: x in s.at && 0 <= i < ENTRIES ==> Entry(t, x, i) == Entry(s, x, i)
    ensures Down(t, pending)
  {
    hide Entry;
  }

  lemma UpKept(s: Sys, t: Sys, pending: set<(Place, nat)>)
    requires Roles(s) && Roles(t) && SameTables(s, t) && Up(s, pending)
    requires forall x, i :: x in s.at && 0 <= i < ENTRIES ==> Entry(t, x, i) == Entry(s, x, i)
    ensures Up(t, pending)
  {
    hide Entry;
  }

  lemma OwningKept(s: Sys, t: Sys)
    requires Roles(s) && Roles(t) && SameTables(s, t) && SameMapped(s, t) && Owning(s)
    requires forall x, i :: x in s.at && 0 <= i < ENTRIES ==> Entry(t, x, i) == Entry(s, x, i)
    ensures Owning(t)
  {
    hide Entry;
  }

  // No table is in a page that is free or in use.
  lemma NotTable(s: Sys, p: nat)
    requires Roles(s) && p in s.role && !s.role[p].Table?
    ensures forall x :: x in s.at ==> s.at[x] != p
  {
  }

  lemma AllocKeeps(s: Sys, pending: set<(Place, nat)>)
    requires Ok(s, pending) && s.free != []
    ensures s.free[0] < |s.mem| && s.free[0] in s.role && s.role[s.free[0]].FreePage?
    ensures Ok(Alloc(s), pending) && SameTables(s, Alloc(s)) && SameMapped(s, Alloc(s))
  {
    hide Down, Up, Owning, Roles, FreeList, SameTables, SameMapped, Alloc;
    AllocRoles(s);
    AllocList(s);
    AllocSame(s);
    TreesKept(s, Alloc(s), pending);
  }

  lemma AllocSame(s: Sys)
    requires Roles(s) && FreeList(s) && s.free != []
    ensures s.free[0] < |s.mem| && s.free[0] in s.role && s.role[s.free[0]].FreePage?
    ensures SameTables(s, Alloc(s)) && SameMapped(s, Alloc(s))
  {
    NotTable(s, s.free[0]);
  }

  lemma AllocRoles(s: Sys)
    requires Roles(s) && FreeList(s) && s.free != []
    ensures Roles(Alloc(s))
  {
    NotTable(s, s.free[0]);
  }

  lemma AllocList(s: Sys)
    requires Roles(s) && FreeList(s) && s.free != []
    ensures FreeList(Alloc(s))
  {
    var t, p := Alloc(s), s.free[0];
    forall k | 0 <= k < |t.free| ensures t.free[k] == s.free[k + 1] && t.free[k] != p { }
    forall k: nat | k < |t.free| ensures Chained(t.mem, t.free, k) { assert Chained(s.mem, s.free, k + 1); }
    forall q | q in t.role && t.role[q].FreePage? ensures q in t.free {
      assert q in s.free && q != p;
      var k :| 0 <= k < |s.free| && s.free[k] == q;
      assert t.free[k - 1] == q;
    }
  }

  lemma ReleaseKeeps(s: Sys, pending: set<(Place, nat)>, p: nat)
    requires Ok(s, pending) && p in s.role && s.role[p] == Data(Loose)
    ensures p < |s.mem| && Ok(Release(s, p), pending) && SameTables(s, Release(s, p)) && SameMapped(s, Release(s, p))
  {
    hide Down, Up, Owning, Roles, FreeList, SameTables, SameMapped, Release;
    ReleaseRoles(s, p);
    ReleaseList(s, p);
    ReleaseSame(s, p);
    TreesKept(s, Release(s, p), pending);
  }

  lemma ReleaseSame(s: Sys, p: nat)
    requires Roles(s) && p in s.role && s.role[p] == Data(Loose)
    ensures p < |s.mem| && SameTables(s, Release(s, p)) && SameMapped(s, Release(s, p))
  {
    NotTable(s, p);
  }

  lemma ReleaseRoles(s: Sys, p: nat)
    requires Roles(s) && p in s.role && !s.role[p].Table?
    ensures p < |s.mem| && Roles(Release(s, p))
  {
    NotTable(s, p);
  }

  lemma ReleaseList(s: Sys, p: nat)
    requires Roles(s) && FreeList(s) && p in s.role && !s.role[p].FreePage?
    ensures p < |s.mem| && FreeList(Release(s, p))
  {
    assert p < |s.mem|;
    ReleaseIs(s, p);
    hide Roles, Release;
    var t := Release(s, p);
    forall k | 0 <= k < |s.free| ensures s.free[k] != p { }
    assert t.free[0] == p && Address(s.free, 0) == Address(t.free, 1);
    forall k: nat | k < |t.free| ensures Chained(t.mem, t.free, k) {
      if k > 0 { ReleasedNext(s, p, k - 1); }
    }
    forall k, l | 0 <= k < l < |t.free| ensures t.free[k] != t.free[l] {
      if k > 0 { assert t.free[k] == s.free[k - 1] && t.free[l] == s.free[l - 1]; }
    }
    forall q | q in t.role && t.role[q].FreePage? && q != p ensures q in t.free {
      assert q in s.free;
      var k :| 0 <= k < |s.free| && s.free[k] == q;
      assert t.free[k + 1] == q;
    }
  }

  lemma ReleaseIs(s: Sys, p: nat)
    requires p < |s.mem|
    ensures var t := Release(s, p);
            && t.free == [p] + s.free && t.role == s.role[p := FreePage] && |t.mem| == |s.mem|
            && t.mem[p][0] == Address(s.free, 0)
  {
  }

  // Where the tables are is no concern of the list's.
  lemma SameList(s: Sys, t: Sys)
    requires FreeList(s) && t.free == s.free && t.role == s.role && t.mem == s.mem
    ensures FreeList(t)
  {
  }

  lemma ReleasedNext(s: Sys, p: nat, k: nat)
    requires FreeList(s) && p < |s.mem| && k < |s.free| && s.free[k] != p
    ensures Chained(Release(s, p).mem, Release(s, p).free, k + 1)
  {
    assert Chained(s.mem, s.free, k);
  }

  // ---- hanging a new table ----

  ghost predicate Linkable(s: Sys, x: Place, i: nat, q: nat) {
    && Ok(s, {}) && x in s.at && x.l > 0 && i < ENTRIES && s.at[x] < |s.mem| && !V(Entry(s, x, i))
    && q in s.role && s.role[q] == Data(Loose) && q < |s.mem| && s.mem[q] == Zeros()
  }

  lemma LinkEntry(s: Sys, x: Place, i: nat, q: nat, y: Place, j: nat)
    requires Linkable(s, x, i, q) && y in Link(s, x, i, q).at && j < ENTRIES
    ensures var t := Link(s, x, i, q);
            && t.at[y] < |t.mem|
            && Entry(t, y, j) == if y == x && j == i then Make(q, 1) else if y == Child(x, i) then 0 else Entry(s, y, j)
  {
    hide Down, Up, Owning, FreeList;
    NotTable(s, q);
  }

  lemma NoChildYet(s: Sys, x: Place, i: nat)
    requires Ok(s, {}) && x in s.at && x.l > 0 && i < ENTRIES && s.at[x] < |s.mem| && !V(Entry(s, x, i))
    ensures Child(x, i) !in s.at
  {
    EntryDown(s, {}, x, i);
  }

  lemma LinkRoles(s: Sys, x: Place, i: nat, q: nat)
    requires Linkable(s, x, i, q)
    ensures Roles(Link(s, x, i, q)) && FreeList(Link(s, x, i, q))
  {
    hide Down, Up, Owning;
    NotTable(s, q);
    NoChildYet(s, x, i);
    var t := Link(s, x, i, q);
    forall k | 0 <= k < |s.free| ensures s.free[k] != q && s.free[k] != s.at[x] { }
    forall k: nat | k < |t.free| ensures Chained(t.mem, t.free, k) { assert Chained(s.mem, s.free, k); }
  }

  lemma LinkDown(s: Sys, x: Place, i: nat, q: nat)
    requires Linkable(s, x, i, q) && Roles(Link(s, x, i, q))
    ensures Down(Link(s, x, i, q), {})
  {
    hide Link, Entry, Ok;
    var t := Link(s, x, i, q);
    forall y, j | y in t.at && y.l > 0 && 0 <= j < ENTRIES && V(Entry(t, y, j))
      ensures Child(y, j) in t.at && Entry(t, y, j) == Make(t.at[Child(y, j)], 1)
    {
      LinkDownAt(s, x, i, q, y, j);
    }
  }

  lemma LinkDownAt(s: Sys, x: Place, i: nat, q: nat, y: Place, j: nat)
    requires Linkable(s, x, i, q) && y in Link(s, x, i, q).at && y.l > 0 && j < ENTRIES
    requires Link(s, x, i, q).at[y] < |Link(s, x, i, q).mem| && V(Entry(Link(s, x, i, q), y, j))
    ensures Child(y, j) in Link(s, x, i, q).at
    ensures Entry(Link(s, x, i, q), y, j) == Make(Link(s, x, i, q).at[Child(y, j)], 1)
  {
    hide Ok, Entry, Link;
    LinkEntry(s, x, i, q, y, j);
    Family(x, i);
    Family(y, j);
    LinkAt(s, x, i, q, y);
    LinkAt(s, x, i, q, Child(y, j));
    if !(y == x && j == i) {
      InRange(s, {}, y);
      LinkedElsewhere(s, x, i, q, y, j);
    }
  }

  lemma LinkedElsewhere(s: Sys, x: Place, i: nat, q: nat, y: Place, j: nat)
    requires Linkable(s, x, i, q) && y in s.at && y.l > 0 && j < ENTRIES && s.at[y] < |s.mem| && V(Entry(s, y, j))
    ensures Child(y, j) in s.at && Child(y, j) != Child(x, i) && Entry(s, y, j) == Make(s.at[Child(y, j)], 1)
  {
    hide Ok, Entry;
    KnownDown(s, y, j);
    NoChildYet(s, x, i);
  }

  lemma LinkAt(s: Sys, x: Place, i: nat, q: nat, y: Place)
    requires Linkable(s, x, i, q)
    ensures y in Link(s, x, i, q).at <==> y in s.at || y == Child(x, i)
    ensures y in Link(s, x, i, q).at ==> Link(s, x, i, q).at[y] == if y == Child(x, i) then q else s.at[y]
  {
    hide Ok, Entry;
  }

  lemma KnownDown(s: Sys, x: Place, i: nat)
    requires Ok(s, {}) && x in s.at && x.l > 0 && i < ENTRIES && s.at[x] < |s.mem| && V(Entry(s, x, i))
    ensures Child(x, i) in s.at && Entry(s, x, i) == Make(s.at[Child(x, i)], 1)
  {
    EntryDown(s, {}, x, i);
  }

  lemma LinkUp(s: Sys, x: Place, i: nat, q: nat)
    requires Linkable(s, x, i, q) && Roles(Link(s, x, i, q))
    ensures Up(Link(s, x, i, q), {})
  {
    var t := Link(s, x, i, q);
    forall y | y in t.at
      ensures y.l <= 2 && (y.l == 2 ==> y == Root(t.at[y]))
      ensures y.l < 2 ==> Parent(y) in t.at && V(Entry(t, Parent(y), y.key % ENTRIES))
    {
      LinkAt(s, x, i, q, y);
      LinkAt(s, x, i, q, Parent(y));
      Family(x, i);
      Family2(y);
      KnownUp(s, x);
      if y != Child(x, i) { KnownUp(s, y); }
      if y.l < 2 {
        if y == Child(x, i) { LinkEntry(s, x, i, q, x, i); } else { LinkEntry(s, x, i, q, Parent(y), y.key % ENTRIES); }
        MakeIs(q, 1);
      }
    }
  }

  lemma KnownUp(s: Sys, x: Place)
    requires Ok(s, {}) && x in s.at
    ensures x.l <= 2 && (x.l == 2 ==> x == Root(s.at[x]))
    ensures x.l < 2 ==> Parent(x) in s.at && s.at[Parent(x)] < |s.mem| && V(Entry(s, Parent(x), x.key % ENTRIES))
  {
    hide Entry, Owning, Down, FreeList;
  }

  lemma LinkOwning(s: Sys, x: Place, i: nat, q: nat)
    requires Linkable(s, x, i, q) && Roles(Link(s, x, i, q))
    ensures Owning(Link(s, x, i, q))
  {
    hide Down, Up, FreeList;
    var t := Link(s, x, i, q);
    NoChildYet(s, x, i);
    forall y, j | y in t.at && y.l == 0 && 0 <= j < ENTRIES && V(Entry(t, y, j))
      ensures var p := Ppn(Entry(t, y, j));
              !(t.lo <= p < t.hi) || t.role[p] == Data(Mapped(y.root, y.key * ENTRIES + j))
    {
      LinkEntry(s, x, i, q, y, j);
    }
    forall p | p in t.role && t.role[p].Data? && t.role[p].o.Mapped?
      ensures var o := t.role[p].o;
              Low(o.root, o.vpn) in t.at && V(Entry(t, Low(o.root, o.vpn), o.vpn % ENTRIES))
              && Ppn(Entry(t, Low(o.root, o.vpn), o.vpn % ENTRIES)) == p
    {
      var o := s.role[p].o;
      LinkEntry(s, x, i, q, Low(o.root, o.vpn), o.vpn % ENTRIES);
    }
  }

  /** Hanging a zeroed page keeps the invariant and every leaf entry. */
  lemma LinkKeeps(s: Sys, x: Place, i: nat, q: nat)
    requires Linkable(s, x, i, q)
    ensures Ok(Link(s, x, i, q), {}) && SamePtes(s, Link(s, x, i, q))
  {
    hide Linkable, Link, Roles, Down, Up, FreeList, Owning, SamePtes;
    LinkRoles(s, x, i, q);
    LinkDown(s, x, i, q);
    LinkUp(s, x, i, q);
    LinkOwning(s, x, i, q);
    LinkPtes(s, x, i, q);
  }

  lemma LinkPtes(s: Sys, x: Place, i: nat, q: nat)
    requires Linkable(s, x, i, q)
    ensures SamePtes(s, Link(s, x, i, q))
  {
    hide Ok;
    var t := Link(s, x, i, q);
    NoChildYet(s, x, i);
    forall r: nat, v: nat ensures Pte(t, r, v) == Pte(s, r, v) {
      if Low(r, v) in t.at { LinkEntry(s, x, i, q, Low(r, v), v % ENTRIES); }
      if Low(r, v) in s.at { InRange(s, {}, Low(r, v)); }
    }
  }

  // ---- writing a leaf ----

  // A level-0 entry written, and who has what recorded.
  function Leaf(s: Sys, r: nat, v: nat, e: nat, role: map<nat, Role>): Sys
    requires Low(r, v) in s.at && s.at[Low(r, v)] < |s.mem|
  {
    s.(mem := SetEntry(s.mem, s.at[Low(r, v)], v % ENTRIES, e), role := role)
  }

  // Only owners differ.
  ghost predicate OwnersOnly(s: Sys, role: map<nat, Role>) {
    && role.Keys == s.role.Keys
    && forall p :: p in role && (!role[p].Data? || !s.role[p].Data?) ==> role[p] == s.role[p]
  }

  ghost predicate HasLeaf(s: Sys, r: nat, v: nat) {
    Ok(s, {}) && Low(r, v) in s.at && s.at[Low(r, v)] < |s.mem|
  }

  lemma LeafEntry(s: Sys, r: nat, v: nat, e: nat, role: map<nat, Role>, y: Place, j: nat)
    requires HasLeaf(s, r, v) && y in s.at && j < ENTRIES
    ensures var t := Leaf(s, r, v, e, role);
            && t.at[y] < |t.mem|
            && Entry(t, y, j) == if y == Low(r, v) && j == v % ENTRIES then e else Entry(s, y, j)
  {
    hide Down, Up, Owning, FreeList;
  }

  lemma LeafRoles(s: Sys, r: nat, v: nat, e: nat, role: map<nat, Role>)
    requires HasLeaf(s, r, v) && OwnersOnly(s, role)
    ensures Roles(Leaf(s, r, v, e, role))
  {
    hide Down, Up, Owning, FreeList;
  }

  lemma LeafFree(s: Sys, r: nat, v: nat, e: nat, role: map<nat, Role>)
    requires HasLeaf(s, r, v) && OwnersOnly(s, role)
    ensures FreeList(Leaf(s, r, v, e, role))
  {
    hide Down, Up, Owning;
    var t := Leaf(s, r, v, e, role);
    forall k | 0 <= k < |s.free| ensures s.free[k] != s.at[Low(r, v)] { }
    forall k: nat | k < |t.free| ensures Chained(t.mem, t.free, k) { assert Chained(s.mem, s.free, k); }
  }

  lemma LeafTrees(s: Sys, r: nat, v: nat, e: nat, role: map<nat, Role>)
    requires HasLeaf(s, r, v) && OwnersOnly(s, role) && Roles(Leaf(s, r, v, e, role))
    ensures Down(Leaf(s, r, v, e, role), {}) && Up(Leaf(s, r, v, e, role), {})
  {
    hide Owning, FreeList, Leaf, OwnersOnly, Entry;
    var t := Leaf(s, r, v, e, role);
    LeafIs(s, r, v, e, role);
    forall y, j | y in s.at && y.l > 0 && 0 <= j < ENTRIES ensures Entry(t, y, j) == Entry(s, y, j) {
      LeafEntry(s, r, v, e, role, y, j);
    }
  }

  lemma LeafIs(s: Sys, r: nat, v: nat, e: nat, role: map<nat, Role>)
    requires HasLeaf(s, r, v)
    ensures var t := Leaf(s, r, v, e, role);
            t.at == s.at && t.role == role && t.lo == s.lo && t.hi == s.hi && |t.mem| == |s.mem| && t.free == s.free
  {
    hide Ok;
  }

  // What a write does to every leaf entry.
  ghost predicate OneChange(s: Sys, t: Sys, r: nat, v: nat, e: nat) {
    forall a: nat, b: nat :: Pte(t, a, b) == if a == r && b == v then e else Pte(s, a, b)
  }

  lemma LeafPtes(s: Sys, r: nat, v: nat, e: nat, role: map<nat, Role>)
    requires HasLeaf(s, r, v)
    ensures OneChange(s, Leaf(s, r, v, e, role), r, v, e)
  {
    hide Down, Up, Owning, FreeList, Entry;
    var t := Leaf(s, r, v, e, role);
    forall a: nat, b: nat ensures Pte(t, a, b) == if a == r && b == v then e else Pte(s, a, b) {
      if Low(a, b) in s.at { LeafEntry(s, r, v, e, role, Low(a, b), b % ENTRIES); }
    }
  }

  lemma KnownLeaf(s: Sys, x: Place, i: nat)
    requires Ok(s, {}) && x in s.at && s.at[x] < |s.mem| && x.l == 0 && i < ENTRIES && V(Entry(s, x, i))
    ensures var q := Ppn(Entry(s, x, i));
            s.lo <= q < s.hi ==> q in s.role && s.role[q] == Data(Mapped(x.root, x.key * ENTRIES + i))
  {
    hide Down, Up, FreeList;
  }

  lemma KnownOwner(s: Sys, q: nat)
    requires Ok(s, {}) && q in s.role && s.role[q].Data? && s.role[q].o.Mapped?
    ensures var o := s.role[q].o;
            && Low(o.root, o.vpn) in s.at && s.at[Low(o.root, o.vpn)] < |s.mem|
            && V(Entry(s, Low(o.root, o.vpn), o.vpn % ENTRIES))
                && Ppn(Entry(s, Low(o.root, o.vpn), o.vpn % ENTRIES)) == q
  {
    hide Down, Up, FreeList;
  }

  lemma SameVpn(v: nat, key: nat, i: nat)
    requires i < ENTRIES
    ensures key * ENTRIES + i == v <==> key == v / ENTRIES && i == v % ENTRIES
  {
  }

  ghost predicate Mappable(s: Sys, r: nat, v: nat, q: nat, flags: nat) {
    && HasLeaf(s, r, v) && !V(Pte(s, r, v)) && flags < 1024 && flags % 2 == 1
    && (s.lo <= q < s.hi ==> q in s.role && s.role[q] == Data(Loose))
  }

  lemma MapOwned(s: Sys, r: nat, v: nat, q: nat, flags: nat)
    requires Mappable(s, r, v, q, flags)
    ensures OwnersOnly(s, Owned(s, q, Mapped(r, v)))
  {
    hide Ok, Entry, Roles, V;
  }

  lemma MapShape(s: Sys, r: nat, v: nat, q: nat, flags: nat)
    requires Mappable(s, r, v, q, flags)
    ensures var t := MapLeaf(s, r, v, q, flags);
            Roles(t) && FreeList(t) && Down(t, {}) && Up(t, {}) && OneChange(s, t, r, v, Make(q, flags))
  {
    hide Ok, Pte, OneChange, Roles, FreeList, Down, Up, OwnersOnly;
    var e, role := Make(q, flags), Owned(s, q, Mapped(r, v));
    MapOwned(s, r, v, q, flags);
    LeafRoles(s, r, v, e, role);
    LeafFree(s, r, v, e, role);
    LeafTrees(s, r, v, e, role);
    LeafPtes(s, r, v, e, role);
    assert MapLeaf(s, r, v, q, flags) == Leaf(s, r, v, e, role);
  }

  lemma MapEntry(s: Sys, r: nat, v: nat, q: nat, flags: nat, y: Place, j: nat)
    requires Mappable(s, r, v, q, flags) && y in s.at && j < ENTRIES
    ensures var t := MapLeaf(s, r, v, q, flags);
            && t.at[y] < |t.mem|
            && Entry(t, y, j) == if y == Low(r, v) && j == v % ENTRIES then Make(q, flags) else Entry(s, y, j)
  {
    LeafEntry(s, r, v, Make(q, flags), Owned(s, q, Mapped(r, v)), y, j);
    hide Ok;
  }

  lemma MapLeaves(s: Sys, r: nat, v: nat, q: nat, flags: nat)
    requires Mappable(s, r, v, q, flags) && Roles(MapLeaf(s, r, v, q, flags))
    ensures LeavesOwned(MapLeaf(s, r, v, q, flags))
  {
    hide Ok, Entry, V, Ppn, Make;
    var t := MapLeaf(s, r, v, q, flags);
    forall x, i | x in t.at && x.l == 0 && 0 <= i < ENTRIES && V(Entry(t, x, i))
      ensures var p := Ppn(Entry(t, x, i));
              !(t.lo <= p < t.hi) || t.role[p] == Data(Mapped(x.root, x.key * ENTRIES + i))
    {
      MapEntry(s, r, v, q, flags, x, i);
      MakeIs(q, flags);
      SameVpn(v, x.key, i);
      if !(x == Low(r, v) && i == v % ENTRIES) { InRange(s, {}, x); KnownLeaf(s, x, i); }
    }
  }

  lemma MapOwners(s: Sys, r: nat, v: nat, q: nat, flags: nat)
    requires Mappable(s, r, v, q, flags) && Roles(MapLeaf(s, r, v, q, flags))
    ensures OwnersMapped(MapLeaf(s, r, v, q, flags))
  {
    hide Ok, Entry, V, Ppn, Make;
    var t := MapLeaf(s, r, v, q, flags);
    forall p | p in t.role && t.role[p].Data? && t.role[p].o.Mapped?
      ensures var o := t.role[p].o;
              Low(o.root, o.vpn) in t.at && V(Entry(t, Low(o.root, o.vpn), o.vpn % ENTRIES))
              && Ppn(Entry(t, Low(o.root, o.vpn), o.vpn % ENTRIES)) == p
    {
      var o := t.role[p].o;
      MakeIs(q, flags);
      if p != q || !(s.lo <= q < s.hi) {
        KnownOwner(s, p);
        OtherVpn(s, r, v, p);
      }
      MapEntry(s, r, v, q, flags, Low(o.root, o.vpn), o.vpn % ENTRIES);
      SameVpn(v, o.vpn / ENTRIES, o.vpn % ENTRIES);
    }
  }

  /** Mapping a page that nobody maps yet. */
  lemma MapKeeps(s: Sys, r: nat, v: nat, q: nat, flags: nat)
    requires Mappable(s, r, v, q, flags)
    ensures Ok(MapLeaf(s, r, v, q, flags), {}) && OneChange(s, MapLeaf(s, r, v, q, flags), r, v, Make(q, flags))
  {
    hide Ok, MapLeaf, OneChange, Make, Entry, Roles, FreeList, Down, Up, Owning, Pte;
    MapShape(s, r, v, q, flags);
    MapLeaves(s, r, v, q, flags);
    MapOwners(s, r, v, q, flags);
    OkIs(MapLeaf(s, r, v, q, flags));
  }

  // ---- clearing a leaf ----

  lemma UnmapOwned(s: Sys, r: nat, v: nat)
    requires HasLeaf(s, r, v) && V(Pte(s, r, v))
    ensures OwnersOnly(s, Owned(s, Ppn(Entry(s, Low(r, v), v % ENTRIES)), Loose))
  {
    hide Ok, Entry, Roles, V;
    KnownLeaf(s, Low(r, v), v % ENTRIES);
    RolesOf(s);
    RangeOf(s);
  }

  lemma RangeOf(s: Sys)
    requires Roles(s)
    ensures forall p :: p in s.role <==> s.lo <= p < s.hi
  {
  }

  lemma RolesOf(s: Sys)
    requires Ok(s, {})
    ensures Roles(s)
  {
    hide Roles, FreeList, Down, Up, Owning;
  }

  lemma UnmapShape(s: Sys, r: nat, v: nat)
    requires HasLeaf(s, r, v) && V(Pte(s, r, v))
    ensures var t := UnmapLeaf(s, r, v);
            Roles(t) && FreeList(t) && Down(t, {}) && Up(t, {}) && OneChange(s, t, r, v, 0)
  {
    hide Ok, Pte, OneChange, Roles, FreeList, Down, Up, OwnersOnly, Entry, V;
    var role := Owned(s, Ppn(Entry(s, Low(r, v), v % ENTRIES)), Loose);
    UnmapOwned(s, r, v);
    LeafRoles(s, r, v, 0, role);
    LeafFree(s, r, v, 0, role);
    LeafTrees(s, r, v, 0, role);
    LeafPtes(s, r, v, 0, role);
    assert UnmapLeaf(s, r, v) == Leaf(s, r, v, 0, role);
  }

  lemma UnmapEntry(s: Sys, r: nat, v: nat, y: Place, j: nat)
    requires HasLeaf(s, r, v) && y in s.at && j < ENTRIES
    ensures var t := UnmapLeaf(s, r, v);
            && t.at[y] < |t.mem|
            && Entry(t, y, j) == if y == Low(r, v) && j == v % ENTRIES then 0 else Entry(s, y, j)
  {
    LeafEntry(s, r, v, 0, Owned(s, Ppn(Entry(s, Low(r, v), v % ENTRIES)), Loose), y, j);
    hide Ok;
  }

  lemma UnmapLeavesAt(s: Sys, r: nat, v: nat, x: Place, i: nat)
    requires HasLeaf(s, r, v) && V(Pte(s, r, v)) && x in s.at && x.l == 0 && i < ENTRIES
    requires s.at[x] < |s.mem| && V(Entry(UnmapLeaf(s, r, v), x, i))
    ensures var t := UnmapLeaf(s, r, v);
            var p := Ppn(Entry(t, x, i));
            !(t.lo <= p < t.hi) || (p in t.role && t.role[p] == Data(Mapped(x.root, x.key * ENTRIES + i)))
  {
    hide Ok, Entry;
    UnmapEntry(s, r, v, x, i);
    KnownLeaf(s, Low(r, v), v % ENTRIES);
    SameVpn(v, x.key, i);
    SameVpn(v, v / ENTRIES, v % ENTRIES);
    KnownLeaf(s, x, i);
  }

  lemma UnmapLeaves(s: Sys, r: nat, v: nat)
    requires HasLeaf(s, r, v) && V(Pte(s, r, v)) && Roles(UnmapLeaf(s, r, v))
    ensures LeavesOwned(UnmapLeaf(s, r, v))
  {
    hide Ok, Entry, Ppn, Pte, V;
    var t := UnmapLeaf(s, r, v);
    forall x, i | x in t.at && x.l == 0 && 0 <= i < ENTRIES && V(Entry(t, x, i))
      ensures var p := Ppn(Entry(t, x, i));
              !(t.lo <= p < t.hi) || t.role[p] == Data(Mapped(x.root, x.key * ENTRIES + i))
    {
      UnmapLeavesAt(s, r, v, x, i);
    }
  }

  lemma UnmapOwners(s: Sys, r: nat, v: nat)
    requires HasLeaf(s, r, v) && V(Pte(s, r, v)) && Roles(UnmapLeaf(s, r, v))
    ensures OwnersMapped(UnmapLeaf(s, r, v))
  {
    hide Ok, Entry, Ppn, Pte;
    var t := UnmapLeaf(s, r, v);
    forall p | p in t.role && t.role[p].Data? && t.role[p].o.Mapped?
      ensures var o := t.role[p].o;
              Low(o.root, o.vpn) in t.at && V(Entry(t, Low(o.root, o.vpn), o.vpn % ENTRIES))
              && Ppn(Entry(t, Low(o.root, o.vpn), o.vpn % ENTRIES)) == p
    {
      var o := s.role[p].o;
      KnownOwner(s, p);
      UnmapEntry(s, r, v, Low(o.root, o.vpn), o.vpn % ENTRIES);
      SameVpn(v, o.vpn / ENTRIES, o.vpn % ENTRIES);
    }
  }

  /** Clearing a valid leaf: its page, if it is the allocator's, is in nobody's map any more. */
  lemma UnmapKeeps(s: Sys, r: nat, v: nat)
    requires HasLeaf(s, r, v) && V(Pte(s, r, v))
    ensures Ok(UnmapLeaf(s, r, v), {}) && OneChange(s, UnmapLeaf(s, r, v), r, v, 0)
  {
    hide Ok, UnmapLeaf, OneChange, Entry, Roles, FreeList, Down, Up, Pte;
    UnmapShape(s, r, v);
    UnmapLeaves(s, r, v);
    UnmapOwners(s, r, v);
    OkIs(UnmapLeaf(s, r, v));
  }

  // An unmapped vpn owns nothing.
  lemma OtherVpn(s: Sys, r: nat, v: nat, p: nat)
    requires HasLeaf(s, r, v) && !V(Pte(s, r, v)) && p in s.role && s.role[p].Data? && s.role[p].o.Mapped?
    ensures s.role[p].o != Mapped(r, v)
  {
    KnownOwner(s, p);
  }

  lemma OkIs(s: Sys)
    requires Roles(s) && FreeList(s) && Down(s, {}) && Up(s, {}) && Owning(s)
    ensures Ok(s, {})
  {
  }

  // ---- changing a leaf's flags ----

  /** Clearing PTE_U, or any other change of flags that leaves the page mapped. */
  lemma FlagsKeep(s: Sys, r: nat, v: nat, flags: nat)
    requires HasLeaf(s, r, v) && V(Pte(s, r, v)) && flags < 1024 && flags % 2 == 1
    ensures var e := Make(Ppn(Pte(s, r, v)), flags);
            var t := Leaf(s, r, v, e, s.role);
            Ok(t, {}) && OneChange(s, t, r, v, e)
  {
    hide Ok, OneChange, Roles, FreeList, Down, Up, Owning, Entry;
    var e := Make(Ppn(Pte(s, r, v)), flags);
    assert OwnersOnly(s, s.role);
    LeafRoles(s, r, v, e, s.role);
    LeafFree(s, r, v, e, s.role);
    LeafTrees(s, r, v, e, s.role);
    LeafPtes(s, r, v, e, s.role);
    FlagsOwning(s, r, v, flags);
    OkIs(Leaf(s, r, v, e, s.role));
  }

  lemma FlagsOwning(s: Sys, r: nat, v: nat, flags: nat)
    requires HasLeaf(s, r, v) && V(Pte(s, r, v)) && flags < 1024 && flags % 2 == 1
    requires Roles(Leaf(s, r, v, Make(Ppn(Pte(s, r, v)), flags), s.role))
    ensures Owning(Leaf(s, r, v, Make(Ppn(Pte(s, r, v)), flags), s.role))
  {
    hide Ok, Entry, V, Ppn, Make;
    var e := Make(Ppn(Pte(s, r, v)), flags);
    var t := Leaf(s, r, v, e, s.role);
    MakeIs(Ppn(Pte(s, r, v)), flags);
    forall x, i | x in t.at && x.l == 0 && 0 <= i < ENTRIES && V(Entry(t, x, i))
      ensures var p := Ppn(Entry(t, x, i));
              !(t.lo <= p < t.hi) || t.role[p] == Data(Mapped(x.root, x.key * ENTRIES + i))
    {
      InRange(s, {}, x);
      LeafEntry(s, r, v, e, s.role, x, i);
      KnownLeaf(s, x, i);
    }
    forall p | p in t.role && t.role[p].Data? && t.role[p].o.Mapped?
      ensures var o := t.role[p].o;
              Low(o.root, o.vpn) in t.at && V(Entry(t, Low(o.root, o.vpn), o.vpn % ENTRIES))
              && Ppn(Entry(t, Low(o.root, o.vpn), o.vpn % ENTRIES)) == p
    {
      var o := t.role[p].o;
      KnownOwner(s, p);
      LeafEntry(s, r, v, e, s.role, Low(o.root, o.vpn), o.vpn % ENTRIES);
    }
  }

  /** An entry that is not valid may change as long as it stays so. */
  lemma InvalidKeeps(s: Sys, r: nat, v: nat, e: nat)
    requires HasLeaf(s, r, v) && !V(Pte(s, r, v)) && !V(e)
    ensures var t := Leaf(s, r, v, e, s.role);
            Ok(t, {}) && OneChange(s, t, r, v, e)
  {
    hide Ok, OneChange, Roles, FreeList, Down, Up, Owning, Entry;
    assert OwnersOnly(s, s.role);
    LeafRoles(s, r, v, e, s.role);
    LeafFree(s, r, v, e, s.role);
    LeafTrees(s, r, v, e, s.role);
    LeafPtes(s, r, v, e, s.role);
    InvalidOwning(s, r, v, e);
    OkIs(Leaf(s, r, v, e, s.role));
  }

  lemma InvalidOwning(s: Sys, r: nat, v: nat, e: nat)
    requires HasLeaf(s, r, v) && !V(Pte(s, r, v)) && !V(e) && Roles(Leaf(s, r, v, e, s.role))
    ensures Owning(Leaf(s, r, v, e, s.role))
  {
    hide Ok, Entry, V, Ppn, Make;
    var t := Leaf(s, r, v, e, s.role);
    forall x, i | x in t.at && x.l == 0 && 0 <= i < ENTRIES && V(Entry(t, x, i))
      ensures var p := Ppn(Entry(t, x, i));
              !(t.lo <= p < t.hi) || t.role[p] == Data(Mapped(x.root, x.key * ENTRIES + i))
    {
      InRange(s, {}, x);
      LeafEntry(s, r, v, e, s.role, x, i);
      KnownLeaf(s, x, i);
    }
    forall p | p in t.role && t.role[p].Data? && t.role[p].o.Mapped?
      ensures var o := t.role[p].o;
              Low(o.root, o.vpn) in t.at && V(Entry(t, Low(o.root, o.vpn), o.vpn % ENTRIES))
              && Ppn(Entry(t, Low(o.root, o.vpn), o.vpn % ENTRIES)) == p
    {
      var o := t.role[p].o;
      KnownOwner(s, p);
      LeafEntry(s, r, v, e, s.role, Low(o.root, o.vpn), o.vpn % ENTRIES);
    }
  }

  // ---- data pages ----

  /** A page in use filled with something else. */
  function Fill(s: Sys, q: nat, x: Page): Sys
    requires q < |s.mem|
  {
    s.(mem := s.mem[q := x])
  }

  lemma FillKeeps(s: Sys, q: nat, x: Page)
    requires Ok(s, {}) && q in s.role && s.role[q].Data?
    ensures q < |s.mem| && Ok(Fill(s, q, x), {}) && SamePtes(s, Fill(s, q, x))
  {
    RolesOf(s);
    RangeOf(s);
    FillParts(s, q, x);
    hide Roles, FreeList, Down, Up, Owning, SameTables, SameMapped;
    TreesKept(s, Fill(s, q, x), {});
    TablesDecidePtes(s, Fill(s, q, x));
  }

  lemma FillParts(s: Sys, q: nat, x: Page)
    requires Ok(s, {}) && q in s.role && s.role[q].Data?
    ensures q < |s.mem| && Roles(Fill(s, q, x)) && FreeList(Fill(s, q, x))
    ensures SameTables(s, Fill(s, q, x)) && SameMapped(s, Fill(s, q, x))
  {
    hide Down, Up, Owning;
    var t := Fill(s, q, x);
    NotTable(s, q);
    forall k: nat | k < |t.free| ensures Chained(t.mem, t.free, k) { assert Chained(s.mem, s.free, k); }
  }

  // ---- what goes unseen ----

  predicate IsData(s: Sys, q: nat) {
    q in s.role && s.role[q].Data?
  }

  // Data page q is the same: role and contents.
  predicate SameDatum(s: Sys, t: Sys, q: nat) {
    && (IsData(s, q) <==> IsData(t, q))
    && (IsData(s, q) ==> t.role[q] == s.role[q] && q < |s.mem| && q < |t.mem| && t.mem[q] == s.mem[q])
  }

  ghost predicate SameRoots(s: Sys, t: Sys) {
    forall r: nat :: Root(r) in s.at <==> Root(r) in t.at
  }

  /** Page-table pages may have come from the free list; nothing else has changed. */
  ghost predicate Quiet(s: Sys, t: Sys) {
    && t.lo == s.lo && t.hi == s.hi && SamePtes(s, t) && SameRoots(s, t)
    && forall q: nat :: SameDatum(s, t, q)
  }

  lemma QuietSelf(s: Sys)
    requires Ok(s, {})
    ensures Quiet(s, s)
  {
    hide FreeList, Down, Up, Owning;
  }

  lemma QuietTwice(s: Sys, t: Sys, u: Sys)
    requires Quiet(s, t) && Quiet(t, u)
    ensures Quiet(s, u)
  {
    hide Pte;
    forall q: nat ensures SameDatum(s, u, q) {
      assert SameDatum(s, t, q) && SameDatum(t, u, q);
    }
  }

  /** A page taken from the list, zeroed, and hung below x. */
  ghost function NewTable(s: Sys, x: Place, i: nat): Sys
    requires s.free != [] && s.free[0] < |s.mem| && x in s.at && s.at[x] < |s.mem| && i < ENTRIES && x.l > 0
  {
    Link(Fill(Alloc(s), s.free[0], Zeros()), x, i, s.free[0])
  }

  lemma NewTableKeeps(s: Sys, x: Place, i: nat)
    requires Ok(s, {}) && s.free != [] && x in s.at && x.l > 0 && i < ENTRIES
    requires s.at[x] < |s.mem| && !V(Entry(s, x, i))
    ensures s.free[0] < |s.mem| && Ok(NewTable(s, x, i), {}) && Quiet(s, NewTable(s, x, i))
  {
    hide Roles, FreeList, Down, Up, Owning, SameTables, SameMapped, Pte;
    AllocKeeps(s, {});
    AllocIs(s);
    var q, t := s.free[0], Alloc(s);
    TablesDecidePtes(s, t);
    FillKeeps(t, q, Zeros());
    var u := Fill(t, q, Zeros());
    NotTableEntry(s, x, i);
    LinkKeeps(u, x, i, q);
    NewTableQuiet(s, x, i);
  }

  lemma AllocIs(s: Sys)
    requires s.free != [] && s.free[0] < |s.mem|
    ensures var t, q := Alloc(s), s.free[0];
            t.lo == s.lo && t.hi == s.hi && t.at == s.at && |t.mem| == |s.mem| && q in t.role
                && t.role[q] == Data(Loose)
  {
  }

  lemma NotTableEntry(s: Sys, x: Place, i: nat)
    requires Ok(s, {}) && s.free != [] && x in s.at && s.at[x] < |s.mem| && i < ENTRIES
    ensures s.free[0] < |s.mem|
    ensures Entry(Fill(Alloc(s), s.free[0], Zeros()), x, i) == Entry(s, x, i)
  {
    hide Down, Up, Owning;
    NotTable(s, s.free[0]);
  }

  lemma NewTableQuiet(s: Sys, x: Place, i: nat)
    requires Ok(s, {}) && s.free != [] && x in s.at && x.l > 0 && i < ENTRIES
    requires s.at[x] < |s.mem| && s.free[0] < |s.mem| && !V(Entry(s, x, i)) && SamePtes(s, NewTable(s, x, i))
    ensures Quiet(s, NewTable(s, x, i))
  {
    hide Down, Up, Owning, Pte;
    var t, p := NewTable(s, x, i), s.free[0];
    KnownUp(s, x);
    assert s.role[s.at[x]] == Table(x);
    forall q: nat ensures SameDatum(s, t, q) { }
  }
}
