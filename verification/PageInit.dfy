/** The state kinit starts from, and the root of a new page table. */
module PageInit {
  import opened PageTable

  /** Before freerange: no page is on the list, and no page is anybody's. */
  function Unclaimed(lo: nat, hi: nat, mem: seq<Page>): Sys {
    Sys(lo, hi, mem, [], map[], map p: nat | lo <= p < hi && InPool(lo, p, hi) :: Data(Loose))
  }

  predicate InPool(lo: nat, p: nat, hi: nat) {
    lo <= p < hi
  }

  lemma UnclaimedOk(lo: nat, hi: nat, mem: seq<Page>)
    requires 0 < lo <= hi <= |mem|
    ensures Ok(Unclaimed(lo, hi, mem), {})
  {
  }

  /** uvmcreate: the zeroed page q becomes the root of a tree of its own. */
  function Adopt(s: Sys, q: nat): Sys {
    s.(at := s.at[Root(q) := q], role := s.role[q := Table(Root(q))])
  }

  ghost predicate Adoptable(s: Sys, q: nat) {
    Ok(s, {}) && q in s.role && s.role[q] == Data(Loose) && q < |s.mem| && s.mem[q] == Zeros()
  }

  // A tree without a root has no tables.
  lemma NoTree(s: Sys, q: nat, x: Place)
    requires Ok(s, {}) && q in s.role && !s.role[q].Table? && x in s.at
    ensures x.root != q
  {
    hide Entry, Owning, Down, FreeList;
    KnownUp(s, x);
    if x.l < 2 {
      KnownUp(s, Parent(x));
      if x.l < 1 { KnownUp(s, Parent(Parent(x))); }
    }
  }

  lemma AdoptRoles(s: Sys, q: nat)
    requires Adoptable(s, q)
    ensures Roles(Adopt(s, q))
  {
    hide Down, Up, Owning, FreeList;
    NotTable(s, q);
    if Root(q) in s.at { NoTree(s, q, Root(q)); }
  }

  lemma AdoptList(s: Sys, q: nat)
    requires Adoptable(s, q)
    ensures FreeList(Adopt(s, q))
  {
    hide Down, Up, Owning, Roles;
    var t := Adopt(s, q);
    forall k: nat | k < |t.free| ensures Chained(t.mem, t.free, k) { assert Chained(s.mem, s.free, k); }
  }

  lemma AdoptEntry(s: Sys, q: nat, x: Place, i: nat)
    requires Adoptable(s, q) && i < ENTRIES
    ensures x in Adopt(s, q).at <==> x in s.at || x == Root(q)
    ensures x in s.at ==> x.root != q && s.at[x] < |s.mem|
    ensures x in s.at ==> Adopt(s, q).at[x] == s.at[x] && Entry(Adopt(s, q), x, i) == Entry(s, x, i)
    ensures Adopt(s, q).at[Root(q)] == q && Entry(Adopt(s, q), Root(q), i) == 0
  {
    if x in s.at {
      NoTree(s, q, x);
      InRange(s, {}, x);
    }
  }

  lemma AdoptDown(s: Sys, q: nat)
    requires Adoptable(s, q) && Roles(Adopt(s, q))
    ensures Down(Adopt(s, q), {})
  {
    hide Ok, Entry, Adopt;
    var t := Adopt(s, q);
    forall x, i | x in t.at && x.l > 0 && 0 <= i < ENTRIES && V(Entry(t, x, i))
      ensures Child(x, i) in t.at && Entry(t, x, i) == Make(t.at[Child(x, i)], 1)
    {
      AdoptEntry(s, q, x, i);
      AdoptEntry(s, q, Child(x, i), 0);
      if x in s.at { KnownDown(s, x, i); }
    }
  }

  lemma AdoptUp(s: Sys, q: nat)
    requires Adoptable(s, q) && Roles(Adopt(s, q))
    ensures Up(Adopt(s, q), {})
  {
    hide Ok, Entry, Adopt;
    var t := Adopt(s, q);
    forall x | x in t.at
      ensures x.l <= 2 && (x.l == 2 ==> x == Root(t.at[x]))
      ensures x.l < 2 ==> Parent(x) in t.at && V(Entry(t, Parent(x), x.key % ENTRIES))
    {
      AdoptEntry(s, q, x, 0);
      AdoptEntry(s, q, Parent(x), x.key % ENTRIES);
      if x in s.at { KnownUp(s, x); }
    }
  }

  lemma AdoptOwning(s: Sys, q: nat)
    requires Adoptable(s, q) && Roles(Adopt(s, q))
    ensures Owning(Adopt(s, q))
  {
    hide Ok, Entry;
    var t := Adopt(s, q);
    forall x, i | x in t.at && x.l == 0 && 0 <= i < ENTRIES && V(Entry(t, x, i))
      ensures var p := Ppn(Entry(t, x, i));
              !(t.lo <= p < t.hi) || t.role[p] == Data(Mapped(x.root, x.key * ENTRIES + i))
    {
      AdoptEntry(s, q, x, i);
      KnownLeaf(s, x, i);
    }
    forall p | p in t.role && t.role[p].Data? && t.role[p].o.Mapped?
      ensures var o := t.role[p].o;
              Low(o.root, o.vpn) in t.at && V(Entry(t, Low(o.root, o.vpn), o.vpn % ENTRIES))
              && Ppn(Entry(t, Low(o.root, o.vpn), o.vpn % ENTRIES)) == p
    {
      KnownOwner(s, p);
      AdoptEntry(s, q, Low(t.role[p].o.root, t.role[p].o.vpn), t.role[p].o.vpn % ENTRIES);
    }
  }

  lemma AdoptPte(s: Sys, q: nat, r: nat, v: nat)
    requires Adoptable(s, q)
    ensures Pte(Adopt(s, q), r, v) == Pte(s, r, v) && Pte(Adopt(s, q), q, v) == 0
  {
    hide Ok, Entry, Adopt;
    AdoptEntry(s, q, Low(r, v), v % ENTRIES);
    AdoptEntry(s, q, Low(q, v), v % ENTRIES);
    AdoptMemory(s, q);
  }

  lemma AdoptMemory(s: Sys, q: nat)
    ensures Adopt(s, q).mem == s.mem
  {
  }

  /** The new root keeps the invariant, and nothing is mapped in the new tree. */
  lemma AdoptKeeps(s: Sys, q: nat)
    requires Adoptable(s, q)
    ensures Ok(Adopt(s, q), {}) && SamePtes(s, Adopt(s, q)) && Root(q) !in s.at
    ensures forall v: nat :: Pte(Adopt(s, q), q, v) == 0
  {
    hide Down, Up, Owning, FreeList, Pte;
    AdoptRoles(s, q);
    AdoptList(s, q);
    AdoptDown(s, q);
    AdoptUp(s, q);
    AdoptOwning(s, q);
    NotTable(s, q);
    if Root(q) in s.at { NoTree(s, q, Root(q)); }
    hide Roles, Adopt;
    forall r: nat, v: nat ensures Pte(Adopt(s, q), r, v) == Pte(s, r, v) { AdoptPte(s, q, r, v); }
    forall v: nat ensures Pte(Adopt(s, q), q, v) == 0 { AdoptPte(s, q, q, v); }
  }
}
