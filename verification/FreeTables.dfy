/** vm.c's freewalk and uvmfree: giving back a whole address space. */
module FreeTables {
  import opened PageTable
  import opened Vm
  import opened UserMemory

  type Cells = set<(Place, nat)>

  /** y is x or hangs, however far, below it. */
  predicate Under(y: Place, x: Place)
    decreases x.l - y.l
  {
    y == x || (y.l < x.l && Under(Parent(y), x))
  }

  lemma {:induction false} UnderChild(y: Place, x: Place, j: nat)
    requires x.l > 0 && j < ENTRIES && Under(y, Child(x, j))
    ensures Under(y, x) && y.l < x.l
    decreases x.l - y.l
  {
    Family(x, j);
    if y != Child(x, j) { UnderChild(Parent(y), x, j); }
  }

  lemma {:induction false} UnderSome(y: Place, x: Place)
    requires Under(y, x) && y != x
    ensures exists j: nat :: j < ENTRIES && x.l > 0 && Under(y, Child(x, j))
    decreases x.l - y.l
  {
    if Parent(y) == x {
      Family2(y);
      assert Under(y, Child(x, y.key % ENTRIES));
    } else {
      UnderSome(Parent(y), x);
      var j: nat :| j < ENTRIES && Under(Parent(y), Child(x, j));
      UnderLevel(Parent(y), Child(x, j));
      assert Under(y, Child(x, j));
    }
  }

  lemma {:induction false} UnderLevel(y: Place, x: Place)
    requires Under(y, x)
    ensures y.l <= x.l && y.root == x.root
    decreases x.l - y.l
  {
    if y != x { UnderLevel(Parent(y), x); }
  }

  // Different children have nothing below both.
  lemma {:induction false} UnderOne(y: Place, x: Place, i: nat, j: nat)
    requires x.l > 0 && i < ENTRIES && j < ENTRIES && Under(y, Child(x, i)) && Under(y, Child(x, j))
    ensures i == j
    decreases x.l - y.l
  {
    Family(x, i);
    Family(x, j);
    if y.l == x.l - 1 {
      UnderTop(y, Child(x, i));
      UnderTop(y, Child(x, j));
    } else {
      UnderLevel(y, Child(x, i));
      UnderOne(Parent(y), x, i, j);
    }
  }

  lemma UnderTop(y: Place, x: Place)
    requires Under(y, x) && y.l == x.l
    ensures y == x
  {
    if y != x { UnderLevel(Parent(y), x); }
  }

  /** Every entry of the leaf tables below x is invalid or, if marked, readable, writable or
      executable. */
  ghost predicate Leaves(s: Sys, x: Place, marked: bool)
    requires Roles(s)
  {
    forall y, i :: y in s.at && y.l == 0 && 0 <= i < ENTRIES && Under(y, x) ==> LeafFits(Entry(s, y, i), marked)
  }

  predicate LeafFits(e: nat, marked: bool) {
    !V(e) || (marked && Rwx(e))
  }

  // No valid entry in any leaf table below x.
  ghost predicate NoLeaves(s: Sys, x: Place)
    requires Roles(s)
  {
    Leaves(s, x, false)
  }

  /** t is s without x's subtree; all other tables and all pages in use are as they were. */
  ghost predicate Cut(s: Sys, t: Sys, x: Place) {
    && t.lo == s.lo && t.hi == s.hi && |t.mem| == |s.mem|
    && (forall y :: y in t.at <==> y in s.at && !Under(y, x))
    && (forall y :: y in t.at ==> t.at[y] == s.at[y])
    && (forall y :: SameTable(s, t, y))
    && (forall p: nat :: SameDatum(s, t, p))
  }

  ghost predicate SameTable(s: Sys, t: Sys, y: Place) {
    y in s.at && y in t.at && s.at[y] < |s.mem| && t.at[y] < |t.mem| ==> t.mem[t.at[y]] == s.mem[s.at[y]]
  }

  // ---- waiving cells ----

  lemma MoreCells(s: Sys, pending: Cells, more: Cells)
    requires Ok(s, pending) && pending <= more
    ensures Ok(s, more)
  {
    hide FreeList, Owning, Entry;
  }

  /** The entry that led to a subtree that is gone is cleared. */
  lemma ClearCell(s: Sys, pending: Cells, x: Place, j: nat)
    requires Ok(s, pending + {(x, j)}) && x in s.at && x.l > 0
    requires j < ENTRIES && Child(x, j) !in s.at && s.at[x] < |s.mem|
    ensures var t := s.(mem := SetEntry(s.mem, s.at[x], j, 0));
            Ok(t, pending) && SamePtes(s, t) && forall p: nat :: SameDatum(s, t, p)
  {
    var t := s.(mem := SetEntry(s.mem, s.at[x], j, 0));
    CellRoles(s, pending, x, j);
    CellEntries(s, pending, x, j);
    hide Entry, FreeList, Roles;
    CellTrees(s, t, pending, x, j);
    forall r: nat, v: nat ensures Pte(t, r, v) == Pte(s, r, v) { }
  }

  lemma CellRoles(s: Sys, pending: Cells, x: Place, j: nat)
    requires Ok(s, pending + {(x, j)}) && x in s.at && j < ENTRIES && s.at[x] < |s.mem|
    ensures var t := s.(mem := SetEntry(s.mem, s.at[x], j, 0));
            Roles(t) && FreeList(t) && forall p: nat :: SameDatum(s, t, p)
  {
    hide Down, Up, Owning;
    var t := s.(mem := SetEntry(s.mem, s.at[x], j, 0));
    forall k | 0 <= k < |s.free| ensures s.free[k] != s.at[x] { }
    forall k: nat | k < |t.free| ensures Chained(t.mem, t.free, k) { assert Chained(s.mem, s.free, k); }
  }

  lemma CellEntries(s: Sys, pending: Cells, x: Place, j: nat)
    requires Ok(s, pending + {(x, j)}) && x in s.at && j < ENTRIES && s.at[x] < |s.mem|
    ensures var t := s.(mem := SetEntry(s.mem, s.at[x], j, 0));
            forall y, i :: y in s.at && 0 <= i < ENTRIES ==>
              s.at[y] < |s.mem| && Entry(t, y, i) == if y == x && i == j then 0 else Entry(s, y, i)
  {
    hide Down, Up, Owning, FreeList;
  }

  lemma CellTrees(s: Sys, t: Sys, pending: Cells, x: Place, j: nat)
    requires Ok(s, pending + {(x, j)}) && x in s.at && x.l > 0
    requires j < ENTRIES && Child(x, j) !in s.at && s.at[x] < |s.mem|
    requires t == s.(mem := t.mem) && Roles(t) && FreeList(t)
    requires forall y, i :: y in s.at && 0 <= i < ENTRIES ==>
               s.at[y] < |s.mem| && Entry(t, y, i) == if y == x && i == j then 0 else Entry(s, y, i)
    ensures Ok(t, pending)
  {
    hide Entry, FreeList;
    ZeroIsInvalid();
    forall y | y in t.at && y.l < 2 && (Parent(y), y.key % ENTRIES) !in pending
      ensures Parent(y) in t.at && V(Entry(t, Parent(y), y.key % ENTRIES))
    {
      Family2(y);
    }
  }

  // ---- giving back a table ----

  /** kfree of the table page of x. */
  ghost function Dropped(s: Sys, x: Place): Sys
    requires x in s.at && s.at[x] < |s.mem|
  {
    Release(s, s.at[x]).(at := s.at - {x})
  }

  // Nothing valid in x, nothing below it, and nothing that has to lead to it.
  ghost predicate Droppable(s: Sys, pending: Cells, x: Place) {
    && Ok(s, pending) && x in s.at && s.at[x] < |s.mem|
    && (forall i: nat :: i < ENTRIES ==> !V(Entry(s, x, i)))
    && (forall y :: y in s.at && y.l < 2 ==> Parent(y) != x)
    && (x.l == 2 || (Parent(x), x.key % ENTRIES) in pending)
  }

  lemma DropKeeps(s: Sys, pending: Cells, x: Place)
    requires Droppable(s, pending, x)
    ensures var t := Dropped(s, x);
            && Ok(t, pending) && t.lo == s.lo && t.hi == s.hi && |t.mem| == |s.mem| && t.at == s.at - {x}
            && (forall y :: SameTable(s, t, y)) && (forall p: nat :: SameDatum(s, t, p))
  {
    DropRoles(s, pending, x);
    DropEntries(s, pending, x);
    hide FreeList, Roles, Entry, Dropped;
    DropIs(s, x);
    DropTrees(s, Dropped(s, x), pending, x);
  }

  lemma DropIs(s: Sys, x: Place)
    requires x in s.at && s.at[x] < |s.mem|
    ensures var t := Dropped(s, x);
            t.lo == s.lo && t.hi == s.hi && |t.mem| == |s.mem| && t.at == s.at - {x}
                && t.role == s.role[s.at[x] := FreePage]
  {
  }

  lemma DropRoles(s: Sys, pending: Cells, x: Place)
    requires Droppable(s, pending, x)
    ensures Roles(Dropped(s, x)) && FreeList(Dropped(s, x)) && forall p: nat :: SameDatum(s, Dropped(s, x), p)
  {
    hide Down, Up, Owning, FreeList, Chained;
    InRange(s, pending, x);
    ReleaseList(s, s.at[x]);
    SameList(Release(s, s.at[x]), Dropped(s, x));
    assert forall y :: y in s.at && s.at[y] == s.at[x] ==> y == x;
  }

  lemma DropEntries(s: Sys, pending: Cells, x: Place)
    requires Droppable(s, pending, x)
    ensures var t := Dropped(s, x);
            && (forall y :: y in t.at ==> t.at[y] == s.at[y] < |s.mem| == |t.mem| && t.mem[t.at[y]] == s.mem[s.at[y]])
            && (forall y, i :: y in t.at && 0 <= i < ENTRIES ==> Entry(t, y, i) == Entry(s, y, i))
  {
    hide Down, Up, Owning, FreeList;
  }

  lemma DropTrees(s: Sys, t: Sys, pending: Cells, x: Place)
    requires Droppable(s, pending, x) && Roles(t) && FreeList(t)
    requires t.lo == s.lo && t.hi == s.hi && t.at == s.at - {x} && t.role == s.role[s.at[x] := FreePage]
    requires forall y :: y in t.at ==> t.at[y] == s.at[y] < |s.mem| == |t.mem|
    requires forall y, i :: y in t.at && 0 <= i < ENTRIES ==> Entry(t, y, i) == Entry(s, y, i)
    ensures Ok(t, pending)
  {
    hide Entry, FreeList, Down, Up, Owning, Roles;
    DropDown(s, t, pending, x);
    DropUp(s, t, pending, x);
    DropOwning(s, t, pending, x);
  }

  lemma DropDown(s: Sys, t: Sys, pending: Cells, x: Place)
    requires Droppable(s, pending, x) && Roles(t) && FreeList(t)
    requires t.lo == s.lo && t.hi == s.hi && t.at == s.at - {x} && t.role == s.role[s.at[x] := FreePage]
    requires forall y :: y in t.at ==> t.at[y] == s.at[y] < |s.mem| == |t.mem|
    requires forall y, i :: y in t.at && 0 <= i < ENTRIES ==> Entry(t, y, i) == Entry(s, y, i)
    ensures Down(t, pending)
  {
    hide Entry, FreeList, Up, Owning;
    forall y, i | y in t.at && y.l > 0 && 0 <= i < ENTRIES && V(Entry(t, y, i)) && (y, i) !in pending
      ensures Child(y, i) in t.at && Entry(t, y, i) == Make(t.at[Child(y, i)], 1)
    {
      Family(y, i);
      KnownUpTo(s, pending, y);
    }
  }

  lemma KnownUpTo(s: Sys, pending: Cells, x: Place)
    requires Ok(s, pending) && x in s.at
    ensures x.l <= 2
  {
    hide Entry, FreeList, Owning, Down;
  }

  lemma DropUp(s: Sys, t: Sys, pending: Cells, x: Place)
    requires Droppable(s, pending, x) && Roles(t) && FreeList(t)
    requires t.lo == s.lo && t.hi == s.hi && t.at == s.at - {x} && t.role == s.role[s.at[x] := FreePage]
    requires forall y :: y in t.at ==> t.at[y] == s.at[y] < |s.mem| == |t.mem|
    requires forall y, i :: y in t.at && 0 <= i < ENTRIES ==> Entry(t, y, i) == Entry(s, y, i)
    ensures Up(t, pending)
  {
    hide Entry, FreeList, Down, Owning;
  }

  lemma DropOwning(s: Sys, t: Sys, pending: Cells, x: Place)
    requires Droppable(s, pending, x) && Roles(t) && FreeList(t)
    requires t.lo == s.lo && t.hi == s.hi && t.at == s.at - {x} && t.role == s.role[s.at[x] := FreePage]
    requires forall y :: y in t.at ==> t.at[y] == s.at[y] < |s.mem| == |t.mem|
    requires forall y, i :: y in t.at && 0 <= i < ENTRIES ==> Entry(t, y, i) == Entry(s, y, i)
    ensures Owning(t)
  {
    hide Entry, FreeList, Down, Up;
  }

  // ---- freewalk ----

  /** x's subtree without what hangs from its first n entries. */
  ghost predicate Pruned(s: Sys, t: Sys, x: Place, n: nat)
    requires x.l > 0 || n == 0
  {
    && t.lo == s.lo && t.hi == s.hi && |t.mem| == |s.mem| && x in s.at && x in t.at && t.at[x] == s.at[x]
    && (forall y :: y in t.at <==> y in s.at && !Below(y, x, n))
    && (forall y :: y in t.at ==> t.at[y] == s.at[y])
    && (forall y :: y != x ==> SameTable(s, t, y))
    && (forall p: nat :: SameDatum(s, t, p))
  }

  predicate Below(y: Place, x: Place, n: nat)
    requires x.l > 0 || n == 0
  {
    exists j: nat :: j < n && Under(y, Child(x, j))
  }

  ghost predicate Held(k: Kernel, pending: Cells)
    reads k
  {
    k.s.mem == k.mem && k.s.lo == k.lo && k.s.hi == k.hi && k.freelist == Address(k.s.free, 0) && Ok(k.s, pending)
  }

  // Only cells of tables above level l are waived.
  ghost predicate Above(pending: Cells, l: nat) {
    forall c :: c in pending ==> c.0.l > l
  }

  // Where there is a table, there are all the tables it hangs from.
  lemma {:induction false} UnderIn(s: Sys, pending: Cells, y: Place, x: Place)
    requires Ok(s, pending) && Above(pending, x.l) && y in s.at && Under(y, x) && x.l < 2
    ensures x in s.at
    decreases x.l - y.l
  {
    if y != x {
      ParentIn(s, pending, y);
      UnderLevel(Parent(y), x);
      UnderIn(s, pending, Parent(y), x);
    }
  }

  lemma ParentIn(s: Sys, pending: Cells, y: Place)
    requires Ok(s, pending) && y in s.at && y.l < 2 && Above(pending, y.l + 1)
    ensures Parent(y) in s.at
  {
    hide Entry, FreeList, Owning, Down;
  }

  // An entry that is not valid leads nowhere.
  lemma NothingBelow(s: Sys, pending: Cells, x: Place, j: nat)
    requires Ok(s, pending) && Above(pending, x.l) && x in s.at && 0 < x.l <= 2 && j < ENTRIES && s.at[x] < |s.mem|
    requires !V(Entry(s, x, j))
    ensures forall y :: y in s.at ==> !Under(y, Child(x, j))
  {
    hide Ok, Entry, Under;
    EntryDown(s, pending, x, j);
    forall y | y in s.at ensures !Under(y, Child(x, j)) { UnderOut(s, pending, y, Child(x, j)); }
  }

  lemma UnderOut(s: Sys, pending: Cells, y: Place, x: Place)
    requires Ok(s, pending) && Above(pending, x.l) && y in s.at && x.l < 2 && x !in s.at
    ensures !Under(y, x)
  {
    hide Ok, Under;
    if Under(y, x) { UnderIn(s, pending, y, x); }
  }

  lemma PrunedSelf(s: Sys, pending: Cells, x: Place)
    requires Ok(s, pending) && x in s.at
    ensures Pruned(s, s, x, 0)
  {
    hide FreeList, Down, Up, Owning, Under;
  }

  // Nothing hung from entry n.
  lemma PrunedSkip(s: Sys, t: Sys, x: Place, n: nat)
    requires x.l > 0 && Pruned(s, t, x, n) && forall y :: y in t.at ==> !Under(y, Child(x, n))
    ensures Pruned(s, t, x, n + 1)
  {
    hide Under;
    var m := n + 1;
    forall y | Below(y, x, n) ensures Below(y, x, m) {
      var j: nat :| j < n && Under(y, Child(x, j));
      assert j < m;
    }
    forall y | y in t.at ensures !Below(y, x, m) {
      forall j: nat | j < m ensures !Under(y, Child(x, j)) { }
    }
    forall y | y in s.at && y !in t.at ensures Below(y, x, m) { }
  }

  // What hung from entry n is gone, and the entry cleared.
  lemma PrunedMore(s: Sys, t: Sys, u: Sys, x: Place, n: nat)
    requires x.l > 0 && Pruned(s, t, x, n) && Cut(t, u, Child(x, n)) && x in u.at
    requires u.at[x] < |u.mem| && n < ENTRIES && Roles(u)
    requires var w := u.(mem := SetEntry(u.mem, u.at[x], n, 0)); forall p: nat :: SameDatum(u, w, p)
    ensures Pruned(s, u.(mem := SetEntry(u.mem, u.at[x], n, 0)), x, n + 1)
  {
    hide Under, SetEntry, Entry;
    var w, m := u.(mem := SetEntry(u.mem, u.at[x], n, 0)), n + 1;
    OtherTables(u, x, n);
    forall y | Below(y, x, n) ensures Below(y, x, m) {
      var j: nat :| j < n && Under(y, Child(x, j));
      assert j < m;
    }
    forall y | y in w.at ensures !Below(y, x, m) {
      assert y in t.at && !Under(y, Child(x, n)) && !Below(y, x, n);
      forall j: nat | j < m ensures !Under(y, Child(x, j)) { }
    }
    forall y | y in s.at && y !in w.at ensures Below(y, x, m) {
      if y in t.at { assert Under(y, Child(x, n)); } else { assert Below(y, x, n); }
    }
    forall y | y != x ensures SameTable(s, w, y) {
      assert SameTable(s, t, y) && SameTable(t, u, y) && SameTable(u, w, y);
      assert y in w.at ==> y in t.at && t.at[y] == s.at[y] && u.at[y] == t.at[y];
    }
    forall p: nat ensures SameDatum(s, w, p) { assert SameDatum(s, t, p) && SameDatum(t, u, p) && SameDatum(u, w, p); }
  }

  lemma OtherTables(u: Sys, x: Place, n: nat)
    requires Roles(u) && x in u.at && u.at[x] < |u.mem| && n < ENTRIES
    ensures var w := u.(mem := SetEntry(u.mem, u.at[x], n, 0));
            |w.mem| == |u.mem| && forall y :: y != x ==> SameTable(u, w, y)
  {
  }

  // What holds of the leaves of a subtree holds of those that are left.
  lemma StillLeaves(s: Sys, t: Sys, x: Place, z: Place, marked: bool)
    requires Roles(s) && Roles(t) && Leaves(s, x, marked)
    requires forall y :: y in t.at ==> y in s.at && t.at[y] == s.at[y]
    requires forall y: Place :: y.l == 0 && Under(y, z) ==> SameTable(s, t, y)
    requires forall y :: Under(y, z) ==> Under(y, x)
    ensures Leaves(t, z, marked)
  {
    hide Under, LeafFits;
    forall y, i | y in t.at && y.l == 0 && 0 <= i < ENTRIES && Under(y, z) ensures LeafFits(Entry(t, y, i), marked) {
      assert SameTable(s, t, y) && Under(y, x);
      assert LeafFits(Entry(s, y, i), marked);
    }
  }

  lemma NotLeafTable(s: Sys, x: Place, i: nat)
    requires Roles(s) && Leaves(s, x, true) && x in s.at && i < ENTRIES && s.at[x] < |s.mem|
    requires V(Entry(s, x, i)) && !Rwx(Entry(s, x, i))
    ensures x.l > 0
  {
    hide Entry, V, Rwx;
    var fits := LeafFits(Entry(s, x, i), true);
  }

  // A valid entry that is no leaf leads to a table.
  lemma LeadsDown(s: Sys, pending: Cells, x: Place, i: nat)
    requires Ok(s, pending) && x in s.at && x.l <= 2 && Above(pending, x.l) && Roles(s) && Leaves(s, x, true)
    requires i < ENTRIES && s.at[x] < |s.mem| && V(Entry(s, x, i)) && !Rwx(Entry(s, x, i))
    ensures x.l > 0 && Child(x, i) in s.at && Ppn(Entry(s, x, i)) == s.at[Child(x, i)]
    ensures Ok(s, pending + {(x, i)}) && Above(pending + {(x, i)}, Child(x, i).l) && Leaves(s, Child(x, i), true)
    ensures Parent(Child(x, i)) == x && Child(x, i).key % ENTRIES == i
  {
    hide Ok, Entry, V, Rwx, Ppn, Make;
    NotLeafTable(s, x, i);
    EntryDown(s, pending, x, i);
    TableEntry(s.at[Child(x, i)]);
    MoreCells(s, pending, pending + {(x, i)});
    Family(x, i);
    ChildLeaves(s, x, i, true);
  }

  lemma ChildLeaves(s: Sys, x: Place, i: nat, marked: bool)
    requires Roles(s) && Leaves(s, x, marked) && x.l > 0 && i < ENTRIES
    ensures Leaves(s, Child(x, i), marked)
  {
    hide Entry, LeafFits;
    forall y, j | y in s.at && y.l == 0 && 0 <= j < ENTRIES && Under(y, Child(x, i))
      ensures LeafFits(Entry(s, y, j), marked)
    {
      UnderChild(y, x, i);
    }
  }

  // A valid entry that is a leaf is in a leaf table.
  lemma LeafFound(s: Sys, pending: Cells, x: Place, i: nat)
    requires Ok(s, pending) && x in s.at && x.l <= 2 && Above(pending, x.l) && Roles(s)
    requires i < ENTRIES && s.at[x] < |s.mem| && V(Entry(s, x, i)) && Rwx(Entry(s, x, i))
    ensures x.l == 0 && !NoLeaves(s, x)
  {
    hide Ok, Entry, V, Rwx, Ppn, Make;
    assert Under(x, x);
    if x.l > 0 {
      EntryDown(s, pending, x, i);
      TableEntry(s.at[Child(x, i)]);
    } else {
      assert !LeafFits(Entry(s, x, i), false);
    }
  }

  // A leaf below entry i was there at the start.
  lemma WasThere(s0: Sys, s: Sys, x: Place, i: nat)
    requires Roles(s0) && Roles(s) && x.l > 0 && i < ENTRIES && Pruned(s0, s, x, i) && !NoLeaves(s, Child(x, i))
    ensures !NoLeaves(s0, x)
  {
    hide Under, Roles;
    if NoLeaves(s0, x) {
      forall y | Under(y, Child(x, i)) ensures Under(y, x) && y != x { UnderChild(y, x, i); }
      StillLeaves(s0, s, x, Child(x, i), false);
    }
  }

  // Nothing below entry i has been cut yet.
  lemma SinceStart(s0: Sys, s: Sys, x: Place, i: nat)
    requires Roles(s0) && Roles(s) && x.l > 0 && i < ENTRIES && Pruned(s0, s, x, i) && NoLeaves(s, Child(x, i))
    ensures NoLeaves(s0, Child(x, i))
  {
    hide Under, LeafFits;
    forall y, j | y in s0.at && y.l == 0 && 0 <= j < ENTRIES && Under(y, Child(x, i))
      ensures LeafFits(Entry(s0, y, j), false)
    {
      if Below(y, x, i) {
        var n: nat :| n < i && Under(y, Child(x, n));
        UnderOne(y, x, i, n);
      }
      UnderChild(y, x, i);
      assert SameTable(s0, s, y);
      assert LeafFits(Entry(s, y, j), false);
    }
  }

  lemma NoneAnywhere(s: Sys, x: Place)
    requires Roles(s) && x in s.at
    requires x.l > 0 ==> forall i: nat :: i < ENTRIES ==> NoLeaves(s, Child(x, i))
    requires x.l == 0 ==> s.at[x] < |s.mem| && forall i: nat :: i < ENTRIES ==> !V(Entry(s, x, i))
    ensures NoLeaves(s, x)
  {
    hide Entry, V;
    forall y, j | y in s.at && y.l == 0 && 0 <= j < ENTRIES && Under(y, x) ensures LeafFits(Entry(s, y, j), false) {
      if x.l == 0 {
        UnderTop(y, x);
      } else {
        UnderSome(y, x);
        var i: nat :| i < ENTRIES && Under(y, Child(x, i));
        assert NoLeaves(s, Child(x, i));
      }
    }
  }

  // An entry that leads nowhere has no leaves below it.
  lemma EmptyBelow(s: Sys, x: Place)
    requires Roles(s) && forall y :: y in s.at ==> !Under(y, x)
    ensures NoLeaves(s, x)
  {
  }

  lemma TableEntry(q: nat)
    ensures V(Make(q, 1)) && !Rwx(Make(q, 1)) && Ppn(Make(q, 1)) == q
  {
    MakeIs(q, 1);
    assert Make(q, 1) / 2 == 8 * (q * 64);
  }

  lemma CutEntry(s: Sys, u: Sys, pending: Cells, x: Place, i: nat)
    requires Ok(u, pending + {(x, i)}) && x.l > 0 && i < ENTRIES
    requires Cut(s, u, Child(x, i)) && x in s.at && s.at[x] < |s.mem|
    ensures x in u.at && u.at[x] == s.at[x] && |u.mem| == |s.mem| && u.mem[u.at[x]] == s.mem[s.at[x]]
    ensures Child(x, i) !in u.at && Roles(u)
  {
    hide Ok, Entry;
    RolesOfAny(u, pending + {(x, i)});
    assert Under(Child(x, i), Child(x, i));
    NotUnder(x, i);
    assert SameTable(s, u, x);
  }

  lemma NotUnder(x: Place, i: nat)
    requires x.l > 0
    ensures !Under(x, Child(x, i))
  {
    if Under(x, Child(x, i)) { UnderLevel(x, Child(x, i)); }
  }

  lemma RolesOfAny(s: Sys, pending: Cells)
    requires Ok(s, pending)
    ensures Roles(s)
  {
    hide Entry;
  }

  // After the child is gone and its entry cleared.
  lemma AfterChild(s0: Sys, s: Sys, u: Sys, pending: Cells, x: Place, i: nat)
    requires Ok(s, pending) && Ok(u, pending + {(x, i)}) && Roles(s) && Leaves(s, x, true) && x.l > 0 && i < ENTRIES
    requires Pruned(s0, s, x, i) && Cut(s, u, Child(x, i)) && x in s.at && s.at[x] < |s.mem|
    requires x in u.at && u.at[x] == s.at[x] && |u.mem| == |s.mem|
    requires u.mem[u.at[x]] == s.mem[s.at[x]] && Child(x, i) !in u.at
    requires forall j: nat :: j < i ==> !V(Entry(s, x, j))
    ensures var w := u.(mem := SetEntry(u.mem, u.at[x], i, 0));
            && Ok(w, pending) && Roles(w) && Leaves(w, x, true) && Pruned(s0, w, x, i + 1)
            && |w.mem| == |s.mem| && forall j: nat :: j < i + 1 ==> !V(Entry(w, x, j))
  {
    hide Ok, Under, Roles, Leaves, Pruned;
    var w := u.(mem := SetEntry(u.mem, u.at[x], i, 0));
    RolesOfAny(u, pending + {(x, i)});
    ClearCell(u, pending, x, i);
    RolesOfAny(w, pending);
    OtherTables(u, x, i);
    PrunedMore(s0, s, u, x, i);
    forall y: Place | y.l == 0 ensures SameTable(s, w, y) { assert SameTable(s, u, y) && SameTable(u, w, y); }
    StillLeaves(s, w, x, x, true);
    ZeroIsInvalid();
    forall j: nat | j < i + 1 ensures !V(Entry(w, x, j)) {
      if j < i { assert Entry(w, x, j) == Entry(s, x, j); } else { assert Entry(w, x, j) == 0; }
    }
  }

  lemma ReadyToDrop(s0: Sys, s: Sys, pending: Cells, x: Place)
    requires Ok(s, pending) && x in s.at && s.at[x] < |s.mem| && x.l <= 2
    requires Pruned(s0, s, x, if x.l > 0 then ENTRIES else 0) && forall i: nat :: i < ENTRIES ==> !V(Entry(s, x, i))
    requires x.l == 2 || (Parent(x), x.key % ENTRIES) in pending
    ensures Droppable(s, pending, x)
  {
    hide Ok, Entry;
    forall y | y in s.at && y.l < 2 ensures Parent(y) != x { NoChildLeft(s0, s, x, y); }
  }

  lemma NoChildLeft(s0: Sys, s: Sys, x: Place, y: Place)
    requires Pruned(s0, s, x, if x.l > 0 then ENTRIES else 0) && y in s.at
    ensures Parent(y) != x
  {
    Family2(y);
    assert !Below(y, x, if x.l > 0 then ENTRIES else 0);
    if Parent(y) == x { assert Under(y, Child(x, y.key % ENTRIES)); }
  }

  lemma AllCut(s0: Sys, s: Sys, u: Sys, x: Place)
    requires Pruned(s0, s, x, if x.l > 0 then ENTRIES else 0)
    requires u.lo == s.lo && u.hi == s.hi && |u.mem| == |s.mem| && u.at == s.at - {x}
    requires (forall y :: SameTable(s, u, y)) && (forall p: nat :: SameDatum(s, u, p))
    ensures Cut(s0, u, x)
  {
    hide Under;
    var n := if x.l > 0 then ENTRIES else 0;
    forall y ensures Under(y, x) <==> y == x || Below(y, x, n) { BelowIsUnder(y, x, n); }
    forall y ensures SameTable(s0, u, y) { assert SameTable(s, u, y); if y != x { assert SameTable(s0, s, y); } }
    forall p: nat ensures SameDatum(s0, u, p) { assert SameDatum(s0, s, p) && SameDatum(s, u, p); }
  }

  lemma BelowIsUnder(y: Place, x: Place, n: nat)
    requires n == if x.l > 0 then ENTRIES else 0
    ensures Under(y, x) <==> y == x || Below(y, x, n)
  {
    if Under(y, x) && y != x { UnderSome(y, x); }
    if Below(y, x, n) {
      var j: nat :| j < n && Under(y, Child(x, j));
      UnderChild(y, x, j);
    }
  }

  /** freewalk: the page and all tables below it go back to the list; no other table, mapping or
      page in use changes.  It panics exactly when there is a valid leaf below. */
  method Freewalk(k: Kernel, p: nat, ghost x: Place, ghost pending: Cells) returns (panicked: bool)
    requires Held(k, pending) && x in k.s.at && k.s.at[x] == p && x.l <= 2 && Above(pending, x.l) && Roles(k.s)
    requires Leaves(k.s, x, true)
    requires x.l == 2 || (Parent(x), x.key % ENTRIES) in pending
    modifies k
    ensures panicked <==> !NoLeaves(old(k.s), x)
    ensures !panicked ==> Held(k, pending) && Cut(old(k.s), k.s, x)
    decreases x.l
  {
    hide Ok, NoLeaves, Leaves, Cut, Under, Pruned, Entry, Droppable, Above, Rwx, V, Ppn;
    ghost var s0 := k.s;
    InRange(k.s, pending, x);
    panicked := false;
    var i: nat := 0;
    PrunedSelf(s0, pending, x);
    while i < ENTRIES
      invariant 0 <= i <= ENTRIES && Held(k, pending) && x in k.s.at && k.s.at[x] == p < |k.mem| && Roles(k.s)
      invariant Leaves(k.s, x, true) && Pruned(s0, k.s, x, if x.l > 0 then i else 0)
      invariant forall j: nat :: j < i ==> !V(Entry(k.s, x, j))
      invariant if x.l > 0 then forall j: nat :: j < i ==> NoLeaves(s0, Child(x, j)) else k.s == s0
    {
      var pte := k.mem[p][i];
      EntryIs(k.s, x, i);
      ghost var s := k.s;
      if V(pte) && !Rwx(pte) {
        LeadsDown(s, pending, x, i);
        var child := Ppn(pte);
        panicked := Freewalk(k, child, Child(x, i), pending + {(x, i)});
        if panicked {
          WasThere(s0, s, x, i);
          return;
        }
        SinceStart(s0, s, x, i);
        ghost var u := k.s;
        CutEntry(s, u, pending, x, i);
        k.mem := SetEntry(k.mem, p, i, 0);
        k.s := u.(mem := SetEntry(u.mem, p, i, 0));
        AfterChild(s0, s, u, pending, x, i);
      } else if V(pte) {
        LeafFound(s, pending, x, i);
        return true;
      } else if x.l > 0 {
        NothingBelow(s, pending, x, i);
        EmptyBelow(s, Child(x, i));
        SinceStart(s0, s, x, i);
        PrunedSkip(s0, s, x, i);
      }
      i := i + 1;
    }
    NoneAnywhere(s0, x);
    ReadyToDrop(s0, k.s, pending, x);
    DropKeeps(k.s, pending, x);
    ghost var t := k.s;
    panicked := k.Push(p);
    k.s := Dropped(t, x);
    AllCut(s0, t, Dropped(t, x), x);
  }

  // ---- uvmfree ----

  lemma {:induction false} RootOf(s: Sys, y: Place)
    requires Ok(s, {}) && y in s.at
    ensures Under(y, Root(y.root)) && Root(y.root) in s.at
    decreases 2 - y.l
  {
    KnownUp(s, y);
    if y.l < 2 { RootOf(s, Parent(y)); }
  }

  // Page p belonged to the address space of tree r.
  predicate Of(s: Sys, r: nat, p: nat) {
    p in s.role && match s.role[p]
                   case FreePage => false
                   case Table(x) => x.root == r
                   case Data(o) => o.Mapped? && o.root == r
  }

  /** The address space of tree r is gone: each of its pages is on the free list, every other page
      is what it was, and no other tree's mapping has changed. */
  ghost predicate Gone(s: Sys, t: Sys, r: nat) {
    && t.lo == s.lo && t.hi == s.hi
    && (forall p: nat :: p in s.role ==> PageAfter(s, t, r, p))
    && (forall a: nat, b: nat :: a != r ==> Pte(t, a, b) == Pte(s, a, b))
  }

  predicate PageAfter(s: Sys, t: Sys, r: nat, p: nat) {
    p in s.role && p in t.role && t.role[p] == (if Of(s, r, p) then FreePage else s.role[p])
    && (IsData(t, p) ==> p < |s.mem| && p < |t.mem| && t.mem[p] == s.mem[p])
  }

  lemma CutGone(s: Sys, t: Sys, u: Sys, r: nat, n: nat)
    requires Ok(s, {}) && Ok(t, {}) && Ok(u, {}) && Root(r) in s.at
    requires UnmappedFrom(s, t, r, 0, n, true) && Cut(t, u, Root(r))
    requires forall v: nat :: v >= n ==> !V(Pte(s, r, v))
    ensures Gone(s, u, r)
  {
    hide Ok, Pte, Under;
    forall p: nat | p in s.role ensures PageAfter(s, u, r, p) { PageGone(s, t, u, r, n, p); }
    forall a: nat, b: nat | a != r ensures Pte(u, a, b) == Pte(s, a, b) {
      assert UnmappedPte(s, t, r, 0, n, a, b);
      OtherPte(t, u, r, a, b);
    }
  }

  lemma OtherPte(t: Sys, u: Sys, r: nat, a: nat, b: nat)
    requires Ok(t, {}) && Ok(u, {}) && Cut(t, u, Root(r)) && a != r
    ensures Pte(u, a, b) == Pte(t, a, b)
  {
    hide Ok, Under;
    if Low(a, b) in t.at {
      NotUnderRoot(Low(a, b), r);
      InRange(t, {}, Low(a, b));
      assert SameTable(t, u, Low(a, b));
    }
  }

  lemma NotUnderRoot(y: Place, r: nat)
    requires y.root != r
    ensures !Under(y, Root(r))
  {
    if Under(y, Root(r)) { UnderLevel(y, Root(r)); }
  }

  lemma PageGone(s: Sys, t: Sys, u: Sys, r: nat, n: nat, p: nat)
    requires Ok(s, {}) && Ok(t, {}) && Ok(u, {}) && p in s.role
    requires UnmappedFrom(s, t, r, 0, n, true) && Cut(t, u, Root(r))
    requires forall v: nat :: v >= n ==> !V(Pte(s, r, v))
    ensures PageAfter(s, u, r, p)
  {
    hide Ok, Pte, Under, Roles;
    RolesOf(s);
    RolesOf(t);
    RolesOf(u);
    RangeOf(s);
    RangeOf(t);
    RangeOf(u);
    assert UnmappedDatum(s, t, r, 0, n, true, p) && SameDatum(t, u, p);
    if IsData(s, p) && s.role[p].o.Mapped? { OwnerValid(s, p); }
    if s.role[p].Table? {
      var x := s.role[p].x;
      TableIs(s, p);
      if x.root == r { RootOf(t, x); } else { NotUnderRoot(x, r); TableAt(u, x); }
    }
    if u.role[p].Table? {
      TableIs(u, p);
      TableAt(s, u.role[p].x);
    }
  }

  lemma TableIs(s: Sys, p: nat)
    requires Roles(s) && p in s.role && s.role[p].Table?
    ensures s.role[p].x in s.at && s.at[s.role[p].x] == p
  {
  }

  lemma TableAt(s: Sys, x: Place)
    requires Roles(s) && x in s.at
    ensures s.at[x] in s.role && s.role[s.at[x]] == Table(x)
  {
  }

  /** What uvmfree panics at: a page below sz that cannot be unmapped, or one mapped from sz on. */
  ghost predicate Unfreeable(s: Sys, r: nat, sz: nat, v: nat) {
    if v < Pages(sz) then Unfit(s, r, v, true) else V(Pte(s, r, v))
  }

  /** uvmfree: every user page and table page of the tree goes back to the free list, once.  It panics
      exactly when a page below sz is missing or something is mapped from sz on. */
  method Uvmfree(k: Kernel, r: nat, sz: nat) returns (panicked: bool)
    requires k.Valid() && Root(r) in k.s.at
    requires forall v: nat :: LeafFits(Pte(k.s, r, v), true)
    modifies k
    ensures panicked <==> exists v: nat :: Unfreeable(old(k.s), r, sz, v)
    ensures !panicked ==> k.Valid() && Gone(old(k.s), k.s, r)
  {
    hide Ok, Pte, Unfit, UnmappedFrom, Gone, Cut, Roles, NoLeaves, Leaves, LeafFits, Pages, V;
    ghost var s := k.s;
    panicked := false;
    UnmappedNone(s, r, 0, true);
    if sz > 0 {
      ghost var done: nat;
      panicked, done := k.Uvmunmap(r, 0, Pages(sz), true);
      if panicked {
        assert Unfreeable(s, r, sz, done);
        return;
      }
    } else {
      NoPages();
    }
    ghost var t := k.s;
    RolesOf(t);
    RestMarked(s, t, r, Pages(sz));
    KnownRoot(t, r);
    panicked := Freewalk(k, r, Root(r), {});
    RestMapped(s, t, r, Pages(sz));
    if panicked {
      ghost var v: nat :| v >= Pages(sz) && V(Pte(s, r, v));
      assert Unfreeable(s, r, sz, v);
    } else {
      forall v: nat ensures !Unfreeable(s, r, sz, v) { }
      CutGone(s, t, k.s, r, Pages(sz));
    }
  }

  lemma NoPages()
    ensures Pages(0) == 0
  {
  }

  lemma KnownRoot(s: Sys, r: nat)
    requires Ok(s, {}) && Root(r) in s.at
    ensures s.at[Root(r)] == r
  {
    KnownUp(s, Root(r));
    hide Ok;
  }

  // The entries that are left after the first n pages have been unmapped.
  lemma RestMarked(s: Sys, t: Sys, r: nat, n: nat)
    requires UnmappedFrom(s, t, r, 0, n, true) && Ok(t, {}) && Roles(t) && Root(r) in s.at
    requires forall v: nat :: LeafFits(Pte(s, r, v), true)
    ensures t.at == s.at && Leaves(t, Root(r), true)
  {
    hide Ok, Pte, LeafFits;
    forall v: nat ensures LeafFits(Pte(t, r, v), true) {
      assert UnmappedPte(s, t, r, 0, n, r, v) && LeafFits(Pte(s, r, v), true);
      ZeroFits();
    }
    forall y, i: nat | y in t.at && y.l == 0 && i < ENTRIES && Under(y, Root(r))
      ensures LeafFits(Entry(t, y, i), true)
    {
      EntryIsPte(t, r, y, i);
      assert LeafFits(Pte(t, r, y.key * ENTRIES + i), true);
    }
  }

  lemma ZeroFits()
    ensures LeafFits(0, true)
  {
  }

  lemma EntryIsPte(t: Sys, r: nat, y: Place, i: nat)
    requires Ok(t, {}) && Roles(t) && y in t.at && y.l == 0 && i < ENTRIES && Under(y, Root(r))
    ensures t.at[y] < |t.mem| && Pte(t, r, y.key * ENTRIES + i) == Entry(t, y, i)
  {
    hide Ok;
    UnderLevel(y, Root(r));
    SameVpn(y.key * ENTRIES + i, y.key, i);
    assert Low(r, y.key * ENTRIES + i) == y;
    InRange(t, {}, y);
  }

  // After the first n pages have been unmapped, a leaf is left exactly where one was mapped from n on.
  lemma RestMapped(s: Sys, t: Sys, r: nat, n: nat)
    requires UnmappedFrom(s, t, r, 0, n, true) && Ok(t, {}) && Roles(t) && Root(r) in t.at
    ensures !NoLeaves(t, Root(r)) <==> exists v: nat :: v >= n && V(Pte(s, r, v))
  {
    hide Ok, Pte, V;
    if v: nat :| v >= n && V(Pte(s, r, v)) {
      assert UnmappedPte(s, t, r, 0, n, r, v);
      Mapped(t, r, v);
    }
    if !NoLeaves(t, Root(r)) {
      var y, i :| y in t.at && y.l == 0 && 0 <= i < ENTRIES && Under(y, Root(r)) && !LeafFits(Entry(t, y, i), false);
      EntryIsPte(t, r, y, i);
      var v := y.key * ENTRIES + i;
      assert UnmappedPte(s, t, r, 0, n, r, v);
      ZeroIsInvalid();
    }
  }

  lemma Mapped(t: Sys, r: nat, v: nat)
    requires Ok(t, {}) && Roles(t) && V(Pte(t, r, v))
    ensures !NoLeaves(t, Root(r))
  {
    hide Ok;
    RootOf(t, Low(r, v));
    assert !LeafFits(Entry(t, Low(r, v), v % ENTRIES), false);
  }
}
