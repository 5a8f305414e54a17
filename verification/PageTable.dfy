/** Sv39 page tables (kernel/vm.c, kernel/riscv.h): three levels of 512-entry tables in
    physical pages, and the flat map from virtual page numbers to leaf entries they stand
    for.  Entries are the 64-bit words as numbers; the macros' shifts and masks are written
    as divisions and remainders. */
module PageTable {

  const PGSIZE := 4096
  const NPTE := 512
  const PAGES := 0x400_0000     // MAXVA / PGSIZE: 2^26 virtual pages

  // ---------- Entries ----------

  /** PTE_V and PTE_U */
  predicate V(e: nat) { e % 2 == 1 }
  predicate U(e: nat) { e / 16 % 2 == 1 }

  /** PTE2PA and PTE_FLAGS */
  function PA(e: nat): nat { e / 1024 * PGSIZE }
  function Flags(e: nat): nat { e % 1024 }

  /** PA2PTE(pa) | flags */
  function Entry(pa: nat, flags: nat): nat { pa / PGSIZE * 1024 + flags }

  lemma EntryRoundTrip(pa: nat, flags: nat)
    requires pa % PGSIZE == 0 && flags < 1024
    ensures PA(Entry(pa, flags)) == pa && Flags(Entry(pa, flags)) == flags
  {
  }

  lemma EntryFlags(pa: nat, flags: nat)
    requires flags < 1024
    ensures V(Entry(pa, flags)) <==> V(flags)
    ensures U(Entry(pa, flags)) <==> U(flags)
  {
    var k := pa / PGSIZE;
    Parity(512 * k, flags);
    Parity(32 * k, flags / 16);
    Sixteenths(64 * k, flags);
    assert Entry(pa, flags) == 2 * (512 * k) + flags == 16 * (64 * k) + flags;
    assert 64 * k + flags / 16 == 2 * (32 * k) + flags / 16;
  }

  lemma Parity(a: nat, f: nat)
    ensures (2 * a + f) % 2 == f % 2
  {
  }

  lemma Sixteenths(a: nat, f: nat)
    ensures (16 * a + f) / 16 == a + f / 16
  {
  }

  /** The same on 64-bit words, for physical addresses of at most 56 bits. */
  lemma EntryBits(pa: bv64, flags: bv64)
    requires pa & 0xFFF == 0 && pa & 0xFF00_0000_0000_0000 == 0 && flags & 0x3FF == flags
    ensures var e := ((pa >> 12) << 10) | flags; ((e >> 10) << 12) == pa && e & 0x3FF == flags
  {
  }

  // ---------- Virtual page numbers ----------

  /** PX(level, va), from the page number. */
  function I2(v: nat): nat { v / 262144 % NPTE }
  function I1(v: nat): nat { v / 512 % NPTE }
  function I0(v: nat): nat { v % NPTE }

  /** The three indices determine the page. */
  lemma SplitPage(v: nat, w: nat)
    requires v < PAGES && w < PAGES
    ensures I2(v) < 256
    ensures I2(v) == I2(w) && I1(v) == I1(w) && I0(v) == I0(w) ==> v == w
  {
    assert v == v / 262144 * 262144 + v / 512 % 512 * 512 + v % 512;
    assert w == w / 262144 * 262144 + w / 512 % 512 * 512 + w % 512;
  }

  // ---------- The tree ----------

  type Tables = map<nat, seq<nat>>

  datatype Place = Root | Mid(i2: nat) | Low(i2: nat, i1: nat)

  /** Which page table a table page belongs to, where in it, and the page above it. */
  datatype Node = Node(root: nat, at: Place, parent: nat)

  function Child(p: Place, i: nat): Place {
    match p
    case Root => Mid(i)
    case Mid(j) => Low(j, i)
    case Low(_, _) => p
  }

  /** The index of a table in the page above it. */
  function Last(p: Place): nat {
    match p
    case Root => 0
    case Mid(i) => i
    case Low(_, i) => i
  }

  function Up(p: Place): Place {
    match p
    case Root => Root
    case Mid(_) => Root
    case Low(i, _) => Mid(i)
  }

  ghost predicate TableOk(ts: Tables, t: nat) {
    t in ts && |ts[t]| == NPTE && 0 < t && t % PGSIZE == 0
  }

  /** A valid entry of a non-leaf table points to the table below, and nothing else does. */
  ghost predicate DownOk(ts: Tables, place: map<nat, Node>, t: nat, i: nat)
    requires t in place && TableOk(ts, t) && i < NPTE
  {
    !place[t].at.Low? && V(ts[t][i]) ==>
      Flags(ts[t][i]) == 1 && PA(ts[t][i]) in place && place[PA(ts[t][i])] == Node(place[t].root, Child(place[t].at, i), t)
  }

  ghost predicate UpOk(ts: Tables, place: map<nat, Node>, t: nat)
    requires t in place
  {
    var n := place[t];
    if n.at.Root? then n.root == t
    else
      && (n.at.Mid? ==> n.at.i2 < NPTE / 2)
      && n.parent in place && place[n.parent].root == n.root && place[n.parent].at == Up(n.at)
      && TableOk(ts, n.parent) && Last(n.at) < NPTE && V(ts[n.parent][Last(n.at)]) && PA(ts[n.parent][Last(n.at)]) == t
  }

  /** The tables in `place` form disjoint three-level trees. */
  ghost predicate TreeOk(ts: Tables, place: map<nat, Node>) {
    && (forall t :: t in place ==> TableOk(ts, t))
    && (forall t: nat, i: nat :: t in place && i < NPTE ==> DownOk(ts, place, t, i))
    && (forall t :: t in place ==> UpOk(ts, place, t))
  }

  ghost predicate IsRoot(place: map<nat, Node>, r: nat) {
    r in place && place[r].at.Root? && place[r].root == r
  }

  /** walk without allocation: the leaf table for page v, or 0. */
  function Walk(ts: Tables, r: nat, v: nat): (low: nat) {
    var m := Step(ts, r, I2(v));
    if m == 0 then 0 else Step(ts, m, I1(v))
  }

  function Step(ts: Tables, t: nat, i: nat): (c: nat) {
    if t in ts && i < |ts[t]| && V(ts[t][i]) then PA(ts[t][i]) else 0
  }

  /** The flat map: the leaf entry of page v, 0 when no table holds one. */
  function Pte(ts: Tables, r: nat, v: nat): (e: nat) {
    var low := Walk(ts, r, v);
    if low != 0 && low in ts && I0(v) < |ts[low]| then ts[low][I0(v)] else 0
  }

  lemma StepPlace(ts: Tables, place: map<nat, Node>, t: nat, i: nat)
    requires TreeOk(ts, place) && t in place && !place[t].at.Low? && i < NPTE && Step(ts, t, i) != 0
    ensures var c := Step(ts, t, i);
            c in place && place[c] == Node(place[t].root, Child(place[t].at, i), t) && TableOk(ts, c)
  {
    assert DownOk(ts, place, t, i);
  }

  lemma WalkPlace(ts: Tables, place: map<nat, Node>, r: nat, v: nat)
    requires TreeOk(ts, place) && IsRoot(place, r) && Walk(ts, r, v) != 0
    ensures var low := Walk(ts, r, v);
            low in place && place[low].root == r && place[low].at == Low(I2(v), I1(v)) && TableOk(ts, low)
  {
    hide TreeOk; hide Step;
    StepPlace(ts, place, r, I2(v));
    StepPlace(ts, place, Step(ts, r, I2(v)), I1(v));
  }

  /** walk never gives two pages, of one table or of two, the same leaf entry. */
  lemma WalkInjective(ts: Tables, place: map<nat, Node>, r: nat, v: nat, r': nat, v': nat)
    requires TreeOk(ts, place) && IsRoot(place, r) && IsRoot(place, r') && v < PAGES && v' < PAGES
    requires Walk(ts, r, v) != 0 && Walk(ts, r', v') != 0 && (r, v) != (r', v')
    ensures (Walk(ts, r, v), I0(v)) != (Walk(ts, r', v'), I0(v'))
  {
    hide TreeOk; hide Walk; hide I0; hide I1; hide I2;
    WalkPlace(ts, place, r, v);
    WalkPlace(ts, place, r', v');
    SplitPage(v, v');
  }

  // ---------- Changing entries ----------

  function SetPte(ts: Tables, t: nat, i: nat, e: nat): (r: Tables)
    requires t in ts && i < |ts[t]|
  {
    var row: seq<nat> := ts[t][i := e];
    ts[t := row]
  }

  /** Writing a leaf entry changes the flat map of one page table at one page. */
  lemma SetLeaf(ts: Tables, place: map<nat, Node>, r: nat, v: nat, e: nat)
    requires TreeOk(ts, place) && IsRoot(place, r) && v < PAGES && Walk(ts, r, v) != 0
    ensures var low := Walk(ts, r, v);
            && low in ts && |ts[low]| == NPTE && low in place
            && var ts' := SetPte(ts, low, I0(v), e);
            && TreeOk(ts', place)
            && (forall r': nat, v': nat :: IsRoot(place, r') && v' < PAGES ==>
                  Walk(ts', r', v') == Walk(ts, r', v')
                  && Pte(ts', r', v') == if r' == r && v' == v then e else Pte(ts, r', v'))
  {
    hide I0; hide I1; hide I2;
    IndexBound(v);
    WalkPlace(ts, place, r, v);
    var low := Walk(ts, r, v);
    var ts' := SetPte(ts, low, I0(v), e);
    SetLeafTree(ts, place, low, I0(v), e);
    hide TreeOk;
    forall r': nat, v': nat | IsRoot(place, r') && v' < PAGES
      ensures Walk(ts', r', v') == Walk(ts, r', v')
      ensures Pte(ts', r', v') == if r' == r && v' == v then e else Pte(ts, r', v')
    {
      SameWalk(ts, place, low, I0(v), e, r', v');
      hide Walk;
      if Walk(ts, r', v') != 0 {
        WalkPlace(ts, place, r', v');
        if (r', v') != (r, v) {
          WalkInjective(ts, place, r, v, r', v');
        }
      }
    }
  }

  lemma IndexBound(v: nat)
    ensures I0(v) < NPTE && I1(v) < NPTE && I2(v) < NPTE
  {
  }

  lemma SetLeafTree(ts: Tables, place: map<nat, Node>, low: nat, i: nat, e: nat)
    requires TreeOk(ts, place) && low in place && place[low].at.Low? && i < NPTE
    ensures TreeOk(SetPte(ts, low, i, e), place)
  {
    hide V; hide PA; hide Flags;
    var ts' := SetPte(ts, low, i, e);
    forall t: nat, j: nat | t in place && j < NPTE
      ensures DownOk(ts', place, t, j)
    {
      assert DownOk(ts, place, t, j);
    }
    forall t | t in place
      ensures UpOk(ts', place, t)
    {
      assert UpOk(ts, place, t);
    }
  }

  lemma SameWalk(ts: Tables, place: map<nat, Node>, low: nat, i: nat, e: nat, r: nat, v: nat)
    requires TreeOk(ts, place) && low in place && place[low].at.Low? && i < NPTE && IsRoot(place, r)
    ensures low in ts && i < |ts[low]| && Walk(SetPte(ts, low, i, e), r, v) == Walk(ts, r, v)
  {
    hide TreeOk; hide I0; hide I1; hide I2; hide V; hide PA;
    IndexBound(v);
    assert TableOk(ts, low) by { TableIs(ts, place, low); }
    var m := Step(ts, r, I2(v));
    if m != 0 {
      StepPlace(ts, place, r, I2(v));
    }
  }

  lemma TableIs(ts: Tables, place: map<nat, Node>, t: nat)
    requires TreeOk(ts, place) && t in place
    ensures TableOk(ts, t)
  {
  }

  function EmptyTable(): (t: seq<nat>)
    ensures |t| == NPTE && forall i :: 0 <= i < NPTE ==> t[i] == 0
  {
    seq(NPTE, _ => 0)
  }

  function Hang(ts: Tables, t: nat, i: nat, c: nat): (r: Tables)
    requires t in ts && i < |ts[t]|
  {
    SetPte(ts, t, i, Entry(c, 1))[c := EmptyTable()]
  }

  ghost function HangPlace(place: map<nat, Node>, t: nat, i: nat, c: nat): map<nat, Node>
    requires t in place
  {
    place[c := Node(place[t].root, Child(place[t].at, i), t)]
  }

  /** walk's allocation step: an empty table hung below an invalid entry maps nothing. */
  lemma HangOk(ts: Tables, place: map<nat, Node>, t: nat, i: nat, c: nat)
    requires TreeOk(ts, place) && t in place && !place[t].at.Low? && i < NPTE && !V(ts[t][i])
    requires c !in ts && 0 < c && c % PGSIZE == 0
    requires place[t].at.Root? ==> i < NPTE / 2
    ensures TreeOk(Hang(ts, t, i, c), HangPlace(place, t, i, c))
    ensures forall r: nat, v: nat :: IsRoot(place, r) ==> Pte(Hang(ts, t, i, c), r, v) == Pte(ts, r, v)
    ensures forall r: nat :: IsRoot(HangPlace(place, t, i, c), r) <==> IsRoot(place, r)
    ensures Step(Hang(ts, t, i, c), t, i) == c
  {
    EntryRoundTrip(c, 1);
    EntryFlags(c, 1);
    assert t != c && c !in place;
    HangTree(ts, place, t, i, c);
    hide TreeOk; hide Entry; hide V; hide PA; hide Flags;
    forall r: nat, v: nat | IsRoot(place, r)
      ensures Pte(Hang(ts, t, i, c), r, v) == Pte(ts, r, v)
    {
      HangPte(ts, place, t, i, c, r, v);
    }
  }

  lemma HangTree(ts: Tables, place: map<nat, Node>, t: nat, i: nat, c: nat)
    requires TreeOk(ts, place) && t in place && !place[t].at.Low? && i < NPTE && !V(ts[t][i])
    requires c !in ts && c !in place && 0 < c && c % PGSIZE == 0
    requires V(Entry(c, 1)) && PA(Entry(c, 1)) == c && Flags(Entry(c, 1)) == 1
    requires place[t].at.Root? ==> i < NPTE / 2
    ensures TreeOk(Hang(ts, t, i, c), HangPlace(place, t, i, c))
  {
    assert !V(0);
    hide V; hide PA; hide Flags; hide Entry;
    var ts', place' := Hang(ts, t, i, c), HangPlace(place, t, i, c);
    forall x: nat, j: nat | x in place' && j < NPTE
      ensures DownOk(ts', place', x, j)
    {
      if x in place {
        assert DownOk(ts, place, x, j);
      }
    }
    forall x | x in place'
      ensures UpOk(ts', place', x)
    {
      if x in place {
        assert UpOk(ts, place, x);
      } else {
        assert x == c;
      }
    }
  }

  lemma HangPte(ts: Tables, place: map<nat, Node>, t: nat, i: nat, c: nat, r: nat, v: nat)
    requires TreeOk(ts, place) && t in place && !place[t].at.Low? && i < NPTE && t in ts && i < |ts[t]| && !V(ts[t][i])
    requires c !in ts && c !in place && 0 < c && V(Entry(c, 1)) && PA(Entry(c, 1)) == c && IsRoot(place, r)
    ensures Pte(Hang(ts, t, i, c), r, v) == Pte(ts, r, v)
  {
    assert !V(0);
    hide TreeOk; hide I0; hide I1; hide I2; hide V; hide PA; hide Flags; hide Entry;
    IndexBound(v);
    TableIs(ts, place, r);
    var ts' := Hang(ts, t, i, c);
    var m := Step(ts, r, I2(v));
    if m != 0 {
      StepPlace(ts, place, r, I2(v));
      if Step(ts, m, I1(v)) != 0 {
        StepPlace(ts, place, m, I1(v));
      }
    }
  }

  // ---------- Whole trees ----------

  predicate Rwx(e: nat) { e / 2 % 8 != 0 }

  /** Table x is t or lies below it. */
  ghost predicate Under(place: map<nat, Node>, t: nat, x: nat) {
    t in place && x in place
    && (x == t || (place[x].root == place[t].root && place[x] != place[t]
                   && match place[t].at
                      case Root => true
                      case Mid(i) => place[x].at.Low? && place[x].at.i2 == i
                      case Low(_, _) => false))
  }

  /** The entry of t on the way down to x. */
  ghost function Branch(place: map<nat, Node>, t: nat, x: nat): nat {
    if t in place && x in place && !place[x].at.Root?
    then if place[t].at.Root? then place[x].at.i2 else Last(place[x].at)
    else 0
  }

  ghost function Subtree(place: map<nat, Node>, t: nat): (s: set<nat>) {
    set x | x in place && Under(place, t, x)
  }

  /** The tables below the first i entries of t. */
  ghost function Below(place: map<nat, Node>, t: nat, i: nat): (s: set<nat>) {
    set x | x in place && Under(place, t, x) && x != t && Branch(place, t, x) < i
  }

  lemma ParentIs(ts: Tables, place: map<nat, Node>, t: nat, x: nat)
    requires TreeOk(ts, place) && t in place && x in place && !place[x].at.Root?
    requires place[x].root == place[t].root && place[t].at == Up(place[x].at)
    ensures place[x].parent == t && Last(place[x].at) < NPTE && TableOk(ts, t) && V(ts[t][Last(place[x].at)])
    ensures PA(ts[t][Last(place[x].at)]) == x
  {
    hide V; hide PA; hide Flags; hide DownOk;
    assert UpOk(ts, place, x);
    var p := place[x].parent;
    assert UpOk(ts, place, p) && UpOk(ts, place, t);
    if place[t].at.Mid? {
      var a, b := place[t].parent, place[p].parent;
      assert UpOk(ts, place, a) && UpOk(ts, place, b);
    }
  }

  /** What lies below entry i of a non-leaf table. */
  lemma BelowNext(ts: Tables, place: map<nat, Node>, t: nat, i: nat)
    requires TreeOk(ts, place) && t in place && !place[t].at.Low? && i < NPTE && TableOk(ts, t)
    ensures !V(ts[t][i]) ==> Below(place, t, i + 1) == Below(place, t, i)
    ensures V(ts[t][i]) ==>
              var c := PA(ts[t][i]);
              c in place && t !in Subtree(place, c) && Below(place, t, i) !! Subtree(place, c)
              && place[c] == Node(place[t].root, Child(place[t].at, i), t)
              && Below(place, t, i + 1) == Below(place, t, i) + Subtree(place, c)
  {
    hide TreeOk; hide V; hide PA; hide Flags;
    if V(ts[t][i]) {
      DownIs(ts, place, t, i);
    }
    forall x | x in place && Under(place, t, x) && x != t && Branch(place, t, x) == i
      ensures V(ts[t][i]) && Under(place, PA(ts[t][i]), x)
    {
      BelowStep(ts, place, t, i, x);
    }
    hide UpOk; hide DownOk; hide TableOk;
    if V(ts[t][i]) {
      var c := PA(ts[t][i]);
      forall x | Under(place, c, x)
        ensures Under(place, t, x) && x != t && Branch(place, t, x) == i
      {
      }
    }
  }

  lemma DownIs(ts: Tables, place: map<nat, Node>, t: nat, i: nat)
    requires TreeOk(ts, place) && t in place && !place[t].at.Low? && i < NPTE && TableOk(ts, t) && V(ts[t][i])
    ensures var c := PA(ts[t][i]); c in place && place[c] == Node(place[t].root, Child(place[t].at, i), t) && Flags(ts[t][i]) == 1
  {
    assert DownOk(ts, place, t, i);
  }

  lemma BelowStep(ts: Tables, place: map<nat, Node>, t: nat, i: nat, x: nat)
    requires TreeOk(ts, place) && t in place && TableOk(ts, t) && Under(place, t, x) && x != t
    requires i == Branch(place, t, x)
    ensures i < NPTE && V(ts[t][i]) && Under(place, PA(ts[t][i]), x)
  {
    hide V; hide PA; hide Flags;
    assert UpOk(ts, place, x) && UpOk(ts, place, t);
    hide DownOk;
    if place[x].at.Low? && place[t].at.Root? {
      var y := place[x].parent;
      assert UpOk(ts, place, y);
      ParentIs(ts, place, t, y);
    } else {
      ParentIs(ts, place, t, x);
    }
  }

  lemma BelowAll(ts: Tables, place: map<nat, Node>, t: nat)
    requires TreeOk(ts, place) && t in place
    ensures Subtree(place, t) == Below(place, t, NPTE) + {t}
    ensures place[t].at.Low? ==> Below(place, t, NPTE) == {}
  {
    TableIs(ts, place, t);
    forall x | Under(place, t, x) && x != t
      ensures Branch(place, t, x) < NPTE
    {
      BelowStep(ts, place, t, Branch(place, t, x), x);
    }
  }

  /** Dropping the whole tree of r leaves the other trees. */
  lemma DropTree(ts: Tables, place: map<nat, Node>, r: nat)
    requires TreeOk(ts, place) && IsRoot(place, r)
    ensures var gone := Subtree(place, r); TreeOk(ts - gone, place - gone)
    ensures forall x :: x in place ==> (x in Subtree(place, r) <==> place[x].root == r)
  {
    hide V; hide PA; hide Flags;
    var gone := Subtree(place, r);
    var ts', place' := ts - gone, place - gone;
    forall x | x in place
      ensures x in gone <==> place[x].root == r
    {
      assert UpOk(ts, place, x);
    }
    forall t: nat, i: nat | t in place' && i < NPTE
      ensures DownOk(ts', place', t, i)
    {
      assert DownOk(ts, place, t, i);
    }
    forall t | t in place'
      ensures UpOk(ts', place', t)
    {
      assert UpOk(ts, place, t);
    }
  }

  lemma DropPte(ts: Tables, place: map<nat, Node>, r: nat, q: nat, v: nat)
    requires TreeOk(ts, place) && IsRoot(place, r) && IsRoot(place, q) && q != r
    ensures Pte(ts - Subtree(place, r), q, v) == Pte(ts, q, v)
  {
    DropTree(ts, place, r);
    hide TreeOk; hide V; hide PA; hide Subtree; hide I0; hide I1; hide I2;
    IndexBound(v);
    TableIs(ts, place, q);
    var m := Step(ts, q, I2(v));
    if m != 0 {
      StepPlace(ts, place, q, I2(v));
      if Step(ts, m, I1(v)) != 0 {
        StepPlace(ts, place, m, I1(v));
      }
    }
  }

  /** No valid entry in the leaf tables at or below t. */
  ghost predicate NoLeaf(ts: Tables, place: map<nat, Node>, t: nat) {
    forall x: nat, j: nat :: Under(place, t, x) && place[x].at.Low? && j < NPTE ==> !LeafAt(ts, x, j)
  }

  predicate LeafAt(ts: Tables, x: nat, j: nat) {
    x in ts && j < |ts[x]| && V(ts[x][j])
  }

  /** Leaf entries can be told from links. */
  ghost predicate LeavesMarked(ts: Tables, place: map<nat, Node>, t: nat) {
    forall x: nat, j: nat :: Under(place, t, x) && place[x].at.Low? && j < NPTE && LeafAt(ts, x, j) ==> Rwx(ts[x][j])
  }

  /** Every entry of a leaf table is some page's. */
  lemma LeafPage(ts: Tables, place: map<nat, Node>, r: nat, x: nat, j: nat) returns (v: nat)
    requires TreeOk(ts, place) && IsRoot(place, r) && Under(place, r, x) && place[x].at.Low? && j < NPTE
    ensures v < PAGES && TableOk(ts, x) && Pte(ts, r, v) == ts[x][j]
  {
    var i2, i1 := place[x].at.i2, place[x].at.i1;
    assert UpOk(ts, place, x) && UpOk(ts, place, place[x].parent) && TableOk(ts, x);
    ParentIs(ts, place, place[x].parent, x);
    ParentIs(ts, place, r, place[x].parent);
    v := i2 * 262144 + i1 * 512 + j;
    PageIndices(i2, i1, j);
    hide I0; hide I1; hide I2; hide TreeOk; hide UpOk;
  }

  lemma PageIndices(i2: nat, i1: nat, j: nat)
    requires i2 < 256 && i1 < 512 && j < 512
    ensures var v := i2 * 262144 + i1 * 512 + j; v < PAGES && I2(v) == i2 && I1(v) == i1 && I0(v) == j
  {
    var v := i2 * 262144 + i1 * 512 + j;
    assert v / 512 == i2 * 512 + i1;
    assert v / 262144 == i2;
  }

  lemma NoLeafPages(ts: Tables, place: map<nat, Node>, r: nat)
    requires TreeOk(ts, place) && IsRoot(place, r)
    ensures NoLeaf(ts, place, r) <==> forall v: nat :: v < PAGES ==> !V(Pte(ts, r, v))
    ensures LeavesMarked(ts, place, r) <==> forall v: nat :: v < PAGES && V(Pte(ts, r, v)) ==> Rwx(Pte(ts, r, v))
  {
    hide V; hide Rwx; hide TreeOk;
    assert !V(0) by { NotV(); }
    forall x: nat, j: nat | Under(place, r, x) && place[x].at.Low? && j < NPTE
      ensures exists v: nat :: v < PAGES && x in ts && |ts[x]| == NPTE && Pte(ts, r, v) == ts[x][j]
    {
      var v := LeafPage(ts, place, r, x, j);
    }
    forall v: nat | v < PAGES && V(Pte(ts, r, v))
      ensures var x := Walk(ts, r, v); Under(place, r, x) && place[x].at.Low? && I0(v) < NPTE && LeafAt(ts, x, I0(v)) && Pte(ts, r, v) == ts[x][I0(v)]
    {
      IndexBound(v);
      hide Walk; hide I0;
      WalkPlace(ts, place, r, v);
    }
  }

  lemma NotV()
    ensures !V(0)
  {
  }
}
