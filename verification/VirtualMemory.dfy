/** Physical pages (kernel/kalloc.c) and user address spaces (kernel/vm.c).  A managed page
    is free, a page-table page, or holds data. */
module VirtualMemory {
  import opened Basics
  import Blocks
  import opened PageTable

  type byte = Blocks.byte

  type Store = map<nat, seq<byte>>

  function Fill(b: byte): (p: seq<byte>)
    ensures |p| == PGSIZE && forall i :: 0 <= i < PGSIZE ==> p[i] == b
  {
    seq(PGSIZE, _ => b)
  }

  const PHYSTOP := 0x8800_0000

  /** The pages that kfree accepts. */
  predicate Managed(end: nat, p: nat) {
    p % PGSIZE == 0 && end <= p < PHYSTOP
  }

  /** Every managed page is in exactly one of the three pools. */
  ghost predicate PagesOk(end: nat, ts: Tables, data: Store, free: seq<nat>) {
    && Distinct(free)
    && 0 < end
    && (forall p: nat :: Managed(end, p) <==> p in ts || p in data || p in free)
    && (forall p :: p in ts ==> p !in data && p !in free)
    && (forall p :: p in data ==> p !in free && |data[p]| == PGSIZE)
  }

  /** The flat maps of all page tables agree. */
  ghost predicate SamePtes(place: map<nat, Node>, ts: Tables, ts': Tables) {
    forall r: nat, v: nat :: IsRoot(place, r) && v < PAGES ==> Pte(ts', r, v) == Pte(ts, r, v)
  }

  /** Every link between tables stays. */
  ghost predicate StepsKept(ts: Tables, ts': Tables) {
    forall t: nat, i: nat :: Step(ts, t, i) != 0 ==> Step(ts', t, i) == Step(ts, t, i)
  }

  ghost predicate SameRoots(place: map<nat, Node>, place': map<nat, Node>) {
    forall r: nat :: IsRoot(place', r) <==> IsRoot(place, r)
  }

  datatype MapResult = Mapped | NoMemory | Panic

  /** perm | PTE_V */
  function WithV(perm: nat): (f: nat)
  {
    if V(perm) then perm else perm + 1
  }

  /** The flat maps after the pages of r in m are set as m says, all other pages unchanged. */
  ghost predicate Rewrites(place: map<nat, Node>, ts: Tables, ts': Tables, r: nat, m: map<nat, nat>) {
    forall r': nat, v: nat :: IsRoot(place, r') && v < PAGES ==>
      Pte(ts', r', v) == if r' == r && v in m then m[v] else Pte(ts, r', v)
  }

  /** Leaf entries for k consecutive physical pages. */
  function Frames(first: nat, k: nat, pa: nat, flags: nat): (m: map<nat, nat>)
    ensures forall v: nat :: v in m <==> first <= v < first + k
  {
    if k == 0 then map[] else Frames(first, k - 1, pa, flags)[first + k - 1 := Entry(pa + (k - 1) * PGSIZE, flags)]
  }

  function Zeros(first: nat, k: nat): (m: map<nat, nat>)
    ensures forall v: nat :: v in m <==> first <= v < first + k
    ensures forall v :: v in m ==> m[v] == 0
  {
    if k == 0 then map[] else Zeros(first, k - 1)[first + k - 1 := 0]
  }

  /** The physical page that page v of r is mapped to, 0 if none. */
  function Frame(ts: Tables, r: nat, v: nat): (p: nat) {
    if V(Pte(ts, r, v)) then PA(Pte(ts, r, v)) else 0
  }

  ghost predicate Unmapped(place: map<nat, Node>, ts: Tables, p: nat) {
    forall r: nat, v: nat :: IsRoot(place, r) && v < PAGES ==> Frame(ts, r, v) != p
  }

  /** A managed page that is mapped holds data, and is mapped only once. */
  ghost predicate LeavesOk(end: nat, place: map<nat, Node>, ts: Tables, data: Store) {
    && (forall r: nat, v: nat :: IsRoot(place, r) && v < PAGES && Managed(end, Frame(ts, r, v)) ==>
          Frame(ts, r, v) in data)
    && (forall r: nat, v: nat, r': nat, v': nat ::
          (IsRoot(place, r) && v < PAGES && IsRoot(place, r') && v' < PAGES
           && Managed(end, Frame(ts, r, v)) && Frame(ts, r, v) == Frame(ts, r', v')) ==> r == r' && v == v')
  }

  /** The entries that uvmunmap accepts. */
  predicate Removable(end: nat, ts: Tables, r: nat, v: nat, doFree: bool) {
    v < PAGES && V(Pte(ts, r, v)) && Flags(Pte(ts, r, v)) != 1 && (doFree ==> Managed(end, PA(Pte(ts, r, v))))
  }

  /** Exactly the frames of pages first..first+k of r have left the data pages. */
  ghost predicate Freed(data: Store, data': Store, ts: Tables, r: nat, first: nat, k: nat) {
    && (forall p: nat :: p in data' <==> p in data && forall v :: first <= v < first + k ==> Frame(ts, r, v) != p)
    && (forall p :: p in data' ==> data'[p] == data[p])
  }

  ghost predicate AllRemovable(end: nat, ts: Tables, r: nat, first: nat, k: nat, doFree: bool) {
    forall v :: first <= v < first + k ==> Removable(end, ts, r, v, doFree)
  }

  /** Pages first..first+k of r are no longer mapped, and nothing else changed. */
  ghost predicate Removed(place: map<nat, Node>, ts: Tables, ts': Tables, data: Store, data': Store,
                          r: nat, first: nat, k: nat, doFree: bool) {
    && Rewrites(place, ts, ts', r, Zeros(first, k))
    && (if doFree then Freed(data, data', ts, r, first, k) else data' == data)
  }

  /** The flat maps agree wherever they map something. */
  ghost predicate SameMaps(place: map<nat, Node>, ts: Tables, ts': Tables) {
    forall r: nat, v: nat :: IsRoot(place, r) && v < PAGES ==>
      Pte(ts', r, v) == Pte(ts, r, v) || (!V(Pte(ts', r, v)) && !V(Pte(ts, r, v)))
  }

  ghost function Entries(first: nat, es: seq<nat>): (m: map<nat, nat>)
    ensures forall v: nat :: v in m <==> first <= v < first + |es|
    ensures forall v :: v in m ==> m[v] == es[v - first]
  {
    if es == [] then map[] else Entries(first, es[..|es| - 1])[first + |es| - 1 := es[|es| - 1]]
  }

  /** Page first+j of r has entry es[j], leading to a new frame with contents cs[j]; nothing
      else changed. */
  ghost predicate Grown(place: map<nat, Node>, ts: Tables, ts': Tables, data: Store, data': Store,
                        r: nat, first: nat, es: seq<nat>, cs: seq<seq<byte>>) {
    && Rewrites(place, ts, ts', r, Entries(first, es)) && NewFrames(data, data', es, cs)
  }

  ghost predicate NewFrames(data: Store, data': Store, es: seq<nat>, cs: seq<seq<byte>>) {
    && |es| == |cs| && (forall j :: 0 <= j < |es| ==> NewFrame(data, data', es[j], cs[j]))
    && (forall i, j :: 0 <= i < j < |es| ==> PA(es[i]) != PA(es[j]))
    && (forall p :: p in data ==> p in data' && data'[p] == data[p])
    && (forall p: nat :: p in data' ==> p in data || exists j :: 0 <= j < |es| && p == PA(es[j]))
  }

  ghost predicate NewFrame(data: Store, data': Store, e: nat, c: seq<byte>) {
    V(e) && PA(e) !in data && PA(e) in data' && data'[PA(e)] == c
  }

  /** Grown, by frames that replace nothing and that uvmunmap can give back. */
  ghost predicate Growing(end: nat, place0: map<nat, Node>, place: map<nat, Node>, ts0: Tables, ts: Tables,
      d0: Store, d: Store, r: nat, first: nat, es: seq<nat>, cs: seq<seq<byte>>) {
    && SameRoots(place0, place) && Grown(place0, ts0, ts, d0, d, r, first, es, cs) && IsRoot(place0, r)
    && (forall j :: 0 <= j < |es| ==> Managed(end, PA(es[j])) && Flags(es[j]) != 1)
    && (forall v :: first <= v < first + |es| ==> !V(Pte(ts0, r, v)))
    && (|es| == 0 || first + |es| <= PAGES)
  }

  ghost function Zeroed(n: nat): (cs: seq<seq<byte>>)
    ensures |cs| == n && forall i :: 0 <= i < n ==> cs[i] == Fill(0)
    ensures n > 0 ==> cs == Zeroed(n - 1) + [Fill(0)]
  {
    if n == 0 then [] else Zeroed(n - 1) + [Fill(0)]
  }

  /** Pages 0..n of r, where mapped, are leaves with managed frames. */
  ghost predicate UserPages(end: nat, ts: Tables, r: nat, n: nat) {
    forall v :: 0 <= v < n && v < PAGES && V(Pte(ts, r, v)) ==>
        Managed(end, PA(Pte(ts, r, v))) && Flags(Pte(ts, r, v)) != 1
  }

  /** The contents of pages 0..n of r. */
  ghost function Contents(ts: Tables, data: Store, r: nat, n: nat): (cs: seq<seq<byte>>)
    ensures |cs| == n && forall j :: 0 <= j < n ==>
              cs[j] == if Frame(ts, r, j) in data then data[Frame(ts, r, j)] else []
  {
    seq(n, j requires 0 <= j < n => if Frame(ts, r, j) in data then data[Frame(ts, r, j)] else [])
  }

  /** walkaddr on a page number: the frame of a user page, or 0. */
  function UserFrame(ts: Tables, r: nat, v: nat): (p: nat) {
    if v < PAGES && U(Pte(ts, r, v)) then Frame(ts, r, v) else 0
  }

  /** User address va translates. */
  predicate IsUser(ts: Tables, r: nat, va: nat) {
    UserFrame(ts, r, va / PGSIZE) != 0
  }

  /** The byte that user address va stands for. */
  function ByteAt(ts: Tables, data: Store, r: nat, va: nat): (b: byte) {
    var p := UserFrame(ts, r, va / PGSIZE);
    if p in data && |data[p]| == PGSIZE then data[p][va % PGSIZE] else 0
  }

  ghost predicate AllUser(ts: Tables, r: nat, va: nat, len: nat) {
    forall x :: va <= x < va + len ==> IsUser(ts, r, x)
  }

  /** A NUL at distance n, and none before it. */
  ghost predicate StringAt(ts: Tables, data: Store, r: nat, va: nat, n: nat) {
    && AllUser(ts, r, va, n + 1) && ByteAt(ts, data, r, va + n) == 0
    && forall x :: va <= x < va + n ==> ByteAt(ts, data, r, x) != 0
  }

  /** User frames are managed pages. */
  ghost predicate UserManaged(end: nat, place: map<nat, Node>, ts: Tables) {
    forall r: nat, v: nat :: IsRoot(place, r) && UserFrame(ts, r, v) != 0 ==> Managed(end, UserFrame(ts, r, v))
  }

  /** Exactly the bytes at va.. of r are now `bytes`: no other address of any table sees a change. */
  ghost predicate Stored(place: map<nat, Node>, ts: Tables, data: Store, data': Store, r: nat, va: nat,
      bytes: seq<byte>) {
    && (forall r': nat, x: nat :: IsRoot(place, r') ==>
          ByteAt(ts, data', r', x) == if r' == r && va <= x < va + |bytes| then bytes[x - va] else ByteAt(ts, data, r', x))
    && (forall p: nat :: p in data' <==> p in data)
    && (forall p :: p in data && data'[p] != data[p] ==>
          exists x :: va <= x < va + |bytes| && IsUser(ts, r, x) && UserFrame(ts, r, x / PGSIZE) == p)
  }

  function Patch(page: seq<byte>, off: nat, bytes: seq<byte>): (r: seq<byte>)
    requires off + |bytes| <= |page|
    ensures |r| == |page|
    ensures forall i :: 0 <= i < |r| ==> r[i] == if off <= i < off + |bytes| then bytes[i - off] else page[i]
  {
    page[..off] + bytes + page[off + |bytes|..]
  }

  ghost function Height(place: map<nat, Node>, t: nat): nat {
    if t !in place then 0 else match place[t].at
      case Root => 2
      case Mid(_) => 1
      case Low(_, _) => 0
  }

  /** The tables at and below t are as they were. */
  ghost predicate Intact(place: map<nat, Node>, ts0: Tables, ts: Tables, t: nat) {
    forall x :: Under(place, t, x) ==> x in ts0 && x in ts && ts[x] == ts0[x]
  }

  /** freewalk has freed what hangs below the first i entries of t, and found no leaf there. */
  ghost predicate FreedBelow(ts0: Tables, pl: map<nat, Node>, was: Tables, now: Tables, t: nat, i: nat) {
    && t in pl && t in now && t in ts0 && |now[t]| == NPTE == |ts0[t]| && i <= NPTE && Intact(pl, ts0, was, t)
    && (forall j :: i <= j < NPTE ==> now[t][j] == ts0[t][j])
    && (forall x: nat :: x in now <==> x in was && x !in Below(pl, t, i))
    && (forall x :: x in now && x != t ==> now[x] == was[x])
    && (forall x: nat, j: nat :: x in Below(pl, t, i) && pl[x].at.Low? && j < NPTE ==> !LeafAt(ts0, x, j))
    && (pl[t].at.Low? ==> forall j: nat :: j < i ==> !LeafAt(ts0, t, j))
  }

  /** PGROUNDUP(sz) / PGSIZE */
  function PagesOf(sz: nat): nat {
    (sz + PGSIZE - 1) / PGSIZE
  }

  /** uvmalloc returns the new size, 0 when out of memory, or panics. */
  datatype Growth = Size(sz: nat) | OutOfMemory | Panicked

  datatype CopyResult = Copied | CopyFailed | CopyPanic

  class Vm {
    const end: nat              // first address after the kernel
    var tables: Tables
    var data: Store
    var free: seq<nat>          // kmem.freelist
    ghost var place: map<nat, Node>

    ghost predicate Valid()
      reads this
    {
      TreeOk(tables, place) && tables.Keys == place.Keys && PagesOk(end, tables, data, free)
    }

    ghost predicate Owned()
      reads this
    {
      LeavesOk(end, place, tables, data)
    }

    /** kinit and freerange: every managed page is free. */
    constructor (kernelEnd: nat)
      requires 0 < kernelEnd
      ensures end == kernelEnd && Valid() && Owned() && tables == map[] && data == map[]
      ensures forall p: nat :: p in free <==> Managed(end, p)
    {
      end := kernelEnd;
      tables, data, free, place := map[], map[], [], map[];
      new;
      var p := PagesOf(kernelEnd) * PGSIZE;
      PageStart(kernelEnd);
      while p + PGSIZE <= PHYSTOP
        invariant end == kernelEnd <= p && p % PGSIZE == 0 && tables == map[] && data == map[] && place == map[]
        invariant Distinct(free) && forall q: nat :: q in free <==> Managed(end, q) && q < p
      {
        PageNext(p);
        DistinctPush(free, p);
        free := [p] + free;
        p := p + PGSIZE;
      }
      PageNext(p);
    }

    /** kalloc: the head of the free list, filled with junk; 0 when it is empty. */
    method Kalloc() returns (pa: nat)
      requires Valid()
      modifies this`data, this`free
      ensures Valid()
      ensures old(free) == [] ==> pa == 0 && free == old(free) && data == old(data)
      ensures old(free) != [] ==> pa != 0 && [pa] + free == old(free) && data == old(data)[pa := Fill(5)] && pa !in old(data) && pa !in tables
    {
      hide TreeOk; hide Fill;
      if free == [] {
        return 0;
      }
      assert free[0] in free;
      pa := free[0];
      KallocOk(end, tables, data, free);
      free := free[1..];
      data := data[pa := Fill(5)];
    }

    /** kfree; false is its panic on an address that is no managed page. */
    method Kfree(pa: nat) returns (ok: bool)
      requires Valid() && (Managed(end, pa) ==> pa in data)
      modifies this`data, this`free
      ensures Valid() && (ok <==> Managed(end, pa))
      ensures if ok then free == [pa] + old(free) && data == old(data) - {pa} else free == old(free) && data == old(data)
    {
      hide TreeOk;
      if pa % PGSIZE != 0 || pa < end || pa >= PHYSTOP {
        return false;
      }
      ok := true;
      KfreeOk(end, tables, data, free, pa);
      data := data - {pa};
      free := [pa] + free;
    }

    /** One level of walk: the table below entry i of table t, allocating it if asked. */
    method Descend(t: nat, i: nat, alloc: bool) returns (c: nat)
      requires Valid() && t in place && !place[t].at.Low? && i < NPTE && (place[t].at.Root? ==> i < NPTE / 2)
      modifies this`tables, this`data, this`free, this`place
      ensures Valid() && SameRoots(old(place), place) && SamePtes(old(place), old(tables), tables) && data == old(data)
      ensures StepsKept(old(tables), tables) && forall x :: x in old(place) ==> x in place && place[x] == old(place)[x]
      ensures Step(old(tables), t, i) != 0 || !alloc ==>
                c == Step(old(tables), t, i) && tables == old(tables) && place == old(place) && free == old(free)
      ensures c != 0 ==> c == Step(tables, t, i) && c in place && place[c] == Node(place[t].root, Child(place[t].at, i), t)
      ensures c == 0 && alloc ==> free == old(free) == [] && tables == old(tables)
      ensures |old(free)| <= |free| + 1
    {
      hide TreeOk; hide PagesOk; hide V; hide PA; hide Flags; hide Pte; hide Walk;
      TableIs(tables, place, t);
      var e := tables[t][i];
      if V(e) {
        c := PA(e);
        assert c != 0 by { ValidNonzero(tables, place, t, i); }
        StepPlace(tables, place, t, i);
        return;
      }
      if !alloc {
        return 0;
      }
      c := Kalloc();
      if c == 0 {
        return;
      }
      HangTable(t, i, c);
      assert data == old(data);
    }

    /** The page c, cleared, becomes the table below entry i of table t. */
    method HangTable(t: nat, i: nat, c: nat)
      requires Valid() && t in place && !place[t].at.Low? && i < NPTE && (place[t].at.Root? ==> i < NPTE / 2)
      requires TableOk(tables, t)
      requires !V(tables[t][i]) && c in data && c !in tables
      modifies this`tables, this`data, this`place
      ensures Valid() && SameRoots(old(place), place) && SamePtes(old(place), old(tables), tables)
      ensures data == old(data) - {c}
      ensures StepsKept(old(tables), tables) && c == Step(tables, t, i) && place == HangPlace(old(place), t, i, c)
      ensures c !in old(place)
    {
      hide TreeOk; hide PagesOk; hide V; hide PA; hide Flags; hide Pte; hide Walk;
      PageShape(end, tables, data, free, c);
      TablesPlaced(tables, place, c);
      HangOk(tables, place, t, i, c);
      TableFromData(end, tables, data, free, t, i, c);
      data := data - {c};
      tables := tables[c := EmptyTable()];
      tables := SetPte(tables, t, i, Entry(c, 1));
      assert tables == Hang(old(tables), t, i, c);
      HangSteps(old(tables), t, i, c);
      place := HangPlace(place, t, i, c);
    }

    /** walk: the table holding the leaf entry of page v, or 0.  Allocating tables on the way
        maps and unmaps nothing.  ok is false on its panic beyond MAXVA. */
    method WalkTo(r: nat, v: nat, alloc: bool) returns (ok: bool, low: nat)
      requires Valid() && IsRoot(place, r)
      modifies this`tables, this`data, this`free, this`place
      ensures Valid() && SameRoots(old(place), place) && SamePtes(old(place), old(tables), tables) && data == old(data)
      ensures ok <==> v < PAGES
      ensures !alloc || !ok ==> tables == old(tables) && place == old(place) && free == old(free)
      ensures ok && (low != 0 || !alloc) ==> low == Walk(tables, r, v)
      ensures ok && low == 0 && alloc ==> free == [] && |old(free)| <= 1
      ensures |old(free)| <= |free| + 2
    {
      ok, low := v < PAGES, 0;
      if !ok {
        return;
      }
      hide TreeOk; hide PagesOk; hide V; hide PA; hide Flags; hide Pte; hide Step; hide SamePtes; hide I1;
      hide I2; hide TableOk;
      IndexBound(v);
      SplitPage(v, v);
      SamePtesRefl(place, tables);
      low := r;
      var level := 2;
      while level > 0
        invariant 0 <= level <= 2 && Valid() && IsRoot(place, r) && SameRoots(old(place), place) && data == old(data)
        invariant SamePtes(old(place), old(tables), tables)
        invariant !alloc ==> tables == old(tables) && place == old(place) && free == old(free)
        invariant low in place && place[low].root == r
        invariant level == 2 ==> low == r && place[low].at == Root
        invariant level == 1 ==> low != 0 && low == Step(tables, r, I2(v)) && place[low].at == Mid(I2(v))
        invariant level == 0 ==> low != 0 && low == Walk(tables, r, v)
        invariant |old(free)| <= |free| + 2 - level
      {
        ghost var ts, pl := tables, place;
        var i := if level == 2 then I2(v) else I1(v);
        low := Descend(low, i, alloc);
        SamePtesTransitive(old(place), pl, old(tables), ts, tables);
        if low == 0 {
          return;
        }
        assert level == 1 ==> Step(tables, r, I2(v)) == Step(ts, r, I2(v));
        level := level - 1;
      }
    }

    /** *pte = e, for the entry that walk found. */
    method StoreLeaf(r: nat, v: nat, low: nat, e: nat)
      requires Valid() && IsRoot(place, r) && v < PAGES && low != 0 && low == Walk(tables, r, v)
      modifies this`tables
      ensures Valid() && Rewrites(place, old(tables), tables, r, map[v := e])
    {
      hide TreeOk; hide I0; hide Walk; hide Pte; hide PagesOk;
      IndexBound(v);
      SetLeaf(tables, place, r, v, e);
      SetPtePages(end, tables, data, free, low, I0(v), e);
      tables := SetPte(tables, low, I0(v), e);
    }

    /** mappages: page by page, stopping at a page that cannot be mapped.  `k` pages are
        mapped on return; all of them exactly when the result is Mapped. */
    method MapPages(r: nat, va: nat, size: nat, pa: nat, perm: nat) returns (res: MapResult, ghost k: nat)
      requires Valid() && IsRoot(place, r) && perm < 1024
      modifies this`tables, this`data, this`free, this`place
      ensures Valid() && SameRoots(old(place), place) && data == old(data)
      ensures size == 0 ==> res.Panic? && k == 0 && tables == old(tables) && place == old(place) && free == old(free)
      ensures size > 0 ==>
              var first, last := va / PGSIZE, (va + size - 1) / PGSIZE;
              && Rewrites(old(place), old(tables), tables, r, Frames(first, k, pa, WithV(perm)))
              && (res.Mapped? <==> k == last + 1 - first) && first + k <= last + 1 && (k == 0 || first + k <= PAGES)
              && (forall v :: first <= v < first + k ==> !V(Pte(old(tables), r, v)))
              && (res.Panic? ==> first + k >= PAGES || V(Pte(old(tables), r, first + k)))
              && (res.NoMemory? ==> free == [] && |old(free)| <= 2 * k + 1)
      ensures |old(free)| <= |free| + 2 * if res.Mapped? then k else k + 1
    {
      hide TreeOk; hide Walk; hide Pte; hide PagesOk; hide Entry; hide Rewrites; hide IsRoot; hide I0;
      hide V; hide WithV;
      k := 0;
      if size == 0 {
        return Panic, k;
      }
      var first, last := va / PGSIZE, (va + size - 1) / PGSIZE;
      var a, p := first, pa;
      RewritesNone(place, tables, r);
      while true
        invariant k == a - first && a <= last && p == pa + k * PGSIZE && (k == 0 || a <= PAGES)
        invariant Valid() && IsRoot(place, r) && SameRoots(old(place), place) && data == old(data)
        invariant Rewrites(old(place), old(tables), tables, r, Frames(first, k, pa, WithV(perm)))
        invariant forall v :: first <= v < first + k ==> !V(Pte(old(tables), r, v))
        invariant |old(free)| <= |free| + 2 * k
        decreases last - a
      {
        ghost var ts, pl := tables, place;
        var ok, low := WalkTo(r, a, true);
        if !ok {
          return Panic, k;
        }
        RewritesSame(old(place), pl, old(tables), ts, tables, r, Frames(first, k, pa, WithV(perm)));
        if low == 0 {
          return NoMemory, k;
        }
        PteAt(tables, place, r, a);
        RewritesAt(old(place), old(tables), tables, r, Frames(first, k, pa, WithV(perm)), a);
        if V(tables[low][I0(a)]) {
          return Panic, k;
        }
        ts, pl := tables, place;
        StoreLeaf(r, a, low, Entry(p, WithV(perm)));
        RewritesThen(old(place), pl, old(tables), ts, tables, r, Frames(first, k, pa, WithV(perm)),
            map[a := Entry(p, WithV(perm))]);
        assert Frames(first, k + 1, pa, WithV(perm)) == Frames(first, k, pa, WithV(perm)) + map[a := Entry(p, WithV(perm))];
        k := k + 1;
        if a == last {
          return Mapped, k;
        }
        a := a + 1;
        p := p + PGSIZE;
      }
    }

    /** One step of uvmunmap. */
    method UnmapOne(r: nat, v: nat, doFree: bool) returns (ok: bool)
      requires Valid() && Owned() && IsRoot(place, r)
      modifies this`tables, this`data, this`free, this`place
      ensures place == old(place)
      ensures ok <==> Removable(end, old(tables), r, v, doFree)
      ensures ok ==> Valid() && Owned() && Rewrites(place, old(tables), tables, r, map[v := 0])
      ensures ok ==> if doFree then data == old(data) - {Frame(old(tables), r, v)} else data == old(data) && free == old(free)
    {
      EndPositive(end, tables, data, free);
      hide TreeOk; hide PagesOk; hide Rewrites; hide LeavesOk; hide PA; hide Flags; hide I0; hide Walk;
      var low;
      ok, low := WalkTo(r, v, false);
      if !ok || low == 0 {
        return false;
      }
      PteAt(tables, place, r, v);
      hide Pte;
      var e := tables[low][I0(v)];
      if !V(e) || Flags(e) == 1 {
        return false;
      }
      hide V;
      if doFree {
        if Managed(end, PA(e)) {
          FrameHolds(end, place, tables, data, r, v);
        }
        ok := Kfree(PA(e));
        if !ok {
          return;
        }
      }
      StoreLeaf(r, v, low, 0);
      LeavesUnmap(end, place, old(tables), tables, old(data), data, r, v);
      return true;
    }

    /** The loop of uvmunmap, over page numbers. */
    method UnmapRange(r: nat, first: nat, npages: nat, doFree: bool) returns (ok: bool)
      requires Valid() && Owned() && IsRoot(place, r)
      modifies this`tables, this`data, this`free, this`place
      ensures place == old(place)
      ensures ok <==> AllRemovable(end, old(tables), r, first, npages, doFree)
      ensures ok ==> Valid() && Owned() && Removed(place, old(tables), tables, old(data), data, r, first, npages, doFree)
    {
      hide TreeOk; hide PagesOk; hide IsRoot; hide LeavesOk; hide Removed; hide Removable; hide Frame;
      RemovedNone(place, tables, data, r, first, doFree);
      var k := 0;
      while k < npages
        invariant k <= npages && Valid() && Owned() && place == old(place)
        invariant Removed(place, old(tables), tables, old(data), data, r, first, k, doFree)
        invariant AllRemovable(end, old(tables), r, first, k, doFree)
      {
        ghost var ts, d := tables, data;
        RemovableSame(end, place, old(tables), tables, old(data), data, r, first, k, doFree);
        ok := UnmapOne(r, first + k, doFree);
        if !ok {
          return;
        }
        RemovedStep(place, old(tables), ts, tables, old(data), d, data, r, first, k, doFree);
        k := k + 1;
      }
      return true;
    }

    /** uvmunmap; false is a panic.  It removes exactly the given pages, and with doFree gives
        exactly their frames back. */
    method Uvmunmap(r: nat, va: nat, npages: nat, doFree: bool) returns (ok: bool)
      requires Valid() && Owned() && IsRoot(place, r)
      modifies this`tables, this`data, this`free, this`place
      ensures place == old(place)
      ensures ok <==> va % PGSIZE == 0 && AllRemovable(end, old(tables), r, va / PGSIZE, npages, doFree)
      ensures ok ==> Valid() && Owned() && Removed(place, old(tables), tables, old(data), data, r, va / PGSIZE, npages, doFree)
    {
      hide TreeOk; hide PagesOk; hide IsRoot; hide LeavesOk; hide Removed; hide AllRemovable;
      if va % PGSIZE != 0 {
        return false;
      }
      ok := UnmapRange(r, va / PGSIZE, npages, doFree);
    }

    /** kalloc, fill, and mappages of one page: a step of uvmalloc and of uvmcopy.  A frame that
        cannot be mapped is given back. */
    method AddPage(r: nat, v: nat, bytes: seq<byte>, flags: nat) returns (res: MapResult, ghost e: nat)
      requires Valid() && Owned() && IsRoot(place, r) && |bytes| == PGSIZE && flags < 1024
      modifies this`tables, this`data, this`free, this`place
      ensures Valid() && SameRoots(old(place), place)
      ensures res.Mapped? ==> && Owned() && v < PAGES && !V(Pte(old(tables), r, v))
                              && Rewrites(old(place), old(tables), tables, r, map[v := e])
                              && PA(e) !in old(data) && data == old(data)[PA(e) := bytes]
                              && V(e) && Flags(e) == WithV(flags) && Managed(end, PA(e))
      ensures res.NoMemory? ==> Owned() && SamePtes(old(place), old(tables), tables) && data == old(data) && |old(free)| < 3
      ensures res.Mapped? ==> |old(free)| <= |free| + 3
      ensures res.Panic? ==> v >= PAGES || V(Pte(old(tables), r, v))
    {
      hide TreeOk; hide PagesOk; hide IsRoot; hide LeavesOk; hide Rewrites; hide Pte; hide SamePtes; hide Frames;
      e := 0;
      var mem := Kalloc();
      if mem == 0 {
        SamePtesRefl(place, tables);
        return NoMemory, e;
      }
      FreshFrame(end, place, old(tables), old(data), data, free, mem);
      data := data[mem := bytes];
      RefillPages(end, tables, old(data)[mem := Fill(5)], free, mem, bytes);
      ghost var k;
      res, k := MapPages(r, v * PGSIZE, PGSIZE, mem, flags);
      OnePage(v);
      e := Entry(mem, WithV(flags));
      AddedPage(end, old(place), place, old(tables), tables, old(data), data, r, v, mem, flags, k);
      if res.NoMemory? {
        LeavesDrop(end, place, tables, data, mem);
        var freed := Kfree(mem);
        assert data == old(data);
      }
    }

    /** uvmdealloc; ok is false on a panic. */
    method UvmDealloc(r: nat, oldsz: nat, newsz: nat) returns (sz: nat, ok: bool)
      requires Valid() && Owned() && IsRoot(place, r)
      modifies this`tables, this`data, this`free, this`place
      ensures place == old(place) && sz == if newsz >= oldsz then oldsz else newsz
      ensures var n := PagesOf(oldsz) - PagesOf(newsz);
              if newsz >= oldsz || n == 0 then ok && tables == old(tables) && data == old(data) && free == old(free)
              else
                && (ok <==> AllRemovable(end, old(tables), r, PagesOf(newsz), n, true))
                && (ok ==> Valid() && Owned() && Removed(place, old(tables), tables, old(data), data, r, PagesOf(newsz), n, true))
    {
      hide TreeOk; hide PagesOk; hide IsRoot; hide LeavesOk; hide Removed; hide AllRemovable;
      if newsz >= oldsz {
        return oldsz, true;
      }
      if PagesOf(newsz) < PagesOf(oldsz) {
        ok := Uvmunmap(r, PagesOf(newsz) * PGSIZE, PagesOf(oldsz) - PagesOf(newsz), true);
        return newsz, ok;
      }
      return newsz, true;
    }

    /** uvmalloc: either every page from oldsz to newsz gets a new zeroed frame, or nothing is
        mapped and every frame taken is back.  It fails only with fewer than three free pages
        (a frame and two tables) per new page. */
    method UvmAlloc(r: nat, oldsz: nat, newsz: nat, xperm: nat) returns (res: Growth, ghost es: seq<nat>)
      requires Valid() && Owned() && IsRoot(place, r) && xperm % 4 == 0 && xperm < 16
      modifies this`tables, this`data, this`free, this`place
      ensures !res.Panicked? ==> Valid() && Owned() && SameRoots(old(place), place)
      ensures res.Panicked? ==> exists v :: PagesOf(oldsz) <= v < PagesOf(newsz) && (v >= PAGES || V(Pte(old(tables), r, v)))
      ensures newsz < oldsz ==> res == Size(oldsz) && tables == old(tables) && data == old(data) && free == old(free)
      ensures newsz >= oldsz && res.Size? ==>
                && res.sz == newsz && |es| == PagesOf(newsz) - PagesOf(oldsz)
                && (forall j :: 0 <= j < |es| ==> Flags(es[j]) == 19 + xperm)
                && Grown(old(place), old(tables), tables, old(data), data, r, PagesOf(oldsz), es, Zeroed(|es|))
      ensures res.OutOfMemory? ==> SameMaps(old(place), old(tables), tables) && data == old(data)
      ensures res.OutOfMemory? ==> |old(free)| < 3 * (PagesOf(newsz) - PagesOf(oldsz))
    {
      hide TreeOk; hide PagesOk; hide IsRoot; hide LeavesOk; hide Growing; hide Grown; hide Pte; hide Flags;
      hide SameMaps; hide V; hide PagesOf;
      es := [];
      if newsz < oldsz {
        return Size(oldsz), es;
      }
      PagesOfMonotone(oldsz, newsz);
      LeafFlags(xperm);
      var first, last := PagesOf(oldsz), PagesOf(newsz);
      var a := first;
      GrowingNone(end, place, tables, data, r, first);
      while a < last
        invariant a == first + |es| && a <= last && Valid() && Owned() && SameRoots(old(place), place)
        invariant Growing(end, old(place), place, old(tables), tables, old(data), data, r, first, es, Zeroed(|es|))
        invariant forall j :: 0 <= j < |es| ==> Flags(es[j]) == 19 + xperm
        invariant |old(free)| <= |free| + 3 * |es|
      {
        var more: MapResult;
        ghost var e;
        more, e := GrowBy(old(place), old(tables), old(data), r, first, es, Zeroed(|es|), a, Fill(0), 18 + xperm);
        if more.Panic? {
          return Panicked, es;
        }
        if more.NoMemory? {
          GiveBack(old(place), old(tables), old(data), r, first, es, Zeroed(|es|), a);
          return OutOfMemory, es;
        }
        es := es + [e];
        a := a + 1;
      }
      GrowingGrown(end, old(place), place, old(tables), tables, old(data), data, r, first, es, Zeroed(|es|));
      return Size(newsz), es;
    }

    /** AddPage as a step from the state `place0, ts0, d0` at the start of the loop. */
    method GrowBy(ghost place0: map<nat, Node>, ghost ts0: Tables, ghost d0: Store, r: nat, ghost first: nat,
        ghost es: seq<nat>,
                  ghost cs: seq<seq<byte>>, a: nat, bytes: seq<byte>, flags: nat) returns (res: MapResult, ghost e: nat)
      requires Valid() && Owned() && IsRoot(place, r) && |bytes| == PGSIZE && flags < 1024 && WithV(flags) != 1
      requires Growing(end, place0, place, ts0, tables, d0, data, r, first, es, cs) && a == first + |es|
      modifies this`tables, this`data, this`free, this`place
      ensures res.Panic? ==> a >= PAGES || V(Pte(ts0, r, a))
      ensures !res.Panic? ==> Valid() && Owned() && SameRoots(old(place), place)
      ensures res.NoMemory? ==> Growing(end, place0, place, ts0, tables, d0, data, r, first, es, cs) && |old(free)| < 3
      ensures res.Mapped? ==> |old(free)| <= |free| + 3
      ensures res.Mapped? ==> Growing(end, place0, place, ts0, tables, d0, data, r, first, es + [e], cs + [bytes]) && Flags(e) == WithV(flags)
    {
      hide TreeOk; hide PagesOk; hide IsRoot; hide LeavesOk; hide Growing; hide Pte; hide Rewrites;
      hide Managed; hide PA; hide V; hide Flags;
      GrowingAt(end, place0, place, ts0, tables, d0, data, r, first, es, cs);
      res, e := AddPage(r, a, bytes, flags);
      if res.NoMemory? {
        GrowingSame(end, place0, old(place), place, ts0, old(tables), tables, d0, data, r, first, es, cs);
      }
      if res.Mapped? {
        GrowingStep(end, place0, old(place), place, ts0, old(tables), tables, d0, old(data), data, r, first,
            es, cs, e, bytes);
      }
    }

    /** The error path of uvmalloc and uvmcopy: unmap what was mapped. */
    method GiveBack(ghost place0: map<nat, Node>, ghost ts0: Tables, ghost d0: Store, r: nat, first: nat,
        ghost es: seq<nat>, ghost cs: seq<seq<byte>>, a: nat)
      requires Valid() && Owned() && IsRoot(place, r)
      requires Growing(end, place0, place, ts0, tables, d0, data, r, first, es, cs) && a == first + |es|
      modifies this`tables, this`data, this`free, this`place
      ensures Valid() && Owned() && SameRoots(place0, place) && place == old(place)
      ensures SameMaps(place0, ts0, tables) && data == d0
    {
      hide TreeOk; hide PagesOk; hide IsRoot; hide LeavesOk; hide Growing; hide AllRemovable; hide Removed;
      hide SameMaps;
      GrowingRemovable(end, place0, place, ts0, tables, d0, data, r, first, es, cs);
      GrowingUndo(end, place0, place, ts0, tables, d0, data, r, first, es, cs);
      OnePage(first);
      OnePage(a);
      var sz, ok := UvmDealloc(r, a * PGSIZE, first * PGSIZE);
    }

    /** walk without allocation, and the entry it leads to; 0 if there is none. */
    method ReadPte(r: nat, v: nat) returns (e: nat)
      requires Valid() && IsRoot(place, r) && v < PAGES
      modifies this`tables, this`data, this`free, this`place
      ensures tables == old(tables) && data == old(data) && free == old(free) && place == old(place)
      ensures e == Pte(tables, r, v)
    {
      hide TreeOk; hide PagesOk; hide Walk; hide I0; hide SamePtes; hide IsRoot;
      var _, low := WalkTo(r, v, false);
      if low == 0 {
        return 0;
      }
      PteAt(tables, place, r, v);
      e := tables[low][I0(v)];
    }

    /** uvmcopy: either every page of r below sz is copied into a new frame of q with the same
        flags, or nothing is mapped and every frame taken is back; it fails only with fewer
        than three free pages per page. */
    method UvmCopy(r: nat, q: nat, sz: nat) returns (res: CopyResult, ghost es: seq<nat>)
      requires Valid() && Owned() && IsRoot(place, r) && IsRoot(place, q) && r != q
      requires UserPages(end, tables, r, PagesOf(sz))
      modifies this`tables, this`data, this`free, this`place
      ensures !res.CopyPanic? ==> Valid() && Owned() && SameRoots(old(place), place)
      ensures res.CopyPanic? ==> exists v :: 0 <= v < PagesOf(sz) && (v >= PAGES || !V(Pte(old(tables), r, v)) || V(Pte(old(tables), q, v)))
      ensures res.Copied? ==>
                && |es| == PagesOf(sz) && (forall j :: 0 <= j < |es| ==> Flags(es[j]) == Flags(Pte(old(tables), r, j)))
                && Grown(old(place), old(tables), tables, old(data), data, q, 0, es, Contents(old(tables), old(data), r, |es|))
      ensures res.CopyFailed? ==> SameMaps(old(place), old(tables), tables) && data == old(data) && |old(free)| < 3 * PagesOf(sz)
    {
      hide TreeOk; hide PagesOk; hide IsRoot; hide LeavesOk; hide Growing; hide Grown; hide Pte; hide Flags;
      hide SameMaps; hide V; hide PA; hide PagesOf;
      hide Frame; hide UserPages;
      es := [];
      var n, a := PagesOf(sz), 0;
      GrowingNone(end, place, tables, data, q, 0);
      while a < n
        invariant a == |es| && a <= n && Valid() && Owned() && SameRoots(old(place), place)
        invariant Growing(end, old(place), place, old(tables), tables, old(data), data, q, 0, es, Contents(old(tables), old(data), r, a))
        invariant forall j :: 0 <= j < |es| ==> Flags(es[j]) == Flags(Pte(old(tables), r, j))
        invariant |old(free)| <= |free| + 3 * a
      {
        ghost var source := Pte(old(tables), r, a);
        if a >= PAGES {
          return CopyPanic, es;
        }
        GrowingElsewhere(end, old(place), place, old(tables), tables, old(data), data, q, es, r, a);
        var pte := ReadPte(r, a);
        if !V(pte) {
          return CopyPanic, es;
        }
        CopySource(end, old(place), old(tables), old(data), r, n, a);
        PageShape(end, tables, data, free, PA(pte));
        var more: MapResult;
        ghost var e;
        more, e := GrowBy(old(place), old(tables), old(data), q, 0, es, Contents(old(tables), old(data), r, a),
            a, data[PA(pte)], Flags(pte));
        if more.Panic? {
          return CopyPanic, es;
        }
        if more.NoMemory? {
          GiveBack(old(place), old(tables), old(data), q, 0, es, Contents(old(tables), old(data), r, a), a);
          return CopyFailed, es;
        }
        es := es + [e];
        ContentsNext(old(tables), old(data), r, a);
        a := a + 1;
      }
      GrowingGrown(end, old(place), place, old(tables), tables, old(data), data, q, 0, es,
          Contents(old(tables), old(data), r, a));
      return Copied, es;
    }

    ghost predicate User()
      reads this
    {
      Valid() && Owned() && UserManaged(end, place, tables)
    }

    /** walkaddr */
    method WalkAddr(r: nat, va: nat) returns (pa: nat)
      requires User() && IsRoot(place, r)
      modifies this`tables, this`data, this`free, this`place
      ensures tables == old(tables) && data == old(data) && free == old(free) && place == old(place)
      ensures pa == UserFrame(tables, r, va / PGSIZE) && (pa == 0 || (pa in data && |data[pa]| == PGSIZE))
      ensures pa != 0 <==> IsUser(tables, r, va)
    {
      hide TreeOk; hide PagesOk; hide LeavesOk; hide Pte; hide PA; hide IsRoot; hide UserManaged;
      if va / PGSIZE >= PAGES {
        return 0;
      }
      var e := ReadPte(r, va / PGSIZE);
      if !V(e) || !U(e) {
        return 0;
      }
      pa := PA(e);
      hide V; hide U;
      if pa != 0 {
        UserHolds(end, place, tables, data, free, r, va / PGSIZE);
      }
    }

    /** copyin: byte-by-byte translation, and success exactly when every byte translates. */
    method CopyIn(r: nat, srcva: nat, len: nat) returns (ok: bool, dst: seq<byte>)
      requires User() && IsRoot(place, r)
      modifies this`tables, this`data, this`free, this`place
      ensures tables == old(tables) && data == old(data) && free == old(free) && place == old(place)
      ensures ok <==> AllUser(tables, r, srcva, len)
      ensures |dst| <= len && (ok ==> |dst| == len) && forall i :: 0 <= i < |dst| ==>
                dst[i] == ByteAt(tables, data, r, srcva + i)
    {
      hide TreeOk; hide PagesOk; hide LeavesOk; hide UserFrame; hide IsRoot; hide UserManaged; hide ByteAt; hide IsUser;
      dst := [];
      var va, left := srcva, len;
      while left > 0
        invariant tables == old(tables) && data == old(data) && free == old(free) && place == old(place)
        invariant va == srcva + |dst| && left == len - |dst| && |dst| <= len && AllUser(tables, r, srcva, |dst|)
        invariant forall i :: 0 <= i < |dst| ==> dst[i] == ByteAt(tables, data, r, srcva + i)
      {
        var pa := WalkAddr(r, va);
        if pa == 0 {
          return false, dst;
        }
        var n := if PGSIZE - va % PGSIZE > left then left else PGSIZE - va % PGSIZE;
        SamePage(tables, data, r, va, n);
        var chunk := data[pa][va % PGSIZE..va % PGSIZE + n];
        dst := dst + chunk;
        left := left - n;
        va := va + n;
      }
      return true, dst;
    }

    /** copyout: stores the first n bytes of src, all of them exactly when every byte
        translates. */
    method CopyOut(r: nat, dstva: nat, src: seq<byte>) returns (ok: bool, ghost n: nat)
      requires User() && IsRoot(place, r)
      modifies this`tables, this`data, this`free, this`place
      ensures User() && tables == old(tables) && free == old(free) && place == old(place)
      ensures ok <==> AllUser(tables, r, dstva, |src|)
      ensures n <= |src| && (ok ==> n == |src|) && Stored(place, tables, old(data), data, r, dstva, src[..n])
    {
      hide TreeOk; hide PagesOk; hide LeavesOk; hide UserFrame; hide IsRoot; hide UserManaged; hide IsUser;
      hide Stored; hide Patch;
      n := 0;
      var done := 0;
      StoredNone(place, tables, data, r, dstva);
      while done < |src|
        invariant User() && tables == old(tables) && free == old(free) && place == old(place)
        invariant n == done <= |src| && AllUser(tables, r, dstva, done)
        invariant Stored(place, tables, old(data), data, r, dstva, src[..done])
      {
        var va := dstva + done;
        var pa := WalkAddr(r, va);
        if pa == 0 {
          return false, n;
        }
        var m := if PGSIZE - va % PGSIZE > |src| - done then |src| - done else PGSIZE - va % PGSIZE;
        var chunk := src[done..done + m];
        ghost var d := data;
        SamePage(tables, data, r, va, m);
        PatchOk(end, place, tables, data, free, r, va, chunk);
        data := data[pa := Patch(data[pa], va % PGSIZE, chunk)];
        StoredThen(place, tables, old(data), d, data, r, dstva, src[..done], chunk);
        assert src[..done] + chunk == src[..done + m];
        done := done + m;
        n := done;
      }
      return true, n;
    }

    /** copyinstr: the string at srcva, exactly when a NUL ends it within max readable bytes. */
    method CopyInStr(r: nat, srcva: nat, max: nat) returns (ok: bool, dst: seq<byte>)
      requires User() && IsRoot(place, r)
      modifies this`tables, this`data, this`free, this`place
      ensures tables == old(tables) && data == old(data) && free == old(free) && place == old(place)
      ensures ok <==> exists n :: 0 <= n < max && StringAt(tables, data, r, srcva, n)
      ensures ok ==> |dst| > 0 && StringAt(tables, data, r, srcva, |dst| - 1) && forall i :: 0 <= i < |dst| ==>
                dst[i] == ByteAt(tables, data, r, srcva + i)
    {
      hide TreeOk; hide PagesOk; hide LeavesOk; hide UserFrame; hide IsRoot; hide UserManaged; hide ByteAt; hide IsUser;
      dst := [];
      while |dst| < max
        invariant tables == old(tables) && data == old(data) && free == old(free) && place == old(place)
        invariant |dst| <= max && AllUser(tables, r, srcva, |dst|)
        invariant forall i :: 0 <= i < |dst| ==> dst[i] == ByteAt(tables, data, r, srcva + i) && dst[i] != 0
      {
        var va := srcva + |dst|;
        var pa := WalkAddr(r, va);
        if pa == 0 {
          NoString(tables, data, r, srcva, dst, max);
          return false, dst;
        }
        var n := if PGSIZE - va % PGSIZE > max - |dst| then max - |dst| else PGSIZE - va % PGSIZE;
        SamePage(tables, data, r, va, n);
        ghost var start := |dst|;
        var page, off := data[pa], va % PGSIZE;
        var i := 0;
        while i < n
          invariant 0 <= i <= n && |dst| == start + i
          invariant forall j :: 0 <= j < |dst| ==> dst[j] == ByteAt(tables, data, r, srcva + j) && dst[j] != 0
        {
          assert page[off + i] == ByteAt(tables, data, r, va + i);
          if page[off + i] == 0 {
            StringHere(tables, data, r, srcva, dst);
            return true, dst + [0];
          }
          dst := dst + [page[off + i]];
          i := i + 1;
        }
      }
      NoString(tables, data, r, srcva, dst, max);
      return false, dst;
    }

    /** uvmcreate */
    method UvmCreate() returns (r: nat)
      requires Valid() && Owned()
      modifies this`tables, this`data, this`free, this`place
      ensures Valid() && Owned() && data == old(data)
      ensures r == 0 ==> tables == old(tables) && place == old(place) && free == old(free) == []
      ensures r != 0 ==> r !in old(place) && forall q: nat :: IsRoot(place, q) <==> q == r || IsRoot(old(place), q)
      ensures r != 0 ==> forall q: nat, v: nat :: IsRoot(place, q) && v < PAGES ==>
                Pte(tables, q, v) == if q == r then 0 else Pte(old(tables), q, v)
    {
      hide TreeOk; hide PagesOk; hide LeavesOk; hide Pte;
      r := Kalloc();
      if r == 0 {
        return;
      }
      PageShape(end, tables, data, free, r);
      NewRoot(tables, place, r);
      TableFromNew(end, tables, data, free, r);
      LeavesNew(end, place, tables, old(data), r);
      data := data - {r};
      assert data == old(data);
      tables := tables[r := EmptyTable()];
      place := place[r := Node(r, Root, r)];
    }

    /** freewalk; false is a panic.  `ts0` and `pl` are the tables before any was freed. */
    method FreeWalk(t: nat, ghost ts0: Tables, ghost pl: map<nat, Node>) returns (ok: bool)
      requires PagesOk(end, tables, data, free) && TreeOk(ts0, pl) && t in pl && LeavesMarked(ts0, pl, t)
      requires Intact(pl, ts0, tables, t)
      modifies this`tables, this`free
      ensures ok <==> NoLeaf(ts0, pl, t)
      ensures ok ==> PagesOk(end, tables, data, free) && tables == old(tables) - Subtree(pl, t)
      decreases Height(pl, t)
    {
      hide TreeOk; hide PagesOk; hide V; hide PA; hide Rwx; hide FreedBelow; hide NoLeaf; hide LeavesMarked;
      hide Intact; hide Under; hide Height;
      FreedBelowNone(ts0, pl, tables, t);
      var i := 0;
      while i < NPTE
        invariant 0 <= i <= NPTE && PagesOk(end, tables, data, free)
        invariant FreedBelow(ts0, pl, old(tables), tables, t, i)
      {
        FreedBelowAt(ts0, pl, old(tables), tables, t, i);
        var pte := tables[t][i];
        if V(pte) && !Rwx(pte) {
          var child := PA(pte);
          FreeChild(ts0, pl, old(tables), tables, t, i);
          ghost var mid := tables;
          ok := FreeWalk(child, ts0, pl);
          if !ok {
            return;
          }
          FreedBelowChild(ts0, pl, old(tables), mid, tables, t, i);
          SetPtePages(end, tables, data, free, t, i, 0);
          tables := SetPte(tables, t, i, 0);
        } else if V(pte) {
          FreePanic(ts0, pl, t, i);
          return false;
        } else {
          FreedBelowSkip(ts0, pl, old(tables), tables, t, i);
        }
        i := i + 1;
      }
      FreedBelowEnd(ts0, pl, old(tables), tables, t);
      TablePage(end, tables, data, free, t);
      tables := tables - {t};
      free := [t] + free;
      return true;
    }

    /** uvmfree; false is a panic.  Every frame below sz and every table of r goes to the free
        list; the other page tables keep their maps. */
    method UvmFree(r: nat, sz: nat) returns (ok: bool)
      requires Valid() && Owned() && IsRoot(place, r)
      requires forall v: nat :: v < PAGES && V(Pte(tables, r, v)) ==> Rwx(Pte(tables, r, v))
      modifies this`tables, this`data, this`free, this`place
      ensures ok <==> AllRemovable(end, old(tables), r, 0, PagesOf(sz), true) && forall v :: PagesOf(sz) <= v < PAGES ==> !V(Pte(old(tables), r, v))
      ensures ok ==> Valid() && Owned() && Freed(old(data), data, old(tables), r, 0, PagesOf(sz))
      ensures ok ==> forall q: nat :: IsRoot(place, q) <==> IsRoot(old(place), q) && q != r
      ensures ok ==> forall q: nat, v: nat :: IsRoot(place, q) && v < PAGES ==>
                Pte(tables, q, v) == Pte(old(tables), q, v)
      ensures ok ==> forall x :: x in old(place) && old(place)[x].root == r ==> x in free
      ensures ok ==> forall v :: 0 <= v < PagesOf(sz) ==> Frame(old(tables), r, v) in free
    {
      var n := PagesOf(sz);
      assert sz == 0 ==> n == 0 && AllRemovable(end, tables, r, 0, n, true);
      hide TreeOk; hide PagesOk; hide LeavesOk; hide Pte; hide IsRoot; hide Freed; hide Removed;
      hide AllRemovable; hide V; hide Rwx;
      hide NoLeaf; hide LeavesMarked; hide PagesOf; hide Frame;
      RemovedNone(place, tables, data, r, 0, true);
      if sz > 0 {
        ok := Uvmunmap(r, 0, n, true);
        if !ok {
          return;
        }
      }
      ghost var ts, pl := tables, place;
      FreeStart(end, place, old(tables), tables, old(data), data, r, n);
      ok := FreeWalk(r, tables, place);
      if ok {
        RemovedFreed(pl, old(tables), ts, old(data), data, r, 0, n);
        FreeEnd(end, pl, old(tables), ts, tables, old(data), data, r, n);
        FreePages(end, pl, old(tables), tables, old(data), data, old(free), free, r, n);
        place := place - Subtree(place, r);
      }
    }
  }

  lemma DistinctPush(s: seq<nat>, p: nat)
    requires Distinct(s) && p !in s
    ensures Distinct([p] + s) && forall q: nat :: q in [p] + s <==> q == p || q in s
  {
  }

  lemma PageStart(e: nat)
    ensures var p := PagesOf(e) * PGSIZE; e <= p && p % PGSIZE == 0 && forall q: nat :: q % PGSIZE == 0 && e <= q ==>
              p <= q
  {
  }

  lemma PageNext(p: nat)
    requires p % PGSIZE == 0
    ensures (p + PGSIZE) % PGSIZE == 0 && forall q: nat :: q % PGSIZE == 0 && q < p + PGSIZE ==> q <= p
  {
  }

  lemma KallocOk(end: nat, ts: Tables, data: Store, free: seq<nat>)
    requires PagesOk(end, ts, data, free) && free != []
    ensures 0 < free[0] && free[0] !in data && free[0] !in ts
    ensures PagesOk(end, ts, data[free[0] := Fill(5)], free[1..])
  {
    var pa := free[0];
    assert free == [pa] + free[1..];
    assert pa in free && Managed(end, pa);
  }

  lemma EndPositive(end: nat, ts: Tables, data: Store, free: seq<nat>)
    requires PagesOk(end, ts, data, free)
    ensures 0 < end
  {
  }

  lemma KfreeOk(end: nat, ts: Tables, data: Store, free: seq<nat>, pa: nat)
    requires PagesOk(end, ts, data, free) && pa in data
    ensures PagesOk(end, ts, data - {pa}, [pa] + free)
  {
  }

  lemma PageShape(end: nat, ts: Tables, data: Store, free: seq<nat>, pa: nat)
    requires PagesOk(end, ts, data, free) && (pa in data || pa in ts || pa in free)
    ensures 0 < end && 0 < pa && pa % PGSIZE == 0 && (pa in data ==> |data[pa]| == PGSIZE)
  {
  }

  lemma TablesPlaced(ts: Tables, place: map<nat, Node>, c: nat)
    requires TreeOk(ts, place) && c !in ts
    ensures c !in place
  {
    if c in place {
      TableIs(ts, place, c);
    }
  }

  lemma ValidNonzero(ts: Tables, place: map<nat, Node>, t: nat, i: nat)
    requires TreeOk(ts, place) && t in place && !place[t].at.Low? && i < NPTE && t in ts && i < |ts[t]| && V(ts[t][i])
    ensures PA(ts[t][i]) != 0
  {
    assert DownOk(ts, place, t, i);
    assert TableOk(ts, PA(ts[t][i]));
  }

  lemma TableFromData(end: nat, ts: Tables, data: Store, free: seq<nat>, t: nat, i: nat, c: nat)
    requires PagesOk(end, ts, data, free) && c in data && t in ts && i < |ts[t]|
    ensures PagesOk(end, Hang(ts, t, i, c), data - {c}, free) && Hang(ts, t, i, c).Keys == ts.Keys + {c}
  {
  }

  lemma HangSteps(ts: Tables, t: nat, i: nat, c: nat)
    requires t in ts && i < |ts[t]| && !V(ts[t][i]) && c !in ts
    ensures StepsKept(ts, Hang(ts, t, i, c))
  {
    hide V; hide PA; hide Entry;
  }

  lemma SamePtesRefl(place: map<nat, Node>, ts: Tables)
    ensures SamePtes(place, ts, ts)
  {
  }

  lemma SamePtesTransitive(place: map<nat, Node>, place': map<nat, Node>, a: Tables, b: Tables, c: Tables)
    requires SameRoots(place, place') && SamePtes(place, a, b) && SamePtes(place', b, c)
    ensures SamePtes(place, a, c)
  {
    hide Pte; hide IsRoot;
  }

  lemma SetPtePages(end: nat, ts: Tables, data: Store, free: seq<nat>, t: nat, i: nat, e: nat)
    requires PagesOk(end, ts, data, free) && t in ts && i < |ts[t]|
    ensures PagesOk(end, SetPte(ts, t, i, e), data, free) && SetPte(ts, t, i, e).Keys == ts.Keys
  {
  }

  lemma PteAt(ts: Tables, place: map<nat, Node>, r: nat, v: nat)
    requires TreeOk(ts, place) && IsRoot(place, r) && v < PAGES && Walk(ts, r, v) != 0
    ensures var low := Walk(ts, r, v); low in ts && I0(v) < |ts[low]| && ts[low][I0(v)] == Pte(ts, r, v)
  {
    hide TreeOk; hide Walk;
    WalkPlace(ts, place, r, v);
  }

  lemma RewritesNone(place: map<nat, Node>, ts: Tables, r: nat)
    ensures Rewrites(place, ts, ts, r, map[])
  {
    hide Pte;
  }

  lemma RewritesSame(place: map<nat, Node>, place': map<nat, Node>, a: Tables, b: Tables, c: Tables, r: nat,
      m: map<nat, nat>)
    requires SameRoots(place, place') && Rewrites(place, a, b, r, m) && SamePtes(place', b, c)
    ensures Rewrites(place, a, c, r, m)
  {
    hide Pte; hide IsRoot;
  }

  lemma RewritesThen(place: map<nat, Node>, place': map<nat, Node>, a: Tables, b: Tables, c: Tables, r: nat,
      m: map<nat, nat>, m': map<nat, nat>)
    requires SameRoots(place, place') && Rewrites(place, a, b, r, m) && Rewrites(place', b, c, r, m')
    ensures Rewrites(place, a, c, r, m + m')
  {
    hide Pte; hide IsRoot;
  }

  lemma RewritesAt(place: map<nat, Node>, ts: Tables, ts': Tables, r: nat, m: map<nat, nat>, v: nat)
    requires Rewrites(place, ts, ts', r, m) && IsRoot(place, r) && v < PAGES
    ensures Pte(ts', r, v) == if v in m then m[v] else Pte(ts, r, v)
  {
    hide Pte; hide IsRoot;
  }

  lemma FrameHolds(end: nat, place: map<nat, Node>, ts: Tables, data: Store, r: nat, v: nat)
    requires LeavesOk(end, place, ts, data) && IsRoot(place, r) && v < PAGES && Managed(end, Frame(ts, r, v))
    ensures Frame(ts, r, v) in data
  {
  }

  /** Removing one mapping, and possibly its frame. */
  lemma LeavesUnmap(end: nat, place: map<nat, Node>, ts: Tables, ts': Tables, data: Store, data': Store, r: nat, v: nat)
    requires LeavesOk(end, place, ts, data) && Rewrites(place, ts, ts', r, map[v := 0]) && IsRoot(place, r) && v < PAGES
    requires 0 < end && (data' == data || (V(Pte(ts, r, v)) && data' == data - {Frame(ts, r, v)}))
    ensures LeavesOk(end, place, ts', data')
  {
    assert !V(0);
    hide V; hide PA; hide Pte; hide IsRoot;
    assert forall r': nat, v': nat :: IsRoot(place, r') && v' < PAGES ==>
      Frame(ts', r', v') == if r' == r && v' == v then 0 else Frame(ts, r', v');
    hide Rewrites; hide Frame;
  }

  lemma RemovableSame(end: nat, place: map<nat, Node>, ts: Tables, ts': Tables, d: Store, d': Store, r: nat,
      first: nat, k: nat, doFree: bool)
    requires Removed(place, ts, ts', d, d', r, first, k, doFree) && IsRoot(place, r)
    ensures Removable(end, ts', r, first + k, doFree) <==> Removable(end, ts, r, first + k, doFree)
    ensures first + k < PAGES ==> Frame(ts', r, first + k) == Frame(ts, r, first + k)
    ensures Removable(end, ts, r, first + k, doFree) ==> first + k < PAGES
  {
    hide Pte; hide IsRoot; hide V; hide PA; hide Flags; hide Freed;
  }

  lemma RemovedNone(place: map<nat, Node>, ts: Tables, data: Store, r: nat, first: nat, doFree: bool)
    ensures Removed(place, ts, ts, data, data, r, first, 0, doFree)
  {
    hide Pte;
  }

  lemma RemovedStep(place: map<nat, Node>, t0: Tables, t1: Tables, t2: Tables, d0: Store, d1: Store, d2: Store,
                    r: nat, first: nat, k: nat, doFree: bool)
    requires Removed(place, t0, t1, d0, d1, r, first, k, doFree) && Rewrites(place, t1, t2, r, map[first + k := 0])
    requires d2 == if doFree then d1 - {Frame(t0, r, first + k)} else d1
    ensures Removed(place, t0, t2, d0, d2, r, first, k + 1, doFree)
  {
    hide Rewrites; hide Frame;
    RewritesThen(place, place, t0, t1, t2, r, Zeros(first, k), map[first + k := 0]);
    assert Zeros(first, k + 1) == Zeros(first, k) + map[first + k := 0];
  }

  lemma OnePage(v: nat)
    ensures v * PGSIZE / PGSIZE == v && (v * PGSIZE + PGSIZE - 1) / PGSIZE == v && PagesOf(v * PGSIZE) == v
  {
  }

  lemma FreshFrame(end: nat, place: map<nat, Node>, ts: Tables, data: Store, data': Store, free: seq<nat>, p: nat)
    requires LeavesOk(end, place, ts, data) && PagesOk(end, ts, data', free) && p in data' && p !in data
    ensures Managed(end, p) && 0 < end && 0 < p && p % PGSIZE == 0 && Unmapped(place, ts, p)
  {
    hide Frame; hide IsRoot;
  }

  lemma LeavesDrop(end: nat, place: map<nat, Node>, ts: Tables, data: Store, p: nat)
    requires LeavesOk(end, place, ts, data) && Unmapped(place, ts, p)
    ensures LeavesOk(end, place, ts, data - {p})
  {
    hide Frame; hide IsRoot;
  }

  lemma RefillPages(end: nat, ts: Tables, data: Store, free: seq<nat>, p: nat, bytes: seq<byte>)
    requires PagesOk(end, ts, data, free) && p in data && |bytes| == PGSIZE
    ensures PagesOk(end, ts, data[p := bytes], free)
  {
  }

  /** Mapping a frame that nothing maps, once or not at all. */
  lemma AddedPage(end: nat, place: map<nat, Node>, place': map<nat, Node>, ts: Tables, ts': Tables, d: Store, d': Store,
                  r: nat, v: nat, mem: nat, flags: nat, k: nat)
    requires LeavesOk(end, place, ts, d) && SameRoots(place, place') && Unmapped(place, ts, mem) && mem in d'
    requires 0 < mem && 0 < end
    requires forall p :: p in d ==> p in d'
    requires Rewrites(place, ts, ts', r, Frames(v, k, mem, WithV(flags))) && k <= 1 && mem % PGSIZE == 0 && flags < 1024
    requires IsRoot(place, r) && (k == 1 ==> v < PAGES)
    ensures var e := Entry(mem, WithV(flags));
            && V(e) && PA(e) == mem && Flags(e) == WithV(flags) && LeavesOk(end, place', ts', d')
            && (if k == 1 then Rewrites(place, ts, ts', r, map[v := e]) else SamePtes(place, ts, ts') && Unmapped(place', ts', mem))
  {
    var e := Entry(mem, WithV(flags));
    EntryRoundTrip(mem, WithV(flags));
    EntryFlags(mem, WithV(flags));
    hide Entry; hide Pte; hide Flags;
    if k == 1 {
      assert Frames(v, 0, mem, WithV(flags)) == map[];
      assert Frames(v, 1, mem, WithV(flags)) == map[v := e];
      hide V; hide IsRoot;
      assert forall r': nat, v': nat :: IsRoot(place, r') && v' < PAGES ==>
        Frame(ts', r', v') == if r' == r && v' == v then mem else Frame(ts, r', v');
    } else {
      assert Frames(v, 0, mem, WithV(flags)) == map[];
      hide V; hide IsRoot;
      assert forall r': nat, v': nat :: IsRoot(place, r') && v' < PAGES ==> Frame(ts', r', v') == Frame(ts, r', v');
    }
  }

  lemma PagesOfMonotone(a: nat, b: nat)
    requires a <= b
    ensures PagesOf(a) <= PagesOf(b)
  {
  }

  lemma GrowingNone(end: nat, place: map<nat, Node>, ts: Tables, d: Store, r: nat, first: nat)
    requires IsRoot(place, r)
    ensures Growing(end, place, place, ts, ts, d, d, r, first, [], [])
  {
    hide Pte;
    assert Entries(first, []) == map[];
  }

  lemma GrowingGrown(end: nat, place0: map<nat, Node>, place: map<nat, Node>, ts0: Tables, ts: Tables,
      d0: Store, d: Store, r: nat, first: nat, es: seq<nat>, cs: seq<seq<byte>>)
    requires Growing(end, place0, place, ts0, ts, d0, d, r, first, es, cs)
    ensures Grown(place0, ts0, ts, d0, d, r, first, es, cs)
  {
  }

  /** The next page is as it was. */
  lemma GrowingAt(end: nat, place0: map<nat, Node>, place: map<nat, Node>, ts0: Tables, ts: Tables, d0: Store, d: Store,
                  r: nat, first: nat, es: seq<nat>, cs: seq<seq<byte>>)
    requires Growing(end, place0, place, ts0, ts, d0, d, r, first, es, cs)
    ensures first + |es| < PAGES ==> Pte(ts, r, first + |es|) == Pte(ts0, r, first + |es|)
  {
    hide Pte; hide V; hide PA; hide Flags; hide Managed;
    if first + |es| < PAGES {
      RewritesAt(place0, ts0, ts, r, Entries(first, es), first + |es|);
    }
  }

  lemma GrowingSame(end: nat, place0: map<nat, Node>, place: map<nat, Node>, place': map<nat, Node>,
      ts0: Tables, ts: Tables, ts': Tables, d0: Store, d: Store, r: nat, first: nat, es: seq<nat>, cs: seq<seq<byte>>)
    requires Growing(end, place0, place, ts0, ts, d0, d, r, first, es, cs) && SameRoots(place, place')
    requires SamePtes(place, ts, ts')
    ensures Growing(end, place0, place', ts0, ts', d0, d, r, first, es, cs)
  {
    hide Pte; hide V; hide PA; hide Flags; hide Managed; hide IsRoot; hide NewFrame;
    RewritesSame(place0, place, ts0, ts, ts', r, Entries(first, es));
  }

  lemma GrowingStep(end: nat, place0: map<nat, Node>, place: map<nat, Node>, place': map<nat, Node>,
      ts0: Tables, ts: Tables, ts': Tables,
                    d0: Store, d: Store, d': Store, r: nat, first: nat, es: seq<nat>, cs: seq<seq<byte>>, e: nat, c: seq<byte>)
    requires Growing(end, place0, place, ts0, ts, d0, d, r, first, es, cs) && SameRoots(place, place')
    requires Rewrites(place, ts, ts', r, map[first + |es| := e]) && d' == d[PA(e) := c] && PA(e) !in d
    requires V(e) && Flags(e) != 1 && Managed(end, PA(e)) && first + |es| < PAGES && !V(Pte(ts, r, first + |es|))
    ensures Growing(end, place0, place', ts0, ts', d0, d', r, first, es + [e], cs + [c])
  {
    hide Pte; hide V; hide PA; hide Flags; hide Managed; hide IsRoot; hide Rewrites; hide NewFrames;
    hide SameRoots; hide Entries;
    GrowingAt(end, place0, place, ts0, ts, d0, d, r, first, es, cs);
    SameRootsThen(place0, place, place');
    RewritesThen(place0, place, ts0, ts, ts', r, Entries(first, es), map[first + |es| := e]);
    EntriesNext(first, es, e);
    NewFramesStep(d0, d, d', es, cs, e, c);
  }

  lemma SameRootsThen(a: map<nat, Node>, b: map<nat, Node>, c: map<nat, Node>)
    requires SameRoots(a, b) && SameRoots(b, c)
    ensures SameRoots(a, c)
  {
    hide IsRoot;
  }

  lemma EntriesNext(first: nat, es: seq<nat>, e: nat)
    ensures Entries(first, es + [e]) == Entries(first, es) + map[first + |es| := e]
  {
    assert (es + [e])[..|es|] == es;
  }

  lemma NewFramesStep(d0: Store, d: Store, d': Store, es: seq<nat>, cs: seq<seq<byte>>, e: nat, c: seq<byte>)
    requires NewFrames(d0, d, es, cs) && d' == d[PA(e) := c] && PA(e) !in d && V(e)
    ensures NewFrames(d0, d', es + [e], cs + [c])
  {
    hide V; hide PA;
    var es', cs' := es + [e], cs + [c];
    forall j | 0 <= j < |es'|
      ensures NewFrame(d0, d', es'[j], cs'[j])
    {
      if j < |es| {
        assert NewFrame(d0, d, es[j], cs[j]);
      }
    }
    forall p: nat | p in d' && p !in d0
      ensures exists j :: 0 <= j < |es'| && p == PA(es'[j])
    {
      if p != PA(e) {
        var j :| 0 <= j < |es| && p == PA(es[j]);
        assert p == PA(es'[j]);
      } else {
        assert p == PA(es'[|es|]);
      }
    }
    forall i, j | 0 <= i < j < |es'|
      ensures PA(es'[i]) != PA(es'[j])
    {
      assert NewFrame(d0, d, es[i], cs[i]);
    }
  }

  lemma GrowingRemovable(end: nat, place0: map<nat, Node>, place: map<nat, Node>, ts0: Tables, ts: Tables,
      d0: Store, d: Store, r: nat, first: nat, es: seq<nat>, cs: seq<seq<byte>>)
    requires Growing(end, place0, place, ts0, ts, d0, d, r, first, es, cs)
    ensures AllRemovable(end, ts, r, first, |es|, true) && SameRoots(place0, place)
  {
    hide Pte; hide V; hide PA; hide Flags; hide Managed; hide IsRoot;
    forall v | first <= v < first + |es|
      ensures Removable(end, ts, r, v, true)
    {
      RewritesAt(place0, ts0, ts, r, Entries(first, es), v);
      assert NewFrame(d0, d, es[v - first], cs[v - first]);
    }
  }

  /** Unmapping the new pages brings the old state back. */
  lemma GrowingUndo(end: nat, place0: map<nat, Node>, place: map<nat, Node>, ts0: Tables, ts: Tables,
      d0: Store, d: Store, r: nat, first: nat, es: seq<nat>, cs: seq<seq<byte>>)
    requires Growing(end, place0, place, ts0, ts, d0, d, r, first, es, cs)
    ensures es == [] ==> SameMaps(place0, ts0, ts) && d == d0
    ensures forall ts', d' :: Removed(place, ts, ts', d, d', r, first, |es|, true) ==>
              SameMaps(place0, ts0, ts') && d' == d0
  {
    hide Growing;
    forall ts', d' | Removed(place, ts, ts', d, d', r, first, |es|, true)
      ensures SameMaps(place0, ts0, ts') && d' == d0
    {
      GrowingUndoOne(end, place0, place, ts0, ts, ts', d0, d, d', r, first, es, cs);
    }
    if es == [] {
      RemovedNone(place, ts, d, r, first, true);
    }
  }

  lemma GrowingUndoOne(end: nat, place0: map<nat, Node>, place: map<nat, Node>, ts0: Tables, ts: Tables,
      ts': Tables, d0: Store, d: Store, d': Store, r: nat, first: nat, es: seq<nat>, cs: seq<seq<byte>>)
    requires Growing(end, place0, place, ts0, ts, d0, d, r, first, es, cs)
    requires Removed(place, ts, ts', d, d', r, first, |es|, true)
    ensures SameMaps(place0, ts0, ts') && d' == d0
  {
    hide Pte; hide V; hide PA; hide Flags; hide Managed; hide IsRoot; hide Rewrites; hide Frame;
    hide NewFrames; hide Freed; hide SameRoots;
    RewritesThen(place0, place, ts0, ts, ts', r, Entries(first, es), Zeros(first, |es|));
    UndoMaps(place0, ts0, ts', r, Entries(first, es) + Zeros(first, |es|));
    forall v | first <= v < first + |es|
      ensures Frame(ts, r, v) == PA(es[v - first])
    {
      NewFrameAt(place0, ts0, ts, d0, d, r, first, es, cs, v);
    }
    FreedUndo(d0, d, d', ts, r, first, es, cs);
  }

  lemma UndoMaps(place: map<nat, Node>, ts: Tables, ts': Tables, r: nat, m: map<nat, nat>)
    requires Rewrites(place, ts, ts', r, m) && forall v :: v in m ==> m[v] == 0 && !V(Pte(ts, r, v))
    ensures SameMaps(place, ts, ts')
  {
    NotV();
    hide Pte; hide V; hide IsRoot;
  }

  lemma NewFrameAt(place: map<nat, Node>, ts0: Tables, ts: Tables, d0: Store, d: Store, r: nat, first: nat,
      es: seq<nat>, cs: seq<seq<byte>>, v: nat)
    requires Grown(place, ts0, ts, d0, d, r, first, es, cs) && IsRoot(place, r) && first <= v < first + |es|
    requires v < PAGES
    ensures Frame(ts, r, v) == PA(es[v - first])
  {
    hide Pte; hide V; hide PA; hide IsRoot; hide Rewrites;
    RewritesAt(place, ts0, ts, r, Entries(first, es), v);
    assert NewFrame(d0, d, es[v - first], cs[v - first]);
  }

  lemma FreedUndo(d0: Store, d: Store, d': Store, ts: Tables, r: nat, first: nat, es: seq<nat>, cs: seq<seq<byte>>)
    requires NewFrames(d0, d, es, cs) && Freed(d, d', ts, r, first, |es|)
    requires forall v :: first <= v < first + |es| ==> Frame(ts, r, v) == PA(es[v - first])
    ensures d' == d0
  {
    hide Frame; hide PA; hide V;
    forall p: nat
      ensures p in d' <==> p in d0
    {
      if p in d && p !in d0 {
        var j :| 0 <= j < |es| && p == PA(es[j]);
        assert Frame(ts, r, first + j) == p;
      }
      if p in d0 {
        forall v | first <= v < first + |es|
          ensures Frame(ts, r, v) != p
        {
          assert NewFrame(d0, d, es[v - first], cs[v - first]);
        }
      }
    }
  }

  lemma LeafFlags(xperm: nat)
    requires xperm % 4 == 0
    ensures WithV(18 + xperm) == 19 + xperm
  {
  }

  /** A copy into q leaves the pages of another table, and the frames there were, alone. */
  lemma GrowingElsewhere(end: nat, place0: map<nat, Node>, place: map<nat, Node>, ts0: Tables, ts: Tables,
      d0: Store, d: Store, q: nat, es: seq<nat>, r: nat, v: nat)
    requires Growing(end, place0, place, ts0, ts, d0, d, q, 0, es, Contents(ts0, d0, r, |es|)) && r != q
    requires IsRoot(place0, r) && v < PAGES
    ensures Pte(ts, r, v) == Pte(ts0, r, v) && forall p :: p in d0 ==> p in d && d[p] == d0[p]
  {
    hide Pte; hide V; hide PA; hide Flags; hide Managed; hide NewFrame;
  }

  lemma FlagsOfValid(e: nat)
    requires V(e)
    ensures Flags(e) < 1024 && V(Flags(e))
  {
  }

  lemma CopySource(end: nat, place: map<nat, Node>, ts: Tables, data: Store, r: nat, n: nat, v: nat)
    requires LeavesOk(end, place, ts, data) && IsRoot(place, r) && UserPages(end, ts, r, n) && v < n
    requires v < PAGES && V(Pte(ts, r, v))
    ensures PA(Pte(ts, r, v)) in data && Flags(Pte(ts, r, v)) < 1024
    ensures WithV(Flags(Pte(ts, r, v))) == Flags(Pte(ts, r, v)) != 1
    ensures Frame(ts, r, v) == PA(Pte(ts, r, v))
  {
    var e := Pte(ts, r, v);
    hide Pte; hide PA; hide IsRoot; hide LeavesOk;
    FlagsOfValid(e);
    hide V; hide Flags;
    FrameHolds(end, place, ts, data, r, v);
  }

  lemma ContentsNext(ts: Tables, data: Store, r: nat, n: nat)
    ensures Contents(ts, data, r, n + 1) == Contents(ts, data, r, n) + [if Frame(ts, r, n) in data then data[Frame(ts, r, n)] else []]
  {
    hide Frame;
  }

  lemma UserHolds(end: nat, place: map<nat, Node>, ts: Tables, data: Store, free: seq<nat>, r: nat, v: nat)
    requires LeavesOk(end, place, ts, data) && UserManaged(end, place, ts) && PagesOk(end, ts, data, free)
    requires IsRoot(place, r) && UserFrame(ts, r, v) != 0
    ensures UserFrame(ts, r, v) in data && |data[UserFrame(ts, r, v)]| == PGSIZE
  {
    hide Frame; hide IsRoot;
    FrameHolds(end, place, ts, data, r, v);
  }

  /** Within one page translation only adds the offset. */
  lemma SamePage(ts: Tables, data: Store, r: nat, va: nat, n: nat)
    requires va % PGSIZE + n <= PGSIZE
    ensures forall x :: va <= x < va + n ==> IsUser(ts, r, x) == IsUser(ts, r, va)
    ensures var p := UserFrame(ts, r, va / PGSIZE);
            p in data && |data[p]| == PGSIZE ==>
              forall x :: va <= x < va + n ==> ByteAt(ts, data, r, x) == data[p][va % PGSIZE + (x - va)]
  {
    hide UserFrame;
    forall x | va <= x < va + n
      ensures x / PGSIZE == va / PGSIZE && x % PGSIZE == va % PGSIZE + (x - va)
    {
    }
  }

  lemma StoredNone(place: map<nat, Node>, ts: Tables, data: Store, r: nat, va: nat)
    ensures Stored(place, ts, data, data, r, va, [])
  {
    hide ByteAt; hide IsRoot;
  }

  lemma StoredThen(place: map<nat, Node>, ts: Tables, d0: Store, d1: Store, d2: Store, r: nat, va: nat,
      bytes: seq<byte>, chunk: seq<byte>)
    requires Stored(place, ts, d0, d1, r, va, bytes) && Stored(place, ts, d1, d2, r, va + |bytes|, chunk)
    ensures Stored(place, ts, d0, d2, r, va, bytes + chunk)
  {
    hide ByteAt; hide IsRoot; hide IsUser; hide UserFrame;
    forall p | p in d0 && d2[p] != d0[p]
      ensures exists x :: va <= x < va + |bytes + chunk| && IsUser(ts, r, x) && UserFrame(ts, r, x / PGSIZE) == p
    {
      if d1[p] != d0[p] {
        var x :| va <= x < va + |bytes| && IsUser(ts, r, x) && UserFrame(ts, r, x / PGSIZE) == p;
      } else {
        var x :| va + |bytes| <= x < va + |bytes| + |chunk| && IsUser(ts, r, x) && UserFrame(ts, r, x / PGSIZE) == p;
      }
    }
  }

  /** memmove into one user page. */
  lemma PatchOk(end: nat, place: map<nat, Node>, ts: Tables, data: Store, free: seq<nat>, r: nat, va: nat,
      chunk: seq<byte>)
    requires LeavesOk(end, place, ts, data) && UserManaged(end, place, ts) && PagesOk(end, ts, data, free)
    requires IsRoot(place, r)
    requires IsUser(ts, r, va) && 0 < |chunk| && va % PGSIZE + |chunk| <= PGSIZE
    ensures var p := UserFrame(ts, r, va / PGSIZE);
            && p in data && |data[p]| == PGSIZE
            && var data' := data[p := Patch(data[p], va % PGSIZE, chunk)];
            && PagesOk(end, ts, data', free) && LeavesOk(end, place, ts, data')
            && Stored(place, ts, data, data', r, va, chunk)
  {
    UserHolds(end, place, ts, data, free, r, va / PGSIZE);
    var p := UserFrame(ts, r, va / PGSIZE);
    var page := Patch(data[p], va % PGSIZE, chunk);
    var data' := data[p := page];
    RefillPages(end, ts, data, free, p, page);
    SamePage(ts, data, r, va, |chunk|);
    SamePage(ts, data', r, va, |chunk|);
    hide PagesOk; hide Patch;
    assert LeavesOk(end, place, ts, data') by { hide Frame; hide IsRoot; }
    forall r': nat, x: nat | IsRoot(place, r')
      ensures ByteAt(ts, data', r', x) == if r' == r && va <= x < va + |chunk| then chunk[x - va] else ByteAt(ts, data, r', x)
    {
      PatchByte(end, place, ts, data, data', r, va, chunk, r', x);
    }
    assert IsUser(ts, r, va) && UserFrame(ts, r, va / PGSIZE) == p;
  }

  lemma PatchByte(end: nat, place: map<nat, Node>, ts: Tables, data: Store, data': Store, r: nat, va: nat,
      chunk: seq<byte>, r': nat, x: nat)
    requires LeavesOk(end, place, ts, data) && UserManaged(end, place, ts) && IsRoot(place, r) && IsRoot(place, r')
    requires IsUser(ts, r, va) && va % PGSIZE + |chunk| <= PGSIZE
    requires var p := UserFrame(ts, r, va / PGSIZE);
             p in data && |data[p]| == PGSIZE && data' == data[p := Patch(data[p], va % PGSIZE, chunk)]
    ensures ByteAt(ts, data', r', x) == if r' == r && va <= x < va + |chunk| then chunk[x - va] else ByteAt(ts, data, r', x)
  {
    hide Frame; hide IsRoot; hide Patch; hide U;
    var p, p' := UserFrame(ts, r, va / PGSIZE), UserFrame(ts, r', x / PGSIZE);
    if p' == p {
      assert Frame(ts, r, va / PGSIZE) == Frame(ts, r', x / PGSIZE);
      assert r' == r && x / PGSIZE == va / PGSIZE;
    } else {
      assert !(r' == r && x / PGSIZE == va / PGSIZE);
    }
  }

  lemma StringHere(ts: Tables, data: Store, r: nat, va: nat, dst: seq<byte>)
    requires forall i :: 0 <= i < |dst| ==> dst[i] == ByteAt(ts, data, r, va + i) && dst[i] != 0
    requires AllUser(ts, r, va, |dst| + 1) && ByteAt(ts, data, r, va + |dst|) == 0
    ensures StringAt(ts, data, r, va, |dst|)
  {
    hide ByteAt; hide IsUser;
    forall x | va <= x < va + |dst|
      ensures ByteAt(ts, data, r, x) != 0
    {
      assert dst[x - va] == ByteAt(ts, data, r, va + (x - va));
    }
  }

  lemma NoString(ts: Tables, data: Store, r: nat, va: nat, dst: seq<byte>, max: nat)
    requires forall i :: 0 <= i < |dst| ==> dst[i] == ByteAt(ts, data, r, va + i) && dst[i] != 0
    requires |dst| == max || !IsUser(ts, r, va + |dst|)
    ensures !exists n :: 0 <= n < max && StringAt(ts, data, r, va, n)
  {
    hide ByteAt; hide IsUser;
    forall n | 0 <= n < max
      ensures !StringAt(ts, data, r, va, n)
    {
      if n < |dst| {
        assert dst[n] == ByteAt(ts, data, r, va + n);
      }
    }
  }

  lemma NewRoot(ts: Tables, place: map<nat, Node>, r: nat)
    requires TreeOk(ts, place) && r !in ts && 0 < r && r % PGSIZE == 0
    ensures var ts', place' := ts[r := EmptyTable()], place[r := Node(r, Root, r)];
            && TreeOk(ts', place') && r !in place && IsRoot(place', r)
            && (forall q: nat, v: nat :: IsRoot(place', q) && v < PAGES ==>
                  Pte(ts', q, v) == if q == r then 0 else Pte(ts, q, v))
  {
    NotV();
    hide V; hide PA; hide Flags; hide I0; hide I1; hide I2;
    var ts', place' := ts[r := EmptyTable()], place[r := Node(r, Root, r)];
    forall x: nat, j: nat | x in place' && j < NPTE
      ensures DownOk(ts', place', x, j)
    {
      if x in place {
        assert DownOk(ts, place, x, j);
      }
    }
    forall x | x in place'
      ensures UpOk(ts', place', x)
    {
      if x in place {
        assert UpOk(ts, place, x);
      }
    }
    hide TreeOk;
    forall q: nat, v: nat | IsRoot(place', q) && v < PAGES
      ensures Pte(ts', q, v) == if q == r then 0 else Pte(ts, q, v)
    {
      IndexBound(v);
      if q != r {
        TableIs(ts, place, q);
        if Step(ts, q, I2(v)) != 0 {
          StepPlace(ts, place, q, I2(v));
          if Step(ts, Step(ts, q, I2(v)), I1(v)) != 0 {
            StepPlace(ts, place, Step(ts, q, I2(v)), I1(v));
          }
        }
      }
    }
  }

  lemma TableFromNew(end: nat, ts: Tables, data: Store, free: seq<nat>, r: nat)
    requires PagesOk(end, ts, data, free) && r in data
    ensures PagesOk(end, ts[r := EmptyTable()], data - {r}, free)
  {
  }

  lemma LeavesNew(end: nat, place: map<nat, Node>, ts: Tables, data: Store, r: nat)
    requires LeavesOk(end, place, ts, data) && 0 < end
    requires var ts', place' := ts[r := EmptyTable()], place[r := Node(r, Root, r)];
             forall q: nat, v: nat :: IsRoot(place', q) && v < PAGES ==>
                 Pte(ts', q, v) == if q == r then 0 else Pte(ts, q, v)
    ensures LeavesOk(end, place[r := Node(r, Root, r)], ts[r := EmptyTable()], data)
  {
    NotV();
    hide Pte; hide V; hide PA;
    var ts', place' := ts[r := EmptyTable()], place[r := Node(r, Root, r)];
    assert forall q: nat, v: nat :: IsRoot(place', q) && v < PAGES ==>
        Frame(ts', q, v) == if q == r then 0 else Frame(ts, q, v);
  }

  lemma FreedBelowNone(ts0: Tables, pl: map<nat, Node>, was: Tables, t: nat)
    requires TreeOk(ts0, pl) && t in pl && Intact(pl, ts0, was, t)
    ensures FreedBelow(ts0, pl, was, was, t, 0)
  {
    TableIs(ts0, pl, t);
    assert Under(pl, t, t);
  }

  lemma FreedBelowAt(ts0: Tables, pl: map<nat, Node>, was: Tables, now: Tables, t: nat, i: nat)
    requires FreedBelow(ts0, pl, was, now, t, i) && i < NPTE
    ensures t in now && i < |now[t]| && t in ts0 && i < |ts0[t]| && now[t][i] == ts0[t][i]
  {
  }

  /** A link leads to an intact smaller tree; a leaf in it is a leaf below t. */
  lemma FreeChild(ts0: Tables, pl: map<nat, Node>, was: Tables, now: Tables, t: nat, i: nat)
    requires TreeOk(ts0, pl) && FreedBelow(ts0, pl, was, now, t, i) && i < NPTE && LeavesMarked(ts0, pl, t)
    requires V(ts0[t][i]) && !Rwx(ts0[t][i])
    ensures var c := PA(ts0[t][i]);
            && !pl[t].at.Low? && c in pl && Height(pl, c) < Height(pl, t) && LeavesMarked(ts0, pl, c)
            && Intact(pl, ts0, now, c)
            && (NoLeaf(ts0, pl, t) ==> NoLeaf(ts0, pl, c))
  {
    TableIs(ts0, pl, t);
    assert Under(pl, t, t) && LeafAt(ts0, t, i);
    hide TreeOk; hide V; hide PA; hide Rwx; hide Flags; hide LeafAt;
    BelowNext(ts0, pl, t, i);
    var c := PA(ts0[t][i]);
    forall x | Under(pl, c, x)
      ensures Under(pl, t, x) && x in now && now[x] == ts0[x]
    {
      assert x in Subtree(pl, c) && x !in Below(pl, t, i);
      assert x in Below(pl, t, i + 1);
    }
  }

  lemma FreedBelowChild(ts0: Tables, pl: map<nat, Node>, was: Tables, mid: Tables, now: Tables, t: nat, i: nat)
    requires TreeOk(ts0, pl) && FreedBelow(ts0, pl, was, mid, t, i) && i < NPTE && !pl[t].at.Low? && V(ts0[t][i])
    requires NoLeaf(ts0, pl, PA(ts0[t][i])) && now == mid - Subtree(pl, PA(ts0[t][i]))
    ensures t in now && i < |now[t]| && FreedBelow(ts0, pl, was, SetPte(now, t, i, 0), t, i + 1)
  {
    TableIs(ts0, pl, t);
    hide TreeOk; hide V; hide PA; hide LeafAt;
    BelowNext(ts0, pl, t, i);
    hide Under; hide Branch;
  }

  lemma FreedBelowSkip(ts0: Tables, pl: map<nat, Node>, was: Tables, now: Tables, t: nat, i: nat)
    requires TreeOk(ts0, pl) && FreedBelow(ts0, pl, was, now, t, i) && i < NPTE && !V(ts0[t][i])
    ensures FreedBelow(ts0, pl, was, now, t, i + 1)
  {
    TableIs(ts0, pl, t);
    if pl[t].at.Low? {
      assert Below(pl, t, i + 1) == Below(pl, t, i) == {};
    } else {
      hide TreeOk; hide V; hide PA; hide LeafAt;
      BelowNext(ts0, pl, t, i);
    }
  }

  lemma FreePanic(ts0: Tables, pl: map<nat, Node>, t: nat, i: nat)
    requires TreeOk(ts0, pl) && t in pl && i < NPTE && t in ts0 && i < |ts0[t]| && V(ts0[t][i]) && Rwx(ts0[t][i])
    ensures !NoLeaf(ts0, pl, t)
  {
    TableIs(ts0, pl, t);
    assert DownOk(ts0, pl, t, i);
    assert Under(pl, t, t) && LeafAt(ts0, t, i);
  }

  lemma FreedBelowEnd(ts0: Tables, pl: map<nat, Node>, was: Tables, now: Tables, t: nat)
    requires TreeOk(ts0, pl) && FreedBelow(ts0, pl, was, now, t, NPTE)
    ensures t in now && NoLeaf(ts0, pl, t) && now - {t} == was - Subtree(pl, t)
  {
    BelowAll(ts0, pl, t);
    hide TreeOk; hide LeafAt;
    forall x: nat, j: nat | Under(pl, t, x) && pl[x].at.Low? && j < NPTE
      ensures !LeafAt(ts0, x, j)
    {
      assert x in Subtree(pl, t);
    }
  }

  lemma TablePage(end: nat, ts: Tables, data: Store, free: seq<nat>, t: nat)
    requires PagesOk(end, ts, data, free) && t in ts
    ensures PagesOk(end, ts - {t}, data, [t] + free)
  {
  }

  lemma FreeStart(end: nat, place: map<nat, Node>, ts: Tables, ts': Tables, d: Store, d': Store, r: nat, n: nat)
    requires TreeOk(ts', place) && ts'.Keys == place.Keys && IsRoot(place, r)
    requires Removed(place, ts, ts', d, d', r, 0, n, true)
    requires forall v: nat :: v < PAGES && V(Pte(ts, r, v)) ==> Rwx(Pte(ts, r, v))
    ensures LeavesMarked(ts', place, r) && Intact(place, ts', ts', r) && r in place
    ensures NoLeaf(ts', place, r) <==> forall v :: n <= v < PAGES ==> !V(Pte(ts, r, v))
  {
    NotV();
    hide Pte; hide V; hide Rwx; hide TreeOk; hide Freed;
    NoLeafPages(ts', place, r);
    hide LeavesMarked; hide NoLeaf;
    forall v: nat | v < PAGES
      ensures Pte(ts', r, v) == if v < n then 0 else Pte(ts, r, v)
    {
      RewritesAt(place, ts, ts', r, Zeros(0, n), v);
    }
  }

  lemma FreeEnd(end: nat, place: map<nat, Node>, ts: Tables, ts': Tables, now: Tables, d: Store, d': Store, r: nat,
      n: nat)
    requires TreeOk(ts', place) && ts'.Keys == place.Keys && IsRoot(place, r)
    requires Removed(place, ts, ts', d, d', r, 0, n, true)
    requires LeavesOk(end, place, ts', d') && now == ts' - Subtree(place, r)
    ensures var place' := place - Subtree(place, r);
            && TreeOk(now, place') && now.Keys == place'.Keys && LeavesOk(end, place', now, d')
            && (forall q: nat :: IsRoot(place', q) <==> IsRoot(place, q) && q != r)
            && (forall q: nat, v: nat :: IsRoot(place', q) && v < PAGES ==> Pte(now, q, v) == Pte(ts, q, v))
    ensures forall x :: x in now <==> x in ts' && place[x].root != r
  {
    DropTree(ts', place, r);
    hide TreeOk; hide Subtree;
    var place' := place - Subtree(place, r);
    forall q: nat, v: nat | IsRoot(place', q) && v < PAGES
      ensures Pte(now, q, v) == Pte(ts', q, v) == Pte(ts, q, v)
    {
      DropPte(ts', place, r, q, v);
      hide Pte; hide Freed;
    }
    hide Pte; hide V; hide PA; hide Rewrites; hide Removed;
    assert forall q: nat, v: nat :: IsRoot(place', q) && v < PAGES ==> Frame(now, q, v) == Frame(ts', q, v);
    hide Frame;
  }

  lemma FreePages(end: nat, place: map<nat, Node>, ts: Tables, now: Tables, d: Store, d': Store, free: seq<nat>,
      free': seq<nat>, r: nat, n: nat)
    requires PagesOk(end, ts, d, free) && PagesOk(end, now, d', free') && ts.Keys == place.Keys
    requires LeavesOk(end, place, ts, d) && IsRoot(place, r)
    requires Freed(d, d', ts, r, 0, n) && AllRemovable(end, ts, r, 0, n, true)
    requires forall x :: x in now <==> x in ts && place[x].root != r
    ensures forall x :: x in place && place[x].root == r ==> x in free'
    ensures forall v :: 0 <= v < n ==> Frame(ts, r, v) in free'
  {
    hide Pte; hide PA; hide V; hide Flags;
    forall x | x in place && place[x].root == r
      ensures x in free'
    {
      assert Managed(end, x) && x !in d && x !in now;
    }
    forall v | 0 <= v < n
      ensures Frame(ts, r, v) in free'
    {
      assert Removable(end, ts, r, v, true);
      FrameHolds(end, place, ts, d, r, v);
    }
  }

  lemma RemovedFreed(place: map<nat, Node>, ts: Tables, ts': Tables, d: Store, d': Store, r: nat, first: nat, k: nat)
    requires Removed(place, ts, ts', d, d', r, first, k, true)
    ensures Freed(d, d', ts, r, first, k)
  {
  }
}
