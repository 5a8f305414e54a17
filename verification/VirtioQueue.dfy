/** The descriptor table of the virtio block driver (kernel/virtio_disk.c): which descriptors
    are free, and the chains in the table. */
module VirtioQueue {
  import opened Basics

  const NUM := 8
  const F_NEXT := 1      // VRING_DESC_F_NEXT
  const F_WRITE := 2     // VRING_DESC_F_WRITE

  /** What a descriptor points to: a command header, a buffer's data, or a status byte. */
  datatype Addr = Null | Header(i: nat) | Data(b: nat) | Status(i: nat)

  datatype Desc = Desc(addr: Addr, len: nat, flags: nat, next: nat)

  const ZERO := Desc(Null, 0, 0, 0)

  predicate HasNext(flags: nat) { flags % 2 == 1 }

  /** Descriptors and their free flags. */
  datatype Pool = Pool(desc: seq<Desc>, free: seq<bool>)

  ghost predicate PoolOk(p: Pool) {
    |p.desc| == NUM && |p.free| == NUM
  }

  function InUse(free: seq<bool>): nat {
    if free == [] then 0 else (if free[0] then 0 else 1) + InUse(free[1..])
  }

  lemma {:induction false} InUseFree(free: seq<bool>, i: nat)
    requires i < |free| && !free[i]
    ensures InUse(free[i := true]) < InUse(free)
  {
    if i > 0 {
      InUseFree(free[1..], i - 1);
      assert free[i := true][1..] == free[1..][i - 1 := true];
    } else {
      assert free[i := true][1..] == free[1..];
    }
  }

  /** free_desc; None is a panic. */
  function FreeDesc(p: Pool, i: nat): (q: Option<Pool>) {
    if i >= NUM || i >= |p.free| || i >= |p.desc| || p.free[i] then None
    else Some(Pool(p.desc[i := ZERO], p.free[i := true]))
  }

  /** free_chain; None is a panic.  A cycle would meet a free descriptor. */
  function FreeChain(p: Pool, i: nat): (q: Option<Pool>)
    decreases InUse(p.free)
  {
    match FreeDesc(p, i)
    case None => None
    case Some(q) =>
      InUseFree(p.free, i);
      if HasNext(p.desc[i].flags) then FreeChain(q, p.desc[i].next) else Some(q)
  }

  /** The descriptors `ds` hang together in that order. */
  ghost predicate Chained(desc: seq<Desc>, ds: seq<nat>) {
    && ds != [] && (forall k :: 0 <= k < |ds| ==> ds[k] < |desc|)
    && (forall j, k :: 0 <= j < k < |ds| ==> ds[j] != ds[k])
    && (forall k :: 0 <= k < |ds| ==> Linked(desc, ds, k))
  }

  ghost predicate Linked(desc: seq<Desc>, ds: seq<nat>, k: nat)
    requires k < |ds| && ds[k] < |desc|
  {
    if k < |ds| - 1 then HasNext(desc[ds[k]].flags) && desc[ds[k]].next == ds[k + 1] else !HasNext(desc[ds[k]].flags)
  }

  /** A chain without its first descriptor, which may have changed. */
  lemma ChainTail(desc: seq<Desc>, ds: seq<nat>, d: Desc)
    requires Chained(desc, ds) && |ds| > 1
    ensures Chained(desc[ds[0] := d], ds[1..]) && ds[0] !in ds[1..] && HasNext(desc[ds[0]].flags)
    ensures desc[ds[0]].next == ds[1]
  {
    var rest, desc' := ds[1..], desc[ds[0] := d];
    assert Linked(desc, ds, 0);
    forall k | 0 <= k < |rest|
      ensures rest[k] < |desc'| && rest[k] != ds[0] && Linked(desc', rest, k)
    {
      assert rest[k] == ds[k + 1] && Linked(desc, ds, k + 1);
    }
  }

  lemma ChainPush(desc: seq<Desc>, i: nat, d: Desc, rest: seq<nat>)
    requires i < |desc| && Chained(desc[i := d], rest) && i !in rest && HasNext(desc[i].flags)
    requires desc[i].next == rest[0]
    ensures Chained(desc, [i] + rest)
  {
    var ds := [i] + rest;
    forall k | 0 <= k < |ds|
      ensures ds[k] < |desc| && Linked(desc, ds, k)
    {
      if k > 0 {
        assert ds[k] == rest[k - 1] && Linked(desc[i := d], rest, k - 1);
      }
    }
  }

  /** The pool after exactly the descriptors `ds` have been freed. */
  ghost predicate FreedOnly(p: Pool, q: Pool, ds: seq<nat>) {
    && |q.desc| == |p.desc| && |q.free| == |p.free|
    && (forall i :: 0 <= i < |p.desc| ==> q.desc[i] == if i in ds then ZERO else p.desc[i])
    && (forall i :: 0 <= i < |p.free| ==> q.free[i] == (p.free[i] || i in ds))
  }

  lemma FreedFirst(p: Pool, q: Pool, r: Pool, i: nat, rest: seq<nat>)
    requires PoolOk(p) && i < NUM && q == Pool(p.desc[i := ZERO], p.free[i := true]) && FreedOnly(q, r, rest)
    ensures FreedOnly(p, r, [i] + rest)
  {
    assert forall x :: x in [i] + rest <==> x == i || x in rest;
  }

  /** free_chain frees exactly the chain. */
  lemma {:induction false} FreeChainFrees(p: Pool, ds: seq<nat>)
    requires PoolOk(p) && Chained(p.desc, ds) && forall k :: 0 <= k < |ds| ==> !p.free[ds[k]]
    ensures FreeChain(p, ds[0]).Some? && FreedOnly(p, FreeChain(p, ds[0]).value, ds)
    decreases |ds|
  {
    var i := ds[0];
    var q := Pool(p.desc[i := ZERO], p.free[i := true]);
    if |ds| > 1 {
      ChainTail(p.desc, ds, ZERO);
      hide Chained;
      FreeChainFrees(q, ds[1..]);
      assert ds == [i] + ds[1..];
      FreedFirst(p, q, FreeChain(q, ds[1]).value, i, ds[1..]);
    } else {
      assert Linked(p.desc, ds, 0);
    }
  }

  /** free_chain panics, or has followed a chain of used descriptors to its end. */
  lemma {:induction false} FreeChainSound(p: Pool, i: nat) returns (ds: seq<nat>)
    requires PoolOk(p) && FreeChain(p, i).Some?
    ensures Chained(p.desc, ds) && ds[0] == i && (forall k :: 0 <= k < |ds| ==> !p.free[ds[k]])
    ensures FreedOnly(p, FreeChain(p, i).value, ds)
    decreases InUse(p.free)
  {
    var q := Pool(p.desc[i := ZERO], p.free[i := true]);
    InUseFree(p.free, i);
    if HasNext(p.desc[i].flags) {
      var rest := FreeChainSound(q, p.desc[i].next);
      ds := [i] + rest;
      ChainPush(p.desc, i, ZERO, rest);
      FreedFirst(p, q, FreeChain(q, p.desc[i].next).value, i, rest);
    } else {
      ds := [i];
    }
  }

  class Queue {
    var desc: seq<Desc>
    var free: seq<bool>

    ghost predicate Valid()
      reads this
    {
      PoolOk(Pool(desc, free))
    }

    constructor ()
      ensures Valid() && forall i :: 0 <= i < NUM ==> free[i] && desc[i] == ZERO
    {
      desc := seq(NUM, _ => ZERO);
      free := seq(NUM, _ => true);
    }

    /** alloc_desc: the first free descriptor. */
    method AllocDesc() returns (i: int)
      requires Valid()
      modifies this`free
      ensures Valid() && (i == -1 || (0 <= i < NUM && old(free)[i] && free == old(free)[i := false]))
      ensures i == -1 ==> free == old(free) && forall k :: 0 <= k < NUM ==> !free[k]
      ensures forall k :: 0 <= k < i ==> !free[k]
    {
      i := 0;
      while i < NUM
        invariant 0 <= i <= NUM && free == old(free) && forall k :: 0 <= k < i ==> !free[k]
      {
        if free[i] {
          free := free[i := false];
          return;
        }
        i := i + 1;
      }
      i := -1;
    }

    /** free_desc; false is a panic. */
    method Free(i: nat) returns (ok: bool)
      requires Valid()
      modifies this
      ensures ok <==> i < NUM && !old(free)[i]
      ensures ok ==> Valid() && free[i] && desc[i].addr == Null && desc[i].len == desc[i].flags == desc[i].next == 0
      ensures ok ==> forall j :: 0 <= j < NUM && j != i ==> free[j] == old(free)[j] && desc[j] == old(desc)[j]
    {
      if i >= NUM || free[i] {
        return false;
      }
      desc := desc[i := ZERO];
      free := free[i := true];
      return true;
    }

    /** free_chain; false is a panic. */
    method FreeAll(i: nat) returns (ok: bool)
      requires Valid()
      modifies this
      ensures ok <==> FreeChain(old(Pool(desc, free)), i).Some?
      ensures ok ==> Valid() && Pool(desc, free) == FreeChain(old(Pool(desc, free)), i).value
    {
      var at: nat := i;
      while true
        invariant Valid() && FreeChain(old(Pool(desc, free)), i) == FreeChain(Pool(desc, free), at)
        decreases InUse(free)
      {
        var flags: nat, next: nat := 0, 0;
        if at < NUM {
          flags, next := desc[at].flags, desc[at].next;
          if !free[at] {
            InUseFree(free, at);
          }
        }
        ok := Free(at);
        if !ok {
          return;
        }
        if !HasNext(flags) {
          return;
        }
        at := next;
      }
    }

    /** alloc3_desc: three distinct free descriptors, or none at all. */
    method Alloc3() returns (ok: bool, i0: nat, i1: nat, i2: nat)
      requires Valid()
      modifies this
      ensures Valid()
      ensures ok ==>
                && i0 < NUM && i1 < NUM && i2 < NUM && i0 != i1 && i0 != i2 && i1 != i2
                && old(free)[i0] && old(free)[i1] && old(free)[i2] && desc == old(desc)
                && free == old(free)[i0 := false][i1 := false][i2 := false]
      ensures !ok ==> free == old(free) && |desc| == NUM && forall i :: 0 <= i < NUM && !free[i] ==>
                desc[i] == old(desc)[i]
      ensures !ok ==> forall a, b, c :: 0 <= a < b < c < NUM ==> !(free[a] && free[b] && free[c])
    {
      ok, i0, i1, i2 := false, 0, 0, 0;
      var a := AllocDesc();
      if a < 0 {
        return;
      }
      var b := AllocDesc();
      if b < 0 {
        var freed := Free(a);
        return;
      }
      var c := AllocDesc();
      if c < 0 {
        var freed := Free(a);
        freed := Free(b);
        return;
      }
      return true, a, b, c;
    }
  }
}
