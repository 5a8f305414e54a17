/** Driver, device and interrupt of the virtio block disk (kernel/virtio_disk.c, sections 2.6
    and 5.2 of VIRTIO v1.1), as interleaved steps.  A driver step is what happens between two
    operations on vdisk_lock, or before and after the store to avail->idx that the device
    watches; the device serves the posted chains in any order. */
module Virtio {
  import opened Basics
  import Blocks
  import opened VirtioQueue

  const WRAP := 65536          // ring indices are uint16

  type Bytes = seq<nat>

  datatype Request = Request(buf: nat, write: bool, sector: nat)

  datatype Hdr = Hdr(write: bool, sector: nat)
  datatype Info = Info(b: Option<nat>, status: nat)

  /** Where a thread is in virtio_disk_rw: before alloc3_desc has succeeded, before the store
      to avail->idx, or asleep until b->disk is 0. */
  datatype Thread = Wanting(req: Request) | Filling(req: Request, head: nat) | Waiting(req: Request, head: nat)

  datatype Holder = Nobody | Caller(t: nat) | Interrupt

  /** History: how far a chain has come, from virtio_disk_rw to the device and back. */
  datatype Phase = Filled | Posted | Taken | Written | Used | Cleared
  datatype Chain = Chain(ds: seq<nat>, req: Request, thread: nat, phase: Phase)

  /** A ring of NUM slots, with the 16-bit indices of its reader and its writer; `list`, what
      has been written and not yet read, is history. */
  datatype Ring = Ring(slots: seq<nat>, reader: nat, writer: nat, list: seq<nat>)

  /** `busy` are the buffers with b->disk set; `working` and `writing` are the requests the
      device has in hand; `chains`, by head, is history. */
  datatype State = State(
    pool: Pool, info: seq<Info>, hdrs: seq<Hdr>, avail: Ring, used: Ring,
    working: set<nat>, writing: Option<nat>, busy: set<nat>, mem: map<nat, Bytes>, disk: map<nat, Bytes>,
    threads: map<nat, Thread>, holder: Holder, failed: bool, chains: map<nat, Chain>)

  datatype Action =
    | Call(t: nat, req: Request)         // enter virtio_disk_rw
    | Submit(t: nat, ds: seq<nat>)       // alloc3_desc gave ds: fill in descriptors and ring
    | Post(t: nat)                       // avail->idx += 1, then sleep
    | Finish(t: nat)                     // woken with b->disk == 0: free_chain and return
    | Take                               // the device reads the next avail entry
    | Serve(h: nat)                      // it carries out a request and writes status and used entry
    | Publish                            // used->idx += 1
    | IntrEnter | IntrNext | IntrExit
    | Touch(b: nat, data: Bytes)         // a CPU changes a buffer that is not being transferred

  ghost predicate Enabled(s: State, a: Action) {
    match a
    case Call(t, req) => t !in s.threads && forall u :: u in s.threads ==> s.threads[u].req.buf != req.buf
    case Submit(t, ds) =>
      && t in s.threads && s.threads[t].Wanting? && s.holder.Nobody?
      && |ds| == 3 && ds[0] != ds[1] && ds[0] != ds[2] && ds[1] != ds[2]
      && forall k :: 0 <= k < 3 ==> ds[k] < |s.pool.free| && s.pool.free[ds[k]]
    case Post(t) => t in s.threads && s.threads[t].Filling? && s.holder == Caller(t)
    case Finish(t) => t in s.threads && s.threads[t].Waiting? && s.holder.Nobody? && s.threads[t].req.buf !in s.busy
    case Take => s.avail.reader != s.avail.writer
    case Serve(h) => h in s.working && s.writing.None?
    case Publish => s.writing.Some?
    case IntrEnter => s.holder.Nobody?
    case IntrNext => s.holder.Interrupt? && s.used.reader != s.used.writer
    case IntrExit => s.holder.Interrupt? && s.used.reader == s.used.writer
    case Touch(b, _) => forall u :: u in s.threads ==> s.threads[u].req.buf != b
  }

  function Get(m: map<nat, Bytes>, k: nat): Bytes { if k in m then m[k] else [] }

  ghost function SetPhase(chains: map<nat, Chain>, h: nat, ph: Phase): map<nat, Chain> {
    if h in chains then chains[h := chains[h].(phase := ph)] else chains
  }

  function Slot(i: nat): (k: nat)
    ensures k < NUM
  {
    i % NUM
  }

  /** Write a slot, let the reader see it, and read one. */
  function Put(r: Ring, h: nat): Ring {
    if |r.slots| != NUM then r else
    var slots: seq<nat> := r.slots[Slot(r.writer) := h];
    r.(slots := slots)
  }
  function Advance(r: Ring, h: nat): Ring { r.(writer := (r.writer + 1) % WRAP, list := r.list + [h]) }
  function Front(r: Ring): nat { if |r.slots| != NUM then 0 else r.slots[Slot(r.reader)] }
  function Pop(r: Ring): Ring { r.(reader := (r.reader + 1) % WRAP, list := if r.list == [] then [] else r.list[1..]) }

  /** The descriptors, header and status that virtio_disk_rw fills in. */
  function Fill(p: Pool, ds: seq<nat>, req: Request): Pool
    requires |ds| == 3 && |p.free| == |p.desc| && forall k :: 0 <= k < 3 ==> ds[k] < |p.desc|
  {
    Pool(p.desc[ds[0] := Desc(Header(ds[0]), 16, F_NEXT, ds[1])]
         [ds[1] := Desc(Data(req.buf), Blocks.BSIZE, F_NEXT + (if req.write then 0 else F_WRITE), ds[2])]
         [ds[2] := Desc(Status(ds[0]), 1, F_WRITE, 0)],
         p.free[ds[0] := false][ds[1] := false][ds[2] := false])
  }

  datatype Command = Command(write: bool, sector: nat, buf: nat, status: nat)

  /** What the device makes of the chain at h; None if it is not a block request. */
  function Decode(s: State, h: nat): (c: Option<Command>) {
    if h >= |s.pool.desc| || !HasNext(s.pool.desc[h].flags) then None else
    var d0 := s.pool.desc[h];
    if d0.next >= |s.pool.desc| || !HasNext(s.pool.desc[d0.next].flags) then None else
    var d1 := s.pool.desc[d0.next];
    if d1.next >= |s.pool.desc| || HasNext(s.pool.desc[d1.next].flags) then None else
    var d2 := s.pool.desc[d1.next];
    if !d0.addr.Header? || d0.addr.i >= |s.hdrs| || !d1.addr.Data? || d1.len != Blocks.BSIZE || !d2.addr.Status? || d2.addr.i >= |s.info| then None else
    var hdr := s.hdrs[d0.addr.i];
    if (d1.flags / 2 % 2 == 1) == hdr.write || d2.flags / 2 % 2 != 1 then None
    else Some(Command(hdr.write, hdr.sector, d1.addr.b, d2.addr.i))
  }

  ghost function Do(s: State, a: Action): State
    requires Enabled(s, a)
  {
    match a
    case Call(t, req) => s.(threads := s.threads[t := Wanting(req)])
    case Submit(t, ds) => DoSubmit(s, t, ds)
    case Post(t) =>
      var h := s.threads[t].head;
      s.(avail := Advance(s.avail, h), holder := Nobody, threads := s.threads[t := Waiting(s.threads[t].req, h)],
         chains := SetPhase(s.chains, h, Posted))
    case Finish(t) => DoFinish(s, t)
    case Take =>
      var h := Front(s.avail);
      s.(avail := Pop(s.avail), working := s.working + {h}, chains := SetPhase(s.chains, h, Taken))
    case Serve(h) => DoServe(s, h)
    case Publish =>
      var h := s.writing.value;
      s.(used := Advance(s.used, h), writing := None, chains := SetPhase(s.chains, h, Used))
    case IntrEnter => s.(holder := Interrupt)
    case IntrNext => DoIntr(s)
    case IntrExit => s.(holder := Nobody)
    case Touch(b, data) => s.(mem := s.mem[b := data])
  }

  ghost function DoSubmit(s: State, t: nat, ds: seq<nat>): State
    requires Enabled(s, Submit(t, ds))
  {
    var req, h := s.threads[t].req, ds[0];
    if |s.pool.free| != NUM || |s.pool.desc| != NUM || |s.info| != NUM || |s.hdrs| != NUM then s.(failed := true)
    else
      s.(pool := Fill(s.pool, ds, req), info := s.info[h := Info(Some(req.buf), 255)], hdrs := s.hdrs[h := Hdr(req.write, req.sector)],
         avail := Put(s.avail, h), busy := s.busy + {req.buf}, threads := s.threads[t := Filling(req, h)],
         holder := Caller(t), chains := s.chains[h := Chain(ds, req, t, Filled)])
  }

  /** free_chain panics on a descriptor that is free or out of range. */
  ghost function DoFinish(s: State, t: nat): State
    requires Enabled(s, Finish(t))
  {
    var h := s.threads[t].head;
    if h >= |s.info| then s.(failed := true) else
    match FreeChain(s.pool, h)
    case None => s.(failed := true)
    case Some(q) =>
      s.(pool := q, info := s.info[h := s.info[h].(b := None)], threads := s.threads - {t}, chains := s.chains - {h})
  }

  ghost function DoServe(s: State, h: nat): State
    requires Enabled(s, Serve(h))
  {
    match Decode(s, h)
    case None => s.(failed := true)
    case Some(c) =>
      if c.status >= |s.info| then s.(failed := true) else
      s.(disk := if c.write then s.disk[c.sector := Get(s.mem, c.buf)] else s.disk,
         mem := if c.write then s.mem else s.mem[c.buf := Get(s.disk, c.sector)],
         info := s.info[c.status := s.info[c.status].(status := 0)],
         used := Put(s.used, h), working := s.working - {h}, writing := Some(h),
         chains := SetPhase(s.chains, h, Written))
  }

  /** The interrupt handler panics on a nonzero status. */
  ghost function DoIntr(s: State): State
    requires Enabled(s, IntrNext)
  {
    var id := Front(s.used);
    if id >= |s.info| || s.info[id].status != 0 || s.info[id].b.None? then s.(failed := true)
    else
      s.(busy := s.busy - {s.info[id].b.value}, used := Pop(s.used), chains := SetPhase(s.chains, id, Cleared))
  }

  // ---------- Invariant ----------

  ghost predicate Shape(s: State) {
    PoolOk(s.pool) && |s.info| == NUM && |s.hdrs| == NUM && !s.failed
  }

  /** The chain at h is a block request in the table, with three descriptors of its own. */
  ghost predicate InTable(pool: Pool, info: seq<Info>, hdrs: seq<Hdr>, h: nat, c: Chain) {
    && PoolOk(pool) && |info| == NUM && |hdrs| == NUM
    && |c.ds| == 3 && c.ds[0] == h && c.ds[0] != c.ds[1] && c.ds[0] != c.ds[2] && c.ds[1] != c.ds[2]
    && (forall k :: 0 <= k < 3 ==> c.ds[k] < NUM && !pool.free[c.ds[k]])
    && pool.desc[h] == Desc(Header(h), 16, F_NEXT, c.ds[1])
    && pool.desc[c.ds[1]] == Desc(Data(c.req.buf), Blocks.BSIZE, F_NEXT + (if c.req.write then 0 else F_WRITE), c.ds[2])
    && pool.desc[c.ds[2]] == Desc(Status(h), 1, F_WRITE, 0)
    && hdrs[h] == Hdr(c.req.write, c.req.sector) && info[h].b == Some(c.req.buf)
    && (c.phase.Written? || c.phase.Used? ==> info[h].status == 0)
  }

  /** Its thread waits for it, and b->disk is set until the interrupt handler has seen it. */
  ghost predicate Awaited(threads: map<nat, Thread>, busy: set<nat>, h: nat, c: Chain) {
    && (c.req.buf in busy <==> !c.phase.Cleared?)
    && c.thread in threads && threads[c.thread] == if c.phase.Filled? then Filling(c.req, h) else Waiting(c.req, h)
  }

  ghost predicate ChainsOk(pool: Pool, info: seq<Info>, hdrs: seq<Hdr>, chains: map<nat, Chain>) {
    forall h :: h in chains ==> InTable(pool, info, hdrs, h, chains[h])
  }

  /** A descriptor is free or in exactly one chain. */
  ghost predicate Partitioned(pool: Pool, chains: map<nat, Chain>) {
    && |pool.free| == NUM
    && (forall i :: 0 <= i < NUM && !pool.free[i] ==> exists h :: h in chains && i in chains[h].ds)
    && (forall h, h' :: h in chains && h' in chains && h != h' ==>
          forall i :: i in chains[h].ds ==> i !in chains[h'].ds)
  }

  ghost predicate AllAwaited(threads: map<nat, Thread>, busy: set<nat>, chains: map<nat, Chain>) {
    && (forall h :: h in chains ==> Awaited(threads, busy, h, chains[h]))
    && (forall b :: b in busy ==> exists h :: h in chains && chains[h].req.buf == b)
  }

  ghost predicate Callers(threads: map<nat, Thread>, holder: Holder, chains: map<nat, Chain>) {
    && (forall t, u :: t in threads && u in threads && t != u ==> threads[t].req.buf != threads[u].req.buf)
    && (forall t :: t in threads && !threads[t].Wanting? ==>
          threads[t].head in chains && chains[threads[t].head].thread == t)
    && (forall t :: t in threads && threads[t].Filling? ==> holder == Caller(t))
    && (holder.Caller? ==> holder.t in threads && threads[holder.t].Filling?)
  }

  ghost predicate ThreadsOk(threads: map<nat, Thread>, holder: Holder, busy: set<nat>, chains: map<nat, Chain>) {
    AllAwaited(threads, busy, chains) && Callers(threads, holder, chains)
  }

  /** `list` is what the ring holds from its reader's index up to its writer's. */
  ghost predicate RingHolds(r: Ring) {
    && |r.slots| == NUM && |r.list| <= NUM && r.reader < WRAP && r.writer == (r.reader + |r.list|) % WRAP
    && (forall i, j :: 0 <= i < j < |r.list| ==> r.list[i] != r.list[j])
    && (forall i :: 0 <= i < |r.list| ==> r.list[i] < NUM && r.list[i] == r.slots[Slot(r.reader + i)])
  }

  ghost predicate InPhase(chains: map<nat, Chain>, h: nat, ph: Phase) {
    h in chains && chains[h].phase == ph
  }

  ghost predicate RingsOk(avail: Ring, used: Ring, working: set<nat>, writing: Option<nat>, chains: map<nat, Chain>) {
    && RingHolds(avail) && RingHolds(used)
    && (forall h: nat :: h in avail.list <==> InPhase(chains, h, Posted))
    && (forall h: nat :: h in used.list <==> InPhase(chains, h, Used))
    && (forall h: nat :: h in working <==> InPhase(chains, h, Taken))
    && (forall h: nat :: writing == Some(h) <==> InPhase(chains, h, Written))
    && (forall h: nat :: InPhase(chains, h, Filled) ==> avail.slots[Slot(avail.writer)] == h)
    && (forall h: nat :: InPhase(chains, h, Written) ==> used.slots[Slot(used.writer)] == h)
  }

  ghost predicate Inv(s: State) {
    && Shape(s) && ChainsOk(s.pool, s.info, s.hdrs, s.chains) && Partitioned(s.pool, s.chains)
    && ThreadsOk(s.threads, s.holder, s.busy, s.chains) && RingsOk(s.avail, s.used, s.working, s.writing, s.chains)
  }

  // ---------- What the disk looks like to its callers ----------

  datatype Job = Job(req: Request, performed: bool)

  /** The calls of virtio_disk_rw in progress. */
  ghost function Jobs(threads: map<nat, Thread>, chains: map<nat, Chain>): map<nat, Job> {
    map t | t in threads :: Job(threads[t].req, Performed(chains, threads[t]))
  }

  ghost predicate Performed(chains: map<nat, Chain>, th: Thread) {
    th.Waiting? && th.head in chains && Served(chains[th.head].phase)
  }

  predicate Served(ph: Phase) { ph.Written? || ph.Used? || ph.Cleared? }

  /** The specification: a call's transfer happens once, at one moment between call and
      return, and nothing else touches the disk or a buffer in use. */
  ghost predicate SpecStep(s: State, a: Action, s': State) {
    var jobs, jobs' := Jobs(s.threads, s.chains), Jobs(s'.threads, s'.chains);
    match a
    case Call(t, req) => jobs' == jobs[t := Job(req, false)] && s'.disk == s.disk && s'.mem == s.mem
    case Finish(t) => t in jobs && jobs[t].performed && jobs' == jobs - {t} && s'.disk == s.disk && s'.mem == s.mem && s'.busy == s.busy
    case Serve(h) =>
      exists t :: && t in jobs && !jobs[t].performed && jobs' == jobs[t := Job(jobs[t].req, true)]
                  && Transfer(jobs[t].req, s.disk, s.mem, s'.disk, s'.mem)
    case Touch(b, data) =>
      (forall t :: t in jobs ==>
          jobs[t].req.buf != b) && jobs' == jobs && s'.disk == s.disk && s'.mem == s.mem[b := data]
    case IntrNext =>
      && jobs' == jobs && s'.disk == s.disk && s'.mem == s.mem
      && exists t :: t in jobs && jobs[t].performed && jobs[t].req.buf in s.busy && s'.busy == s.busy - {jobs[t].req.buf}
    case _ => jobs' == jobs && s'.disk == s.disk && s'.mem == s.mem
  }

  ghost predicate Transfer(req: Request, disk: map<nat, Bytes>, mem: map<nat, Bytes>, disk': map<nat, Bytes>,
      mem': map<nat, Bytes>) {
    if req.write then disk' == disk[req.sector := Get(mem, req.buf)] && mem' == mem
    else mem' == mem[req.buf := Get(disk, req.sector)] && disk' == disk
  }

  // ---------- Rings ----------

  lemma {:induction false} Pigeonhole(list: seq<nat>, pool: set<nat>)
    requires (forall i, j :: 0 <= i < j < |list| ==>
              list[i] != list[j]) && forall i :: 0 <= i < |list| ==> list[i] in pool
    ensures |list| <= |pool|
  {
    if list != [] {
      var rest := list[1..];
      forall i | 0 <= i < |rest|
        ensures rest[i] in pool - {list[0]}
      {
        assert rest[i] == list[i + 1];
      }
      Pigeonhole(rest, pool - {list[0]});
    }
  }

  lemma RoomFor(r: Ring, h: nat)
    requires RingHolds(r) && h < NUM && h !in r.list
    ensures |r.list| < NUM
  {
    var slots: set<nat> := {0, 1, 2, 3, 4, 5, 6, 7};
    assert |slots - {h}| == 7;
    Pigeonhole(r.list, slots - {h});
  }

  /** NUM divides 2^16, so a wrapped index has the same slot. */
  lemma SlotWrap(a: nat, i: nat)
    ensures Slot(a % WRAP + i) == Slot(a + i)
  {
  }

  lemma SlotApart(a: nat, i: nat, n: nat)
    requires i < n < NUM
    ensures Slot(a + i) != Slot(a + n)
  {
  }

  lemma RingPut(r: Ring, h: nat)
    requires RingHolds(r) && h < NUM && h !in r.list
    ensures RingHolds(Put(r, h)) && Put(r, h).slots[Slot(r.writer)] == h && Put(r, h).list == r.list
    ensures Put(r, h).writer == r.writer
  {
    hide Slot;
    RoomFor(r, h);
    SlotWrap(r.reader + |r.list|, 0);
    forall i | 0 <= i < |r.list|
      ensures r.list[i] == Put(r, h).slots[Slot(r.reader + i)]
    {
      SlotApart(r.reader, i, |r.list|);
    }
  }

  lemma RingAdvance(r: Ring, h: nat)
    requires RingHolds(r) && h < NUM && h !in r.list && r.slots[Slot(r.writer)] == h
    ensures RingHolds(Advance(r, h)) && forall x: nat :: x in Advance(r, h).list <==> x in r.list || x == h
  {
    hide Slot;
    RoomFor(r, h);
    SlotWrap(r.reader + |r.list|, 0);
  }

  /** The wrapped distance from reader to writer drops by one. */
  lemma IndexMoves(a: nat, n: nat)
    requires a < WRAP && n <= NUM
    ensures n == 0 ==> (a + n) % WRAP == a
    ensures 0 < n ==> ((a + 1) % WRAP + (n - 1)) % WRAP == (a + n) % WRAP
  {
    if a + 1 == WRAP && 0 < n {
      assert (a + n) % WRAP == n - 1;
    }
  }

  /** The entries behind the front one, in their slots. */
  lemma PopSlots(r: Ring)
    requires RingHolds(r) && r.list != []
    ensures forall i :: 0 <= i < |r.list| - 1 ==> r.list[1..][i] == r.slots[Slot((r.reader + 1) % WRAP + i)]
  {
    hide Slot;
    forall i | 0 <= i < |r.list| - 1
      ensures r.list[1..][i] == r.slots[Slot((r.reader + 1) % WRAP + i)]
    {
      SlotWrap(r.reader + 1, i);
      assert r.reader + (i + 1) == r.reader + 1 + i;
    }
  }

  /** The reader finds the oldest entry, whatever the 16-bit indices wrap to. */
  lemma RingPop(r: Ring)
    requires RingHolds(r) && r.reader != r.writer
    ensures r.list != [] && Front(r) == r.list[0] && RingHolds(Pop(r))
    ensures forall x: nat :: x in Pop(r).list <==> x in r.list && x != r.list[0]
  {
    hide Slot;
    IndexMoves(r.reader, |r.list|);
    PopSlots(r);
    var r' := Pop(r);
    assert r.list[0] == r.slots[Slot(r.reader + 0)];
    assert r.list == [r.list[0]] + r'.list;
  }

  // ---------- What a step does to each part of the invariant ----------

  lemma ChainsPhase(pool: Pool, info: seq<Info>, hdrs: seq<Hdr>, chains: map<nat, Chain>, h: nat, ph: Phase)
    requires ChainsOk(pool, info, hdrs, chains) && h in chains
    requires ph.Written? || ph.Used? ==> h < |info| && info[h].status == 0
    ensures ChainsOk(pool, info, hdrs, SetPhase(chains, h, ph))
  {
    hide PoolOk;
    var chains' := SetPhase(chains, h, ph);
    forall x | x in chains'
      ensures InTable(pool, info, hdrs, x, chains'[x])
    {
      assert InTable(pool, info, hdrs, x, chains[x]);
    }
  }

  lemma PartitionPhase(pool: Pool, chains: map<nat, Chain>, h: nat, ph: Phase)
    requires Partitioned(pool, chains)
    ensures Partitioned(pool, SetPhase(chains, h, ph))
  {
    var chains' := SetPhase(chains, h, ph);
    assert forall x :: x in chains' ==> x in chains && chains'[x].ds == chains[x].ds;
    forall i | 0 <= i < NUM && !pool.free[i]
      ensures exists x :: x in chains' && i in chains'[x].ds
    {
      var x :| x in chains && i in chains[x].ds;
      assert x in chains';
    }
  }

  lemma ThreadsPhase(threads: map<nat, Thread>, holder: Holder, busy: set<nat>, chains: map<nat, Chain>, h: nat,
      ph: Phase)
    requires ThreadsOk(threads, holder, busy, chains) && h in chains
    requires !chains[h].phase.Filled? && !chains[h].phase.Cleared? && !ph.Filled? && !ph.Cleared?
    ensures ThreadsOk(threads, holder, busy, SetPhase(chains, h, ph))
  {
    var chains' := SetPhase(chains, h, ph);
    assert AllAwaited(threads, busy, chains') by {
      hide Callers;
      forall x | x in chains'
        ensures Awaited(threads, busy, x, chains'[x])
      {
        assert Awaited(threads, busy, x, chains[x]);
      }
      SameBuffers(busy, chains, chains');
    }
    hide AllAwaited;
  }

  lemma SameBuffers(busy: set<nat>, chains: map<nat, Chain>, chains': map<nat, Chain>)
    requires forall b :: b in busy ==> exists h :: h in chains && chains[h].req.buf == b
    requires forall h :: h in chains ==> h in chains' && chains'[h].req == chains[h].req
    ensures forall b :: b in busy ==> exists h :: h in chains' && chains'[h].req.buf == b
  {
    forall b | b in busy
      ensures exists h :: h in chains' && chains'[h].req.buf == b
    {
      var h :| h in chains && chains[h].req.buf == b;
      assert h in chains';
    }
  }

  lemma JobsPhase(threads: map<nat, Thread>, chains: map<nat, Chain>, h: nat, ph: Phase)
    requires h in chains && Served(chains[h].phase) == Served(ph)
    ensures Jobs(threads, SetPhase(chains, h, ph)) == Jobs(threads, chains)
  {
  }

  // Call

  lemma CallThreads(threads: map<nat, Thread>, holder: Holder, busy: set<nat>, chains: map<nat, Chain>, t: nat,
      req: Request)
    requires ThreadsOk(threads, holder, busy, chains) && t !in threads && forall u :: u in threads ==>
              threads[u].req.buf != req.buf
    ensures ThreadsOk(threads[t := Wanting(req)], holder, busy, chains)
    ensures Jobs(threads[t := Wanting(req)], chains) == Jobs(threads, chains)[t := Job(req, false)]
  {
    hide AllAwaited; hide Callers;
    CallAwaited(threads, busy, chains, t, req);
    CallCallers(threads, holder, chains, t, req);
  }

  lemma CallAwaited(threads: map<nat, Thread>, busy: set<nat>, chains: map<nat, Chain>, t: nat, req: Request)
    requires AllAwaited(threads, busy, chains) && t !in threads
    ensures AllAwaited(threads[t := Wanting(req)], busy, chains)
  {
    var threads' := threads[t := Wanting(req)];
    forall x | x in chains
      ensures Awaited(threads', busy, x, chains[x])
    {
      assert Awaited(threads, busy, x, chains[x]);
    }
  }

  lemma CallCallers(threads: map<nat, Thread>, holder: Holder, chains: map<nat, Chain>, t: nat, req: Request)
    requires Callers(threads, holder, chains) && t !in threads && forall u :: u in threads ==>
              threads[u].req.buf != req.buf
    ensures Callers(threads[t := Wanting(req)], holder, chains)
  {
  }

  // Submit

  lemma FreshHead(pool: Pool, info: seq<Info>, hdrs: seq<Hdr>, chains: map<nat, Chain>, i: nat)
    requires ChainsOk(pool, info, hdrs, chains) && i < |pool.free| && pool.free[i]
    ensures i !in chains && forall h :: h in chains ==> i !in chains[h].ds
  {
    forall h | h in chains
      ensures h != i && i !in chains[h].ds
    {
      assert InTable(pool, info, hdrs, h, chains[h]);
      assert chains[h].ds == [chains[h].ds[0], chains[h].ds[1], chains[h].ds[2]];
    }
  }

  ghost predicate Pick(free: seq<bool>, ds: seq<nat>) {
    |ds| == 3 && ds[0] != ds[1] && ds[0] != ds[2] && ds[1] != ds[2] && forall k :: 0 <= k < 3 ==>
        ds[k] < |free| && free[ds[k]]
  }

  lemma FilledInTable(pool: Pool, info: seq<Info>, hdrs: seq<Hdr>, ds: seq<nat>, req: Request, t: nat)
    requires PoolOk(pool) && |info| == NUM && |hdrs| == NUM && Pick(pool.free, ds)
    ensures InTable(Fill(pool, ds, req), info[ds[0] := Info(Some(req.buf), 255)], hdrs[ds[0] := Hdr(req.write, req.sector)], ds[0],
                    Chain(ds, req, t, Filled))
  {
  }

  lemma KeptInTable(pool: Pool, info: seq<Info>, hdrs: seq<Hdr>, ds: seq<nat>, req: Request, i: Info, d: Hdr, h: nat,
      c: Chain)
    requires InTable(pool, info, hdrs, h, c) && Pick(pool.free, ds)
    ensures InTable(Fill(pool, ds, req), info[ds[0] := i], hdrs[ds[0] := d], h, c)
  {
  }

  lemma SubmitChains(pool: Pool, info: seq<Info>, hdrs: seq<Hdr>, chains: map<nat, Chain>, t: nat, ds: seq<nat>,
      req: Request)
    requires ChainsOk(pool, info, hdrs, chains) && PoolOk(pool) && |info| == NUM && |hdrs| == NUM && Pick(pool.free, ds)
    ensures ChainsOk(Fill(pool, ds, req), info[ds[0] := Info(Some(req.buf), 255)], hdrs[ds[0] := Hdr(req.write, req.sector)],
                     chains[ds[0] := Chain(ds, req, t, Filled)])
  {
    FilledInTable(pool, info, hdrs, ds, req, t);
    forall x | x in chains
      ensures InTable(Fill(pool, ds, req), info[ds[0] := Info(Some(req.buf), 255)], hdrs[ds[0] := Hdr(req.write, req.sector)], x, chains[x])
    {
      KeptInTable(pool, info, hdrs, ds, req, Info(Some(req.buf), 255), Hdr(req.write, req.sector), x, chains[x]);
    }
    hide InTable; hide Fill;
  }

  lemma SubmitPartition(pool: Pool, chains: map<nat, Chain>, t: nat, ds: seq<nat>, req: Request)
    requires Partitioned(pool, chains) && PoolOk(pool) && Pick(pool.free, ds) && ds[0] !in chains
    requires forall h, k :: h in chains && 0 <= k < 3 ==> ds[k] !in chains[h].ds
    ensures Partitioned(Fill(pool, ds, req), chains[ds[0] := Chain(ds, req, t, Filled)])
  {
    var h, chains', pool' := ds[0], chains[ds[0] := Chain(ds, req, t, Filled)], Fill(pool, ds, req);
    assert ds == [ds[0], ds[1], ds[2]];
    forall i | 0 <= i < NUM && !pool'.free[i]
      ensures exists x :: x in chains' && i in chains'[x].ds
    {
      if i in ds {
        assert h in chains' && i in chains'[h].ds;
      } else {
        var x :| x in chains && i in chains[x].ds;
        assert x in chains' && i in chains'[x].ds;
      }
    }
  }

  lemma SubmitThreads(threads: map<nat, Thread>, busy: set<nat>, chains: map<nat, Chain>, t: nat, ds: seq<nat>)
    requires ThreadsOk(threads, Nobody, busy, chains) && t in threads && threads[t].Wanting? && |ds| == 3
    requires ds[0] !in chains
    ensures var req, h := threads[t].req, ds[0];
            ThreadsOk(threads[t := Filling(req, h)], Caller(t), busy + {req.buf}, chains[h := Chain(ds, req, t, Filled)])
    ensures forall x :: x in chains ==> !chains[x].phase.Filled?
  {
    var req, h := threads[t].req, ds[0];
    var threads', chains' := threads[t := Filling(req, h)], chains[h := Chain(ds, req, t, Filled)];
    forall x | x in chains
      ensures !chains[x].phase.Filled? && Awaited(threads', busy + {req.buf}, x, chains'[x])
    {
      assert Awaited(threads, busy, x, chains[x]);
    }
    assert Awaited(threads', busy + {req.buf}, h, chains'[h]);
    assert Callers(threads', Caller(t), chains') by { hide AllAwaited; hide Awaited; }
    hide Callers; hide Awaited;
    forall b | b in busy + {req.buf}
      ensures exists x :: x in chains' && chains'[x].req.buf == b
    {
      if b == req.buf {
        assert h in chains';
      } else {
        var x :| x in chains && chains[x].req.buf == b;
        assert x in chains';
      }
    }
  }

  lemma SubmitJobs(threads: map<nat, Thread>, chains: map<nat, Chain>, t: nat, h: nat, c: Chain)
    requires Callers(threads, Nobody, chains) && t in threads && threads[t].Wanting? && h !in chains
    ensures Jobs(threads[t := Filling(threads[t].req, h)], chains[h := c]) == Jobs(threads, chains)
  {
    var threads', chains' := threads[t := Filling(threads[t].req, h)], chains[h := c];
    forall u | u in threads'
      ensures Performed(chains', threads'[u]) == Performed(chains, threads[u])
    {
      if u != t && !threads[u].Wanting? {
        assert threads[u].head in chains;
      }
    }
  }

  lemma PhaseAt(chains: map<nat, Chain>, h: nat, c: Chain)
    ensures forall x: nat, ph: Phase :: InPhase(chains[h := c], x, ph) <==> (if x == h then c.phase == ph else InPhase(chains, x, ph))
  {
    forall x: nat, ph: Phase
      ensures InPhase(chains[h := c], x, ph) <==> (if x == h then c.phase == ph else InPhase(chains, x, ph))
    {
    }
  }

  lemma SubmitRings(avail: Ring, used: Ring, working: set<nat>, writing: Option<nat>, chains: map<nat, Chain>,
      h: nat, c: Chain)
    requires RingsOk(avail, used, working, writing, chains) && h !in chains && h < NUM && c.phase == Filled
    requires forall x :: x in chains ==> !chains[x].phase.Filled?
    ensures RingsOk(Put(avail, h), used, working, writing, chains[h := c])
  {
    assert !InPhase(chains, h, Posted) && !InPhase(chains, h, Used) && !InPhase(chains, h, Taken) && !InPhase(chains, h, Written);
    assert forall x: nat :: !InPhase(chains, x, Filled);
    hide Slot;
    RingPut(avail, h);
    PhaseAt(chains, h, c);
    hide RingHolds; hide Put; hide InPhase;
    var chains' := chains[h := c];
    assert forall x: nat :: InPhase(chains', x, Filled) ==> x == h;
    assert forall x: nat :: x in Put(avail, h).list <==> InPhase(chains', x, Posted);
    assert forall x: nat :: x in used.list <==> InPhase(chains', x, Used);
    assert forall x: nat :: x in working <==> InPhase(chains', x, Taken);
    assert forall x: nat :: writing == Some(x) <==> InPhase(chains', x, Written);
  }

  // Post

  lemma PostThreads(threads: map<nat, Thread>, busy: set<nat>, chains: map<nat, Chain>, t: nat)
    requires ThreadsOk(threads, Caller(t), busy, chains) && t in threads && threads[t].Filling?
    ensures var h := threads[t].head;
            && h in chains && chains[h].phase == Filled
            && ThreadsOk(threads[t := Waiting(threads[t].req, h)], Nobody, busy, SetPhase(chains, h, Posted))
  {
    var h := threads[t].head;
    var threads', chains' := threads[t := Waiting(threads[t].req, h)], SetPhase(chains, h, Posted);
    assert h in chains && Awaited(threads, busy, h, chains[h]);
    forall x | x in chains'
      ensures Awaited(threads', busy, x, chains'[x])
    {
      assert Awaited(threads, busy, x, chains[x]);
    }
    assert Callers(threads', Nobody, chains') by { hide AllAwaited; hide Awaited; }
    hide Callers; hide Awaited;
    SameBuffers(busy, chains, chains');
  }

  lemma PostJobs(threads: map<nat, Thread>, chains: map<nat, Chain>, t: nat)
    requires t in threads && threads[t].Filling? && threads[t].head in chains && chains[threads[t].head].phase == Filled
    ensures Jobs(threads[t := Waiting(threads[t].req, threads[t].head)], SetPhase(chains, threads[t].head, Posted)) == Jobs(threads, chains)
  {
  }

  /** A chain moves from one phase to the next. */
  lemma Moves(chains: map<nat, Chain>, h: nat, ph: Phase)
    requires h in chains
    ensures forall x: nat, p: Phase :: InPhase(SetPhase(chains, h, ph), x, p) <==> (if x == h then ph == p else InPhase(chains, x, p))
    ensures forall p: Phase :: InPhase(chains, h, p) <==> chains[h].phase == p
  {
    PhaseAt(chains, h, chains[h].(phase := ph));
  }

  lemma PostRings(avail: Ring, used: Ring, working: set<nat>, writing: Option<nat>, chains: map<nat, Chain>, h: nat)
    requires RingsOk(avail, used, working, writing, chains) && InPhase(chains, h, Filled) && h < NUM
    requires forall x: nat :: InPhase(chains, x, Filled) ==> x == h
    ensures RingsOk(Advance(avail, h), used, working, writing, SetPhase(chains, h, Posted))
  {
    Moves(chains, h, Posted);
    hide InPhase; hide SetPhase; hide Slot;
    RingAdvance(avail, h);
    hide RingHolds; hide Advance;
  }

  // Take

  lemma TakeRings(avail: Ring, used: Ring, working: set<nat>, writing: Option<nat>, chains: map<nat, Chain>)
    requires RingsOk(avail, used, working, writing, chains) && avail.reader != avail.writer
    ensures var h := Front(avail);
            InPhase(chains, h, Posted) && RingsOk(Pop(avail), used, working + {h}, writing, SetPhase(chains, h, Taken))
  {
    RingPop(avail);
    var h := Front(avail);
    assert h in avail.list;
    Moves(chains, h, Taken);
    hide InPhase; hide SetPhase; hide Slot; hide RingHolds;
  }

  // Serve

  lemma ServeRings(avail: Ring, used: Ring, working: set<nat>, chains: map<nat, Chain>, h: nat)
    requires RingsOk(avail, used, working, None, chains) && h in working && h < NUM
    ensures RingsOk(avail, Put(used, h), working - {h}, Some(h), SetPhase(chains, h, Written))
  {
    Moves(chains, h, Written);
    hide InPhase; hide SetPhase; hide Slot;
    RingPut(used, h);
    hide RingHolds; hide Put;
  }

  // Publish

  lemma PublishRings(avail: Ring, used: Ring, working: set<nat>, chains: map<nat, Chain>, h: nat)
    requires RingsOk(avail, used, working, Some(h), chains) && h < NUM
    ensures InPhase(chains, h, Written) && RingsOk(avail, Advance(used, h), working, None, SetPhase(chains, h, Used))
  {
    Moves(chains, h, Used);
    hide InPhase; hide SetPhase; hide Slot;
    RingAdvance(used, h);
    hide RingHolds; hide Advance;
  }

  // IntrNext

  lemma IntrRings(avail: Ring, used: Ring, working: set<nat>, writing: Option<nat>, chains: map<nat, Chain>)
    requires RingsOk(avail, used, working, writing, chains) && used.reader != used.writer
    ensures var h := Front(used);
            InPhase(chains, h, Used) && RingsOk(avail, Pop(used), working, writing, SetPhase(chains, h, Cleared))
  {
    RingPop(used);
    var h := Front(used);
    assert h in used.list;
    Moves(chains, h, Cleared);
    hide InPhase; hide SetPhase; hide Slot; hide RingHolds;
  }

  lemma IntrThreads(threads: map<nat, Thread>, holder: Holder, busy: set<nat>, chains: map<nat, Chain>, h: nat)
    requires ThreadsOk(threads, holder, busy, chains) && InPhase(chains, h, Used)
    ensures ThreadsOk(threads, holder, busy - {chains[h].req.buf}, SetPhase(chains, h, Cleared))
    ensures var t := chains[h].thread; t in threads && threads[t].req == chains[h].req && Performed(chains, threads[t]) && chains[h].req.buf in busy
  {
    var b := chains[h].req.buf;
    var chains' := SetPhase(chains, h, Cleared);
    assert Awaited(threads, busy, h, chains[h]);
    forall x | x in chains'
      ensures Awaited(threads, busy - {b}, x, chains'[x]) && (x != h ==> chains[x].req.buf != b)
    {
      assert Awaited(threads, busy, x, chains[x]);
      if x != h {
        assert chains[x].thread != chains[h].thread;
      }
    }
    hide Awaited;
    assert Callers(threads, holder, chains') by { hide AllAwaited; }
    hide Callers;
    SameBuffers(busy - {b}, chains, chains');
  }

  // Finish

  lemma FinishRings(avail: Ring, used: Ring, working: set<nat>, writing: Option<nat>, chains: map<nat, Chain>, h: nat)
    requires RingsOk(avail, used, working, writing, chains) && InPhase(chains, h, Cleared)
    ensures RingsOk(avail, used, working, writing, chains - {h})
  {
    hide RingHolds; hide Slot;
    forall x: nat, ph: Phase
      ensures InPhase(chains - {h}, x, ph) <==> InPhase(chains, x, ph) && x != h
    {
    }
    assert forall ph: Phase :: InPhase(chains, h, ph) ==> ph == Cleared;
    hide InPhase;
  }

  lemma FinishThreads(threads: map<nat, Thread>, holder: Holder, busy: set<nat>, chains: map<nat, Chain>, t: nat)
    requires ThreadsOk(threads, holder, busy, chains) && t in threads && threads[t].Waiting?
    requires threads[t].req.buf !in busy
    ensures var h := threads[t].head;
            && InPhase(chains, h, Cleared) && Performed(chains, threads[t])
            && ThreadsOk(threads - {t}, holder, busy, chains - {h})
  {
    var h := threads[t].head;
    assert h in chains && Awaited(threads, busy, h, chains[h]);
    forall x | x in chains && x != h
      ensures Awaited(threads - {t}, busy, x, chains[x])
    {
      assert Awaited(threads, busy, x, chains[x]);
    }
    hide Awaited;
    assert Callers(threads - {t}, holder, chains - {h}) by { hide AllAwaited; }
    hide Callers;
    forall b | b in busy
      ensures exists x :: x in chains - {h} && (chains - {h})[x].req.buf == b
    {
      var x :| x in chains && chains[x].req.buf == b;
      assert x in chains - {h};
    }
  }

  lemma FinishJobs(threads: map<nat, Thread>, holder: Holder, busy: set<nat>, chains: map<nat, Chain>, t: nat)
    requires ThreadsOk(threads, holder, busy, chains) && t in threads && threads[t].Waiting?
    ensures Jobs(threads - {t}, chains - {threads[t].head}) == Jobs(threads, chains) - {t}
  {
    hide AllAwaited;
    var h := threads[t].head;
    forall u | u in threads && u != t
      ensures Performed(chains - {h}, threads[u]) == Performed(chains, threads[u])
    {
      if !threads[u].Wanting? {
        assert threads[u].head in chains && chains[threads[u].head].thread == u;
      }
    }
  }

  lemma FreeThree(pool: Pool, info: seq<Info>, hdrs: seq<Hdr>, h: nat, c: Chain)
    requires InTable(pool, info, hdrs, h, c)
    ensures FreeChain(pool, h).Some? && FreedOnly(pool, FreeChain(pool, h).value, c.ds)
  {
    assert Linked(pool.desc, c.ds, 0) && Linked(pool.desc, c.ds, 1) && Linked(pool.desc, c.ds, 2);
    FreeChainFrees(pool, c.ds);
  }

  lemma KeptAfterFree(pool: Pool, q: Pool, info: seq<Info>, hdrs: seq<Hdr>, ds: seq<nat>, h: nat, c: Chain)
    requires InTable(pool, info, hdrs, h, c) && FreedOnly(pool, q, ds) && |ds| > 0 && ds[0] < NUM && forall i :: i in c.ds ==> i !in ds
    ensures InTable(q, info[ds[0] := info[ds[0]].(b := None)], hdrs, h, c)
  {
    assert forall k :: 0 <= k < 3 ==> c.ds[k] in c.ds;
  }

  lemma FinishPartition(pool: Pool, q: Pool, chains: map<nat, Chain>, h: nat)
    requires Partitioned(pool, chains) && h in chains && FreedOnly(pool, q, chains[h].ds)
    ensures Partitioned(q, chains - {h})
  {
    forall i | 0 <= i < NUM && !q.free[i]
      ensures exists x :: x in chains - {h} && i in (chains - {h})[x].ds
    {
      var x :| x in chains && i in chains[x].ds;
      assert x in chains - {h};
    }
  }

  lemma FinishChain(pool: Pool, info: seq<Info>, hdrs: seq<Hdr>, chains: map<nat, Chain>, h: nat)
    requires ChainsOk(pool, info, hdrs, chains) && Partitioned(pool, chains) && h in chains
    ensures h < |info| && FreeChain(pool, h).Some?
    ensures var q := FreeChain(pool, h).value;
            PoolOk(q) && ChainsOk(q, info[h := info[h].(b := None)], hdrs, chains - {h}) && Partitioned(q, chains - {h})
  {
    hide FreeChain;
    var c := chains[h];
    assert InTable(pool, info, hdrs, h, c);
    FreeThree(pool, info, hdrs, h, c);
    var q := FreeChain(pool, h).value;
    FinishPartition(pool, q, chains, h);
    assert PoolOk(q);
    assert c.ds[0] == h < NUM;
    forall x | x in chains && x != h
      ensures InTable(q, info[h := info[h].(b := None)], hdrs, x, chains[x])
    {
      hide InTable; hide FreedOnly;
      KeptAfterFree(pool, q, info, hdrs, c.ds, x, chains[x]);
    }
    hide InTable; hide FreedOnly; hide Partitioned;
  }

  // ---------- Every run ----------

  ghost predicate StepOk(s: State, a: Action, s': State) {
    Inv(s') && SpecStep(s, a, s')
  }

  lemma CallOk(s: State, t: nat, req: Request)
    requires Inv(s) && Enabled(s, Call(t, req))
    ensures StepOk(s, Call(t, req), Do(s, Call(t, req)))
  {
    hide RingsOk; hide Partitioned; hide ChainsOk; hide ThreadsOk; hide Jobs;
    CallThreads(s.threads, s.holder, s.busy, s.chains, t, req);
  }

  lemma SubmitOk(s: State, t: nat, ds: seq<nat>)
    requires Inv(s) && Enabled(s, Submit(t, ds))
    ensures StepOk(s, Submit(t, ds), Do(s, Submit(t, ds)))
  {
    hide InTable; hide RingsOk; hide Jobs; hide Awaited; hide Partitioned; hide ChainsOk; hide AllAwaited;
    hide Callers; hide Fill; hide Put;
    hide Pick; hide Enabled; hide Do; hide DoSubmit; hide PoolOk;
    SubmitIs(s, t, ds);
    var req := s.threads[t].req;
    var c := Chain(ds, req, t, Filled);
    FreshHeads(s.pool, s.info, s.hdrs, s.chains, ds);
    FillShape(s.pool, ds, req);
    SubmitChains(s.pool, s.info, s.hdrs, s.chains, t, ds, req);
    SubmitPartition(s.pool, s.chains, t, ds, req);
    SubmitThreads(s.threads, s.busy, s.chains, t, ds);
    SubmitRings(s.avail, s.used, s.working, s.writing, s.chains, ds[0], c);
    SubmitJobs(s.threads, s.chains, t, ds[0], c);
  }

  lemma SubmitIs(s: State, t: nat, ds: seq<nat>)
    requires Shape(s) && Enabled(s, Submit(t, ds))
    ensures t in s.threads && s.threads[t].Wanting? && s.holder == Nobody && Pick(s.pool.free, ds)
    ensures var req, h := s.threads[t].req, ds[0];
            Do(s, Submit(t, ds)) ==
            s.(pool := Fill(s.pool, ds, req), info := s.info[h := Info(Some(req.buf), 255)], hdrs := s.hdrs[h := Hdr(req.write, req.sector)],
               avail := Put(s.avail, h), busy := s.busy + {req.buf}, threads := s.threads[t := Filling(req, h)],
               holder := Caller(t), chains := s.chains[h := Chain(ds, req, t, Filled)])
  {
  }

  lemma FreshHeads(pool: Pool, info: seq<Info>, hdrs: seq<Hdr>, chains: map<nat, Chain>, ds: seq<nat>)
    requires ChainsOk(pool, info, hdrs, chains) && Pick(pool.free, ds)
    ensures ds[0] !in chains && forall h, k :: h in chains && 0 <= k < 3 ==> ds[k] !in chains[h].ds
  {
    hide ChainsOk;
    forall k | 0 <= k < 3
      ensures ds[k] !in chains && forall h :: h in chains ==> ds[k] !in chains[h].ds
    {
      FreshHead(pool, info, hdrs, chains, ds[k]);
    }
  }

  lemma FillShape(p: Pool, ds: seq<nat>, req: Request)
    requires PoolOk(p) && Pick(p.free, ds)
    ensures |ds| == 3 && (forall k :: 0 <= k < 3 ==> ds[k] < NUM) && PoolOk(Fill(p, ds, req))
  {
  }

  lemma PostOk(s: State, t: nat)
    requires Inv(s) && Enabled(s, Post(t))
    ensures StepOk(s, Post(t), Do(s, Post(t)))
  {
    hide RingsOk; hide Jobs; hide Partitioned; hide ChainsOk; hide ThreadsOk; hide SetPhase; hide Performed;
    hide PoolOk; hide Served;
    hide Advance;
    OneFilled(s.threads, s.holder, s.busy, s.chains, t);
    var h := s.threads[t].head;
    HeadBound(s.pool, s.info, s.hdrs, s.chains, h);
    PostThreads(s.threads, s.busy, s.chains, t);
    PostJobs(s.threads, s.chains, t);
    ChainsPhase(s.pool, s.info, s.hdrs, s.chains, h, Posted);
    PartitionPhase(s.pool, s.chains, h, Posted);
    PostRings(s.avail, s.used, s.working, s.writing, s.chains, h);
  }

  lemma OneFilled(threads: map<nat, Thread>, holder: Holder, busy: set<nat>, chains: map<nat, Chain>, t: nat)
    requires ThreadsOk(threads, holder, busy, chains) && holder == Caller(t)
    ensures t in threads && threads[t].Filling? && threads[t].head in chains && InPhase(chains, threads[t].head, Filled)
    ensures forall x: nat :: InPhase(chains, x, Filled) ==> x == threads[t].head
  {
    var h := threads[t].head;
    assert Awaited(threads, busy, h, chains[h]);
    forall x: nat | InPhase(chains, x, Filled)
      ensures x == h
    {
      assert Awaited(threads, busy, x, chains[x]);
    }
  }

  lemma HeadBound(pool: Pool, info: seq<Info>, hdrs: seq<Hdr>, chains: map<nat, Chain>, h: nat)
    requires ChainsOk(pool, info, hdrs, chains) && h in chains
    ensures h < NUM && |info| == NUM && info[h].b == Some(chains[h].req.buf)
    ensures chains[h].phase.Written? || chains[h].phase.Used? ==> info[h].status == 0
  {
    assert InTable(pool, info, hdrs, h, chains[h]);
  }

  lemma TakeOk(s: State)
    requires Inv(s) && Enabled(s, Take)
    ensures StepOk(s, Take, Do(s, Take))
  {
    hide RingsOk; hide Jobs; hide Partitioned; hide ChainsOk; hide ThreadsOk; hide SetPhase; hide Performed;
    hide PoolOk; hide Served;
    hide Pop; hide Front;
    TakeRings(s.avail, s.used, s.working, s.writing, s.chains);
    var h := Front(s.avail);
    ServedPhases();
    ChainsPhase(s.pool, s.info, s.hdrs, s.chains, h, Taken);
    PartitionPhase(s.pool, s.chains, h, Taken);
    ThreadsPhase(s.threads, s.holder, s.busy, s.chains, h, Taken);
    JobsPhase(s.threads, s.chains, h, Taken);
  }

  /** The device reads the request that the caller made. */
  lemma DecodeIs(s: State, h: nat)
    requires ChainsOk(s.pool, s.info, s.hdrs, s.chains) && h in s.chains
    ensures Decode(s, h) == Some(Command(s.chains[h].req.write, s.chains[h].req.sector, s.chains[h].req.buf, h))
  {
    assert InTable(s.pool, s.info, s.hdrs, h, s.chains[h]);
  }

  lemma ServeChains(pool: Pool, info: seq<Info>, hdrs: seq<Hdr>, chains: map<nat, Chain>, h: nat)
    requires ChainsOk(pool, info, hdrs, chains) && h in chains && h < |info|
    ensures ChainsOk(pool, info[h := info[h].(status := 0)], hdrs, SetPhase(chains, h, Written))
  {
    hide PoolOk;
    forall x | x in chains
      ensures InTable(pool, info[h := info[h].(status := 0)], hdrs, x, SetPhase(chains, h, Written)[x])
    {
      assert InTable(pool, info, hdrs, x, chains[x]);
    }
  }

  lemma ServeJobs(threads: map<nat, Thread>, holder: Holder, busy: set<nat>, chains: map<nat, Chain>, h: nat)
    requires ThreadsOk(threads, holder, busy, chains) && InPhase(chains, h, Taken)
    ensures var t, jobs := chains[h].thread, Jobs(threads, chains);
            && t in jobs && jobs[t] == Job(chains[h].req, false)
            && Jobs(threads, SetPhase(chains, h, Written)) == jobs[t := Job(chains[h].req, true)]
  {
    var t := chains[h].thread;
    var chains' := SetPhase(chains, h, Written);
    assert Awaited(threads, busy, h, chains[h]);
    hide AllAwaited;
    forall u | u in threads && u != t
      ensures Performed(chains', threads[u]) == Performed(chains, threads[u])
    {
      if !threads[u].Wanting? {
        assert chains[threads[u].head].thread == u;
      }
    }
  }

  lemma ServeOk(s: State, h: nat)
    requires Inv(s) && Enabled(s, Serve(h))
    ensures StepOk(s, Serve(h), Do(s, Serve(h)))
  {
    hide RingsOk; hide Jobs; hide Partitioned; hide ChainsOk; hide ThreadsOk; hide SetPhase; hide Performed;
    hide PoolOk; hide Served;
    hide Put; hide Get; hide Decode;
    WorkingIs(s.avail, s.used, s.working, s.writing, s.chains, h);
    HeadBound(s.pool, s.info, s.hdrs, s.chains, h);
    DecodeIs(s, h);
    ServeChains(s.pool, s.info, s.hdrs, s.chains, h);
    PartitionPhase(s.pool, s.chains, h, Written);
    ThreadsPhase(s.threads, s.holder, s.busy, s.chains, h, Written);
    ServeRings(s.avail, s.used, s.working, s.chains, h);
    ServeJobs(s.threads, s.holder, s.busy, s.chains, h);
    ServeSpec(s, Do(s, Serve(h)), h);
  }

  lemma PublishOk(s: State)
    requires Inv(s) && Enabled(s, Publish)
    ensures StepOk(s, Publish, Do(s, Publish))
  {
    hide RingsOk; hide Jobs; hide Partitioned; hide ChainsOk; hide ThreadsOk; hide SetPhase; hide Performed;
    hide PoolOk; hide Served;
    hide Advance;
    var h := s.writing.value;
    WritingIs(s.avail, s.used, s.working, s.writing, s.chains, h);
    HeadBound(s.pool, s.info, s.hdrs, s.chains, h);
    PublishRings(s.avail, s.used, s.working, s.chains, h);
    ServedPhases();
    ChainsPhase(s.pool, s.info, s.hdrs, s.chains, h, Used);
    PartitionPhase(s.pool, s.chains, h, Used);
    ThreadsPhase(s.threads, s.holder, s.busy, s.chains, h, Used);
    JobsPhase(s.threads, s.chains, h, Used);
  }

  lemma IntrOk(s: State)
    requires Inv(s) && Enabled(s, IntrNext)
    ensures StepOk(s, IntrNext, Do(s, IntrNext))
  {
    hide RingsOk; hide Jobs; hide Partitioned; hide ChainsOk; hide ThreadsOk; hide SetPhase; hide Performed;
    hide PoolOk; hide Served;
    hide Pop; hide Front;
    IntrRings(s.avail, s.used, s.working, s.writing, s.chains);
    var h := Front(s.used);
    HeadBound(s.pool, s.info, s.hdrs, s.chains, h);
    IntrThreads(s.threads, s.holder, s.busy, s.chains, h);
    ChainsPhase(s.pool, s.info, s.hdrs, s.chains, h, Cleared);
    PartitionPhase(s.pool, s.chains, h, Cleared);
    ServedPhases();
    JobsPhase(s.threads, s.chains, h, Cleared);
    JobOf(s.threads, s.chains, s.chains[h].thread);
  }

  lemma FinishOk(s: State, t: nat)
    requires Inv(s) && Enabled(s, Finish(t))
    ensures StepOk(s, Finish(t), Do(s, Finish(t)))
  {
    hide RingsOk; hide Jobs; hide Partitioned; hide ChainsOk; hide ThreadsOk; hide SetPhase; hide Performed;
    hide PoolOk; hide Served;
    hide FreeChain;
    FinishThreads(s.threads, s.holder, s.busy, s.chains, t);
    var h := s.threads[t].head;
    FinishRings(s.avail, s.used, s.working, s.writing, s.chains, h);
    FinishChain(s.pool, s.info, s.hdrs, s.chains, h);
    FinishJobs(s.threads, s.holder, s.busy, s.chains, t);
    JobOf(s.threads, s.chains, t);
    PoolShape(FreeChain(s.pool, h).value);
  }

  lemma WorkingIs(avail: Ring, used: Ring, working: set<nat>, writing: Option<nat>, chains: map<nat, Chain>, h: nat)
    requires RingsOk(avail, used, working, writing, chains) && h in working
    ensures InPhase(chains, h, Taken)
  {
  }

  lemma WritingIs(avail: Ring, used: Ring, working: set<nat>, writing: Option<nat>, chains: map<nat, Chain>, h: nat)
    requires RingsOk(avail, used, working, writing, chains) && writing == Some(h)
    ensures InPhase(chains, h, Written)
  {
  }

  lemma ServedPhases()
    ensures !Served(Posted) && !Served(Taken) && Served(Written) && Served(Used) && Served(Cleared)
  {
  }

  lemma JobOf(threads: map<nat, Thread>, chains: map<nat, Chain>, t: nat)
    requires t in threads
    ensures t in Jobs(threads, chains) && Jobs(threads, chains)[t] == Job(threads[t].req, Performed(chains, threads[t]))
  {
  }

  lemma PoolShape(p: Pool)
    requires PoolOk(p)
    ensures |p.desc| == NUM && |p.free| == NUM
  {
  }

  lemma ServeSpec(s: State, s': State, h: nat)
    requires h in s.chains && s'.threads == s.threads && s'.chains == SetPhase(s.chains, h, Written)
    requires var t, jobs := s.chains[h].thread, Jobs(s.threads, s.chains);
             && t in jobs && jobs[t] == Job(s.chains[h].req, false)
             && Jobs(s.threads, SetPhase(s.chains, h, Written)) == jobs[t := Job(s.chains[h].req, true)]
    requires Transfer(s.chains[h].req, s.disk, s.mem, s'.disk, s'.mem)
    ensures SpecStep(s, Serve(h), s')
  {
    hide Jobs; hide SetPhase; hide Transfer;
  }

  lemma HolderOk(threads: map<nat, Thread>, holder: Holder, busy: set<nat>, chains: map<nat, Chain>, holder': Holder)
    requires ThreadsOk(threads, holder, busy, chains) && !holder.Caller? && !holder'.Caller?
    ensures ThreadsOk(threads, holder', busy, chains)
  {
    hide AllAwaited;
  }

  lemma IntrEdgeOk(s: State, a: Action)
    requires Inv(s) && Enabled(s, a) && (a.IntrEnter? || a.IntrExit?)
    ensures StepOk(s, a, Do(s, a))
  {
    hide RingsOk; hide Jobs; hide Partitioned; hide ChainsOk; hide ThreadsOk; hide SetPhase; hide Performed;
    hide PoolOk; hide Served;
    HolderOk(s.threads, s.holder, s.busy, s.chains, Interrupt);
    HolderOk(s.threads, s.holder, s.busy, s.chains, Nobody);
  }

  lemma TouchOk(s: State, b: nat, data: Bytes)
    requires Inv(s) && Enabled(s, Touch(b, data))
    ensures StepOk(s, Touch(b, data), Do(s, Touch(b, data)))
  {
    hide RingsOk; hide Partitioned; hide ChainsOk; hide ThreadsOk; hide Performed; hide PoolOk;
  }

  /** One step of driver, device or interrupt handler keeps the invariant and does what the
      specification says. */
  lemma StepKeeps(s: State, a: Action)
    requires Inv(s) && Enabled(s, a)
    ensures StepOk(s, a, Do(s, a))
  {
    hide Inv; hide Enabled; hide Do; hide StepOk;
    match a {
      case Call(t, req) => CallOk(s, t, req);
      case Submit(t, ds) => SubmitOk(s, t, ds);
      case Post(t) => PostOk(s, t);
      case Finish(t) => FinishOk(s, t);
      case Take => TakeOk(s);
      case Serve(h) => ServeOk(s, h);
      case Publish => PublishOk(s);
      case IntrNext => IntrOk(s);
      case IntrEnter => IntrEdgeOk(s, a);
      case IntrExit => IntrEdgeOk(s, a);
      case Touch(b, data) => TouchOk(s, b, data);
    }
  }

  /** virtio_disk_init. */
  ghost predicate Init(s: State) {
    && Shape(s) && (forall i :: 0 <= i < NUM ==> s.pool.free[i]) && |s.avail.slots| == NUM && |s.used.slots| == NUM
    && s.avail.reader == s.avail.writer == 0 && s.avail.list == [] && s.used.reader == s.used.writer == 0
    && s.used.list == []
    && s.working == {} && s.writing == None && s.busy == {} && s.threads == map[] && s.holder == Nobody
    && s.chains == map[]
  }

  /** A run of enabled steps, with every state on the way. */
  ghost predicate Run(states: seq<State>, steps: seq<Action>) {
    && |states| == |steps| + 1 && Init(states[0])
    && forall i :: 0 <= i < |steps| ==> Enabled(states[i], steps[i]) && states[i + 1] == Do(states[i], steps[i])
  }

  /** No run reaches a panic, and every run is one of the specification. */
  lemma {:induction false} DescriptorProtocol(states: seq<State>, steps: seq<Action>)
    requires Run(states, steps)
    ensures forall i :: 0 <= i < |states| ==> Inv(states[i])
    ensures forall i :: 0 <= i < |steps| ==> SpecStep(states[i], steps[i], states[i + 1])
  {
    hide Do; hide Enabled; hide SpecStep;
    if steps == [] {
      InitOk(states[0]);
    } else {
      var n := |steps| - 1;
      assert Run(states[..n + 1], steps[..n]) by { RunPrefix(states, steps); }
      DescriptorProtocol(states[..n + 1], steps[..n]);
      assert states[..n + 1][n] == states[n];
      assert Inv(states[n]);
      StepKeeps(states[n], steps[n]);
      forall i | 0 <= i < |steps|
        ensures SpecStep(states[i], steps[i], states[i + 1])
      {
        if i < n {
          assert SpecStep(states[..n + 1][i], steps[..n][i], states[..n + 1][i + 1]);
        }
      }
      forall i | 0 <= i < |states|
        ensures Inv(states[i])
      {
        if i <= n {
          assert Inv(states[..n + 1][i]);
        }
      }
    }
  }

  lemma RunPrefix(states: seq<State>, steps: seq<Action>)
    requires Run(states, steps) && steps != []
    ensures Run(states[..|steps|], steps[..|steps| - 1])
  {
    hide Do; hide Enabled; hide Init;
  }

  lemma InitOk(s: State)
    requires Init(s)
    ensures Inv(s)
  {
  }

  // ---------- Requests go on ----------

  /** The step that takes the request at h further: the caller posts it under vdisk_lock; the
      device, whoever holds that lock, takes it and serves it as soon as it has written no
      other; the interrupt handler and the caller need the lock free. */
  ghost predicate GoesOn(s: State, h: nat, c: Chain) {
    match c.phase
    case Filled => Enabled(s, Post(c.thread))
    case Posted => Enabled(s, Take)
    case Taken => Enabled(s, Serve(h)) || Enabled(s, Publish)
    case Written => Enabled(s, Publish)
    case Used => (s.holder.Nobody? ==> Enabled(s, IntrEnter)) && (s.holder.Interrupt? ==> Enabled(s, IntrNext))
    case Cleared => s.holder.Nobody? ==> Enabled(s, Finish(c.thread))
  }

  lemma RequestsGoOn(states: seq<State>, steps: seq<Action>, i: nat, h: nat)
    requires Run(states, steps) && i < |states| && h in states[i].chains
    ensures GoesOn(states[i], h, states[i].chains[h])
  {
    DescriptorProtocol(states, steps);
    hide Run; hide Inv; hide GoesOn;
    assert Inv(states[i]);
    ChainGoesOn(states[i], h);
  }

  lemma ChainGoesOn(s: State, h: nat)
    requires Inv(s) && h in s.chains
    ensures GoesOn(s, h, s.chains[h])
  {
    hide ChainsOk; hide Partitioned;
    assert Awaited(s.threads, s.busy, h, s.chains[h]);
    assert InPhase(s.chains, h, s.chains[h].phase);
    if s.chains[h].phase.Posted? {
      FullRing(s.avail, h);
    } else if s.chains[h].phase.Used? {
      FullRing(s.used, h);
    }
  }

  lemma FullRing(r: Ring, h: nat)
    requires RingHolds(r) && h in r.list
    ensures r.reader != r.writer
  {
  }

  // ---------- No step is left ----------

  /** Only new calls, interrupts and changes to other buffers are possible. */
  ghost predicate Idle(s: State) {
    forall a :: Enabled(s, a) ==> a.Call? || a.IntrEnter? || a.Touch?
  }

  /** When driver and device can do nothing more and no completion waits for an interrupt, every
      call of virtio_disk_rw has returned. */
  lemma AllReturn(states: seq<State>, steps: seq<Action>, i: nat)
    requires Run(states, steps) && i < |states| && Idle(states[i]) && states[i].used.reader == states[i].used.writer
    ensures states[i].threads == map[]
  {
    DescriptorProtocol(states, steps);
    hide Run;
    var s := states[i];
    assert Inv(s);
    hide Inv;
    if s.threads != map[] {
      var t :| t in s.threads;
      SomethingMoves(s, t);
    }
  }

  /** While a call is in progress and nothing waits for an interrupt, some step is possible. */
  lemma SomethingMoves(s: State, t: nat)
    requires Inv(s) && s.used.reader == s.used.writer && t in s.threads
    ensures !Idle(s)
  {
    hide Inv; hide Enabled;
    if !s.holder.Nobody? {
      HolderMoves(s);
    } else if Enabled(s, Take) || Enabled(s, Publish) {
    } else if s.chains == map[] {
      assert Enabled(s, Submit(t, [0, 1, 2])) by { WanterMoves(s, t); }
    } else {
      var h :| h in s.chains;
      ChainGoesOn(s, h);
      NoneUsed(s, h);
    }
  }

  lemma HolderMoves(s: State)
    requires Inv(s) && !s.holder.Nobody?
    ensures Enabled(s, IntrNext) || Enabled(s, IntrExit) || (s.holder.Caller? && Enabled(s, Post(s.holder.t)))
  {
    hide ChainsOk; hide Partitioned; hide RingsOk; hide AllAwaited;
  }

  lemma NoneUsed(s: State, h: nat)
    requires Inv(s) && s.used.reader == s.used.writer && h in s.chains
    ensures !s.chains[h].phase.Used?
  {
    hide ChainsOk; hide Partitioned; hide ThreadsOk;
    assert s.used.list == [];
    assert !InPhase(s.chains, h, Used);
  }

  lemma WanterMoves(s: State, t: nat)
    requires Inv(s) && s.holder.Nobody? && s.chains == map[] && t in s.threads
    ensures Enabled(s, Submit(t, [0, 1, 2]))
  {
    hide RingsOk; hide AllAwaited;
    assert s.threads[t].Wanting?;
    assert forall i :: 0 <= i < NUM ==> s.pool.free[i];
  }
}
