/**
 * The same channel over a lossless first-in first-out link, which is what the ordered
 * data channel under the tunnel provides.
 *
 * `base` runs the interleaved system of OneWay; the queues decide which arrival comes
 * next.  Sends on this link do not suspend, so a frame's ACK, its buffering and the
 * delivery loop up to the first `on_message` are one step; a task suspended in
 * `on_message` goes on in a later step.
 */
module Fifo {
  import opened Frames
  import opened Fragmentation
  import opened Reliable
  import opened Endpoint
  import opened OneWay
  import opened Safety
  import opened Window

  datatype FState = FState(base: State, dataQ: seq<Frame>, ackQ: seq<nat>)

  function FInit(t: real): FState {
    FState(Init(t), [], [])
  }

  datatype FAction =
    | FTick(t: real)
    | FSubmit(msg: Bytes)
    | FAttempt(i: nat, piggyback: nat)
    | FScan
    | FRecvAck
    | FRecvData
    | FGoOn

  // The delivery loop up to its end or to the first complete message.
  datatype Burst = Burst(rcv: Receiver, suspended: bool)

  function RunOn(r: Receiver): Burst
    decreases |r.buffer|
  {
    if r.next !in r.buffer then Burst(r, false)
    else if !r.buffer[r.next].HasMoreFragments() then Burst(Consume(r), true)
    else RunOn(Consume(r))
  }

  function Suspended(b: Burst): nat {
    if b.suspended then 1 else 0
  }

  function Receive(n: RecvSide, f: Frame): RecvSide {
    var n' := n.(arrived := n.arrived + {f});
    if f.seqNo < n.rcv.next then n'
    else
      var b := RunOn(Accept(n.rcv, f));
      n'.(rcv := b.rcv, draining := n.draining + Suspended(b))
  }

  function GoOn(n: RecvSide): RecvSide
    requires n.draining > 0
  {
    var b := RunOn(n.rcv);
    n.(rcv := b.rcv, draining := n.draining - 1 + Suspended(b))
  }

  predicate FEnabled(s: FState, a: FAction) {
    match a
    case FTick(t) => s.base.clock <= t
    case FSubmit(_) => true
    case FAttempt(i, _) => CanAttempt(s.base.out, i)
    case FScan => true
    case FRecvAck => s.ackQ != []
    case FRecvData => s.dataQ != []
    case FGoOn => s.base.inn.draining > 0
  }

  function FStep(cfg: Config, s: FState, a: FAction): FState
    requires cfg.Valid() && FEnabled(s, a)
  {
    var b := s.base;
    match a
    case FTick(t) => s.(base := Step(cfg, b, Tick(t)))
    case FSubmit(msg) => s.(base := Step(cfg, b, DoSubmit(msg)))
    case FAttempt(i, ack) =>
      s.(base := Step(cfg, b, DoAttempt(i, ack)),
         dataQ := if HasRoom(cfg, b.out.snd) then s.dataQ + [NextFrame(cfg, b.out, i, ack)] else s.dataQ)
    case FScan =>
      s.(base := Step(cfg, b, DoScan), dataQ := s.dataQ + Resends(cfg, b.out.snd.window, b.clock))
    case FRecvAck =>
      s.(base := b.(out := OnAck(cfg, b.out, s.ackQ[0])), ackQ := s.ackQ[1..])
    case FRecvData =>
      var f := s.dataQ[0];
      FState(b.(inn := Receive(b.inn, f), acks := b.acks + {f.seqNo + 1}), s.dataQ[1..], s.ackQ + [f.seqNo + 1])
    case FGoOn => s.(base := b.(inn := GoOn(b.inn)))
  }

  predicate FCanRun(cfg: Config, s: FState, acts: seq<FAction>)
    requires cfg.Valid()
    decreases |acts|
  {
    acts == [] || (FEnabled(s, acts[0]) && FCanRun(cfg, FStep(cfg, s, acts[0]), acts[1..]))
  }

  function FExec(cfg: Config, s: FState, acts: seq<FAction>): FState
    requires cfg.Valid() && FCanRun(cfg, s, acts)
    decreases |acts|
  {
    if acts == [] then s else FExec(cfg, FStep(cfg, s, acts[0]), acts[1..])
  }

  ghost predicate FReachable(cfg: Config, s: FState)
    requires cfg.Valid()
  {
    exists t, acts :: FCanRun(cfg, FInit(t), acts) && FExec(cfg, FInit(t), acts) == s
  }

  // ----------------------------------------------------- lossless, first in first out

  // The frames a step sends, and the frame it takes off the link.
  function Puts(cfg: Config, s: FState, a: FAction): seq<Frame>
    requires cfg.Valid() && FEnabled(s, a)
  {
    match a
    case FAttempt(i, ack) => if HasRoom(cfg, s.base.out.snd) then [NextFrame(cfg, s.base.out, i, ack)] else []
    case FScan => Resends(cfg, s.base.out.snd.window, s.base.clock)
    case _ => []
  }

  function Gets(s: FState, a: FAction): seq<Frame>
    requires FEnabled(s, a)
  {
    if a.FRecvData? then [s.dataQ[0]] else []
  }

  function AllPuts(cfg: Config, s: FState, acts: seq<FAction>): seq<Frame>
    requires cfg.Valid() && FCanRun(cfg, s, acts)
    decreases |acts|
  {
    if acts == [] then [] else Puts(cfg, s, acts[0]) + AllPuts(cfg, FStep(cfg, s, acts[0]), acts[1..])
  }

  function AllGets(cfg: Config, s: FState, acts: seq<FAction>): seq<Frame>
    requires cfg.Valid() && FCanRun(cfg, s, acts)
    decreases |acts|
  {
    if acts == [] then [] else Gets(s, acts[0]) + AllGets(cfg, FStep(cfg, s, acts[0]), acts[1..])
  }

  // The ACKs that reach the sender.
  function AllAcks(cfg: Config, s: FState, acts: seq<FAction>): seq<nat>
    requires cfg.Valid() && FCanRun(cfg, s, acts)
    decreases |acts|
  {
    if acts == [] then []
    else (if acts[0].FRecvAck? then [s.ackQ[0]] else []) + AllAcks(cfg, FStep(cfg, s, acts[0]), acts[1..])
  }

  // One ACK for each frame received, for the number after it.
  function AcksFor(fs: seq<Frame>): seq<nat> {
    seq(|fs|, i requires 0 <= i < |fs| => fs[i].seqNo + 1)
  }

  lemma MoveOn<T>(got: seq<T>, later: seq<T>, end: seq<T>, q: seq<T>, put: seq<T>, more: seq<T>, q': seq<T>)
    requires q + put == got + q' && later + end == q' + more
    ensures (got + later) + end == q + (put + more)
  {
    Regroup(got, later, end);
    Regroup(got, q', more);
    Regroup(q, put, more);
  }

  /**
   * Over any run nothing is lost, repeated or overtaken: the frames received, then those still in the
   * queue, are those that were in it, then those sent; and likewise for the ACKs, one for each frame
   * received.
   */
  lemma {:induction false} FirstInFirstOut(cfg: Config, s: FState, acts: seq<FAction>)
    requires cfg.Valid() && FCanRun(cfg, s, acts)
    ensures AllGets(cfg, s, acts) + FExec(cfg, s, acts).dataQ == s.dataQ + AllPuts(cfg, s, acts)
    ensures AllAcks(cfg, s, acts) + FExec(cfg, s, acts).ackQ == s.ackQ + AcksFor(AllGets(cfg, s, acts))
    decreases |acts|
  {
    if acts == [] {
      assert s.dataQ + [] == s.dataQ && s.ackQ + AcksFor([]) == s.ackQ;
    } else {
      var s' := FStep(cfg, s, acts[0]);
      var later := AllGets(cfg, s', acts[1..]);
      FirstInFirstOut(cfg, s', acts[1..]);
      StepInOut(cfg, s, acts[0]);
      MoveOn(Gets(s, acts[0]), later, FExec(cfg, s, acts).dataQ, s.dataQ, Puts(cfg, s, acts[0]),
             AllPuts(cfg, s', acts[1..]), s'.dataQ);
      MoveOn(if acts[0].FRecvAck? then [s.ackQ[0]] else [], AllAcks(cfg, s', acts[1..]), FExec(cfg, s, acts).ackQ,
             s.ackQ, AcksFor(Gets(s, acts[0])), AcksFor(later), s'.ackQ);
      assert AcksFor(Gets(s, acts[0]) + later) == AcksFor(Gets(s, acts[0])) + AcksFor(later);
    }
  }

  lemma StepInOut(cfg: Config, s: FState, a: FAction)
    requires cfg.Valid() && FEnabled(s, a)
    ensures s.dataQ + Puts(cfg, s, a) == Gets(s, a) + FStep(cfg, s, a).dataQ
    ensures s.ackQ + AcksFor(Gets(s, a)) == (if a.FRecvAck? then [s.ackQ[0]] else []) + FStep(cfg, s, a).ackQ
  {
  }

  // ------------------------------------------- every FIFO run is a run of OneWay

  lemma ReachableStep(cfg: Config, s: State, a: Action)
    requires cfg.Valid() && Reachable(cfg, s) && Enabled(s, a)
    ensures Reachable(cfg, Step(cfg, s, a))
  {
    var t :| Reaches(cfg, Init(t), s);
    ReachesStep(cfg, Init(t), s, a);
  }

  // A task in the delivery loop gets as far as RunOn.
  lemma {:induction false} RunOnReachable(cfg: Config, s: State)
    requires cfg.Valid() && Reachable(cfg, s) && s.inn.draining > 0
    ensures Reachable(cfg, s.(inn := GoOn(s.inn)))
    decreases |s.inn.rcv.buffer|
  {
    var r := s.inn.rcv;
    ReachableStep(cfg, s, DoIterate);
    if r.next in r.buffer {
      var s' := Step(cfg, s, DoIterate);
      if r.buffer[r.next].HasMoreFragments() {
        RunOnReachable(cfg, s');
        assert s'.(inn := GoOn(s'.inn)) == s.(inn := GoOn(s.inn));
      } else {
        assert s' == s.(inn := GoOn(s.inn));
      }
    } else {
      assert Step(cfg, s, DoIterate) == s.(inn := GoOn(s.inn));
    }
  }

  lemma ReceiveReachable(cfg: Config, s: State, f: Frame)
    requires cfg.Valid() && Reachable(cfg, s) && f in s.data && s.inn.pending == multiset{}
    ensures Reachable(cfg, s.(inn := Receive(s.inn, f), acks := s.acks + {f.seqNo + 1}))
  {
    ReachableStep(cfg, s, ArriveData(f));
    var s1 := Step(cfg, s, ArriveData(f));
    ReachableStep(cfg, s1, DoResume(f));
    var s2 := Step(cfg, s1, DoResume(f));
    assert s2.inn.pending == multiset{};
    var goal := s.(inn := Receive(s.inn, f), acks := s.acks + {f.seqNo + 1});
    if f.seqNo < s.inn.rcv.next {
      assert s2 == goal;
    } else {
      RunOnReachable(cfg, s2);
      assert s2.(inn := GoOn(s2.inn)) == goal;
    }
  }

  // What the queues hold is in flight in the base system.
  ghost predicate QueuesIn(s: FState) {
    && s.base.inn.pending == multiset{}
    && (forall f :: f in s.dataQ ==> f in s.base.data)
    && (forall n :: n in s.ackQ ==> n in s.base.acks)
  }

  lemma StepReachable(cfg: Config, s: FState, a: FAction)
    requires cfg.Valid() && Reachable(cfg, s.base) && QueuesIn(s) && FEnabled(s, a)
    ensures Reachable(cfg, FStep(cfg, s, a).base) && QueuesIn(FStep(cfg, s, a))
  {
    match a
    case FTick(t) => ReachableStep(cfg, s.base, Tick(t));
    case FSubmit(msg) => ReachableStep(cfg, s.base, DoSubmit(msg));
    case FAttempt(i, ack) => ReachableStep(cfg, s.base, DoAttempt(i, ack));
    case FScan => ReachableStep(cfg, s.base, DoScan);
    case FRecvAck =>
      assert s.ackQ[0] in s.base.acks;
      ReachableStep(cfg, s.base, ArriveAck(s.ackQ[0]));
    case FRecvData =>
      assert s.dataQ[0] in s.base.data;
      ReceiveReachable(cfg, s.base, s.dataQ[0]);
    case FGoOn => RunOnReachable(cfg, s.base);
  }

  // ---------------------------------------------------------- the queue order

  // Taken in order, the frames of q never skip a number, and bring `next` to `end`.
  ghost predicate Ordered(q: seq<Frame>, next: nat, end: nat) {
    if q == [] then next == end
    else q[0].seqNo <= next && Ordered(q[1..], if q[0].seqNo < next then next else q[0].seqNo + 1, end)
  }

  lemma {:induction false} OrderedNew(q: seq<Frame>, next: nat, end: nat, f: Frame)
    requires Ordered(q, next, end) && f.seqNo == end
    ensures Ordered(q + [f], next, end + 1)
    decreases |q|
  {
    if q == [] {
      assert q + [f] == [f] && [f][1..] == [];
    } else {
      OrderedNew(q[1..], if q[0].seqNo < next then next else q[0].seqNo + 1, end, f);
      assert (q + [f])[1..] == q[1..] + [f];
    }
  }

  lemma {:induction false} OrderedOld(q: seq<Frame>, next: nat, end: nat, fs: seq<Frame>)
    requires Ordered(q, next, end) && forall f :: f in fs ==> f.seqNo < end
    ensures Ordered(q + fs, next, end)
    decreases |q|, |fs|
  {
    if q == [] {
      assert q + fs == fs;
      if fs != [] {
        assert fs[0] in fs;
        OrderedOld([], next, end, fs[1..]);
        assert [] + fs[1..] == fs[1..];
      }
    } else {
      OrderedOld(q[1..], if q[0].seqNo < next then next else q[0].seqNo + 1, end, fs);
      assert (q + fs)[1..] == q[1..] + fs;
    }
  }

  ghost predicate QueueInv(s: FState) {
    var n, o := s.base.inn.rcv.next, s.base.out;
    && s.base.inn.rcv.buffer == map[]
    && Ordered(s.dataQ, n, |o.log|)
    && (forall k :: k in s.ackQ ==> k <= n)
    && (forall k :: k in o.acked ==> k < n)
    && (n == 0 || o.ackHigh >= n || n in s.ackQ)
    && o.ackHigh <= n
  }

  ghost predicate FInv(cfg: Config, s: FState)
    requires cfg.Valid()
  {
    AllInv(cfg, s.base) && QueuesIn(s) && QueueInv(s)
  }

  // The frame at the head of the queue is consumed at once, or is an old one.
  lemma ReceiveHead(s: FState)
    requires QueueInv(s) && s.dataQ != []
    ensures var f, r := s.dataQ[0], s.base.inn.rcv; var r' := Receive(s.base.inn, f).rcv;
      && r'.buffer == map[]
      && f.seqNo <= r.next
      && (f.seqNo < r.next ==> r' == r)
      && (f.seqNo == r.next ==> r'.next == r.next + 1 && r'.reading == Read(r.reading, PieceOf(f)))
      // The task of a frame that completes a message is then suspended in `on_message`.
      && Receive(s.base.inn, f).draining
         == s.base.inn.draining + if f.seqNo == r.next && !f.HasMoreFragments() then 1 else 0
  {
    var f, r := s.dataQ[0], s.base.inn.rcv;
    if f.seqNo == r.next {
      var a := Accept(r, f);
      assert a.buffer == map[f.seqNo := f];
      var c := Consume(a);
      assert c.buffer == map[];
      assert RunOn(c) == Burst(c, false);
      assert RunOn(a).rcv == c;
    }
  }

  lemma AttemptQueueInv(cfg: Config, s: FState, i: nat, ack: nat)
    requires cfg.Valid() && QueueInv(s) && CanAttempt(s.base.out, i) && |s.base.out.log| == s.base.out.snd.sendSeq
    ensures QueueInv(FStep(cfg, s, FAttempt(i, ack)))
  {
    if HasRoom(cfg, s.base.out.snd) {
      OrderedNew(s.dataQ, s.base.inn.rcv.next, |s.base.out.log|, NextFrame(cfg, s.base.out, i, ack));
    }
  }

  lemma ScanQueueInv(cfg: Config, s: FState)
    requires cfg.Valid() && QueueInv(s) && SendInv(cfg, s.base.out)
    ensures QueueInv(FStep(cfg, s, FScan))
  {
    var fs := Resends(cfg, s.base.out.snd.window, s.base.clock);
    ResendsExact(cfg, s.base.out.snd.window, s.base.clock);
    OrderedOld(s.dataQ, s.base.inn.rcv.next, |s.base.out.log|, fs);
  }

  lemma RecvAckQueueInv(cfg: Config, s: FState)
    requires cfg.Valid() && QueueInv(s) && s.ackQ != []
    ensures QueueInv(FStep(cfg, s, FRecvAck))
  {
    var k := s.ackQ[0];
    assert k in s.ackQ;
    assert s.ackQ == [k] + s.ackQ[1..];
    assert forall j :: j in s.ackQ[1..] ==> j in s.ackQ;
    KeepFromExact(s.base.out.snd.window, k);
  }

  lemma RecvDataQueueInv(cfg: Config, s: FState)
    requires cfg.Valid() && QueueInv(s) && s.dataQ != []
    ensures QueueInv(FStep(cfg, s, FRecvData))
  {
    ReceiveHead(s);
    var s' := FStep(cfg, s, FRecvData);
    assert s.dataQ[0].seqNo + 1 in s'.ackQ && forall k :: k in s.ackQ ==> k in s'.ackQ;
  }

  lemma StepFInv(cfg: Config, s: FState, a: FAction)
    requires cfg.Valid() && FInv(cfg, s) && Reachable(cfg, s.base) && FEnabled(s, a)
    ensures FInv(cfg, FStep(cfg, s, a)) && Reachable(cfg, FStep(cfg, s, a).base)
  {
    StepReachable(cfg, s, a);
    ReachableAllInv(cfg, FStep(cfg, s, a).base);
    match a
    case FAttempt(i, ack) => AttemptQueueInv(cfg, s, i, ack);
    case FScan => ScanQueueInv(cfg, s);
    case FRecvAck => RecvAckQueueInv(cfg, s);
    case FRecvData => RecvDataQueueInv(cfg, s);
    case _ =>
  }

  lemma {:induction false} RunFInv(cfg: Config, s: FState, acts: seq<FAction>)
    requires cfg.Valid() && FInv(cfg, s) && Reachable(cfg, s.base) && FCanRun(cfg, s, acts)
    ensures FInv(cfg, FExec(cfg, s, acts)) && Reachable(cfg, FExec(cfg, s, acts).base)
    decreases |acts|
  {
    if acts == [] {
    } else {
      StepFInv(cfg, s, acts[0]);
      RunFInv(cfg, FStep(cfg, s, acts[0]), acts[1..]);
    }
  }

  /** Every state of a FIFO run is a state of the interleaved system over the lossy link. */
  lemma FifoRefinesLossy(cfg: Config, s: FState)
    requires cfg.Valid() && FReachable(cfg, s)
    ensures Reachable(cfg, s.base) && FInv(cfg, s)
  {
    var t, acts :| FCanRun(cfg, FInit(t), acts) && FExec(cfg, FInit(t), acts) == s;
    InitInv(cfg, t);
    ReachesSelf(cfg, Init(t));
    RunFInv(cfg, FInit(t), acts);
  }

  /**
   * On the FIFO link, even when retransmit drops occurred: an ACK never runs ahead of in-order
   * receipt, so a frame leaves the window by ACK only after it was consumed; nothing waits in the
   * reordering buffer; and whenever no data is in flight, everything sent has been received.
   */
  lemma FifoCompleteness(cfg: Config, s: FState)
    requires cfg.Valid() && FReachable(cfg, s)
    ensures forall n :: n in s.ackQ ==> n <= s.base.inn.rcv.next
    ensures forall k :: k in s.base.out.acked ==> k < s.base.inn.rcv.next
    ensures s.base.inn.rcv.buffer == map[]
    ensures s.dataQ == [] ==> s.base.inn.rcv.next == s.base.out.snd.sendSeq
    ensures s.dataQ == [] ==> s.base.inn.rcv.reading == Split(PiecesOf(s.base.out.log))
    ensures (s.dataQ == [] && s.base.out.serial && Finished(s.base.out.tasks))
              ==> s.base.inn.rcv.reading == Reading(s.base.out.msgs, [])
  {
    FifoRefinesLossy(cfg, s);
    var o := s.base.out;
    if s.dataQ == [] {
      assert o.log[..|o.log|] == o.log;
      if o.serial && Finished(o.tasks) {
        ReachableInOrder(cfg, s.base);
        assert o.tasks != [] ==> o.tasks[|o.tasks| - 1] in o.tasks;
        assert PiecesOf(o.log) + [] == PiecesOf(o.log);
        SplitStream(o.msgs, cfg.MaxPayload());
      }
    }
  }

  /**
   * With nothing in flight in either direction the window is empty and no sender waits: the lost
   * wake-up always heals on this link.
   */
  lemma FifoQuiescence(cfg: Config, s: FState)
    requires cfg.Valid() && FReachable(cfg, s) && s.dataQ == [] && s.ackQ == []
    ensures s.base.out.snd.window == []
    ensures forall t :: t in s.base.out.tasks ==> !t.parked
  {
    FifoRefinesLossy(cfg, s);
    var o := s.base.out;
    FirstEntry(o.snd.window);
  }

  lemma FirstEntry(w: seq<Unacked>)
    ensures w == [] || exists u :: u in w
  {
    assert w != [] ==> w[0] in w;
  }
}
