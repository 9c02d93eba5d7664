/**
 * Two multiplexers joined by what the tunnel really gives them: one lossless first-in
 * first-out queue of raw messages in each direction, shared by all channels.
 *
 * `net` runs the system of Mux; the queues decide which message is handled next.  As in
 * Fifo, sends do not suspend on this link.
 */
module MuxFifo {
  import opened Wrappers
  import opened Frames
  import opened Fragmentation
  import opened Reliable
  import opened Endpoint
  import opened OneWay
  import opened Fifo
  import opened Mux
  import opened Projection
  import opened MuxSafety

  datatype QNet = QNet(net: Net, offererQ: seq<Bytes>, answererQ: seq<Bytes>) {
    function Queue(s: Side): seq<Bytes> {
      if s.Offerer? then offererQ else answererQ
    }

    function WithQueue(s: Side, link: seq<Bytes>): QNet {
      if s.Offerer? then this.(offererQ := link) else this.(answererQ := link)
    }

    predicate Idle() {
      offererQ == [] && answererQ == []
    }
  }

  function QInit(t: real): QNet {
    QNet(NInit(t), [], [])
  }

  // What reaches the queue, in order.
  function WireQ(fs: seq<Frame>): seq<Bytes> {
    if fs == [] then []
    else (if fs[0].Fits() then [Serialize(fs[0]).value] else []) + WireQ(fs[1..])
  }

  function EmittedQ(cfg: Config, o: SendSide, i: nat, ack: nat): seq<Frame>
    requires CanAttempt(o, i)
  {
    if HasRoom(cfg, o.snd) then [NextFrame(cfg, o, i, ack)] else []
  }

  function RepliesQ(cfg: Config, f: Frame): seq<Frame> {
    match f.ftype
    case DATA => [AckFrame(cfg, f.seqNo + 1)]
    case PING => [Frame(PONG, 0, cfg.channelId, 0, f.seqNo, [])]
    case _ => []
  }

  // `handle_frame` up to its end or to a suspension in `on_message`.
  function Take(cfg: Config, ch: Chan, f: Frame): Chan {
    match f.ftype
    case ACK => ch.(out := OnAck(cfg, ch.out, f.ack))
    case DATA => ch.(inn := Receive(ch.inn, f))
    case _ => ch
  }

  datatype QAction =
    | QTick(t: real)
    | QOpen(s: Side)
    | QSubmit(s: Side, c: nat, msg: Bytes)
    | QAttempt(s: Side, c: nat, i: nat)
    | QScan(s: Side, c: nat)
    | QRecv(s: Side)
    | QGoOn(s: Side, c: nat)

  predicate QEnabled(q: QNet, a: QAction) {
    match a
    case QTick(t) => NEnabled(q.net, NTick(t))
    case QOpen(s) => NEnabled(q.net, NOpen(s))
    case QSubmit(s, c, msg) => NEnabled(q.net, NSubmit(s, c, msg))
    case QAttempt(s, c, i) => NEnabled(q.net, NAttempt(s, c, i))
    case QScan(s, c) => NEnabled(q.net, NScan(s, c))
    case QRecv(s) => q.Queue(s.Other()) != []
    case QGoOn(s, c) => NEnabled(q.net, NIterate(s, c))
  }

  // The message at the head of the queue towards s is handled.
  function HandleHead(cfg: Config, q: QNet, s: Side): QNet
    requires q.Queue(s.Other()) != []
  {
    var link := q.Queue(s.Other());
    var q' := q.WithQueue(s.Other(), link[1..]);
    match Deserialize(link[0])
    case Err(_) => q'
    case Ok(f) =>
      var cfg' := For(cfg, f.channelId);
      var ch := Take(cfg', ChanOf(q.net.At(s), f.channelId), f);
      q'.(net := Deliver(cfg, q.net, s, f, ch)).WithQueue(s, q.Queue(s) + WireQ(RepliesQ(cfg', f)))
  }

  function QStep(cfg: Config, q: QNet, a: QAction): QNet
    requires cfg.Valid() && QEnabled(q, a)
  {
    var n := q.net;
    match a
    case QTick(t) => q.(net := NStep(cfg, n, NTick(t)))
    case QOpen(s) => q.(net := NStep(cfg, n, NOpen(s)))
    case QSubmit(s, c, msg) => q.(net := NStep(cfg, n, NSubmit(s, c, msg)))
    case QAttempt(s, c, i) =>
      var ch := n.At(s).chans[c];
      q.(net := NStep(cfg, n, NAttempt(s, c, i)))
       .WithQueue(s, q.Queue(s) + WireQ(EmittedQ(For(cfg, c), ch.out, i, ch.inn.rcv.next)))
    case QScan(s, c) =>
      var ch := n.At(s).chans[c];
      q.(net := NStep(cfg, n, NScan(s, c)))
       .WithQueue(s, q.Queue(s) + WireQ(Resends(For(cfg, c), ch.out.snd.window, n.clock)))
    case QRecv(s) => HandleHead(cfg, q, s)
    case QGoOn(s, c) =>
      var ch := n.At(s).chans[c];
      q.(net := Update(n, s, c, ch.(inn := GoOn(ch.inn)), {}))
  }

  predicate QCanRun(cfg: Config, q: QNet, acts: seq<QAction>)
    requires cfg.Valid()
    decreases |acts|
  {
    acts == [] || (QEnabled(q, acts[0]) && QCanRun(cfg, QStep(cfg, q, acts[0]), acts[1..]))
  }

  function QExec(cfg: Config, q: QNet, acts: seq<QAction>): QNet
    requires cfg.Valid() && QCanRun(cfg, q, acts)
    decreases |acts|
  {
    if acts == [] then q else QExec(cfg, QStep(cfg, q, acts[0]), acts[1..])
  }

  ghost predicate QReachable(cfg: Config, q: QNet)
    requires cfg.Valid()
  {
    exists t, acts :: QCanRun(cfg, QInit(t), acts) && QExec(cfg, QInit(t), acts) == q
  }

  lemma {:induction false} QExecSnoc(cfg: Config, q: QNet, acts: seq<QAction>, a: QAction)
    requires cfg.Valid() && QCanRun(cfg, q, acts) && QEnabled(QExec(cfg, q, acts), a)
    ensures QCanRun(cfg, q, acts + [a]) && QExec(cfg, q, acts + [a]) == QStep(cfg, QExec(cfg, q, acts), a)
    decreases |acts|
  {
    if acts == [] {
      assert ([a] + [])[1..] == [] && QCanRun(cfg, QStep(cfg, q, a), []);
      assert acts + [a] == [a];
    } else {
      QExecSnoc(cfg, QStep(cfg, q, acts[0]), acts[1..], a);
      assert (acts + [a])[1..] == acts[1..] + [a];
    }
  }

  lemma QReachableStep(cfg: Config, q: QNet, a: QAction)
    requires cfg.Valid() && QReachable(cfg, q) && QEnabled(q, a)
    ensures QReachable(cfg, QStep(cfg, q, a))
  {
    var t, acts :| QCanRun(cfg, QInit(t), acts) && QExec(cfg, QInit(t), acts) == q;
    QExecSnoc(cfg, QInit(t), acts, a);
  }

  lemma {:induction false} QReachableRun(cfg: Config, q: QNet, acts: seq<QAction>)
    requires cfg.Valid() && QReachable(cfg, q) && QCanRun(cfg, q, acts)
    ensures QReachable(cfg, QExec(cfg, q, acts))
    decreases |acts|
  {
    if acts == [] {
    } else {
      QReachableStep(cfg, q, acts[0]);
      QReachableRun(cfg, QStep(cfg, q, acts[0]), acts[1..]);
    }
  }

  // ------------------------------------------------------------ one channel's view

  // What `at` finds in the items, one after another.
  function Gather<T, U>(items: seq<T>, at: T -> seq<U>): seq<U> {
    if items == [] then [] else at(items[0]) + Gather(items[1..], at)
  }

  function DataAt(c: nat): Bytes -> seq<Frame> {
    raw => if Carries(raw, DATA, c) then [Deserialize(raw).value] else []
  }

  function AcksAt(c: nat): Bytes -> seq<nat> {
    raw => if Carries(raw, ACK, c) then [Deserialize(raw).value.ack] else []
  }

  // The data frames, and the ACK numbers, a queue holds for channel c.
  function QData(link: seq<Bytes>, c: nat): seq<Frame> {
    Gather(link, DataAt(c))
  }

  function QAcks(link: seq<Bytes>, c: nat): seq<nat> {
    Gather(link, AcksAt(c))
  }

  // Channel c in the direction away from s, as a system of its own.
  function QView(q: QNet, s: Side, c: nat): FState {
    FState(View(q.net, s, c), QData(q.Queue(s), c), QAcks(q.Queue(s.Other()), c))
  }

  lemma {:induction false} GatherAppend<T, U>(a: seq<T>, b: seq<T>, at: T -> seq<U>)
    ensures Gather(a + b, at) == Gather(a, at) + Gather(b, at)
  {
    if a == [] {
      assert a + b == b;
    } else {
      GatherAppend(a[1..], b, at);
      assert (a + b)[0] == a[0] && (a + b)[1..] == a[1..] + b;
      Regroup(at(a[0]), Gather(a[1..], at), Gather(b, at));
    }
  }

  lemma GatherOne<T, U>(x: T, at: T -> seq<U>)
    ensures Gather([x], at) == at(x)
  {
    assert [x][1..] == [];
  }

  lemma QAppend(a: seq<Bytes>, b: seq<Bytes>, c: nat)
    ensures QData(a + b, c) == QData(a, c) + QData(b, c)
    ensures QAcks(a + b, c) == QAcks(a, c) + QAcks(b, c)
  {
    GatherAppend(a, b, DataAt(c));
    GatherAppend(a, b, AcksAt(c));
  }

  ghost predicate AllData(fs: seq<Frame>, c: nat) {
    forall f :: f in fs ==> f.Fits() && f.channelId == c && f.ftype == DATA
  }

  // What a queue of one message holds.
  lemma OneViews(raw: Bytes, f: Frame, c: nat)
    requires Deserialize(raw) == Ok(f)
    ensures QData([raw], c) == if f.ftype == DATA && f.channelId == c then [f] else []
    ensures QAcks([raw], c) == if f.ftype == ACK && f.channelId == c then [f.ack] else []
  {
    GatherOne(raw, DataAt(c));
    GatherOne(raw, AcksAt(c));
  }

  lemma WireQCons(f: Frame, fs: seq<Frame>, c: nat)
    requires f.Fits()
    ensures QData(WireQ([f] + fs), c) == (if f.ftype == DATA && f.channelId == c then [f] else []) + QData(WireQ(fs), c)
    ensures QAcks(WireQ([f] + fs), c)
            == (if f.ftype == ACK && f.channelId == c then [f.ack] else []) + QAcks(WireQ(fs), c)
  {
    var raw := Serialize(f).value;
    WireDecodes(f);
    OneViews(raw, f, c);
    QAppend([raw], WireQ(fs), c);
    assert ([f] + fs)[1..] == fs;
  }

  lemma WireQMore(f: Frame, fs: seq<Frame>, c0: nat, c: nat)
    requires f.Fits() && f.channelId == c0 && f.ftype == DATA
    requires QData(WireQ(fs), c) == (if c == c0 then fs else []) && QAcks(WireQ(fs), c) == []
    ensures QData(WireQ([f] + fs), c) == if c == c0 then [f] + fs else []
    ensures QAcks(WireQ([f] + fs), c) == []
  {
    WireQCons(f, fs, c);
  }

  // Data frames sent on channel c0 queue up on that channel, in order, and on no other.
  lemma {:induction false} WireQViews(fs: seq<Frame>, c0: nat, c: nat)
    requires AllData(fs, c0)
    ensures QData(WireQ(fs), c) == if c == c0 then fs else []
    ensures QAcks(WireQ(fs), c) == []
  {
    if fs == [] {
    } else {
      var f, rest := fs[0], fs[1..];
      assert fs == [f] + rest && f in fs;
      assert AllData(rest, c0) by {
        assert forall g :: g in rest ==> g in fs;
      }
      WireQViews(rest, c0, c);
      WireQMore(f, rest, c0, c);
    }
  }

  lemma AckQViews(cfg: Config, k: nat, c: nat)
    requires AckFrame(cfg, k).Fits()
    ensures QData(WireQ([AckFrame(cfg, k)]), c) == []
    ensures QAcks(WireQ([AckFrame(cfg, k)]), c) == if c == cfg.channelId then [k] else []
  {
    WireQCons(AckFrame(cfg, k), [], c);
    assert [AckFrame(cfg, k)] + [] == [AckFrame(cfg, k)];
  }

  lemma {:induction false} WireQIn(fs: seq<Frame>, gs: set<Frame>)
    requires forall f :: f in fs ==> f in gs
    ensures forall raw :: raw in WireQ(fs) ==> raw in Wire(gs)
  {
    if fs == [] {
    } else {
      assert fs[0] in fs;
      WireQIn(fs[1..], gs);
    }
  }

  // --------------------------------------------------------------- the projection

  function QSeen(q: QNet, a: QAction, v: Side, c: nat): Option<FAction>
    requires QEnabled(q, a)
  {
    match a
    case QTick(t) => Some(FTick(t))
    case QOpen(_) => None
    case QSubmit(s, c0, msg) => if c == c0 && v == s then Some(FSubmit(msg)) else None
    case QAttempt(s, c0, i) =>
      if c == c0 && v == s then Some(FAttempt(i, q.net.At(s).chans[c].inn.rcv.next)) else None
    case QScan(s, c0) => if c == c0 && v == s then Some(FScan) else None
    case QRecv(s) =>
      var raw := q.Queue(s.Other())[0];
      if Carries(raw, DATA, c) && v == s.Other() then Some(FRecvData)
      else if Carries(raw, ACK, c) && v == s then Some(FRecvAck)
      else None
    case QGoOn(s, c0) => if c == c0 && v == s.Other() then Some(FGoOn) else None
  }

  ghost predicate QSees(cfg: Config, q: QNet, q': QNet, v: Side, c: nat, b: Option<FAction>)
    requires cfg.Valid()
  {
    match b
    case None => QView(q', v, c) == QView(q, v, c)
    case Some(act) => FEnabled(QView(q, v, c), act) && QView(q', v, c) == FStep(For(cfg, c), QView(q, v, c), act)
  }

  // The queues hold what was sent, and every channel is where it could be alone.
  ghost predicate QInv(cfg: Config, q: QNet)
    requires cfg.Valid()
  {
    && NReachable(cfg, q.net)
    && (forall s: Side, raw :: raw in q.Queue(s) ==> raw in q.net.From(s))
    && (forall s: Side, c: nat :: FReachable(For(cfg, c), QView(q, s, c)))
  }

  // Data frames queued by s on channel c0 are seen on that channel only.
  lemma PushViews(q: QNet, n': Net, s: Side, fs: seq<Frame>, c0: nat, v: Side, c: nat)
    requires AllData(fs, c0)
    ensures QView(q.(net := n').WithQueue(s, q.Queue(s) + WireQ(fs)), v, c)
            == FState(View(n', v, c), QData(q.Queue(v), c) + (if v == s && c == c0 then fs else []),
                      QAcks(q.Queue(v.Other()), c))
  {
    WireQViews(fs, c0, c);
    QAppend(q.Queue(s), WireQ(fs), c);
  }

  lemma FAttemptStep(cfg: Config, x: FState, i: nat, ack: nat)
    requires cfg.Valid() && CanAttempt(x.base.out, i)
    ensures FStep(cfg, x, FAttempt(i, ack))
            == FState(Step(cfg, x.base, DoAttempt(i, ack)), x.dataQ + EmittedQ(cfg, x.base.out, i, ack), x.ackQ)
  {
  }

  lemma EmittedQData(cfg: Config, n: Net, s: Side, c: nat, i: nat)
    requires cfg.Valid() && NetInv(cfg, n) && NEnabled(n, NAttempt(s, c, i))
    ensures AllData(EmittedQ(For(cfg, c), n.At(s).chans[c].out, i, n.At(s).chans[c].inn.rcv.next), c)
  {
    EmittedFits(cfg, n, s, c, i);
  }

  lemma QSeeAttempt(cfg: Config, q: QNet, s: Side, c0: nat, i: nat, v: Side, c: nat)
    requires cfg.Valid() && QEnabled(q, QAttempt(s, c0, i))
    requires Sees(cfg, q.net, NStep(cfg, q.net, NAttempt(s, c0, i)), v, c, Seen(q.net, NAttempt(s, c0, i), v, c))
    requires AllData(EmittedQ(For(cfg, c0), q.net.At(s).chans[c0].out, i, q.net.At(s).chans[c0].inn.rcv.next), c0)
    ensures QSees(cfg, q, QStep(cfg, q, QAttempt(s, c0, i)), v, c, QSeen(q, QAttempt(s, c0, i), v, c))
  {
    var ch := q.net.At(s).chans[c0];
    var ack := ch.inn.rcv.next;
    PushViews(q, NStep(cfg, q.net, NAttempt(s, c0, i)), s, EmittedQ(For(cfg, c0), ch.out, i, ack), c0, v, c);
    if v == s && c == c0 {
      FAttemptStep(For(cfg, c), QView(q, v, c), i, ack);
    }
  }

  lemma ResendsData(cfg: Config, n: Net, s: Side, c: nat)
    requires cfg.Valid() && NetInv(cfg, n) && c in n.At(s).chans
    ensures AllData(Resends(For(cfg, c), n.At(s).chans[c].out.snd.window, n.clock), c)
  {
    ResentFits(cfg, n, s, c);
    OnlyData(cfg, n, s, c);
    var o := n.At(s).chans[c].out;
    forall f | f in Resends(For(cfg, c), o.snd.window, n.clock)
      ensures f.Fits() && f.channelId == c && f.ftype == DATA
    {
      assert f in Resent(For(cfg, c), o, n.clock);
      assert f in DataIn(Resent(For(cfg, c), o, n.clock));
    }
  }

  lemma QSeeScan(cfg: Config, q: QNet, s: Side, c0: nat, v: Side, c: nat)
    requires cfg.Valid() && QEnabled(q, QScan(s, c0))
    requires Sees(cfg, q.net, NStep(cfg, q.net, NScan(s, c0)), v, c, Seen(q.net, NScan(s, c0), v, c))
    requires AllData(Resends(For(cfg, c0), q.net.At(s).chans[c0].out.snd.window, q.net.clock), c0)
    ensures QSees(cfg, q, QStep(cfg, q, QScan(s, c0)), v, c, QSeen(q, QScan(s, c0), v, c))
  {
    var fs := Resends(For(cfg, c0), q.net.At(s).chans[c0].out.snd.window, q.net.clock);
    PushViews(q, NStep(cfg, q.net, NScan(s, c0)), s, fs, c0, v, c);
  }

  lemma HeadViews(link: seq<Bytes>, f: Frame, c: nat)
    requires link != [] && Deserialize(link[0]) == Ok(f)
    ensures QData(link, c) == (if f.ftype == DATA && f.channelId == c then [f] else []) + QData(link[1..], c)
    ensures QAcks(link, c) == (if f.ftype == ACK && f.channelId == c then [f.ack] else []) + QAcks(link[1..], c)
  {
    OneViews(link[0], f, c);
    QAppend([link[0]], link[1..], c);
    assert link == [link[0]] + link[1..];
  }

  lemma HandledQueues(cfg: Config, q: QNet, s: Side, f: Frame)
    requires q.Queue(s.Other()) != [] && Deserialize(q.Queue(s.Other())[0]) == Ok(f)
    ensures var q' := HandleHead(cfg, q, s);
      && q'.Queue(s.Other()) == q.Queue(s.Other())[1..]
      && q'.Queue(s) == q.Queue(s) + WireQ(RepliesQ(For(cfg, f.channelId), f))
  {
  }

  // Handling a data frame: the head of one queue goes, and its ACK joins the other.
  lemma DataQueues(cfg: Config, link: seq<Bytes>, back: seq<Bytes>, f: Frame, c: nat)
    requires link != [] && Deserialize(link[0]) == Ok(f) && f.ftype == DATA
    requires cfg.channelId == f.channelId && AckFrame(cfg, f.seqNo + 1).Fits()
    ensures QData(link, c) == (if c == f.channelId then [f] else []) + QData(link[1..], c)
    ensures QAcks(link, c) == QAcks(link[1..], c)
    ensures var acks := WireQ([AckFrame(cfg, f.seqNo + 1)]);
      && QData(back + acks, c) == QData(back, c)
      && QAcks(back + acks, c) == QAcks(back, c) + if c == f.channelId then [f.seqNo + 1] else []
  {
    HeadViews(link, f, c);
    AckQViews(cfg, f.seqNo + 1, c);
    QAppend(back, WireQ([AckFrame(cfg, f.seqNo + 1)]), c);
  }

  lemma RecvSeen(q: QNet, s: Side, f: Frame, v: Side, c: nat)
    requires q.Queue(s.Other()) != [] && Deserialize(q.Queue(s.Other())[0]) == Ok(f)
    ensures QSeen(q, QRecv(s), v, c) ==
            if c == f.channelId && f.ftype == DATA && v == s.Other() then Some(FRecvData)
            else if c == f.channelId && f.ftype == ACK && v == s then Some(FRecvAck)
            else None
  {
  }

  lemma FRecvDataStep(cfg: Config, x: FState, f: Frame, rest: seq<Frame>)
    requires cfg.Valid() && x.dataQ == [f] + rest
    ensures FEnabled(x, FRecvData)
    ensures FStep(cfg, x, FRecvData)
            == FState(x.base.(inn := Receive(x.base.inn, f), acks := x.base.acks + {f.seqNo + 1}), rest,
                      x.ackQ + [f.seqNo + 1])
  {
    assert x.dataQ[1..] == rest;
  }

  lemma QSeeData(cfg: Config, q: QNet, s: Side, f: Frame, v: Side, c: nat)
    requires cfg.Valid() && LinkOk(q.net.From(s)) && q.Queue(s.Other()) != []
    requires Deserialize(q.Queue(s.Other())[0]) == Ok(f) && f.ftype == DATA
    requires Sendable(Replies(For(cfg, f.channelId), f), f.channelId)
    ensures QSees(cfg, q, HandleHead(cfg, q, s), v, c, QSeen(q, QRecv(s), v, c))
  {
    assert AckFrame(For(cfg, f.channelId), f.seqNo + 1) in Replies(For(cfg, f.channelId), f);
    DataViews(cfg, q.net, s, f, Receive(ChanOf(q.net.At(s), f.channelId).inn, f), c);
    HandledQueues(cfg, q, s, f);
    DataQueues(For(cfg, f.channelId), q.Queue(s.Other()), q.Queue(s), f, c);
    RecvSeen(q, s, f, v, c);
    if v == s.Other() && c == f.channelId {
      FRecvDataStep(For(cfg, c), QView(q, v, c), f, QView(HandleHead(cfg, q, s), v, c).dataQ);
    }
  }

  lemma FRecvAckStep(cfg: Config, x: FState, k: nat, rest: seq<nat>)
    requires cfg.Valid() && x.ackQ == [k] + rest
    ensures FEnabled(x, FRecvAck)
    ensures FStep(cfg, x, FRecvAck) == FState(x.base.(out := OnAck(cfg, x.base.out, k)), x.dataQ, rest)
  {
    assert x.ackQ[1..] == rest;
  }

  // Handling an ACK: the head of one queue goes, and nothing joins the other.
  lemma AckQueues(cfg: Config, q: QNet, s: Side, f: Frame, c: nat)
    requires q.Queue(s.Other()) != [] && Deserialize(q.Queue(s.Other())[0]) == Ok(f) && f.ftype == ACK
    ensures var q' := HandleHead(cfg, q, s);
      && q'.Queue(s) == q.Queue(s)
      && QData(q'.Queue(s.Other()), c) == QData(q.Queue(s.Other()), c)
      && QAcks(q.Queue(s.Other()), c) == (if c == f.channelId then [f.ack] else []) + QAcks(q'.Queue(s.Other()), c)
  {
    HandledQueues(cfg, q, s, f);
    HeadViews(q.Queue(s.Other()), f, c);
    assert q.Queue(s) + WireQ([]) == q.Queue(s);
  }

  lemma QSeeAck(cfg: Config, q: QNet, s: Side, f: Frame, v: Side, c: nat)
    requires cfg.Valid() && LinkOk(q.net.From(s)) && q.Queue(s.Other()) != []
    requires Deserialize(q.Queue(s.Other())[0]) == Ok(f) && f.ftype == ACK
    ensures QSees(cfg, q, HandleHead(cfg, q, s), v, c, QSeen(q, QRecv(s), v, c))
  {
    AckViews(cfg, q.net, s, f, c);
    AckQueues(cfg, q, s, f, c);
    RecvSeen(q, s, f, v, c);
    if v == s && c == f.channelId {
      FRecvAckStep(For(cfg, c), QView(q, v, c), f.ack, QView(HandleHead(cfg, q, s), v, c).ackQ);
    }
  }

  lemma QSeeRecv(cfg: Config, q: QNet, s: Side, v: Side, c: nat)
    requires cfg.Valid() && QInv(cfg, q) && QEnabled(q, QRecv(s))
    ensures QSees(cfg, q, HandleHead(cfg, q, s), v, c, QSeen(q, QRecv(s), v, c))
  {
    var f := HeadFrame(cfg, q, s);
    if f.ftype == DATA {
      QSeeData(cfg, q, s, f, v, c);
    } else {
      QSeeAck(cfg, q, s, f, v, c);
    }
  }

  // What is handled next is a data frame or an ACK, and what it calls for can be sent.
  lemma HeadFrame(cfg: Config, q: QNet, s: Side) returns (f: Frame)
    requires cfg.Valid() && QInv(cfg, q) && QEnabled(q, QRecv(s))
    ensures q.Queue(s.Other())[0] in q.net.From(s.Other()) && LinkOk(q.net.From(s))
    ensures Deserialize(q.Queue(s.Other())[0]) == Ok(f) && (f.ftype == DATA || f.ftype == ACK)
    ensures Sendable(Replies(For(cfg, f.channelId), f), f.channelId)
  {
    ChannelsAreIndependent(cfg, q.net, s, 0);
    assert q.Queue(s.Other())[0] in q.Queue(s.Other());
    f := ArrivingFrame(cfg, q.net, s, q.Queue(s.Other())[0]);
  }

  lemma QSeeOpen(cfg: Config, q: QNet, s: Side, v: Side, c: nat)
    requires cfg.Valid() && MuxInv(cfg, q.net) && QEnabled(q, QOpen(s))
    ensures QSees(cfg, q, QStep(cfg, q, QOpen(s)), v, c, QSeen(q, QOpen(s), v, c))
  {
    FreshId(q.net, s);
    OpenViews(q.net, s, v, c);
  }

  lemma QSeeSubmit(cfg: Config, q: QNet, s: Side, c0: nat, msg: Bytes, v: Side, c: nat)
    requires cfg.Valid() && LinkOk(q.net.From(s)) && QEnabled(q, QSubmit(s, c0, msg))
    ensures QSees(cfg, q, QStep(cfg, q, QSubmit(s, c0, msg)), v, c, QSeen(q, QSubmit(s, c0, msg), v, c))
  {
    SeeSubmit(cfg, q.net, s, c0, msg, v, c);
    SubmitQueues(cfg, q, s, c0, msg, v);
    if c == c0 && v == s {
      FSubmitStep(For(cfg, c), QView(q, v, c), msg);
    }
  }

  lemma SubmitQueues(cfg: Config, q: QNet, s: Side, c0: nat, msg: Bytes, v: Side)
    requires cfg.Valid() && QEnabled(q, QSubmit(s, c0, msg))
    ensures QStep(cfg, q, QSubmit(s, c0, msg)).net == NStep(cfg, q.net, NSubmit(s, c0, msg))
    ensures QStep(cfg, q, QSubmit(s, c0, msg)).Queue(v) == q.Queue(v)
  {
  }

  lemma FSubmitStep(cfg: Config, x: FState, msg: Bytes)
    requires cfg.Valid()
    ensures FStep(cfg, x, FSubmit(msg)) == FState(Step(cfg, x.base, DoSubmit(msg)), x.dataQ, x.ackQ)
  {
  }

  lemma QSeeGoOn(cfg: Config, q: QNet, s: Side, c0: nat, v: Side, c: nat)
    requires cfg.Valid() && LinkOk(q.net.From(s)) && QEnabled(q, QGoOn(s, c0))
    ensures QSees(cfg, q, QStep(cfg, q, QGoOn(s, c0)), v, c, QSeen(q, QGoOn(s, c0), v, c))
  {
    var ch := q.net.At(s).chans[c0];
    SilentViews(q.net, s, c0, ch.(inn := GoOn(ch.inn)), c);
  }

  /** Every step is, seen on channel c away from v, one step of Fifo or nothing at all. */
  lemma QProjectStep(cfg: Config, q: QNet, a: QAction, v: Side, c: nat)
    requires cfg.Valid() && QInv(cfg, q) && QEnabled(q, a)
    ensures QSees(cfg, q, QStep(cfg, q, a), v, c, QSeen(q, a, v, c))
  {
    ChannelsAreIndependent(cfg, q.net, v, c);
    match a
    case QTick(_) =>
    case QOpen(s) => QSeeOpen(cfg, q, s, v, c);
    case QSubmit(s, c0, msg) => QSeeSubmit(cfg, q, s, c0, msg, v, c);
    case QAttempt(s, c0, i) =>
      ProjectStep(cfg, q.net, NAttempt(s, c0, i), v, c);
      EmittedQData(cfg, q.net, s, c0, i);
      QSeeAttempt(cfg, q, s, c0, i, v, c);
    case QScan(s, c0) =>
      ProjectStep(cfg, q.net, NScan(s, c0), v, c);
      ResendsData(cfg, q.net, s, c0);
      QSeeScan(cfg, q, s, c0, v, c);
    case QRecv(s) => QSeeRecv(cfg, q, s, v, c);
    case QGoOn(s, c0) => QSeeGoOn(cfg, q, s, c0, v, c);
  }
}
