/**
 * What holds in every run of the two multiplexers over the ordered link: such a run is a run
 * over the lossy link, every channel behaves as on an ordered link of its own, and every send
 * can be completed.
 */
module OrderedNet {
  import opened Wrappers
  import opened Frames
  import opened Fragmentation
  import opened Reliable
  import opened Endpoint
  import opened OneWay
  import opened Window
  import opened Fifo
  import opened Progress
  import opened Mux
  import opened Projection
  import opened MuxSafety
  import opened MuxFifo

  // -------------------------------------------- every ordered run is a run of Mux

  function GoOnAt(n: Net, s: Side, c: nat): Net
    requires c in n.At(s).chans && n.At(s).chans[c].inn.draining > 0
  {
    var ch := n.At(s).chans[c];
    Update(n, s, c, ch.(inn := GoOn(ch.inn)), {})
  }

  // A task in a delivery loop gets as far as RunOn.
  lemma {:induction false} GoOnReachable(cfg: Config, n: Net, s: Side, c: nat)
    requires cfg.Valid() && NReachable(cfg, n) && NEnabled(n, NIterate(s, c))
    ensures NReachable(cfg, GoOnAt(n, s, c))
    decreases |n.At(s).chans[c].inn.rcv.buffer|
  {
    var ch := n.At(s).chans[c];
    var r := ch.inn.rcv;
    NReachableStep(cfg, n, NIterate(s, c));
    var n' := NStep(cfg, n, NIterate(s, c));
    if r.next in r.buffer && r.buffer[r.next].HasMoreFragments() {
      GoOnReachable(cfg, n', s, c);
      UpdateTwice(n, s, c, ch.(inn := Iterate(ch.inn)), {}, ch.(inn := GoOn(ch.inn)));
      assert GoOn(Iterate(ch.inn)) == GoOn(ch.inn);
      assert GoOnAt(n', s, c) == GoOnAt(n, s, c);
    } else {
      assert Iterate(ch.inn) == GoOn(ch.inn);
    }
  }

  lemma ReceiveInSteps(n: RecvSide, f: Frame)
    requires n.pending == multiset{}
    ensures var n2 := Resume(OnArrive(n, f), f);
      if f.seqNo < n.rcv.next then n2 == Receive(n, f) else n2.draining > 0 && GoOn(n2) == Receive(n, f)
  {
    assert Resume(OnArrive(n, f), f).pending == multiset{};
  }

  // A data frame handled without suspension up to `on_message`: arrival, resumption, loop.
  lemma TakeReachable(cfg: Config, n: Net, s: Side, raw: Bytes, f: Frame)
    requires cfg.Valid() && NReachable(cfg, n) && raw in n.From(s.Other())
    requires Deserialize(raw) == Ok(f) && f.ftype == DATA
    requires ChanOf(n.At(s), f.channelId).inn.pending == multiset{}
    ensures var ch := ChanOf(n.At(s), f.channelId);
      NReachable(cfg, Deliver(cfg, n, s, f, ch.(inn := Receive(ch.inn, f))))
  {
    var c := f.channelId;
    var ch := ChanOf(n.At(s), c);
    var inn2 := Resume(OnArrive(ch.inn, f), f);
    var t :| NReaches(cfg, NInit(t), n);
    ResumedReaches(cfg, NInit(t), n, s, raw, f);
    ReceiveInSteps(ch.inn, f);
    if f.seqNo >= ch.inn.rcv.next {
      var n2 := Deliver(cfg, n, s, f, ch.(inn := inn2));
      GoOnReachable(cfg, n2, s, c);
      DeliverThenUpdate(cfg, n, s, f, ch.(inn := inn2), ch.(inn := GoOn(inn2)));
    }
  }

  lemma RecvReachable(cfg: Config, q: QNet, s: Side)
    requires cfg.Valid() && QInv(cfg, q) && QEnabled(q, QRecv(s))
    ensures NReachable(cfg, HandleHead(cfg, q, s).net)
  {
    var raw := q.Queue(s.Other())[0];
    var f := HeadFrame(cfg, q, s);
    if f.ftype == DATA {
      assert FReachable(For(cfg, f.channelId), QView(q, s.Other(), f.channelId));
      FifoRefinesLossy(For(cfg, f.channelId), QView(q, s.Other(), f.channelId));
      TakeReachable(cfg, q.net, s, raw, f);
    } else {
      NReachableStep(cfg, q.net, NArrive(s, raw));
    }
  }

  lemma QStepReachable(cfg: Config, q: QNet, a: QAction)
    requires cfg.Valid() && QInv(cfg, q) && QEnabled(q, a)
    ensures NReachable(cfg, QStep(cfg, q, a).net)
  {
    match a
    case QTick(t) => NReachableStep(cfg, q.net, NTick(t));
    case QOpen(s) => NReachableStep(cfg, q.net, NOpen(s));
    case QSubmit(s, c, msg) => NReachableStep(cfg, q.net, NSubmit(s, c, msg));
    case QAttempt(s, c, i) => NReachableStep(cfg, q.net, NAttempt(s, c, i));
    case QScan(s, c) => NReachableStep(cfg, q.net, NScan(s, c));
    case QRecv(s) => RecvReachable(cfg, q, s);
    case QGoOn(s, c) => GoOnReachable(cfg, q.net, s, c);
  }

  // ------------------------------------------------------------------ main results

  // A step only adds to the links.
  lemma LinksGrow(cfg: Config, q: QNet, a: QAction, v: Side)
    requires cfg.Valid() && QEnabled(q, a)
    ensures q.net.From(v) <= QStep(cfg, q, a).net.From(v)
  {
  }

  // What is queued was sent.
  lemma QStepQueues(cfg: Config, q: QNet, a: QAction, v: Side, raw: Bytes)
    requires cfg.Valid() && QInv(cfg, q) && QEnabled(q, a) && raw in QStep(cfg, q, a).Queue(v)
    ensures raw in QStep(cfg, q, a).net.From(v)
  {
    LinksGrow(cfg, q, a, v);
    match a
    case QAttempt(s, c, i) =>
      var ch := q.net.At(s).chans[c];
      WireQIn(EmittedQ(For(cfg, c), ch.out, i, ch.inn.rcv.next), Emitted(For(cfg, c), ch.out, i, ch.inn.rcv.next));
    case QScan(s, c) =>
      var o := q.net.At(s).chans[c].out;
      WireQIn(Resends(For(cfg, c), o.snd.window, q.net.clock), Resent(For(cfg, c), o, q.net.clock));
    case QRecv(s) => RecvQueues(cfg, q, s, v, raw);
    case _ => assert QStep(cfg, q, a).Queue(v) == q.Queue(v);
  }

  lemma RecvQueues(cfg: Config, q: QNet, s: Side, v: Side, raw: Bytes)
    requires cfg.Valid() && QInv(cfg, q) && QEnabled(q, QRecv(s)) && raw in HandleHead(cfg, q, s).Queue(v)
    ensures raw in HandleHead(cfg, q, s).net.From(v)
  {
    var link := q.Queue(s.Other());
    var f := HeadFrame(cfg, q, s);
    assert forall r :: r in link[1..] ==> r in link;
    WireQIn(RepliesQ(For(cfg, f.channelId), f), Replies(For(cfg, f.channelId), f));
  }

  lemma QStepInv(cfg: Config, q: QNet, a: QAction)
    requires cfg.Valid() && QInv(cfg, q) && QEnabled(q, a)
    ensures QInv(cfg, QStep(cfg, q, a))
  {
    var q' := QStep(cfg, q, a);
    QStepReachable(cfg, q, a);
    forall v: Side, raw | raw in q'.Queue(v)
      ensures raw in q'.net.From(v)
    {
      QStepQueues(cfg, q, a, v, raw);
    }
    forall v: Side, c: nat
      ensures FReachable(For(cfg, c), QView(q', v, c))
    {
      QProjectStep(cfg, q, a, v, c);
      assert FReachable(For(cfg, c), QView(q, v, c));
      match QSeen(q, a, v, c)
      case None =>
      case Some(act) => FReachableStep(For(cfg, c), QView(q, v, c), act);
    }
  }

  lemma QInitInv(cfg: Config, t: real)
    requires cfg.Valid()
    ensures QInv(cfg, QInit(t))
  {
    NReachesSelf(cfg, NInit(t));
    forall v: Side, c: nat
      ensures FReachable(For(cfg, c), QView(QInit(t), v, c))
    {
      assert QView(QInit(t), v, c) == FInit(t);
      assert FCanRun(For(cfg, c), FInit(t), []);
    }
  }

  lemma {:induction false} QRunInv(cfg: Config, q: QNet, acts: seq<QAction>)
    requires cfg.Valid() && QInv(cfg, q) && QCanRun(cfg, q, acts)
    ensures QInv(cfg, QExec(cfg, q, acts))
    decreases |acts|
  {
    if acts == [] {
    } else {
      QStepInv(cfg, q, acts[0]);
      QRunInv(cfg, QStep(cfg, q, acts[0]), acts[1..]);
    }
  }

  /**
   * A run over the ordered link is a run over the lossy one, and every channel, in each direction,
   * is in a state it could reach alone on an ordered link of its own.
   */
  lemma RefinesLossy(cfg: Config, q: QNet)
    requires cfg.Valid() && QReachable(cfg, q)
    ensures QInv(cfg, q)
  {
    var t, acts :| QCanRun(cfg, QInit(t), acts) && QExec(cfg, QInit(t), acts) == q;
    QInitInv(cfg, t);
    QRunInv(cfg, QInit(t), acts);
  }

  /**
   * With nothing in flight between the peers, on every channel in both directions: everything sent
   * was received, every finished message delivered, every window is empty and no sender waits.
   */
  lemma Quiescence(cfg: Config, q: QNet, s: Side, c: nat)
    requires cfg.Valid() && QReachable(cfg, q) && q.Idle()
    ensures var o, n := ChanOf(q.net.At(s), c).out, ChanOf(q.net.At(s.Other()), c).inn;
      && n.rcv.next == o.snd.sendSeq && n.rcv.buffer == map[]
      && o.snd.window == [] && (forall t :: t in o.tasks ==> !t.parked)
      && (o.serial && Finished(o.tasks) ==> n.rcv.reading == Reading(o.msgs, []))
  {
    RefinesLossy(cfg, q);
    var x := QView(q, s, c);
    assert FReachable(For(cfg, c), x) && x.dataQ == [] && x.ackQ == [];
    FifoCompleteness(For(cfg, c), x);
    FifoQuiescence(For(cfg, c), x);
  }

  // ------------------------------------------------------------- everything completes

  // The steps that do something.  A clock tick, an opening and a scan with no frame due do not.
  predicate QAdvances(q: QNet, a: QAction)
    requires QEnabled(q, a)
  {
    match a
    case QTick(_) => false
    case QOpen(_) => false
    case QSubmit(_, _, _) => false
    case QScan(s, c) => DueCount(q.net.At(s).chans[c].out.snd.window, q.net.clock) > 0
    case _ => true
  }

  // The direction of the channel that a step that does something is about.
  function Touched(q: QNet, a: QAction): (Side, nat)
    requires QEnabled(q, a) && QAdvances(q, a)
  {
    match a
    case QAttempt(s, c, _) => (s, c)
    case QScan(s, c) => (s, c)
    case QGoOn(s, c) => (s.Other(), c)
    case QRecv(s) =>
      match Deserialize(q.Queue(s.Other())[0])
      case Err(_) => (s, 0)
      case Ok(f) => (if f.ftype == DATA then s.Other() else s, f.channelId)
  }

  lemma SmallId(cfg: Config, n: Net, s: Side, c: nat)
    requires cfg.Valid() && NReachable(cfg, n) && c in n.At(s).chans
    ensures c < U16
  {
    ChannelsAreIndependent(cfg, n, s, c);
  }

  lemma RecvTouches(cfg: Config, q: QNet, s: Side)
    requires cfg.Valid() && QInv(cfg, q) && QEnabled(q, QRecv(s))
    ensures var (v, c) := Touched(q, QRecv(s));
      c < U16 && (QSeen(q, QRecv(s), v, c) == Some(FRecvData) || QSeen(q, QRecv(s), v, c) == Some(FRecvAck))
  {
    var f := HeadFrame(cfg, q, s);
    AcceptedIsSerialized(q.Queue(s.Other())[0]);
    RecvSeen(q, s, f, if f.ftype == DATA then s.Other() else s, f.channelId);
  }

  lemma TouchedAdvances(cfg: Config, q: QNet, a: QAction)
    requires cfg.Valid() && QInv(cfg, q) && QEnabled(q, a) && QAdvances(q, a)
    ensures var (v, c) := Touched(q, a);
      c < U16 && QSeen(q, a, v, c).Some? && Advances(QView(q, v, c), QSeen(q, a, v, c).value)
  {
    if a.QRecv? {
      RecvTouches(cfg, q, a.s);
    } else {
      SmallId(cfg, q.net, a.s, a.c);
    }
  }

  function ViewRank(cfg: Config, q: QNet, v: Side, c: nat): int {
    Rank(For(cfg, c), QView(q, v, c))
  }

  // What is left to do on the first n channels in one direction.
  function SideRank(cfg: Config, q: QNet, v: Side, n: nat): int {
    if n == 0 then 0 else SideRank(cfg, q, v, n - 1) + ViewRank(cfg, q, v, n - 1)
  }

  function Total(cfg: Config, q: QNet, n: nat): int {
    SideRank(cfg, q, Offerer, n) + SideRank(cfg, q, Answerer, n)
  }

  // Seen on any channel the rank does not rise, and on the one touched it falls.
  lemma StepViewRank(cfg: Config, q: QNet, a: QAction, v: Side, c: nat)
    requires cfg.Valid() && QInv(cfg, q) && QEnabled(q, a) && !a.QSubmit?
    ensures ViewRank(cfg, QStep(cfg, q, a), v, c)
            + (if QAdvances(q, a) && Touched(q, a) == (v, c) then 1 else 0) <= ViewRank(cfg, q, v, c)
  {
    QProjectStep(cfg, q, a, v, c);
    assert FReachable(For(cfg, c), QView(q, v, c));
    if QAdvances(q, a) && Touched(q, a) == (v, c) {
      TouchedAdvances(cfg, q, a);
    }
    match QSeen(q, a, v, c)
    case None =>
    case Some(act) => StepRank(For(cfg, c), QView(q, v, c), act);
  }

  lemma {:induction false} SideRankFalls(cfg: Config, q: QNet, q': QNet, v: Side, n: nat, k: int)
    requires forall c: nat :: ViewRank(cfg, q', v, c) + (if c == k then 1 else 0) <= ViewRank(cfg, q, v, c)
    ensures SideRank(cfg, q', v, n) + (if 0 <= k < n then 1 else 0) <= SideRank(cfg, q, v, n)
  {
    if n == 0 {
    } else {
      SideRankFalls(cfg, q, q', v, n - 1, k);
    }
  }

  // The channel whose rank falls in direction v, or -1.
  function FallsAt(q: QNet, a: QAction, v: Side): int
    requires QEnabled(q, a)
  {
    if QAdvances(q, a) && Touched(q, a).0 == v then Touched(q, a).1 else -1
  }

  lemma StepSideRank(cfg: Config, q: QNet, a: QAction, v: Side, n: nat)
    requires cfg.Valid() && QInv(cfg, q) && QEnabled(q, a) && !a.QSubmit?
    ensures SideRank(cfg, QStep(cfg, q, a), v, n) + (if 0 <= FallsAt(q, a, v) < n then 1 else 0)
            <= SideRank(cfg, q, v, n)
  {
    var q' := QStep(cfg, q, a);
    var k := FallsAt(q, a, v);
    forall c: nat
      ensures ViewRank(cfg, q', v, c) + (if c == k then 1 else 0) <= ViewRank(cfg, q, v, c)
    {
      StepViewRank(cfg, q, a, v, c);
    }
    SideRankFalls(cfg, q, q', v, n, k);
  }

  lemma TotalFalls(cfg: Config, q: QNet, a: QAction, n: nat)
    requires cfg.Valid() && QInv(cfg, q) && QEnabled(q, a) && !a.QSubmit? && n >= U16
    ensures Total(cfg, QStep(cfg, q, a), n) + (if QAdvances(q, a) then 1 else 0) <= Total(cfg, q, n)
  {
    if QAdvances(q, a) {
      TouchedAdvances(cfg, q, a);
    }
    StepSideRank(cfg, q, a, Offerer, n);
    StepSideRank(cfg, q, a, Answerer, n);
  }

  lemma ViewRankNotNegative(cfg: Config, q: QNet, v: Side, c: nat)
    requires cfg.Valid() && QInv(cfg, q)
    ensures ViewRank(cfg, q, v, c) >= 0
  {
    assert FReachable(For(cfg, c), QView(q, v, c));
    FifoRefinesLossy(For(cfg, c), QView(q, v, c));
    RankNotNegative(For(cfg, c), QView(q, v, c));
  }

  lemma {:induction false} SideRankNotNegative(cfg: Config, q: QNet, v: Side, n: nat)
    requires forall c: nat :: ViewRank(cfg, q, v, c) >= 0
    ensures SideRank(cfg, q, v, n) >= 0
  {
    if n == 0 {
    } else {
      SideRankNotNegative(cfg, q, v, n - 1);
    }
  }

  lemma TotalNotNegative(cfg: Config, q: QNet, n: nat)
    requires cfg.Valid() && QInv(cfg, q)
    ensures Total(cfg, q, n) >= 0
  {
    forall v: Side, c: nat
      ensures ViewRank(cfg, q, v, c) >= 0
    {
      ViewRankNotNegative(cfg, q, v, c);
    }
    SideRankNotNegative(cfg, q, Offerer, n);
    SideRankNotNegative(cfg, q, Answerer, n);
  }

  ghost predicate NoFurtherSubmit(acts: seq<QAction>) {
    forall a :: a in acts ==> !a.QSubmit?
  }

  function QAdvanceCount(cfg: Config, q: QNet, acts: seq<QAction>): nat
    requires cfg.Valid() && QCanRun(cfg, q, acts)
    decreases |acts|
  {
    if acts == [] then 0
    else (if QAdvances(q, acts[0]) then 1 else 0) + QAdvanceCount(cfg, QStep(cfg, q, acts[0]), acts[1..])
  }

  lemma {:induction false} RunTotal(cfg: Config, q: QNet, acts: seq<QAction>, n: nat)
    requires cfg.Valid() && QInv(cfg, q) && QCanRun(cfg, q, acts) && NoFurtherSubmit(acts) && n >= U16
    ensures QInv(cfg, QExec(cfg, q, acts))
    ensures QAdvanceCount(cfg, q, acts) + Total(cfg, QExec(cfg, q, acts), n) <= Total(cfg, q, n)
    decreases |acts|
  {
    if acts == [] {
    } else {
      assert acts[0] in acts;
      TotalFalls(cfg, q, acts[0], n);
      QStepInv(cfg, q, acts[0]);
      RunTotal(cfg, QStep(cfg, q, acts[0]), acts[1..], n);
    }
  }

  // The numbers left on channel c are enough for the pieces still to be sent.
  ghost predicate NumbersLeft(q: QNet, s: Side, c: nat) {
    var o := ChanOf(q.net.At(s), c).out;
    c in q.net.At(s).chans && |o.log| + Work(o.tasks) <= U32 - 1
  }

  lemma ChannelsStay(cfg: Config, q: QNet, a: QAction, s: Side, c: nat)
    requires cfg.Valid() && QEnabled(q, a) && c in q.net.At(s).chans
    ensures c in QStep(cfg, q, a).net.At(s).chans
  {
  }

  lemma {:induction false} RunNumbers(cfg: Config, q: QNet, acts: seq<QAction>, s: Side, c: nat)
    requires cfg.Valid() && QInv(cfg, q) && QCanRun(cfg, q, acts) && NoFurtherSubmit(acts) && NumbersLeft(q, s, c)
    ensures NumbersLeft(QExec(cfg, q, acts), s, c)
    ensures var o, o' := ChanOf(q.net.At(s), c).out, ChanOf(QExec(cfg, q, acts).net.At(s), c).out;
      o'.msgs == o.msgs && o'.serial == o.serial
    decreases |acts|
  {
    if acts == [] {
    } else {
      assert acts[0] in acts;
      StepNumbers(cfg, q, acts[0], s, c);
      QStepInv(cfg, q, acts[0]);
      RunNumbers(cfg, QStep(cfg, q, acts[0]), acts[1..], s, c);
    }
  }

  lemma StepNumbers(cfg: Config, q: QNet, a: QAction, s: Side, c: nat)
    requires cfg.Valid() && QInv(cfg, q) && QEnabled(q, a) && !a.QSubmit? && NumbersLeft(q, s, c)
    ensures NumbersLeft(QStep(cfg, q, a), s, c)
    ensures var o, o' := ChanOf(q.net.At(s), c).out, ChanOf(QStep(cfg, q, a).net.At(s), c).out;
      o'.msgs == o.msgs && o'.serial == o.serial
  {
    ChannelsStay(cfg, q, a, s, c);
    QProjectStep(cfg, q, a, s, c);
    var x, x' := QView(q, s, c), QView(QStep(cfg, q, a), s, c);
    assert x.base.out == ChanOf(q.net.At(s), c).out && x'.base.out == ChanOf(QStep(cfg, q, a).net.At(s), c).out;
    match QSeen(q, a, s, c)
    case None =>
    case Some(act) => StepWork(For(cfg, c), x, act);
  }

  // Nothing is left to do.
  ghost predicate QSettled(q: QNet) {
    forall a :: QEnabled(q, a) ==> !QAdvances(q, a)
  }

  // Nothing is in flight or under way, and every send is finished or its channel out of numbers.
  ghost predicate QComplete(q: QNet) {
    && q.Idle()
    && forall s: Side, c: nat :: c in q.net.At(s).chans ==> ChanDone(q.net.At(s).chans[c])
  }

  ghost predicate ChanDone(ch: Chan) {
    && ch.inn.draining == 0
    && (Finished(ch.out.tasks) || ch.out.snd.sendSeq >= U32 - 1)
  }

  // A step that does something, while anything is left.
  lemma QNextStep(cfg: Config, q: QNet) returns (a: QAction)
    requires cfg.Valid() && QReachable(cfg, q) && !QComplete(q)
    ensures QEnabled(q, a) && QAdvances(q, a)
  {
    if q.offererQ != [] {
      return QRecv(Answerer);
    } else if q.answererQ != [] {
      return QRecv(Offerer);
    }
    var s: Side, c: nat :| c in q.net.At(s).chans && !ChanDone(q.net.At(s).chans[c]);
    var ch := q.net.At(s).chans[c];
    if ch.inn.draining > 0 {
      return QGoOn(s, c);
    }
    Quiescence(cfg, q, s, c);
    var t :| t in ch.out.tasks && t.rest != [];
    var i :| 0 <= i < |ch.out.tasks| && ch.out.tasks[i] == t;
    a := QAttempt(s, c, i);
  }

  /** Nothing is left to do exactly when everything was delivered, but for channels out of numbers. */
  lemma QSettledExactly(cfg: Config, q: QNet)
    requires cfg.Valid() && QReachable(cfg, q)
    ensures QSettled(q) <==> QComplete(q)
  {
    if QComplete(q) {
      forall a | QEnabled(q, a)
        ensures !QAdvances(q, a)
      {
        CompleteIsSettled(cfg, q, a);
      }
    } else {
      var a := QNextStep(cfg, q);
    }
  }

  lemma CompleteIsSettled(cfg: Config, q: QNet, a: QAction)
    requires cfg.Valid() && QReachable(cfg, q) && QComplete(q) && QEnabled(q, a)
    ensures !QAdvances(q, a)
  {
    if a.QScan? {
      Quiescence(cfg, q, a.s, a.c);
    }
  }

  // On channel c everything was sent and delivered.
  ghost predicate Delivered(q: QNet, s: Side, c: nat, msgs: seq<Bytes>) {
    var o, n := ChanOf(q.net.At(s), c).out, ChanOf(q.net.At(s.Other()), c).inn;
    && Finished(o.tasks) && o.snd.window == [] && o.msgs == msgs
    && n.rcv.next == o.snd.sendSeq
    && (o.serial ==> n.rcv.reading == Reading(msgs, []))
  }

  /**
   * Every run of the two peers without further sends takes at most Total(q) steps that do something,
   * on all channels together; once none is left, every channel that had sequence numbers left has
   * finished its sends and delivered every message.
   */
  lemma EveryRunCompletes(cfg: Config, q: QNet, acts: seq<QAction>, n: nat)
    requires cfg.Valid() && QReachable(cfg, q) && QCanRun(cfg, q, acts) && NoFurtherSubmit(acts) && n >= U16
    ensures QAdvanceCount(cfg, q, acts) <= Total(cfg, q, n)
    ensures var q' := QExec(cfg, q, acts);
      QSettled(q') ==>
        && q'.Idle()
        && forall s: Side, c: nat :: NumbersLeft(q, s, c) ==> Delivered(q', s, c, ChanOf(q.net.At(s), c).out.msgs)
  {
    var q' := QExec(cfg, q, acts);
    RefinesLossy(cfg, q);
    RunTotal(cfg, q, acts, n);
    TotalNotNegative(cfg, q', n);
    QReachableRun(cfg, q, acts);
    QSettledExactly(cfg, q');
    if QSettled(q') {
      forall s: Side, c: nat | NumbersLeft(q, s, c)
        ensures Delivered(q', s, c, ChanOf(q.net.At(s), c).out.msgs)
      {
        RunNumbers(cfg, q, acts, s, c);
        SettledDelivers(cfg, q', s, c);
      }
    }
  }

  lemma SettledDelivers(cfg: Config, q: QNet, s: Side, c: nat)
    requires cfg.Valid() && QReachable(cfg, q) && QComplete(q) && NumbersLeft(q, s, c)
    ensures Delivered(q, s, c, ChanOf(q.net.At(s), c).out.msgs)
  {
    var o := q.net.At(s).chans[c].out;
    Quiescence(cfg, q, s, c);
    RefinesLossy(cfg, q);
    ChannelsAreIndependent(cfg, q.net, s, c);
    assert Inv(For(cfg, c), View(q.net, s, c));
    assert ChanDone(q.net.At(s).chans[c]);
    if !Finished(o.tasks) {
      var t :| t in o.tasks && t.rest != [];
      var i :| 0 <= i < |o.tasks| && o.tasks[i] == t;
      WorkLeft(o.tasks, i);
    }
  }

  /** From every reachable state some run without further sends leaves nothing to do. */
  lemma {:induction false} CompletingRun(cfg: Config, q: QNet, n: nat) returns (acts: seq<QAction>)
    requires cfg.Valid() && QReachable(cfg, q) && n >= U16
    ensures QCanRun(cfg, q, acts) && NoFurtherSubmit(acts) && QSettled(QExec(cfg, q, acts))
    decreases Total(cfg, q, n)
  {
    QSettledExactly(cfg, q);
    if QComplete(q) {
      return [];
    }
    RefinesLossy(cfg, q);
    TotalNotNegative(cfg, q, n);
    var a := QNextStep(cfg, q);
    TotalFalls(cfg, q, a, n);
    QReachableStep(cfg, q, a);
    var rest := CompletingRun(cfg, QStep(cfg, q, a), n);
    acts := [a] + rest;
    assert acts[1..] == rest;
  }

  lemma FirstChannel(cfg: Config) returns (q: QNet)
    requires cfg.Valid()
    ensures QReachable(cfg, q) && 1 in q.net.At(Offerer).chans && q.net.At(Offerer).chans[1] == FRESH_CHAN
  {
    var q0 := QInit(0.0);
    assert QCanRun(cfg, q0, []);
    QReachableStep(cfg, q0, QOpen(Offerer));
    q := QStep(cfg, q0, QOpen(Offerer));
  }

  // The offerer opens its first channel and calls `send`.
  lemma FirstMessage(cfg: Config, m: Bytes) returns (q: QNet)
    requires cfg.Valid()
    requires (if m == [] then 1 else (|m| + cfg.mtu - 15) / (cfg.mtu - 14)) <= U32 - 1
    ensures QReachable(cfg, q) && NumbersLeft(q, Offerer, 1)
    ensures ChanOf(q.net.At(Offerer), 1).out.msgs == [m] && ChanOf(q.net.At(Offerer), 1).out.serial
  {
    var q1 := FirstChannel(cfg);
    QReachableStep(cfg, q1, QSubmit(Offerer, 1, m));
    q := QStep(cfg, q1, QSubmit(Offerer, 1, m));
    SubmitOut(cfg, q1, Offerer, 1, m);
    FirstWork(cfg, m);
  }

  lemma SubmitOut(cfg: Config, q: QNet, s: Side, c: nat, m: Bytes)
    requires cfg.Valid() && c in q.net.At(s).chans
    ensures var p := QStep(cfg, q, QSubmit(s, c, m)).net.At(s);
      c in p.chans && p.chans[c].out == Submit(For(cfg, c), q.net.At(s).chans[c].out, m)
  {
  }

  lemma FirstWork(cfg: Config, m: Bytes)
    requires cfg.Valid()
    ensures var o := Submit(For(cfg, 1), INIT_SEND, m);
      && Work(o.tasks) == (if m == [] then 1 else (|m| + cfg.mtu - 15) / (cfg.mtu - 14))
      && o.log == [] && o.msgs == [m] && o.serial
  {
    var o := Submit(For(cfg, 1), INIT_SEND, m);
    MessageFrames(For(cfg, 1), m);
    assert o.tasks == [SendTask(Pieces(m, cfg.MaxPayload()), false)] && |o.tasks[1..]| == 0;
  }

  /**
   * For every configuration and every message that takes at most 2^32 - 1 frames: the offerer can open
   * a channel, send the message, and some run brings exactly it to the answerer's `on_message`.
   */
  lemma AnyMessageArrives(cfg: Config, m: Bytes) returns (q: QNet)
    requires cfg.Valid()
    requires (if m == [] then 1 else (|m| + cfg.mtu - 15) / (cfg.mtu - 14)) <= U32 - 1
    ensures QReachable(cfg, q) && q.Idle() && 1 in q.net.answerer.announced
    ensures ChanOf(q.net.At(Offerer), 1).out.msgs == [m]
    ensures ChanOf(q.net.At(Answerer), 1).inn.rcv.reading == Reading([m], [])
  {
    var q2 := FirstMessage(cfg, m);
    var acts := CompletingRun(cfg, q2, U16);
    q := QExec(cfg, q2, acts);
    EveryRunCompletes(cfg, q2, acts, U16);
    QReachableRun(cfg, q2, acts);
    RefinesLossy(cfg, q2);
    RunNumbers(cfg, q2, acts, Offerer, 1);
    assert Delivered(q, Offerer, 1, [m]);
    ArrivedAtAnswerer(cfg, q);
  }

  // A peer that has delivered a message has the channel, and it was announced there.
  lemma ArrivedAtAnswerer(cfg: Config, q: QNet)
    requires cfg.Valid() && QReachable(cfg, q) && ChanOf(q.net.answerer, 1).inn.rcv.reading.msgs != []
    ensures 1 in q.net.answerer.chans && 1 in q.net.answerer.announced
  {
    RefinesLossy(cfg, q);
    JointIds(cfg, q.net, Answerer);
  }
}
