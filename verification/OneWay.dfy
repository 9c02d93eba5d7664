/**
 * One direction of a channel over a link that loses, duplicates and reorders.
 *
 * The link is the set of frames (and of ACK numbers) in flight.  Arrival leaves a frame
 * in the set, so it may arrive again, any frame may arrive next, and losing removes it.
 * A link that counts copies has no more behaviours than this one.  What a task handed to
 * `send_raw` counts as in flight even while that call is suspended.
 */
module OneWay {
  import opened Frames
  import opened Fragmentation
  import opened Reliable
  import opened Endpoint

  datatype State = State(clock: real, out: SendSide, inn: RecvSide, data: set<Frame>, acks: set<nat>)

  function Init(t: real): State {
    State(t, INIT_SEND, INIT_RECV, {}, {})
  }

  datatype Action =
    | Tick(t: real)
    | DoSubmit(msg: Bytes)
    | DoAttempt(i: nat, piggyback: nat)
    | DoScan
    | ArriveAck(n: nat)
    | ArriveData(f: Frame)
    | DoResume(f: Frame)
    | DoIterate
    | LoseData(f: Frame)
    | LoseAck(n: nat)

  predicate Enabled(s: State, a: Action) {
    match a
    case Tick(t) => s.clock <= t
    case DoSubmit(_) => true
    case DoAttempt(i, _) => CanAttempt(s.out, i)
    case DoScan => true
    case ArriveAck(n) => n in s.acks
    case ArriveData(f) => f in s.data
    case DoResume(f) => f in s.inn.pending
    case DoIterate => s.inn.draining > 0
    case LoseData(_) => true
    case LoseAck(_) => true
  }

  function Step(cfg: Config, s: State, a: Action): State
    requires cfg.Valid() && Enabled(s, a)
  {
    match a
    case Tick(t) => s.(clock := t)
    case DoSubmit(msg) => s.(out := Submit(cfg, s.out, msg))
    case DoAttempt(i, ack) =>
      s.(out := Attempt(cfg, s.out, i, ack, s.clock), data := s.data + Emitted(cfg, s.out, i, ack))
    case DoScan => s.(out := OnScan(cfg, s.out, s.clock), data := s.data + Resent(cfg, s.out, s.clock))
    case ArriveAck(n) => s.(out := OnAck(cfg, s.out, n))
    case ArriveData(f) => s.(inn := OnArrive(s.inn, f), acks := s.acks + {f.seqNo + 1})
    case DoResume(f) => s.(inn := Resume(s.inn, f))
    case DoIterate => s.(inn := Iterate(s.inn))
    case LoseData(f) => s.(data := s.data - {f})
    case LoseAck(n) => s.(acks := s.acks - {n})
  }

  // A run is a list of actions, each enabled in the state the previous ones lead to.
  predicate CanRun(cfg: Config, s: State, acts: seq<Action>)
    requires cfg.Valid()
    decreases |acts|
  {
    acts == [] || (Enabled(s, acts[0]) && CanRun(cfg, Step(cfg, s, acts[0]), acts[1..]))
  }

  function Exec(cfg: Config, s: State, acts: seq<Action>): State
    requires cfg.Valid() && CanRun(cfg, s, acts)
    decreases |acts|
  {
    if acts == [] then s else Exec(cfg, Step(cfg, s, acts[0]), acts[1..])
  }

  lemma {:induction false} ExecAppend(cfg: Config, s: State, a: seq<Action>, b: seq<Action>)
    requires cfg.Valid() && CanRun(cfg, s, a) && CanRun(cfg, Exec(cfg, s, a), b)
    ensures CanRun(cfg, s, a + b) && Exec(cfg, s, a + b) == Exec(cfg, Exec(cfg, s, a), b)
    decreases |a|
  {
    if a == [] {
      assert a + b == b;
    } else {
      ExecAppend(cfg, Step(cfg, s, a[0]), a[1..], b);
      assert (a + b)[1..] == a[1..] + b;
    }
  }

  ghost predicate Reaches(cfg: Config, s: State, s': State)
    requires cfg.Valid()
  {
    exists acts :: CanRun(cfg, s, acts) && Exec(cfg, s, acts) == s'
  }

  // Reachable from a fresh channel.
  ghost predicate Reachable(cfg: Config, s: State)
    requires cfg.Valid()
  {
    exists t :: Reaches(cfg, Init(t), s)
  }

  lemma ReachesSelf(cfg: Config, s: State)
    requires cfg.Valid()
    ensures Reaches(cfg, s, s)
  {
    assert CanRun(cfg, s, []);
  }

  lemma ReachesStep(cfg: Config, s: State, s': State, a: Action)
    requires cfg.Valid() && Reaches(cfg, s, s') && Enabled(s', a)
    ensures Reaches(cfg, s, Step(cfg, s', a))
  {
    var acts :| CanRun(cfg, s, acts) && Exec(cfg, s, acts) == s';
    assert CanRun(cfg, Step(cfg, s', a), []);
    assert CanRun(cfg, s', [a]) && Exec(cfg, s', [a]) == Step(cfg, s', a);
    ExecAppend(cfg, s, acts, [a]);
  }

  lemma ReachesTrans(cfg: Config, s: State, s': State, s'': State)
    requires cfg.Valid() && Reaches(cfg, s, s') && Reaches(cfg, s', s'')
    ensures Reaches(cfg, s, s'')
  {
    var a :| CanRun(cfg, s, a) && Exec(cfg, s, a) == s';
    var b :| CanRun(cfg, s', b) && Exec(cfg, s', b) == s'';
    ExecAppend(cfg, s, a, b);
  }

  // ------------------------------------------------------------ the invariant

  ghost predicate IsData(cfg: Config, f: Frame, seqNo: nat)
    requires cfg.Valid()
  {
    && f.ftype == DATA
    && f.flags < 2
    && f.channelId == cfg.channelId
    && f.seqNo == seqNo
    && |f.payload| <= cfg.MaxPayload()
  }

  ghost predicate InLog(log: seq<Frame>, f: Frame) {
    f.seqNo < |log| && f == log[f.seqNo]
  }

  function PiecesOf(log: seq<Frame>): (r: seq<Piece>)
    ensures |r| == |log|
    ensures forall i :: 0 <= i < |log| ==> r[i] == PieceOf(log[i])
  {
    seq(|log|, i requires 0 <= i < |log| => PieceOf(log[i]))
  }

  ghost predicate TasksOk(cfg: Config, tasks: seq<SendTask>)
    requires cfg.Valid()
  {
    forall t, p :: t in tasks && p in t.rest ==> |p.payload| <= cfg.MaxPayload()
  }

  ghost predicate SendInv(cfg: Config, o: SendSide)
    requires cfg.Valid()
  {
    && |o.log| == o.snd.sendSeq
    && (forall k :: 0 <= k < |o.log| ==> IsData(cfg, o.log[k], k))
    && Ascending(o.snd.window)
    && |o.snd.window| <= cfg.windowSize
    && (forall u :: u in o.snd.window ==> InLog(o.log, u.frame) && u.frame.seqNo >= o.ackHigh)
    && o.ackHigh <= |o.log|
    && TasksOk(cfg, o.tasks)
  }

  ghost predicate RecvInv(log: seq<Frame>, n: RecvSide) {
    && n.rcv.next <= |log|
    && (forall k :: k in n.rcv.buffer ==> n.rcv.next <= k < |log| && n.rcv.buffer[k] == log[k])
    && (forall f :: f in n.pending ==> InLog(log, f))
    && n.rcv.reading == Split(PiecesOf(log[..n.rcv.next]))
    && (n.rcv.next in n.rcv.buffer ==> n.draining > 0)
  }

  ghost predicate LinkInv(log: seq<Frame>, data: set<Frame>, acks: set<nat>) {
    && (forall f :: f in data ==> InLog(log, f))
    && (forall n :: n in acks ==> n <= |log|)
  }

  ghost predicate Inv(cfg: Config, s: State)
    requires cfg.Valid()
  {
    && SendInv(cfg, s.out)
    && RecvInv(s.out.log, s.inn)
    && LinkInv(s.out.log, s.data, s.acks)
  }

  lemma InitInv(cfg: Config, t: real)
    requires cfg.Valid()
    ensures Inv(cfg, Init(t))
  {
  }

  lemma {:induction false} PiecesFit(data: Bytes, max: nat)
    requires max > 0
    ensures forall p :: p in Pieces(data, max) ==> |p.payload| <= max
    decreases |data|
  {
    if |data| > max {
      PiecesFit(data[max..], max);
    }
  }

  lemma SubmitInv(cfg: Config, o: SendSide, data: Bytes)
    requires cfg.Valid() && SendInv(cfg, o)
    ensures SendInv(cfg, Submit(cfg, o, data))
  {
    PiecesFit(data, cfg.MaxPayload());
  }

  lemma AttemptInv(cfg: Config, o: SendSide, i: nat, ack: nat, now: real)
    requires cfg.Valid() && SendInv(cfg, o) && CanAttempt(o, i)
    ensures SendInv(cfg, Attempt(cfg, o, i, ack, now))
  {
  }

  lemma OnAckInv(cfg: Config, o: SendSide, n: nat)
    requires cfg.Valid() && SendInv(cfg, o) && n <= |o.log|
    ensures SendInv(cfg, OnAck(cfg, o, n))
  {
    KeepFromExact(o.snd.window, n);
    var o' := OnAck(cfg, o, n);
    forall t', p | t' in o'.tasks && p in t'.rest
      ensures |p.payload| <= cfg.MaxPayload()
    {
      var j :| 0 <= j < |o'.tasks| && o'.tasks[j] == t';
      assert o.tasks[j] in o.tasks && o.tasks[j].rest == t'.rest;
    }
  }

  lemma OnScanInv(cfg: Config, o: SendSide, now: real)
    requires cfg.Valid() && SendInv(cfg, o)
    ensures SendInv(cfg, OnScan(cfg, o, now))
    ensures forall f :: f in Resent(cfg, o, now) ==> InLog(o.log, f)
  {
    RescanMembers(cfg, o.snd.window, now);
    RescanOrder(cfg, o.snd.window, now);
    ResendsExact(cfg, o.snd.window, now);
    forall v | v in Rescan(cfg, o.snd.window, now)
      ensures InLog(o.log, v.frame) && v.frame.seqNo >= o.ackHigh
    {
      assert ScannedFrom(cfg, o.snd.window, v, now);
    }
  }

  lemma PiecesOfSnoc(log: seq<Frame>, k: nat)
    requires k < |log|
    ensures PiecesOf(log[..k + 1]) == PiecesOf(log[..k]) + [PieceOf(log[k])]
  {
  }

  lemma ConsumeInv(log: seq<Frame>, n: RecvSide)
    requires RecvInv(log, n) && n.draining > 0
    ensures RecvInv(log, Iterate(n))
  {
    var k := n.rcv.next;
    if k in n.rcv.buffer {
      PiecesOfSnoc(log, k);
      SplitSnoc(PiecesOf(log[..k]), PieceOf(log[k]));
    }
  }

  lemma ArriveInv(log: seq<Frame>, n: RecvSide, f: Frame)
    requires RecvInv(log, n) && InLog(log, f)
    ensures RecvInv(log, OnArrive(n, f))
  {
  }

  lemma ResumeInv(log: seq<Frame>, n: RecvSide, f: Frame)
    requires RecvInv(log, n) && f in n.pending
    ensures RecvInv(log, Resume(n, f))
  {
  }

  // A longer log changes nothing for the receiving half and the link.
  lemma LogGrows(cfg: Config, s: State, f: Frame)
    requires cfg.Valid() && Inv(cfg, s)
    ensures RecvInv(s.out.log + [f], s.inn)
    ensures LinkInv(s.out.log + [f], s.data, s.acks)
  {
    assert (s.out.log + [f])[..s.inn.rcv.next] == s.out.log[..s.inn.rcv.next];
  }

  lemma StepSendInv(cfg: Config, s: State, a: Action)
    requires cfg.Valid() && SendInv(cfg, s.out) && LinkInv(s.out.log, s.data, s.acks) && Enabled(s, a)
    ensures SendInv(cfg, Step(cfg, s, a).out)
  {
    match a
    case DoSubmit(msg) => SubmitInv(cfg, s.out, msg);
    case DoAttempt(i, ack) => AttemptInv(cfg, s.out, i, ack, s.clock);
    case DoScan => OnScanInv(cfg, s.out, s.clock);
    case ArriveAck(n) => OnAckInv(cfg, s.out, n);
    case _ =>
  }

  lemma StepRecvInv(cfg: Config, s: State, a: Action)
    requires cfg.Valid() && Inv(cfg, s) && Enabled(s, a)
    ensures RecvInv(Step(cfg, s, a).out.log, Step(cfg, s, a).inn)
  {
    match a
    case DoAttempt(i, ack) => LogGrows(cfg, s, NextFrame(cfg, s.out, i, ack));
    case ArriveData(f) => ArriveInv(s.out.log, s.inn, f);
    case DoResume(f) => ResumeInv(s.out.log, s.inn, f);
    case DoIterate => ConsumeInv(s.out.log, s.inn);
    case _ =>
  }

  lemma StepLinkInv(cfg: Config, s: State, a: Action)
    requires cfg.Valid() && Inv(cfg, s) && Enabled(s, a)
    ensures var s' := Step(cfg, s, a); LinkInv(s'.out.log, s'.data, s'.acks)
  {
    match a
    case DoAttempt(i, ack) => LogGrows(cfg, s, NextFrame(cfg, s.out, i, ack));
    case DoScan => OnScanInv(cfg, s.out, s.clock);
    case _ =>
  }

  lemma StepInv(cfg: Config, s: State, a: Action)
    requires cfg.Valid() && Inv(cfg, s) && Enabled(s, a)
    ensures Inv(cfg, Step(cfg, s, a))
  {
    StepSendInv(cfg, s, a);
    StepRecvInv(cfg, s, a);
    StepLinkInv(cfg, s, a);
  }

  lemma {:induction false} RunInv(cfg: Config, s: State, acts: seq<Action>)
    requires cfg.Valid() && Inv(cfg, s) && CanRun(cfg, s, acts)
    ensures Inv(cfg, Exec(cfg, s, acts))
    decreases |acts|
  {
    if acts == [] {
    } else {
      StepInv(cfg, s, acts[0]);
      RunInv(cfg, Step(cfg, s, acts[0]), acts[1..]);
    }
  }

  lemma ReachableInv(cfg: Config, s: State)
    requires cfg.Valid() && Reachable(cfg, s)
    ensures Inv(cfg, s)
  {
    var t :| Reaches(cfg, Init(t), s);
    var acts :| CanRun(cfg, Init(t), acts) && Exec(cfg, Init(t), acts) == s;
    InitInv(cfg, t);
    RunInv(cfg, Init(t), acts);
  }
}
