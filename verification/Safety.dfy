/**
 * End-to-end safety over the lossy link: what is delivered is a prefix of what was sent.
 */
module Safety {
  import opened Frames
  import opened Fragmentation
  import opened Reliable
  import opened Endpoint
  import opened OneWay

  // What the last `send` has still to hand over.
  function Unsent(tasks: seq<SendTask>): seq<Piece> {
    if tasks == [] then [] else tasks[|tasks| - 1].rest
  }

  // While sends do not overlap, the frames made so far and the pieces still to send are the
  // fragmentation of the messages, in order.
  ghost predicate InOrder(cfg: Config, o: SendSide)
    requires cfg.Valid()
  {
    o.serial ==>
      && (o.tasks != [] ==> Finished(o.tasks[..|o.tasks| - 1]))
      && PiecesOf(o.log) + Unsent(o.tasks) == Stream(o.msgs, cfg.MaxPayload())
  }

  lemma StepInOrder(cfg: Config, s: State, a: Action)
    requires cfg.Valid() && InOrder(cfg, s.out) && Enabled(s, a)
    ensures InOrder(cfg, Step(cfg, s, a).out)
  {
  }

  lemma {:induction false} RunInOrder(cfg: Config, s: State, acts: seq<Action>)
    requires cfg.Valid() && InOrder(cfg, s.out) && CanRun(cfg, s, acts)
    ensures InOrder(cfg, Exec(cfg, s, acts).out)
    decreases |acts|
  {
    if acts == [] {
    } else {
      StepInOrder(cfg, s, acts[0]);
      RunInOrder(cfg, Step(cfg, s, acts[0]), acts[1..]);
    }
  }

  lemma PiecesOfPrefix(log: seq<Frame>, n: nat)
    requires n <= |log|
    ensures PiecesOf(log[..n]) <= PiecesOf(log)
  {
  }

  lemma DeliveredPrefix(cfg: Config, s: State)
    requires cfg.Valid() && Inv(cfg, s) && InOrder(cfg, s.out) && s.out.serial
    ensures s.inn.rcv.reading.msgs <= s.out.msgs
  {
    PiecesOfPrefix(s.out.log, s.inn.rcv.next);
    StreamPrefix(PiecesOf(s.out.log[..s.inn.rcv.next]), s.out.msgs, cfg.MaxPayload());
  }

  lemma ReachableInOrder(cfg: Config, s: State)
    requires cfg.Valid() && Reachable(cfg, s)
    ensures InOrder(cfg, s.out)
  {
    var t :| Reaches(cfg, Init(t), s);
    var acts :| CanRun(cfg, Init(t), acts) && Exec(cfg, Init(t), acts) == s;
    RunInOrder(cfg, Init(t), acts);
  }

  /**
   * In every state of every run, whatever the link loses, repeats or reorders and however the
   * tasks interleave: if no `send` was called while another was unfinished, the messages passed
   * to `on_message` are a prefix of the messages passed to `send`.
   */
  lemma EndToEndSafety(cfg: Config, s: State)
    requires cfg.Valid() && Reachable(cfg, s)
    ensures s.out.serial ==> s.inn.rcv.reading.msgs <= s.out.msgs
  {
    ReachableInv(cfg, s);
    ReachableInOrder(cfg, s);
    if s.out.serial {
      DeliveredPrefix(cfg, s);
    }
  }

  /**
   * With overlapping sends too, the receiver reads a prefix of the frames in the order they were
   * made; their messages are whatever those frames spell.
   */
  lemma FrameSafety(cfg: Config, s: State)
    requires cfg.Valid() && Reachable(cfg, s)
    ensures s.inn.rcv.next <= |s.out.log|
    ensures s.inn.rcv.reading == Split(PiecesOf(s.out.log[..s.inn.rcv.next]))
    ensures s.inn.rcv.reading.msgs <= Split(PiecesOf(s.out.log)).msgs
  {
    ReachableInv(cfg, s);
    PiecesOfPrefix(s.out.log, s.inn.rcv.next);
    SplitPrefix(PiecesOf(s.out.log[..s.inn.rcv.next]), PiecesOf(s.out.log));
  }

  // ------------------------------------------- when overlapping sends can mix messages

  ghost predicate AtMost(msgs: seq<Bytes>, n: nat) {
    forall m :: m in msgs ==> |m| <= n
  }

  // Every message delivered is one that was sent.
  ghost predicate OnlySent(s: State) {
    forall m :: m in s.inn.rcv.reading.msgs ==> m in s.out.msgs
  }

  // The piece is a whole message.
  ghost predicate Whole(p: Piece, msgs: seq<Bytes>) {
    !p.more && p.payload in msgs
  }

  ghost predicate AllWhole(ps: seq<Piece>, msgs: seq<Bytes>) {
    forall p :: p in ps ==> Whole(p, msgs)
  }

  // While every message fits one frame, every frame made and every piece left is a whole message.
  ghost predicate WholeInv(cfg: Config, o: SendSide)
    requires cfg.Valid()
  {
    AtMost(o.msgs, cfg.MaxPayload()) ==>
      && AllWhole(PiecesOf(o.log), o.msgs)
      && forall t :: t in o.tasks ==> AllWhole(t.rest, o.msgs)
  }

  lemma SubmitWhole(cfg: Config, o: SendSide, m: Bytes)
    requires cfg.Valid() && WholeInv(cfg, o)
    ensures WholeInv(cfg, Submit(cfg, o, m))
  {
    var o' := Submit(cfg, o, m);
    if AtMost(o'.msgs, cfg.MaxPayload()) {
      assert forall x :: x in o.msgs ==> x in o'.msgs;
      assert m in o'.msgs;
      assert Pieces(m, cfg.MaxPayload()) == [Piece(false, m)];
    }
  }

  lemma AttemptWhole(cfg: Config, o: SendSide, i: nat, ack: nat, now: real)
    requires cfg.Valid() && WholeInv(cfg, o) && CanAttempt(o, i)
    ensures WholeInv(cfg, Attempt(cfg, o, i, ack, now))
  {
    var o' := Attempt(cfg, o, i, ack, now);
    var t := o.tasks[i];
    if AtMost(o.msgs, cfg.MaxPayload()) {
      assert t in o.tasks && t.rest[0] in t.rest;
      assert forall p :: p in t.rest[1..] ==> p in t.rest;
      if HasRoom(cfg, o.snd) {
        PiecesOfSnoc(o'.log, |o.log|);
        assert o'.log[..|o.log| + 1] == o'.log && o'.log[..|o.log|] == o.log;
      }
    }
  }

  lemma AckWhole(cfg: Config, o: SendSide, n: nat)
    requires cfg.Valid() && WholeInv(cfg, o)
    ensures WholeInv(cfg, OnAck(cfg, o, n))
  {
    var o' := OnAck(cfg, o, n);
    forall t' | t' in o'.tasks && AtMost(o.msgs, cfg.MaxPayload())
      ensures AllWhole(t'.rest, o.msgs)
    {
      var j :| 0 <= j < |o'.tasks| && o'.tasks[j] == t';
      assert o.tasks[j] in o.tasks && o.tasks[j].rest == t'.rest;
    }
  }

  lemma StepWhole(cfg: Config, s: State, a: Action)
    requires cfg.Valid() && WholeInv(cfg, s.out) && Enabled(s, a)
    ensures WholeInv(cfg, Step(cfg, s, a).out)
  {
    match a
    case DoSubmit(m) => SubmitWhole(cfg, s.out, m);
    case DoAttempt(i, ack) => AttemptWhole(cfg, s.out, i, ack, s.clock);
    case ArriveAck(n) => AckWhole(cfg, s.out, n);
    case _ =>
  }

  lemma {:induction false} RunWhole(cfg: Config, s: State, acts: seq<Action>)
    requires cfg.Valid() && WholeInv(cfg, s.out) && CanRun(cfg, s, acts)
    ensures WholeInv(cfg, Exec(cfg, s, acts).out)
    decreases |acts|
  {
    if acts == [] {
    } else {
      StepWhole(cfg, s, acts[0]);
      RunWhole(cfg, Step(cfg, s, acts[0]), acts[1..]);
    }
  }

  // Reading whole messages gives just those, and leaves nothing behind.
  lemma {:induction false} ReadWhole(ps: seq<Piece>, msgs: seq<Bytes>)
    requires AllWhole(ps, msgs)
    ensures Split(ps).parts == [] && forall m :: m in Split(ps).msgs ==> m in msgs
  {
    if ps == [] {
    } else {
      var front, p := ps[..|ps| - 1], ps[|ps| - 1];
      assert p in ps && forall x :: x in front ==> x in ps;
      ReadWhole(front, msgs);
      var none: seq<Bytes> := [];
      JoinSnoc(none, p.payload);
      assert none + [p.payload] == [p.payload] && Join(none) + p.payload == p.payload;
      assert Split(ps).msgs == Split(front).msgs + [p.payload];
    }
  }

  lemma SmallMessagesStayWhole(cfg: Config, s: State)
    requires cfg.Valid() && Reachable(cfg, s) && AtMost(s.out.msgs, cfg.MaxPayload())
    ensures OnlySent(s)
  {
    var t :| Reaches(cfg, Init(t), s);
    var acts :| CanRun(cfg, Init(t), acts) && Exec(cfg, Init(t), acts) == s;
    assert WholeInv(cfg, Init(t).out);
    RunWhole(cfg, Init(t), acts);
    ReachableInv(cfg, s);
    PiecesOfPrefix(s.out.log, s.inn.rcv.next);
    var read := PiecesOf(s.out.log[..s.inn.rcv.next]);
    assert forall p :: p in read ==> p in PiecesOf(s.out.log);
    ReadWhole(read, s.out.msgs);
  }

  // Frame k arrives and is processed to the end by its own task, with nothing else under way.
  lemma ReceiveOne(cfg: Config, s0: State, s: State, f: Frame) returns (s': State)
    requires cfg.Valid() && Reaches(cfg, s0, s) && f in s.data
    requires Quiet(s.inn) && s.inn.rcv.buffer == map[] && f.seqNo == s.inn.rcv.next
    ensures Reaches(cfg, s0, s') && Quiet(s'.inn)
    ensures s'.inn.rcv == Receiver(f.seqNo + 1, map[], Read(s.inn.rcv.reading, PieceOf(f)))
    ensures s'.out == s.out && s'.data == s.data && s'.acks == s.acks + {f.seqNo + 1}
  {
    var s1 := Step(cfg, s, ArriveData(f));
    ReachesStep(cfg, s0, s, ArriveData(f));
    var s2 := Step(cfg, s1, DoResume(f));
    ReachesStep(cfg, s0, s1, DoResume(f));
    var s3 := Step(cfg, s2, DoIterate);
    ReachesStep(cfg, s0, s2, DoIterate);
    ReachesStep(cfg, s0, s3, DoIterate);
    s' := Step(cfg, s3, DoIterate);
    assert s2.inn.rcv.buffer == map[f.seqNo := f];
    assert s3.inn.rcv.buffer == map[];
  }

  // A message of one full chunk and one byte, and, before it is finished, a second message.
  lemma TwoOverlapping(cfg: Config, m1: Bytes, m2: Bytes) returns (s: State, f: Frame)
    requires cfg.Valid() && |m1| == cfg.MaxPayload() + 1 && |m2| == 1
    ensures Reaches(cfg, Init(0.0), s) && !s.out.serial && s.out.msgs == [m1, m2]
    ensures |s.out.tasks| == 2 && s.out.tasks[1] == SendTask([Piece(false, m2)], false)
    ensures s.out.snd == Sender(1, [Unacked(f, 0.0, 0, cfg.baseRto)], true)
    ensures f.seqNo == 0 && PieceOf(f) == Piece(true, m1[..cfg.MaxPayload()])
    ensures s.inn == INIT_RECV && f in s.data
  {
    var s0 := Init(0.0);
    ReachesSelf(cfg, s0);
    var s1 := Step(cfg, s0, DoSubmit(m1));
    ReachesStep(cfg, s0, s0, DoSubmit(m1));
    var s2 := Step(cfg, s1, DoSubmit(m2));
    ReachesStep(cfg, s0, s1, DoSubmit(m2));
    assert s2.out.tasks == [SendTask(Pieces(m1, cfg.MaxPayload()), false), SendTask([Piece(false, m2)], false)];
    assert s1.out.tasks[0] in s1.out.tasks;
    f := NextFrame(cfg, s2.out, 0, 0);
    s := Step(cfg, s2, DoAttempt(0, 0));
    ReachesStep(cfg, s0, s2, DoAttempt(0, 0));
  }

  // The first chunk of one message and the whole of another read as one message.
  lemma MixedReading(a: Bytes, b: Bytes)
    ensures Read(Read(Reading([], []), Piece(true, a)), Piece(false, b)) == Reading([a + b], [])
  {
    var none: seq<Bytes> := [];
    assert none + [a] == [a];
    JoinSnoc(none, a);
    JoinSnoc([a], b);
    assert Join([a] + [b]) == a + b;
    assert none + [a + b] == [a + b];
  }

  /**
   * Two overlapping sends can make the receiver deliver a message nobody sent, on every
   * configuration: `send` holds no lock across the fragments of a message.
   */
  lemma OverlapMixesMessages(cfg: Config) returns (s: State)
    requires cfg.Valid()
    ensures Reachable(cfg, s) && !s.out.serial && AtMost(s.out.msgs, cfg.MaxPayload() + 1)
    ensures !OnlySent(s)
  {
    var max := cfg.MaxPayload();
    var m1: Bytes := seq(max + 1, _ => 0);
    var m2: Bytes := [1];
    var s0 := Init(0.0);
    var s3, f := TwoOverlapping(cfg, m1, m2);
    var s4 := ReceiveOne(cfg, s0, s3, f);
    var s5 := Step(cfg, s4, ArriveAck(1));
    ReachesStep(cfg, s0, s4, ArriveAck(1));
    assert s5.out.snd.window == KeepFrom(s4.out.snd.window, 1) == KeepFrom([], 1);
    var g := NextFrame(cfg, s5.out, 1, 0);
    var s6 := Step(cfg, s5, DoAttempt(1, 0));
    ReachesStep(cfg, s0, s5, DoAttempt(1, 0));
    s := ReceiveOne(cfg, s0, s6, g);
    MixedReading(m1[..max], m2);
    var mixed := m1[..max] + m2;
    assert s.inn.rcv.reading.msgs == [mixed] && s.out.msgs == [m1, m2];
    assert mixed in s.inn.rcv.reading.msgs;
    assert mixed[max] == 1 && m1[max] == 0 && |mixed| != |m2|;
    assert Reaches(cfg, Init(0.0), s);
  }

  /**
   * However sends overlap, the receiver delivers only messages that were sent, in every run with
   * messages of at most n bytes, exactly when such a message fits one frame.
   */
  lemma MixingNeedsFragments(cfg: Config, n: nat)
    requires cfg.Valid()
    ensures (forall s :: Reachable(cfg, s) && AtMost(s.out.msgs, n) ==> OnlySent(s)) <==> n <= cfg.MaxPayload()
  {
    if n <= cfg.MaxPayload() {
      forall s | Reachable(cfg, s) && AtMost(s.out.msgs, n)
        ensures OnlySent(s)
      {
        SmallMessagesStayWhole(cfg, s);
      }
    } else {
      var s := OverlapMixesMessages(cfg);
    }
  }
}
