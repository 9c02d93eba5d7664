/**
 * Frames that can never be consumed any more, exactly, and how cumulative reading of `seq + 1` ACKs
 * produces them.
 */
module Gap {
  import opened Frames
  import opened Fragmentation
  import opened Reliable
  import opened Endpoint
  import opened OneWay
  import opened Safety
  import opened Window

  // Frame k was sent and not consumed, no copy of it is anywhere, and it will not be sent again:
  // it has left the window, or its retries are used up.
  ghost predicate Doomed(cfg: Config, s: State, k: nat) {
    && s.inn.rcv.next <= k < |s.out.log|
    && (forall u :: u in s.out.snd.window && u.frame.seqNo == k ==> u.count >= cfg.maxRetransmits)
    && (forall f :: f in s.data ==> f.seqNo != k)
    && (forall f :: f in s.inn.pending ==> f.seqNo != k)
    && k !in s.inn.rcv.buffer
  }

  lemma ScanDoomed(cfg: Config, s: State, k: nat)
    requires cfg.Valid() && Doomed(cfg, s, k)
    ensures Doomed(cfg, Step(cfg, s, DoScan), k)
    ensures k !in Seqs(s.out.snd.window) ==> k !in Seqs(Step(cfg, s, DoScan).out.snd.window)
  {
    var w := s.out.snd.window;
    ResendsExact(cfg, w, s.clock);
    RescanMembers(cfg, w, s.clock);
    forall v | v in Rescan(cfg, w, s.clock) && v.frame.seqNo == k
      ensures v in w && v.count >= cfg.maxRetransmits
    {
      assert ScannedFrom(cfg, w, v, s.clock);
    }
  }

  lemma AttemptDoomed(cfg: Config, s: State, i: nat, ack: nat, k: nat)
    requires cfg.Valid() && SendInv(cfg, s.out) && CanAttempt(s.out, i) && Doomed(cfg, s, k)
    ensures Doomed(cfg, Step(cfg, s, DoAttempt(i, ack)), k)
    ensures k !in Seqs(s.out.snd.window) ==> k !in Seqs(Step(cfg, s, DoAttempt(i, ack)).out.snd.window)
  {
  }

  // Every step keeps it so, and a frame outside the window stays outside.
  lemma StepDoomed(cfg: Config, s: State, a: Action, k: nat)
    requires cfg.Valid() && Inv(cfg, s) && Enabled(s, a) && Doomed(cfg, s, k)
    ensures Doomed(cfg, Step(cfg, s, a), k)
    ensures k !in Seqs(s.out.snd.window) ==> k !in Seqs(Step(cfg, s, a).out.snd.window)
  {
    match a
    case DoAttempt(i, ack) => AttemptDoomed(cfg, s, i, ack, k);
    case DoScan => ScanDoomed(cfg, s, k);
    case ArriveAck(n) => KeepFromExact(s.out.snd.window, n);
    case _ =>
  }

  lemma StepKeepsLog(cfg: Config, s: State, a: Action)
    requires cfg.Valid() && Enabled(s, a)
    ensures s.out.log <= Step(cfg, s, a).out.log
  {
  }

  lemma {:induction false} RunDoomed(cfg: Config, s: State, acts: seq<Action>, k: nat)
    requires cfg.Valid() && Inv(cfg, s) && CanRun(cfg, s, acts) && Doomed(cfg, s, k)
    ensures Doomed(cfg, Exec(cfg, s, acts), k)
    ensures k !in Seqs(s.out.snd.window) ==> k !in Seqs(Exec(cfg, s, acts).out.snd.window)
    ensures s.out.log <= Exec(cfg, s, acts).out.log
    decreases |acts|
  {
    if acts == [] {
    } else {
      StepInv(cfg, s, acts[0]);
      StepDoomed(cfg, s, acts[0], k);
      StepKeepsLog(cfg, s, acts[0]);
      RunDoomed(cfg, Step(cfg, s, acts[0]), acts[1..], k);
    }
  }

  /** A gap is permanent: no continuation of any run delivers anything from frame k on. */
  lemma PermanentGap(cfg: Config, s: State, acts: seq<Action>, k: nat)
    requires cfg.Valid() && Reachable(cfg, s) && CanRun(cfg, s, acts) && Doomed(cfg, s, k)
    ensures Doomed(cfg, Exec(cfg, s, acts), k)
    ensures k !in Seqs(s.out.snd.window) ==> k !in Seqs(Exec(cfg, s, acts).out.snd.window)
    ensures Exec(cfg, s, acts).inn.rcv.reading.msgs <= Split(PiecesOf(s.out.log[..k])).msgs
  {
    ReachableInv(cfg, s);
    RunInv(cfg, s, acts);
    RunDoomed(cfg, s, acts, k);
    var s' := Exec(cfg, s, acts);
    NothingFrom(s.out.log, s'.out.log, s'.inn, k);
  }

  lemma NothingFrom(log: seq<Frame>, log': seq<Frame>, n: RecvSide, k: nat)
    requires log <= log' && n.rcv.next <= k < |log| && n.rcv.reading == Split(PiecesOf(log'[..n.rcv.next]))
    ensures n.rcv.reading.msgs <= Split(PiecesOf(log[..k])).msgs
  {
    var next := n.rcv.next;
    assert log[..k][..next] == log'[..next];
    PiecesOfPrefix(log[..k], next);
    SplitPrefix(PiecesOf(log'[..next]), PiecesOf(log[..k]));
  }

  // ------------------------------------------------- which frames can still be consumed

  // A copy of frame j is on its way to the receiver or waits there.
  ghost predicate AtHand(s: State, j: nat) {
    || (exists f :: f in s.data && f.seqNo == j)
    || (exists f :: f in s.inn.pending && f.seqNo == j)
    || j in s.inn.rcv.buffer
  }

  // A scan with every timer out puts each frame with a retry left on the link.
  lemma ResendAll(cfg: Config, s0: State, s: State, k: nat) returns (s': State)
    requires cfg.Valid() && Reaches(cfg, s0, s) && k < |s.out.log|
    requires forall j :: 0 <= j <= k ==> !Doomed(cfg, s, j)
    ensures Reaches(cfg, s0, s') && s'.inn == s.inn
    ensures forall j :: s'.inn.rcv.next <= j <= k ==> AtHand(s', j)
  {
    var w := s.out.snd.window;
    var t := AllDueAt(w, s.clock);
    ReachesStep(cfg, s0, s, Tick(t));
    var s1 := Step(cfg, s, Tick(t));
    ReachesStep(cfg, s0, s1, DoScan);
    s' := Step(cfg, s1, DoScan);
    ResendsExact(cfg, w, t);
    forall j: nat | s.inn.rcv.next <= j <= k
      ensures AtHand(s', j)
    {
      assert !Doomed(cfg, s, j);
      if u :| u in w && u.frame.seqNo == j && u.count < cfg.maxRetransmits {
        assert u.frame in Resends(cfg, w, t) && u.frame in s'.data;
      }
    }
  }

  lemma StepAtHand(cfg: Config, s: State, a: Action, j: nat)
    requires cfg.Valid() && Enabled(s, a) && (a.ArriveData? || a.DoResume? || a.DoIterate?)
    requires AtHand(s, j) && j >= Step(cfg, s, a).inn.rcv.next
    ensures AtHand(Step(cfg, s, a), j)
  {
    if f :| f in s.inn.pending && f.seqNo == j {
      assert f in Step(cfg, s, a).inn.pending || a == DoResume(f);
    }
  }

  // A step of a receive task loses no frame that is still to be consumed.
  lemma ReceiveStep(cfg: Config, s0: State, s: State, a: Action)
    requires cfg.Valid() && Reaches(cfg, s0, s) && Inv(cfg, s) && Enabled(s, a)
    requires a.ArriveData? || a.DoResume? || a.DoIterate?
    ensures Reaches(cfg, s0, Step(cfg, s, a)) && Inv(cfg, Step(cfg, s, a))
    ensures forall j :: j >= Step(cfg, s, a).inn.rcv.next && AtHand(s, j) ==> AtHand(Step(cfg, s, a), j)
  {
    StepInv(cfg, s, a);
    ReachesStep(cfg, s0, s, a);
    forall j | j >= Step(cfg, s, a).inn.rcv.next && AtHand(s, j)
      ensures AtHand(Step(cfg, s, a), j)
    {
      StepAtHand(cfg, s, a, j);
    }
  }

  // Frame `next` gets into the buffer from wherever it is.
  lemma BufferNext(cfg: Config, s0: State, s: State) returns (s': State)
    requires cfg.Valid() && Reaches(cfg, s0, s) && Inv(cfg, s) && AtHand(s, s.inn.rcv.next)
    ensures Reaches(cfg, s0, s') && Inv(cfg, s')
    ensures s'.inn.rcv.next == s.inn.rcv.next && s'.inn.rcv.next in s'.inn.rcv.buffer
    ensures forall j :: j >= s.inn.rcv.next && AtHand(s, j) ==> AtHand(s', j)
  {
    var k := s.inn.rcv.next;
    s' := s;
    if k in s.inn.rcv.buffer {
      return;
    }
    var f: Frame;
    if g :| g in s.inn.pending && g.seqNo == k {
      f := g;
    } else {
      f :| f in s.data && f.seqNo == k;
      ReceiveStep(cfg, s0, s, ArriveData(f));
      s' := Step(cfg, s, ArriveData(f));
    }
    ReceiveStep(cfg, s0, s', DoResume(f));
    s' := Step(cfg, s', DoResume(f));
  }

  lemma {:induction false} ConsumeUpTo(cfg: Config, s0: State, s: State, k: nat) returns (s': State)
    requires cfg.Valid() && Reaches(cfg, s0, s) && Inv(cfg, s)
    requires forall j :: s.inn.rcv.next <= j <= k ==> AtHand(s, j)
    ensures Reaches(cfg, s0, s') && s'.inn.rcv.next > k
    decreases k - s.inn.rcv.next
  {
    if s.inn.rcv.next > k {
      return s;
    }
    var s1 := BufferNext(cfg, s0, s);
    ReceiveStep(cfg, s0, s1, DoIterate);
    s' := ConsumeUpTo(cfg, s0, Step(cfg, s1, DoIterate), k);
  }

  /**
   * Frame k can still be consumed, in some continuation, exactly when no frame up to it is doomed:
   * the channel delivers nothing from k on for ever if and only if some frame up to k is nowhere and
   * has no retry left.
   */
  lemma StillDeliverable(cfg: Config, s: State, k: nat)
    requires cfg.Valid() && Reachable(cfg, s) && k < |s.out.log|
    ensures (exists s' :: Reaches(cfg, s, s') && s'.inn.rcv.next > k)
            <==> forall j :: 0 <= j <= k ==> !Doomed(cfg, s, j)
  {
    ReachableInv(cfg, s);
    if j :| 0 <= j <= k && Doomed(cfg, s, j) {
      forall s' | Reaches(cfg, s, s')
        ensures s'.inn.rcv.next <= k
      {
        var acts :| CanRun(cfg, s, acts) && Exec(cfg, s, acts) == s';
        RunDoomed(cfg, s, acts, j);
      }
    } else {
      ReachesSelf(cfg, s);
      var s1 := ResendAll(cfg, s, s, k);
      var acts :| CanRun(cfg, s, acts) && Exec(cfg, s, acts) == s1;
      RunInv(cfg, s, acts);
      var s2 := ConsumeUpTo(cfg, s, s1, k);
    }
  }

  // ------------------------------------------------- when an ACK may be trusted

  // Every frame an ACK removed from the window has arrived at the receiver.
  ghost predicate AcksTrue(s: State) {
    forall k :: k in s.out.acked ==> exists f :: f in s.inn.arrived && f.seqNo == k
  }

  ghost predicate SingleInv(s: State) {
    && AcksTrue(s)
    && (forall n :: n in s.acks ==> exists f :: f in s.inn.arrived && f.seqNo + 1 == n)
    && (forall u :: u in s.out.snd.window ==> u.frame.seqNo == |s.out.log| - 1)
  }

  lemma ScanSingleInv(cfg: Config, s: State)
    requires cfg.Valid() && SingleInv(s)
    ensures SingleInv(Step(cfg, s, DoScan))
  {
    var w := s.out.snd.window;
    RescanMembers(cfg, w, s.clock);
    forall v | v in Rescan(cfg, w, s.clock)
      ensures v.frame.seqNo == |s.out.log| - 1
    {
      assert ScannedFrom(cfg, w, v, s.clock);
    }
  }

  lemma AckSingleInv(cfg: Config, s: State, n: nat)
    requires cfg.Valid() && Inv(cfg, s) && SingleInv(s) && n in s.acks
    ensures SingleInv(Step(cfg, s, ArriveAck(n)))
  {
    KeepFromExact(s.out.snd.window, n);
  }

  lemma AttemptSingleInv(cfg: Config, s: State, i: nat, ack: nat)
    requires cfg.Valid() && Inv(cfg, s) && SingleInv(s) && CanAttempt(s.out, i) && cfg.windowSize == 1
    ensures SingleInv(Step(cfg, s, DoAttempt(i, ack)))
  {
  }

  lemma ArriveSingleInv(cfg: Config, s: State, f: Frame)
    requires cfg.Valid() && SingleInv(s) && f in s.data
    ensures SingleInv(Step(cfg, s, ArriveData(f)))
  {
  }

  lemma StepSingleInv(cfg: Config, s: State, a: Action)
    requires cfg.Valid() && Inv(cfg, s) && Enabled(s, a) && SingleInv(s) && cfg.windowSize == 1
    ensures SingleInv(Step(cfg, s, a))
  {
    match a
    case DoAttempt(i, ack) => AttemptSingleInv(cfg, s, i, ack);
    case DoScan => ScanSingleInv(cfg, s);
    case ArriveAck(n) => AckSingleInv(cfg, s, n);
    case ArriveData(f) => ArriveSingleInv(cfg, s, f);
    case _ => assert Step(cfg, s, a).inn.arrived == s.inn.arrived;
  }

  lemma {:induction false} RunSingleInv(cfg: Config, s: State, acts: seq<Action>)
    requires cfg.Valid() && Inv(cfg, s) && CanRun(cfg, s, acts) && SingleInv(s) && cfg.windowSize == 1
    ensures SingleInv(Exec(cfg, s, acts))
    decreases |acts|
  {
    if acts == [] {
    } else {
      StepInv(cfg, s, acts[0]);
      StepSingleInv(cfg, s, acts[0]);
      RunSingleInv(cfg, Step(cfg, s, acts[0]), acts[1..]);
    }
  }

  // Two sends, each of one frame, with nothing received yet.
  lemma TwoSends(cfg: Config) returns (s: State, f: Frame, g: Frame)
    requires cfg.Valid() && cfg.windowSize >= 2
    ensures Reachable(cfg, s) && s.out.serial && s.out.dropped == {} && s.out.acked == {}
    ensures f.seqNo == 0 && g.seqNo == 1 && s.out.log == [f, g] && s.data == {f, g}
    ensures |s.out.snd.window| == 2 && s.out.snd.window[0].frame == f && s.out.snd.window[1].frame == g
    ensures s.inn == INIT_RECV && s.acks == {}
  {
    var s0 := Init(0.0);
    ReachesSelf(cfg, s0);
    var s1 := Step(cfg, s0, DoSubmit([]));
    ReachesStep(cfg, s0, s0, DoSubmit([]));
    f := NextFrame(cfg, s1.out, 0, 0);
    var s2 := Step(cfg, s1, DoAttempt(0, 0));
    ReachesStep(cfg, s0, s1, DoAttempt(0, 0));
    var s3 := Step(cfg, s2, DoSubmit([]));
    ReachesStep(cfg, s0, s2, DoSubmit([]));
    assert s3.out.tasks == [SendTask([], false), SendTask([Piece(false, [])], false)];
    g := NextFrame(cfg, s3.out, 1, 0);
    s := Step(cfg, s3, DoAttempt(1, 0));
    ReachesStep(cfg, s0, s3, DoAttempt(1, 0));
    assert Reaches(cfg, Init(0.0), s);
  }

  // With room for two frames: the first is lost, the second is acknowledged with 2.
  lemma GapByAck(cfg: Config) returns (s: State)
    requires cfg.Valid() && cfg.windowSize >= 2
    ensures Reachable(cfg, s) && Doomed(cfg, s, 0) && 0 !in Seqs(s.out.snd.window) && !AcksTrue(s)
    ensures s.out.serial && s.out.dropped == {}
  {
    var s4, f, g := TwoSends(cfg);
    var t :| Reaches(cfg, Init(t), s4);
    ReachesStep(cfg, Init(t), s4, LoseData(f));
    var s5 := Step(cfg, s4, LoseData(f));
    ReachesStep(cfg, Init(t), s5, ArriveData(g));
    var s6 := Step(cfg, s5, ArriveData(g));
    ReachesStep(cfg, Init(t), s6, ArriveAck(2));
    s := Step(cfg, s6, ArriveAck(2));
    AckedTwo(cfg, s6, f, g);
    assert s.inn.arrived == {g};
  }

  lemma AckedTwo(cfg: Config, s: State, f: Frame, g: Frame)
    requires |s.out.snd.window| == 2 && s.out.snd.window[0].frame == f && s.out.snd.window[1].frame == g
    requires f.seqNo == 0 && g.seqNo == 1
    ensures OnAck(cfg, s.out, 2).snd.window == [] && 0 in OnAck(cfg, s.out, 2).acked
  {
    var w := s.out.snd.window;
    assert KeepFrom(w, 2) == KeepFrom(w[1..], 2) == KeepFrom(w[1..][1..], 2);
    assert w[0] in w;
  }

  /**
   * On a lossy link, `_process_ack`'s reading of an ACK ("all frames below are confirmed") is
   * sound in every run exactly when the window holds one frame.
   */
  lemma AckSoundness(cfg: Config)
    requires cfg.Valid()
    ensures (forall s :: Reachable(cfg, s) ==> AcksTrue(s)) <==> cfg.windowSize == 1
  {
    if cfg.windowSize == 1 {
      forall s | Reachable(cfg, s)
        ensures AcksTrue(s)
      {
        var t :| Reaches(cfg, Init(t), s);
        var acts :| CanRun(cfg, Init(t), acts) && Exec(cfg, Init(t), acts) == s;
        InitInv(cfg, t);
        RunSingleInv(cfg, Init(t), acts);
      }
    } else {
      var s := GapByAck(cfg);
    }
  }
}
