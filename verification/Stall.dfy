/**
 * The lost wake-up.  A drop does not set the event, so a sender can wait beside a window with
 * room, even an empty one.  When it waits for good, exactly.
 */
module Stall {
  import opened Frames
  import opened Fragmentation
  import opened Reliable
  import opened Endpoint
  import opened OneWay
  import opened Window

  // No ACK is in flight and none can be called for: no data in flight, no retry left in the window,
  // and every unfinished send waits.
  ghost predicate Stuck(cfg: Config, s: State) {
    && s.data == {} && s.acks == {}
    && (forall u :: u in s.out.snd.window ==> u.count >= cfg.maxRetransmits)
    && (forall t :: t in s.out.tasks ==> t.rest == [] || t.parked)
  }

  ghost predicate SomeoneWaits(s: State) {
    exists t :: t in s.out.tasks && t.parked
  }

  ghost predicate NoSubmit(acts: seq<Action>) {
    forall a :: a in acts ==> !a.DoSubmit?
  }

  lemma StuckStep(cfg: Config, s: State, a: Action)
    requires cfg.Valid() && Stuck(cfg, s) && Enabled(s, a) && !a.DoSubmit?
    ensures Stuck(cfg, Step(cfg, s, a))
    ensures Step(cfg, s, a).out.tasks == s.out.tasks && Step(cfg, s, a).out.log == s.out.log
  {
    if a.DoScan? {
      var w := s.out.snd.window;
      ResendsExact(cfg, w, s.clock);
      RescanMembers(cfg, w, s.clock);
      forall v | v in Rescan(cfg, w, s.clock)
        ensures v.count >= cfg.maxRetransmits
      {
        assert ScannedFrom(cfg, w, v, s.clock);
      }
      assert Resent(cfg, s.out, s.clock) == {};
    }
  }

  /** Without a further `send`, nothing wakes a sender of a stuck channel, and nothing new is sent. */
  lemma {:induction false} StuckForGood(cfg: Config, s: State, acts: seq<Action>)
    requires cfg.Valid() && Stuck(cfg, s) && CanRun(cfg, s, acts)
    requires NoSubmit(acts)
    ensures Stuck(cfg, Exec(cfg, s, acts))
    ensures Exec(cfg, s, acts).out.tasks == s.out.tasks && Exec(cfg, s, acts).out.log == s.out.log
    decreases |acts|
  {
    if acts == [] {
    } else {
      assert acts[0] in acts;
      StuckStep(cfg, s, acts[0]);
      StuckForGood(cfg, Step(cfg, s, acts[0]), acts[1..]);
    }
  }

  // ------------------------------------------------- runs without a further `send`

  ghost predicate GoesOn(cfg: Config, s: State, s': State)
    requires cfg.Valid()
  {
    exists acts :: CanRun(cfg, s, acts) && Exec(cfg, s, acts) == s' && NoSubmit(acts)
  }

  lemma GoesOnSelf(cfg: Config, s: State)
    requires cfg.Valid()
    ensures GoesOn(cfg, s, s)
  {
    assert CanRun(cfg, s, []);
  }

  lemma GoesOnStep(cfg: Config, s: State, s': State, a: Action)
    requires cfg.Valid() && GoesOn(cfg, s, s') && Enabled(s', a) && !a.DoSubmit?
    ensures GoesOn(cfg, s, Step(cfg, s', a))
  {
    var acts :| CanRun(cfg, s, acts) && Exec(cfg, s, acts) == s' && NoSubmit(acts);
    assert CanRun(cfg, Step(cfg, s', a), []);
    assert CanRun(cfg, s', [a]) && Exec(cfg, s', [a]) == Step(cfg, s', a);
    ExecAppend(cfg, s, acts, [a]);
  }

  lemma GoesOnReaches(cfg: Config, s: State, s': State)
    requires cfg.Valid() && GoesOn(cfg, s, s')
    ensures Reaches(cfg, s, s')
  {
  }

  // A scan with every timer out: it uses one retry of every frame, and puts those with one left on
  // the link.
  lemma ScanAll(cfg: Config, s0: State, s: State) returns (s': State)
    requires cfg.Valid() && GoesOn(cfg, s0, s) && CountsOk(cfg, s.out.snd.window)
    ensures GoesOn(cfg, s0, s') && CountsOk(cfg, s'.out.snd.window)
    ensures Budget(cfg, s'.out.snd.window) == Budget(cfg, s.out.snd.window) - |s.out.snd.window|
    ensures s'.out.tasks == s.out.tasks && s'.inn == s.inn && s'.acks == s.acks
    ensures forall u :: u in s.out.snd.window && u.count < cfg.maxRetransmits ==> u.frame in s'.data
  {
    var w := s.out.snd.window;
    var t := AllDueAt(w, s.clock);
    GoesOnStep(cfg, s0, s, Tick(t));
    var s1 := Step(cfg, s, Tick(t));
    GoesOnStep(cfg, s0, s1, DoScan);
    s' := Step(cfg, s1, DoScan);
    ScanSpendsBudget(cfg, w, t);
    ResendsExact(cfg, w, t);
    AllDueCount(w, t);
  }

  lemma {:induction false} AllDueCount(w: seq<Unacked>, now: real)
    requires forall u :: u in w ==> Due(u, now)
    ensures DueCount(w, now) == |w|
  {
    if w == [] {
    } else {
      assert w[0] in w && forall u :: u in w[1..] ==> u in w;
      AllDueCount(w[1..], now);
    }
  }

  // With every retry lost or unanswered, the retry limit empties the window.
  lemma {:induction false} EmptyWindow(cfg: Config, s0: State, s: State) returns (s': State)
    requires cfg.Valid() && GoesOn(cfg, s0, s) && CountsOk(cfg, s.out.snd.window)
    ensures GoesOn(cfg, s0, s') && s'.out.snd.window == []
    ensures s'.out.tasks == s.out.tasks && s'.inn == s.inn && s'.acks == s.acks
    decreases Budget(cfg, s.out.snd.window)
  {
    if s.out.snd.window == [] {
      return s;
    }
    BudgetBounds(cfg, s.out.snd.window);
    var s1 := ScanAll(cfg, s0, s);
    s' := EmptyWindow(cfg, s0, s1);
  }

  // --------------------------------------------------- when a sender can still be woken

  ghost predicate NobodyWaits(s: State) {
    forall t :: t in s.out.tasks ==> !t.parked
  }

  lemma CountsHold(cfg: Config, s0: State, s: State)
    requires cfg.Valid() && Reachable(cfg, s0) && GoesOn(cfg, s0, s)
    ensures CountsOk(cfg, s.out.snd.window)
  {
    GoesOnReaches(cfg, s0, s);
    var t :| Reaches(cfg, Init(t), s0);
    ReachesTrans(cfg, Init(t), s0, s);
    ReachableAllInv(cfg, s);
  }

  // Any ACK that arrives when the window is empty wakes everyone.
  lemma WakeByAck(cfg: Config, s0: State, s: State) returns (s': State)
    requires cfg.Valid() && Reachable(cfg, s0) && GoesOn(cfg, s0, s) && s.acks != {}
    ensures GoesOn(cfg, s0, s') && NobodyWaits(s')
  {
    CountsHold(cfg, s0, s);
    var s1 := EmptyWindow(cfg, s0, s);
    var n :| n in s1.acks;
    GoesOnStep(cfg, s0, s1, ArriveAck(n));
    s' := Step(cfg, s1, ArriveAck(n));
  }

  lemma WakeByData(cfg: Config, s0: State, s: State) returns (s': State)
    requires cfg.Valid() && Reachable(cfg, s0) && GoesOn(cfg, s0, s) && s.data != {}
    ensures GoesOn(cfg, s0, s') && NobodyWaits(s')
  {
    var f :| f in s.data;
    GoesOnStep(cfg, s0, s, ArriveData(f));
    assert f.seqNo + 1 in Step(cfg, s, ArriveData(f)).acks;
    s' := WakeByAck(cfg, s0, Step(cfg, s, ArriveData(f)));
  }

  lemma WakeBySend(cfg: Config, s0: State, s: State, i: nat) returns (s': State)
    requires cfg.Valid() && Reachable(cfg, s0) && GoesOn(cfg, s0, s) && CanAttempt(s.out, i)
    ensures GoesOn(cfg, s0, s') && NobodyWaits(s')
  {
    CountsHold(cfg, s0, s);
    var s1 := EmptyWindow(cfg, s0, s);
    GoesOnStep(cfg, s0, s1, DoAttempt(i, 0));
    assert NextFrame(cfg, s1.out, i, 0) in Step(cfg, s1, DoAttempt(i, 0)).data;
    s' := WakeByData(cfg, s0, Step(cfg, s1, DoAttempt(i, 0)));
  }

  /**
   * Without a further `send`, some continuation wakes every waiting sender exactly when the channel
   * is not stuck.
   */
  lemma WakeableExactly(cfg: Config, s: State)
    requires cfg.Valid() && Reachable(cfg, s) && SomeoneWaits(s)
    ensures (exists s' :: GoesOn(cfg, s, s') && NobodyWaits(s')) <==> !Stuck(cfg, s)
  {
    GoesOnSelf(cfg, s);
    if Stuck(cfg, s) {
      forall s' | GoesOn(cfg, s, s')
        ensures !NobodyWaits(s')
      {
        var acts :| CanRun(cfg, s, acts) && Exec(cfg, s, acts) == s' && NoSubmit(acts);
        StuckForGood(cfg, s, acts);
      }
    } else if s.acks != {} {
      var s' := WakeByAck(cfg, s, s);
    } else if s.data != {} {
      var s' := WakeByData(cfg, s, s);
    } else if u :| u in s.out.snd.window && u.count < cfg.maxRetransmits {
      CountsHold(cfg, s, s);
      var s1 := ScanAll(cfg, s, s);
      var s' := WakeByData(cfg, s, s1);
    } else {
      var t :| t in s.out.tasks && t.rest != [] && !t.parked;
      var i :| 0 <= i < |s.out.tasks| && s.out.tasks[i] == t;
      var s' := WakeBySend(cfg, s, s, i);
    }
  }

  // ------------------------------------------------- reaching a stuck state

  // One send is under way and nothing was received.
  ghost predicate Silent(s: State) {
    s.acks == {} && s.inn == INIT_RECV && |s.out.tasks| == 1
  }

  lemma {:induction false} FillWindow(cfg: Config, s0: State, s: State, n: nat) returns (s': State)
    requires cfg.Valid() && Reaches(cfg, s0, s) && Silent(s)
    requires |s.out.snd.window| + n == cfg.windowSize
    requires !s.out.tasks[0].parked && |s.out.tasks[0].rest| > n
    ensures Reaches(cfg, s0, s') && Silent(s') && |s'.out.snd.window| == cfg.windowSize
    ensures !s'.out.tasks[0].parked && s'.out.tasks[0].rest != []
    decreases n
  {
    if n == 0 {
      return s;
    }
    ReachesStep(cfg, s0, s, DoAttempt(0, 0));
    s' := FillWindow(cfg, s0, Step(cfg, s, DoAttempt(0, 0)), n - 1);
  }

  lemma {:induction false} LoseAll(cfg: Config, s0: State, s: State) returns (s': State)
    requires cfg.Valid() && Reaches(cfg, s0, s)
    ensures Reaches(cfg, s0, s') && s' == s.(data := {})
    decreases s.data
  {
    if s.data == {} {
      return s;
    }
    var f :| f in s.data;
    ReachesStep(cfg, s0, s, LoseData(f));
    s' := LoseAll(cfg, s0, Step(cfg, s, LoseData(f)));
  }

  /** On every configuration a sender can come to wait for good beside an empty window. */
  lemma StallReachable(cfg: Config) returns (s: State)
    requires cfg.Valid()
    ensures Reachable(cfg, s) && Stuck(cfg, s) && SomeoneWaits(s) && s.out.snd.window == [] && Quiet(s.inn)
  {
    var s0 := Init(0.0);
    var m: Bytes := seq(cfg.windowSize * cfg.MaxPayload() + 1, _ => 0);
    ReachesSelf(cfg, s0);
    ReachesStep(cfg, s0, s0, DoSubmit(m));
    var s1 := Step(cfg, s0, DoSubmit(m));
    ManyPieces(m, cfg.MaxPayload(), cfg.windowSize);
    var s2 := FillWindow(cfg, s0, s1, cfg.windowSize);
    ReachesStep(cfg, s0, s2, DoAttempt(0, 0));
    var s3 := Step(cfg, s2, DoAttempt(0, 0));
    assert Reaches(cfg, Init(0.0), s3);
    GoesOnSelf(cfg, s3);
    CountsHold(cfg, s3, s3);
    var s4 := EmptyWindow(cfg, s3, s3);
    GoesOnReaches(cfg, s3, s4);
    ReachesTrans(cfg, s0, s3, s4);
    s := LoseAll(cfg, s0, s4);
    assert s.out.tasks[0] in s.out.tasks && s.out.tasks[0].parked;
    assert Reaches(cfg, Init(0.0), s);
  }

  lemma {:induction false} ManyPieces(data: Bytes, max: nat, n: nat)
    requires max > 0 && |data| == n * max + 1
    ensures |Pieces(data, max)| > n
    decreases n
  {
    if n == 0 {
    } else {
      assert n * max == (n - 1) * max + max;
      ManyPieces(data[max..], max, n - 1);
    }
  }
}
