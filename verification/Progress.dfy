/**
 * On the FIFO link everything is delivered in the end: without further sends a run has room for
 * boundedly many steps that do something, and when none is left everything has been delivered,
 * whatever was dropped and whoever waited.
 */
module Progress {
  import opened Frames
  import opened Fragmentation
  import opened Reliable
  import opened Endpoint
  import opened OneWay
  import opened Window
  import opened Fifo

  lemma {:induction false} FExecSnoc(cfg: Config, s: FState, acts: seq<FAction>, a: FAction)
    requires cfg.Valid() && FCanRun(cfg, s, acts) && FEnabled(FExec(cfg, s, acts), a)
    ensures FCanRun(cfg, s, acts + [a]) && FExec(cfg, s, acts + [a]) == FStep(cfg, FExec(cfg, s, acts), a)
    decreases |acts|
  {
    if acts == [] {
      assert [a][1..] == [] && FCanRun(cfg, FStep(cfg, s, a), []);
      assert acts + [a] == [a];
    } else {
      FExecSnoc(cfg, FStep(cfg, s, acts[0]), acts[1..], a);
      assert (acts + [a])[1..] == acts[1..] + [a];
    }
  }

  lemma FReachableStep(cfg: Config, s: FState, a: FAction)
    requires cfg.Valid() && FReachable(cfg, s) && FEnabled(s, a)
    ensures FReachable(cfg, FStep(cfg, s, a))
  {
    var t, acts :| FCanRun(cfg, FInit(t), acts) && FExec(cfg, FInit(t), acts) == s;
    FExecSnoc(cfg, FInit(t), acts, a);
  }

  lemma {:induction false} FReachableRun(cfg: Config, s: FState, acts: seq<FAction>)
    requires cfg.Valid() && FReachable(cfg, s) && FCanRun(cfg, s, acts)
    ensures FReachable(cfg, FExec(cfg, s, acts))
    decreases |acts|
  {
    if acts == [] {
    } else {
      FReachableStep(cfg, s, acts[0]);
      FReachableRun(cfg, FStep(cfg, s, acts[0]), acts[1..]);
    }
  }

  // ------------------------------------------------------------- what is left to do

  // The steps that do something.  A clock tick and a scan with no frame due do not.
  predicate Advances(s: FState, a: FAction) {
    match a
    case FTick(_) => false
    case FSubmit(_) => false
    case FScan => DueCount(s.base.out.snd.window, s.base.clock) > 0
    case _ => true
  }

  /**
   * A piece to send weighs more than the retries it may need, a retry more than the transmission it
   * may cause, a message in flight more than waking every send (t of them).
   */
  function Score(cfg: Config, t: nat, work: nat, budget: int, flight: nat, going: nat, loops: nat): int {
    work * PieceCost(cfg, t) + budget * RetryCost(t) + flight * (t + 2) + going + loops
  }

  function RetryCost(t: nat): nat {
    2 * (t + 2) + 1
  }

  function PieceCost(cfg: Config, t: nat): nat {
    (cfg.maxRetransmits + 1) * RetryCost(t) + 2 * (t + 2) + 1
  }

  function Rank(cfg: Config, s: FState): int {
    var o := s.base.out;
    Score(cfg, |o.tasks|, Work(o.tasks), Budget(cfg, o.snd.window), 2 * |s.dataQ| + |s.ackQ|,
          Going(o.tasks), s.base.inn.draining)
  }

  lemma ScorePiece(cfg: Config, t: nat, work: nat, budget: int, flight: nat, going: nat, loops: nat)
    requires work > 0
    ensures Score(cfg, t, work - 1, budget + cfg.maxRetransmits + 1, flight + 2, going, loops) + 1
            == Score(cfg, t, work, budget, flight, going, loops)
  {
    Spread(work - 1, 1, PieceCost(cfg, t));
    Spread(budget, cfg.maxRetransmits + 1, RetryCost(t));
  }

  lemma ScoreScan(cfg: Config, t: nat, work: nat, budget: int, flight: nat, going: nat, loops: nat, due: nat, sent: nat)
    requires sent <= due
    ensures Score(cfg, t, work, budget - due, flight + 2 * sent, going, loops) + due
            <= Score(cfg, t, work, budget, flight, going, loops)
  {
    Spread(budget - due, due, RetryCost(t));
    Spread(flight, 2 * sent, t + 2);
    Spread(due - sent, sent, 2 * (t + 2));
    NotNegative(due - sent, 2 * (t + 2));
  }

  lemma ScoreFlight(cfg: Config, t: nat, work: nat, budget: int, budget': int, flight: nat, going: nat,
                    going': nat, loops: nat)
    requires flight > 0 && budget' <= budget && going' <= t
    ensures Score(cfg, t, work, budget', flight - 1, going', loops) + 2
            <= Score(cfg, t, work, budget, flight, going, loops)
  {
    Spread(flight - 1, 1, t + 2);
    Spread(budget', budget - budget', RetryCost(t));
    NotNegative(budget - budget', RetryCost(t));
  }

  lemma Spread(a: int, b: int, c: int)
    ensures (a + b) * c == a * c + b * c
  {
  }

  lemma NotNegative(a: nat, b: nat)
    ensures a * b >= 0
  {
  }

  lemma RankNotNegative(cfg: Config, s: FState)
    requires CountsOk(cfg, s.base.out.snd.window)
    ensures Rank(cfg, s) >= 0
  {
    var o := s.base.out;
    BudgetBounds(cfg, o.snd.window);
    NotNegative(Work(o.tasks), PieceCost(cfg, |o.tasks|));
    NotNegative(Budget(cfg, o.snd.window), RetryCost(|o.tasks|));
    NotNegative(2 * |s.dataQ| + |s.ackQ|, |o.tasks| + 2);
  }

  lemma AttemptRank(cfg: Config, s: FState, i: nat, ack: nat)
    requires cfg.Valid() && FEnabled(s, FAttempt(i, ack))
    ensures Rank(cfg, FStep(cfg, s, FAttempt(i, ack))) + 1 <= Rank(cfg, s)
  {
    var o := s.base.out;
    var f := NextFrame(cfg, o, i, ack);
    var t := o.tasks[i];
    var flight, loops := 2 * |s.dataQ| + |s.ackQ|, s.base.inn.draining;
    if HasRoom(cfg, o.snd) {
      TaskChange(o.tasks, i, t.(rest := t.rest[1..]));
      WorkLeft(o.tasks, i);
      BudgetSnoc(cfg, o.snd.window, Unacked(f, s.base.clock, 0, s.base.clock + cfg.baseRto));
      ScorePiece(cfg, |o.tasks|, Work(o.tasks), Budget(cfg, o.snd.window), flight, Going(o.tasks), loops);
    } else {
      TaskChange(o.tasks, i, t.(parked := true));
    }
  }

  lemma ScanRank(cfg: Config, s: FState)
    requires cfg.Valid() && CountsOk(cfg, s.base.out.snd.window)
    ensures Rank(cfg, FStep(cfg, s, FScan)) + DueCount(s.base.out.snd.window, s.base.clock) <= Rank(cfg, s)
  {
    var o, now := s.base.out, s.base.clock;
    ScanSpendsBudget(cfg, o.snd.window, now);
    RescanOrder(cfg, o.snd.window, now);
    ScoreScan(cfg, |o.tasks|, Work(o.tasks), Budget(cfg, o.snd.window), 2 * |s.dataQ| + |s.ackQ|, Going(o.tasks),
              s.base.inn.draining, DueCount(o.snd.window, now), |Resends(cfg, o.snd.window, now)|);
  }

  lemma RecvAckRank(cfg: Config, s: FState)
    requires cfg.Valid() && FEnabled(s, FRecvAck) && CountsOk(cfg, s.base.out.snd.window)
    ensures Rank(cfg, FStep(cfg, s, FRecvAck)) + 1 <= Rank(cfg, s)
  {
    var o := s.base.out;
    var o' := OnAck(cfg, o, s.ackQ[0]);
    AckSpendsBudget(cfg, o.snd.window, s.ackQ[0]);
    WorkSame(o.tasks, o'.tasks);
    GoingBound(o'.tasks);
    ScoreFlight(cfg, |o.tasks|, Work(o.tasks), Budget(cfg, o.snd.window), Budget(cfg, o'.snd.window),
                2 * |s.dataQ| + |s.ackQ|, Going(o.tasks), Going(o'.tasks), s.base.inn.draining);
  }

  lemma RecvDataRank(cfg: Config, s: FState)
    requires cfg.Valid() && FEnabled(s, FRecvData)
    ensures Rank(cfg, FStep(cfg, s, FRecvData)) + 1 <= Rank(cfg, s)
  {
    var o := s.base.out;
    GoingBound(o.tasks);
    ScoreFlight(cfg, |o.tasks|, Work(o.tasks), Budget(cfg, o.snd.window), Budget(cfg, o.snd.window),
                2 * |s.dataQ| + |s.ackQ|, Going(o.tasks), Going(o.tasks), s.base.inn.draining);
  }

  // Every step but a further send keeps the rank from rising, and every one that does something lowers it.
  lemma StepRank(cfg: Config, s: FState, a: FAction)
    requires cfg.Valid() && FReachable(cfg, s) && FEnabled(s, a) && !a.FSubmit?
    ensures Rank(cfg, FStep(cfg, s, a)) + (if Advances(s, a) then 1 else 0) <= Rank(cfg, s)
  {
    FifoRefinesLossy(cfg, s);
    match a
    case FTick(_) =>
    case FAttempt(i, ack) => AttemptRank(cfg, s, i, ack);
    case FScan => ScanRank(cfg, s);
    case FRecvAck => RecvAckRank(cfg, s);
    case FRecvData => RecvDataRank(cfg, s);
    case FGoOn =>
      assert s.base.inn.rcv.buffer == map[];
      assert RunOn(s.base.inn.rcv) == Burst(s.base.inn.rcv, false);
  }

  // What the sends were given does not change, and no piece gets lost between tasks and frames.
  lemma StepWork(cfg: Config, s: FState, a: FAction)
    requires cfg.Valid() && FEnabled(s, a) && !a.FSubmit?
    ensures var o, o' := s.base.out, FStep(cfg, s, a).base.out;
      o'.msgs == o.msgs && o'.serial == o.serial && |o'.log| + Work(o'.tasks) == |o.log| + Work(o.tasks)
  {
    var o, o' := s.base.out, FStep(cfg, s, a).base.out;
    match a
    case FAttempt(i, _) => TaskChange(o.tasks, i, o'.tasks[i]);
    case FRecvAck => WorkSame(o.tasks, o'.tasks);
    case _ =>
  }

  // ------------------------------------------------------------------ main results

  ghost predicate NoFurtherSend(acts: seq<FAction>) {
    forall a :: a in acts ==> !a.FSubmit?
  }

  function AdvanceCount(cfg: Config, s: FState, acts: seq<FAction>): nat
    requires cfg.Valid() && FCanRun(cfg, s, acts)
    decreases |acts|
  {
    if acts == [] then 0
    else (if Advances(s, acts[0]) then 1 else 0) + AdvanceCount(cfg, FStep(cfg, s, acts[0]), acts[1..])
  }

  // Nothing is left to do.
  ghost predicate Settled(s: FState) {
    forall a :: FEnabled(s, a) ==> !Advances(s, a)
  }

  ghost predicate Complete(s: FState) {
    && s.dataQ == [] && s.ackQ == [] && s.base.out.snd.window == [] && s.base.inn.draining == 0
    && Finished(s.base.out.tasks)
  }

  // A step that does something, while anything is left.
  lemma NextStep(cfg: Config, s: FState) returns (a: FAction)
    requires cfg.Valid() && FReachable(cfg, s) && !Complete(s)
    ensures FEnabled(s, a) && Advances(s, a)
  {
    if s.dataQ != [] {
      return FRecvData;
    } else if s.ackQ != [] {
      return FRecvAck;
    } else if s.base.inn.draining > 0 {
      return FGoOn;
    }
    FifoQuiescence(cfg, s);
    var t :| t in s.base.out.tasks && t.rest != [];
    var i :| 0 <= i < |s.base.out.tasks| && s.base.out.tasks[i] == t;
    a := FAttempt(i, 0);
  }

  /** Nothing is left to do exactly when every send is finished and everything was delivered. */
  lemma SettledExactly(cfg: Config, s: FState)
    requires cfg.Valid() && FReachable(cfg, s)
    ensures Settled(s) <==> Complete(s)
    ensures Settled(s) && s.base.out.serial ==> s.base.inn.rcv.reading == Reading(s.base.out.msgs, [])
  {
    if Complete(s) {
      assert forall a :: FEnabled(s, a) ==> !Advances(s, a);
      FifoCompleteness(cfg, s);
    } else {
      var a := NextStep(cfg, s);
    }
  }

  lemma {:induction false} RunRank(cfg: Config, s: FState, acts: seq<FAction>)
    requires cfg.Valid() && FReachable(cfg, s) && FCanRun(cfg, s, acts) && NoFurtherSend(acts)
    ensures AdvanceCount(cfg, s, acts) + Rank(cfg, FExec(cfg, s, acts)) <= Rank(cfg, s)
    ensures var o, o' := s.base.out, FExec(cfg, s, acts).base.out; o'.msgs == o.msgs && o'.serial == o.serial
    decreases |acts|
  {
    if acts == [] {
    } else {
      assert acts[0] in acts;
      StepRank(cfg, s, acts[0]);
      StepWork(cfg, s, acts[0]);
      FReachableStep(cfg, s, acts[0]);
      RunRank(cfg, FStep(cfg, s, acts[0]), acts[1..]);
    }
  }

  /**
   * Every run without further sends takes at most Rank(s) steps that do something; once none is
   * left, every send is finished, link and window are empty, and, when sends did not overlap, every
   * message sent has been delivered.
   */
  lemma EveryRunCompletes(cfg: Config, s: FState, acts: seq<FAction>)
    requires cfg.Valid() && FReachable(cfg, s) && FCanRun(cfg, s, acts) && NoFurtherSend(acts)
    ensures AdvanceCount(cfg, s, acts) <= Rank(cfg, s)
    ensures var s' := FExec(cfg, s, acts);
      Settled(s') ==> Complete(s') && (s.base.out.serial ==> s'.base.inn.rcv.reading == Reading(s.base.out.msgs, []))
  {
    var s' := FExec(cfg, s, acts);
    RunRank(cfg, s, acts);
    FReachableRun(cfg, s, acts);
    FifoRefinesLossy(cfg, s');
    RankNotNegative(cfg, s');
    SettledExactly(cfg, s');
  }

  /** From every reachable state some run without further sends leaves nothing to do. */
  lemma {:induction false} CompletingRun(cfg: Config, s: FState) returns (acts: seq<FAction>)
    requires cfg.Valid() && FReachable(cfg, s)
    ensures FCanRun(cfg, s, acts) && NoFurtherSend(acts) && Settled(FExec(cfg, s, acts))
    decreases Rank(cfg, s)
  {
    SettledExactly(cfg, s);
    if Complete(s) {
      return [];
    }
    FifoRefinesLossy(cfg, s);
    RankNotNegative(cfg, s);
    var a := NextStep(cfg, s);
    StepRank(cfg, s, a);
    FReachableStep(cfg, s, a);
    var rest := CompletingRun(cfg, FStep(cfg, s, a));
    acts := [a] + rest;
    assert acts[1..] == rest;
  }
}
