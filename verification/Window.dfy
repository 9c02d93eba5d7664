/**
 * The send window over every run: its size and contents, the event that wakes parked
 * senders, and the bound on transmissions.
 */
module Window {
  import opened Frames
  import opened Fragmentation
  import opened Reliable
  import opened Endpoint
  import opened OneWay

  // --------------------------------------------------------------- contents

  ghost predicate Contiguous(w: seq<Unacked>, base: nat) {
    forall i :: 0 <= i < |w| ==> w[i].frame.seqNo == base + i
  }

  ghost predicate WindowInv(o: SendSide) {
    o.dropped == {} ==> |o.log| == o.ackHigh + |o.snd.window| && Contiguous(o.snd.window, o.ackHigh)
  }

  lemma {:induction false} KeepFromContiguous(w: seq<Unacked>, base: nat, n: nat)
    requires Contiguous(w, base) && n <= base + |w|
    ensures KeepFrom(w, n) == if n <= base then w else w[n - base..]
    decreases |w|
  {
    if w == [] {
    } else {
      if n <= base {
        KeepFromContiguous(w[1..], base + 1, n);
        assert w == [w[0]] + w[1..];
      } else {
        KeepFromContiguous(w[1..], base + 1, n);
        assert n > base + 1 ==> w[1..][n - base - 1..] == w[n - base..];
      }
    }
  }

  lemma ScanWindowInv(cfg: Config, o: SendSide, now: real)
    requires cfg.Valid() && SendInv(cfg, o) && WindowInv(o)
    ensures WindowInv(OnScan(cfg, o, now))
  {
    var w, w' := o.snd.window, Rescan(cfg, o.snd.window, now);
    var o' := OnScan(cfg, o, now);
    forall u | u in w && Expired(cfg, u, now)
      ensures u.frame.seqNo in o'.dropped
    {
      NotDropped(cfg, w, u, now);
    }
    if o'.dropped == {} {
      RescanInPlace(cfg, w, now);
    }
  }

  // An entry whose key survives the scan did not expire.
  lemma NotDropped(cfg: Config, w: seq<Unacked>, u: Unacked, now: real)
    requires Ascending(w) && u in w
    ensures u.frame.seqNo in Seqs(Rescan(cfg, w, now)) <==> !Expired(cfg, u, now)
    ensures u.frame.seqNo in Seqs(w)
  {
    RescanMembers(cfg, w, now);
    var i :| 0 <= i < |w| && w[i] == u;
    if u.frame.seqNo in Seqs(Rescan(cfg, w, now)) {
      var v :| v in Rescan(cfg, w, now) && v.frame.seqNo == u.frame.seqNo;
      assert ScannedFrom(cfg, w, v, now);
      var u' :| u' in w && !Expired(cfg, u', now) && v == After(cfg, u', now);
      var j :| 0 <= j < |w| && w[j] == u';
      assert i == j;
    }
    if !Expired(cfg, u, now) {
      assert ScannedFrom(cfg, w, After(cfg, u, now), now);
      assert After(cfg, u, now) in Rescan(cfg, w, now);
    }
  }

  lemma AckWindowInv(cfg: Config, o: SendSide, n: nat)
    requires cfg.Valid() && SendInv(cfg, o) && WindowInv(o) && n <= |o.log|
    ensures WindowInv(OnAck(cfg, o, n))
  {
    if o.dropped == {} {
      KeepFromContiguous(o.snd.window, o.ackHigh, n);
    }
  }

  lemma AttemptWindowInv(cfg: Config, o: SendSide, i: nat, ack: nat, now: real)
    requires cfg.Valid() && SendInv(cfg, o) && WindowInv(o) && CanAttempt(o, i)
    ensures WindowInv(Attempt(cfg, o, i, ack, now))
  {
  }

  lemma StepWindowInv(cfg: Config, s: State, a: Action)
    requires cfg.Valid() && SendInv(cfg, s.out) && LinkInv(s.out.log, s.data, s.acks)
    requires WindowInv(s.out) && Enabled(s, a)
    ensures WindowInv(Step(cfg, s, a).out)
  {
    match a
    case DoAttempt(i, ack) => AttemptWindowInv(cfg, s.out, i, ack, s.clock);
    case DoScan => ScanWindowInv(cfg, s.out, s.clock);
    case ArriveAck(n) => AckWindowInv(cfg, s.out, n);
    case _ =>
  }

  // ----------------------------------------------------------------- waking

  // No task waits while the event is set, nor once everything sent has been acknowledged.
  ghost predicate ParkInv(o: SendSide) {
    forall t :: t in o.tasks && t.parked ==> !o.snd.available && o.ackHigh < |o.log|
  }

  // The event is cleared only while the window is full.
  ghost predicate WakeInv(cfg: Config, o: SendSide) {
    !o.snd.available ==> |o.snd.window| >= cfg.windowSize
  }

  lemma AttemptParkInv(cfg: Config, o: SendSide, i: nat, ack: nat, now: real)
    requires cfg.Valid() && SendInv(cfg, o) && ParkInv(o) && CanAttempt(o, i)
    ensures ParkInv(Attempt(cfg, o, i, ack, now))
  {
    var o' := Attempt(cfg, o, i, ack, now);
    forall t | t in o'.tasks && t.parked
      ensures !o'.snd.available && o'.ackHigh < |o'.log|
    {
      if HasRoom(cfg, o.snd) {
        assert t in o.tasks;
      } else {
        assert o.snd.window[0] in o.snd.window;
      }
    }
  }

  lemma OnAckParkInv(cfg: Config, o: SendSide, n: nat)
    requires cfg.Valid() && SendInv(cfg, o) && ParkInv(o) && n <= |o.log|
    ensures ParkInv(OnAck(cfg, o, n))
  {
    var o' := OnAck(cfg, o, n);
    KeepFromExact(o.snd.window, n);
    if !HasRoom(cfg, o'.snd) {
      assert o'.snd.window[0] in o'.snd.window;
    }
  }

  lemma StepParkInv(cfg: Config, s: State, a: Action)
    requires cfg.Valid() && Inv(cfg, s) && ParkInv(s.out) && Enabled(s, a)
    ensures ParkInv(Step(cfg, s, a).out)
  {
    match a
    case DoAttempt(i, ack) => AttemptParkInv(cfg, s.out, i, ack, s.clock);
    case ArriveAck(n) => OnAckParkInv(cfg, s.out, n);
    case _ =>
  }

  // The one step that leaves the event cleared beside a window with room: a drop in a scan.
  ghost predicate SilentDrop(cfg: Config, s: State, a: Action) {
    && a.DoScan? && !s.out.snd.available
    && exists u :: u in s.out.snd.window && s.clock >= u.nextRetransmit && u.count >= cfg.maxRetransmits
  }

  lemma WakeStep(cfg: Config, s: State, a: Action)
    requires cfg.Valid() && Inv(cfg, s) && WakeInv(cfg, s.out) && Enabled(s, a)
    ensures WakeInv(cfg, Step(cfg, s, a).out) <==> !SilentDrop(cfg, s, a)
  {
    if a.DoScan? {
      RescanOrder(cfg, s.out.snd.window, s.clock);
    }
  }

  lemma DropIsRecorded(cfg: Config, s: State, a: Action)
    requires cfg.Valid() && Inv(cfg, s) && Enabled(s, a) && SilentDrop(cfg, s, a)
    ensures Step(cfg, s, a).out.dropped != {}
  {
    var u :| u in s.out.snd.window && s.clock >= u.nextRetransmit && u.count >= cfg.maxRetransmits;
    NotDropped(cfg, s.out.snd.window, u, s.clock);
    assert u.frame.seqNo in Step(cfg, s, a).out.dropped;
  }

  // ----------------------------------------------------------- transmissions

  // What is left of the retry budget: one for each resend, and one for leaving the window.
  function Budget(cfg: Config, w: seq<Unacked>): int {
    if w == [] then 0 else cfg.maxRetransmits + 1 - w[0].count + Budget(cfg, w[1..])
  }

  function DueCount(w: seq<Unacked>, now: real): nat {
    if w == [] then 0 else (if Due(w[0], now) then 1 else 0) + DueCount(w[1..], now)
  }

  // A time at which every frame in the window is due.
  lemma {:induction false} AllDueAt(w: seq<Unacked>, now: real) returns (t: real)
    ensures t >= now && forall u :: u in w ==> Due(u, t)
  {
    t := now;
    if w == [] {
    } else {
      t := AllDueAt(w[1..], now);
      if t < w[0].nextRetransmit {
        t := w[0].nextRetransmit;
      }
      assert w == [w[0]] + w[1..];
    }
  }

  ghost predicate CountsOk(cfg: Config, w: seq<Unacked>) {
    forall u :: u in w ==> u.count <= cfg.maxRetransmits
  }

  // Each scan uses exactly one unit of the budget per due frame.
  lemma {:induction false} ScanSpendsBudget(cfg: Config, w: seq<Unacked>, now: real)
    requires CountsOk(cfg, w)
    ensures CountsOk(cfg, Rescan(cfg, w, now))
    ensures Budget(cfg, Rescan(cfg, w, now)) == Budget(cfg, w) - DueCount(w, now)
    ensures |Resends(cfg, w, now)| + |w| - |Rescan(cfg, w, now)| == DueCount(w, now)
  {
    if w == [] {
    } else {
      assert w[0] in w;
      ScanSpendsBudget(cfg, w[1..], now);
    }
  }

  lemma {:induction false} BudgetBounds(cfg: Config, w: seq<Unacked>)
    requires CountsOk(cfg, w)
    ensures Budget(cfg, w) >= |w|
  {
    if w == [] {
    } else {
      assert w[0] in w;
      BudgetBounds(cfg, w[1..]);
    }
  }

  lemma {:induction false} AckSpendsBudget(cfg: Config, w: seq<Unacked>, n: nat)
    requires CountsOk(cfg, w)
    ensures Budget(cfg, KeepFrom(w, n)) - |KeepFrom(w, n)| <= Budget(cfg, w) - |w|
    ensures Budget(cfg, KeepFrom(w, n)) <= Budget(cfg, w)
  {
    if w == [] {
    } else {
      assert w[0] in w;
      AckSpendsBudget(cfg, w[1..], n);
    }
  }

  lemma {:induction false} BudgetSnoc(cfg: Config, w: seq<Unacked>, u: Unacked)
    ensures Budget(cfg, w + [u]) == Budget(cfg, w) + cfg.maxRetransmits + 1 - u.count
  {
    if w == [] {
      assert w + [u] == [u];
      assert [u][1..] == [];
    } else {
      BudgetSnoc(cfg, w[1..], u);
      assert (w + [u])[1..] == w[1..] + [u];
    }
  }

  ghost predicate BudgetInv(cfg: Config, o: SendSide) {
    && CountsOk(cfg, o.snd.window)
    && o.sent + Budget(cfg, o.snd.window) - |o.snd.window| <= (cfg.maxRetransmits + 1) * |o.log|
  }

  lemma StepBudgetInv(cfg: Config, s: State, a: Action)
    requires cfg.Valid() && BudgetInv(cfg, s.out) && Enabled(s, a)
    ensures BudgetInv(cfg, Step(cfg, s, a).out)
  {
    var w := s.out.snd.window;
    match a
    case DoAttempt(i, ack) =>
      if HasRoom(cfg, s.out.snd) {
        var f := NextFrame(cfg, s.out, i, ack);
        BudgetSnoc(cfg, w, Unacked(f, s.clock, 0, s.clock + cfg.baseRto));
        Distribute(cfg.maxRetransmits + 1, |s.out.log|);
      }
    case DoScan => ScanSpendsBudget(cfg, w, s.clock);
    case ArriveAck(n) =>
      AckSpendsBudget(cfg, w, n);
      KeepFromExact(w, n);
    case _ =>
  }

  lemma Distribute(m: nat, n: nat)
    ensures m * (n + 1) == m * n + m
  {
  }

  // ------------------------------------------------------------ over all runs

  ghost predicate AllInv(cfg: Config, s: State)
    requires cfg.Valid()
  {
    && Inv(cfg, s)
    && WindowInv(s.out)
    && ParkInv(s.out)
    && (s.out.dropped == {} ==> WakeInv(cfg, s.out))
    && BudgetInv(cfg, s.out)
  }

  lemma StepAllInv(cfg: Config, s: State, a: Action)
    requires cfg.Valid() && AllInv(cfg, s) && Enabled(s, a)
    ensures AllInv(cfg, Step(cfg, s, a))
  {
    StepInv(cfg, s, a);
    StepWindowInv(cfg, s, a);
    StepParkInv(cfg, s, a);
    StepBudgetInv(cfg, s, a);
    if Step(cfg, s, a).out.dropped == {} {
      assert s.out.dropped == {};
      WakeStep(cfg, s, a);
      if SilentDrop(cfg, s, a) {
        DropIsRecorded(cfg, s, a);
      }
    }
  }

  lemma {:induction false} RunAllInv(cfg: Config, s: State, acts: seq<Action>)
    requires cfg.Valid() && AllInv(cfg, s) && CanRun(cfg, s, acts)
    ensures AllInv(cfg, Exec(cfg, s, acts))
    decreases |acts|
  {
    if acts == [] {
    } else {
      StepAllInv(cfg, s, acts[0]);
      RunAllInv(cfg, Step(cfg, s, acts[0]), acts[1..]);
    }
  }

  lemma ReachableAllInv(cfg: Config, s: State)
    requires cfg.Valid() && Reachable(cfg, s)
    ensures AllInv(cfg, s)
  {
    var t :| Reaches(cfg, Init(t), s);
    var acts :| CanRun(cfg, Init(t), acts) && Exec(cfg, Init(t), acts) == s;
    InitInv(cfg, t);
    RunAllInv(cfg, Init(t), acts);
  }

  /**
   * With any number of parked senders the window never exceeds its size, and its keys are
   * distinct and below `_send_seq`.  In a run without drops the keys are exactly the range from
   * the highest ACK processed to `_send_seq`.
   */
  lemma SlidingWindow(cfg: Config, s: State)
    requires cfg.Valid() && Reachable(cfg, s)
    ensures |s.out.snd.window| <= cfg.windowSize && Ascending(s.out.snd.window)
    ensures forall k :: k in Seqs(s.out.snd.window) ==> s.out.ackHigh <= k < s.out.snd.sendSeq
    ensures s.out.dropped == {} ==>
              && (forall k :: s.out.ackHigh <= k < s.out.snd.sendSeq ==> k in Seqs(s.out.snd.window))
              && s.out.snd.sendSeq <= s.out.ackHigh + cfg.windowSize
  {
    ReachableAllInv(cfg, s);
    if s.out.dropped == {} {
      var w := s.out.snd.window;
      forall k | s.out.ackHigh <= k < s.out.snd.sendSeq
        ensures k in Seqs(w)
      {
        assert w[k - s.out.ackHigh] in w;
      }
    }
  }

  /** Without drops, a sender waits only while the window is full. */
  lemma NoLostWakeup(cfg: Config, s: State)
    requires cfg.Valid() && Reachable(cfg, s) && s.out.dropped == {}
    ensures forall t :: t in s.out.tasks && t.parked ==> |s.out.snd.window| == cfg.windowSize
  {
    ReachableAllInv(cfg, s);
  }

  /** At most `max_retransmits + 1` transmissions per frame. */
  lemma TransmissionBound(cfg: Config, s: State)
    requires cfg.Valid() && Reachable(cfg, s)
    ensures s.out.sent <= (cfg.maxRetransmits + 1) * s.out.snd.sendSeq
  {
    ReachableAllInv(cfg, s);
    BudgetBounds(cfg, s.out.snd.window);
  }

  // The scans of a run that find a due frame.
  function Productive(cfg: Config, s: State, acts: seq<Action>): nat
    requires cfg.Valid() && CanRun(cfg, s, acts)
    decreases |acts|
  {
    if acts == [] then 0
    else (if acts[0].DoScan? && DueCount(s.out.snd.window, s.clock) > 0 then 1 else 0)
         + Productive(cfg, Step(cfg, s, acts[0]), acts[1..])
  }

  /**
   * Once sends stop, the productive scans of any run are bounded by the budget of the window, and
   * after that many the window is empty.
   */
  lemma {:induction false} RetransmissionEnds(cfg: Config, s: State, acts: seq<Action>)
    requires cfg.Valid() && CanRun(cfg, s, acts) && CountsOk(cfg, s.out.snd.window)
    requires forall a :: a in acts ==> !a.DoAttempt?
    ensures Productive(cfg, s, acts) + Budget(cfg, Exec(cfg, s, acts).out.snd.window) <= Budget(cfg, s.out.snd.window)
    ensures Productive(cfg, s, acts) <= Budget(cfg, s.out.snd.window)
    ensures Productive(cfg, s, acts) == Budget(cfg, s.out.snd.window) ==> Exec(cfg, s, acts).out.snd.window == []
    decreases |acts|
  {
    var w := s.out.snd.window;
    BudgetBounds(cfg, w);
    if acts == [] {
    } else {
      var s' := Step(cfg, s, acts[0]);
      assert acts[0] in acts;
      if acts[0].DoScan? {
        ScanSpendsBudget(cfg, w, s.clock);
      } else if acts[0].ArriveAck? {
        AckSpendsBudget(cfg, w, acts[0].n);
        KeepFromExact(w, acts[0].n);
      }
      RetransmissionEnds(cfg, s', acts[1..]);
    }
    FinalBudget(cfg, s, acts);
  }

  lemma {:induction false} FinalBudget(cfg: Config, s: State, acts: seq<Action>)
    requires cfg.Valid() && CanRun(cfg, s, acts) && CountsOk(cfg, s.out.snd.window)
    ensures Budget(cfg, Exec(cfg, s, acts).out.snd.window) >= |Exec(cfg, s, acts).out.snd.window|
    decreases |acts|
  {
    if acts == [] {
      BudgetBounds(cfg, s.out.snd.window);
    } else {
      if acts[0].DoScan? {
        ScanSpendsBudget(cfg, s.out.snd.window, s.clock);
      } else if acts[0].ArriveAck? {
        KeepFromExact(s.out.snd.window, acts[0].n);
      }
      FinalBudget(cfg, Step(cfg, s, acts[0]), acts[1..]);
    }
  }
}
