/**
 * Exponential backoff: when a frame can be dropped, and by when it has left the window.
 */
module Backoff {
  import opened Frames
  import opened Reliable
  import opened Endpoint
  import opened OneWay
  import opened Window

  // From the first transmission to the time the c-th resend's timer runs out, at the least.
  function Delay(cfg: Config, c: nat): real {
    cfg.baseRto * (Pow2(c + 1) - 1) as real
  }

  lemma DelayStep(cfg: Config, c: nat)
    ensures Delay(cfg, c + 1) == Delay(cfg, c) + cfg.baseRto * Pow2(c + 1) as real
    ensures Delay(cfg, 0) == cfg.baseRto
  {
  }

  lemma {:induction false} DelayMonotone(cfg: Config, c: nat, d: nat)
    requires c <= d && cfg.baseRto > 0.0
    ensures Delay(cfg, c) <= Delay(cfg, d)
    decreases d
  {
    if c < d {
      DelayMonotone(cfg, c, d - 1);
      DelayStep(cfg, d - 1);
      PositiveTimes(cfg.baseRto, Pow2(d));
    }
  }

  lemma PositiveTimes(r: real, n: nat)
    requires r > 0.0 && n >= 1
    ensures r * n as real > 0.0
  {
  }

  // ------------------------------------------------------------ not too early

  ghost predicate NotEarly(cfg: Config, u: Unacked) {
    u.nextRetransmit >= u.sentAt + Delay(cfg, u.count)
  }

  ghost predicate TimeInv(cfg: Config, o: SendSide) {
    forall u :: u in o.snd.window ==>
      && NotEarly(cfg, u) && u.count <= cfg.maxRetransmits
      && (u.count == 0 ==> u.nextRetransmit == u.sentAt + cfg.baseRto)
  }

  lemma BumpNotEarly(cfg: Config, u: Unacked, now: real)
    requires NotEarly(cfg, u) && Due(u, now)
    ensures NotEarly(cfg, Bump(cfg, u, now))
  {
  }

  lemma StepTimeInv(cfg: Config, s: State, a: Action)
    requires cfg.Valid() && TimeInv(cfg, s.out) && Enabled(s, a)
    ensures TimeInv(cfg, Step(cfg, s, a).out)
  {
    var w := s.out.snd.window;
    match a
    case DoAttempt(i, ack) => DelayStep(cfg, 0);
    case DoScan =>
      RescanMembers(cfg, w, s.clock);
      forall v | v in Rescan(cfg, w, s.clock)
        ensures NotEarly(cfg, v) && v.count <= cfg.maxRetransmits
        ensures v.count == 0 ==> v.nextRetransmit == v.sentAt + cfg.baseRto
      {
        assert ScannedFrom(cfg, w, v, s.clock);
        var u :| u in w && !Expired(cfg, u, s.clock) && v == After(cfg, u, s.clock);
        if Due(u, s.clock) {
          BumpNotEarly(cfg, u, s.clock);
        }
      }
    case ArriveAck(n) => KeepFromExact(w, n);
    case _ =>
  }

  lemma {:induction false} RunTimeInv(cfg: Config, s: State, acts: seq<Action>)
    requires cfg.Valid() && TimeInv(cfg, s.out) && CanRun(cfg, s, acts)
    ensures TimeInv(cfg, Exec(cfg, s, acts).out)
    decreases |acts|
  {
    if acts == [] {
    } else {
      StepTimeInv(cfg, s, acts[0]);
      RunTimeInv(cfg, Step(cfg, s, acts[0]), acts[1..]);
    }
  }

  /**
   * The timer of every frame in the window: base_rto after its first transmission before any resend,
   * and never less than base_rto * (2^(count + 1) - 1) after it.
   */
  lemma TimersHold(cfg: Config, s: State)
    requires cfg.Valid() && Reachable(cfg, s)
    ensures TimeInv(cfg, s.out)
    ensures forall u :: u in s.out.snd.window ==>
              && u.count <= cfg.maxRetransmits
              && u.nextRetransmit >= u.sentAt + cfg.baseRto * (Pow2(u.count + 1) - 1) as real
              && (u.count == 0 ==> u.nextRetransmit == u.sentAt + cfg.baseRto)
  {
    var t :| Reaches(cfg, Init(t), s);
    var acts :| CanRun(cfg, Init(t), acts) && Exec(cfg, Init(t), acts) == s;
    RunTimeInv(cfg, Init(t), acts);
  }

  lemma DropsByDelay(cfg: Config, s: State, k: nat) returns (u: Unacked)
    requires cfg.Valid() && Reachable(cfg, s)
    requires k in OnScan(cfg, s.out, s.clock).dropped && k !in s.out.dropped
    ensures u in s.out.snd.window && u.frame.seqNo == k && u.count == cfg.maxRetransmits
    ensures s.clock >= u.sentAt + Delay(cfg, cfg.maxRetransmits)
  {
    ReachableInv(cfg, s);
    TimersHold(cfg, s);
    u :| u in s.out.snd.window && u.frame.seqNo == k;
    NotDropped(cfg, s.out.snd.window, u, s.clock);
    assert NotEarly(cfg, u);
  }

  lemma DelayIs(cfg: Config, c: nat)
    ensures Delay(cfg, c) == cfg.baseRto * (Pow2(c + 1) - 1) as real
  {
  }

  /**
   * A scan drops a frame only after exactly `max_retransmits` resends of it, and no earlier than
   * base_rto * (2^(max_retransmits + 1) - 1) after its first transmission.
   */
  lemma DropsAreLate(cfg: Config, s: State, k: nat, late: real)
    requires cfg.Valid() && Reachable(cfg, s)
    requires k in OnScan(cfg, s.out, s.clock).dropped && k !in s.out.dropped
    requires late == cfg.baseRto * (Pow2(cfg.maxRetransmits + 1) - 1) as real
    ensures exists u :: u in s.out.snd.window && u.frame.seqNo == k && u.count == cfg.maxRetransmits
                        && s.clock >= u.sentAt + late
  {
    var u := DropsByDelay(cfg, s, k);
    DelayIs(cfg, cfg.maxRetransmits);
  }

  // ------------------------------------------------------------- not too late

  // Scans at most d apart, the last one (or the start) at time `last`.
  ghost predicate Timely(cfg: Config, s: State, last: real, d: real, acts: seq<Action>)
    requires cfg.Valid() && CanRun(cfg, s, acts)
    decreases |acts|
  {
    acts == [] ||
    (&& (acts[0].Tick? ==> acts[0].t <= last + d)
     && Timely(cfg, Step(cfg, s, acts[0]), if acts[0].DoScan? then s.clock else last, d, acts[1..]))
  }

  ghost predicate NotLate(cfg: Config, u: Unacked, d: real) {
    u.nextRetransmit <= u.sentAt + Delay(cfg, u.count) + u.count as real * d
  }

  ghost predicate PaceInv(cfg: Config, s: State, last: real, d: real) {
    && last <= s.clock <= last + d
    && (forall u :: u in s.out.snd.window ==>
          last < u.nextRetransmit && NotLate(cfg, u, d) && u.count <= cfg.maxRetransmits)
  }

  lemma BumpNotLate(cfg: Config, u: Unacked, now: real, d: real)
    requires NotLate(cfg, u, d) && now <= u.nextRetransmit + d
    ensures NotLate(cfg, Bump(cfg, u, now), d)
  {
  }

  lemma ScanPace(cfg: Config, s: State, last: real, d: real)
    requires cfg.Valid() && PaceInv(cfg, s, last, d) && d >= 0.0
    ensures PaceInv(cfg, Step(cfg, s, DoScan), s.clock, d)
  {
    var w := s.out.snd.window;
    RescanMembers(cfg, w, s.clock);
    forall v | v in Rescan(cfg, w, s.clock)
      ensures s.clock < v.nextRetransmit && NotLate(cfg, v, d) && v.count <= cfg.maxRetransmits
    {
      assert ScannedFrom(cfg, w, v, s.clock);
      var u :| u in w && !Expired(cfg, u, s.clock) && v == After(cfg, u, s.clock);
      if Due(u, s.clock) {
        BumpNotLate(cfg, u, s.clock, d);
        PositiveTimes(cfg.baseRto, Pow2(u.count + 1));
      }
    }
  }

  lemma {:induction false} RunPace(cfg: Config, s: State, last: real, d: real, acts: seq<Action>) returns (last': real)
    requires cfg.Valid() && d >= 0.0 && CanRun(cfg, s, acts) && Timely(cfg, s, last, d, acts)
    requires PaceInv(cfg, s, last, d)
    ensures PaceInv(cfg, Exec(cfg, s, acts), last', d)
    decreases |acts|
  {
    if acts == [] {
      return last;
    }
    var s' := Step(cfg, s, acts[0]);
    match acts[0]
    case DoScan =>
      ScanPace(cfg, s, last, d);
      last' := RunPace(cfg, s', s.clock, d, acts[1..]);
    case ArriveAck(n) =>
      KeepFromExact(s.out.snd.window, n);
      last' := RunPace(cfg, s', last, d, acts[1..]);
    case _ =>
      DelayStep(cfg, 0);
      last' := RunPace(cfg, s', last, d, acts[1..]);
  }

  lemma LeavesByDelay(cfg: Config, t: real, d: real, acts: seq<Action>, u: Unacked)
    requires cfg.Valid() && d >= 0.0 && CanRun(cfg, Init(t), acts) && Timely(cfg, Init(t), t, d, acts)
    requires u in Exec(cfg, Init(t), acts).out.snd.window
    ensures Exec(cfg, Init(t), acts).clock
            < u.sentAt + Delay(cfg, cfg.maxRetransmits) + (cfg.maxRetransmits + 1) as real * d
  {
    var last := RunPace(cfg, Init(t), t, d, acts);
    DelayMonotone(cfg, u.count, cfg.maxRetransmits);
    CountTimes(u.count, cfg.maxRetransmits, d);
  }

  /**
   * With scans at most d apart, every frame has left the window by
   * base_rto * (2^(max_retransmits + 1) - 1) + (max_retransmits + 1) * d after its first
   * transmission.
   */
  lemma LeavesInTime(cfg: Config, t: real, d: real, acts: seq<Action>, u: Unacked)
    requires cfg.Valid() && d >= 0.0 && CanRun(cfg, Init(t), acts) && Timely(cfg, Init(t), t, d, acts)
    requires u in Exec(cfg, Init(t), acts).out.snd.window
    ensures Exec(cfg, Init(t), acts).clock
            < u.sentAt + cfg.baseRto * (Pow2(cfg.maxRetransmits + 1) - 1) as real + (cfg.maxRetransmits + 1) as real * d
  {
    LeavesByDelay(cfg, t, d, acts, u);
    DelayIs(cfg, cfg.maxRetransmits);
  }

  lemma CountTimes(c: nat, m: nat, d: real)
    requires c <= m && d >= 0.0
    ensures c as real * d + d <= (m + 1) as real * d
  {
  }
}
