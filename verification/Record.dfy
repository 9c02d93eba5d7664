/**
 * What the record kept beside a channel means: it is what the actions of the run say it is.  Safety
 * and the bound on transmissions, stated on runs alone.
 */
module Record {
  import opened Frames
  import opened Fragmentation
  import opened Reliable
  import opened Endpoint
  import opened OneWay
  import Safety
  import Window

  // The messages passed to `send`, in order.
  function Submitted(acts: seq<Action>): seq<Bytes> {
    if acts == [] then []
    else (if acts[0].DoSubmit? then [acts[0].msg] else []) + Submitted(acts[1..])
  }

  // Every `send` is called when the ones before it have handed over their last piece.
  ghost predicate NoOverlap(cfg: Config, s: State, acts: seq<Action>)
    requires cfg.Valid() && CanRun(cfg, s, acts)
    decreases |acts|
  {
    acts == [] ||
    (&& (acts[0].DoSubmit? ==> forall t :: t in s.out.tasks ==> t.rest == [])
     && NoOverlap(cfg, Step(cfg, s, acts[0]), acts[1..]))
  }

  // The data frames that reached the receiver.
  function Arrivals(acts: seq<Action>): set<Frame> {
    if acts == [] then {}
    else (if acts[0].ArriveData? then {acts[0].f} else {}) + Arrivals(acts[1..])
  }

  // The highest ACK that reached the sender, or `least`.
  function HighestAck(acts: seq<Action>, least: nat): nat
    decreases |acts|
  {
    if acts == [] then least
    else HighestAck(acts[1..], if acts[0].ArriveAck? && acts[0].n > least then acts[0].n else least)
  }

  // The numbers that left the window when an ACK arrived, and in a scan.
  function LeftByAck(cfg: Config, s: State, acts: seq<Action>): set<nat>
    requires cfg.Valid() && CanRun(cfg, s, acts)
    decreases |acts|
  {
    if acts == [] then {}
    else
      var s' := Step(cfg, s, acts[0]);
      (if acts[0].ArriveAck? then Seqs(s.out.snd.window) - Seqs(s'.out.snd.window) else {})
      + LeftByAck(cfg, s', acts[1..])
  }

  function LeftByScan(cfg: Config, s: State, acts: seq<Action>): set<nat>
    requires cfg.Valid() && CanRun(cfg, s, acts)
    decreases |acts|
  {
    if acts == [] then {}
    else
      var s' := Step(cfg, s, acts[0]);
      (if acts[0].DoScan? then Seqs(s.out.snd.window) - Seqs(s'.out.snd.window) else {})
      + LeftByScan(cfg, s', acts[1..])
  }

  // The frames handed to `send_raw` by one step: a new one, or those sent again.
  function Handed(cfg: Config, s: State, a: Action): nat
    requires cfg.Valid() && Enabled(s, a)
  {
    match a
    case DoAttempt(_, _) => |Step(cfg, s, a).out.log| - |s.out.log|
    case DoScan => |Resends(cfg, s.out.snd.window, s.clock)|
    case _ => 0
  }

  function Transmissions(cfg: Config, s: State, acts: seq<Action>): nat
    requires cfg.Valid() && CanRun(cfg, s, acts)
    decreases |acts|
  {
    if acts == [] then 0
    else Handed(cfg, s, acts[0]) + Transmissions(cfg, Step(cfg, s, acts[0]), acts[1..])
  }

  /** What a run adds to the record. */
  lemma {:induction false} RecordMeans(cfg: Config, s: State, acts: seq<Action>)
    requires cfg.Valid() && CanRun(cfg, s, acts)
    ensures var s' := Exec(cfg, s, acts);
      && s'.out.msgs == s.out.msgs + Submitted(acts)
      && (s'.out.serial <==> s.out.serial && NoOverlap(cfg, s, acts))
      && s'.inn.arrived == s.inn.arrived + Arrivals(acts)
      && s'.out.ackHigh == HighestAck(acts, s.out.ackHigh)
      && s'.out.sent == s.out.sent + Transmissions(cfg, s, acts)
    decreases |acts|
  {
    if acts == [] {
    } else {
      var s' := Step(cfg, s, acts[0]);
      StepRecord(cfg, s, acts[0]);
      RecordMeans(cfg, s', acts[1..]);
      var first := if acts[0].DoSubmit? then [acts[0].msg] else [];
      assert s'.out.msgs == s.out.msgs + first;
      Regroup(s.out.msgs, first, Submitted(acts[1..]));
    }
  }

  lemma StepRecord(cfg: Config, s: State, a: Action)
    requires cfg.Valid() && Enabled(s, a)
    ensures var s' := Step(cfg, s, a);
      && s'.out.msgs == s.out.msgs + (if a.DoSubmit? then [a.msg] else [])
      && (s'.out.serial <==> s.out.serial && (a.DoSubmit? ==> forall t :: t in s.out.tasks ==> t.rest == []))
      && s'.inn.arrived == s.inn.arrived + (if a.ArriveData? then {a.f} else {})
      && s'.out.ackHigh == (if a.ArriveAck? && a.n > s.out.ackHigh then a.n else s.out.ackHigh)
      && s'.out.sent == s.out.sent + Handed(cfg, s, a)
  {
    assert s.inn.arrived + {} == s.inn.arrived && s.out.msgs + [] == s.out.msgs;
    match a
    case DoAttempt(i, ack) => AttemptRecord(cfg, s.out, i, ack, s.clock);
    case _ =>
  }

  lemma AttemptRecord(cfg: Config, o: SendSide, i: nat, ack: nat, now: real)
    requires CanAttempt(o, i)
    ensures var o' := Attempt(cfg, o, i, ack, now);
      && o'.msgs == o.msgs && o'.serial == o.serial && o'.ackHigh == o.ackHigh
      && |o'.log| >= |o.log| && o'.sent == o.sent + |o'.log| - |o.log|
  {
  }

  /** A number left the window by an ACK, or was dropped, exactly when the record says so. */
  lemma {:induction false} LeavingIsRecorded(cfg: Config, s: State, acts: seq<Action>)
    requires cfg.Valid() && CanRun(cfg, s, acts)
    ensures Exec(cfg, s, acts).out.acked == s.out.acked + LeftByAck(cfg, s, acts)
    ensures Exec(cfg, s, acts).out.dropped == s.out.dropped + LeftByScan(cfg, s, acts)
    decreases |acts|
  {
    if acts == [] {
    } else {
      LeavingIsRecorded(cfg, Step(cfg, s, acts[0]), acts[1..]);
    }
  }

  /**
   * End-to-end safety, on runs: in whatever order frames and ACKs arrive, are repeated and lost, after
   * any run in which no `send` is called while another is unfinished, the messages passed to
   * `on_message` are a prefix of those passed to `send`.
   */
  lemma DeliversPrefix(cfg: Config, t: real, acts: seq<Action>)
    requires cfg.Valid() && CanRun(cfg, Init(t), acts) && NoOverlap(cfg, Init(t), acts)
    ensures Exec(cfg, Init(t), acts).inn.rcv.reading.msgs <= Submitted(acts)
  {
    RecordMeans(cfg, Init(t), acts);
    assert [] + Submitted(acts) == Submitted(acts);
    assert Reaches(cfg, Init(t), Exec(cfg, Init(t), acts));
    Safety.EndToEndSafety(cfg, Exec(cfg, Init(t), acts));
  }

  /** In any run at most max_retransmits + 1 data frames are handed to `send_raw` for each frame made. */
  lemma FewTransmissions(cfg: Config, t: real, acts: seq<Action>)
    requires cfg.Valid() && CanRun(cfg, Init(t), acts)
    ensures Transmissions(cfg, Init(t), acts) <= (cfg.maxRetransmits + 1) * |Exec(cfg, Init(t), acts).out.log|
  {
    RecordMeans(cfg, Init(t), acts);
    assert Reaches(cfg, Init(t), Exec(cfg, Init(t), acts));
    Window.TransmissionBound(cfg, Exec(cfg, Init(t), acts));
    ReachableInv(cfg, Exec(cfg, Init(t), acts));
  }
}
