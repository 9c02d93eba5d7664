/**
 * The two halves of a channel end together with the tasks suspended in them, and a
 * record of what happened there so far.  Every function is one atomic step.
 */
module Endpoint {
  import opened Frames
  import opened Fragmentation
  import opened Reliable

  // A running `send`: the pieces it has not handed to `_send_frame` yet, and whether it
  // waits for `_window_available`.
  datatype SendTask = SendTask(rest: seq<Piece>, parked: bool)

  /**
   * The sending half.  The record: every data frame made, in order (`log`); the messages
   * passed to `send`; whether each `send` was called after the previous one finished;
   * the highest ACK processed; the sequence numbers removed by ACKs and by the retry
   * limit; the number of transmissions.
   */
  datatype SendSide = SendSide(
    snd: Sender,
    tasks: seq<SendTask>,
    log: seq<Frame>,
    msgs: seq<Bytes>,
    serial: bool,
    ackHigh: nat,
    acked: set<nat>,
    dropped: set<nat>,
    sent: nat)

  const INIT_SEND := SendSide(INIT_SENDER, [], [], [], true, 0, {}, {}, 0)

  predicate Finished(tasks: seq<SendTask>) {
    forall t :: t in tasks ==> t.rest == []
  }

  function Submit(cfg: Config, o: SendSide, data: Bytes): SendSide
    requires cfg.Valid()
  {
    o.(tasks := o.tasks + [SendTask(Pieces(data, cfg.MaxPayload()), false)],
       msgs := o.msgs + [data],
       serial := o.serial && Finished(o.tasks))
  }

  // The pieces the sends have still to hand over.
  function Work(tasks: seq<SendTask>): nat {
    if tasks == [] then 0 else |tasks[0].rest| + Work(tasks[1..])
  }

  function CanGo(t: SendTask): nat {
    if t.rest != [] && !t.parked then 1 else 0
  }

  // The sends that are unfinished and not waiting.
  function Going(tasks: seq<SendTask>): nat {
    if tasks == [] then 0 else CanGo(tasks[0]) + Going(tasks[1..])
  }

  // The same sends with the same pieces left, parked or not.
  ghost predicate SameWork(a: seq<SendTask>, b: seq<SendTask>) {
    |a| == |b| && forall i :: 0 <= i < |a| ==> a[i].rest == b[i].rest
  }

  lemma {:induction false} WorkSame(a: seq<SendTask>, b: seq<SendTask>)
    requires SameWork(a, b)
    ensures Work(a) == Work(b)
  {
    if a == [] {
    } else {
      WorkSame(a[1..], b[1..]);
    }
  }

  lemma {:induction false} TaskChange(tasks: seq<SendTask>, i: nat, t: SendTask)
    requires i < |tasks|
    ensures Work(tasks[i := t]) == Work(tasks) - |tasks[i].rest| + |t.rest|
    ensures Going(tasks[i := t]) == Going(tasks) - CanGo(tasks[i]) + CanGo(t)
  {
    if i == 0 {
      assert tasks[i := t][1..] == tasks[1..];
    } else {
      TaskChange(tasks[1..], i - 1, t);
      assert tasks[i := t][1..] == tasks[1..][i - 1 := t];
    }
  }

  lemma {:induction false} GoingBound(tasks: seq<SendTask>)
    ensures Going(tasks) <= |tasks|
  {
    if tasks == [] {
    } else {
      GoingBound(tasks[1..]);
    }
  }

  lemma {:induction false} WorkLeft(tasks: seq<SendTask>, i: nat)
    requires i < |tasks|
    ensures Work(tasks) >= |tasks[i].rest|
  {
    if i == 0 {
    } else {
      WorkLeft(tasks[1..], i - 1);
    }
  }

  predicate CanAttempt(o: SendSide, i: nat) {
    i < |o.tasks| && o.tasks[i].rest != [] && !o.tasks[i].parked
  }

  // The frame task i sends next, with `ack` the receiving half's `_recv_next_seq`.
  function NextFrame(cfg: Config, o: SendSide, i: nat, ack: nat): Frame
    requires CanAttempt(o, i)
  {
    DataFrame(cfg, o.tasks[i].rest[0], o.snd.sendSeq, ack)
  }

  // Task i tests the window and either parks or sends its next piece.
  function Attempt(cfg: Config, o: SendSide, i: nat, ack: nat, now: real): SendSide
    requires CanAttempt(o, i)
  {
    var t := o.tasks[i];
    if !HasRoom(cfg, o.snd) then
      o.(snd := Park(o.snd), tasks := o.tasks[i := t.(parked := true)])
    else
      var f := NextFrame(cfg, o, i, ack);
      o.(snd := SendFrame(cfg, o.snd, f, now),
         tasks := o.tasks[i := t.(rest := t.rest[1..])],
         log := o.log + [f],
         sent := o.sent + 1)
  }

  function Emitted(cfg: Config, o: SendSide, i: nat, ack: nat): set<Frame>
    requires CanAttempt(o, i)
  {
    if HasRoom(cfg, o.snd) then {NextFrame(cfg, o, i, ack)} else {}
  }

  // Setting the event lets every waiting task run again.
  function Unpark(tasks: seq<SendTask>): (r: seq<SendTask>)
    ensures |r| == |tasks|
    ensures forall i :: 0 <= i < |tasks| ==> r[i] == tasks[i].(parked := false)
  {
    seq(|tasks|, i requires 0 <= i < |tasks| => tasks[i].(parked := false))
  }

  function OnAck(cfg: Config, o: SendSide, n: nat): SendSide {
    var s := ProcessAck(cfg, o.snd, n);
    o.(snd := s,
       tasks := if HasRoom(cfg, s) then Unpark(o.tasks) else o.tasks,
       ackHigh := if n > o.ackHigh then n else o.ackHigh,
       acked := o.acked + (Seqs(o.snd.window) - Seqs(s.window)))
  }

  function OnScan(cfg: Config, o: SendSide, now: real): SendSide {
    var s := Scan(cfg, o.snd, now);
    o.(snd := s,
       dropped := o.dropped + (Seqs(o.snd.window) - Seqs(s.window)),
       sent := o.sent + |Resends(cfg, o.snd.window, now)|)
  }

  function Resent(cfg: Config, o: SendSide, now: real): set<Frame> {
    set f | f in Resends(cfg, o.snd.window, now)
  }

  /**
   * The receiving half: one task per raw message.  `pending` holds the data frames whose
   * task is suspended at its ACK; `draining` counts the tasks inside the delivery loop,
   * any of which may be suspended in `on_message`; `arrived` records every data frame
   * that arrived.
   */
  datatype RecvSide = RecvSide(rcv: Receiver, pending: multiset<Frame>, draining: nat, arrived: set<Frame>)

  const INIT_RECV := RecvSide(INIT_RECEIVER, multiset{}, 0, {})

  // A data frame arrives; its ACK, `seqNo + 1`, goes out with this step.
  function OnArrive(n: RecvSide, f: Frame): RecvSide {
    n.(pending := n.pending + multiset{f}, arrived := n.arrived + {f})
  }

  // The task of `f` runs on after its ACK: duplicate check, then into the delivery loop.
  function Resume(n: RecvSide, f: Frame): RecvSide
    requires f in n.pending
  {
    RecvSide(Accept(n.rcv, f), n.pending - multiset{f},
             if f.seqNo < n.rcv.next then n.draining else n.draining + 1, n.arrived)
  }

  // One test of the delivery loop by one of the tasks in it: consume a frame or leave.
  function Iterate(n: RecvSide): RecvSide
    requires n.draining > 0
  {
    if n.rcv.next in n.rcv.buffer then n.(rcv := Consume(n.rcv)) else n.(draining := n.draining - 1)
  }

  // No receive task is under way.
  predicate Quiet(n: RecvSide) {
    n.pending == multiset{} && n.draining == 0
  }
}
