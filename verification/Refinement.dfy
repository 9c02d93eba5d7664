/**
 * The channel object's methods, seen as runs of the interleaved system.  (Process one data
 * frame to the end: Arrival.ReceiveToEnd.  `_process_ack` and a retransmit scan are single
 * steps of OneWay by definition.)
 */
module Refinement {
  import opened Frames
  import opened Fragmentation
  import opened Reliable
  import opened Endpoint
  import opened OneWay
  import opened ReliableChannelClass

  // What is left of s after its task i ran as `r` says, having made the frames fs.
  function SentState(s: State, i: nat, r: Outcome, fs: seq<Frame>): State
    requires i < |s.out.tasks|
  {
    s.(out := s.out.(snd := r.snd,
                     tasks := s.out.tasks[i := SendTask(r.rest, r.rest != [])],
                     log := s.out.log + fs,
                     sent := s.out.sent + |fs|),
       data := s.data + set f | f in fs)
  }

  lemma AttemptSends(cfg: Config, s: State, i: nat, ack: nat)
    requires cfg.Valid() && CanAttempt(s.out, i) && HasRoom(cfg, s.out.snd)
    ensures var f := NextFrame(cfg, s.out, i, ack);
      Step(cfg, s, DoAttempt(i, ack))
      == s.(out := s.out.(snd := SendFrame(cfg, s.out.snd, f, s.clock),
                          tasks := s.out.tasks[i := SendTask(s.out.tasks[i].rest[1..], false)],
                          log := s.out.log + [f],
                          sent := s.out.sent + 1),
            data := s.data + {f})
  {
  }

  // Sending f first and then fs is sending [f] + fs.
  lemma SentStateCons(s: State, s1: State, i: nat, snd: Sender, t: SendTask, r: Outcome, f: Frame, fs: seq<Frame>)
    requires i < |s.out.tasks|
    requires s1 == s.(out := s.out.(snd := snd, tasks := s.out.tasks[i := t], log := s.out.log + [f],
                                    sent := s.out.sent + 1),
                      data := s.data + {f})
    ensures SentState(s1, i, r, fs) == SentState(s, i, r, [f] + fs)
  {
  }

  /**
   * The steps of the receive tasks are what the object's methods do: the ACK goes out with the arrival;
   * `AcceptFrame` comes when the task resumes, and takes it into the loop or ends it; `DeliverNext` is
   * one test of the loop, which consumes one frame or ends a task.
   */
  lemma TaskStepsAreMethods(cfg: Config, s: State, f: Frame)
    requires cfg.Valid()
    ensures f in s.data ==>
              && Step(cfg, s, ArriveData(f)).inn.rcv == s.inn.rcv
              && Step(cfg, s, ArriveData(f)).inn.pending == s.inn.pending + multiset{f}
              && Step(cfg, s, ArriveData(f)).acks == s.acks + {f.seqNo + 1}
    ensures f in s.inn.pending ==>
              && Step(cfg, s, DoResume(f)).inn.rcv == Accept(s.inn.rcv, f)
              && Step(cfg, s, DoResume(f)).inn.pending == s.inn.pending - multiset{f}
              && Step(cfg, s, DoResume(f)).inn.draining == s.inn.draining + if f.seqNo >= s.inn.rcv.next then 1 else 0
    ensures s.inn.draining > 0 && s.inn.rcv.next in s.inn.rcv.buffer ==>
              Step(cfg, s, DoIterate) == s.(inn := s.inn.(rcv := Consume(s.inn.rcv)))
    ensures s.inn.draining > 0 && s.inn.rcv.next !in s.inn.rcv.buffer ==>
              Step(cfg, s, DoIterate) == s.(inn := s.inn.(draining := s.inn.draining - 1))
  {
  }

  /**
   * One attempt is one pass through `SendOrPark`: with the window full the event is cleared and the
   * task waits, otherwise its next piece is made a frame.
   */
  lemma AttemptIsOnePass(cfg: Config, s: State, i: nat, ack: nat)
    requires cfg.Valid() && CanAttempt(s.out, i)
    ensures var t := s.out.tasks[i]; var s' := Step(cfg, s, DoAttempt(i, ack));
      if |s.out.snd.window| >= cfg.windowSize then
        s' == s.(out := s.out.(snd := s.out.snd.(available := false), tasks := s.out.tasks[i := t.(parked := true)]))
      else
        var f := Frame(DATA, if t.rest[0].more then 1 else 0, cfg.channelId, s.out.snd.sendSeq, ack, t.rest[0].payload);
        && s'.out.snd == Sender(f.seqNo + 1, s.out.snd.window + [Unacked(f, s.clock, 0, s.clock + cfg.baseRto)],
                                s.out.snd.available)
        && s'.out.tasks == s.out.tasks[i := t.(rest := t.rest[1..])]
        && s'.data == s.data + {f} && s'.inn == s.inn && s'.acks == s.acks
  {
  }

  /** A retransmit scan, and an arriving ACK, are what the object's methods do. */
  lemma ScanAndAckAreMethods(cfg: Config, s: State, n: nat)
    requires cfg.Valid() && n in s.acks
    ensures Step(cfg, s, DoScan).out.snd == Scan(cfg, s.out.snd, s.clock)
    ensures Step(cfg, s, DoScan).data == s.data + set f | f in Resends(cfg, s.out.snd.window, s.clock)
    ensures Step(cfg, s, DoScan).out.tasks == s.out.tasks && Step(cfg, s, DoScan).inn == s.inn
    ensures Step(cfg, s, ArriveAck(n)).out.snd == ProcessAck(cfg, s.out.snd, n)
    ensures |Step(cfg, s, ArriveAck(n)).out.tasks| == |s.out.tasks|
    ensures forall i :: 0 <= i < |s.out.tasks| ==>
              Step(cfg, s, ArriveAck(n)).out.tasks[i]
              == if |ProcessAck(cfg, s.out.snd, n).window| < cfg.windowSize then s.out.tasks[i].(parked := false)
                 else s.out.tasks[i]
  {
  }

  /**
   * `send` up to its first wait is a run of attempts by its task: same sender, same pieces left, the
   * task parked exactly when pieces are left, and the frames on the wire are the ones put on the link.
   */
  lemma {:induction false} SendIsAttempts(cfg: Config, s0: State, s: State, i: nat, wire: seq<Bytes>, ack: nat)
      returns (fs: seq<Frame>)
    requires cfg.Valid() && Reaches(cfg, s0, s) && i < |s.out.tasks| && !s.out.tasks[i].parked
    requires !SendRun(cfg, s.out.snd, wire, s.out.tasks[i].rest, ack, s.clock).raised
    ensures var r := SendRun(cfg, s.out.snd, wire, s.out.tasks[i].rest, ack, s.clock);
      Reaches(cfg, s0, SentState(s, i, r, fs)) && r.wire == SentAll(wire, fs)
    decreases |s.out.tasks[i].rest|
  {
    var ps := s.out.tasks[i].rest;
    var r := SendRun(cfg, s.out.snd, wire, ps, ack, s.clock);
    if ps == [] {
      fs := [];
      assert SentState(s, i, r, []) == s;
    } else if !HasRoom(cfg, s.out.snd) {
      ReachesStep(cfg, s0, s, DoAttempt(i, ack));
      fs := [];
      assert SentState(s, i, r, []) == Step(cfg, s, DoAttempt(i, ack));
    } else {
      ReachesStep(cfg, s0, s, DoAttempt(i, ack));
      AttemptSends(cfg, s, i, ack);
      var s1 := Step(cfg, s, DoAttempt(i, ack));
      var f := NextFrame(cfg, s.out, i, ack);
      var more := SendIsAttempts(cfg, s0, s1, i, Sent(wire, f), ack);
      fs := [f] + more;
      SentStateCons(s, s1, i, s1.out.snd, s1.out.tasks[i], r, f, more);
      assert fs[1..] == more;
    }
  }
}
