/**
 * What the receiver holds depends only on which frames arrived, not on their order, on
 * duplicates, or on how the receive tasks interleave.
 */
module Arrival {
  import opened Frames
  import opened Fragmentation
  import opened Reliable
  import opened Endpoint
  import opened OneWay

  // The frames of S numbered 0, 1, ..., n-1.
  ghost predicate Line(S: set<Frame>, n: nat, fs: seq<Frame>) {
    |fs| == n && forall i :: 0 <= i < n ==> fs[i] in S && fs[i].seqNo == i
  }

  ghost predicate Numbers(S: set<Frame>, k: nat) {
    exists f :: f in S && f.seqNo == k
  }

  /**
   * The receiver a set of frames calls for: `next` is the least missing number, the buffer is
   * exactly the frames above it, and the reading is the split of the payloads below it.
   */
  ghost predicate Describes(S: set<Frame>, r: Receiver) {
    && (forall k :: 0 <= k < r.next ==> Numbers(S, k))
    && !Numbers(S, r.next)
    && (forall k :: k in r.buffer <==> k > r.next && Numbers(S, k))
    && (forall k :: k in r.buffer ==> r.buffer[k] in S && r.buffer[k].seqNo == k)
    && (exists fs :: Line(S, r.next, fs) && r.reading == Split(PiecesOf(fs)))
  }

  // No two different frames share a number.
  ghost predicate Consistent(S: set<Frame>) {
    forall f, g :: f in S && g in S && f.seqNo == g.seqNo ==> f == g
  }

  // A set of frames calls for at most one receiver.
  lemma DescribesOne(S: set<Frame>, r1: Receiver, r2: Receiver)
    requires Consistent(S) && Describes(S, r1) && Describes(S, r2)
    ensures r1 == r2
  {
    assert r1.next == r2.next;
    assert r1.buffer == r2.buffer by {
      assert r1.buffer.Keys == r2.buffer.Keys;
    }
    var a :| Line(S, r1.next, a) && r1.reading == Split(PiecesOf(a));
    var b :| Line(S, r2.next, b) && r2.reading == Split(PiecesOf(b));
    assert a == b;
  }

  // ---------------------------------------------------- in the running system

  ghost predicate ArrivalInv(log: seq<Frame>, n: RecvSide) {
    && (forall f :: f in n.arrived ==> InLog(log, f))
    && n.rcv.next <= |log|
    && (forall k :: 0 <= k < n.rcv.next ==> log[k] in n.arrived)
    && (forall k :: k in n.rcv.buffer ==> n.rcv.buffer[k] in n.arrived)
    && (forall f :: f in n.pending ==> f in n.arrived)
    && (forall f :: f in n.arrived ==> f in n.pending || f.seqNo < n.rcv.next || f.seqNo in n.rcv.buffer)
  }

  lemma ResumeArrivalInv(log: seq<Frame>, n: RecvSide, f: Frame)
    requires RecvInv(log, n) && ArrivalInv(log, n) && f in n.pending
    ensures ArrivalInv(log, Resume(n, f))
  {
  }

  lemma IterateArrivalInv(log: seq<Frame>, n: RecvSide)
    requires RecvInv(log, n) && ArrivalInv(log, n) && n.draining > 0
    ensures ArrivalInv(log, Iterate(n))
  {
  }

  lemma ArriveArrivalInv(log: seq<Frame>, n: RecvSide, f: Frame)
    requires ArrivalInv(log, n) && InLog(log, f)
    ensures ArrivalInv(log, OnArrive(n, f))
  {
  }

  lemma LongerLogArrivalInv(log: seq<Frame>, n: RecvSide, f: Frame)
    requires ArrivalInv(log, n)
    ensures ArrivalInv(log + [f], n)
  {
  }

  lemma StepArrivalInv(cfg: Config, s: State, a: Action)
    requires cfg.Valid() && Inv(cfg, s) && ArrivalInv(s.out.log, s.inn) && Enabled(s, a)
    ensures ArrivalInv(Step(cfg, s, a).out.log, Step(cfg, s, a).inn)
  {
    match a
    case DoAttempt(i, ack) => LongerLogArrivalInv(s.out.log, s.inn, NextFrame(cfg, s.out, i, ack));
    case ArriveData(f) => ArriveArrivalInv(s.out.log, s.inn, f);
    case DoResume(f) => ResumeArrivalInv(s.out.log, s.inn, f);
    case DoIterate => IterateArrivalInv(s.out.log, s.inn);
    case _ =>
  }

  lemma {:induction false} RunArrivalInv(cfg: Config, s: State, acts: seq<Action>)
    requires cfg.Valid() && Inv(cfg, s) && ArrivalInv(s.out.log, s.inn) && CanRun(cfg, s, acts)
    ensures ArrivalInv(Exec(cfg, s, acts).out.log, Exec(cfg, s, acts).inn)
    decreases |acts|
  {
    if acts == [] {
    } else {
      StepInv(cfg, s, acts[0]);
      StepArrivalInv(cfg, s, acts[0]);
      RunArrivalInv(cfg, Step(cfg, s, acts[0]), acts[1..]);
    }
  }

  lemma ReachableArrivalInv(cfg: Config, s: State)
    requires cfg.Valid() && Reachable(cfg, s)
    ensures Inv(cfg, s) && ArrivalInv(s.out.log, s.inn)
  {
    var t :| Reaches(cfg, Init(t), s);
    var acts :| CanRun(cfg, Init(t), acts) && Exec(cfg, Init(t), acts) == s;
    InitInv(cfg, t);
    RunInv(cfg, Init(t), acts);
    RunArrivalInv(cfg, Init(t), acts);
  }

  /**
   * Whenever no receive task is under way, the receiver is the one the set of arrived frames calls
   * for; while tasks are suspended, every buffered number is at least `_recv_next_seq`, and the
   * reading is the split of the frames consumed, each once and in order.
   */
  lemma ReceiverIsTheSetOfArrivals(cfg: Config, s: State)
    requires cfg.Valid() && Reachable(cfg, s)
    ensures Consistent(s.inn.arrived)
    ensures Quiet(s.inn) ==> Describes(s.inn.arrived, s.inn.rcv)
    ensures forall k :: k in s.inn.rcv.buffer ==> k >= s.inn.rcv.next
    ensures exists fs :: Line(s.inn.arrived, s.inn.rcv.next, fs) && s.inn.rcv.reading == Split(PiecesOf(fs))
  {
    ReachableArrivalInv(cfg, s);
    var log, n := s.out.log, s.inn;
    assert Line(n.arrived, n.rcv.next, log[..n.rcv.next]);
    if Quiet(n) {
      forall k | 0 <= k < n.rcv.next
        ensures Numbers(n.arrived, k)
      {
        assert log[k] in n.arrived && log[k].seqNo == k;
      }
      forall k
        ensures k in n.rcv.buffer <==> k > n.rcv.next && Numbers(n.arrived, k)
      {
        if k in n.rcv.buffer {
          assert n.rcv.buffer[k] in n.arrived && n.rcv.buffer[k].seqNo == k;
        }
      }
    }
  }

  /**
   * Two runs, on any links and with any interleaving, after which the same set of frames has
   * arrived and no receive task is under way, leave equal receivers.
   */
  lemma ArrivalOrderIndependence(cfg1: Config, s1: State, cfg2: Config, s2: State)
    requires cfg1.Valid() && cfg2.Valid() && Reachable(cfg1, s1) && Reachable(cfg2, s2)
    requires Quiet(s1.inn) && Quiet(s2.inn) && s1.inn.arrived == s2.inn.arrived
    ensures s1.inn.rcv == s2.inn.rcv
  {
    ReceiverIsTheSetOfArrivals(cfg1, s1);
    ReceiverIsTheSetOfArrivals(cfg2, s2);
    DescribesOne(s1.inn.arrived, s1.inn.rcv, s2.inn.rcv);
  }

  // -------------------------------------------- one frame, run to completion

  // The delivery loop stops at the least number missing from the buffer.
  lemma {:induction false} DrainStops(r: Receiver)
    ensures r.next <= Drain(r).next && Drain(r).next !in r.buffer
    ensures forall k :: r.next <= k < Drain(r).next ==> k in r.buffer
    ensures forall k :: k in Drain(r).buffer <==> k in r.buffer && (k < r.next || k >= Drain(r).next)
    decreases |r.buffer|
  {
    if r.next in r.buffer {
      var r' := Consume(r);
      DrainStops(r');
      forall k | r.next <= k < Drain(r).next
        ensures k in r.buffer
      {
        assert k != r.next ==> k in r'.buffer;
      }
    }
  }

  /**
   * The ACK for frame f says `f.seqNo + 1`.  Read cumulatively it is right exactly when every
   * frame below f was received before.
   */
  lemma AckIsCumulative(r: Receiver, f: Frame)
    requires r.next !in r.buffer
    ensures f.seqNo + 1 <= ProcessData(r, f).next
            <==> forall k :: r.next <= k < f.seqNo ==> k in r.buffer
  {
    if f.seqNo >= r.next {
      DrainStops(Accept(r, f));
    }
  }

  // The tasks in the delivery loop can empty it, which leaves the receiver drained.
  lemma {:induction false} FinishLoops(cfg: Config, s0: State, s: State) returns (s': State)
    requires cfg.Valid() && Reaches(cfg, s0, s)
    requires s.inn.draining > 0 || s.inn.rcv.next !in s.inn.rcv.buffer
    ensures Reaches(cfg, s0, s')
    ensures s' == s.(inn := s.inn.(rcv := Drain(s.inn.rcv), draining := 0))
    decreases |s.inn.rcv.buffer|, s.inn.draining
  {
    if s.inn.draining == 0 {
      return s;
    }
    ReachesStep(cfg, s0, s, DoIterate);
    s' := FinishLoops(cfg, s0, Step(cfg, s, DoIterate));
  }

  /** Processing one frame without interruption is a run of the interleaved steps. */
  lemma ReceiveToEnd(cfg: Config, s0: State, s: State, f: Frame) returns (s': State)
    requires cfg.Valid() && Reaches(cfg, s0, s) && f in s.data && Quiet(s.inn)
    requires s.inn.rcv.next !in s.inn.rcv.buffer
    ensures Reaches(cfg, s0, s') && Quiet(s'.inn)
    ensures s' == s.(acks := s.acks + {f.seqNo + 1},
                     inn := RecvSide(ProcessData(s.inn.rcv, f), multiset{}, 0, s.inn.arrived + {f}))
  {
    ReachesStep(cfg, s0, s, ArriveData(f));
    var s1 := Step(cfg, s, ArriveData(f));
    ReachesStep(cfg, s0, s1, DoResume(f));
    var s2 := Step(cfg, s1, DoResume(f));
    assert s2.inn.pending == multiset{};
    if f.seqNo < s.inn.rcv.next {
      s' := s2;
    } else {
      s' := FinishLoops(cfg, s0, s2);
    }
  }
}
