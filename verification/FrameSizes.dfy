/**
 * How much of the mtu a frame carries, and how many frames a message makes.
 */
module FrameSizes {
  import opened Frames
  import opened Fragmentation
  import opened Reliable
  import opened Endpoint
  import opened OneWay

  // The frames that messages of the given lengths make: max(1, ceil(n / (mtu - 14))) each.
  function FrameCount(mtu: nat, msgs: seq<Bytes>): nat
    requires mtu > 14
  {
    if msgs == [] then 0
    else
      var n := |msgs[|msgs| - 1]|;
      FrameCount(mtu, msgs[..|msgs| - 1]) + if n == 0 then 1 else (n + mtu - 15) / (mtu - 14)
  }

  // ------------------------------------------------------------------ over all runs

  ghost predicate SizeInv(cfg: Config, o: SendSide)
    requires cfg.Valid()
  {
    && (forall k :: 0 <= k < |o.log| ==> Full(cfg, PieceOf(o.log[k])))
    && (forall t, p :: t in o.tasks && p in t.rest ==> Full(cfg, p))
    && |o.log| + Work(o.tasks) == FrameCount(cfg.mtu, o.msgs)
  }

  lemma {:induction false} WorkSnoc(tasks: seq<SendTask>, t: SendTask)
    ensures Work(tasks + [t]) == Work(tasks) + |t.rest|
  {
    if tasks == [] {
      assert tasks + [t] == [t] && |[t][1..]| == 0;
    } else {
      WorkSnoc(tasks[1..], t);
      assert (tasks + [t])[1..] == tasks[1..] + [t];
    }
  }

  lemma SubmitSize(cfg: Config, o: SendSide, m: Bytes)
    requires cfg.Valid() && SizeInv(cfg, o)
    ensures SizeInv(cfg, Submit(cfg, o, m))
  {
    MessageFrames(cfg, m);
    WorkSnoc(o.tasks, SendTask(Pieces(m, cfg.MaxPayload()), false));
    assert (o.msgs + [m])[..|o.msgs|] == o.msgs;
  }

  lemma AttemptSize(cfg: Config, o: SendSide, i: nat, ack: nat, now: real)
    requires cfg.Valid() && SizeInv(cfg, o) && CanAttempt(o, i)
    ensures SizeInv(cfg, Attempt(cfg, o, i, ack, now))
  {
    var t := o.tasks[i];
    assert t in o.tasks && t.rest[0] in t.rest && forall p :: p in t.rest[1..] ==> p in t.rest;
    TaskChange(o.tasks, i, Attempt(cfg, o, i, ack, now).tasks[i]);
  }

  lemma AckSize(cfg: Config, o: SendSide, n: nat)
    requires cfg.Valid() && SizeInv(cfg, o)
    ensures SizeInv(cfg, OnAck(cfg, o, n))
  {
    var o' := OnAck(cfg, o, n);
    WorkSame(o.tasks, o'.tasks);
    forall t', p | t' in o'.tasks && p in t'.rest
      ensures Full(cfg, p)
    {
      var j :| 0 <= j < |o'.tasks| && o'.tasks[j] == t';
      assert o.tasks[j] in o.tasks && o.tasks[j].rest == t'.rest;
    }
  }

  lemma StepSize(cfg: Config, s: State, a: Action)
    requires cfg.Valid() && SizeInv(cfg, s.out) && Enabled(s, a)
    ensures SizeInv(cfg, Step(cfg, s, a).out)
  {
    match a
    case DoSubmit(m) => SubmitSize(cfg, s.out, m);
    case DoAttempt(i, ack) => AttemptSize(cfg, s.out, i, ack, s.clock);
    case ArriveAck(n) => AckSize(cfg, s.out, n);
    case _ =>
  }

  lemma {:induction false} RunSize(cfg: Config, s: State, acts: seq<Action>)
    requires cfg.Valid() && SizeInv(cfg, s.out) && CanRun(cfg, s, acts)
    ensures SizeInv(cfg, Exec(cfg, s, acts).out)
    decreases |acts|
  {
    if acts == [] {
    } else {
      StepSize(cfg, s, acts[0]);
      RunSize(cfg, Step(cfg, s, acts[0]), acts[1..]);
    }
  }

  /**
   * In every state of every run: a frame with MORE_FRAGMENTS has exactly mtu bytes and no frame has
   * more; and the frames made and the pieces still to be sent are together as many as the messages
   * sent take, max(1, ceil(n / (mtu - 14))) for one of n bytes.
   */
  lemma FramesFillTheMtu(cfg: Config, s: State)
    requires cfg.Valid() && Reachable(cfg, s)
    ensures forall f :: f in s.out.log ==> f.TotalSize() <= cfg.mtu
    ensures forall f :: f in s.out.log && f.HasMoreFragments() ==> f.TotalSize() == cfg.mtu
    ensures |s.out.log| + Work(s.out.tasks) == FrameCount(cfg.mtu, s.out.msgs)
  {
    var t :| Reaches(cfg, Init(t), s);
    var acts :| CanRun(cfg, Init(t), acts) && Exec(cfg, Init(t), acts) == s;
    RunSize(cfg, Init(t), acts);
    ReachableInv(cfg, s);
  }
}
