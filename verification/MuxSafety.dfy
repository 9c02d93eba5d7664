/**
 * What holds in every run of the two multiplexers: channel ids, isolation of channels,
 * the range of every frame, and delivery on each channel.
 */
module MuxSafety {
  import opened Wrappers
  import opened Frames
  import opened Fragmentation
  import opened Reliable
  import opened Endpoint
  import opened OneWay
  import opened Mux
  import opened Projection
  import Backoff
  import FrameSizes
  import Safety
  import Window

  // ------------------------------------------------------------------ channel ids

  ghost predicate Allocated(n: Net, c: nat) {
    c >= 1 && c < (if c % 2 == 1 then n.offerer.nextId else n.answerer.nextId)
  }

  ghost predicate Distinct(ids: seq<nat>) {
    forall i, j :: 0 <= i < j < |ids| ==> ids[i] != ids[j]
  }

  ghost predicate OnAllocated(n: Net, link: set<Bytes>) {
    forall raw :: raw in link && Deserialize(raw).Ok? ==> Allocated(n, Deserialize(raw).value.channelId)
  }

  // A peer's own allocated ids are registered there; its other ones were announced, each once.
  ghost predicate PeerIds(n: Net, s: Side) {
    var p := n.At(s);
    && s.Owns(p.nextId)
    && (forall c :: c in p.chans ==> Allocated(n, c))
    && (forall c :: s.Owns(c) && Allocated(n, c) ==> c in p.chans)
    && Distinct(p.announced)
    && (forall c :: c in p.announced <==> c in p.chans && !s.Owns(c))
  }

  ghost predicate IdInv(n: Net) {
    && n.offerer.nextId >= 1 && n.answerer.nextId >= 2
    && PeerIds(n, Offerer) && PeerIds(n, Answerer)
    && OnAllocated(n, n.fromOfferer) && OnAllocated(n, n.fromAnswerer)
  }

  lemma FreshId(n: Net, s: Side)
    requires IdInv(n)
    ensures n.At(s).nextId !in n.At(s).chans
  {
    assert PeerIds(n, s);
  }

  lemma OpenIds(n: Net, s: Side)
    requires IdInv(n)
    ensures IdInv(n.With(s, Open(n.At(s))))
  {
    var n' := n.With(s, Open(n.At(s)));
    assert PeerIds(n, s) && PeerIds(n, s.Other());
    OpenAllocates(n, s);
    OpenPeer(n, s, s);
    OpenPeer(n, s, s.Other());
  }

  lemma OpenAllocates(n: Net, s: Side)
    requires IdInv(n)
    ensures forall c :: Allocated(n.With(s, Open(n.At(s))), c) <==> Allocated(n, c) || c == n.At(s).nextId
  {
    assert PeerIds(n, s);
  }

  lemma OpenPeer(n: Net, s: Side, v: Side)
    requires IdInv(n)
    ensures PeerIds(n.With(s, Open(n.At(s))), v)
  {
    OpenAllocates(n, s);
    assert PeerIds(n, s) && PeerIds(n, v);
  }

  lemma CreateIds(n: Net, s: Side, c: nat)
    requires IdInv(n) && Allocated(n, c)
    ensures IdInv(n.With(s, GetOrCreate(n.At(s), c)))
  {
    var n' := n.With(s, GetOrCreate(n.At(s), c));
    assert PeerIds(n, s) && PeerIds(n, s.Other());
    assert forall k :: Allocated(n', k) <==> Allocated(n, k);
    assert PeerIds(n', s);
    assert PeerIds(n', s.Other());
  }

  lemma UpdateIds(n: Net, s: Side, c: nat, ch: Chan, fs: set<Frame>)
    requires IdInv(n) && c in n.At(s).chans && Sendable(fs, c)
    ensures IdInv(Update(n, s, c, ch, fs))
  {
    var n' := Update(n, s, c, ch, fs);
    assert PeerIds(n, s) && PeerIds(n, s.Other());
    assert forall k :: Allocated(n', k) <==> Allocated(n, k);
    assert PeerIds(n', s);
    assert PeerIds(n', s.Other());
    forall raw | raw in Wire(fs)
      ensures Deserialize(raw).Ok? && Deserialize(raw).value.channelId == c
    {
      var f :| f in fs && f.Fits() && Serialize(f).value == raw;
      WireDecodes(f);
    }
  }

  // ------------------------------------------------------- the invariants, by step

  ghost predicate MuxInv(cfg: Config, n: Net)
    requires cfg.Valid()
  {
    NetInv(cfg, n) && IdInv(n)
  }

  // The part of the invariant that is not about one channel.
  ghost predicate Plain(n: Net) {
    && IdInv(n) && LinkOk(n.fromOfferer) && LinkOk(n.fromAnswerer)
    && forall s: Side, c: nat :: c in n.At(s).chans ==> c < U16
  }

  lemma PlainUpdate(n: Net, s: Side, c: nat, ch: Chan, fs: set<Frame>)
    requires Plain(n) && c in n.At(s).chans && Sendable(fs, c)
    ensures Plain(Update(n, s, c, ch, fs))
  {
    UpdateIds(n, s, c, ch, fs);
    WireViews(n.From(s), fs, c, c);
  }

  lemma PlainOpen(n: Net, s: Side)
    requires Plain(n) && n.At(s).nextId < U16
    ensures Plain(n.With(s, Open(n.At(s))))
  {
    OpenIds(n, s);
  }

  lemma PlainDeliver(cfg: Config, n: Net, s: Side, raw: Bytes, f: Frame, ch: Chan)
    requires Plain(n) && raw in n.From(s.Other()) && Deserialize(raw) == Ok(f) && f.Fits()
    requires Sendable(Replies(For(cfg, f.channelId), f), f.channelId)
    ensures Plain(Deliver(cfg, n, s, f, ch))
  {
    var c := f.channelId;
    CreateIds(n, s, c);
    var n1 := n.With(s, GetOrCreate(n.At(s), c));
    PlainUpdate(n1, s, c, ch, Replies(For(cfg, c), f));
  }

  lemma PlainAttempt(cfg: Config, n: Net, s: Side, c: nat, i: nat)
    requires cfg.Valid() && Plain(n) && NEnabled(n, NAttempt(s, c, i))
    requires Sendable(Emitted(For(cfg, c), n.At(s).chans[c].out, i, n.At(s).chans[c].inn.rcv.next), c)
    ensures Plain(NStep(cfg, n, NAttempt(s, c, i)))
  {
    var ch := n.At(s).chans[c];
    PlainUpdate(n, s, c, ch.(out := Attempt(For(cfg, c), ch.out, i, ch.inn.rcv.next, n.clock)),
                Emitted(For(cfg, c), ch.out, i, ch.inn.rcv.next));
  }

  lemma PlainScan(cfg: Config, n: Net, s: Side, c: nat)
    requires cfg.Valid() && Plain(n) && NEnabled(n, NScan(s, c))
    requires Sendable(Resent(For(cfg, c), n.At(s).chans[c].out, n.clock), c)
    ensures Plain(NStep(cfg, n, NScan(s, c)))
  {
    var ch := n.At(s).chans[c];
    PlainUpdate(n, s, c, ch.(out := OnScan(For(cfg, c), ch.out, n.clock)), Resent(For(cfg, c), ch.out, n.clock));
  }

  // The steps that send nothing.
  lemma PlainSilent(cfg: Config, n: Net, a: NAction)
    requires cfg.Valid() && Plain(n) && NEnabled(n, a)
    requires a.NTick? || a.NLose? || a.NSubmit? || a.NResume? || a.NIterate?
    ensures Plain(NStep(cfg, n, a))
  {
    if a.NTick? || a.NLose? {
      var n' := NStep(cfg, n, a);
      assert PeerIds(n, Offerer) && PeerIds(n, Answerer);
      assert forall k :: Allocated(n', k) <==> Allocated(n, k);
      assert PeerIds(n', Offerer) && PeerIds(n', Answerer);
    } else {
      var ch := n.At(a.s).chans[a.c];
      var ch' := if a.NSubmit? then ch.(out := Submit(For(cfg, a.c), ch.out, a.msg))
                 else if a.NResume? then ch.(inn := Resume(ch.inn, a.f))
                 else ch.(inn := Iterate(ch.inn));
      PlainUpdate(n, a.s, a.c, ch', {});
    }
  }

  lemma StepPlain(cfg: Config, n: Net, a: NAction)
    requires cfg.Valid() && MuxInv(cfg, n) && NEnabled(n, a)
    ensures Plain(NStep(cfg, n, a))
  {
    match a
    case NOpen(s) => PlainOpen(n, s);
    case NAttempt(s, c, i) =>
      EmittedFits(cfg, n, s, c, i);
      PlainAttempt(cfg, n, s, c, i);
    case NScan(s, c) =>
      ResentFits(cfg, n, s, c);
      PlainScan(cfg, n, s, c);
    case NArrive(s, raw) =>
      var f := ArrivingFrame(cfg, n, s, raw);
      PlainDeliver(cfg, n, s, raw, f, Handle(For(cfg, f.channelId), ChanOf(n.At(s), f.channelId), f));
    case _ => PlainSilent(cfg, n, a);
  }

  lemma AttemptLog(cfg: Config, n: Net, s0: Side, c0: nat, i: nat, s: Side, c: nat)
    requires cfg.Valid() && NEnabled(n, NAttempt(s0, c0, i))
    ensures var log, log' := ChanOf(n.At(s), c).out.log, ChanOf(NStep(cfg, n, NAttempt(s0, c0, i)).At(s), c).out.log;
      var ch := n.At(s0).chans[c0];
      log' == log || (s == s0 && c == c0 && log' == log + [NextFrame(For(cfg, c), ch.out, i, ch.inn.rcv.next)])
  {
  }

  // A step adds at most one frame to a log, and that one fits.
  lemma StepFits(cfg: Config, n: Net, a: NAction, s: Side, c: nat)
    requires cfg.Valid() && MuxInv(cfg, n) && NEnabled(n, a)
    ensures ChanFits(ChanOf(NStep(cfg, n, a).At(s), c))
  {
    assert ChanFits(ChanOf(n.At(s), c));
    if a.NAttempt? {
      EmittedFits(cfg, n, a.s, a.c, a.i);
      assert Inv(For(cfg, c), View(n, s, c));
      AttemptLog(cfg, n, a.s, a.c, a.i, s, c);
    } else if a.NOpen? {
      FreshId(n, a.s);
    } else {
      SameLog(cfg, n, a, s, c);
    }
  }

  lemma SameLog(cfg: Config, n: Net, a: NAction, s: Side, c: nat)
    requires cfg.Valid() && NEnabled(n, a) && !a.NAttempt? && !a.NOpen?
    ensures ChanOf(NStep(cfg, n, a).At(s), c).out.log == ChanOf(n.At(s), c).out.log
  {
  }

  lemma StepMuxInv(cfg: Config, n: Net, a: NAction)
    requires cfg.Valid() && MuxInv(cfg, n) && NEnabled(n, a)
    ensures MuxInv(cfg, NStep(cfg, n, a))
  {
    var n' := NStep(cfg, n, a);
    StepPlain(cfg, n, a);
    if a.NOpen? {
      FreshId(n, a.s);
    }
    forall s: Side, c: nat
      ensures Inv(For(cfg, c), View(n', s, c))
    {
      StepView(cfg, n, a, s, c);
    }
    forall s: Side, c: nat
      ensures ChanFits(ChanOf(n'.At(s), c))
    {
      StepFits(cfg, n, a, s, c);
    }
  }

  lemma StepView(cfg: Config, n: Net, a: NAction, s: Side, c: nat)
    requires cfg.Valid() && MuxInv(cfg, n) && NEnabled(n, a)
    requires a.NOpen? ==> n.At(a.s).nextId !in n.At(a.s).chans
    ensures Inv(For(cfg, c), View(NStep(cfg, n, a), s, c))
    ensures Reaches(For(cfg, c), View(n, s, c), View(NStep(cfg, n, a), s, c))
  {
    ProjectStep(cfg, n, a, s, c);
    ReachesSelf(For(cfg, c), View(n, s, c));
    assert Inv(For(cfg, c), View(n, s, c));
    match Seen(n, a, s, c)
    case None =>
    case Some(act) =>
      StepInv(For(cfg, c), View(n, s, c), act);
      ReachesStep(For(cfg, c), View(n, s, c), View(n, s, c), act);
  }

  lemma InitMuxInv(cfg: Config, t: real)
    requires cfg.Valid()
    ensures MuxInv(cfg, NInit(t))
    ensures forall s: Side, c: nat :: View(NInit(t), s, c) == Init(t)
  {
  }

  lemma {:induction false} RunMuxInv(cfg: Config, n: Net, acts: seq<NAction>)
    requires cfg.Valid() && MuxInv(cfg, n) && NCanRun(cfg, n, acts)
    ensures MuxInv(cfg, NExec(cfg, n, acts))
    decreases |acts|
  {
    if acts == [] {
    } else {
      StepMuxInv(cfg, n, acts[0]);
      RunMuxInv(cfg, NStep(cfg, n, acts[0]), acts[1..]);
    }
  }

  lemma {:induction false} RunView(cfg: Config, n: Net, acts: seq<NAction>, s: Side, c: nat)
    requires cfg.Valid() && MuxInv(cfg, n) && NCanRun(cfg, n, acts)
    ensures Reaches(For(cfg, c), View(n, s, c), View(NExec(cfg, n, acts), s, c))
    decreases |acts|
  {
    if acts == [] {
      ReachesSelf(For(cfg, c), View(n, s, c));
    } else {
      var n' := NStep(cfg, n, acts[0]);
      if acts[0].NOpen? {
        FreshId(n, acts[0].s);
      }
      StepView(cfg, n, acts[0], s, c);
      StepMuxInv(cfg, n, acts[0]);
      RunView(cfg, n', acts[1..], s, c);
      ReachesTrans(For(cfg, c), View(n, s, c), View(n', s, c), View(NExec(cfg, n, acts), s, c));
    }
  }

  // ------------------------------------------------------------------ main results

  /**
   * Every channel, in each direction, is in a state that channel could be in alone on a lossy
   * link.  Whatever holds of one channel over such a link holds of every multiplexed channel.
   */
  lemma ChannelsAreIndependent(cfg: Config, n: Net, s: Side, c: nat)
    requires cfg.Valid() && NReachable(cfg, n)
    ensures Reachable(For(cfg, c), View(n, s, c)) && MuxInv(cfg, n)
  {
    var t :| NReaches(cfg, NInit(t), n);
    var acts :| NCanRun(cfg, NInit(t), acts) && NExec(cfg, NInit(t), acts) == n;
    InitMuxInv(cfg, t);
    RunMuxInv(cfg, NInit(t), acts);
    RunView(cfg, NInit(t), acts, s, c);
    assert Reaches(For(cfg, c), Init(t), View(n, s, c));
  }

  lemma ViewReachable(cfg: Config, n: Net, s: Side, c: nat)
    requires cfg.Valid() && NReachable(cfg, n)
    ensures Reachable(For(cfg, c), View(n, s, c))
  {
    ChannelsAreIndependent(cfg, n, s, c);
  }

  /** For each id, what one peer's channel delivers is a prefix of what the other's was given. */
  lemma PerChannelSafety(cfg: Config, n: Net, s: Side, c: nat)
    requires cfg.Valid() && NReachable(cfg, n)
    ensures var out, inn := ChanOf(n.At(s), c).out, ChanOf(n.At(s.Other()), c).inn;
      out.serial ==> inn.rcv.reading.msgs <= out.msgs
  {
    ChannelsAreIndependent(cfg, n, s, c);
    Safety.EndToEndSafety(For(cfg, c), View(n, s, c));
  }

  lemma HandleElsewhere(cfg: Config, n: Net, s: Side, raw: Bytes, f: Frame, c: nat)
    requires LinkOk(n.From(s)) && Deserialize(raw) == Ok(f) && c != f.channelId
    requires Sendable(Replies(For(cfg, f.channelId), f), f.channelId)
    ensures View(HandleRaw(cfg, n, s, raw), s, c) == View(n, s, c)
    ensures View(HandleRaw(cfg, n, s, raw), s.Other(), c) == View(n, s.Other(), c)
  {
    DeliverViews(cfg, n, s, f, Handle(For(cfg, f.channelId), ChanOf(n.At(s), f.channelId), f), c);
  }

  /**
   * Handling a raw message changes no channel but the one it names, neither its ends nor what is in
   * flight on it.
   */
  lemma Isolation(cfg: Config, n: Net, s: Side, raw: Bytes, c: nat)
    requires cfg.Valid() && NReachable(cfg, n) && raw in n.From(s.Other())
    ensures Deserialize(raw).Ok?
    ensures c != Deserialize(raw).value.channelId ==>
              && View(HandleRaw(cfg, n, s, raw), s, c) == View(n, s, c)
              && View(HandleRaw(cfg, n, s, raw), s.Other(), c) == View(n, s.Other(), c)
  {
    ChannelsAreIndependent(cfg, n, s, c);
    var f := ArrivingFrame(cfg, n, s, raw);
    if c != f.channelId {
      HandleElsewhere(cfg, n, s, raw, f, c);
    }
  }

  /**
   * `open_channel` never reuses an id registered at either peer or named in flight; `on_channel` has
   * fired exactly once for each channel a peer has but did not open, and for no other.
   */
  lemma JointIds(cfg: Config, n: Net, s: Side)
    requires cfg.Valid() && NReachable(cfg, n)
    ensures var id := n.At(s).nextId;
      && (forall v: Side :: id !in n.At(v).chans)
      && (forall v: Side, raw :: raw in n.From(v) && Deserialize(raw).Ok? ==> Deserialize(raw).value.channelId != id)
      && id % 2 == (if s == Offerer then 1 else 0)
      && (forall v: Side, c :: c in n.At(v).chans && c % 2 == id % 2 ==> c < id)
      && (forall c :: 1 <= c < id && c % 2 == id % 2 ==> c in n.At(s).chans)
    ensures Distinct(n.At(s).announced)
    ensures forall c :: c in n.At(s).announced <==> c in n.At(s).chans && c % 2 != n.At(s).nextId % 2
    ensures forall c :: c in n.At(s).announced ==> c in n.At(s.Other()).chans
  {
    ChannelsAreIndependent(cfg, n, s, 0);
    assert PeerIds(n, s) && PeerIds(n, s.Other());
    assert forall v: Side :: PeerIds(n, v);
    assert forall v: Side :: OnAllocated(n, n.From(v));
  }

  /**
   * Over all runs every channel works with the multiplexer's own settings and its own id: the window
   * and, without drops, when a send waits; the frame sizes; the timers and the number of resends.
   */
  lemma SettingsHold(cfg: Config, n: Net, s: Side, c: nat)
    requires cfg.Valid() && NReachable(cfg, n)
    ensures var o := ChanOf(n.At(s), c).out;
      && |o.snd.window| <= cfg.windowSize
      && (o.dropped == {} ==> forall t :: t in o.tasks && t.parked ==> |o.snd.window| == cfg.windowSize)
      && (forall f :: f in o.log ==> f.channelId == c && f.TotalSize() <= cfg.mtu)
      && (forall f :: f in o.log && f.HasMoreFragments() ==> f.TotalSize() == cfg.mtu)
      && |o.log| + Work(o.tasks) == FrameSizes.FrameCount(cfg.mtu, o.msgs)
      && (forall u :: u in o.snd.window ==>
            && u.count <= cfg.maxRetransmits
            && u.nextRetransmit >= u.sentAt + cfg.baseRto * (Pow2(u.count + 1) - 1) as real
            && (u.count == 0 ==> u.nextRetransmit == u.sentAt + cfg.baseRto))
      && o.sent <= (cfg.maxRetransmits + 1) * o.snd.sendSeq
  {
    ViewReachable(cfg, n, s, c);
    var x := View(n, s, c);
    Window.SlidingWindow(For(cfg, c), x);
    if x.out.dropped == {} {
      Window.NoLostWakeup(For(cfg, c), x);
    }
    FrameSizes.FramesFillTheMtu(For(cfg, c), x);
    Backoff.TimersHold(For(cfg, c), x);
    Window.TransmissionBound(For(cfg, c), x);
    ReachableInv(For(cfg, c), x);
  }

  lemma ScanOut(cfg: Config, n: Net, s: Side, c: nat)
    requires cfg.Valid() && c in n.At(s).chans
    ensures ChanOf(NStep(cfg, n, NScan(s, c)).At(s), c).out == OnScan(For(cfg, c), ChanOf(n.At(s), c).out, n.clock)
  {
  }

  /** A scan of a multiplexed channel drops a frame only after exactly max_retransmits resends. */
  lemma DropsAreLate(cfg: Config, n: Net, s: Side, c: nat, k: nat, late: real)
    requires cfg.Valid() && NReachable(cfg, n) && c in n.At(s).chans
    requires k in ChanOf(NStep(cfg, n, NScan(s, c)).At(s), c).out.dropped && k !in ChanOf(n.At(s), c).out.dropped
    requires late == cfg.baseRto * (Pow2(cfg.maxRetransmits + 1) - 1) as real
    ensures exists u :: u in ChanOf(n.At(s), c).out.snd.window && u.frame.seqNo == k && u.count == cfg.maxRetransmits
                        && n.clock >= u.sentAt + late
  {
    ViewReachable(cfg, n, s, c);
    ScanOut(cfg, n, s, c);
    Backoff.DropsAreLate(For(cfg, c), View(n, s, c), k, late);
  }

  /** The frame an attempt makes, field by field; it carries the next number the same end expects. */
  lemma AttemptMakes(cfg: Config, n: Net, s: Side, c: nat, i: nat)
    requires cfg.Valid() && NReachable(cfg, n) && NEnabled(n, NAttempt(s, c, i))
    requires |n.At(s).chans[c].out.snd.window| < cfg.windowSize
    ensures var ch := n.At(s).chans[c]; var p := ch.out.tasks[i].rest[0];
      ChanOf(NStep(cfg, n, NAttempt(s, c, i)).At(s), c).out.log
      == ch.out.log + [Frame(DATA, if p.more then 1 else 0, c, |ch.out.log|, ch.inn.rcv.next, p.payload)]
  {
    ChannelsAreIndependent(cfg, n, s, c);
    assert Inv(For(cfg, c), View(n, s, c));
  }

  // Every frame that handling a message calls for can be encoded.
  ghost predicate RepliesEncode(cfg: Config, raw: Bytes) {
    && Deserialize(raw).Ok?
    && var f := Deserialize(raw).value;
       forall g :: g in Replies(For(cfg, f.channelId), f) ==> Serialize(g).Ok?
  }

  lemma ArrivalEncodes(cfg: Config, n: Net, s: Side, raw: Bytes)
    requires cfg.Valid() && MuxInv(cfg, n) && raw in n.From(s.Other())
    ensures RepliesEncode(cfg, raw)
  {
    var f := ArrivingFrame(cfg, n, s, raw);
  }

  /**
   * Within the limits on ids and sequence numbers no frame a run builds is refused by the encoder:
   * neither the data frames a channel made, first sent or resent, nor the next one it makes, nor the
   * reply to any message in flight.  Every raw message fits one 64 KiB message of the tunnel.
   */
  lemma RangeSafety(cfg: Config, n: Net, s: Side, c: nat)
    requires cfg.Valid() && NReachable(cfg, n)
    ensures forall f :: f in ChanOf(n.At(s), c).out.log ==> Serialize(f).Ok? && f.TotalSize() <= cfg.mtu <= U16
    ensures forall i: nat :: NEnabled(n, NAttempt(s, c, i)) ==>
              var ch := n.At(s).chans[c]; Serialize(NextFrame(For(cfg, c), ch.out, i, ch.inn.rcv.next)).Ok?
    ensures forall raw :: raw in n.From(s.Other()) ==> RepliesEncode(cfg, raw)
    ensures forall raw :: raw in n.From(s) ==> Genuine(raw) && |raw| <= U16
  {
    ChannelsAreIndependent(cfg, n, s, c);
    assert Inv(For(cfg, c), View(n, s, c));
    assert ChanFits(ChanOf(n.At(s), c));
    forall i: nat | NEnabled(n, NAttempt(s, c, i))
      ensures var ch := n.At(s).chans[c]; NextFrame(For(cfg, c), ch.out, i, ch.inn.rcv.next).Fits()
    {
      EmittedFits(cfg, n, s, c, i);
    }
    forall raw | raw in n.From(s.Other())
      ensures RepliesEncode(cfg, raw)
    {
      ArrivalEncodes(cfg, n, s, raw);
    }
    forall raw | raw in n.From(s)
      ensures |raw| <= U16
    {
      RawFits(cfg, n, s, raw);
    }
  }

  lemma RawFits(cfg: Config, n: Net, s: Side, raw: Bytes)
    requires cfg.Valid() && MuxInv(cfg, n) && raw in n.From(s)
    ensures |raw| <= U16
  {
    assert Genuine(raw);
    var f := Deserialize(raw).value;
    if f.ftype == DATA {
      assert Carries(raw, DATA, f.channelId);
      assert f in View(n, s, f.channelId).data;
      assert Inv(For(cfg, f.channelId), View(n, s, f.channelId));
    }
  }
}
