/**
 * Every channel of the multiplexed link behaves as if it had a link of its own: each step
 * of the two peers is, seen on one channel in one direction, a step of OneWay or nothing.
 */
module Projection {
  import opened Wrappers
  import opened Frames
  import opened Fragmentation
  import opened Reliable
  import opened Endpoint
  import opened OneWay
  import opened Mux

  // Everything a channel has sent fits the header.
  ghost predicate ChanFits(ch: Chan) {
    && |ch.out.log| <= U32 - 1
    && forall k :: 0 <= k < |ch.out.log| ==> ch.out.log[k].Fits()
  }

  ghost predicate NetInv(cfg: Config, n: Net)
    requires cfg.Valid()
  {
    && LinkOk(n.fromOfferer) && LinkOk(n.fromAnswerer)
    && (forall s: Side, c: nat :: Inv(For(cfg, c), View(n, s, c)))
    && (forall s: Side, c: nat :: ChanFits(ChanOf(n.At(s), c)))
    && (forall s: Side, c: nat :: c in n.At(s).chans ==> c < U16)
  }

  // What an update of channel c at s does to the view of any channel, in both directions.
  lemma UpdateViews(n: Net, s: Side, c: nat, ch: Chan, fs: set<Frame>, c': nat)
    requires LinkOk(n.From(s)) && Sendable(fs, c)
    ensures var n' := Update(n, s, c, ch, fs);
      && LinkOk(n'.From(s)) && n'.From(s.Other()) == n.From(s.Other())
      && View(n', s, c') == (if c' != c then View(n, s, c')
           else View(n, s, c).(out := ch.out, data := View(n, s, c).data + DataIn(fs)))
      && View(n', s.Other(), c') == (if c' != c then View(n, s.Other(), c')
           else View(n, s.Other(), c).(inn := ch.inn, acks := View(n, s.Other(), c).acks + AcksIn(fs)))
  {
    WireViews(n.From(s), fs, c, c');
  }

  lemma CreateViews(n: Net, s: Side, c: nat, v: Side, c': nat)
    ensures View(n.With(s, GetOrCreate(n.At(s), c)), v, c') == View(n, v, c')
  {
  }

  lemma OpenViews(n: Net, s: Side, v: Side, c': nat)
    requires n.At(s).nextId !in n.At(s).chans
    ensures View(n.With(s, Open(n.At(s))), v, c') == View(n, v, c')
  {
  }

  // ------------------------------------------------- what is sent fits the header

  lemma EmittedFits(cfg: Config, n: Net, s: Side, c: nat, i: nat)
    requires cfg.Valid() && NetInv(cfg, n) && NEnabled(n, NAttempt(s, c, i))
    ensures Sendable(Emitted(For(cfg, c), n.At(s).chans[c].out, i, n.At(s).chans[c].inn.rcv.next), c)
    ensures NextFrame(For(cfg, c), n.At(s).chans[c].out, i, n.At(s).chans[c].inn.rcv.next).Fits()
  {
    var ch := n.At(s).chans[c];
    assert ChanOf(n.At(s), c) == ch;
    assert Inv(For(cfg, c), View(n, s, c));
    assert Inv(For(cfg, c), View(n, s.Other(), c)) && s.Other().Other() == s;
    assert ChanFits(ChanOf(n.At(s.Other()), c));
    assert ch.out.tasks[i] in ch.out.tasks && ch.out.tasks[i].rest[0] in ch.out.tasks[i].rest;
  }

  lemma ResentFits(cfg: Config, n: Net, s: Side, c: nat)
    requires cfg.Valid() && NetInv(cfg, n) && c in n.At(s).chans
    ensures Sendable(Resent(For(cfg, c), n.At(s).chans[c].out, n.clock), c)
  {
    assert Inv(For(cfg, c), View(n, s, c));
    assert ChanFits(ChanOf(n.At(s), c));
    OnScanInv(For(cfg, c), n.At(s).chans[c].out, n.clock);
  }

  lemma DataInLog(cfg: Config, n: Net, s: Side, c: nat, f: Frame)
    requires cfg.Valid() && NetInv(cfg, n) && f in View(n, s, c).data
    ensures f.seqNo + 1 < U32
  {
  }

  lemma ArrivingFrame(cfg: Config, n: Net, s: Side, raw: Bytes) returns (f: Frame)
    requires cfg.Valid() && NetInv(cfg, n) && raw in n.From(s.Other())
    ensures Deserialize(raw) == Ok(f) && f.Fits()
    ensures f.ftype == DATA || f.ftype == ACK
    ensures Sendable(Replies(For(cfg, f.channelId), f), f.channelId)
    ensures f.ftype == DATA ==> f in View(n, s.Other(), f.channelId).data
    ensures f.ftype == ACK ==> f.ack in View(n, s, f.channelId).acks
  {
    assert Genuine(raw);
    f := Deserialize(raw).value;
    AcceptedIsSerialized(raw);
    var c := f.channelId;
    if f.ftype == DATA {
      assert Carries(raw, DATA, c);
      assert f in View(n, s.Other(), c).data;
      DataInLog(cfg, n, s.Other(), c, f);
    } else {
      assert Carries(raw, ACK, c);
    }
  }

  // --------------------------------------------------------------- the projection

  // The step that channel c, away from v, sees in a step of the two peers.
  function Seen(n: Net, a: NAction, v: Side, c: nat): Option<Action>
    requires NEnabled(n, a)
  {
    match a
    case NTick(t) => Some(Tick(t))
    case NOpen(_) => None
    case NSubmit(s, c0, msg) => if c == c0 && v == s then Some(DoSubmit(msg)) else None
    case NAttempt(s, c0, i) => if c == c0 && v == s then Some(DoAttempt(i, n.At(s).chans[c].inn.rcv.next)) else None
    case NScan(s, c0) => if c == c0 && v == s then Some(DoScan) else None
    case NArrive(s, raw) =>
      if Carries(raw, DATA, c) && v == s.Other() then Some(ArriveData(Deserialize(raw).value))
      else if Carries(raw, ACK, c) && v == s then Some(ArriveAck(Deserialize(raw).value.ack))
      else None
    case NResume(s, c0, f) => if c == c0 && v == s.Other() then Some(DoResume(f)) else None
    case NIterate(s, c0) => if c == c0 && v == s.Other() then Some(DoIterate) else None
    case NLose(s, raw) =>
      if raw !in n.From(s) then None
      else if Carries(raw, DATA, c) && v == s then Some(LoseData(Deserialize(raw).value))
      else if Carries(raw, ACK, c) && v == s.Other() then Some(LoseAck(Deserialize(raw).value.ack))
      else None
  }

  ghost predicate Sees(cfg: Config, n: Net, n': Net, v: Side, c: nat, b: Option<Action>)
    requires cfg.Valid()
  {
    match b
    case None => View(n', v, c) == View(n, v, c)
    case Some(act) => Enabled(View(n, v, c), act) && View(n', v, c) == Step(For(cfg, c), View(n, v, c), act)
  }

  // What the delivery of f at s does to the two views of any channel.
  lemma DeliverViews(cfg: Config, n: Net, s: Side, f: Frame, ch: Chan, c: nat)
    requires LinkOk(n.From(s)) && Sendable(Replies(For(cfg, f.channelId), f), f.channelId)
    ensures var n' := Deliver(cfg, n, s, f, ch); var fs := Replies(For(cfg, f.channelId), f);
      && View(n', s, c) == (if c != f.channelId then View(n, s, c)
           else View(n, s, c).(out := ch.out, data := View(n, s, c).data + DataIn(fs)))
      && View(n', s.Other(), c) == (if c != f.channelId then View(n, s.Other(), c)
           else View(n, s.Other(), c).(inn := ch.inn, acks := View(n, s.Other(), c).acks + AcksIn(fs)))
  {
    var c0 := f.channelId;
    var n1 := n.With(s, GetOrCreate(n.At(s), c0));
    CreateViews(n, s, c0, s, c);
    CreateViews(n, s, c0, s.Other(), c);
    assert n1.From(s) == n.From(s);
    UpdateViews(n1, s, c0, ch, Replies(For(cfg, c0), f), c);
  }

  lemma ReplyViews(cfg: Config, f: Frame)
    requires f.ftype == DATA || f.ftype == ACK
    ensures DataIn(Replies(cfg, f)) == {}
    ensures AcksIn(Replies(cfg, f)) == if f.ftype == DATA then {f.seqNo + 1} else {}
  {
    assert f.ftype == DATA ==> Replies(cfg, f) == {AckFrame(cfg, f.seqNo + 1)};
  }

  // A data frame at s: only the view towards s, on its channel, changes.
  lemma DataViews(cfg: Config, n: Net, s: Side, f: Frame, inn: RecvSide, c: nat)
    requires LinkOk(n.From(s)) && f.ftype == DATA && Sendable(Replies(For(cfg, f.channelId), f), f.channelId)
    ensures var n' := Deliver(cfg, n, s, f, ChanOf(n.At(s), f.channelId).(inn := inn));
      && View(n', s, c) == View(n, s, c)
      && var x := View(n, s.Other(), c);
         View(n', s.Other(), c) == if c != f.channelId then x else x.(inn := inn, acks := x.acks + {f.seqNo + 1})
  {
    DeliverViews(cfg, n, s, f, ChanOf(n.At(s), f.channelId).(inn := inn), c);
    ReplyViews(For(cfg, f.channelId), f);
  }

  // An ACK at s: only the view away from s, on its channel, changes.
  lemma AckViews(cfg: Config, n: Net, s: Side, f: Frame, c: nat)
    requires LinkOk(n.From(s)) && f.ftype == ACK
    ensures var ch := ChanOf(n.At(s), f.channelId); var out := OnAck(For(cfg, f.channelId), ch.out, f.ack);
      var n' := Deliver(cfg, n, s, f, ch.(out := out)); var x := View(n, s, c);
      && View(n', s, c) == (if c != f.channelId then x else x.(out := out))
      && View(n', s.Other(), c) == View(n, s.Other(), c)
  {
    var ch := ChanOf(n.At(s), f.channelId);
    DeliverViews(cfg, n, s, f, ch.(out := OnAck(For(cfg, f.channelId), ch.out, f.ack)), c);
    ReplyViews(For(cfg, f.channelId), f);
  }

  lemma DataStep(cfg: Config, x: State, f: Frame)
    requires cfg.Valid() && f in x.data
    ensures Enabled(x, ArriveData(f))
    ensures Step(cfg, x, ArriveData(f)) == x.(inn := OnArrive(x.inn, f), acks := x.acks + {f.seqNo + 1})
  {
  }

  lemma SeeData(cfg: Config, n: Net, s: Side, raw: Bytes, f: Frame, v: Side, c: nat)
    requires cfg.Valid() && LinkOk(n.From(s)) && raw in n.From(s.Other())
    requires Deserialize(raw) == Ok(f) && f.ftype == DATA && f in View(n, s.Other(), f.channelId).data
    requires Sendable(Replies(For(cfg, f.channelId), f), f.channelId)
    ensures Sees(cfg, n, HandleRaw(cfg, n, s, raw), v, c, Seen(n, NArrive(s, raw), v, c))
  {
    DataViews(cfg, n, s, f, OnArrive(ChanOf(n.At(s), f.channelId).inn, f), c);
    if c == f.channelId && v == s.Other() {
      DataStep(For(cfg, c), View(n, v, c), f);
      assert Seen(n, NArrive(s, raw), v, c) == Some(ArriveData(f));
    } else {
      assert Seen(n, NArrive(s, raw), v, c) == None;
    }
  }

  lemma AckStep(cfg: Config, x: State, k: nat)
    requires cfg.Valid() && k in x.acks
    ensures Enabled(x, ArriveAck(k)) && Step(cfg, x, ArriveAck(k)) == x.(out := OnAck(cfg, x.out, k))
  {
  }

  lemma SeeAck(cfg: Config, n: Net, s: Side, raw: Bytes, f: Frame, v: Side, c: nat)
    requires cfg.Valid() && LinkOk(n.From(s)) && raw in n.From(s.Other())
    requires Deserialize(raw) == Ok(f) && f.ftype == ACK && f.ack in View(n, s, f.channelId).acks
    ensures Sees(cfg, n, HandleRaw(cfg, n, s, raw), v, c, Seen(n, NArrive(s, raw), v, c))
  {
    AckViews(cfg, n, s, f, c);
    if c == f.channelId && v == s {
      AckStep(For(cfg, c), View(n, v, c), f.ack);
      assert Seen(n, NArrive(s, raw), v, c) == Some(ArriveAck(f.ack));
    } else {
      assert Seen(n, NArrive(s, raw), v, c) == None;
    }
  }

  lemma LossViews(n: Net, s: Side, raw: Bytes, c: nat)
    requires LinkOk(n.From(s)) && raw in n.From(s)
    ensures var n' := n.WithFrom(s, n.From(s) - {raw});
      && View(n', s, c)
         == View(n, s, c).(data := View(n, s, c).data - if Carries(raw, DATA, c) then {Deserialize(raw).value} else {})
      && View(n', s.Other(), c)
         == View(n, s.Other(), c).(acks := View(n, s.Other(), c).acks
                                          - if Carries(raw, ACK, c) then {Deserialize(raw).value.ack} else {})
  {
    LoseViews(n.From(s), raw, c);
  }

  lemma LossStep(cfg: Config, x: State, f: Frame, k: nat)
    requires cfg.Valid()
    ensures Enabled(x, LoseData(f)) && Step(cfg, x, LoseData(f)) == x.(data := x.data - {f})
    ensures Enabled(x, LoseAck(k)) && Step(cfg, x, LoseAck(k)) == x.(acks := x.acks - {k})
  {
  }

  lemma SeeLoss(cfg: Config, n: Net, s: Side, raw: Bytes, v: Side, c: nat)
    requires cfg.Valid() && LinkOk(n.From(s)) && raw in n.From(s)
    ensures Sees(cfg, n, n.WithFrom(s, n.From(s) - {raw}), v, c, Seen(n, NLose(s, raw), v, c))
  {
    LossViews(n, s, raw, c);
    assert Genuine(raw);
    var f := Deserialize(raw).value;
    LossStep(For(cfg, c), View(n, v, c), f, f.ack);
    if Carries(raw, DATA, c) {
      assert Seen(n, NLose(s, raw), v, c) == if v == s then Some(LoseData(f)) else None;
    } else if Carries(raw, ACK, c) {
      assert Seen(n, NLose(s, raw), v, c) == if v == s then None else Some(LoseAck(f.ack));
    } else {
      assert Seen(n, NLose(s, raw), v, c) == None;
    }
  }

  // Losing a raw message removes one frame, or one ACK number, from one channel's view.
  lemma LoseViews(link: set<Bytes>, raw: Bytes, c: nat)
    requires LinkOk(link) && raw in link
    ensures DataOn(link - {raw}, c) == DataOn(link, c) - if Carries(raw, DATA, c) then {Deserialize(raw).value} else {}
    ensures AcksOn(link - {raw}, c)
            == AcksOn(link, c) - if Carries(raw, ACK, c) then {Deserialize(raw).value.ack} else {}
  {
  }

  lemma SeeAttempt(cfg: Config, n: Net, s: Side, c0: nat, i: nat, v: Side, c: nat)
    requires cfg.Valid() && LinkOk(n.From(s)) && NEnabled(n, NAttempt(s, c0, i))
    requires Sendable(Emitted(For(cfg, c0), n.At(s).chans[c0].out, i, n.At(s).chans[c0].inn.rcv.next), c0)
    ensures Sees(cfg, n, NStep(cfg, n, NAttempt(s, c0, i)), v, c, Seen(n, NAttempt(s, c0, i), v, c))
  {
    var ch := n.At(s).chans[c0];
    var ack := ch.inn.rcv.next;
    var fs := Emitted(For(cfg, c0), ch.out, i, ack);
    UpdateViews(n, s, c0, ch.(out := Attempt(For(cfg, c0), ch.out, i, ack, n.clock)), fs, c);
    assert DataIn(fs) == fs && AcksIn(fs) == {};
  }

  lemma SeeScan(cfg: Config, n: Net, s: Side, c0: nat, v: Side, c: nat)
    requires cfg.Valid() && LinkOk(n.From(s)) && NEnabled(n, NScan(s, c0))
    requires var fs := Resent(For(cfg, c0), n.At(s).chans[c0].out, n.clock);
      Sendable(fs, c0) && DataIn(fs) == fs && AcksIn(fs) == {}
    ensures Sees(cfg, n, NStep(cfg, n, NScan(s, c0)), v, c, Seen(n, NScan(s, c0), v, c))
  {
    var ch := n.At(s).chans[c0];
    UpdateViews(n, s, c0, ch.(out := OnScan(For(cfg, c0), ch.out, n.clock)), Resent(For(cfg, c0), ch.out, n.clock), c);
  }

  lemma OnlyData(cfg: Config, n: Net, s: Side, c: nat)
    requires cfg.Valid() && NetInv(cfg, n) && c in n.At(s).chans
    ensures DataIn(Resent(For(cfg, c), n.At(s).chans[c].out, n.clock))
            == Resent(For(cfg, c), n.At(s).chans[c].out, n.clock)
    ensures AcksIn(Resent(For(cfg, c), n.At(s).chans[c].out, n.clock)) == {}
  {
    assert Inv(For(cfg, c), View(n, s, c));
    OnScanInv(For(cfg, c), n.At(s).chans[c].out, n.clock);
  }

  // A step of s on channel c0 that sends nothing.
  lemma SilentViews(n: Net, s: Side, c0: nat, ch: Chan, c: nat)
    requires LinkOk(n.From(s))
    ensures View(Update(n, s, c0, ch, {}), s, c) == (if c == c0 then View(n, s, c).(out := ch.out) else View(n, s, c))
    ensures View(Update(n, s, c0, ch, {}), s.Other(), c)
            == (if c == c0 then View(n, s.Other(), c).(inn := ch.inn) else View(n, s.Other(), c))
  {
  }

  lemma SeeSubmit(cfg: Config, n: Net, s: Side, c0: nat, msg: Bytes, v: Side, c: nat)
    requires cfg.Valid() && LinkOk(n.From(s)) && NEnabled(n, NSubmit(s, c0, msg))
    ensures Sees(cfg, n, NStep(cfg, n, NSubmit(s, c0, msg)), v, c, Seen(n, NSubmit(s, c0, msg), v, c))
  {
    var ch := n.At(s).chans[c0];
    SilentViews(n, s, c0, ch.(out := Submit(For(cfg, c0), ch.out, msg)), c);
  }

  lemma SeeResume(cfg: Config, n: Net, s: Side, c0: nat, f: Frame, v: Side, c: nat)
    requires cfg.Valid() && LinkOk(n.From(s)) && NEnabled(n, NResume(s, c0, f))
    ensures Sees(cfg, n, NStep(cfg, n, NResume(s, c0, f)), v, c, Seen(n, NResume(s, c0, f), v, c))
  {
    var ch := n.At(s).chans[c0];
    SilentViews(n, s, c0, ch.(inn := Resume(ch.inn, f)), c);
  }

  lemma SeeIterate(cfg: Config, n: Net, s: Side, c0: nat, v: Side, c: nat)
    requires cfg.Valid() && LinkOk(n.From(s)) && NEnabled(n, NIterate(s, c0))
    ensures Sees(cfg, n, NStep(cfg, n, NIterate(s, c0)), v, c, Seen(n, NIterate(s, c0), v, c))
  {
    var ch := n.At(s).chans[c0];
    SilentViews(n, s, c0, ch.(inn := Iterate(ch.inn)), c);
  }

  /** Every step is, seen on channel c away from v, one step of OneWay or nothing at all. */
  lemma ProjectStep(cfg: Config, n: Net, a: NAction, v: Side, c: nat)
    requires cfg.Valid() && NetInv(cfg, n) && NEnabled(n, a)
    requires a.NOpen? ==> n.At(a.s).nextId !in n.At(a.s).chans
    ensures Sees(cfg, n, NStep(cfg, n, a), v, c, Seen(n, a, v, c))
  {
    match a
    case NTick(t) =>
    case NOpen(s) => OpenViews(n, s, v, c);
    case NAttempt(s, c0, i) =>
      EmittedFits(cfg, n, s, c0, i);
      SeeAttempt(cfg, n, s, c0, i, v, c);
    case NScan(s, c0) =>
      ResentFits(cfg, n, s, c0);
      OnlyData(cfg, n, s, c0);
      SeeScan(cfg, n, s, c0, v, c);
    case NArrive(s, raw) =>
      var f := ArrivingFrame(cfg, n, s, raw);
      if f.ftype == DATA {
        SeeData(cfg, n, s, raw, f, v, c);
      } else {
        SeeAck(cfg, n, s, raw, f, v, c);
      }
    case NLose(s, raw) =>
      if raw in n.From(s) {
        SeeLoss(cfg, n, s, raw, v, c);
      } else {
        assert n.From(s) - {raw} == n.From(s);
      }
    case NSubmit(s, c0, msg) => SeeSubmit(cfg, n, s, c0, msg, v, c);
    case NResume(s, c0, f) => SeeResume(cfg, n, s, c0, f, v, c);
    case NIterate(s, c0) => SeeIterate(cfg, n, s, c0, v, c);
  }
}
