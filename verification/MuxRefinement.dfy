/**
 * The multiplexer object's methods, seen as runs of the two peers: what `HandleRaw` and
 * `OpenChannel` are proved to do to the object, steps of Mux do to the peer it stands for.
 */
module MuxRefinement {
  import opened Wrappers
  import opened Frames
  import opened Fragmentation
  import opened Reliable
  import opened Endpoint
  import opened OneWay
  import opened ReliableChannelClass
  import opened Mux
  import opened MuxSafety
  import Projection
  import MultiplexerClass

  // A peer's object: the next id, the ends of its channels by id, and the calls of `on_channel`.
  datatype Object = Object(nextId: nat, ends: map<nat, End>, announced: seq<nat>)

  function AfterRaw(cfg: Config, x: Object, raw: Bytes): Object {
    Object(x.nextId, MultiplexerClass.EndsAfter(cfg, x.ends, raw),
           MultiplexerClass.AnnouncedAfter(x.ends, x.announced, raw))
  }

  ghost predicate SameEnd(ch: Chan, e: End) {
    ch.out.snd == e.snd && ch.inn.rcv == e.rcv
  }

  // The object has the peer's next id, calls of `on_channel` and channels.
  ghost predicate StandsFor(x: Object, p: Peer) {
    && x.nextId == p.nextId && x.announced == p.announced && x.ends.Keys == p.chans.Keys
    && (forall c :: c in x.ends ==> SameEnd(p.chans[c], x.ends[c]))
  }

  function WireOf(ends: map<nat, End>, c: nat): seq<Bytes> {
    MultiplexerClass.EndOf(ends, c).wire
  }

  // What the object sent meanwhile, on channel c, is exactly what was put on the link.
  ghost predicate SentMeanwhile(ends: map<nat, End>, ends': map<nat, End>, c: nat,
                                link: set<Bytes>, link': set<Bytes>)
  {
    && (forall k :: k in ends && k != c ==> k in ends' && ends'[k].wire == ends[k].wire)
    && WireOf(ends, c) <= WireOf(ends', c)
    && link' == link + set raw | raw in WireOf(ends', c)[|WireOf(ends, c)|..]
  }

  /** A new object, with the first id its role gives it, stands for its peer before anything happened. */
  lemma NewStandsFor(t: real, s: Side)
    ensures StandsFor(Object(if s == Offerer then 1 else 2, map[], []), NInit(t).At(s))
  {
  }

  lemma UpdateSame(n: Net, s: Side, c: nat)
    requires c in n.At(s).chans
    ensures Update(n, s, c, n.At(s).chans[c], {}) == n
  {
    assert n.From(s) + Wire({}) == n.From(s);
    assert n.At(s).chans[c := n.At(s).chans[c]] == n.At(s).chans;
  }

  // The tasks in a delivery loop empty it.
  lemma {:induction false} FinishReaches(cfg: Config, n0: Net, n: Net, s: Side, c: nat)
    requires cfg.Valid() && NReaches(cfg, n0, n) && c in n.At(s).chans
    requires var inn := n.At(s).chans[c].inn; inn.draining > 0 || inn.rcv.next !in inn.rcv.buffer
    ensures var ch := n.At(s).chans[c];
      NReaches(cfg, n0, Update(n, s, c, ch.(inn := ch.inn.(rcv := Drain(ch.inn.rcv), draining := 0)), {}))
    decreases |n.At(s).chans[c].inn.rcv.buffer|, n.At(s).chans[c].inn.draining
  {
    var ch := n.At(s).chans[c];
    if ch.inn.draining == 0 {
      UpdateSame(n, s, c);
    } else {
      var ch' := ch.(inn := Iterate(ch.inn));
      NReachesStep(cfg, n0, n, NIterate(s, c));
      FinishReaches(cfg, n0, Update(n, s, c, ch', {}), s, c);
      UpdateTwice(n, s, c, ch', {}, ch.(inn := ch.inn.(rcv := Drain(ch.inn.rcv), draining := 0)));
    }
  }

  // A data frame processed to its end by its task, with no other task on its channel.
  lemma DataReaches(cfg: Config, n: Net, s: Side, raw: Bytes, f: Frame)
    requires cfg.Valid() && raw in n.From(s.Other()) && Deserialize(raw) == Ok(f) && f.ftype == DATA
    requires var inn := ChanOf(n.At(s), f.channelId).inn; Quiet(inn) && inn.rcv.next !in inn.rcv.buffer
    ensures var ch := ChanOf(n.At(s), f.channelId);
      NReaches(cfg, n, Deliver(cfg, n, s, f, ch.(inn := Whole(ch.inn, f))))
  {
    var c := f.channelId;
    var ch := ChanOf(n.At(s), c);
    var inn2 := Resume(OnArrive(ch.inn, f), f);
    NReachesSelf(cfg, n);
    ResumedReaches(cfg, n, n, s, raw, f);
    assert inn2.pending == multiset{};
    var n2 := Deliver(cfg, n, s, f, ch.(inn := inn2));
    if f.seqNo < ch.inn.rcv.next {
      assert inn2 == Whole(ch.inn, f);
    } else {
      FinishReaches(cfg, n, n2, s, c);
      DeliverThenUpdate(cfg, n, s, f, ch.(inn := inn2), ch.(inn := Whole(ch.inn, f)));
    }
  }

  // The receiving half after one frame processed to its end.
  function Whole(n: RecvSide, f: Frame): RecvSide {
    RecvSide(ProcessData(n.rcv, f), multiset{}, 0, n.arrived + {f})
  }

  // `handle_frame` to its end, on the channel of Mux.
  function HandledChan(cfg: Config, ch: Chan, f: Frame): Chan {
    match f.ftype
    case ACK => ch.(out := OnAck(cfg, ch.out, f.ack))
    case DATA => ch.(inn := Whole(ch.inn, f))
    case _ => ch
  }

  lemma HandledMatches(cfg: Config, ch: Chan, e: End, f: Frame)
    requires SameEnd(ch, e) && CanReply(cfg, f)
    ensures SameEnd(HandledChan(cfg, ch, f), Handled(cfg, e, f))
  {
  }

  lemma HandledWire(cfg: Config, e: End, f: Frame)
    requires CanReply(cfg, f)
    ensures var w := Handled(cfg, e, f).wire;
      e.wire <= w && (set raw | raw in w[|e.wire|..]) == Wire(Replies(cfg, f))
  {
    var w := Handled(cfg, e, f).wire;
    if f.ftype == DATA {
      assert w == e.wire + [Serialize(AckFrame(cfg, f.seqNo + 1)).value];
      assert w[|e.wire|..] == [Serialize(AckFrame(cfg, f.seqNo + 1)).value];
    } else if f.ftype == PING {
      assert w == e.wire + [Serialize(Pong(cfg, f)).value];
      assert w[|e.wire|..] == [Serialize(Pong(cfg, f)).value];
    } else {
      assert w == e.wire && w[|e.wire|..] == [];
    }
  }

  lemma DeliverPeer(cfg: Config, n: Net, s: Side, f: Frame, ch: Chan)
    ensures var n' := Deliver(cfg, n, s, f, ch); var c := f.channelId;
      && n'.From(s) == n.From(s) + Wire(Replies(For(cfg, c), f))
      && n'.At(s) == Peer(n.At(s).nextId, n.At(s).chans[c := ch],
                          if c in n.At(s).chans then n.At(s).announced else n.At(s).announced + [c])
      && n'.At(s.Other()) == n.At(s.Other()) && n'.From(s.Other()) == n.From(s.Other())
  {
    assert n.At(s).chans[f.channelId := FRESH_CHAN][f.channelId := ch] == n.At(s).chans[f.channelId := ch];
  }

  lemma HandledSent(cfg: Config, ends: map<nat, End>, c: nat, f: Frame, link: set<Bytes>)
    requires CanReply(cfg, f)
    ensures SentMeanwhile(ends, ends[c := Handled(cfg, MultiplexerClass.EndOf(ends, c), f)], c, link,
                          link + Wire(Replies(cfg, f)))
  {
    HandledWire(cfg, MultiplexerClass.EndOf(ends, c), f);
  }

  lemma DeliverStandsFor(cfg: Config, n: Net, s: Side, raw: Bytes, f: Frame, x: Object)
    requires Deserialize(raw) == Ok(f) && StandsFor(x, n.At(s)) && CanReply(For(cfg, f.channelId), f)
    ensures var c := f.channelId; var x' := AfterRaw(cfg, x, raw);
      var n' := Deliver(cfg, n, s, f, HandledChan(For(cfg, c), ChanOf(n.At(s), c), f));
      StandsFor(x', n'.At(s)) && SentMeanwhile(x.ends, x'.ends, c, n.From(s), n'.From(s))
  {
    var c := f.channelId;
    var e := MultiplexerClass.EndOf(x.ends, c);
    DeliverPeer(cfg, n, s, f, HandledChan(For(cfg, c), ChanOf(n.At(s), c), f));
    HandledSent(For(cfg, c), x.ends, c, f, n.From(s));
    HandledMatches(For(cfg, c), ChanOf(n.At(s), c), e, f);
    assert AfterRaw(cfg, x, raw).ends == x.ends[c := Handled(For(cfg, c), e, f)];
  }

  lemma QuietDrained(cfg: Config, n: Net, s: Side, c: nat)
    requires cfg.Valid() && MuxInv(cfg, n) && Quiet(ChanOf(n.At(s), c).inn)
    ensures var inn := ChanOf(n.At(s), c).inn; inn.rcv.next !in inn.rcv.buffer
  {
    assert Inv(For(cfg, c), View(n, s.Other(), c)) && s.Other().Other() == s;
  }

  /**
   * Handling a raw message to its end, with no other task on its channel, is a run of the two peers:
   * an arrival, then the steps of the one task it starts.  The object ends up standing for the peer
   * again, what it sent is what the run put on the link, and the other peer and its link stay.
   */
  lemma HandleRawIsRun(cfg: Config, n: Net, s: Side, raw: Bytes, x: Object) returns (n': Net)
    requires cfg.Valid() && NReachable(cfg, n) && raw in n.From(s.Other()) && StandsFor(x, n.At(s))
    requires Deserialize(raw).Ok? ==> Quiet(ChanOf(n.At(s), Deserialize(raw).value.channelId).inn)
    ensures NReaches(cfg, n, n') && StandsFor(AfterRaw(cfg, x, raw), n'.At(s))
    ensures Deserialize(raw).Ok?
    ensures SentMeanwhile(x.ends, AfterRaw(cfg, x, raw).ends, Deserialize(raw).value.channelId, n.From(s), n'.From(s))
    ensures n'.At(s.Other()) == n.At(s.Other()) && n'.From(s.Other()) == n.From(s.Other())
  {
    ChannelsAreIndependent(cfg, n, s, 0);
    var f := Projection.ArrivingFrame(cfg, n, s, raw);
    var c := f.channelId;
    assert f.ftype == DATA ==> AckFrame(For(cfg, c), f.seqNo + 1) in Replies(For(cfg, c), f);
    n' := Deliver(cfg, n, s, f, HandledChan(For(cfg, c), ChanOf(n.At(s), c), f));
    DeliverStandsFor(cfg, n, s, raw, f, x);
    DeliverPeer(cfg, n, s, f, HandledChan(For(cfg, c), ChanOf(n.At(s), c), f));
    if f.ftype == DATA {
      QuietDrained(cfg, n, s, c);
      DataReaches(cfg, n, s, raw, f);
    } else {
      NReachesSelf(cfg, n);
      NReachesStep(cfg, n, n, NArrive(s, raw));
    }
  }

  /** `open_channel` on the object is the opening step of the peer it stands for. */
  lemma OpenIsStep(cfg: Config, n: Net, s: Side, x: Object)
    requires cfg.Valid() && NReachable(cfg, n) && NEnabled(n, NOpen(s)) && StandsFor(x, n.At(s))
    ensures x.nextId !in x.ends
    ensures StandsFor(x.(nextId := x.nextId + 2, ends := x.ends[x.nextId := NEW_END]), Open(n.At(s)))
    ensures NStep(cfg, n, NOpen(s)) == n.With(s, Open(n.At(s)))
  {
    ChannelsAreIndependent(cfg, n, s, 0);
    FreshId(n, s);
  }
}
