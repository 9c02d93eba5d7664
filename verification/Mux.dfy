/**
 * Two multiplexers joined by one raw link that loses, duplicates and reorders messages.
 * All channels of both directions share the link, which carries serialized frames.
 *
 * Scope: `on_channel` is registered from the start and does not suspend (the handler in
 * proxy/http_server.py has no await); no `close_all`; ids and sequence numbers within
 * what the header holds.
 */
module Mux {
  import opened Wrappers
  import opened Frames
  import opened Fragmentation
  import opened Reliable
  import opened Endpoint
  import opened OneWay

  datatype Chan = Chan(out: SendSide, inn: RecvSide)

  const FRESH_CHAN := Chan(INIT_SEND, INIT_RECV)

  // `announced` records the calls of `on_channel`, by channel id.
  datatype Peer = Peer(nextId: nat, chans: map<nat, Chan>, announced: seq<nat>)

  datatype Side = Offerer | Answerer {
    function Other(): Side {
      if this.Offerer? then Answerer else Offerer
    }

    // Offerers allocate odd ids, answerers even ones.
    predicate Owns(id: nat) {
      if this.Offerer? then id % 2 == 1 else id % 2 == 0
    }
  }

  datatype Net = Net(clock: real, offerer: Peer, answerer: Peer, fromOfferer: set<Bytes>, fromAnswerer: set<Bytes>) {
    function At(s: Side): Peer {
      if s.Offerer? then offerer else answerer
    }

    function From(s: Side): set<Bytes> {
      if s.Offerer? then fromOfferer else fromAnswerer
    }

    function With(s: Side, p: Peer): Net {
      if s.Offerer? then this.(offerer := p) else this.(answerer := p)
    }

    function WithFrom(s: Side, link: set<Bytes>): Net {
      if s.Offerer? then this.(fromOfferer := link) else this.(fromAnswerer := link)
    }
  }

  function NInit(t: real): Net {
    Net(t, Peer(1, map[], []), Peer(2, map[], []), {}, {})
  }

  function For(cfg: Config, c: nat): Config {
    cfg.(channelId := c)
  }

  // A channel has its own id and otherwise the multiplexer's settings.
  lemma ForIs(cfg: Config, c: nat, d: Config)
    requires d.channelId == c && d.mtu == cfg.mtu && d.windowSize == cfg.windowSize
    requires d.maxRetransmits == cfg.maxRetransmits && d.baseRto == cfg.baseRto
    ensures For(cfg, c) == d
  {
    assert d == Config(d.channelId, d.mtu, d.windowSize, d.maxRetransmits, d.baseRto);
  }

  function ChanOf(p: Peer, c: nat): Chan {
    if c in p.chans then p.chans[c] else FRESH_CHAN
  }

  // `open_channel`
  function Open(p: Peer): Peer {
    p.(nextId := p.nextId + 2, chans := p.chans[p.nextId := FRESH_CHAN])
  }

  // `_get_or_create_remote_channel`, with the call of `on_channel` for a new channel.
  function GetOrCreate(p: Peer, c: nat): Peer {
    if c in p.chans then p else p.(chans := p.chans[c := FRESH_CHAN], announced := p.announced + [c])
  }

  // Up to its first suspension, `handle_frame` changes the channel and sends these frames.
  function Handle(cfg: Config, ch: Chan, f: Frame): Chan {
    match f.ftype
    case ACK => ch.(out := OnAck(cfg, ch.out, f.ack))
    case DATA => ch.(inn := OnArrive(ch.inn, f))
    case _ => ch
  }

  function Replies(cfg: Config, f: Frame): set<Frame> {
    match f.ftype
    case DATA => {AckFrame(cfg, f.seqNo + 1)}
    case PING => {Frame(PONG, 0, cfg.channelId, 0, f.seqNo, [])}
    case _ => {}
  }

  // What reaches the link: a frame that does not fit its header raises before `send_raw`.
  function Wire(fs: set<Frame>): set<Bytes> {
    set f | f in fs && f.Fits() :: Serialize(f).value
  }

  // Channel c of one peer becomes ch and sends fs.
  function Update(n: Net, s: Side, c: nat, ch: Chan, fs: set<Frame>): Net {
    var p := n.At(s);
    n.With(s, p.(chans := p.chans[c := ch])).WithFrom(s, n.From(s) + Wire(fs))
  }

  datatype NAction =
    | NTick(t: real)
    | NOpen(s: Side)
    | NSubmit(s: Side, c: nat, msg: Bytes)
    | NAttempt(s: Side, c: nat, i: nat)
    | NScan(s: Side, c: nat)
    | NArrive(s: Side, raw: Bytes)
    | NResume(s: Side, c: nat, f: Frame)
    | NIterate(s: Side, c: nat)
    | NLose(s: Side, raw: Bytes)

  // The limits: ids below 2^16, and at most 2^32 - 1 sequence numbers a channel.
  predicate NEnabled(n: Net, a: NAction) {
    match a
    case NTick(t) => n.clock <= t
    case NOpen(s) => n.At(s).nextId < U16
    case NSubmit(s, c, _) => c in n.At(s).chans
    case NAttempt(s, c, i) =>
      c in n.At(s).chans && CanAttempt(n.At(s).chans[c].out, i) && n.At(s).chans[c].out.snd.sendSeq < U32 - 1
    case NScan(s, c) => c in n.At(s).chans
    case NArrive(s, raw) => raw in n.From(s.Other())
    case NResume(s, c, f) => c in n.At(s).chans && f in n.At(s).chans[c].inn.pending
    case NIterate(s, c) => c in n.At(s).chans && n.At(s).chans[c].inn.draining > 0
    case NLose(_, _) => true
  }

  // The channel named by f is found, or created and announced, becomes ch and replies to f.
  function Deliver(cfg: Config, n: Net, s: Side, f: Frame, ch: Chan): Net {
    var c := f.channelId;
    Update(n.With(s, GetOrCreate(n.At(s), c)), s, c, ch, Replies(For(cfg, c), f))
  }

  // `handle_raw`, up to the first suspension in `handle_frame`.
  function HandleRaw(cfg: Config, n: Net, s: Side, raw: Bytes): Net {
    match Deserialize(raw)
    case Err(_) => n
    case Ok(f) => Deliver(cfg, n, s, f, Handle(For(cfg, f.channelId), ChanOf(n.At(s), f.channelId), f))
  }

  function NStep(cfg: Config, n: Net, a: NAction): Net
    requires cfg.Valid() && NEnabled(n, a)
  {
    match a
    case NTick(t) => n.(clock := t)
    case NOpen(s) => n.With(s, Open(n.At(s)))
    case NSubmit(s, c, msg) =>
      var ch := n.At(s).chans[c];
      Update(n, s, c, ch.(out := Submit(For(cfg, c), ch.out, msg)), {})
    case NAttempt(s, c, i) =>
      var ch := n.At(s).chans[c];
      var ack := ch.inn.rcv.next;
      Update(n, s, c, ch.(out := Attempt(For(cfg, c), ch.out, i, ack, n.clock)), Emitted(For(cfg, c), ch.out, i, ack))
    case NScan(s, c) =>
      var ch := n.At(s).chans[c];
      Update(n, s, c, ch.(out := OnScan(For(cfg, c), ch.out, n.clock)), Resent(For(cfg, c), ch.out, n.clock))
    case NArrive(s, raw) => HandleRaw(cfg, n, s, raw)
    case NResume(s, c, f) =>
      var ch := n.At(s).chans[c];
      Update(n, s, c, ch.(inn := Resume(ch.inn, f)), {})
    case NIterate(s, c) =>
      var ch := n.At(s).chans[c];
      Update(n, s, c, ch.(inn := Iterate(ch.inn)), {})
    case NLose(s, raw) => n.WithFrom(s, n.From(s) - {raw})
  }

  predicate NCanRun(cfg: Config, n: Net, acts: seq<NAction>)
    requires cfg.Valid()
    decreases |acts|
  {
    acts == [] || (NEnabled(n, acts[0]) && NCanRun(cfg, NStep(cfg, n, acts[0]), acts[1..]))
  }

  function NExec(cfg: Config, n: Net, acts: seq<NAction>): Net
    requires cfg.Valid() && NCanRun(cfg, n, acts)
    decreases |acts|
  {
    if acts == [] then n else NExec(cfg, NStep(cfg, n, acts[0]), acts[1..])
  }

  ghost predicate NReaches(cfg: Config, n: Net, n': Net)
    requires cfg.Valid()
  {
    exists acts :: NCanRun(cfg, n, acts) && NExec(cfg, n, acts) == n'
  }

  ghost predicate NReachable(cfg: Config, n: Net)
    requires cfg.Valid()
  {
    exists t :: NReaches(cfg, NInit(t), n)
  }

  lemma {:induction false} NExecSnoc(cfg: Config, n: Net, acts: seq<NAction>, a: NAction)
    requires cfg.Valid() && NCanRun(cfg, n, acts) && NEnabled(NExec(cfg, n, acts), a)
    ensures NCanRun(cfg, n, acts + [a]) && NExec(cfg, n, acts + [a]) == NStep(cfg, NExec(cfg, n, acts), a)
    decreases |acts|
  {
    if acts == [] {
      assert acts + [a] == [a] && [a][1..] == [] && NCanRun(cfg, NStep(cfg, n, a), []);
    } else {
      NExecSnoc(cfg, NStep(cfg, n, acts[0]), acts[1..], a);
      assert (acts + [a])[1..] == acts[1..] + [a];
    }
  }

  lemma NReachesSelf(cfg: Config, n: Net)
    requires cfg.Valid()
    ensures NReaches(cfg, n, n)
  {
    assert NCanRun(cfg, n, []);
  }

  lemma NReachesStep(cfg: Config, n0: Net, n: Net, a: NAction)
    requires cfg.Valid() && NReaches(cfg, n0, n) && NEnabled(n, a)
    ensures NReaches(cfg, n0, NStep(cfg, n, a))
  {
    var acts :| NCanRun(cfg, n0, acts) && NExec(cfg, n0, acts) == n;
    NExecSnoc(cfg, n0, acts, a);
  }

  lemma NReachableStep(cfg: Config, n: Net, a: NAction)
    requires cfg.Valid() && NReachable(cfg, n) && NEnabled(n, a)
    ensures NReachable(cfg, NStep(cfg, n, a))
  {
    var t :| NReaches(cfg, NInit(t), n);
    NReachesStep(cfg, NInit(t), n, a);
  }

  lemma UpdateTwice(n: Net, s: Side, c: nat, ch: Chan, fs: set<Frame>, ch': Chan)
    ensures Update(Update(n, s, c, ch, fs), s, c, ch', {}) == Update(n, s, c, ch', fs)
  {
    assert n.From(s) + Wire(fs) + Wire({}) == n.From(s) + Wire(fs);
    assert n.At(s).chans[c := ch][c := ch'] == n.At(s).chans[c := ch'];
  }

  lemma DeliverThenUpdate(cfg: Config, n: Net, s: Side, f: Frame, ch: Chan, ch': Chan)
    ensures Update(Deliver(cfg, n, s, f, ch), s, f.channelId, ch', {}) == Deliver(cfg, n, s, f, ch')
  {
    var c := f.channelId;
    UpdateTwice(n.With(s, GetOrCreate(n.At(s), c)), s, c, ch, Replies(For(cfg, c), f), ch');
  }

  // Arrival and resumption of a data frame that no other task is suspended beside.
  lemma ResumedReaches(cfg: Config, n0: Net, n: Net, s: Side, raw: Bytes, f: Frame)
    requires cfg.Valid() && NReaches(cfg, n0, n) && raw in n.From(s.Other())
    requires Deserialize(raw) == Ok(f) && f.ftype == DATA
    ensures var ch := ChanOf(n.At(s), f.channelId);
      NReaches(cfg, n0, Deliver(cfg, n, s, f, ch.(inn := Resume(OnArrive(ch.inn, f), f))))
  {
    var c := f.channelId;
    var ch := ChanOf(n.At(s), c);
    var ch1 := ch.(inn := OnArrive(ch.inn, f));
    NReachesStep(cfg, n0, n, NArrive(s, raw));
    var n1 := Deliver(cfg, n, s, f, ch1);
    assert n1 == NStep(cfg, n, NArrive(s, raw));
    NReachesStep(cfg, n0, n1, NResume(s, c, f));
    DeliverThenUpdate(cfg, n, s, f, ch1, ch.(inn := Resume(ch1.inn, f)));
  }

  // ------------------------------------------------------------ one channel's view

  predicate Carries(raw: Bytes, ft: FrameType, c: nat) {
    Deserialize(raw).Ok? && Deserialize(raw).value.ftype == ft && Deserialize(raw).value.channelId == c
  }

  function DataOn(link: set<Bytes>, c: nat): set<Frame> {
    set raw | raw in link && Carries(raw, DATA, c) :: Deserialize(raw).value
  }

  function AcksOn(link: set<Bytes>, c: nat): set<nat> {
    set raw | raw in link && Carries(raw, ACK, c) :: Deserialize(raw).value.ack
  }

  // Channel c in the direction away from s, as a system of its own.
  function View(n: Net, s: Side, c: nat): State {
    State(n.clock, ChanOf(n.At(s), c).out, ChanOf(n.At(s.Other()), c).inn,
          DataOn(n.From(s), c), AcksOn(n.From(s.Other()), c))
  }

  // What is on the link: encodings of data frames and of bare ACKs.
  ghost predicate Genuine(raw: Bytes) {
    && Deserialize(raw).Ok?
    && Serialize(Deserialize(raw).value) == Ok(raw)
    && var f := Deserialize(raw).value;
       f.ftype == DATA || f == Frame(ACK, 0, f.channelId, 0, f.ack, [])
  }

  ghost predicate LinkOk(link: set<Bytes>) {
    forall raw :: raw in link ==> Genuine(raw)
  }

  ghost predicate Sendable(fs: set<Frame>, c: nat) {
    forall f :: f in fs ==> f.Fits() && f.channelId == c && (f.ftype == DATA || f == Frame(ACK, 0, c, 0, f.ack, []))
  }

  function DataIn(fs: set<Frame>): set<Frame> {
    set f | f in fs && f.ftype == DATA
  }

  function AcksIn(fs: set<Frame>): set<nat> {
    set f | f in fs && f.ftype == ACK :: f.ack
  }

  lemma WireDecodes(f: Frame)
    requires f.Fits()
    ensures Deserialize(Serialize(f).value) == Ok(f)
  {
    DecodesExactly(Serialize(f).value, f);
  }

  // Sending on one channel adds to that channel's view of the link and to no other's.
  lemma WireViews(link: set<Bytes>, fs: set<Frame>, c: nat, c': nat)
    requires LinkOk(link) && Sendable(fs, c)
    ensures LinkOk(link + Wire(fs))
    ensures DataOn(link + Wire(fs), c') == DataOn(link, c') + if c' == c then DataIn(fs) else {}
    ensures AcksOn(link + Wire(fs), c') == AcksOn(link, c') + if c' == c then AcksIn(fs) else {}
  {
    forall f | f in fs
      ensures Deserialize(Serialize(f).value) == Ok(f) && Serialize(f).value in Wire(fs)
    {
      WireDecodes(f);
    }
    WireDataView(link, fs, c, c');
    WireAcksView(link, fs, c, c');
  }

  lemma WireDataView(link: set<Bytes>, fs: set<Frame>, c: nat, c': nat)
    requires Sendable(fs, c) && forall f :: f in fs ==> Deserialize(Serialize(f).value) == Ok(f)
    ensures DataOn(link + Wire(fs), c') == DataOn(link, c') + if c' == c then DataIn(fs) else {}
  {
  }

  lemma WireAcksView(link: set<Bytes>, fs: set<Frame>, c: nat, c': nat)
    requires Sendable(fs, c) && forall f :: f in fs ==> Deserialize(Serialize(f).value) == Ok(f)
    ensures AcksOn(link + Wire(fs), c') == AcksOn(link, c') + if c' == c then AcksIn(fs) else {}
  {
  }
}
