/**
 * One end of a reliable channel: the sending half (sequence numbers, send window,
 * retransmission) and the receiving half (reordering buffer, reassembly), as values
 * and step functions.  Each function is what the code does between two points where
 * it can be suspended.
 */
module Reliable {
  import opened Wrappers
  import opened Frames
  import opened Fragmentation

  datatype Config = Config(channelId: nat, mtu: nat, windowSize: nat, maxRetransmits: nat, baseRto: real) {
    predicate Valid() {
      && HEADER_SIZE < mtu <= U16
      && windowSize >= 1
      && baseRto > 0.0
    }

    function MaxPayload(): (r: nat)
      requires Valid()
      ensures 0 < r < U16
    {
      mtu - HEADER_SIZE
    }
  }

  // ---------------------------------------------------------------- sending

  // `UnackedFrame`: `count` is its retransmit_count.
  datatype Unacked = Unacked(frame: Frame, sentAt: real, count: nat, nextRetransmit: real)

  // The window is an insertion-ordered dictionary keyed by the frame's sequence number.
  datatype Sender = Sender(sendSeq: nat, window: seq<Unacked>, available: bool)

  const INIT_SENDER := Sender(0, [], true)

  function Pow2(n: nat): (r: nat)
    ensures r >= 1
  {
    if n == 0 then 1 else 2 * Pow2(n - 1)
  }

  function DataFrame(cfg: Config, p: Piece, seqNo: nat, ack: nat): Frame {
    Frame(DATA, if p.more then 1 else 0, cfg.channelId, seqNo, ack, p.payload)
  }

  // A piece followed by another one of its message fills its frame.
  ghost predicate Full(cfg: Config, p: Piece) {
    p.more ==> |p.payload| + 14 == cfg.mtu
  }

  /** What `send` cuts a message into: as many frames as it takes, all but the last of exactly mtu bytes. */
  lemma MessageFrames(cfg: Config, data: Bytes)
    requires cfg.Valid()
    ensures var ps := Pieces(data, cfg.MaxPayload()); var n := |ps|;
      && n == (if data == [] then 1 else (|data| + cfg.mtu - 15) / (cfg.mtu - 14))
      && (forall i :: 0 <= i < n ==> Full(cfg, ps[i]) && ps[i].more == (i < n - 1) && |ps[i].payload| + 14 <= cfg.mtu)
  {
    PiecesShape(data, cfg.MaxPayload());
  }

  function AckFrame(cfg: Config, ack: nat): Frame {
    Frame(ACK, 0, cfg.channelId, 0, ack, [])
  }

  predicate HasRoom(cfg: Config, s: Sender) {
    |s.window| < cfg.windowSize
  }

  // `_send_frame` when the window is full: the event is cleared and the caller waits.
  function Park(s: Sender): Sender {
    s.(available := false)
  }

  // `_send_frame` when the window has room.
  function SendFrame(cfg: Config, s: Sender, f: Frame, now: real): Sender {
    s.(sendSeq := s.sendSeq + 1, window := s.window + [Unacked(f, now, 0, now + cfg.baseRto)])
  }

  function KeepFrom(w: seq<Unacked>, n: nat): seq<Unacked> {
    if w == [] then []
    else if w[0].frame.seqNo < n then KeepFrom(w[1..], n)
    else [w[0]] + KeepFrom(w[1..], n)
  }

  // `_process_ack`
  function ProcessAck(cfg: Config, s: Sender, n: nat): Sender {
    var w := KeepFrom(s.window, n);
    s.(window := w, available := s.available || |w| < cfg.windowSize)
  }

  predicate Due(u: Unacked, now: real) {
    now >= u.nextRetransmit
  }

  predicate Expired(cfg: Config, u: Unacked, now: real) {
    Due(u, now) && u.count >= cfg.maxRetransmits
  }

  function Bump(cfg: Config, u: Unacked, now: real): Unacked {
    u.(count := u.count + 1, nextRetransmit := now + cfg.baseRto * Pow2(u.count + 1) as real)
  }

  // One pass of the retransmit loop over the window: what stays in it, and what is sent again.
  function Rescan(cfg: Config, w: seq<Unacked>, now: real): seq<Unacked> {
    if w == [] then []
    else
      var rest := Rescan(cfg, w[1..], now);
      if Expired(cfg, w[0], now) then rest
      else if Due(w[0], now) then [Bump(cfg, w[0], now)] + rest
      else [w[0]] + rest
  }

  function Resends(cfg: Config, w: seq<Unacked>, now: real): seq<Frame> {
    if w == [] then []
    else
      var rest := Resends(cfg, w[1..], now);
      if Due(w[0], now) && !Expired(cfg, w[0], now) then [w[0].frame] + rest else rest
  }

  function Scan(cfg: Config, s: Sender, now: real): Sender {
    s.(window := Rescan(cfg, s.window, now))
  }

  function Seqs(w: seq<Unacked>): set<nat> {
    set u | u in w :: u.frame.seqNo
  }

  // -------------------------------------------------------------- receiving

  // `reading` holds the messages passed to `on_message` so far and `_reassembly`.
  datatype Receiver = Receiver(next: nat, buffer: map<nat, Frame>, reading: Reading)

  const INIT_RECEIVER := Receiver(0, map[], Reading([], []))

  function PieceOf(f: Frame): Piece {
    Piece(f.HasMoreFragments(), f.payload)
  }

  // The duplicate check and the insertion into the reordering buffer.
  function Accept(r: Receiver, f: Frame): Receiver {
    if f.seqNo < r.next then r else r.(buffer := r.buffer[f.seqNo := f])
  }

  // One iteration of the delivery loop.
  function Consume(r: Receiver): Receiver
    requires r.next in r.buffer
  {
    Receiver(r.next + 1, r.buffer - {r.next}, Read(r.reading, PieceOf(r.buffer[r.next])))
  }

  // The delivery loop, run to its end.
  function Drain(r: Receiver): Receiver
    decreases |r.buffer|
  {
    if r.next in r.buffer then Drain(Consume(r)) else r
  }

  // `_process_data` after its ACK, when nothing interrupts it.
  function ProcessData(r: Receiver, f: Frame): Receiver {
    if f.seqNo < r.next then r else Drain(Accept(r, f))
  }

  // ------------------------------------------------------ facts about the window

  ghost predicate Ascending(w: seq<Unacked>) {
    forall i, j :: 0 <= i < j < |w| ==> w[i].frame.seqNo < w[j].frame.seqNo
  }

  // An ACK removes exactly the entries below it and keeps the order of the others.
  lemma {:induction false} KeepFromExact(w: seq<Unacked>, n: nat)
    ensures forall u :: u in KeepFrom(w, n) <==> u in w && u.frame.seqNo >= n
    ensures |KeepFrom(w, n)| <= |w|
    ensures Ascending(w) ==> Ascending(KeepFrom(w, n))
  {
    if w == [] {
    } else {
      var rest := KeepFrom(w[1..], n);
      KeepFromExact(w[1..], n);
      assert w == [w[0]] + w[1..];
      assert KeepFrom(w, n) == if w[0].frame.seqNo < n then rest else [w[0]] + rest;
    }
  }

  // What a scan makes of an entry that does not expire.
  function After(cfg: Config, u: Unacked, now: real): Unacked {
    if Due(u, now) then Bump(cfg, u, now) else u
  }

  ghost predicate ScannedFrom(cfg: Config, w: seq<Unacked>, v: Unacked, now: real) {
    exists u :: u in w && !Expired(cfg, u, now) && v == After(cfg, u, now)
  }

  // A scan keeps exactly the entries that do not expire, bumping exactly the due ones.
  lemma {:induction false} RescanMembers(cfg: Config, w: seq<Unacked>, now: real)
    ensures forall v :: v in Rescan(cfg, w, now) <==> ScannedFrom(cfg, w, v, now)
  {
    if w == [] {
    } else {
      var u, w', rest := w[0], Rescan(cfg, w, now), Rescan(cfg, w[1..], now);
      RescanMembers(cfg, w[1..], now);
      assert w == [u] + w[1..];
      forall v
        ensures v in w' <==> ScannedFrom(cfg, w, v, now)
      {
        assert v in w' <==> v in rest || (!Expired(cfg, u, now) && v == After(cfg, u, now));
      }
    }
  }

  // The frames sent again are exactly those of the entries due but not expired.
  lemma {:induction false} ResendsExact(cfg: Config, w: seq<Unacked>, now: real)
    ensures forall f :: f in Resends(cfg, w, now) <==>
              exists u :: u in w && Due(u, now) && !Expired(cfg, u, now) && u.frame == f
  {
    if w == [] {
    } else {
      ResendsExact(cfg, w[1..], now);
      assert w == [w[0]] + w[1..];
    }
  }

  lemma {:induction false} RescanAscending(cfg: Config, w: seq<Unacked>, now: real)
    requires Ascending(w)
    ensures Ascending(Rescan(cfg, w, now))
  {
    if w == [] {
    } else {
      var u, rest := w[0], Rescan(cfg, w[1..], now);
      RescanAscending(cfg, w[1..], now);
      RescanMembers(cfg, w[1..], now);
      forall v | v in rest
        ensures u.frame.seqNo < v.frame.seqNo
      {
        assert ScannedFrom(cfg, w[1..], v, now);
      }
      assert Rescan(cfg, w, now) == if Expired(cfg, u, now) then rest else [After(cfg, u, now)] + rest;
    }
  }

  // Order and length: the window shrinks exactly when something expires.
  lemma {:induction false} RescanOrder(cfg: Config, w: seq<Unacked>, now: real)
    ensures |Rescan(cfg, w, now)| <= |w|
    ensures |Rescan(cfg, w, now)| == |w| <==> forall u :: u in w ==> !Expired(cfg, u, now)
    ensures Ascending(w) ==> Ascending(Rescan(cfg, w, now))
  {
    if w == [] {
    } else {
      RescanOrder(cfg, w[1..], now);
      assert w == [w[0]] + w[1..];
      if Ascending(w) {
        RescanAscending(cfg, w, now);
      }
    }
  }

  /**
   * What one scan makes of an entry: not due, it stays as it is; due with a retry left, it stays,
   * counted, and put off by base_rto * 2^count; otherwise nothing of its number stays.
   */
  lemma EntryScanned(cfg: Config, s: Sender, now: real, u: Unacked)
    requires u in s.window && Ascending(s.window)
    ensures var w' := Scan(cfg, s, now).window;
      if now < u.nextRetransmit then
        u in w'
      else if u.count < cfg.maxRetransmits then
        Unacked(u.frame, u.sentAt, u.count + 1, now + cfg.baseRto * Pow2(u.count + 1) as real) in w'
      else
        u.frame.seqNo !in Seqs(w')
  {
    var w' := Scan(cfg, s, now).window;
    RescanMembers(cfg, s.window, now);
    if Expired(cfg, u, now) {
      forall v | v in w'
        ensures v.frame.seqNo != u.frame.seqNo
      {
        assert ScannedFrom(cfg, s.window, v, now);
        EntryUnique(s.window, u);
      }
    } else {
      assert ScannedFrom(cfg, s.window, After(cfg, u, now), now);
    }
  }

  lemma EntryUnique(w: seq<Unacked>, u: Unacked)
    requires Ascending(w) && u in w
    ensures forall v :: v in w && v.frame.seqNo == u.frame.seqNo ==> v == u
  {
    var i :| 0 <= i < |w| && w[i] == u;
    forall v | v in w && v.frame.seqNo == u.frame.seqNo
      ensures v == u
    {
      var j :| 0 <= j < |w| && w[j] == v;
      assert i == j;
    }
  }

  /** One scan adds no number, keeps the order, and leaves the event and the next number alone. */
  lemma ScanAddsNothing(cfg: Config, s: Sender, now: real)
    ensures Seqs(Scan(cfg, s, now).window) <= Seqs(s.window)
    ensures Ascending(s.window) ==> Ascending(Scan(cfg, s, now).window)
    ensures Scan(cfg, s, now).sendSeq == s.sendSeq && Scan(cfg, s, now).available == s.available
  {
    RescanMembers(cfg, s.window, now);
    RescanOrder(cfg, s.window, now);
    forall v | v in Scan(cfg, s, now).window
      ensures v.frame.seqNo in Seqs(s.window)
    {
      assert ScannedFrom(cfg, s.window, v, now);
    }
  }

  // Frames in the order of their numbers.
  ghost predicate InSequence(fs: seq<Frame>) {
    forall i, j :: 0 <= i < j < |fs| ==> fs[i].seqNo < fs[j].seqNo
  }

  /** The frames sent again are those due with retries left, each once, in the order of their numbers. */
  lemma {:induction false} ResendsInOrder(cfg: Config, w: seq<Unacked>, now: real)
    requires Ascending(w)
    ensures InSequence(Resends(cfg, w, now))
    ensures forall f :: f in Resends(cfg, w, now) <==>
              exists u :: u in w && now >= u.nextRetransmit && u.count < cfg.maxRetransmits && u.frame == f
  {
    ResendsExact(cfg, w, now);
    if w == [] {
    } else {
      var rest := Resends(cfg, w[1..], now);
      ResendsInOrder(cfg, w[1..], now);
      assert w == [w[0]] + w[1..];
      forall f | f in rest
        ensures w[0].frame.seqNo < f.seqNo
      {
        var u :| u in w[1..] && u.frame == f;
      }
      assert Resends(cfg, w, now) == rest || Resends(cfg, w, now) == [w[0].frame] + rest;
    }
  }

  // With nothing expired, a scan changes no position of the window.
  lemma {:induction false} RescanInPlace(cfg: Config, w: seq<Unacked>, now: real)
    requires forall u :: u in w ==> !Expired(cfg, u, now)
    ensures |Rescan(cfg, w, now)| == |w|
    ensures forall i :: 0 <= i < |w| ==> Rescan(cfg, w, now)[i] == After(cfg, w[i], now)
  {
    if w == [] {
    } else {
      RescanInPlace(cfg, w[1..], now);
      assert w == [w[0]] + w[1..];
    }
  }
}
