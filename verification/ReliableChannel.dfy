/**
 * The channel object: the fields of one end of a channel, updated in place.  Every method is
 * proved against the step functions of Reliable, whose runs are studied in OneWay.
 *
 * `wire` records what was passed to `send_raw`, in order.  A frame that does not fit its
 * header makes `serialize` raise, which ends the method with `Err`.
 */
module ReliableChannelClass {
  import opened Wrappers
  import opened Frames
  import opened Fragmentation
  import opened Reliable

  function Sent(wire: seq<Bytes>, f: Frame): seq<Bytes> {
    if f.Fits() then wire + [Serialize(f).value] else wire
  }

  function SentAll(wire: seq<Bytes>, fs: seq<Frame>): seq<Bytes>
    decreases |fs|
  {
    if fs == [] then wire
    else if !fs[0].Fits() then wire
    else SentAll(Sent(wire, fs[0]), fs[1..])
  }

  /** Frames that fit all go out, in order, after what went out before. */
  lemma {:induction false} SentAllInOrder(wire: seq<Bytes>, fs: seq<Frame>)
    requires forall g :: g in fs ==> g.Fits()
    ensures wire <= SentAll(wire, fs) && |SentAll(wire, fs)| == |wire| + |fs|
    ensures forall i :: 0 <= i < |fs| ==> SentAll(wire, fs)[|wire| + i] == Serialize(fs[i]).value
    decreases |fs|
  {
    if fs == [] {
    } else {
      var wire1 := wire + [Serialize(fs[0]).value];
      assert fs[0] in fs && forall g :: g in fs[1..] ==> g in fs;
      SentAllInOrder(wire1, fs[1..]);
      assert Sent(wire, fs[0]) == wire1;
      forall i | 0 <= i < |fs|
        ensures SentAll(wire, fs)[|wire| + i] == Serialize(fs[i]).value
      {
        if i > 0 {
          assert SentAll(wire1, fs[1..])[|wire1| + (i - 1)] == Serialize(fs[1..][i - 1]).value;
        }
      }
    }
  }

  // `send` up to its first wait: the sender, the wire, the pieces not handed over, and whether
  // encoding a frame raised.
  datatype Outcome = Outcome(snd: Sender, wire: seq<Bytes>, rest: seq<Piece>, raised: bool)

  function SendRun(cfg: Config, s: Sender, wire: seq<Bytes>, ps: seq<Piece>, ack: nat, now: real): Outcome
    decreases |ps|
  {
    if ps == [] then Outcome(s, wire, [], false)
    else if !HasRoom(cfg, s) then Outcome(Park(s), wire, ps, false)
    else
      var f := DataFrame(cfg, ps[0], s.sendSeq, ack);
      var s' := SendFrame(cfg, s, f, now);
      if !f.Fits() then Outcome(s', wire, ps[1..], true)
      else SendRun(cfg, s', Sent(wire, f), ps[1..], ack, now)
  }

  // The number of pieces there is room for.
  function RoomFor(cfg: Config, s: Sender, n: nat): nat {
    if |s.window| >= cfg.windowSize then 0
    else if n <= cfg.windowSize - |s.window| then n
    else cfg.windowSize - |s.window|
  }

  // The frames of the given pieces, numbered from n.
  function NewFrames(cfg: Config, ps: seq<Piece>, n: nat, ack: nat): (r: seq<Frame>)
    ensures |r| == |ps|
    ensures forall i :: 0 <= i < |ps| ==> r[i] == DataFrame(cfg, ps[i], n + i, ack)
    decreases |ps|
  {
    if ps == [] then [] else [DataFrame(cfg, ps[0], n, ack)] + NewFrames(cfg, ps[1..], n + 1, ack)
  }

  function NewEntries(cfg: Config, fs: seq<Frame>, now: real): seq<Unacked> {
    if fs == [] then [] else [Unacked(fs[0], now, 0, now + cfg.baseRto)] + NewEntries(cfg, fs[1..], now)
  }

  // With room for k pieces: the first k went out in order under consecutive numbers, and the
  // rest waits.
  ghost predicate SentInOrder(cfg: Config, s: Sender, wire: seq<Bytes>, ps: seq<Piece>, ack: nat, now: real,
                              k: nat, r: Outcome)
    requires k <= |ps|
  {
    var fs := NewFrames(cfg, ps[..k], s.sendSeq, ack);
    && !r.raised && r.rest == ps[k..]
    && r.wire == SentAll(wire, fs)
    && r.snd.sendSeq == s.sendSeq + k
    && r.snd.window == s.window + NewEntries(cfg, fs, now)
    && r.snd.available == (s.available && k == |ps|)
    && (forall f :: f in fs ==> f.Fits())
  }

  lemma SentInOrderStep(cfg: Config, s: Sender, wire: seq<Bytes>, ps: seq<Piece>, ack: nat, now: real,
                        k: nat, r: Outcome)
    requires 0 < k <= |ps|
    requires var f := DataFrame(cfg, ps[0], s.sendSeq, ack);
      f.Fits() && SentInOrder(cfg, SendFrame(cfg, s, f, now), Sent(wire, f), ps[1..], ack, now, k - 1, r)
    ensures SentInOrder(cfg, s, wire, ps, ack, now, k, r)
  {
    var f := DataFrame(cfg, ps[0], s.sendSeq, ack);
    var more := NewFrames(cfg, ps[1..][..k - 1], s.sendSeq + 1, ack);
    assert ps[..k][1..] == ps[1..][..k - 1] && ps[k..] == ps[1..][k - 1..];
    assert NewFrames(cfg, ps[..k], s.sendSeq, ack) == [f] + more;
    assert ([f] + more)[1..] == more;
    var entry := Unacked(f, now, 0, now + cfg.baseRto);
    assert NewEntries(cfg, [f] + more, now) == [entry] + NewEntries(cfg, more, now);
    Regroup(s.window, [entry], NewEntries(cfg, more, now));
  }

  /**
   * While every field fits, `send` hands over exactly as many pieces as there is room for, in order
   * and under consecutive numbers; the rest waits.
   */
  lemma {:induction false} SendRunMeaning(cfg: Config, s: Sender, wire: seq<Bytes>, ps: seq<Piece>, ack: nat, now: real)
    requires cfg.channelId < U16 && ack < U32 && s.sendSeq + |ps| <= U32
    requires forall p :: p in ps ==> |p.payload| < U16
    ensures SentInOrder(cfg, s, wire, ps, ack, now, RoomFor(cfg, s, |ps|), SendRun(cfg, s, wire, ps, ack, now))
    decreases |ps|
  {
    var k := RoomFor(cfg, s, |ps|);
    if k == 0 {
      assert ps[..0] == [] && ps[0..] == ps;
      assert s.window + [] == s.window;
    } else {
      var f := DataFrame(cfg, ps[0], s.sendSeq, ack);
      assert ps[0] in ps;
      var s' := SendFrame(cfg, s, f, now);
      SendRunMeaning(cfg, s', Sent(wire, f), ps[1..], ack, now);
      assert RoomFor(cfg, s', |ps| - 1) == k - 1;
      SentInOrderStep(cfg, s, wire, ps, ack, now, k, SendRun(cfg, s, wire, ps, ack, now));
    }
  }

  /**
   * `send` on a channel with room for the whole message, while every field fits: it makes
   * max(1, ceil(n / (mtu - 14))) frames under the next numbers and nothing is left to send.
   */
  lemma SendMakes(cfg: Config, s: Sender, wire: seq<Bytes>, data: Bytes, ack: nat, now: real)
    requires cfg.Valid() && cfg.channelId < U16 && ack < U32
    requires var n := if data == [] then 1 else (|data| + cfg.mtu - 15) / (cfg.mtu - 14);
      |s.window| + n <= cfg.windowSize && s.sendSeq + n <= U32
    ensures var n := if data == [] then 1 else (|data| + cfg.mtu - 15) / (cfg.mtu - 14);
      var r := SendRun(cfg, s, wire, Pieces(data, cfg.MaxPayload()), ack, now);
      && !r.raised && r.rest == [] && r.snd.sendSeq == s.sendSeq + n && |r.snd.window| == |s.window| + n
      && r.snd.available == s.available
  {
    var ps := Pieces(data, cfg.MaxPayload());
    MessageFrames(cfg, data);
    SendRunMeaning(cfg, s, wire, ps, ack, now);
    EntriesCount(cfg, NewFrames(cfg, ps[..|ps|], s.sendSeq, ack), now);
  }

  lemma {:induction false} EntriesCount(cfg: Config, fs: seq<Frame>, now: real)
    ensures |NewEntries(cfg, fs, now)| == |fs|
  {
    if fs == [] {
    } else {
      EntriesCount(cfg, fs[1..], now);
    }
  }

  lemma SendMakesIfRoom(cfg: Config, s: Sender, wire: seq<Bytes>, data: Bytes, ack: nat, now: real)
    requires cfg.Valid()
    ensures var n := if data == [] then 1 else (|data| + cfg.mtu - 15) / (cfg.mtu - 14);
      var r := SendRun(cfg, s, wire, Pieces(data, cfg.MaxPayload()), ack, now);
      cfg.channelId < U16 && ack < U32 && |s.window| + n <= cfg.windowSize && s.sendSeq + n <= U32 ==>
        !r.raised && r.rest == [] && r.snd.sendSeq == s.sendSeq + n && |r.snd.window| == |s.window| + n
  {
    var n := if data == [] then 1 else (|data| + cfg.mtu - 15) / (cfg.mtu - 14);
    if cfg.channelId < U16 && ack < U32 && |s.window| + n <= cfg.windowSize && s.sendSeq + n <= U32 {
      SendMakes(cfg, s, wire, data, ack, now);
    }
  }

  // One end of a channel as a value: the fields and what was passed to `send_raw`.
  datatype End = End(snd: Sender, rcv: Receiver, wire: seq<Bytes>)

  const NEW_END := End(INIT_SENDER, INIT_RECEIVER, [])

  function Pong(cfg: Config, f: Frame): Frame {
    Frame(PONG, 0, cfg.channelId, 0, f.seqNo, [])
  }

  // `handle_frame` with nothing interrupting it.
  function Handled(cfg: Config, e: End, f: Frame): End {
    match f.ftype
    case ACK => e.(snd := ProcessAck(cfg, e.snd, f.ack))
    case PING => e.(wire := Sent(e.wire, Pong(cfg, f)))
    case DATA =>
      var ack := AckFrame(cfg, f.seqNo + 1);
      e.(wire := Sent(e.wire, ack), rcv := if ack.Fits() then ProcessData(e.rcv, f) else e.rcv)
    case _ => e
  }

  // Whether the reply `handle_frame` makes, if any, can be encoded.
  predicate CanReply(cfg: Config, f: Frame) {
    (f.ftype == DATA ==> AckFrame(cfg, f.seqNo + 1).Fits()) && (f.ftype == PING ==> Pong(cfg, f).Fits())
  }

  class ReliableChannel {
    const cfg: Config
    var sendSeq: nat
    var window: seq<Unacked>
    var available: bool
    var recvNext: nat
    var recvBuffer: map<nat, Frame>
    var reassembly: seq<Bytes>
    var messages: seq<Bytes>
    var wire: seq<Bytes>

    function Snd(): Sender
      reads this
    {
      Sender(sendSeq, window, available)
    }

    function Rcv(): Receiver
      reads this
    {
      Receiver(recvNext, recvBuffer, Reading(messages, reassembly))
    }

    function State(): End
      reads this
    {
      End(Snd(), Rcv(), wire)
    }

    constructor (cfg: Config)
      ensures this.cfg == cfg && State() == NEW_END
      ensures sendSeq == 0 && window == [] && available
      ensures recvNext == 0 && recvBuffer == map[] && reassembly == [] && messages == [] && wire == []
    {
      this.cfg := cfg;
      sendSeq, window, available := 0, [], true;
      recvNext, recvBuffer, reassembly, messages := 0, map[], [], [];
      wire := [];
    }

    method SendRaw(f: Frame) returns (ok: bool)
      modifies this`wire
      ensures ok == f.Fits() && wire == Sent(old(wire), f)
    {
      var raw := Serialize(f);
      ok := raw.Ok?;
      if ok {
        wire := wire + [raw.value];
      }
    }

    /**
     * One pass through `_send_frame`: with the window full the event is cleared and the caller has
     * to wait; otherwise the frame takes the next number, enters the window and is sent.
     */
    method SendOrPark(ftype: FrameType, flags: nat, payload: Bytes, now: real) returns (r: Result<bool, FrameError>)
      modifies this`sendSeq, this`window, this`available, this`wire
      ensures |old(window)| >= cfg.windowSize ==>
                && r == Ok(false) && !available
                && sendSeq == old(sendSeq) && window == old(window) && wire == old(wire)
      ensures |old(window)| < cfg.windowSize ==>
                var f := Frame(ftype, flags, cfg.channelId, old(sendSeq), recvNext, payload);
                && sendSeq == old(sendSeq) + 1 && available == old(available)
                && window == old(window) + [Unacked(f, now, 0, now + cfg.baseRto)]
                && wire == (if f.Fits() then old(wire) + [Serialize(f).value] else old(wire))
                && r == if f.Fits() then Ok(true) else Err(OutOfRange)
    {
      if |window| >= cfg.windowSize {
        available := false;
        return Ok(false);
      }
      var seqNo := sendSeq;
      sendSeq := sendSeq + 1;
      var f := Frame(ftype, flags, cfg.channelId, seqNo, recvNext, payload);
      window := window + [Unacked(f, now, 0, now + cfg.baseRto)];
      var ok := SendRaw(f);
      r := if ok then Ok(true) else Err(OutOfRange);
    }

    /**
     * The pieces a `send` has not handed over yet, up to its next wait or until encoding one raises.
     * After the wait the original goes on with the rest, which is another call.
     */
    method HandOver(pieces: seq<Piece>, now: real) returns (rest: seq<Piece>, raised: bool)
      modifies this`sendSeq, this`window, this`available, this`wire
      ensures Outcome(Snd(), wire, rest, raised) == SendRun(cfg, old(Snd()), old(wire), pieces, recvNext, now)
    {
      rest := pieces;
      ghost var goal := SendRun(cfg, Snd(), wire, rest, recvNext, now);
      while rest != []
        invariant SendRun(cfg, Snd(), wire, rest, recvNext, now) == goal
        decreases |rest|
      {
        var p := rest[0];
        var r := SendOrPark(DATA, if p.more then 1 else 0, p.payload, now);
        if r == Ok(false) {
          return rest, false;
        }
        rest := rest[1..];
        if r.Err? {
          return rest, true;
        }
      }
      raised := false;
    }

    /** `send` up to its first wait, or until encoding a frame raises. */
    method Send(data: Bytes, now: real) returns (rest: seq<Piece>, raised: bool)
      requires cfg.Valid()
      modifies this`sendSeq, this`window, this`available, this`wire
      ensures Outcome(Snd(), wire, rest, raised)
              == SendRun(cfg, old(Snd()), old(wire), Pieces(data, cfg.MaxPayload()), recvNext, now)
      ensures var n := if data == [] then 1 else (|data| + cfg.mtu - 15) / (cfg.mtu - 14);
        cfg.channelId < U16 && recvNext < U32 && |old(window)| + n <= cfg.windowSize && old(sendSeq) + n <= U32 ==>
          !raised && rest == [] && sendSeq == old(sendSeq) + n && |window| == |old(window)| + n
    {
      SendMakesIfRoom(cfg, Snd(), wire, data, recvNext, now);
      var pieces := Plan(data, cfg.MaxPayload());
      rest, raised := HandOver(pieces, now);
    }

    /** `_process_ack`: every entry below the ACK leaves the window; with room the event is set. */
    method ProcessAckFrame(ack: nat)
      modifies this`window, this`available
      ensures Snd() == ProcessAck(cfg, old(Snd()), ack)
      ensures forall u :: u in window <==> u in old(window) && u.frame.seqNo >= ack
      ensures Ascending(old(window)) ==> Ascending(window)
      ensures available == (old(available) || |window| < cfg.windowSize)
    {
      KeepFromExact(window, ack);
      ghost var start := window;
      var i := 0;
      while i < |window|
        invariant 0 <= i <= |window|
        invariant sendSeq == old(sendSeq) && available == old(available)
        invariant window[..i] + KeepFrom(window[i..], ack) == KeepFrom(start, ack)
        decreases |window| - i
      {
        ghost var before := window;
        if window[i].frame.seqNo < ack {
          window := window[..i] + window[i + 1..];
          assert window[..i] == before[..i] && window[i..] == before[i..][1..];
        } else {
          assert window[i..][1..] == window[i + 1..];
          assert window[..i] + [window[i]] == window[..i + 1];
          i := i + 1;
        }
      }
      assert window[..i] == window && window[i..] == [];
      if |window| < cfg.windowSize {
        available := true;
      }
    }

    // The pass over a snapshot of the window; `resend` lists the frames to send again.
    method ScanWindow(now: real) returns (resend: seq<Frame>)
      modifies this`window
      ensures window == Rescan(cfg, old(window), now)
      ensures resend == Resends(cfg, old(window), now)
    {
      var kept, todo := [], window;
      resend := [];
      while todo != []
        invariant kept + Rescan(cfg, todo, now) == Rescan(cfg, old(window), now)
        invariant resend + Resends(cfg, todo, now) == Resends(cfg, old(window), now)
        invariant window == kept + todo
        decreases |todo|
      {
        ghost var kept0, todo0 := kept, todo;
        var u := todo[0];
        if now >= u.nextRetransmit {
          if u.count < cfg.maxRetransmits {
            var count := u.count + 1;
            var rto := cfg.baseRto * Pow2(count) as real;
            var v := u.(count := count, nextRetransmit := now + rto);
            kept := kept + [v];
            assert v == Bump(cfg, u, now);
            resend := resend + [u.frame];
          }
        } else {
          kept := kept + [u];
        }
        todo := todo[1..];
        window := kept + todo;
        assert Rescan(cfg, todo0, now) == kept[|kept0|..] + Rescan(cfg, todo, now);
      }
    }

    /**
     * One round of the retransmit loop: expired entries are dropped without setting the event, the
     * other due ones are counted, rescheduled and, after the pass, sent again in window order.
     */
    method RetransmitScan(now: real) returns (resend: seq<Frame>)
      modifies this`window, this`wire
      ensures Snd() == Scan(cfg, old(Snd()), now)
      ensures resend == Resends(cfg, old(window), now)
      ensures wire == SentAll(old(wire), resend)
      ensures Ascending(old(window)) ==>
                && InSequence(resend)
                && forall f :: f in resend <==>
                     exists u :: u in old(window) && now >= u.nextRetransmit && u.count < cfg.maxRetransmits
                                 && u.frame == f
    {
      if Ascending(window) {
        ResendsInOrder(cfg, window, now);
      }
      resend := ScanWindow(now);
      var j := 0;
      while j < |resend|
        invariant 0 <= j <= |resend|
        invariant Snd() == Scan(cfg, old(Snd()), now)
        invariant SentAll(wire, resend[j..]) == SentAll(old(wire), resend)
      {
        assert resend[j..][0] == resend[j];
        var ok := SendRaw(resend[j]);
        if !ok {
          return;
        }
        assert resend[j..][1..] == resend[j + 1..];
        j := j + 1;
      }
    }

    /**
     * What a task does with its frame between its ACK and the delivery loop; `enters` says whether it
     * goes into the loop.
     */
    method AcceptFrame(f: Frame) returns (enters: bool)
      modifies this`recvBuffer
      ensures enters == (f.seqNo >= recvNext) && Rcv() == Accept(old(Rcv()), f)
      ensures recvBuffer == if enters then old(recvBuffer)[f.seqNo := f] else old(recvBuffer)
    {
      enters := f.seqNo >= recvNext;
      if enters {
        recvBuffer := recvBuffer[f.seqNo := f];
      }
    }

    /** One test of the delivery loop: the next frame, if it is there, is consumed. */
    method DeliverNext() returns (consumed: bool)
      modifies this`recvNext, this`recvBuffer, this`reassembly, this`messages
      ensures consumed == (old(recvNext) in old(recvBuffer))
      ensures Rcv() == if consumed then Consume(old(Rcv())) else old(Rcv())
      ensures consumed ==>
                var g := old(recvBuffer)[old(recvNext)];
                && recvNext == old(recvNext) + 1 && recvBuffer == old(recvBuffer) - {old(recvNext)}
                && (if g.HasMoreFragments() then
                      reassembly == old(reassembly) + [g.payload] && messages == old(messages)
                    else
                      reassembly == [] && messages == old(messages) + [Join(old(reassembly) + [g.payload])])
    {
      consumed := recvNext in recvBuffer;
      if consumed {
        var g := recvBuffer[recvNext];
        recvBuffer := recvBuffer - {recvNext};
        recvNext := recvNext + 1;
        reassembly := reassembly + [g.payload];
        if !g.HasMoreFragments() {
          var full := Join(reassembly);
          reassembly := [];
          messages := messages + [full];
        }
      }
    }

    /**
     * `_process_data` with nothing interrupting it.  The ACK for `seqNo + 1` goes out first; if that
     * number does not fit the header, encoding it raises and the frame is not looked at.
     */
    method ProcessDataFrame(f: Frame) returns (ok: bool)
      modifies this`wire, this`recvNext, this`recvBuffer, this`reassembly, this`messages
      ensures ok == AckFrame(cfg, f.seqNo + 1).Fits()
      ensures wire == Sent(old(wire), AckFrame(cfg, f.seqNo + 1))
      ensures Rcv() == if ok then ProcessData(old(Rcv()), f) else old(Rcv())
    {
      ok := SendRaw(AckFrame(cfg, f.seqNo + 1));
      if !ok {
        return;
      }
      var more := AcceptFrame(f);
      ghost var accepted := Rcv();
      while more
        invariant wire == Sent(old(wire), AckFrame(cfg, f.seqNo + 1))
        invariant more ==> Drain(Rcv()) == Drain(accepted)
        invariant !more ==> Rcv() == ProcessData(old(Rcv()), f)
        invariant f.seqNo >= old(recvNext) ==> accepted == Accept(old(Rcv()), f)
        invariant more ==> f.seqNo >= old(recvNext)
        decreases |recvBuffer|, more
      {
        more := DeliverNext();
      }
    }

    /** `handle_frame`: ACK, PING and DATA are acted on; every other type changes nothing. */
    method HandleFrame(f: Frame) returns (ok: bool)
      modifies this
      ensures State() == Handled(cfg, old(State()), f) && ok == CanReply(cfg, f)
      ensures f.ftype == ACK ==>
                && Rcv() == old(Rcv()) && wire == old(wire) && sendSeq == old(sendSeq)
                && (forall u :: u in window <==> u in old(window) && u.frame.seqNo >= f.ack)
                && available == (old(available) || |window| < cfg.windowSize)
      ensures f.ftype == PING ==>
                var pong := Frame(PONG, 0, cfg.channelId, 0, f.seqNo, []);
                && Snd() == old(Snd()) && Rcv() == old(Rcv()) && ok == pong.Fits()
                && wire == if ok then old(wire) + [Serialize(pong).value] else old(wire)
      ensures f.ftype == DATA ==>
                var ack := Frame(ACK, 0, cfg.channelId, 0, f.seqNo + 1, []);
                && Snd() == old(Snd()) && ok == ack.Fits()
                && wire == (if ok then old(wire) + [Serialize(ack).value] else old(wire))
                && Rcv() == if ok then ProcessData(old(Rcv()), f) else old(Rcv())
      ensures f.ftype != ACK && f.ftype != PING && f.ftype != DATA ==> ok && State() == old(State())
    {
      ok := true;
      if f.ftype == ACK {
        ProcessAckFrame(f.ack);
      } else if f.ftype == PING {
        ok := SendRaw(Pong(cfg, f));
      } else if f.ftype == DATA {
        ok := ProcessDataFrame(f);
      }
    }
  }
}
