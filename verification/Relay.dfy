/**
 * The CONNECT relay, end to end: chunks read at the near socket, encrypted, sent on a
 * multiplexed channel, delivered, queued, decrypted, and written at the far socket.
 *
 * The relay starts after the `lead` messages of the handshake, once the far relay handler
 * has replaced `on_message`.
 */
module Relay {
  import opened Wrappers
  import opened Frames
  import opened Fragmentation
  import opened Reliable
  import opened Endpoint
  import opened OneWay
  import opened Pipeline
  import Mux
  import MuxSafety
  import MuxFifo
  import OrderedNet

  // What the near relay passes to `send` for the chunks it read.
  function Sealed(p: Pipe, chunks: seq<Bytes>, nonces: seq<seq<Bytes>>): (r: seq<Bytes>)
    requires |nonces| == |chunks| && forall i :: 0 <= i < |nonces| ==> |nonces[i]| == |p.ciphers|
    ensures |r| == |chunks|
    ensures forall i :: 0 <= i < |chunks| ==> r[i] == Process(p, chunks[i], nonces[i])
  {
    if chunks == [] then []
    else [Process(p, chunks[0], nonces[0])] + Sealed(p, chunks[1..], nonces[1..])
  }

  // What the far relay writes for the messages it took from its queue.
  function Written(p: Pipe, queue: seq<Bytes>): Option<Bytes> {
    if queue == [] then Some([])
    else
      match Unprocess(p, queue[0])
      case None => None
      case Some(x) =>
        match Written(p, queue[1..])
        case None => None
        case Some(y) => Some(x + y)
  }

  /** What is written is what the messages taken open to, one after another, and only if all of them open. */
  lemma {:induction false} WrittenExactly(p: Pipe, queue: seq<Bytes>, w: Bytes)
    ensures Written(p, queue) == Some(w)
            <==> exists parts :: OpenTo(p, queue, parts) && w == Join(parts)
  {
    if queue == [] {
      assert Written(p, queue) == Some([]);
      if w == [] {
        var none: seq<Bytes> := [];
        assert OpenTo(p, queue, none) && Join(none) == w;
      }
      forall parts | OpenTo(p, queue, parts)
        ensures Join(parts) == []
      {
        assert parts == [];
      }
    } else {
      if Written(p, queue) == Some(w) {
        var x, y := Unprocess(p, queue[0]).value, Written(p, queue[1..]).value;
        WrittenExactly(p, queue[1..], y);
        var rest :| OpenTo(p, queue[1..], rest) && y == Join(rest);
        JoinCons(x, rest);
        OpenToCons(p, queue, x, rest);
      }
      forall parts | OpenTo(p, queue, parts)
        ensures Written(p, queue) == Some(Join(parts))
      {
        assert OpenTo(p, queue[1..], parts[1..]);
        WrittenExactly(p, queue[1..], Join(parts[1..]));
        JoinCons(parts[0], parts[1..]);
        assert parts == [parts[0]] + parts[1..];
      }
    }
  }

  ghost predicate OpenTo(p: Pipe, queue: seq<Bytes>, parts: seq<Bytes>) {
    |parts| == |queue| && forall i :: 0 <= i < |queue| ==> Unprocess(p, queue[i]) == Some(parts[i])
  }

  lemma OpenToCons(p: Pipe, queue: seq<Bytes>, x: Bytes, rest: seq<Bytes>)
    requires queue != [] && Unprocess(p, queue[0]) == Some(x) && OpenTo(p, queue[1..], rest)
    ensures OpenTo(p, queue, [x] + rest)
  {
    forall i | 0 <= i < |queue|
      ensures Unprocess(p, queue[i]) == Some(([x] + rest)[i])
    {
      if i > 0 {
        assert queue[i] == queue[1..][i - 1];
      }
    }
  }

  ghost predicate Keyed(p: Pipe, nonces: seq<seq<Bytes>>) {
    p.Valid() && forall i :: 0 <= i < |nonces| ==> p.NoncesOk(nonces[i])
  }

  lemma {:induction false} WrittenPrefix(p: Pipe, chunks: seq<Bytes>, nonces: seq<seq<Bytes>>, queue: seq<Bytes>)
    requires Keyed(p, nonces) && |nonces| == |chunks|
    requires queue <= Sealed(p, chunks, nonces)
    ensures Written(p, queue) == Some(Join(chunks[..|queue|]))
    decreases |queue|
  {
    if queue == [] {
    } else {
      assert p.NoncesOk(nonces[0]);
      UnprocessProcess(p, chunks[0], nonces[0]);
      WrittenPrefix(p, chunks[1..], nonces[1..], queue[1..]);
      assert chunks[..|queue|][1..] == chunks[1..][..|queue| - 1];
    }
  }

  lemma JoinPrefix(chunks: seq<Bytes>, n: nat)
    requires n <= |chunks|
    ensures Join(chunks[..n]) <= Join(chunks)
  {
    JoinAppend(chunks[..n], chunks[n..]);
    assert chunks == chunks[..n] + chunks[n..];
  }

  /**
   * In every state of every run of the two multiplexers over a link that loses, duplicates and
   * reorders raw messages: when channel c carried the handshake and then the sealed chunks, one
   * send after another, whatever number of delivered chunks the far relay has taken from its queue,
   * it can decrypt them, and the bytes it wrote are a prefix of the bytes read at the near socket.
   */
  lemma RelaySafety(cfg: Config, n: Mux.Net, s: Mux.Side, c: nat,
                    p: Pipe, lead: seq<Bytes>, chunks: seq<Bytes>, nonces: seq<seq<Bytes>>, taken: nat)
    requires cfg.Valid() && Mux.NReachable(cfg, n)
    requires Keyed(p, nonces) && |nonces| == |chunks|
    requires Mux.ChanOf(n.At(s), c).out.serial
    requires Mux.ChanOf(n.At(s), c).out.msgs == lead + Sealed(p, chunks, nonces)
    requires |lead| + taken <= |Mux.ChanOf(n.At(s.Other()), c).inn.rcv.reading.msgs|
    ensures var delivered := Mux.ChanOf(n.At(s.Other()), c).inn.rcv.reading.msgs;
      var w := Written(p, delivered[|lead|..|lead| + taken]);
      w.Some? && w.value <= Join(chunks)
  {
    MuxSafety.PerChannelSafety(cfg, n, s, c);
    var delivered := Mux.ChanOf(n.At(s.Other()), c).inn.rcv.reading.msgs;
    var queue := delivered[|lead|..|lead| + taken];
    var all := lead + Sealed(p, chunks, nonces);
    assert queue == all[|lead|..|lead| + taken];
    assert all[|lead|..] == Sealed(p, chunks, nonces);
    assert queue == all[|lead|..][..taken];
    WrittenPrefix(p, chunks, nonces, queue);
    JoinPrefix(chunks, taken);
  }

  /**
   * On the ordered link under the two multiplexers, whatever the other channels carry: every run
   * after which nothing is left to do, from any state with sequence numbers left on channel c, ends
   * with the far relay given every chunk, and what it then writes is every byte read at the near
   * socket.  `OrderedNet.EveryRunCompletes` bounds the steps such a run takes.
   */
  lemma RelayCompletes(cfg: Config, q: MuxFifo.QNet, acts: seq<MuxFifo.QAction>, s: Mux.Side, c: nat,
                       p: Pipe, lead: seq<Bytes>, chunks: seq<Bytes>, nonces: seq<seq<Bytes>>)
    requires cfg.Valid() && MuxFifo.QReachable(cfg, q) && OrderedNet.NumbersLeft(q, s, c)
    requires MuxFifo.QCanRun(cfg, q, acts) && OrderedNet.NoFurtherSubmit(acts)
    requires OrderedNet.QSettled(MuxFifo.QExec(cfg, q, acts))
    requires Keyed(p, nonces) && |nonces| == |chunks|
    requires Mux.ChanOf(q.net.At(s), c).out.serial
    requires Mux.ChanOf(q.net.At(s), c).out.msgs == lead + Sealed(p, chunks, nonces)
    ensures var delivered := Mux.ChanOf(MuxFifo.QExec(cfg, q, acts).net.At(s.Other()), c).inn.rcv.reading.msgs;
      |delivered| == |lead| + |chunks| && Written(p, delivered[|lead|..]) == Some(Join(chunks))
  {
    var q' := MuxFifo.QExec(cfg, q, acts);
    var msgs := Mux.ChanOf(q.net.At(s), c).out.msgs;
    OrderedNet.EveryRunCompletes(cfg, q, acts, U16);
    assert OrderedNet.Delivered(q', s, c, msgs);
    OrderedNet.RefinesLossy(cfg, q);
    OrderedNet.RunNumbers(cfg, q, acts, s, c);
    assert msgs[|lead|..] == Sealed(p, chunks, nonces);
    WrittenPrefix(p, chunks, nonces, msgs[|lead|..]);
    assert chunks[..|chunks|] == chunks;
  }
}
