/**
 * Splitting a message into frame payloads (`send`, `_fragment`) and putting the
 * payloads of consecutive frames back together (the reassembly part of
 * `_process_data`).
 */
module Fragmentation {
  import opened Frames

  // What one DATA frame carries: a chunk, and whether more chunks of its message follow.
  datatype Piece = Piece(more: bool, payload: Bytes)

  function Join(chunks: seq<Bytes>): Bytes {
    if chunks == [] then [] else chunks[0] + Join(chunks[1..])
  }

  function Chunks(data: Bytes, max: nat): (r: seq<Bytes>)
    requires max > 0
    ensures |r| > 0
  {
    if |data| <= max then [data] else [data[..max]] + Chunks(data[max..], max)
  }

  // The chunks of one message, flagged MORE_FRAGMENTS on all but the last.
  function Pieces(data: Bytes, max: nat): (r: seq<Piece>)
    requires max > 0
    ensures |r| > 0
  {
    if |data| <= max then [Piece(false, data)] else [Piece(true, data[..max])] + Pieces(data[max..], max)
  }

  // Everything a sender emits for a list of messages sent one after the other.
  function Stream(msgs: seq<Bytes>, max: nat): seq<Piece>
    requires max > 0
  {
    if msgs == [] then [] else Stream(msgs[..|msgs| - 1], max) + Pieces(msgs[|msgs| - 1], max)
  }

  // The receiver's reading of a stream: complete messages, and the chunks of an incomplete one.
  datatype Reading = Reading(msgs: seq<Bytes>, parts: seq<Bytes>)

  function Read(r: Reading, p: Piece): Reading {
    var parts := r.parts + [p.payload];
    if p.more then r.(parts := parts) else Reading(r.msgs + [Join(parts)], [])
  }

  function Split(ps: seq<Piece>): Reading {
    if ps == [] then Reading([], []) else Read(Split(ps[..|ps| - 1]), ps[|ps| - 1])
  }

  lemma Regroup<T>(a: seq<T>, b: seq<T>, c: seq<T>)
    ensures a + (b + c) == (a + b) + c
  {
  }

  lemma {:induction false} JoinAppend(xs: seq<Bytes>, ys: seq<Bytes>)
    ensures Join(xs + ys) == Join(xs) + Join(ys)
  {
    if xs == [] {
      assert xs + ys == ys;
    } else {
      JoinAppend(xs[1..], ys);
      assert (xs + ys)[0] == xs[0] && (xs + ys)[1..] == xs[1..] + ys;
      Regroup(xs[0], Join(xs[1..]), Join(ys));
    }
  }

  lemma JoinCons(x: Bytes, ys: seq<Bytes>)
    ensures Join([x] + ys) == x + Join(ys)
  {
    assert ([x] + ys)[1..] == ys;
  }

  lemma JoinSnoc(xs: seq<Bytes>, y: Bytes)
    ensures Join(xs + [y]) == Join(xs) + y
  {
    JoinAppend(xs, [y]);
    assert Join([y]) == y + Join([]);
  }

  lemma SplitSnoc(ps: seq<Piece>, p: Piece)
    ensures Split(ps + [p]) == Read(Split(ps), p)
  {
  }

  lemma {:induction false} ChunksJoin(data: Bytes, max: nat)
    requires max > 0
    ensures Join(Chunks(data, max)) == data
    decreases |data|
  {
    if |data| <= max {
      JoinSnoc([], data);
    } else {
      ChunksJoin(data[max..], max);
      JoinCons(data[..max], Chunks(data[max..], max));
    }
  }

  // The number of chunks is max(1, ceil(n / max)); all but the last are exactly full, and
  // exactly those carry MORE_FRAGMENTS.
  lemma {:induction false} PiecesShape(data: Bytes, max: nat)
    requires max > 0
    ensures var n := |Pieces(data, max)|;
      && n == |Chunks(data, max)| == (if data == [] then 1 else (|data| + max - 1) / max)
      && (forall i :: 0 <= i < n ==> Pieces(data, max)[i].payload == Chunks(data, max)[i])
      && (forall i :: 0 <= i < n ==> Pieces(data, max)[i].more == (i < n - 1))
      && (forall i :: 0 <= i < n - 1 ==> |Chunks(data, max)[i]| == max)
      && |Chunks(data, max)[n - 1]| <= max
      && (data != [] ==> Chunks(data, max)[n - 1] != [])
    decreases |data|
  {
    if |data| > max {
      PiecesShape(data[max..], max);
      CeilStep(|data|, max);
    } else if data != [] {
      CeilOne(|data|, max);
    }
  }

  lemma CeilOne(n: nat, max: nat)
    requires 0 < n <= max
    ensures (n + max - 1) / max == 1
  {
  }

  lemma CeilStep(n: nat, max: nat)
    requires n > max > 0
    ensures (n + max - 1) / max == 1 + (n - max + max - 1) / max
  {
    DivShift(n - 1, max);
  }

  lemma DivShift(x: nat, m: nat)
    requires m > 0
    ensures (x + m) / m == x / m + 1
  {
    var q, r := x / m, x % m;
    assert x == q * m + r;
    assert x + m == (q + 1) * m + r;
    DivUnique(x + m, m, q + 1, r);
  }

  lemma DivUnique(x: nat, m: nat, q: nat, r: nat)
    requires m > 0 && r < m && x == q * m + r
    ensures x / m == q
  {
    var d := x / m - q;
    assert d * m == r - x % m by {
      assert x == (x / m) * m + x % m;
      assert d * m == (x / m) * m - q * m;
    }
    Multiple(d, m);
  }

  // A multiple of m strictly between -m and m is zero.
  lemma Multiple(d: int, m: int)
    requires -m < d * m < m
    ensures d == 0
  {
  }

  lemma ReadMore(ps: seq<Piece>, p: Piece)
    requires p.more
    ensures Split(ps + [p]).msgs == Split(ps).msgs
    ensures Join(Split(ps + [p]).parts) == Join(Split(ps).parts) + p.payload
  {
    SplitSnoc(ps, p);
    JoinSnoc(Split(ps).parts, p.payload);
  }

  lemma ReadLast(ps: seq<Piece>, p: Piece)
    requires !p.more
    ensures Split(ps + [p]) == Reading(Split(ps).msgs + [Join(Split(ps).parts) + p.payload], [])
  {
    SplitSnoc(ps, p);
    JoinSnoc(Split(ps).parts, p.payload);
  }

  // Reading one message's pieces completes exactly that message.
  lemma {:induction false} ReadMessage(ps: seq<Piece>, data: Bytes, max: nat)
    requires max > 0
    ensures Split(ps + Pieces(data, max)) == Reading(Split(ps).msgs + [Join(Split(ps).parts) + data], [])
    decreases |data|
  {
    if |data| <= max {
      ReadLast(ps, Piece(false, data));
    } else {
      var p, rest := Piece(true, data[..max]), data[max..];
      ReadMessage(ps + [p], rest, max);
      ReadMore(ps, p);
      Regroup(Join(Split(ps).parts), p.payload, rest);
      Regroup(ps, [p], Pieces(rest, max));
      assert p.payload + rest == data;
    }
  }

  lemma ReadOneMore(ps: seq<Piece>, msgs: seq<Bytes>, data: Bytes, max: nat)
    requires max > 0 && Split(ps) == Reading(msgs, [])
    ensures Split(ps + Pieces(data, max)) == Reading(msgs + [data], [])
  {
    ReadMessage(ps, data, max);
    JoinNothing(data);
  }

  lemma JoinNothing(data: Bytes)
    ensures Join([]) + data == data
  {
  }

  // Reassembly inverts fragmentation on every list of messages.
  lemma {:induction false} SplitStream(msgs: seq<Bytes>, max: nat)
    requires max > 0
    ensures Split(Stream(msgs, max)) == Reading(msgs, [])
  {
    if msgs == [] {
    } else {
      var front, last := msgs[..|msgs| - 1], msgs[|msgs| - 1];
      SplitStream(front, max);
      ReadOneMore(Stream(front, max), front, last, max);
      assert front + [last] == msgs;
    }
  }

  // Reading more of a stream only adds messages.
  lemma {:induction false} SplitPrefix(ps: seq<Piece>, qs: seq<Piece>)
    requires ps <= qs
    ensures Split(ps).msgs <= Split(qs).msgs
    decreases |qs|
  {
    if ps != qs {
      var front := qs[..|qs| - 1];
      assert ps <= front;
      SplitPrefix(ps, front);
    } else {
      assert Split(ps).msgs == Split(qs).msgs;
    }
  }

  // What is read from a prefix of a stream of messages is a prefix of those messages.
  lemma StreamPrefix(ps: seq<Piece>, msgs: seq<Bytes>, max: nat)
    requires max > 0 && ps <= Stream(msgs, max)
    ensures Split(ps).msgs <= msgs
    ensures ps == Stream(msgs, max) ==> Split(ps) == Reading(msgs, [])
  {
    SplitStream(msgs, max);
    SplitPrefix(ps, Stream(msgs, max));
  }

  /** `_fragment`: the index loop over the data. */
  method Fragment(data: Bytes, max: nat) returns (chunks: seq<Bytes>)
    requires max > 0
    ensures chunks == Chunks(data, max)
  {
    if |data| <= max {
      return [data];
    }
    chunks := [];
    var i := 0;
    while i < |data|
      invariant 0 <= i
      invariant i < |data| ==> chunks + Chunks(data[i..], max) == Chunks(data, max)
      invariant i >= |data| ==> chunks == Chunks(data, max)
      decreases |data| - i
    {
      var end := if i + max <= |data| then i + max else |data|;
      if i + max < |data| {
        assert data[i..][max..] == data[i + max..];
        assert data[i..][..max] == data[i..end];
      } else {
        assert data[i..end] == data[i..];
      }
      chunks := chunks + [data[i..end]];
      i := i + max;
    }
  }

  /** The loop of `send` that gives every chunk its flag. */
  method Plan(data: Bytes, max: nat) returns (plan: seq<Piece>)
    requires max > 0
    ensures plan == Pieces(data, max)
  {
    var chunks := Fragment(data, max);
    PiecesShape(data, max);
    plan := [];
    for i := 0 to |chunks|
      invariant plan == Pieces(data, max)[..i]
    {
      var isLast := i == |chunks| - 1;
      plan := plan + [Piece(!isLast, chunks[i])];
    }
  }
}
