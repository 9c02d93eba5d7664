/**
 * The token bucket and the rate-limited sender.  Clock readings are parameters; clocks and
 * tokens are reals.
 */
module FlowControl {
  import opened Frames

  datatype Bucket = Bucket(rate: real, capacity: real, tokens: real, lastRefill: real) {
    ghost predicate Valid() {
      rate > 0.0 && 0.0 <= tokens <= capacity
    }
  }

  function Min(a: real, b: real): real {
    if a <= b then a else b
  }

  // What the rate yields in a stretch of time.
  function Yield(rate: real, t: real): real {
    t * rate
  }

  // `_refill`
  function Refill(b: Bucket, now: real): Bucket {
    b.(tokens := Min(b.capacity, b.tokens + Yield(b.rate, now - b.lastRefill)), lastRefill := now)
  }

  // What a refill throws away because the bucket is full.
  function Spill(b: Bucket, now: real): real {
    b.tokens + Yield(b.rate, now - b.lastRefill) - Refill(b, now).tokens
  }

  // The locked part of `consume`: one attempt by one consumer.
  datatype Attempt = Attempt(now: real, amount: nat)

  predicate Granted(b: Bucket, a: Attempt) {
    Refill(b, a.now).tokens >= a.amount as real
  }

  function Try(b: Bucket, a: Attempt): Bucket {
    var r := Refill(b, a.now);
    if Granted(b, a) then r.(tokens := r.tokens - a.amount as real) else r
  }

  // ----------------------------------------- runs: attempts of any consumers, in time order

  ghost predicate InTime(start: real, run: seq<Attempt>)
    decreases |run|
  {
    run == [] || (start <= run[0].now && InTime(run[0].now, run[1..]))
  }

  function End(start: real, run: seq<Attempt>): real {
    if run == [] then start else run[|run| - 1].now
  }

  function After(b: Bucket, run: seq<Attempt>): Bucket
    decreases |run|
  {
    if run == [] then b else After(Try(b, run[0]), run[1..])
  }

  function Taken(b: Bucket, run: seq<Attempt>): real
    decreases |run|
  {
    if run == [] then 0.0
    else (if Granted(b, run[0]) then run[0].amount as real else 0.0) + Taken(Try(b, run[0]), run[1..])
  }

  function Spilled(b: Bucket, run: seq<Attempt>): real
    decreases |run|
  {
    if run == [] then 0.0 else Spill(b, run[0].now) + Spilled(Try(b, run[0]), run[1..])
  }

  lemma YieldSum(rate: real, a: real, b: real, c: real)
    ensures Yield(rate, c - a) == Yield(rate, c - b) + Yield(rate, b - a)
  {
  }

  lemma YieldPositive(rate: real, t: real)
    requires rate > 0.0 && t >= 0.0
    ensures Yield(rate, t) >= 0.0
  {
  }

  lemma TryValid(b: Bucket, a: Attempt)
    requires b.Valid() && b.lastRefill <= a.now
    ensures Try(b, a).Valid() && Try(b, a).lastRefill == a.now && Spill(b, a.now) >= 0.0
    ensures (if Granted(b, a) then a.amount as real else 0.0) + Try(b, a).tokens + Spill(b, a.now)
            == b.tokens + Yield(b.rate, a.now - b.lastRefill)
  {
    YieldPositive(b.rate, a.now - b.lastRefill);
  }

  lemma {:induction false} Balance(b: Bucket, run: seq<Attempt>)
    requires b.Valid() && InTime(b.lastRefill, run)
    ensures After(b, run).Valid()
    ensures After(b, run).lastRefill == End(b.lastRefill, run)
    ensures Taken(b, run) + After(b, run).tokens + Spilled(b, run)
            == b.tokens + Yield(b.rate, End(b.lastRefill, run) - b.lastRefill)
    ensures Spilled(b, run) >= 0.0
    decreases |run|
  {
    if run == [] {
      assert Yield(b.rate, 0.0) == 0.0;
    } else {
      TryValid(b, run[0]);
      Balance(Try(b, run[0]), run[1..]);
      assert End(b.lastRefill, run) == End(run[0].now, run[1..]);
      YieldSum(b.rate, b.lastRefill, run[0].now, End(b.lastRefill, run));
    }
  }

  lemma YieldIs(rate: real, t: real)
    ensures Yield(rate, t) == rate * t
  {
  }

  /**
   * Tokens stay within the capacity, and what was there and came in, in a time t, is what was
   * taken, is left, or spilled over the capacity.
   */
  lemma Conservation(b: Bucket, run: seq<Attempt>, t: real)
    requires b.Valid() && InTime(b.lastRefill, run) && t == End(b.lastRefill, run) - b.lastRefill
    ensures 0.0 <= After(b, run).tokens <= b.capacity && After(b, run).lastRefill == End(b.lastRefill, run)
    ensures Taken(b, run) + After(b, run).tokens + Spilled(b, run) == b.tokens + b.rate * t
    ensures Spilled(b, run) >= 0.0
  {
    Balance(b, run);
    SameLimits(b, run);
    YieldIs(b.rate, t);
  }

  // The state at the end of a run's first part, where its second part starts.
  lemma {:induction false} Resplit(b: Bucket, early: seq<Attempt>, late: seq<Attempt>)
    requires b.Valid() && InTime(b.lastRefill, early + late)
    ensures InTime(b.lastRefill, early)
    ensures After(b, early).Valid() && InTime(After(b, early).lastRefill, late)
    ensures Taken(b, early + late) == Taken(b, early) + Taken(After(b, early), late)
    decreases |early|
  {
    if early == [] {
      assert early + late == late;
    } else {
      assert (early + late)[1..] == early[1..] + late;
      TryValid(b, early[0]);
      Resplit(Try(b, early[0]), early[1..], late);
    }
  }

  lemma IntervalYield(b: Bucket, early: seq<Attempt>, mid: seq<Attempt>, late: seq<Attempt>)
    requires b.Valid() && InTime(b.lastRefill, early + mid + late) && mid != []
    ensures Taken(After(b, early), mid) <= b.capacity + Yield(b.rate, mid[|mid| - 1].now - mid[0].now)
  {
    Resplit(b, early + mid, late);
    Resplit(b, early, mid);
    SameLimits(b, early);
    BurstBound(After(b, early), mid);
  }

  /**
   * Over any interval of any run, t long from its first attempt to its last, no more is taken than
   * the capacity and what comes in during that time.
   */
  lemma IntervalBound(b: Bucket, early: seq<Attempt>, mid: seq<Attempt>, late: seq<Attempt>, t: real)
    requires b.Valid() && InTime(b.lastRefill, early + mid + late) && mid != []
    requires t == mid[|mid| - 1].now - mid[0].now
    ensures Taken(After(b, early), mid) <= b.capacity + b.rate * t
  {
    IntervalYield(b, early, mid, late);
    YieldIs(b.rate, t);
  }

  lemma {:induction false} SameLimits(b: Bucket, run: seq<Attempt>)
    ensures After(b, run).capacity == b.capacity && After(b, run).rate == b.rate
    decreases |run|
  {
    if run == [] {
    } else {
      SameLimits(Try(b, run[0]), run[1..]);
    }
  }

  lemma BurstBound(b: Bucket, run: seq<Attempt>)
    requires b.Valid() && run != [] && InTime(b.lastRefill, run)
    ensures Taken(b, run) <= b.capacity + Yield(b.rate, run[|run| - 1].now - run[0].now)
  {
    var b' := Try(b, run[0]);
    TryValid(b, run[0]);
    Balance(b', run[1..]);
    assert End(b'.lastRefill, run[1..]) == run[|run| - 1].now;
    assert (if Granted(b, run[0]) then run[0].amount as real else 0.0) + b'.tokens <= b.capacity;
  }

  // -------------------------------------------------------------- who is ever served

  /**
   * `consume(amount)` can be granted at some later time exactly when amount is within the capacity;
   * a larger request, and so a larger message, is never granted.
   */
  lemma GrantableIffWithinCapacity(b: Bucket, amount: nat)
    requires b.Valid()
    ensures (exists now :: now >= b.lastRefill && Granted(b, Attempt(now, amount)))
            <==> amount as real <= b.capacity
  {
    if amount as real <= b.capacity {
      var now := b.lastRefill + b.capacity / b.rate;
      Times(b.capacity, b.rate);
      assert Yield(b.rate, now - b.lastRefill) == b.capacity;
      assert Granted(b, Attempt(now, amount));
    }
  }

  lemma Times(x: real, r: real)
    requires r > 0.0
    ensures (x / r) * r == x && (x >= 0.0 ==> x / r >= 0.0)
  {
  }

  /** In no run is a request above the capacity granted. */
  lemma NeverGranted(b: Bucket, run: seq<Attempt>, i: nat)
    requires b.Valid() && InTime(b.lastRefill, run) && i < |run| && run[i].amount as real > b.capacity
    ensures !Granted(After(b, run[..i]), run[i])
  {
    SameLimits(b, run[..i]);
  }

  /**
   * The wait `consume` computes is right: if nobody else takes tokens meanwhile, the next attempt,
   * made at least that much later, is granted.
   */
  lemma WaitSuffices(b: Bucket, a: Attempt, later: real)
    requires b.Valid() && b.lastRefill <= a.now && !Granted(b, a) && a.amount as real <= b.capacity
    requires later >= a.now + (a.amount as real - Try(b, a).tokens) / b.rate
    ensures Granted(Try(b, a), Attempt(later, a.amount))
  {
    var b' := Try(b, a);
    var missing := a.amount as real - b'.tokens;
    Times(missing, b.rate);
    assert (later - a.now) * b.rate >= (missing / b.rate) * b.rate;
  }

  // -------------------------------------------------------------- against competition

  lemma {:induction false} AtLeastYield(b: Bucket, run: seq<Attempt>)
    requires b.Valid() && InTime(b.lastRefill, run)
    ensures After(b, run).tokens + Taken(b, run)
            >= Min(b.capacity, b.tokens + Yield(b.rate, End(b.lastRefill, run) - b.lastRefill))
    decreases |run|
  {
    if run == [] {
      assert Yield(b.rate, 0.0) == 0.0;
    } else {
      var b' := Try(b, run[0]);
      TryValid(b, run[0]);
      AtLeastYield(b', run[1..]);
      Balance(b', run[1..]);
      EndsLater(run[0].now, run[1..]);
      assert End(b.lastRefill, run) == End(run[0].now, run[1..]);
      YieldSum(b.rate, b.lastRefill, run[0].now, End(b.lastRefill, run));
      YieldPositive(b.rate, End(b.lastRefill, run) - run[0].now);
    }
  }

  lemma {:induction false} EndsLater(start: real, run: seq<Attempt>)
    requires InTime(start, run)
    ensures start <= End(start, run)
    decreases |run|
  {
    if run == [] {
    } else {
      EndsLater(run[0].now, run[1..]);
    }
  }

  /**
   * What is left and what was taken make up the capacity, or else all that was there and came in: no
   * token is lost but to the capacity.
   */
  lemma AtLeast(b: Bucket, run: seq<Attempt>, t: real)
    requires b.Valid() && InTime(b.lastRefill, run) && t == End(b.lastRefill, run) - b.lastRefill
    ensures || After(b, run).tokens + Taken(b, run) >= b.capacity
            || After(b, run).tokens + Taken(b, run) >= b.tokens + b.rate * t
  {
    AtLeastYield(b, run);
    YieldIs(b.rate, t);
  }

  // What the bucket would hold at `now` if nobody took anything.
  function Untouched(b: Bucket, now: real): real {
    Min(b.capacity, b.tokens + Yield(b.rate, now - b.lastRefill))
  }

  // A run of other consumers that ends by `now` and takes at most x tokens.
  ghost predicate Rivals(b: Bucket, run: seq<Attempt>, now: real, x: nat) {
    InTime(b.lastRefill, run) && End(b.lastRefill, run) <= now && Taken(b, run) <= x as real
  }

  lemma GrantedDespite(b: Bucket, amount: nat, now: real, x: nat, run: seq<Attempt>)
    requires b.Valid() && Rivals(b, run, now, x) && amount as real + x as real <= Untouched(b, now)
    ensures Granted(After(b, run), Attempt(now, amount))
  {
    var b', end := After(b, run), End(b.lastRefill, run);
    AtLeastYield(b, run);
    Balance(b, run);
    SameLimits(b, run);
    YieldSum(b.rate, b.lastRefill, end, now);
    YieldPositive(b.rate, now - end);
    assert b'.tokens + Yield(b.rate, now - end) >= amount as real;
  }

  // The least amount whose loss keeps `amount` from being granted at `now`; no more than x if x does.
  lemma Outbid(b: Bucket, amount: nat, now: real, x: nat) returns (m: nat)
    requires b.Valid() && amount >= 1 && now >= b.lastRefill
    ensures Granted(b, Attempt(now, m)) && !Granted(Try(b, Attempt(now, m)), Attempt(now, amount))
    ensures amount as real + x as real > Untouched(b, now) ==> m <= x
  {
    var limit := Untouched(b, now);
    YieldPositive(b.rate, now - b.lastRefill);
    assert Yield(b.rate, 0.0) == 0.0;
    m := if amount as real > limit then 0 else (limit - amount as real).Floor + 1;
  }

  lemma DeniedBy(b: Bucket, amount: nat, now: real, x: nat) returns (run: seq<Attempt>)
    requires b.Valid() && amount >= 1 && now >= b.lastRefill && amount as real + x as real > Untouched(b, now)
    ensures Rivals(b, run, now, x) && !Granted(After(b, run), Attempt(now, amount))
  {
    var m := Outbid(b, amount, now, x);
    run := [Attempt(now, m)];
    assert run[1..] == [];
    assert After(Try(b, run[0]), run[1..]) == Try(b, run[0]) && Taken(Try(b, run[0]), run[1..]) == 0.0;
    assert Taken(b, run) == m as real;
  }

  lemma GrantedWithin(b: Bucket, amount: nat, now: real, x: nat)
    requires b.Valid() && amount >= 1 && now >= b.lastRefill
    ensures (forall run :: Rivals(b, run, now, x) ==> Granted(After(b, run), Attempt(now, amount)))
            <==> amount as real + x as real <= Untouched(b, now)
  {
    if amount as real + x as real <= Untouched(b, now) {
      forall run | Rivals(b, run, now, x)
        ensures Granted(After(b, run), Attempt(now, amount))
      {
        GrantedDespite(b, amount, now, x, run);
      }
    } else {
      var run := DeniedBy(b, amount, now, x);
    }
  }

  /**
   * A request at `now` is granted, whatever others do before it as long as they take at most x
   * tokens, exactly when it and x together are within the capacity and within what an untouched
   * bucket would have got by then.
   */
  lemma GrantedAgainstRivals(b: Bucket, amount: nat, now: real, t: real, x: nat)
    requires b.Valid() && amount >= 1 && t >= 0.0 && now == b.lastRefill + t
    ensures (forall run :: Rivals(b, run, now, x) ==> Granted(After(b, run), Attempt(now, amount)))
            <==> && amount as real + x as real <= b.capacity
                 && amount as real + x as real <= b.tokens + b.rate * t
  {
    GrantedWithin(b, amount, now, x);
    UntouchedAfter(b, now, t);
  }

  lemma UntouchedAfter(b: Bucket, now: real, t: real)
    requires now == b.lastRefill + t
    ensures Untouched(b, now) == Min(b.capacity, b.tokens + b.rate * t)
  {
    YieldIs(b.rate, t);
    assert now - b.lastRefill == t;
  }

  // How long `consume` sleeps after an attempt that was not granted.
  function Wait(b: Bucket, amount: nat): real
    requires b.rate > 0.0
  {
    var missing := (amount as real - b.tokens) / b.rate;
    if missing >= 0.01 then missing else 0.01
  }

  /** The sleep is the least of at least 10 ms that is long enough for the missing tokens to come in. */
  lemma WaitIsLeast(b: Bucket, amount: nat, t: real)
    requires b.rate > 0.0 && t >= 0.01
    ensures Wait(b, amount) >= 0.01
    ensures t >= Wait(b, amount) <==> b.tokens + b.rate * t >= amount as real
  {
    var missing := amount as real - b.tokens;
    Times(missing, b.rate);
    if t >= missing / b.rate {
      Scale(missing / b.rate, t, b.rate);
    } else {
      Scale(t, missing / b.rate, b.rate);
    }
  }

  lemma Scale(x: real, y: real, r: real)
    requires r > 0.0
    ensures x <= y ==> r * x <= r * y
    ensures x < y ==> r * x < r * y
  {
  }

  // A consumer asks at `now` and after each wait it computes, another one asks just before it each
  // time, and the first is never granted.
  ghost predicate Starves(b: Bucket, amount: nat, now: real, run: seq<Attempt>)
    requires b.rate > 0.0
    decreases |run|
  {
    run == [] ||
    (&& |run| >= 2 && run[0].now == now && run[1] == Attempt(now, amount)
     && Granted(b, run[0]) && !Granted(Try(b, run[0]), run[1])
     && var b' := Try(Try(b, run[0]), run[1]);
        Starves(b', amount, now + Wait(b', amount), run[2..]))
  }

  /**
   * `consume` is not fair: however small the request, and from any state, some run with one other
   * consumer denies it any number of times, although it waits as long as it computed each time.
   */
  lemma {:induction false} Starvation(b: Bucket, amount: nat, now: real, n: nat) returns (run: seq<Attempt>)
    requires b.Valid() && amount >= 1 && now >= b.lastRefill
    ensures |run| == 2 * n && InTime(b.lastRefill, run) && Starves(b, amount, now, run)
    decreases n
  {
    if n == 0 {
      return [];
    }
    var m := Outbid(b, amount, now, 0);
    var first, second := Attempt(now, m), Attempt(now, amount);
    TryValid(b, first);
    var b1 := Try(b, first);
    TryValid(b1, second);
    var b2 := Try(b1, second);
    var rest := Starvation(b2, amount, now + Wait(b2, amount), n - 1);
    run := [first, second] + rest;
    assert run[2..] == rest && run[1..] == [second] + rest && run[1..][1..] == rest;
  }

  // ------------------------------------------------------------------- the classes

  class TokenBucket {
    const rate: real
    const capacity: real
    var tokens: real
    var lastRefill: real

    function State(): Bucket
      reads this
    {
      Bucket(rate, capacity, tokens, lastRefill)
    }

    constructor (rate: real, capacity: real, now: real)
      ensures State() == Bucket(rate, capacity, capacity, now)
    {
      this.rate := rate;
      this.capacity := capacity;
      this.tokens := capacity;
      this.lastRefill := now;
    }

    method DoRefill(now: real)
      modifies this
      ensures State() == Refill(old(State()), now)
      ensures lastRefill == now
      ensures var all := old(tokens) + rate * (now - old(lastRefill));
        tokens == if all <= capacity then all else capacity
    {
      var elapsed := now - lastRefill;
      tokens := Min(capacity, tokens + elapsed * rate);
      lastRefill := now;
    }

    /** The locked part of `consume`; any consumer may be next. */
    method TryConsume(amount: nat, now: real) returns (granted: bool)
      modifies this
      ensures granted == Granted(old(State()), Attempt(now, amount))
      ensures State() == Try(old(State()), Attempt(now, amount))
      ensures var all := old(tokens) + rate * (now - old(lastRefill));
        var held := if all <= capacity then all else capacity;
        && granted == (amount as real <= held)
        && tokens == (if granted then held - amount as real else held) && lastRefill == now
    {
      DoRefill(now);
      granted := tokens >= amount as real;
      if granted {
        tokens := tokens - amount as real;
      }
    }

    /**
     * `consume`, with the clock readings its loop makes and nobody else consuming.  `served` is the
     * number of the reading at which it returns, or the number of readings if it is still waiting.
     */
    method Consume(amount: nat, clock: seq<real>) returns (served: nat)
      modifies this
      ensures served <= |clock|
      ensures ServedAt(old(State()), amount, clock, served)
      ensures State() == After(old(State()), Requests(amount, Read(clock, served)))
    {
      served := 0;
      ghost var start := State();
      while served < |clock|
        invariant served <= |clock|
        invariant State() == After(start, Requests(amount, clock[..served]))
        invariant forall i :: 0 <= i < served ==> !GrantedAt(start, amount, clock, i)
      {
        AfterSnoc(start, amount, clock, served);
        var granted := TryConsume(amount, clock[served]);
        if granted {
          return;
        }
        served := served + 1;
      }
      assert clock[..served] == clock;
    }
  }

  // The readings made by a consumer served at reading `served`, or not served.
  function Read(clock: seq<real>, served: nat): seq<real> {
    if served < |clock| then clock[..served + 1] else clock
  }

  // After i attempts in vain, the next one is granted.
  predicate GrantedAt(b: Bucket, amount: nat, clock: seq<real>, i: nat)
    requires i < |clock|
  {
    Granted(After(b, Requests(amount, clock[..i])), Attempt(clock[i], amount))
  }

  // The first attempt that is granted is the one at reading `served`; none is if there is no such reading.
  ghost predicate ServedAt(b: Bucket, amount: nat, clock: seq<real>, served: nat) {
    && served <= |clock|
    && (forall i :: 0 <= i < served ==> !GrantedAt(b, amount, clock, i))
    && (served < |clock| ==> GrantedAt(b, amount, clock, served))
  }

  // The attempts one consumer makes at the given times.
  function Requests(amount: nat, clock: seq<real>): (r: seq<Attempt>)
    ensures |r| == |clock|
  {
    seq(|clock|, i requires 0 <= i < |clock| => Attempt(clock[i], amount))
  }

  lemma {:induction false} AfterAppend(b: Bucket, run: seq<Attempt>, a: Attempt)
    ensures After(b, run + [a]) == Try(After(b, run), a)
    decreases |run|
  {
    if run == [] {
      assert run + [a] == [a] && [a][1..] == [];
    } else {
      assert (run + [a])[1..] == run[1..] + [a];
      AfterAppend(Try(b, run[0]), run[1..], a);
    }
  }

  lemma AfterSnoc(b: Bucket, amount: nat, clock: seq<real>, i: nat)
    requires i < |clock|
    ensures After(b, Requests(amount, clock[..i + 1]))
            == Try(After(b, Requests(amount, clock[..i])), Attempt(clock[i], amount))
  {
    assert Requests(amount, clock[..i + 1]) == Requests(amount, clock[..i]) + [Attempt(clock[i], amount)];
    AfterAppend(b, Requests(amount, clock[..i]), Attempt(clock[i], amount));
  }

  /** Sends a message once its length in tokens has been granted. */
  class FlowController {
    const bucket: TokenBucket
    var sent: seq<Bytes>

    constructor (rate: real, burst: real, now: real)
      ensures fresh(bucket) && sent == []
      ensures bucket.State() == Bucket(rate, burst, burst, now)
    {
      bucket := new TokenBucket(rate, burst, now);
      sent := [];
    }

    method Send(data: Bytes, clock: seq<real>) returns (served: nat)
      modifies this, bucket
      ensures served <= |clock|
      ensures sent == if served < |clock| then old(sent) + [data] else old(sent)
      ensures ServedAt(old(bucket.State()), |data|, clock, served)
      ensures bucket.State() == After(old(bucket.State()), Requests(|data|, Read(clock, served)))
    {
      served := bucket.Consume(|data|, clock);
      if served < |clock| {
        sent := sent + [data];
      }
    }
  }
}
