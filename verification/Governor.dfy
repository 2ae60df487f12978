// The token bucket over plan writes (internal/emit/governor.go), with time in seconds and tokens as reals.
module Governors {
  datatype Bucket = Bucket(tokens: real, last: real)

  datatype Limits = Limits(rate: real, burst: real)

  datatype Call = Call(asked: nat, now: real)

  // Conversion to int truncates towards zero.
  function Truncate(x: real): int {
    if x >= 0.0 then x.Floor else -((-x).Floor)
  }

  // What a rate per second brings in over some seconds.
  function Accrued(rate: real, seconds: real): real {
    rate * seconds
  }

  function Refill(l: Limits, b: Bucket, now: real): Bucket {
    if now - b.last > 0.0 then
      var more := b.tokens + Accrued(l.rate, now - b.last);
      Bucket(if more > l.burst then l.burst else more, now)
    else b
  }

  // What the whole tokens cover of what is asked, and one write even where they cover none.
  function Grant(b: Bucket, asked: nat): nat
    requires asked > 0
  {
    var avail := Truncate(b.tokens);
    var granted := if avail < asked then avail else asked;
    if granted < 1 then 1 else granted
  }

  function Granted(l: Limits, b: Bucket, c: Call): nat {
    if c.asked == 0 then 0
    else if l.rate <= 0.0 then c.asked
    else Grant(Refill(l, b, c.now), c.asked)
  }

  function After(l: Limits, b: Bucket, c: Call): Bucket {
    if c.asked == 0 || l.rate <= 0.0 then b
    else
      var r := Refill(l, b, c.now);
      r.(tokens := r.tokens - Grant(r, c.asked) as real)
  }

  // A call that found less than one token and was granted its one write all the same.
  predicate Forced(l: Limits, b: Bucket, c: Call) {
    c.asked > 0 && l.rate > 0.0 && Refill(l, b, c.now).tokens < 1.0
  }

  // ---------------------------------------------------------------- whole runs of calls

  function Run(l: Limits, b: Bucket, calls: seq<Call>): Bucket
    decreases |calls|
  {
    if calls == [] then b else Run(l, After(l, b, calls[0]), calls[1..])
  }

  function TotalGranted(l: Limits, b: Bucket, calls: seq<Call>): nat
    decreases |calls|
  {
    if calls == [] then 0
    else Granted(l, b, calls[0]) + TotalGranted(l, After(l, b, calls[0]), calls[1..])
  }

  function TotalAsked(calls: seq<Call>): nat {
    if calls == [] then 0 else calls[0].asked + TotalAsked(calls[1..])
  }

  function TotalForced(l: Limits, b: Bucket, calls: seq<Call>): nat
    decreases |calls|
  {
    if calls == [] then 0
    else (if Forced(l, b, calls[0]) then 1 else 0) + TotalForced(l, After(l, b, calls[0]), calls[1..])
  }

  predicate Monotone(calls: seq<Call>) {
    forall i, j | 0 <= i < j < |calls| :: calls[i].now <= calls[j].now
  }

  function Positive(x: real): real {
    if x > 0.0 then x else 0.0
  }

  // One call: what it grants is paid for by tokens in hand and by the refill, or it was forced.
  lemma OneCall(l: Limits, b: Bucket, c: Call)
    requires l.rate > 0.0 && c.asked > 0
    ensures var b' := After(l, b, c);
      && 1 <= Granted(l, b, c) <= c.asked
      && (Granted(l, b, c) >= 2 ==> b'.tokens >= 0.0)
      && b'.last == (if c.now > b.last then c.now else b.last)
      && (b.tokens <= l.burst ==> b'.tokens <= l.burst)
      && Granted(l, b, c) as real - (if Forced(l, b, c) then 1.0 else 0.0)
           <= Positive(Refill(l, b, c.now).tokens) - Positive(b'.tokens)
  {
  }

  lemma RefillBound(l: Limits, b: Bucket, now: real)
    requires l.rate > 0.0
    ensures var r := Refill(l, b, now);
      && Positive(r.tokens) <= Positive(b.tokens) + Accrued(l.rate, r.last - b.last)
      && (b.tokens <= l.burst ==> r.tokens <= l.burst)
      && r.last == (if now > b.last then now else b.last)
  {
    if now > b.last {
      Scaled(l.rate, 0.0, now - b.last);
    }
  }

  lemma Brings(rate: real, seconds: real)
    ensures Accrued(rate, seconds) == rate * seconds
  {
  }

  lemma Scaled(rate: real, x: real, y: real)
    requires rate > 0.0 && x <= y
    ensures Accrued(rate, x) <= Accrued(rate, y)
  {
  }

  lemma Apart(rate: real, a: real, b: real, c: real)
    ensures Accrued(rate, c - b) + Accrued(rate, b - a) == Accrued(rate, c - a)
    ensures Accrued(rate, 0.0) == 0.0
  {
  }

  // Spending across a run, against the tokens in hand when it starts.
  lemma {:induction false} RunBound(l: Limits, b: Bucket, calls: seq<Call>)
    requires l.rate > 0.0
    ensures var e := Run(l, b, calls);
      TotalGranted(l, b, calls) as real
        <= Positive(b.tokens) - Positive(e.tokens) + Accrued(l.rate, e.last - b.last) + TotalForced(l, b, calls) as real
    decreases |calls|
  {
    hide Grant, Refill, Positive, Granted, After, Forced, Accrued;
    Apart(l.rate, b.last, b.last, b.last);
    if calls != [] {
      var c := calls[0];
      var b' := After(l, b, c);
      RunBound(l, b', calls[1..]);
      var e := Run(l, b', calls[1..]);
      if c.asked == 0 {
        SkipsEmpty(l, b, c);
      } else {
        OneCall(l, b, c);
        RefillBound(l, b, c.now);
        Apart(l.rate, b.last, b'.last, e.last);
      }
    }
  }

  lemma SkipsEmpty(l: Limits, b: Bucket, c: Call)
    requires c.asked == 0
    ensures After(l, b, c) == b && Granted(l, b, c) == 0 && !Forced(l, b, c)
  {
  }

  lemma {:induction false} RunEnds(l: Limits, b: Bucket, calls: seq<Call>, end: real)
    requires b.last <= end && forall c | c in calls :: c.now <= end
    requires l.rate > 0.0
    ensures Run(l, b, calls).last <= end
    ensures b.tokens <= l.burst ==> Run(l, b, calls).tokens <= l.burst
    decreases |calls|
  {
    if calls != [] {
      if calls[0].asked > 0 {
        OneCall(l, b, calls[0]);
      }
      assert forall c | c in calls[1..] :: c in calls;
      RunEnds(l, After(l, b, calls[0]), calls[1..], end);
    }
  }

  // The bucket's bound: over any window of calls that ask for something, on a clock that does not run
  // backwards, everything granted is at most one burst, plus the refill over the time the window
  // spans, plus one write for each call that found the bucket empty.
  lemma WindowBound(l: Limits, start: Bucket, before: seq<Call>, window: seq<Call>)
    requires l.rate > 0.0 && start.tokens <= l.burst && 0.0 <= l.burst
    requires Monotone(before + window) && window != []
    requires forall c | c in before + window :: start.last <= c.now
    requires forall c | c in window :: c.asked > 0
    ensures var b := Run(l, start, before);
      TotalGranted(l, b, window) as real
        <= l.burst + l.rate * (window[|window| - 1].now - window[0].now) + TotalForced(l, b, window) as real
  {
    hide *;
    AccruedBound(l, start, before, window);
    Brings(l.rate, window[|window| - 1].now - window[0].now);
  }

  lemma AccruedBound(l: Limits, start: Bucket, before: seq<Call>, window: seq<Call>)
    requires l.rate > 0.0 && start.tokens <= l.burst && 0.0 <= l.burst
    requires Monotone(before + window) && window != []
    requires forall c | c in before + window :: start.last <= c.now
    requires forall c | c in window :: c.asked > 0
    ensures var b := Run(l, start, before);
      TotalGranted(l, b, window) as real
        <= l.burst + Accrued(l.rate, window[|window| - 1].now - window[0].now) + TotalForced(l, b, window) as real
  {
    hide Grant, Refill, Forced, Granted, Run, TotalGranted, TotalForced, After, Positive, Accrued;
    var b := Run(l, start, before);
    WindowTimes(l, start, before, window);
    FromRefill(l, b, window);
    RefillBound(l, b, window[0].now);
    FromFull(l, Refill(l, b, window[0].now), window);
  }

  lemma WindowTimes(l: Limits, start: Bucket, before: seq<Call>, window: seq<Call>)
    requires l.rate > 0.0 && start.tokens <= l.burst
    requires Monotone(before + window) && window != []
    requires forall c | c in before + window :: start.last <= c.now
    ensures Run(l, start, before).last <= window[0].now
    ensures Run(l, start, before).tokens <= l.burst
    ensures forall c | c in window :: c.now <= window[|window| - 1].now
    ensures window[0].now <= window[|window| - 1].now
  {
    hide Run;
    var first := window[0].now;
    assert forall i | 0 <= i < |before| :: before[i] == (before + window)[i];
    assert forall i | 0 <= i < |window| :: window[i] == (before + window)[|before| + i];
    assert first == (before + window)[|before|].now;
    assert window[0] in before + window;
    RunEnds(l, start, before, first);
  }

  // Starting from a bucket refilled at the first call, at most full.
  lemma FromFull(l: Limits, r: Bucket, window: seq<Call>)
    requires l.rate > 0.0 && r.tokens <= l.burst && 0.0 <= l.burst && window != []
    requires r.last == window[0].now <= window[|window| - 1].now
    requires forall c | c in window :: c.now <= window[|window| - 1].now
    ensures TotalGranted(l, r, window) as real
        <= l.burst + Accrued(l.rate, window[|window| - 1].now - window[0].now) + TotalForced(l, r, window) as real
  {
    hide Grant, Refill, Forced, Granted, Run, TotalGranted, TotalForced, After, Positive, Accrued;
    var last := window[|window| - 1].now;
    RunBound(l, r, window);
    RunEnds(l, r, window, last);
    var e := Run(l, r, window);
    Scaled(l.rate, e.last - r.last, last - r.last);
    WindowCeiling(l, r);
    WindowCeiling(l, e);
  }

  lemma WindowCeiling(l: Limits, r: Bucket)
    requires r.tokens <= l.burst && 0.0 <= l.burst
    ensures 0.0 <= Positive(r.tokens) <= l.burst
  {
  }

  // A window may as well start from the bucket already refilled at its first call.
  lemma FromRefill(l: Limits, b: Bucket, window: seq<Call>)
    requires window != [] && window[0].asked > 0 && l.rate > 0.0
    ensures var r := Refill(l, b, window[0].now);
      && TotalGranted(l, b, window) == TotalGranted(l, r, window)
      && TotalForced(l, b, window) == TotalForced(l, r, window)
  {
    assert Refill(l, Refill(l, b, window[0].now), window[0].now) == Refill(l, b, window[0].now);
  }

  // ---------------------------------------------------------------- the governor itself

  class Governor {
    const limits: Limits
    var tokens: real
    var last: real
    var granted: nat
    var coalesced: nat
    ghost const start: Bucket
    ghost var calls: seq<Call>

    ghost predicate Valid()
      reads this
    {
      && start.tokens == limits.burst && (limits.rate > 0.0 ==> limits.burst > 0.0)
      && Bucket(tokens, last) == Run(limits, start, calls)
      && granted == TotalGranted(limits, start, calls)
      && granted + coalesced == TotalAsked(calls)
    }

    constructor (perSecond: int, burst: int, now: real)
      ensures Valid() && calls == [] && start == Bucket(limits.burst, now)
      ensures limits == Limits(perSecond as real, (if burst <= 0 then perSecond else burst) as real)
    {
      var b := if burst <= 0 then perSecond else burst;
      limits := Limits(perSecond as real, b as real);
      tokens, last := b as real, now;
      granted, coalesced := 0, 0;
      start := Bucket(b as real, now);
      calls := [];
    }

    method Reserve(n: int, now: real) returns (g: int)
      requires Valid()
      modifies this
      ensures Valid()
      ensures n <= 0 ==> g == 0 && calls == old(calls)
      ensures n > 0 ==> calls == old(calls) + [Call(n, now)] && 1 <= g <= n
      ensures granted == old(granted) + g
      ensures limits.rate > 0.0 && g >= 2 ==> tokens >= 0.0
      ensures limits.rate <= 0.0 && n > 0 ==> g == n
      ensures limits.rate > 0.0 && 0 < g < n ==> tokens < 1.0
      ensures n > 0 && Covers(limits, old(Bucket(tokens, last)), now, n as real) ==> g == n
      ensures n > 0 && Covers(limits, old(Bucket(tokens, last)), now, limits.burst) && limits.burst >= 1.0 ==>
        g == if n as real <= limits.burst then n else limits.burst.Floor
    {
      hide Run, TotalGranted, TotalAsked, Forced, Positive, Accrued, Granted, After, Covers;
      if n <= 0 {
        return 0;
      }
      ghost var was, call := Bucket(tokens, last), Call(n, now);
      RunCapped(limits, start, calls);
      Served(limits, was, call);
      RunMore(limits, start, calls, call);
      GrantFacts(limits, was, call);
      calls := calls + [call];
      if limits.rate <= 0.0 {
        g := n;
      } else {
        g := TakeTokens(n, now);
      }
      granted := granted + g;
      coalesced := coalesced + (n - g);
    }

    // Refills, grants, and takes what is granted out of the bucket.
    method TakeTokens(n: nat, now: real) returns (g: int)
      requires n > 0 && limits.rate > 0.0
      modifies this`tokens, this`last
      ensures g == Granted(limits, old(Bucket(tokens, last)), Call(n, now))
      ensures Bucket(tokens, last) == After(limits, old(Bucket(tokens, last)), Call(n, now))
    {
      hide Accrued, Truncate;
      var elapsed := now - last;
      if elapsed > 0.0 {
        tokens := tokens + Accrued(limits.rate, elapsed);
        if tokens > limits.burst {
          tokens := limits.burst;
        }
        last := now;
      }
      g := n;
      var avail := Truncate(tokens);
      if avail < n {
        g := avail;
      }
      if g < 1 {
        g := 1;
      }
      tokens := tokens - g as real;
    }
  }

  // By now, and without going over the burst, the bucket can hold want: what was in it and what the
  // time since has brought in.
  predicate Covers(l: Limits, b: Bucket, now: real, want: real) {
    l.rate > 0.0 && want <= l.burst && b.last <= now && want <= b.tokens + l.rate * (now - b.last)
  }

  // What the bucket holds is granted: a call is cut short only when less than one token is left, never
  // when the bucket covers it, and after a wait that fills the bucket only to the whole burst.
  lemma Served(l: Limits, b: Bucket, c: Call)
    requires c.asked > 0 && b.tokens <= l.burst
    ensures l.rate > 0.0 && Granted(l, b, c) < c.asked ==> After(l, b, c).tokens < 1.0
    ensures Covers(l, b, c.now, c.asked as real) ==> Granted(l, b, c) == c.asked
    ensures Covers(l, b, c.now, l.burst) && l.burst >= 1.0 ==>
      Granted(l, b, c) == if c.asked as real <= l.burst then c.asked else l.burst.Floor
  {
    if l.rate > 0.0 {
      RefillCovers(l, b, c.now, c.asked as real);
      RefillCovers(l, b, c.now, l.burst);
      hide Refill, Covers;
    }
  }

  lemma RefillCovers(l: Limits, b: Bucket, now: real, want: real)
    requires b.tokens <= l.burst
    ensures Refill(l, b, now).tokens <= l.burst
    ensures Covers(l, b, now, want) ==> want <= Refill(l, b, now).tokens
  {
    Apart(l.rate, now, now, now);
  }

  lemma {:induction false} RunCapped(l: Limits, b: Bucket, calls: seq<Call>)
    requires b.tokens <= l.burst
    ensures Run(l, b, calls).tokens <= l.burst
    decreases |calls|
  {
    if calls != [] {
      if calls[0].asked > 0 && l.rate > 0.0 {
        OneCall(l, b, calls[0]);
      }
      RunCapped(l, After(l, b, calls[0]), calls[1..]);
    }
  }

  lemma GrantFacts(l: Limits, b: Bucket, c: Call)
    requires c.asked > 0
    ensures 1 <= Granted(l, b, c) <= c.asked
    ensures l.rate <= 0.0 ==> Granted(l, b, c) == c.asked && After(l, b, c) == b
    ensures l.rate > 0.0 && Granted(l, b, c) >= 2 ==> After(l, b, c).tokens >= 0.0
  {
    if l.rate > 0.0 {
      OneCall(l, b, c);
    }
  }

  lemma {:induction false} RunMore(l: Limits, b: Bucket, calls: seq<Call>, c: Call)
    ensures Run(l, b, calls + [c]) == After(l, Run(l, b, calls), c)
    ensures TotalGranted(l, b, calls + [c]) == TotalGranted(l, b, calls) + Granted(l, Run(l, b, calls), c)
    ensures TotalAsked(calls + [c]) == TotalAsked(calls) + c.asked
    decreases |calls|
  {
    if calls == [] {
      assert [c][1..] == [];
    } else {
      assert (calls + [c])[1..] == calls[1..] + [c];
      RunMore(l, After(l, b, calls[0]), calls[1..], c);
    }
  }
}
