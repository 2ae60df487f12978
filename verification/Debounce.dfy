// The debounce in the watcher's loop (internal/netwatch/watcher.go), on an exact clock, with reactions
// that take no time.
module Debounce {
  import opened Settings

  // In nanoseconds. New makes both positive and maxDebounce at least debounce.
  datatype Timing = Timing(debounce: int, maxDebounce: int) {
    predicate Sound() {
      0 < debounce <= maxDebounce
    }
  }

  const DEFAULT_DEBOUNCE := 750_000_000
  const DEFAULT_MAX_DEBOUNCE := 5_000_000_000

  function WithDefaults(t: Timing): (r: Timing)
    ensures r.Sound()
    ensures t.Sound() ==> r == t
    ensures t.debounce > 0 ==> r.debounce == t.debounce
    ensures t.debounce <= 0 ==> r.debounce == DEFAULT_DEBOUNCE
    ensures r.maxDebounce in {r.debounce, t.maxDebounce, DEFAULT_MAX_DEBOUNCE}
    ensures t.maxDebounce <= 0 && r.debounce <= DEFAULT_MAX_DEBOUNCE ==> r.maxDebounce == DEFAULT_MAX_DEBOUNCE
  {
    var d := if t.debounce <= 0 then DEFAULT_DEBOUNCE else t.debounce;
    var m := if t.maxDebounce <= 0 then DEFAULT_MAX_DEBOUNCE else t.maxDebounce;
    Timing(d, if m < d then d else m)
  }

  function Min(a: int, b: int): int {
    if a < b then a else b
  }

  // What wakes the loop: a routing message, or the pending timer.
  datatype Wake = Raw(at: int) | Timer(at: int)

  // timer is when the pending timer fires; first and deadline are the loop's own variables.
  datatype Window = Quiet | Open(timer: int, first: int, deadline: int)

  function Next(t: Timing, s: Window, w: Wake): Window {
    match w
    case Raw(at) =>
      if s.Quiet? then Open(at + t.debounce, at, at + t.debounce)
      else s.(deadline := Min(at + t.debounce, s.first + t.maxDebounce))
    case Timer(at) =>
      if s.Quiet? then s
      else if at < s.deadline then s.(timer := s.deadline)
      else Quiet
  }

  predicate Reacts(s: Window, w: Wake) {
    w.Timer? && s.Open? && w.at >= s.deadline
  }

  // ---------------------------------------------------------------- whole schedules

  datatype Burst = Burst(arrivals: seq<int>, reaction: int)

  // pending is the burst that has not been reacted to; now is the last wake.
  datatype Log = Log(window: Window, pending: seq<int>, bursts: seq<Burst>)

  function Logged(t: Timing, l: Log, w: Wake): Log {
    Log(Next(t, l.window, w),
        if w.Raw? then l.pending + [w.at] else if Reacts(l.window, w) then [] else l.pending,
        if Reacts(l.window, w) then l.bursts + [Burst(l.pending, w.at)] else l.bursts)
  }

  function Play(t: Timing, wakes: seq<Wake>): Log {
    if wakes == [] then Log(Quiet, [], [])
    else Logged(t, Play(t, wakes[..|wakes| - 1]), wakes[|wakes| - 1])
  }

  // The clock is exact: the timer fires at its time, and nothing is received once it is overdue.
  predicate OnTime(s: Window, w: Wake) {
    match w
    case Raw(at) => s.Open? ==> at <= s.timer
    case Timer(at) => s.Open? && at == s.timer
  }

  predicate Exact(t: Timing, wakes: seq<Wake>) {
    && (forall i, j | 0 <= i < j < |wakes| :: wakes[i].at <= wakes[j].at)
    && (forall i | 0 <= i < |wakes| :: OnTime(Play(t, wakes[..i]).window, wakes[i]))
  }

  function Arrivals(wakes: seq<Wake>): seq<int> {
    if wakes == [] then []
    else Arrivals(wakes[..|wakes| - 1]) + (if wakes[|wakes| - 1].Raw? then [wakes[|wakes| - 1].at] else [])
  }

  function AllOf(bursts: seq<Burst>): seq<int> {
    if bursts == [] then [] else AllOf(bursts[..|bursts| - 1]) + bursts[|bursts| - 1].arrivals
  }

  predicate Ordered(arrivals: seq<int>) {
    forall i, j | 0 <= i < j < |arrivals| :: arrivals[i] <= arrivals[j]
  }

  // When a burst is due: a quiet debounce after its last arrival, but never later than the cap after its first.
  function DueAt(t: Timing, arrivals: seq<int>): int
    requires arrivals != []
  {
    Min(arrivals[|arrivals| - 1] + t.debounce, arrivals[0] + t.maxDebounce)
  }

  predicate Right(t: Timing, b: Burst) {
    && b.arrivals != [] && Ordered(b.arrivals) && b.reaction == DueAt(t, b.arrivals)
    && forall a | a in b.arrivals :: 0 <= b.reaction - a <= t.maxDebounce
  }

  // Between wakes, the last of which was at now.
  predicate Tracks(t: Timing, l: Log, now: int) {
    && (l.window.Quiet? <==> l.pending == [])
    && Ordered(l.pending)
    && (l.window.Open? ==>
          && l.window.first == l.pending[0] && l.window.deadline == DueAt(t, l.pending)
          && l.pending[|l.pending| - 1] <= now <= l.window.timer <= l.window.deadline)
    && forall b | b in l.bursts :: Right(t, b)
  }

  lemma OneWake(t: Timing, l: Log, now: int, w: Wake)
    requires t.Sound() && Tracks(t, l, now) && now <= w.at && OnTime(l.window, w)
    ensures Tracks(t, Logged(t, l, w), w.at)
    ensures l.window.Open? && Next(t, l.window, w).Open? ==> l.window.deadline <= Next(t, l.window, w).deadline
    ensures AllOf(Logged(t, l, w).bursts) + Logged(t, l, w).pending
      == AllOf(l.bursts) + l.pending + (if w.Raw? then [w.at] else [])
  {
    hide AllOf, Right, DueAt;
    if Reacts(l.window, w) {
      DueIsRight(t, l, now, w);
      AllOfMore(l.bursts, Burst(l.pending, w.at));
      assert AllOf(l.bursts) + l.pending + [] == AllOf(l.bursts) + l.pending;
    } else if w.Raw? {
      RawTracks(t, l, now, w.at);
      assert (AllOf(l.bursts) + l.pending) + [w.at] == AllOf(l.bursts) + (l.pending + [w.at]);
    } else {
      assert AllOf(l.bursts) + l.pending + [] == AllOf(l.bursts) + l.pending;
    }
  }

  lemma AllOfMore(bursts: seq<Burst>, b: Burst)
    ensures AllOf(bursts + [b]) == AllOf(bursts) + b.arrivals
  {
    assert (bursts + [b])[..|bursts|] == bursts;
  }

  // The reaction comes when the burst is due.
  lemma DueIsRight(t: Timing, l: Log, now: int, w: Wake)
    requires t.Sound() && Tracks(t, l, now) && now <= w.at && OnTime(l.window, w) && Reacts(l.window, w)
    ensures Right(t, Burst(l.pending, w.at))
  {
    var b := Burst(l.pending, w.at);
    forall a | a in b.arrivals ensures 0 <= b.reaction - a <= t.maxDebounce {
      var i :| 0 <= i < |b.arrivals| && b.arrivals[i] == a;
      assert b.arrivals[0] <= a <= b.arrivals[|b.arrivals| - 1];
    }
  }

  lemma RawTracks(t: Timing, l: Log, now: int, at: int)
    requires t.Sound() && Tracks(t, l, now) && now <= at && OnTime(l.window, Raw(at))
    ensures Tracks(t, Logged(t, l, Raw(at)), at)
    ensures l.window.Open? ==> l.window.deadline <= Next(t, l.window, Raw(at)).deadline
  {
    hide Right;
    OrderedMore(l.pending, at);
  }

  lemma OrderedMore(arrivals: seq<int>, at: int)
    requires Ordered(arrivals) && (arrivals != [] ==> arrivals[|arrivals| - 1] <= at)
    ensures Ordered(arrivals + [at])
  {
  }

  // Debounce: on every exact schedule each burst of arrivals gets exactly one reaction, at its due
  // time; no arrival waits longer than the cap; and no arrival is lost or counted twice.
  lemma {:induction false} EveryBurstOnce(t: Timing, wakes: seq<Wake>)
    requires t.Sound() && Exact(t, wakes)
    ensures var l := Play(t, wakes);
      && Tracks(t, l, if wakes == [] then 0 else wakes[|wakes| - 1].at)
      && AllOf(l.bursts) + l.pending == Arrivals(wakes)
  {
    if wakes != [] {
      var n := |wakes| - 1;
      Earlier(t, wakes);
      EveryBurstOnce(t, wakes[..n]);
      assert OnTime(Play(t, wakes[..n]).window, wakes[n]);
      var l := Play(t, wakes[..n]);
      if n == 0 {
        OneWake(t, l, wakes[n].at, wakes[n]);
      } else {
        OneWake(t, l, wakes[n - 1].at, wakes[n]);
      }
    }
  }

  lemma Earlier(t: Timing, wakes: seq<Wake>)
    requires wakes != [] && Exact(t, wakes)
    ensures Exact(t, wakes[..|wakes| - 1])
  {
    var n := |wakes| - 1;
    assert forall i | 0 <= i < n :: wakes[..n][..i] == wakes[..i] && wakes[..n][i] == wakes[i];
  }

  // A burst is never forgotten: left alone, its timer fires, at most twice, and the reaction comes when it is due.
  lemma ReactionComes(t: Timing, wakes: seq<Wake>)
    requires t.Sound() && Exact(t, wakes) && Play(t, wakes).window.Open?
    ensures var s := Play(t, wakes).window;
      var rest := if s.timer < s.deadline then [Timer(s.timer), Timer(s.deadline)] else [Timer(s.timer)];
      && Exact(t, wakes + rest)
      && Play(t, wakes + rest).bursts == Play(t, wakes).bursts + [Burst(Play(t, wakes).pending, s.deadline)]
  {
    hide Exact, Play, Arrivals, AllOf, Right;
    EveryBurstOnce(t, wakes);
    NotEmpty(t, wakes);
    var s := Play(t, wakes).window;
    ExactMore(t, wakes, Timer(s.timer));
    if s.timer < s.deadline {
      var more := wakes + [Timer(s.timer)];
      ExactMore(t, more, Timer(s.deadline));
      assert more + [Timer(s.deadline)] == wakes + [Timer(s.timer), Timer(s.deadline)];
    }
  }

  lemma NotEmpty(t: Timing, wakes: seq<Wake>)
    requires Play(t, wakes).window.Open?
    ensures wakes != []
  {
  }

  lemma ExactMore(t: Timing, wakes: seq<Wake>, w: Wake)
    requires Exact(t, wakes) && OnTime(Play(t, wakes).window, w)
    requires wakes != [] ==> wakes[|wakes| - 1].at <= w.at
    ensures Exact(t, wakes + [w]) && Play(t, wakes + [w]) == Logged(t, Play(t, wakes), w)
  {
    hide Play, OnTime, Logged;
    PlayLast(t, wakes, w);
    OrderedWakes(wakes, w);
    AllOnTime(t, wakes, w);
  }

  lemma AllOnTime(t: Timing, wakes: seq<Wake>, w: Wake)
    requires Exact(t, wakes) && OnTime(Play(t, wakes).window, w)
    ensures var more := wakes + [w]; forall i | 0 <= i < |more| :: OnTime(Play(t, more[..i]).window, more[i])
  {
    hide Play, OnTime;
    var more := wakes + [w];
    assert more[..|wakes|] == wakes;
    forall i | 0 <= i < |more| ensures OnTime(Play(t, more[..i]).window, more[i]) {
      if i < |wakes| {
        assert more[..i] == wakes[..i] && more[i] == wakes[i];
      }
    }
  }

  lemma PlayLast(t: Timing, wakes: seq<Wake>, w: Wake)
    ensures Play(t, wakes + [w]) == Logged(t, Play(t, wakes), w)
  {
    hide Logged;
    assert (wakes + [w])[..|wakes|] == wakes;
  }

  lemma OrderedWakes(wakes: seq<Wake>, w: Wake)
    requires forall i, j | 0 <= i < j < |wakes| :: wakes[i].at <= wakes[j].at
    requires wakes != [] ==> wakes[|wakes| - 1].at <= w.at
    ensures forall i, j | 0 <= i < j < |wakes| + 1 :: (wakes + [w])[i].at <= (wakes + [w])[j].at
  {
  }

  // The loop itself: what it keeps between wakes, and when it reacts.
  method Run(t: Timing, wakes: seq<Wake>) returns (reactions: seq<int>)
    requires t.Sound() && Exact(t, wakes)
    ensures |reactions| == |Play(t, wakes).bursts|
    ensures forall i | 0 <= i < |reactions| :: reactions[i] == Play(t, wakes).bursts[i].reaction
  {
    hide Exact, Play;
    var pending: Option<int> := None;
    var firstRaw, deadline := 0, 0;
    reactions := [];
    var i := 0;
    PlayNone(t, wakes);
    while i < |wakes|
      invariant 0 <= i <= |wakes|
      invariant Play(t, wakes[..i]).window == if pending.None? then Quiet else Open(pending.value, firstRaw, deadline)
      invariant Reactions(reactions, Play(t, wakes[..i]).bursts)
    {
      PlayMore(t, wakes, i);
      hide Reactions;
      ghost var bursts := Play(t, wakes[..i]).bursts;
      ReactionsMore(reactions, bursts, Play(t, wakes[..i]).pending, wakes[i].at);
      var now := wakes[i].at;
      if wakes[i].Raw? {
        if pending.None? {
          firstRaw := now;
          deadline := now + t.debounce;
          pending := Some(now + t.debounce);
        } else {
          deadline := now + t.debounce;
          var limit := firstRaw + t.maxDebounce;
          if deadline > limit {
            deadline := limit;
          }
        }
      } else {
        if now < deadline {
          pending := Some(now + (deadline - now));
        } else {
          pending := None;
          reactions := reactions + [now];
        }
      }
      i := i + 1;
    }
    assert wakes[..|wakes|] == wakes;
  }

  // reactions are the times of bursts.
  predicate Reactions(reactions: seq<int>, bursts: seq<Burst>) {
    |reactions| == |bursts| && forall i | 0 <= i < |reactions| :: reactions[i] == bursts[i].reaction
  }

  lemma ReactionsMore(reactions: seq<int>, bursts: seq<Burst>, pending: seq<int>, now: int)
    requires Reactions(reactions, bursts)
    ensures Reactions(reactions + [now], bursts + [Burst(pending, now)])
  {
  }

  lemma PlayNone(t: Timing, wakes: seq<Wake>)
    ensures Play(t, wakes[..0]) == Log(Quiet, [], [])
  {
  }

  lemma PlayMore(t: Timing, wakes: seq<Wake>, i: nat)
    requires Exact(t, wakes) && i < |wakes|
    ensures Play(t, wakes[..i + 1]) == Logged(t, Play(t, wakes[..i]), wakes[i]) && OnTime(Play(t, wakes[..i]).window, wakes[i])
  {
    assert wakes[..i + 1][..i] == wakes[..i];
  }
}
