// The rolling record of finished connections and the drift detector on top of it (internal/observ/counters.go).
module DriftCounters {
  import opened Settings

  const DRIFT_WINDOW := 30 * 60 * 1_000_000_000
  const DRIFT_MIN_HOSTS := 6
  const DRIFT_COOLDOWN := 3600 * 1_000_000_000
  const HOST_CAP := 1024
  const RECENT_PER_HOST := 8

  datatype Scope = Bypass | Direct | Watch | Desync

  // time None is the zero time, which is filled in from the clock.
  datatype ConnEvent = ConnEvent(time: Option<int>, host: string, addr: string, scope: Scope, ok: bool, escalated: bool)

  datatype Stat = Stat(at: int, ok: bool, escalated: bool)

  datatype Sample = Sample(at: int, judged: bool, escalated: bool, ok: bool)

  // recent is newest last; window is oldest first.
  datatype HostEntry = HostEntry(recent: seq<Stat>, window: seq<Sample>, last: int)

  datatype Drift = Drift(time: int, hosts: nat, escalated: nat, rate: real)

  datatype Totals = Totals(conns: nat, ok: nat, failed: nat, judged: nat, escalated: nat, bypassed: nat, direct: nat)

  datatype Options = Options(window: int, hostCap: int, perHost: int, minHosts: int, rate: real, cooldown: int) {
    // Everything NewCounters makes of them is positive.
    predicate Sound() {
      window > 0 && hostCap > 0 && perHost > 0 && minHosts > 0 && rate > 0.0 && cooldown > 0
    }
  }

  function WithDefaults(o: Options): (r: Options)
    ensures r.Sound()
    ensures o.Sound() ==> r == o
    ensures r.window in {o.window, DRIFT_WINDOW} && (o.window > 0 ==> r.window == o.window)
    ensures r.hostCap in {o.hostCap, HOST_CAP} && (o.hostCap > 0 ==> r.hostCap == o.hostCap)
    ensures r.perHost in {o.perHost, RECENT_PER_HOST} && (o.perHost > 0 ==> r.perHost == o.perHost)
    ensures r.minHosts in {o.minHosts, DRIFT_MIN_HOSTS} && (o.minHosts > 0 ==> r.minHosts == o.minHosts)
    ensures r.rate in {o.rate, 2.0 / 3.0} && (o.rate > 0.0 ==> r.rate == o.rate)
    ensures r.cooldown in {o.cooldown, DRIFT_COOLDOWN} && (o.cooldown > 0 ==> r.cooldown == o.cooldown)
  {
    Options(if o.window <= 0 then DRIFT_WINDOW else o.window,
            if o.hostCap <= 0 then HOST_CAP else o.hostCap,
            if o.perHost <= 0 then RECENT_PER_HOST else o.perHost,
            if o.minHosts <= 0 then DRIFT_MIN_HOSTS else o.minHosts,
            if o.rate <= 0.0 then 2.0 / 3.0 else o.rate,
            if o.cooldown <= 0 then DRIFT_COOLDOWN else o.cooldown)
  }

  predicate Judged(s: Scope) {
    s.Watch? || s.Desync?
  }

  predicate EscalatedPastDefault(e: ConnEvent) {
    e.escalated && !e.scope.Desync?
  }

  function EventKey(e: ConnEvent): string {
    if e.host != "" then e.host else e.addr
  }

  // ---------------------------------------------------------------- the history, and what it says

  // One finished connection as filed: under which key, and when. An empty key is filed nowhere.
  datatype Filed = Filed(key: string, at: int, scope: Scope, ok: bool, escalated: bool)

  function FiledAs(e: ConnEvent, now: int): Filed {
    Filed(EventKey(e), if e.time.Some? then e.time.value else now, e.scope, e.ok, EscalatedPastDefault(e))
  }

  function StatOf(f: Filed): Stat {
    Stat(f.at, f.ok, f.escalated)
  }

  function SampleOf(f: Filed): Sample {
    Sample(f.at, Judged(f.scope), f.escalated, f.ok)
  }

  function Counted(t: Totals, f: Filed): Totals {
    Totals(t.conns + 1, t.ok + (if f.ok then 1 else 0), t.failed + (if f.ok then 0 else 1),
           t.judged + (if Judged(f.scope) then 1 else 0),
           t.escalated + (if Judged(f.scope) && f.escalated then 1 else 0),
           t.bypassed + (if f.scope.Bypass? then 1 else 0), t.direct + (if f.scope.Direct? then 1 else 0))
  }

  function TotalsOf(all: seq<Filed>): Totals {
    if all == [] then Totals(0, 0, 0, 0, 0, 0, 0) else Counted(TotalsOf(all[..|all| - 1]), all[|all| - 1])
  }

  // The filter of the whole history to one key and a window.
  function WindowOf(filed: seq<Filed>, key: string, cut: int): seq<Sample> {
    if filed == [] then []
    else
      var n := |filed| - 1;
      WindowOf(filed[..n], key, cut) + (if filed[n].key == key && filed[n].at >= cut then [SampleOf(filed[n])] else [])
  }

  function StatsOf(filed: seq<Filed>, key: string): seq<Stat> {
    if filed == [] then []
    else
      var n := |filed| - 1;
      StatsOf(filed[..n], key) + (if filed[n].key == key then [StatOf(filed[n])] else [])
  }

  // Where the rolling window starts once the whole history has been filed.
  function CutAfter(filed: seq<Filed>, window: int): int {
    if filed == [] then 0 else filed[|filed| - 1].at - window
  }

  function LiveKeys(filed: seq<Filed>, window: int): set<string> {
    set i | 0 <= i < |filed| && WindowOf(filed, filed[i].key, CutAfter(filed, window)) != [] :: filed[i].key
  }

  predicate InOrder(filed: seq<Filed>) {
    forall i, j | 0 <= i < j < |filed| :: filed[i].at <= filed[j].at
  }

  // Times never go back, and the window never holds more hosts than the table may.
  predicate Calm(filed: seq<Filed>, o: Options) {
    InOrder(filed) && forall n | 0 <= n <= |filed| :: |LiveKeys(filed[..n], o.window)| <= o.hostCap
  }

  predicate AnyJudged(window: seq<Sample>) {
    exists i | 0 <= i < |window| :: window[i].judged
  }

  predicate AnyEscalated(window: seq<Sample>) {
    exists i | 0 <= i < |window| :: window[i].judged && window[i].escalated
  }

  // The drift rate's two sets of hosts, computed from the history alone.
  function JudgedKeys(filed: seq<Filed>, window: int): set<string> {
    set k | k in LiveKeys(filed, window) && AnyJudged(WindowOf(filed, k, CutAfter(filed, window)))
  }

  function EscalatedKeys(filed: seq<Filed>, window: int): set<string> {
    set k | k in LiveKeys(filed, window) && AnyEscalated(WindowOf(filed, k, CutAfter(filed, window)))
  }

  // The same from the table.
  function JudgedHosts(hosts: map<string, HostEntry>): set<string> {
    set k | k in hosts && AnyJudged(hosts[k].window)
  }

  function EscalatedHosts(hosts: map<string, HostEntry>): set<string> {
    set k | k in hosts && AnyEscalated(hosts[k].window)
  }

  // ---------------------------------------------------------------- pruning against filtering

  function DropOld(window: seq<Sample>, cut: int): seq<Sample> {
    if window == [] || window[0].at >= cut then window else DropOld(window[1..], cut)
  }

  predicate Ordered(window: seq<Sample>) {
    forall i, j | 0 <= i < j < |window| :: window[i].at <= window[j].at
  }

  lemma LastInOrder(filed: seq<Filed>)
    requires InOrder(filed) && filed != []
    ensures var n := |filed| - 1; InOrder(filed[..n]) && (n > 0 ==> filed[..n][n - 1].at <= filed[n].at)
  {
  }

  lemma OrderedMore(window: seq<Sample>, s: Sample)
    requires Ordered(window)
    ensures (forall w | w in window :: w.at <= s.at) ==> Ordered(window + [s])
  {
    assert forall i | 0 <= i < |window| :: window[i] in window;
  }

  lemma {:induction false} WindowInOrder(filed: seq<Filed>, key: string, cut: int)
    requires InOrder(filed)
    ensures Ordered(WindowOf(filed, key, cut))
    ensures forall s | s in WindowOf(filed, key, cut) :: cut <= s.at <= filed[|filed| - 1].at
    ensures filed == [] ==> WindowOf(filed, key, cut) == []
  {
    if filed != [] {
      var n := |filed| - 1;
      WindowInOrder(filed[..n], key, cut);
      WindowSnoc(filed, key, cut);
      hide WindowOf;
      LastInOrder(filed);
      OrderedMore(WindowOf(filed[..n], key, cut), SampleOf(filed[n]));
    }
  }

  lemma {:induction false} DropAll(a: seq<Sample>, b: seq<Sample>, cut: int)
    requires forall s | s in a :: s.at < cut
    ensures DropOld(a + b, cut) == DropOld(b, cut)
  {
    if a == [] {
      assert a + b == b;
    } else {
      assert (a + b)[1..] == a[1..] + b;
      DropAll(a[1..], b, cut);
    }
  }

  lemma {:induction false} DropThenAppend(a: seq<Sample>, s: Sample, cut: int)
    requires s.at >= cut
    ensures DropOld(a + [s], cut) == DropOld(a, cut) + [s]
  {
    if a != [] && a[0].at < cut {
      assert (a + [s])[1..] == a[1..] + [s];
      DropThenAppend(a[1..], s, cut);
    }
  }

  lemma WindowSnoc(filed: seq<Filed>, key: string, cut: int)
    requires filed != []
    ensures var f, before := filed[|filed| - 1], WindowOf(filed[..|filed| - 1], key, cut);
      WindowOf(filed, key, cut) == if f.key == key && f.at >= cut then before + [SampleOf(f)] else before
  {
  }

  lemma DropEverything(window: seq<Sample>, cut: int)
    requires forall s | s in window :: s.at < cut
    ensures DropOld(window, cut) == []
  {
    DropAll(window, [], cut);
    assert window + [] == window;
  }

  // Pruning a window that was exact at an earlier cut makes it exact at a later one.
  lemma {:induction false} PruneIsFilter(filed: seq<Filed>, key: string, early: int, late: int)
    requires InOrder(filed) && early <= late
    ensures DropOld(WindowOf(filed, key, early), late) == WindowOf(filed, key, late)
  {
    if filed != [] {
      hide WindowOf, DropOld;
      var n := |filed| - 1;
      PruneIsFilter(filed[..n], key, early, late);
      WindowSnoc(filed, key, early);
      WindowSnoc(filed, key, late);
      if filed[n].at >= late {
        DropThenAppend(WindowOf(filed[..n], key, early), SampleOf(filed[n]), late);
      } else {
        WindowInOrder(filed, key, early);
        DropEverything(WindowOf(filed, key, early), late);
        WindowInOrder(filed[..n], key, early);
        DropEverything(WindowOf(filed[..n], key, early), late);
      }
    }
  }

  lemma {:induction false} NoWindowWithoutKey(filed: seq<Filed>, key: string, cut: int)
    requires WindowOf(filed, key, cut) != []
    ensures exists i | 0 <= i < |filed| :: filed[i].key == key
  {
    var n := |filed| - 1;
    if WindowOf(filed[..n], key, cut) != [] {
      NoWindowWithoutKey(filed[..n], key, cut);
      var i :| 0 <= i < n && filed[..n][i].key == key;
      assert filed[i].key == key;
    }
  }

  lemma LiveIsWindowed(filed: seq<Filed>, window: int, key: string)
    ensures key in LiveKeys(filed, window) <==> WindowOf(filed, key, CutAfter(filed, window)) != []
  {
    if WindowOf(filed, key, CutAfter(filed, window)) != [] {
      NoWindowWithoutKey(filed, key, CutAfter(filed, window));
    }
  }

  // ---------------------------------------------------------------- what the table keeps

  function Keyed(all: seq<Filed>): seq<Filed> {
    if all == [] then []
    else
      var n := |all| - 1;
      Keyed(all[..n]) + (if all[n].key == "" then [] else [all[n]])
  }

  // The table is the filter of the history, host by host.
  ghost predicate Agrees(hosts: map<string, HostEntry>, filed: seq<Filed>, window: int) {
    && hosts.Keys == LiveKeys(filed, window)
    && forall k | k in hosts :: hosts[k].window == WindowOf(filed, k, CutAfter(filed, window))
  }

  // The display ring holds the host's last outcomes, and all that are in the window as far as it can.
  predicate RingOf(e: HostEntry, stats: seq<Stat>, perHost: int) {
    && 1 <= |e.recent| <= perHost && |e.recent| <= |stats| && e.recent == stats[|stats| - |e.recent|..]
    && (|e.recent| == perHost || |e.window| <= |e.recent|)
  }

  ghost predicate Rings(hosts: map<string, HostEntry>, filed: seq<Filed>, perHost: int) {
    forall k | k in hosts :: k != "" && RingOf(hosts[k], StatsOf(filed, k), perHost)
  }

  predicate Spaced(drifts: seq<Drift>, cooldown: int) {
    forall i, j | 0 <= i < j < |drifts| :: drifts[j].time - drifts[i].time >= cooldown
  }

  // Every drift event ever made: spaced by the cooldown, on enough hosts, over the rate, the last one kept.
  predicate DriftLog(drifts: seq<Drift>, last: Option<Drift>, o: Options) {
    && Spaced(drifts, o.cooldown)
    && last == (if drifts == [] then None else Some(drifts[|drifts| - 1]))
    && forall d | d in drifts :: o.minHosts <= d.hosts && d.escalated <= d.hosts && o.rate < d.rate
  }

  // The drift event a rate pair makes at a time: over the threshold, and the cooldown has passed.
  function Fired(judged: nat, escalated: nat, at: int, last: Option<Drift>, o: Options): Option<Drift> {
    if judged >= o.minHosts && judged > 0 && escalated as real / judged as real > o.rate
      && (last.Some? ==> at - last.value.time >= o.cooldown)
    then Some(Drift(at, judged, escalated, escalated as real / judged as real))
    else None
  }

  // Enough hosts, more than the rate of them escalated, and no drift event within the cooldown.
  ghost predicate Drifted(judged: nat, escalated: nat, at: int, drifts: seq<Drift>, o: Options) {
    && o.minHosts <= judged && escalated as real > o.rate * judged as real
    && forall d | d in drifts :: at - d.time >= o.cooldown
  }

  // A drift event is made exactly when there is drift, against every event made before.
  lemma FiredExactly(judged: nat, escalated: nat, at: int, drifts: seq<Drift>, last: Option<Drift>, o: Options)
    requires o.Sound() && DriftLog(drifts, last, o)
    ensures Fired(judged, escalated, at, last, o).Some? <==> Drifted(judged, escalated, at, drifts, o)
  {
    if judged > 0 {
      OverRate(judged as real, escalated as real, o.rate);
    }
    if drifts != [] {
      var n := |drifts| - 1;
      assert drifts[n] in drifts;
      forall d | d in drifts ensures d.time <= drifts[n].time {
        var i :| 0 <= i < |drifts| && drifts[i] == d;
      }
    }
  }

  lemma OverRate(judged: real, escalated: real, rate: real)
    requires judged > 0.0
    ensures escalated / judged > rate <==> escalated > rate * judged
  {
    var r := escalated / judged;
    assert r * judged == escalated;
    if r > rate {
      assert (r - rate) * judged > 0.0;
    } else {
      assert (rate - r) * judged >= 0.0;
    }
  }

  // How many of all were filed with what p asks for.
  function CountOf(all: seq<Filed>, p: Filed -> bool): nat {
    if all == [] then 0 else CountOf(all[..|all| - 1], p) + if p(all[|all| - 1]) then 1 else 0
  }

  // The totals count the whole history, each under its own heading, and add up.
  lemma {:induction false} TotalsCount(all: seq<Filed>)
    ensures var t := TotalsOf(all);
      && t.conns == |all| && t.ok == CountOf(all, (f: Filed) => f.ok) && t.failed == |all| - t.ok
      && t.bypassed == CountOf(all, (f: Filed) => f.scope.Bypass?) && t.direct == CountOf(all, (f: Filed) => f.scope.Direct?)
      && t.judged == |all| - t.bypassed - t.direct
      && t.escalated == CountOf(all, (f: Filed) => f.escalated && !f.scope.Bypass? && !f.scope.Direct?)
  {
    if all != [] {
      TotalsCount(all[..|all| - 1]);
    }
  }

  function Pruned(hosts: map<string, HostEntry>, cut: int): map<string, HostEntry> {
    map k | k in hosts && DropOld(hosts[k].window, cut) != [] :: hosts[k].(window := DropOld(hosts[k].window, cut))
  }

  function Ring(recent: seq<Stat>, perHost: int): seq<Stat>
    requires perHost >= 0
  {
    if |recent| > perHost then recent[|recent| - perHost..] else recent
  }

  // One event filed under its key, before anything is pruned.
  function FiledUnder(hosts: map<string, HostEntry>, f: Filed, perHost: int): map<string, HostEntry>
    requires perHost >= 0
  {
    var e := if f.key in hosts then hosts[f.key] else HostEntry([], [], 0);
    hosts[f.key := HostEntry(Ring(e.recent + [StatOf(f)], perHost), e.window + [SampleOf(f)], f.at)]
  }

  lemma CalmBefore(filed: seq<Filed>, f: Filed, o: Options)
    requires Calm(filed + [f], o)
    ensures Calm(filed, o) && |LiveKeys(filed + [f], o.window)| <= o.hostCap
  {
    var more := filed + [f];
    assert forall i | 0 <= i < |filed| :: filed[i] == more[i];
    forall n | 0 <= n <= |filed| ensures |LiveKeys(filed[..n], o.window)| <= o.hostCap {
      assert filed[..n] == more[..n];
    }
    assert more[..|more|] == more;
  }

  // Filing and pruning take an exact table to an exact table.
  lemma FiledAgrees(hosts: map<string, HostEntry>, filed: seq<Filed>, f: Filed, o: Options)
    requires o.Sound() && InOrder(filed + [f]) && Agrees(hosts, filed, o.window)
    ensures Agrees(Pruned(FiledUnder(hosts, f, o.perHost), f.at - o.window), filed + [f], o.window)
  {
    hide LiveKeys, WindowOf, DropOld;
    var more := filed + [f];
    var before := FiledUnder(hosts, f, o.perHost);
    var cut := f.at - o.window;
    assert CutAfter(more, o.window) == cut;
    var after := Pruned(before, cut);
    forall k
      ensures k in after <==> k in LiveKeys(more, o.window)
      ensures k in after ==> after[k].window == WindowOf(more, k, cut)
    {
      LiveIsWindowed(filed, o.window, k);
      LiveIsWindowed(more, o.window, k);
      KeyAgrees(hosts, filed, f, o, k);
    }
    assert after.Keys == LiveKeys(more, o.window);
  }

  lemma KeyAgrees(hosts: map<string, HostEntry>, filed: seq<Filed>, f: Filed, o: Options, k: string)
    requires o.Sound() && InOrder(filed + [f])
    requires k in hosts <==> WindowOf(filed, k, CutAfter(filed, o.window)) != []
    requires k in hosts ==> hosts[k].window == WindowOf(filed, k, CutAfter(filed, o.window))
    ensures var before := FiledUnder(hosts, f, o.perHost); var cut := f.at - o.window;
      && (k in before ==> DropOld(before[k].window, cut) == WindowOf(filed + [f], k, cut))
      && (k !in before ==> WindowOf(filed + [f], k, cut) == [])
  {
    var more := filed + [f];
    var early, late := CutAfter(filed, o.window), f.at - o.window;
    assert filed != [] ==> filed[|filed| - 1] == more[|filed| - 1];
    if filed == [] {
      assert more[..0] == filed && more[0] == f;
      assert WindowOf(more, k, late) == if f.key == k then [SampleOf(f)] else [];
    } else {
      assert more[|filed|] == f && more[|filed| - 1].at <= more[|filed|].at;
      WindowMore(filed, f, k, early);
      hide WindowOf;
      var before := FiledUnder(hosts, f, o.perHost);
      assert k in before ==> before[k].window == WindowOf(more, k, early);
      assert k !in before ==> WindowOf(more, k, early) == [];
      PruneIsFilter(more, k, early, late);
    }
  }

  lemma WindowMore(filed: seq<Filed>, f: Filed, k: string, cut: int)
    requires cut <= f.at
    ensures WindowOf(filed + [f], k, cut) == WindowOf(filed, k, cut) + if f.key == k then [SampleOf(f)] else []
  {
    assert (filed + [f])[..|filed|] == filed;
  }

  lemma FiledRings(hosts: map<string, HostEntry>, filed: seq<Filed>, f: Filed, perHost: int)
    requires perHost > 0 && f.key != "" && Rings(hosts, filed, perHost)
    ensures Rings(FiledUnder(hosts, f, perHost), filed + [f], perHost)
  {
    var more := filed + [f];
    assert more[..|more| - 1] == filed && more[|more| - 1] == f;
    forall k | k in FiledUnder(hosts, f, perHost)
      ensures k != "" && RingOf(FiledUnder(hosts, f, perHost)[k], StatsOf(more, k), perHost)
    {
      if k == f.key {
        var e := if k in hosts then hosts[k] else HostEntry([], [], 0);
        RingMore(e, StatsOf(filed, k), StatOf(f), SampleOf(f), f.at, perHost);
      }
    }
  }

  lemma RingMore(e: HostEntry, stats: seq<Stat>, s: Stat, w: Sample, at: int, perHost: int)
    requires perHost > 0 && (RingOf(e, stats, perHost) || (e.recent == [] && e.window == []))
    ensures RingOf(HostEntry(Ring(e.recent + [s], perHost), e.window + [w], at), stats + [s], perHost)
  {
  }

  lemma {:induction false} DropShortens(window: seq<Sample>, cut: int)
    ensures |DropOld(window, cut)| <= |window|
  {
    if window != [] && window[0].at < cut {
      DropShortens(window[1..], cut);
    }
  }

  lemma PrunedRings(hosts: map<string, HostEntry>, filed: seq<Filed>, perHost: int, cut: int)
    requires Rings(hosts, filed, perHost)
    ensures Rings(Pruned(hosts, cut), filed, perHost)
  {
    forall k | k in Pruned(hosts, cut) ensures k != "" && RingOf(Pruned(hosts, cut)[k], StatsOf(filed, k), perHost) {
      DropShortens(hosts[k].window, cut);
    }
  }

  // The rate pair read off an exact table is the one computed from the history alone.
  lemma RateFromScratch(hosts: map<string, HostEntry>, filed: seq<Filed>, window: int)
    requires Agrees(hosts, filed, window)
    ensures JudgedHosts(hosts) == JudgedKeys(filed, window) && EscalatedHosts(hosts) == EscalatedKeys(filed, window)
  {
    hide LiveKeys, WindowOf;
  }

  lemma EscalatedAreJudged(hosts: map<string, HostEntry>)
    ensures EscalatedHosts(hosts) <= JudgedHosts(hosts) && |EscalatedHosts(hosts)| <= |JudgedHosts(hosts)|
  {
    assert EscalatedHosts(hosts) <= JudgedHosts(hosts);
    SubsetSize(EscalatedHosts(hosts), JudgedHosts(hosts));
  }

  lemma {:induction false} SubsetSize(a: set<string>, b: set<string>)
    requires a <= b
    ensures |a| <= |b|
  {
    assert b == a + (b - a);
  }

  // ---------------------------------------------------------------- the counters

  class Counters {
    const o: Options
    var hosts: map<string, HostEntry>
    var totals: Totals
    var lastDrift: Option<Drift>
    ghost var all: seq<Filed>
    ghost var drifts: seq<Drift>

    ghost predicate Valid()
      reads this
    {
      && o.Sound() && totals == TotalsOf(all) && |hosts| <= o.hostCap
      && Rings(hosts, Keyed(all), o.perHost)
      && (Calm(Keyed(all), o) ==> Agrees(hosts, Keyed(all), o.window))
      && DriftLog(drifts, lastDrift, o)
    }

    constructor (options: Options)
      ensures Valid() && o == WithDefaults(options) && all == [] && drifts == []
    {
      o := WithDefaults(options);
      hosts, totals, lastDrift := map[], Totals(0, 0, 0, 0, 0, 0, 0), None;
      all, drifts := [], [];
    }

    // Files one finished connection; the drift event it makes, if it makes one, is for the handler.
    method Observe(ev: ConnEvent, now: int) returns (drift: Option<Drift>)
      requires Valid()
      modifies this
      ensures Valid()
      ensures all == old(all) + [FiledAs(ev, now)]
      ensures EventKey(ev) == "" ==> drift == None && hosts == old(hosts)
      ensures drifts == old(drifts) + (if drift.Some? then [drift.value] else [])
      ensures EventKey(ev) != "" ==>
        drift == Fired(|JudgedHosts(hosts)|, |EscalatedHosts(hosts)|, FiledAs(ev, now).at, old(lastDrift), o)
      ensures EventKey(ev) != "" ==>
        (drift.Some? <==> Drifted(|JudgedHosts(hosts)|, |EscalatedHosts(hosts)|, FiledAs(ev, now).at, old(drifts), o))
    {
      hide Drifted, Rings, Agrees, Calm, Keyed, TotalsOf, JudgedHosts, EscalatedHosts, Counted, DriftLog, Fired;
      var f := FiledAs(ev, now);
      ghost var before := Keyed(all);
      HistoryMore(all, f);
      Count(f);
      all := all + [f];
      if f.key == "" {
        return None;
      }
      File(f, before);
      FiredExactly(|JudgedHosts(hosts)|, |EscalatedHosts(hosts)|, f.at, drifts, lastDrift, o);
      drift := Evaluate(f.at);
    }

    // The table after one event: filed, pruned, and within its cap.
    method File(f: Filed, ghost before: seq<Filed>)
      requires o.Sound() && f.key != "" && Rings(hosts, before, o.perHost)
      requires Calm(before, o) ==> Agrees(hosts, before, o.window)
      modifies this`hosts
      ensures |hosts| <= o.hostCap && Rings(hosts, before + [f], o.perHost)
      ensures Calm(before + [f], o) ==> Agrees(hosts, before + [f], o.window)
    {
      hide Rings, Agrees, Calm, FiledUnder, Pruned;
      FileHost(f);
      ghost var filed := hosts;
      FiledRings(old(hosts), before, f, o.perHost);
      Prune(f.at);
      PrunedRings(filed, before + [f], o.perHost, f.at - o.window);
      ghost var pruned := hosts;
      Evict();
      KeptRings(pruned, hosts, before + [f], o.perHost);
      if Calm(before + [f], o) {
        StillAgrees(old(hosts), before, f, o);
      }
    }

    method Count(f: Filed)
      modifies this`totals
      ensures totals == Counted(old(totals), f)
    {
      var t := totals.(conns := totals.conns + 1);
      t := if f.ok then t.(ok := t.ok + 1) else t.(failed := t.failed + 1);
      match f.scope {
        case Bypass => t := t.(bypassed := t.bypassed + 1);
        case Direct => t := t.(direct := t.direct + 1);
        case _ =>
      }
      if Judged(f.scope) {
        t := t.(judged := t.judged + 1);
        if f.escalated {
          t := t.(escalated := t.escalated + 1);
        }
      }
      totals := t;
    }

    method FileHost(f: Filed)
      requires o.Sound()
      modifies this`hosts
      ensures hosts == FiledUnder(old(hosts), f, o.perHost)
    {
      var e := if f.key in hosts then hosts[f.key] else HostEntry([], [], 0);
      e := e.(last := f.at, recent := e.recent + [StatOf(f)]);
      if |e.recent| > o.perHost {
        e := e.(recent := e.recent[|e.recent| - o.perHost..]);
      }
      e := e.(window := e.window + [SampleOf(f)]);
      hosts := hosts[f.key := e];
    }

    // What has left the window goes, host by host, and so does a host with no sample in it.
    method Prune(now: int)
      modifies this`hosts
      ensures hosts == Pruned(old(hosts), now - o.window)
    {
      var cut := now - o.window;
      var left := hosts.Keys;
      while left != {}
        invariant left <= old(hosts).Keys
        invariant forall k | k in left :: k in hosts && hosts[k] == old(hosts)[k]
        invariant forall k | k in old(hosts) && k !in left ::
          (k in hosts <==> k in Pruned(old(hosts), cut)) && (k in hosts ==> hosts[k] == Pruned(old(hosts), cut)[k])
        invariant forall k | k in hosts :: k in old(hosts)
      {
        var k :| k in left;
        var w := hosts[k].window;
        var i := 0;
        while i < |w| && w[i].at < cut
          invariant 0 <= i <= |w| && DropOld(w[i..], cut) == DropOld(w, cut)
        {
          i := i + 1;
        }
        if i < |w| {
          hosts := hosts[k := hosts[k].(window := w[i..])];
        } else {
          hosts := hosts - {k};
        }
        left := left - {k};
      }
      assert hosts.Keys == Pruned(old(hosts), cut).Keys;
    }

    // Keeps the table within its cap; the hosts not heard of for longest go.
    method Evict()
      requires o.Sound()
      modifies this`hosts
      ensures |hosts| <= o.hostCap
      ensures hosts.Keys <= old(hosts).Keys && forall k | k in hosts :: hosts[k] == old(hosts)[k]
      ensures |old(hosts)| <= o.hostCap ==> hosts == old(hosts)
      ensures |old(hosts)| > o.hostCap ==> |hosts| == o.hostCap
      ensures forall k, gone | k in hosts && gone in old(hosts) && gone !in hosts :: old(hosts)[gone].last <= hosts[k].last
    {
      while |hosts| > o.hostCap
        invariant hosts.Keys <= old(hosts).Keys && forall k | k in hosts :: hosts[k] == old(hosts)[k]
        invariant |hosts| >= o.hostCap || hosts == old(hosts)
        invariant |old(hosts)| <= o.hostCap ==> hosts == old(hosts)
        invariant forall k, gone | k in hosts && gone in old(hosts) && gone !in hosts :: old(hosts)[gone].last <= hosts[k].last
        decreases |hosts|
      {
        var oldest := Oldest();
        hosts := hosts - {oldest};
      }
    }

    method Oldest() returns (key: string)
      requires |hosts| > 0
      ensures key in hosts && forall k | k in hosts :: hosts[key].last <= hosts[k].last
    {
      key :| key in hosts;
      var left := hosts.Keys;
      while left != {}
        invariant left <= hosts.Keys && key in hosts
        invariant forall k | k in hosts && k !in left :: hosts[key].last <= hosts[k].last
      {
        var k :| k in left;
        if hosts[k].last < hosts[key].last {
          key := k;
        }
        left := left - {k};
      }
    }

    // The drift numerator and denominator, in distinct hosts.
    method Rate() returns (judged: nat, escalated: nat)
      ensures judged == |JudgedHosts(hosts)| && escalated == |EscalatedHosts(hosts)|
    {
      var left := hosts.Keys;
      ghost var seenJudged, seenEscalated: set<string> := {}, {};
      judged, escalated := 0, 0;
      while left != {}
        invariant left <= hosts.Keys
        invariant seenJudged == (set k | k in hosts && k !in left && AnyJudged(hosts[k].window))
        invariant seenEscalated == (set k | k in hosts && k !in left && AnyEscalated(hosts[k].window))
        invariant judged == |seenJudged| && escalated == |seenEscalated|
      {
        var k :| k in left;
        var sawJudged, sawEscalation := Look(hosts[k].window);
        left := left - {k};
        if sawJudged {
          judged := judged + 1;
          seenJudged := seenJudged + {k};
        }
        if sawJudged && sawEscalation {
          escalated := escalated + 1;
          seenEscalated := seenEscalated + {k};
        }
      }
      assert seenJudged == JudgedHosts(hosts) && seenEscalated == EscalatedHosts(hosts);
    }

    method Look(window: seq<Sample>) returns (sawJudged: bool, sawEscalation: bool)
      ensures sawJudged == AnyJudged(window) && sawEscalation == AnyEscalated(window)
    {
      sawJudged, sawEscalation := false, false;
      for i := 0 to |window|
        invariant sawJudged == exists j | 0 <= j < i :: window[j].judged
        invariant !sawEscalation && forall j | 0 <= j < i :: !(window[j].judged && window[j].escalated)
      {
        if !window[i].judged {
          continue;
        }
        sawJudged := true;
        if window[i].escalated {
          sawEscalation := true;
          break;
        }
      }
    }

    // Fires a drift event when the threshold is crossed and the cooldown has passed.
    method Evaluate(now: int) returns (drift: Option<Drift>)
      requires o.Sound() && DriftLog(drifts, lastDrift, o)
      modifies this`lastDrift, this`drifts
      ensures drift == Fired(|JudgedHosts(hosts)|, |EscalatedHosts(hosts)|, now, old(lastDrift), o)
      ensures drifts == old(drifts) + (if drift.Some? then [drift.value] else [])
      ensures DriftLog(drifts, lastDrift, o)
    {
      var judged, escalated := Rate();
      EscalatedAreJudged(hosts);
      var rate := if judged > 0 then escalated as real / judged as real else 0.0;
      if judged < o.minHosts || rate <= o.rate {
        return None;
      }
      if lastDrift.Some? && now - lastDrift.value.time < o.cooldown {
        return None;
      }
      var d := Drift(now, judged, escalated, rate);
      lastDrift := Some(d);
      drifts := drifts + [d];
      drift := Some(d);
    }
  }

  lemma HistoryMore(all: seq<Filed>, f: Filed)
    ensures TotalsOf(all + [f]) == Counted(TotalsOf(all), f)
    ensures Keyed(all + [f]) == if f.key == "" then Keyed(all) else Keyed(all) + [f]
  {
    assert (all + [f])[..|all|] == all;
  }

  lemma KeptRings(hosts: map<string, HostEntry>, kept: map<string, HostEntry>, filed: seq<Filed>, perHost: int)
    requires Rings(hosts, filed, perHost) && kept.Keys <= hosts.Keys && forall k | k in kept :: kept[k] == hosts[k]
    ensures Rings(kept, filed, perHost)
  {
  }

  lemma StillAgrees(hosts: map<string, HostEntry>, filed: seq<Filed>, f: Filed, o: Options)
    requires o.Sound() && Calm(filed + [f], o) && (Calm(filed, o) ==> Agrees(hosts, filed, o.window))
    ensures var after := Pruned(FiledUnder(hosts, f, o.perHost), f.at - o.window);
      Agrees(after, filed + [f], o.window) && |after| <= o.hostCap
  {
    CalmBefore(filed, f, o);
    hide LiveKeys, WindowOf, Pruned, FiledUnder;
    FiledAgrees(hosts, filed, f, o);
    var after := Pruned(FiledUnder(hosts, f, o.perHost), f.at - o.window);
    assert |after| == |after.Keys|;
  }

  // Counters agree with history: after any run of events in order that never overfills the table, each
  // host's window is the filter of everything ever filed, and the pair behind every drift decision is
  // the one the history alone gives.
  lemma CountersAgree(c: Counters)
    requires c.Valid() && Calm(Keyed(c.all), c.o)
    ensures var filed, window := Keyed(c.all), c.o.window;
      && (forall k :: k in c.hosts <==> WindowOf(filed, k, CutAfter(filed, window)) != [])
      && (forall k | k in c.hosts :: c.hosts[k].window == WindowOf(filed, k, CutAfter(filed, window)))
      && JudgedHosts(c.hosts) == JudgedKeys(filed, window) && EscalatedHosts(c.hosts) == EscalatedKeys(filed, window)
  {
    hide LiveKeys, WindowOf, JudgedHosts, EscalatedHosts, JudgedKeys, EscalatedKeys, Calm, Rings, TotalsOf, Keyed;
    RateFromScratch(c.hosts, Keyed(c.all), c.o.window);
    forall k ensures k in c.hosts <==> WindowOf(Keyed(c.all), k, CutAfter(Keyed(c.all), c.o.window)) != [] {
      LiveIsWindowed(Keyed(c.all), c.o.window, k);
    }
  }
}
