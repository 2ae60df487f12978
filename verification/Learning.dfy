// What a walk teaches the verdict store (internal/flow/ladder.go), as an object over the store, and
// what that makes of the store over every history of walks.
module Learning {
  import opened Octets
  import opened Settings
  import opened Ladder
  import opened Escalation

  const LEARNED_TTL := 7 * 24 * 3600

  datatype Effect = NoEffect | PutVerdict(v: Verdict) | Demote

  // ---------------------------------------------------------------- what is recorded

  predicate IsLearned(source: Source) {
    source.LearnedDesync? || source.LearnedPlain?
  }

  predicate Revisable(source: Source) {
    IsLearned(source) || source.Probed?
  }

  // What has been decided about a host stands against what is observed of it.
  predicate MayPut(s: Setup, prev: Verdict) {
    s.keyed && !prev.source.BuiltinBypass? && !prev.source.UserBypass? && !prev.cls.Bypass?
  }

  function PutEffect(s: Setup, prev: Verdict, nv: Verdict): Effect {
    if MayPut(s, prev) then PutVerdict(nv) else NoEffect
  }

  function RecordWin(prev: Verdict, spec: Spec, now: int): Verdict {
    var wins := if prev.spec == spec && IsLearned(prev.source) then prev.wins + 1 else 1;
    prev.(learned := now, losses := 0, wins := wins, spec := spec, expires := Some(now + LEARNED_TTL),
          cls := if spec == "" then Direct else Desync,
          source := if spec == "" then LearnedPlain else LearnedDesync)
  }

  // The cached rung the origin has just rejected is dropped on the spot.
  function Forget(prev: Verdict, now: int): Verdict {
    prev.(cls := Watch, spec := "", source := Default, expires := None, wins := 0,
          losses := prev.losses + 1, learned := now)
  }

  // cancelled: the walk's own context ended, which says nothing about the host.
  function Conclude(s: Setup, prev: Verdict, o: Outcome, now: int, cancelled: bool): (Verdict, Effect) {
    match o.end
    case Won(spec, _, _) =>
      var nv := RecordWin(prev, spec, now);
      (nv, PutEffect(s, prev, nv))
    case HandedOver(spec, _, _, rejected) =>
      if rejected && s.keyed && Revisable(prev.source) && prev.spec == spec then
        var nv := Forget(prev, now);
        (nv, PutEffect(s, prev, nv))
      else (prev, NoEffect)
    case Lost =>
      if !cancelled && s.keyed && CountEmitted(o.attempts) > 0 && Revisable(prev.source)
      then (prev.(losses := prev.losses + 1), Demote)
      else (prev, NoEffect)
  }

  // ---------------------------------------------------------------- the store

  type Verdicts = map<string, Verdict>

  // A write may fail, and room for it may be made by dropping others; a demotion counts a loss or
  // drops the host, and never creates a verdict.
  ghost predicate StoreStep(old_: Verdicts, new_: Verdicts, key: string, e: Effect) {
    match e
    case NoEffect => new_ == old_
    case PutVerdict(v) =>
      new_ == old_ || (key in new_ && new_[key] == v && forall k | k in new_ && k != key :: k in old_ && new_[k] == old_[k])
    case Demote =>
      forall k | k in new_ :: k in old_ && (new_[k] == old_[k] || (k == key && new_[k] == old_[k].(losses := old_[k].losses + 1)))
  }

  const HOST_CAP := 4096
  const DEMOTE_THRESHOLD := 3

  // A loss is counted, and the third on end drops the host.
  function Demoted(verdicts: Verdicts, key: string): Verdicts {
    if key !in verdicts then verdicts
    else
      var v := verdicts[key].(losses := verdicts[key].losses + 1);
      if v.losses >= DEMOTE_THRESHOLD then verdicts - {key} else verdicts[key := v]
  }

  // What an open store that has room makes of an effect.
  function Stored(verdicts: Verdicts, key: string, e: Effect): Verdicts {
    match e
    case NoEffect => verdicts
    case PutVerdict(v) => verdicts[key := v]
    case Demote => Demoted(verdicts, key)
  }

  class Store {
    var verdicts: Verdicts
    var closed: bool

    ghost predicate HasRoom(key: string)
      reads this
    {
      !closed && |verdicts.Keys + {key}| <= HOST_CAP
    }

    // A full store makes room; which host goes is the least recently used one's affair.
    method Put(key: string, v: Verdict)
      modifies this`verdicts
      ensures StoreStep(old(verdicts), verdicts, key, PutVerdict(v))
      ensures closed ==> verdicts == old(verdicts)
      ensures old(HasRoom(key)) ==> verdicts == Stored(old(verdicts), key, PutVerdict(v))
    {
      if closed {
        return;
      }
      var next := verdicts[key := v];
      assert next.Keys == verdicts.Keys + {key};
      if |next.Keys| > HOST_CAP {
        var evicted: set<string> := *;
        next := next - (evicted - {key});
      }
      verdicts := next;
    }

    method DemoteHost(key: string)
      modifies this`verdicts
      ensures StoreStep(old(verdicts), verdicts, key, Demote)
      ensures verdicts == if closed then old(verdicts) else Stored(old(verdicts), key, Demote)
    {
      if !closed && key in verdicts {
        var v := verdicts[key].(losses := verdicts[key].losses + 1);
        verdicts := if v.losses >= DEMOTE_THRESHOLD then verdicts - {key} else verdicts[key := v];
      }
    }
  }

  // A cached winner stands two losses and not a third.
  lemma ThreeLossesDrop(verdicts: Verdicts, key: string)
    requires key in verdicts && verdicts[key].losses == 0
    ensures var once := Demoted(verdicts, key);
      var twice := Demoted(once, key);
      && key in twice && twice[key] == verdicts[key].(losses := 2)
      && Demoted(twice, key) == verdicts - {key}
  {
    var once := Demoted(verdicts, key);
    assert once[key].losses == 1;
    assert Demoted(once, key)[key].losses == 2;
  }

  // ---------------------------------------------------------------- the runner

  class LadderRunner {
    const setup: Setup
    const store: Store

    constructor (setup: Setup, store: Store)
      ensures this.setup == setup && this.store == store
    {
      this.setup := setup;
      this.store := store;
    }

    // Emits one rung on an open connection and judges the result.
    method AttemptRung(st: Strategy, r: Reply, last: bool, final: bool) returns (att: Attempt, pre: Bytes, j: Judgement)
      ensures (att, j) == AttemptOn(setup, st, r, last, final)
      ensures j.Evidence? || j.Handover? ==> pre == FirstRead(r).data
    {
      pre := [];
      if !r.transport {
        return Attempt(st.spec, FailDial, true, false, Wire(OtherErr)), [], Stop;
      }
      if !r.builds {
        return Attempt(st.spec, FailBudget, true, false, Wire(OtherErr)), [], Skip;
      }
      if !r.sendErr.NoErr? {
        if r.sendErr.CapUnavailable? {
          return Attempt(st.spec, FailBudget, true, false, Wire(r.sendErr)), [], Skip;
        }
        var f := Classify(r.sendErr, false);
        return Attempt(st.spec, f, true, false, Wire(r.sendErr)), [], RetryOn(f, last);
      }
      if !r.extraErr.NoErr? {
        var f := Classify(r.extraErr, false);
        return Attempt(st.spec, f, true, false, Wire(r.extraErr)), [], RetryOn(f, last);
      }
      var first := Judge(r);
      if first.data != [] {
        if Rejects(setup, r, first) {
          return Attempt(st.spec, FailNone, true, true, Rejection), first.data, Handover;
        }
        return Attempt(st.spec, FailNone, true, false, Nothing), first.data, Evidence;
      }
      var f := Classify(first.err, false);
      att := Attempt(st.spec, f, true, false, Wire(first.err));
      if f.FailTimeoutBefore? && final && SafeToHandOver(st) {
        return att, [], Handover;
      }
      j := RetryOn(f, last);
    }

    // One turn of the walk: the budget, the replay gate, the message, the dial, and the attempt.
    method TryRung(w: Surroundings, rungs: seq<Spec>, i: nat, dialled: nat) returns (m: Move)
      requires i < |rungs|
      ensures m == MoveAt(setup, w, rungs, i, dialled)
    {
      hide AttemptOn, AnyRung, MoreRungs, FirstRead, Rejects;
      var maxAtt := if setup.maxAttempts <= 0 then 5 else setup.maxAttempts;
      if dialled >= maxAtt || !w.alive(i) {
        return Over;
      }
      if i > 0 && !setup.replayable {
        return Ends(Attempt(rungs[i], FailNotReplayable, false, false, Replay), 0, [], Lost);
      }
      var parsed := setup.parse(rungs[i]);
      if parsed.None? {
        return Ends(Attempt(rungs[i], FailBudget, false, false, Unparseable), 0, [], Lost);
      }
      var st := parsed.value;
      if !setup.applies(st) {
        return Goes(Attempt(rungs[i], FailBudget, false, false, Refused), 0, []);
      }
      var r := w.net(dialled);
      if !r.connects {
        return Goes(Attempt(rungs[i], FailDial, true, false, Wire(DialErr)), 1, []);
      }
      var last := i == |rungs| - 1 || dialled + 1 >= maxAtt;
      var more := LookAhead(setup, rungs, i);
      var att, pre, j := AttemptRung(st, r, last, last || !more);
      match j
      case Evidence => m := Ends(att, 1, [], Won(rungs[i], dialled, pre));
      case Handover => m := Ends(att, 1, [], HandedOver(rungs[i], dialled, pre, att.rejected));
      case Stop => m := Ends(att, 1, [dialled], Lost);
      case _ => m := Goes(att, 1, [dialled]);
    }

    // The whole walk: rung after rung until one turn ends it, or the rungs are through.
    method WalkRungs(w: Surroundings, rungs: seq<Spec>) returns (o: Outcome)
      ensures o == Walk(setup, w, rungs)
      ensures Live(w) ==> exists m :: Decided(setup, w, rungs, 0, m, o)
    {
      var attempts: seq<Attempt>, closed: seq<nat> := [], [];
      var dialled, i := 0, 0;
      AfterNothing(WalkFrom(setup, w, rungs, 0, 0));
      hide *;
      WalkEnds(setup, w, rungs);
      while i < |rungs|
        invariant 0 <= i <= |rungs| && 0 <= dialled
        invariant Walk(setup, w, rungs) == After(attempts, dialled, closed, WalkFrom(setup, w, rungs, i, dialled))
        decreases |rungs| - i
      {
        AfterMove(setup, w, rungs, i, dialled, attempts, closed);
        var m := TryRung(w, rungs, i, dialled);
        if m.Over? {
          break;
        }
        attempts, dialled, closed := attempts + [m.att], dialled + m.dials, closed + m.closed;
        if m.Ends? {
          return Outcome(attempts, dialled, closed, m.end);
        }
        i := i + 1;
      }
      AfterMove(setup, w, rungs, i, dialled, attempts, closed);
      OverAtEnd(setup, w, rungs, i, dialled);
      o := Outcome(attempts, dialled, closed, Lost);
    }

    // One whole connection: the walk, and what the store is told about it.
    method Run(key: string, prev: Verdict, defaultLadder: seq<Spec>, w: Surroundings, now: int, cancelled: bool)
      returns (o: Outcome, nv: Verdict)
      modifies store`verdicts
      ensures o == Walk(setup, w, Rungs(prev, defaultLadder))
      ensures nv == Conclude(setup, prev, o, now, cancelled).0
      ensures StoreStep(old(store.verdicts), store.verdicts, key, Conclude(setup, prev, o, now, cancelled).1)
      ensures old(store.HasRoom(key)) ==>
        store.verdicts == Stored(old(store.verdicts), key, Conclude(setup, prev, o, now, cancelled).1)
    {
      var rungs := BuildRungs(prev, defaultLadder);
      o := WalkRungs(w, rungs);
      nv := prev;
      match o.end
      case Won(spec, _, _) =>
        nv := RecordWin(prev, spec, now);
        if MayPut(setup, prev) {
          store.Put(key, nv);
        }
      case HandedOver(spec, _, _, rejected) =>
        if rejected && setup.keyed && Revisable(prev.source) && prev.spec == spec {
          nv := Forget(prev, now);
          if MayPut(setup, prev) {
            store.Put(key, nv);
          }
        }
      case Lost =>
        if !cancelled && setup.keyed && CountEmitted(o.attempts) > 0 && Revisable(prev.source) {
          store.DemoteHost(key);
          nv := prev.(losses := prev.losses + 1);
        }
    }
  }

  // What has been done so far, in front of what is still to come.
  function After(attempts: seq<Attempt>, dials: nat, closed: seq<nat>, rest: Outcome): Outcome {
    Outcome(attempts + rest.attempts, dials + rest.dials, closed + rest.closed, rest.end)
  }

  lemma OverAtEnd(s: Setup, w: Surroundings, rungs: seq<Spec>, i: nat, dialled: nat)
    ensures i >= |rungs| ==> MoveAt(s, w, rungs, i, dialled) == Over
  {
  }

  lemma AfterNothing(o: Outcome)
    ensures After([], 0, [], o) == o
  {
  }

  lemma AfterMove(s: Setup, w: Surroundings, rungs: seq<Spec>, i: nat, dialled: nat, attempts: seq<Attempt>, closed: seq<nat>)
    ensures var m := MoveAt(s, w, rungs, i, dialled);
      var walk := After(attempts, dialled, closed, WalkFrom(s, w, rungs, i, dialled));
      && (m.Over? ==> walk == Outcome(attempts, dialled, closed, Lost))
      && (m.Ends? ==> walk == Outcome(attempts + [m.att], dialled + m.dials, closed + m.closed, m.end))
      && (m.Goes? ==> walk == After(attempts + [m.att], dialled + m.dials, closed + m.closed,
                                    WalkFrom(s, w, rungs, i + 1, dialled + m.dials)))
  {
    hide MoveAt;
    match MoveAt(s, w, rungs, i, dialled)
    case Over =>
      assert attempts + [] == attempts && closed + [] == closed;
    case Ends(_, _, _, _) =>
    case Goes(att, dials, more) =>
      var rest := WalkFrom(s, w, rungs, i + 1, dialled + dials);
      assert attempts + ([att] + rest.attempts) == (attempts + [att]) + rest.attempts;
      assert closed + (more + rest.closed) == (closed + more) + rest.closed;
  }

  // ---------------------------------------------------------------- every history

  datatype Visit = Visit(key: string, setup: Setup, world: Surroundings, prev: Verdict, ladder: seq<Spec>, now: int, cancelled: bool)

  datatype Happening = Walked(visit: Visit) | Dropped(key: string)

  function OutcomeOf(h: Visit): Outcome {
    Walk(h.setup, h.world, Rungs(h.prev, h.ladder))
  }

  // The stores along a history that began with an empty one: walks under any verdict against any
  // network, and expiry or eviction in between.
  ghost predicate History(hs: seq<Happening>, stores: seq<Verdicts>) {
    && |stores| == |hs| + 1 && stores[0] == map[]
    && forall n | 0 <= n < |hs| :: HappeningStep(hs[n], stores[n], stores[n + 1])
  }

  ghost predicate HappeningStep(h: Happening, before: Verdicts, after: Verdicts) {
    match h
    case Walked(v) =>
      StoreStep(before, after, v.key, Conclude(v.setup, v.prev, OutcomeOf(v), v.now, v.cancelled).1)
    case Dropped(key) => after == before - {key}
  }

  // In the visit's walk the connection of spec answered, with octets that are no alert, on an address
  // that is no sinkhole, and without a hard error; each connection before it had brought nothing.
  ghost predicate Saw(h: Visit, spec: Spec) {
    var o := OutcomeOf(h);
    && o.end.Won? && o.end.spec == spec
    && var r := h.world.net(o.end.conn);
    && o.end.pre == Answer(r) != []
    && !r.sinkhole
    && !(h.setup.tls && IsTLSAlert(o.end.pre))
    && (FirstRead(r).err.NoErr? || FirstRead(r).err.TimedOut?)
    && o.dials == o.end.conn + 1
    && forall n | 0 <= n < o.end.conn :: Answer(h.world.net(n)) == []
  }

  lemma WinSaw(h: Visit)
    requires OutcomeOf(h).end.Won?
    ensures Saw(h, OutcomeOf(h).end.spec)
  {
    hide WalkFrom, Rungs, Budget;
    var rungs := Rungs(h.prev, h.ladder);
    WinIsEvidence(h.setup, h.world, rungs, 0, 0);
    CommitGuard(h.setup, h.world, rungs, 0, 0);
    assert WalkFrom(h.setup, h.world, rungs, 0, 0) == OutcomeOf(h);
    var o := OutcomeOf(h);
    forall n | 0 <= n < o.end.conn ensures Answer(h.world.net(n)) == [] {
      assert !Returns(o.end, n);
    }
    assert Answer(h.world.net(o.end.conn)) == FirstRead(h.world.net(o.end.conn)).data;
  }

  // The visit's walk is the one that put v into the store.
  ghost predicate Wrote(h: Visit, v: Verdict) {
    Conclude(h.setup, h.prev, OutcomeOf(h), h.now, h.cancelled).1 == PutVerdict(v)
  }

  predicate OnlyDemoted(v: Verdict, now: Verdict) {
    now == v.(losses := now.losses)
  }

  // From stores[i + 1], where walk i wrote it, to stores[n] the verdict under key is only ever demoted.
  ghost predicate WrittenAt(hs: seq<Happening>, stores: seq<Verdicts>, key: string, i: nat, n: nat)
    requires |stores| == |hs| + 1 && i < n <= |hs|
  {
    && hs[i].Walked? && hs[i].visit.key == key && key in stores[i + 1] && Wrote(hs[i].visit, stores[i + 1][key])
    && forall m | i < m <= n :: key in stores[m] && OnlyDemoted(stores[i + 1][key], stores[m][key])
  }

  // Learning over all histories: the walk that wrote a learned verdict, which has at most been demoted
  // since, saw the very rung it names answer on that host.
  lemma {:induction false} LearnedVerdictsWereSeen(hs: seq<Happening>, stores: seq<Verdicts>, n: nat, key: string) returns (i: nat)
    requires History(hs, stores) && n <= |hs| && key in stores[n] && IsLearned(stores[n][key].source)
    ensures i < n && WrittenAt(hs, stores, key, i, n) && Saw(hs[i].visit, stores[n][key].spec)
  {
    hide Saw, OutcomeOf, Conclude;
    i := n - 1;
    assert HappeningStep(hs[i], stores[i], stores[i + 1]);
    if key in stores[i] && OnlyDemoted(stores[i][key], stores[n][key]) {
      i := LearnedVerdictsWereSeen(hs, stores, i, key);
    } else {
      LearnedByWin(hs[i], stores[i], stores[n], key);
    }
  }

  lemma LearnedByWin(h: Happening, before: Verdicts, after: Verdicts, key: string)
    requires HappeningStep(h, before, after) && key in after && IsLearned(after[key].source)
    requires !(key in before && OnlyDemoted(before[key], after[key]))
    ensures h.Walked? && h.visit.key == key && Wrote(h.visit, after[key]) && Saw(h.visit, after[key].spec)
  {
    hide Saw, OutcomeOf;
    WinSaw(h.visit);
  }

  // Before a host is put on a desync, plain was tried on it first and brought no byte at all; only a
  // verdict that already names a desync spec skips that.
  lemma DesyncOnlyAfterPlain(h: Visit)
    requires PlainApplies(h.setup) && !(h.prev.cls.Desync? && h.prev.spec != "")
    requires var o := OutcomeOf(h); o.end.Won? && o.end.spec != ""
    ensures var o := OutcomeOf(h);
      |o.attempts| >= 2 && o.attempts[0].spec == "" && o.attempts[0].emitted && Answer(h.world.net(0)) == []
  {
    hide AttemptOn, Budget, Answer;
    var rungs := Rungs(h.prev, h.ladder);
    RungsLaws(h.prev, h.ladder);
    MoveFacts(h.setup, h.world, rungs, 0, 0);
    CommitGuard(h.setup, h.world, rungs, 1, 1);
    ConnectionsCount(h.setup, h.world, rungs, 1, 1);
    AttemptedWhenWon(h.setup, h.world, rungs, 1, 1);
  }

  lemma AttemptedWhenWon(s: Setup, w: Surroundings, rungs: seq<Spec>, i: nat, dialled: nat)
    ensures var o := WalkFrom(s, w, rungs, i, dialled); o.end.Won? ==> o.attempts != []
  {
  }

  // The walk of h is decided by its m-th dial.
  ghost predicate DecidedAt(h: Visit, m: nat) {
    var rungs := Rungs(h.prev, h.ladder);
    && Live(h.world) && m < Reach(h.setup, rungs, 0) && !GoesOn(h.setup, h.world, rungs, 0, m)
    && forall n | 0 <= n < m :: GoesOn(h.setup, h.world, rungs, 0, n)
  }

  // What answered is learned: the store then holds the rung of the connection that settled the walk, as
  // a winner with no loss against it, unless the verdict was a bypass.
  lemma AnswerIsLearned(h: Visit, m: nat, before: Verdicts)
    requires DecidedAt(h, m) && MayPut(h.setup, h.prev)
    requires var r := h.world.net(m); Answer(r) != [] && !Rejects(h.setup, r, FirstRead(r))
    ensures var rungs, after := Rungs(h.prev, h.ladder),
                                Stored(before, h.key, Conclude(h.setup, h.prev, OutcomeOf(h), h.now, h.cancelled).1);
      && h.key in after && after[h.key].spec == Usable(h.setup, Open(h.setup, rungs))[m]
      && after[h.key].losses == 0 && IsLearned(after[h.key].source)
      && after[h.key].expires == Some(h.now + LEARNED_TTL)
  {
    hide GoesOn, Reach, Usable, Walk, Rungs, Answer, Rejects, FirstRead;
    FirstToSettle(h.setup, h.world, Rungs(h.prev, h.ladder), m);
  }

  // A learned rung whose connection brings octets that count against it is forgotten at once.
  lemma RejectionIsForgotten(h: Visit, m: nat, before: Verdicts)
    requires DecidedAt(h, m) && MayPut(h.setup, h.prev) && Revisable(h.prev.source)
    requires h.prev.spec == Usable(h.setup, Open(h.setup, Rungs(h.prev, h.ladder)))[m]
    requires var r := h.world.net(m); Answer(r) != [] && Rejects(h.setup, r, FirstRead(r))
    ensures var after := Stored(before, h.key, Conclude(h.setup, h.prev, OutcomeOf(h), h.now, h.cancelled).1);
      h.key in after && after[h.key].source.Default? && after[h.key].spec == "" && after[h.key].wins == 0
  {
    hide GoesOn, Reach, Usable, Walk, Rungs, Answer, Rejects, FirstRead;
    FirstToSettle(h.setup, h.world, Rungs(h.prev, h.ladder), m);
  }

  // A learned verdict none of whose rungs is answered counts a loss, unless the client had gone.
  lemma LossIsCounted(h: Visit)
    requires var rungs := Rungs(h.prev, h.ladder);
      && Live(h.world) && Reach(h.setup, rungs, 0) > 0
      && forall n | 0 <= n < Reach(h.setup, rungs, 0) :: GoesOn(h.setup, h.world, rungs, 0, n)
    requires h.setup.keyed && Revisable(h.prev.source) && !h.cancelled
    ensures Conclude(h.setup, h.prev, OutcomeOf(h), h.now, h.cancelled).1 == Demote
  {
    hide GoesOn, Reach, Usable, Rungs, WalkFrom, CountEmitted;
    var rungs := Rungs(h.prev, h.ladder);
    NoneSettles(h.setup, h.world, rungs);
    DialsCounted(h.setup, h.world, rungs, 0, 0);
  }

  // A bypass verdict: plain once, unmodified, never escalated, and never written over. The store can
  // only hear of it through a demotion, and that exactly when the bypass came from an observation.
  lemma BypassNeverEscalates(h: Visit)
    requires h.prev.cls.Bypass? && PlainApplies(h.setup)
    ensures var o := OutcomeOf(h);
      && o.dials <= 1 && (forall a | a in o.attempts :: a.spec == "")
      && !Conclude(h.setup, h.prev, o, h.now, h.cancelled).1.PutVerdict?
      && (Conclude(h.setup, h.prev, o, h.now, h.cancelled).1.Demote? <==>
            o.end.Lost? && !h.cancelled && h.setup.keyed && o.dials == 1 && Revisable(h.prev.source))
  {
    hide MoveAt, Budget, Answer;
    MoveFacts(h.setup, h.world, [""], 0, 0);
    MoveFacts(h.setup, h.world, [""], 1, 1);
    MoveFacts(h.setup, h.world, [""], 1, 0);
    ConnectionsConserved(h.setup, h.world, [""], 0, 0);
    assert MoveAt(h.setup, h.world, [""], 1, 1).Over? && MoveAt(h.setup, h.world, [""], 1, 0).Over?;
  }

  // A bypass that came from a rule is out of the store's reach altogether.
  lemma RuleBypassLeavesStore(h: Visit, before: Verdicts, after: Verdicts)
    requires h.prev.cls.Bypass? && PlainApplies(h.setup) && !Revisable(h.prev.source)
    requires HappeningStep(Walked(h), before, after)
    ensures after == before
  {
    BypassNeverEscalates(h);
  }
}
