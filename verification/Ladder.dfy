// The escalation ladder (internal/flow/ladder.go, classify.go): one client connection, a list of
// rungs, a fresh upstream connection per emitted rung, and the verdict that is learned from it.
module Ladder {
  import opened Octets
  import opened Settings

  // "" is the plain strategy.
  type Spec = string

  datatype Class = Bypass | Direct | Watch | Desync
  datatype Source = BuiltinBypass | UserBypass | UserInclude | Probed | LearnedDesync | LearnedPlain | Default

  // The classes of policy/scope.go; expires == None is never.
  datatype Verdict = Verdict(cls: Class, spec: Spec, source: Source, ladder: seq<Spec>,
                             wins: nat, losses: nat, learned: int, expires: Option<int>)

  datatype Failure =
    | FailNone | FailDial | FailResetBefore | FailTimeoutBefore | FailResetAfter
    | FailNotReplayable | FailBudget | FailTornStream

  predicate Retryable(f: Failure) {
    f.FailResetBefore? || f.FailTimeoutBefore?
  }

  // The shapes of error Classify can tell apart.
  datatype WireErr = NoErr | DialErr | NotReplayableErr | CapUnavailable | ShortWrite | TimedOut | OtherErr

  function Classify(err: WireErr, committed: bool): Failure {
    if err.NoErr? then FailNone
    else if committed then FailResetAfter
    else match err
      case DialErr => FailDial
      case NotReplayableErr => FailNotReplayable
      case CapUnavailable => FailBudget
      case ShortWrite => FailTornStream
      case TimedOut => FailTimeoutBefore
      case _ => FailResetBefore
  }

  // spec is the canonical spelling; risky: the strategy needs a capability of handoverRisk.
  datatype Strategy = Strategy(spec: Spec, risky: bool)

  predicate SafeToHandOver(st: Strategy) {
    st.spec == "" || !st.risky
  }

  // One first message against one build: what parses, what applies to it, and what it is.
  datatype Setup = Setup(parse: Spec -> Option<Strategy>, applies: Strategy -> bool,
                         replayable: bool, tls: bool, maxAttempts: int, keyed: bool)

  // Plain always parses and always applies.
  predicate PlainApplies(s: Setup) {
    s.parse("").Some? && s.parse("").value.spec == "" && s.applies(s.parse("").value)
  }

  function Budget(s: Setup): nat {
    if s.maxAttempts <= 0 then 5 else s.maxAttempts
  }

  // One read of the response; what an upstream connection does from dial to first byte.
  datatype Read = Read(data: Bytes, err: WireErr)

  datatype Reply = Reply(connects: bool, transport: bool, builds: bool, sendErr: WireErr, extraErr: WireErr,
                         deadlineErr: bool, got: seq<Read>, sinkhole: bool)

  // ---------------------------------------------------------------- judging one attempt

  // The first read that brings bytes or an error; when there is none, the response window closes.
  function Judged(got: seq<Read>): (r: Read) {
    if got == [] then Read([], TimedOut)
    else if got[0].data != [] || !got[0].err.NoErr? then got[0]
    else Judged(got[1..])
  }

  method Judge(r: Reply) returns (first: Read)
    ensures r.deadlineErr ==> first == Read([], OtherErr)
    ensures !r.deadlineErr ==> first == Judged(r.got)
  {
    if r.deadlineErr {
      return Read([], OtherErr);
    }
    var i := 0;
    while i < |r.got|
      invariant 0 <= i <= |r.got| && Judged(r.got[i..]) == Judged(r.got)
    {
      if r.got[i].data != [] || !r.got[i].err.NoErr? {
        return r.got[i];
      }
      i := i + 1;
    }
    first := Read([], TimedOut);
  }

  function FirstRead(r: Reply): Read {
    if r.deadlineErr then Read([], OtherErr) else Judged(r.got)
  }

  predicate Reached(r: Reply) {
    r.connects && r.transport && r.builds && r.sendErr.NoErr? && r.extraErr.NoErr?
  }

  // The upstream bytes this connection handed the ladder.
  function Answer(r: Reply): Bytes {
    if Reached(r) then FirstRead(r).data else []
  }

  predicate IsTLSAlert(b: Bytes) {
    |b| >= 3 && b[0] == 0x15 && b[1] == 0x03 && b[2] <= 0x04
  }

  // The octets that came back count against the rung.
  predicate Rejects(s: Setup, r: Reply, first: Read) {
    || r.sinkhole
    || (s.tls && IsTLSAlert(first.data))
    || (!first.err.NoErr? && !first.err.TimedOut?)
  }

  datatype Why = Nothing | Unparseable | Refused | Replay | Wire(err: WireErr) | Rejection

  datatype Attempt = Attempt(spec: Spec, cls: Failure, emitted: bool, rejected: bool, why: Why)

  datatype Judgement = Evidence | Handover | Retry | Skip | Stop

  function RetryOn(f: Failure, last: bool): Judgement {
    if Retryable(f) && !last then Retry else Stop
  }

  function AttemptOn(s: Setup, st: Strategy, r: Reply, last: bool, final: bool): (Attempt, Judgement) {
    var failed := (f: Failure, e: WireErr) => Attempt(st.spec, f, true, false, Wire(e));
    if !r.transport then (failed(FailDial, OtherErr), Stop)
    else if !r.builds then (failed(FailBudget, OtherErr), Skip)
    else if r.sendErr.CapUnavailable? then (failed(FailBudget, r.sendErr), Skip)
    else if !r.sendErr.NoErr? then (failed(Classify(r.sendErr, false), r.sendErr), RetryOn(Classify(r.sendErr, false), last))
    else if !r.extraErr.NoErr? then (failed(Classify(r.extraErr, false), r.extraErr), RetryOn(Classify(r.extraErr, false), last))
    else
      var first := FirstRead(r);
      if first.data != [] then
        if Rejects(s, r, first) then (Attempt(st.spec, FailNone, true, true, Rejection), Handover)
        else (Attempt(st.spec, FailNone, true, false, Nothing), Evidence)
      else
        var f := Classify(first.err, false);
        (failed(f, first.err), if f.FailTimeoutBefore? && final && SafeToHandOver(st) then Handover else RetryOn(f, last))
  }

  // ---------------------------------------------------------------- the rung list

  function AddRung(out: seq<Spec>, spec: Spec): seq<Spec> {
    if spec in out then out else out + [spec]
  }

  function AddRungs(out: seq<Spec>, base: seq<Spec>): seq<Spec>
    decreases |base|
  {
    if base == [] then out else AddRungs(AddRung(out, base[0]), base[1..])
  }

  function Rungs(v: Verdict, defaultLadder: seq<Spec>): seq<Spec> {
    if v.cls.Bypass? then [""]
    else
      var base := if v.ladder == [] then defaultLadder else v.ladder;
      AddRungs([if v.cls.Desync? && v.spec != "" then v.spec else ""], base)
  }

  method BuildRungs(v: Verdict, defaultLadder: seq<Spec>) returns (out: seq<Spec>)
    ensures out == Rungs(v, defaultLadder)
  {
    if v.cls.Bypass? {
      return [""];
    }
    var base := if v.ladder == [] then defaultLadder else v.ladder;
    out := [if v.cls.Desync? && v.spec != "" then v.spec else ""];
    var seen := {out[0]};
    for i := 0 to |base|
      invariant forall x :: x in seen <==> x in out
      invariant AddRungs(out, base[i..]) == Rungs(v, defaultLadder)
    {
      if base[i] !in seen {
        seen := seen + {base[i]};
        out := out + [base[i]];
      }
    }
  }

  predicate NoRepeats(rungs: seq<Spec>) {
    forall i, j | 0 <= i < j < |rungs| :: rungs[i] != rungs[j]
  }

  // Each rung once, the first one decided by the verdict, and nothing of the ladder lost.
  lemma {:induction false} AddRungsKeeps(out: seq<Spec>, base: seq<Spec>)
    requires NoRepeats(out)
    ensures NoRepeats(AddRungs(out, base)) && out <= AddRungs(out, base)
    ensures forall x :: x in AddRungs(out, base) <==> x in out || x in base
    decreases |base|
  {
    if base != [] {
      AddRungsKeeps(AddRung(out, base[0]), base[1..]);
    }
  }

  lemma RungsLaws(v: Verdict, defaultLadder: seq<Spec>)
    ensures var rungs := Rungs(v, defaultLadder);
      && NoRepeats(rungs) && rungs != []
      && (v.cls.Bypass? ==> rungs == [""])
      && (!(v.cls.Desync? && v.spec != "") ==> rungs[0] == "")
      && (v.cls.Desync? && v.spec != "" ==> rungs[0] == v.spec)
      && (!v.cls.Bypass? ==> forall x | x in (if v.ladder == [] then defaultLadder else v.ladder) :: x in rungs)
  {
    if !v.cls.Bypass? {
      AddRungsKeeps([if v.cls.Desync? && v.spec != "" then v.spec else ""],
                    if v.ladder == [] then defaultLadder else v.ladder);
    }
  }

  // ---------------------------------------------------------------- the look-ahead

  // Some rung of the list applies to this message and could go out, or does not parse.
  function AnyRung(s: Setup, rungs: seq<Spec>): bool {
    rungs != [] &&
    (s.parse(rungs[0]).None? || s.applies(s.parse(rungs[0]).value) || AnyRung(s, rungs[1..]))
  }

  predicate MoreRungs(s: Setup, rungs: seq<Spec>, i: nat) {
    i + 1 < |rungs| && s.replayable && AnyRung(s, rungs[i + 1..])
  }

  method LookAhead(s: Setup, rungs: seq<Spec>, i: nat) returns (more: bool)
    ensures more == MoreRungs(s, rungs, i)
  {
    if i + 1 >= |rungs| || !s.replayable {
      return false;
    }
    for j := i + 1 to |rungs|
      invariant AnyRung(s, rungs[j..]) == AnyRung(s, rungs[i + 1..])
    {
      match s.parse(rungs[j])
      case None => return true;
      case Some(st) =>
        if s.applies(st) {
          return true;
        }
    }
    more := false;
  }

  // ---------------------------------------------------------------- the walk

  // One walk's surroundings: the answer to its n-th dial, and whether its context is still live at rung i.
  datatype Surroundings = Surroundings(net: nat -> Reply, alive: nat -> bool)

  datatype End =
    | Lost
    | Won(spec: Spec, conn: nat, pre: Bytes)
    | HandedOver(spec: Spec, conn: nat, pre: Bytes, rejected: bool)

  // conn and closed name connections by the dial that opened them.
  datatype Outcome = Outcome(attempts: seq<Attempt>, dials: nat, closed: seq<nat>, end: End)

  function Then(att: Attempt, dials: nat, closed: seq<nat>, rest: Outcome): Outcome {
    Outcome([att] + rest.attempts, dials + rest.dials, closed + rest.closed, rest.end)
  }

  function Final(s: Setup, rungs: seq<Spec>, i: nat, dialled: nat): bool {
    i + 1 == |rungs| || dialled >= Budget(s) || !MoreRungs(s, rungs, i)
  }

  // What happens at one rung: the walk is over, or ends with this attempt, or goes on after it.
  datatype Move =
    | Over
    | Ends(att: Attempt, dials: nat, closed: seq<nat>, end: End)
    | Goes(att: Attempt, dials: nat, closed: seq<nat>)

  function MoveAt(s: Setup, w: Surroundings, rungs: seq<Spec>, i: nat, dialled: nat): Move {
    if i >= |rungs| || dialled >= Budget(s) || !w.alive(i) then Over
    else if i > 0 && !s.replayable then Ends(Attempt(rungs[i], FailNotReplayable, false, false, Replay), 0, [], Lost)
    else match s.parse(rungs[i])
      case None => Ends(Attempt(rungs[i], FailBudget, false, false, Unparseable), 0, [], Lost)
      case Some(st) =>
        var r := w.net(dialled);
        if !s.applies(st) then Goes(Attempt(rungs[i], FailBudget, false, false, Refused), 0, [])
        else if !r.connects then Goes(Attempt(rungs[i], FailDial, true, false, Wire(DialErr)), 1, [])
        else
          var last := i + 1 == |rungs| || dialled + 1 >= Budget(s);
          var (att, j) := AttemptOn(s, st, r, last, Final(s, rungs, i, dialled + 1));
          match j
          case Evidence => Ends(att, 1, [], Won(rungs[i], dialled, FirstRead(r).data))
          case Handover => Ends(att, 1, [], HandedOver(rungs[i], dialled, FirstRead(r).data, att.rejected))
          case Stop => Ends(att, 1, [dialled], Lost)
          case _ => Goes(att, 1, [dialled])
  }

  // The walk from rung i on, with dialled upstream connections already spent.
  function WalkFrom(s: Setup, w: Surroundings, rungs: seq<Spec>, i: nat, dialled: nat): Outcome
    decreases |rungs| - i
  {
    match MoveAt(s, w, rungs, i, dialled)
    case Over => Outcome([], 0, [], Lost)
    case Ends(att, dials, closed, end) => Outcome([att], dials, closed, end)
    case Goes(att, dials, closed) =>
      Then(att, dials, closed, WalkFrom(s, w, rungs, i + 1, dialled + dials))
  }

  function Walk(s: Setup, w: Surroundings, rungs: seq<Spec>): Outcome {
    WalkFrom(s, w, rungs, 0, 0)
  }

  // ---------------------------------------------------------------- what a walk keeps

  function CountEmitted(atts: seq<Attempt>): nat {
    if atts == [] then 0 else (if atts[0].emitted then 1 else 0) + CountEmitted(atts[1..])
  }

  // Each connecting dial of o, which were numbered from first, is closed exactly once or is returned.
  ghost predicate Settled(w: Surroundings, first: nat, o: Outcome) {
    && (forall n: nat :: multiset(o.closed)[n] ==
          if first <= n < first + o.dials && w.net(n).connects && !Returns(o.end, n) then 1 else 0)
    && (forall n: nat | Returns(o.end, n) :: first <= n < first + o.dials && w.net(n).connects)
  }

  predicate Returns(end: End, n: nat) {
    !end.Lost? && end.conn == n
  }

  // Only the last dial can have brought upstream bytes, and those are exactly what is handed on.
  ghost predicate Committed(w: Surroundings, first: nat, o: Outcome) {
    && (forall n | first <= n < first + o.dials && Answer(w.net(n)) != [] ::
          n + 1 == first + o.dials && Returns(o.end, n) && o.end.pre == Answer(w.net(n)))
    && (!o.end.Lost? ==> o.end.conn + 1 == first + o.dials && o.end.pre == Answer(w.net(o.end.conn)))
  }

  lemma AttemptFacts(s: Setup, st: Strategy, r: Reply, last: bool, final: bool)
    requires r.connects
    ensures var (att, j) := AttemptOn(s, st, r, last, final);
      && att.emitted && att.spec == st.spec && att.why != Unparseable
      && (j.Evidence? ==> FirstRead(r).data == Answer(r) != [] && !Rejects(s, r, FirstRead(r)))
      && (j.Handover? && att.rejected ==> FirstRead(r).data == Answer(r) != [])
      && (j.Handover? && !att.rejected ==> FirstRead(r).data == Answer(r) == [] && final && SafeToHandOver(st))
      && (!j.Evidence? && !j.Handover? ==> Answer(r) == [])
  {
  }

  lemma MoveFacts(s: Setup, w: Surroundings, rungs: seq<Spec>, i: nat, dialled: nat)
    ensures var m := MoveAt(s, w, rungs, i, dialled);
      && (m.Goes? ==> dialled + m.dials <= Budget(s) && i < |rungs|)
      && (m.Ends? ==> dialled + m.dials <= Budget(s) && i < |rungs|)
      && (!m.Over? ==> m.dials == (if m.att.emitted then 1 else 0))
      && (!m.Over? ==> m.att.spec == rungs[i] || (s.parse(rungs[i]).Some? && m.att.spec == s.parse(rungs[i]).value.spec))
      && (m.Goes? ==> m.closed == if m.dials == 1 && w.net(dialled).connects then [dialled] else [])
      && (m.Ends? && m.end.Lost? ==> m.closed == if m.dials == 1 then [dialled] else [])
      && (m.Ends? && m.dials == 1 ==> w.net(dialled).connects)
      && (m.Ends? && !m.end.Lost? ==> m.closed == [] && m.dials == 1 && m.end.conn == dialled && m.end.spec == rungs[i])
      && (m.Ends? && !m.end.Lost? ==> m.end.pre == Answer(w.net(dialled)))
      && (m.Goes? && m.dials == 1 ==> Answer(w.net(dialled)) == [])
      && (m.Ends? && m.end.Lost? && m.dials == 1 ==> Answer(w.net(dialled)) == [])
      && (!s.replayable && i > 0 ==> !m.Goes? && (m.Ends? ==> m.dials == 0))
  {
    if i < |rungs| && s.parse(rungs[i]).Some? && w.net(dialled).connects {
      var st := s.parse(rungs[i]).value;
      AttemptFacts(s, st, w.net(dialled), i + 1 == |rungs| || dialled + 1 >= Budget(s),
                   Final(s, rungs, i, dialled + 1));
    }
    hide AttemptOn, FirstRead, Answer, Final, Rejects;
  }

  lemma {:induction false} DialsCounted(s: Setup, w: Surroundings, rungs: seq<Spec>, i: nat, dialled: nat)
    requires dialled <= Budget(s)
    ensures var o := WalkFrom(s, w, rungs, i, dialled);
      o.dials == CountEmitted(o.attempts) && dialled + o.dials <= Budget(s)
    decreases |rungs| - i
  {
    hide MoveAt, Budget, Answer;
    MoveFacts(s, w, rungs, i, dialled);
    var m := MoveAt(s, w, rungs, i, dialled);
    if m.Goes? {
      DialsCounted(s, w, rungs, i + 1, dialled + m.dials);
      var rest := WalkFrom(s, w, rungs, i + 1, dialled + m.dials);
      assert ([m.att] + rest.attempts)[1..] == rest.attempts;
    } else if m.Ends? {
      assert [m.att][1..] == [];
    }
  }

  lemma SettledBefore(w: Surroundings, first: nat, dials: nat, closed: seq<nat>, att: Attempt, rest: Outcome)
    requires dials <= 1 && closed == if dials == 1 && w.net(first).connects then [first] else []
    requires Settled(w, first + dials, rest)
    ensures Settled(w, first, Then(att, dials, closed, rest))
  {
    assert multiset(closed + rest.closed) == multiset(closed) + multiset(rest.closed);
  }

  lemma SettledAtEnd(w: Surroundings, first: nat, o: Outcome)
    requires o.dials <= 1 && (o.dials == 1 ==> w.net(first).connects)
    requires o.end.Lost? ==> o.closed == if o.dials == 1 then [first] else []
    requires !o.end.Lost? ==> o.closed == [] && o.dials == 1 && o.end.conn == first
    ensures Settled(w, first, o)
  {
  }

  lemma WalkUnfolds(s: Setup, w: Surroundings, rungs: seq<Spec>, i: nat, dialled: nat)
    ensures WalkFrom(s, w, rungs, i, dialled) ==
      match MoveAt(s, w, rungs, i, dialled)
      case Over => Outcome([], 0, [], Lost)
      case Ends(att, dials, closed, end) => Outcome([att], dials, closed, end)
      case Goes(att, dials, closed) => Then(att, dials, closed, WalkFrom(s, w, rungs, i + 1, dialled + dials))
  {
    hide MoveAt, Then;
  }

  // Conservation: every emitted attempt cost one dial, the budget bounds them, no connection leaks.
  lemma {:induction false} ConnectionsConserved(s: Setup, w: Surroundings, rungs: seq<Spec>, i: nat, dialled: nat)
    requires dialled <= Budget(s)
    ensures var o := WalkFrom(s, w, rungs, i, dialled);
      && o.dials == CountEmitted(o.attempts) && dialled + o.dials <= Budget(s)
      && Settled(w, dialled, o)
    decreases |rungs| - i
  {
    hide MoveAt, Budget, Answer, CountEmitted, Settled, WalkFrom;
    DialsCounted(s, w, rungs, i, dialled);
    MoveFacts(s, w, rungs, i, dialled);
    WalkUnfolds(s, w, rungs, i, dialled);
    var m := MoveAt(s, w, rungs, i, dialled);
    if m.Goes? {
      ConnectionsConserved(s, w, rungs, i + 1, dialled + m.dials);
      SettledBefore(w, dialled, m.dials, m.closed, m.att, WalkFrom(s, w, rungs, i + 1, dialled + m.dials));
    } else {
      SettledAtEnd(w, dialled, WalkFrom(s, w, rungs, i, dialled));
    }
  }

  // Commit guard: after a byte has come from upstream nothing is dialled again.
  lemma {:induction false} CommitGuard(s: Setup, w: Surroundings, rungs: seq<Spec>, i: nat, dialled: nat)
    ensures Committed(w, dialled, WalkFrom(s, w, rungs, i, dialled))
    decreases |rungs| - i
  {
    hide MoveAt, Budget, Answer;
    MoveFacts(s, w, rungs, i, dialled);
    var m := MoveAt(s, w, rungs, i, dialled);
    if m.Goes? {
      CommitGuard(s, w, rungs, i + 1, dialled + m.dials);
      ConnectionsCount(s, w, rungs, i + 1, dialled + m.dials);
    }
  }

  // A committed walk really has dialled.
  lemma {:induction false} ConnectionsCount(s: Setup, w: Surroundings, rungs: seq<Spec>, i: nat, dialled: nat)
    ensures var o := WalkFrom(s, w, rungs, i, dialled); !o.end.Lost? ==> o.dials > 0
    decreases |rungs| - i
  {
    hide MoveAt, Budget, Answer;
    MoveFacts(s, w, rungs, i, dialled);
    var m := MoveAt(s, w, rungs, i, dialled);
    if m.Goes? {
      ConnectionsCount(s, w, rungs, i + 1, dialled + m.dials);
    }
  }

  // A message that may not be replayed costs at most one connection.
  lemma UnreplayableDialsOnce(s: Setup, w: Surroundings, rungs: seq<Spec>)
    requires !s.replayable
    ensures Walk(s, w, rungs).dials <= 1
  {
    hide MoveAt, Budget, Answer;
    MoveFacts(s, w, rungs, 0, 0);
    var m := MoveAt(s, w, rungs, 0, 0);
    if m.Goes? {
      MoveFacts(s, w, rungs, 1, m.dials);
      assert WalkFrom(s, w, rungs, 1, m.dials).dials == 0;
    }
  }

  // ---------------------------------------------------------------- the look-ahead is exact

  ghost predicate Live(w: Surroundings) {
    forall n :: w.alive(n)
  }

  predicate HitsUnparseable(o: Outcome) {
    exists k | 0 <= k < |o.attempts| :: o.attempts[k].why == Unparseable
  }

  // A walk that would neither dial nor fail on a rung it cannot parse.
  predicate Idle(o: Outcome) {
    o.dials == 0 && !HitsUnparseable(o)
  }

  lemma {:induction false} RestIsIdle(s: Setup, w: Surroundings, rungs: seq<Spec>, i: nat, dialled: nat)
    requires Live(w) && 0 < i <= |rungs| && s.replayable && dialled < Budget(s)
    ensures Idle(WalkFrom(s, w, rungs, i, dialled)) <==> !AnyRung(s, rungs[i..])
    decreases |rungs| - i
  {
    hide AttemptOn, Answer, FirstRead;
    var o := WalkFrom(s, w, rungs, i, dialled);
    MoveFacts(s, w, rungs, i, dialled);
    if i < |rungs| {
      var m := MoveAt(s, w, rungs, i, dialled);
      assert rungs[i..][1..] == rungs[i + 1..] && rungs[i..][0] == rungs[i];
      if m.Goes? {
        var rest := WalkFrom(s, w, rungs, i + 1, dialled + m.dials);
        if m.dials == 0 {
          RestIsIdle(s, w, rungs, i + 1, dialled);
          assert forall k | 0 <= k < |rest.attempts| :: o.attempts[k + 1] == rest.attempts[k];
        }
      } else {
        assert o.attempts == [m.att];
        assert m.dials == 0 ==> o.attempts[0].why == Unparseable;
      }
    }
  }

  // Look-ahead exactness: the flag computed before an attempt on rung i is true exactly when the rest
  // of the walk, on a live context and against any network, would dial nothing and fail on nothing.
  lemma LookAheadExact(s: Setup, w: Surroundings, rungs: seq<Spec>, i: nat, dialled: nat)
    requires Live(w) && i < |rungs| && 0 < dialled
    ensures Final(s, rungs, i, dialled) <==> Idle(WalkFrom(s, w, rungs, i + 1, dialled))
  {
    if i + 1 < |rungs| && dialled < Budget(s) {
      if s.replayable {
        RestIsIdle(s, w, rungs, i + 1, dialled);
      } else {
        assert WalkFrom(s, w, rungs, i + 1, dialled).attempts == [Attempt(rungs[i + 1], FailNotReplayable, false, false, Replay)];
      }
    }
  }

  // A silent connection is handed over only when nothing else could have been emitted, whatever the
  // network, and only on a rung that sent nothing but the client's own octets.
  lemma {:induction false} SilenceHandedOverLast(s: Setup, w: Surroundings, rungs: seq<Spec>, i: nat, dialled: nat, k: nat, any: Surroundings)
    requires var o := WalkFrom(s, w, rungs, i, dialled); o.end.HandedOver? && !o.end.rejected
    requires Live(any) && NoRepeats(rungs)
    requires k < |rungs| && rungs[k] == WalkFrom(s, w, rungs, i, dialled).end.spec
    ensures var o := WalkFrom(s, w, rungs, i, dialled);
      && o.end.pre == []
      && s.parse(rungs[k]).Some? && SafeToHandOver(s.parse(rungs[k]).value)
      && Idle(WalkFrom(s, any, rungs, k + 1, dialled + o.dials))
    decreases |rungs| - i
  {
    hide MoveAt, Budget, Answer, Final, Idle;
    var m := MoveAt(s, w, rungs, i, dialled);
    MoveFacts(s, w, rungs, i, dialled);
    if m.Goes? {
      SilenceHandedOverLast(s, w, rungs, i + 1, dialled + m.dials, k, any);
    } else {
      assert k == i;
      EndingFacts(s, w, rungs, i, dialled);
      LookAheadExact(s, any, rungs, i, dialled + 1);
    }
  }

  // What the two ways of keeping a connection say about the rung and the answer.
  lemma EndingFacts(s: Setup, w: Surroundings, rungs: seq<Spec>, i: nat, dialled: nat)
    ensures var m := MoveAt(s, w, rungs, i, dialled);
      m.Ends? && m.end.HandedOver? && !m.end.rejected ==>
        && Final(s, rungs, i, dialled + 1) && m.end.pre == []
        && s.parse(rungs[i]).Some? && SafeToHandOver(s.parse(rungs[i]).value)
    ensures var m := MoveAt(s, w, rungs, i, dialled);
      m.Ends? && m.end.Won? ==> m.end.pre != [] && !Rejects(s, w.net(dialled), FirstRead(w.net(dialled)))
  {
    hide Rejects, FirstRead, Final, Classify;
    if i < |rungs| && s.parse(rungs[i]).Some? && w.net(dialled).connects {
      var st := s.parse(rungs[i]).value;
      AttemptFacts(s, st, w.net(dialled), i + 1 == |rungs| || dialled + 1 >= Budget(s),
                   Final(s, rungs, i, dialled + 1));
    }
    hide AttemptOn;
  }

  // A win is evidence: the winning connection answered, and nothing it said counts against the rung.
  lemma {:induction false} WinIsEvidence(s: Setup, w: Surroundings, rungs: seq<Spec>, i: nat, dialled: nat)
    ensures var o := WalkFrom(s, w, rungs, i, dialled);
      o.end.Won? ==> o.end.pre != [] && !Rejects(s, w.net(o.end.conn), FirstRead(w.net(o.end.conn)))
    decreases |rungs| - i
  {
    hide MoveAt, Budget, Answer, Rejects, FirstRead;
    MoveFacts(s, w, rungs, i, dialled);
    EndingFacts(s, w, rungs, i, dialled);
    var m := MoveAt(s, w, rungs, i, dialled);
    if m.Goes? {
      WinIsEvidence(s, w, rungs, i + 1, dialled + m.dials);
    }
  }
}
