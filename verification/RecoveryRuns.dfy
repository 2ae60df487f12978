// Two runs in which a recovery that reports no failure does not put everything back.
module RecoveryRuns {
  import opened Settings
  import opened JournalFormat
  import opened Recovery
  import opened Captures
  import opened RecoveryProof
  import opened RecoveryAlways
  import opened RecoveryStack
  import opened RecoveryTheorems
  import opened RecoveryOriginals

  lemma Go(a: State, before: seq<Event>, s: State, e: Event) returns (events: seq<Event>, t: State)
    requires Run(a, before, s) && Enabled(s, e)
    ensures Run(a, events, t) && t == Step(s, e) && events == before + [e]
  {
    hide Step, Enabled;
    events, t := before + [e], Step(s, e);
    assert events[..|before|] == before;
  }

  // The state but for its history.
  ghost predicate At(s: State, disk: seq<Entry>, store: Store, done: seq<Record>, ctl: Control) {
    s.disk == disk && s.world == World(store, map[]) && s.done == done && s.ctl == ctl
  }

  function Start(): State {
    State([], World(map[], map[]), 0, [], Down, World(map[], map[]), [], {}, {}, {})
  }

  lemma Booted() returns (events: seq<Event>, t: State)
    ensures Run(Start(), events, t) && At(t, [], map[], [], Idle) && t.seqno == 0 && events == [Boot]
  {
    assert Run(Start(), [], Start());
    FoldEmpty();
    events, t := Go(Start(), [], Start(), Boot);
  }

  // ---------------------------------------------------------------- one variable, set and put back

  function Variable(name: string, text: string): Op {
    LaunchEnv([(name, text)])
  }

  lemma OneVariable(name: string, text: string, store: Store, env: Env)
    ensures Own(Variable(name, text)) == [Assign(EnvVar(name), Some(Text(text)))]
    ensures Capture(Variable(name, text), store, env) == [Assign(EnvVar(name), CaptureVar(name, text, store, env))]
  {
  }

  lemma SetVariable(a: State, before: seq<Event>, s: State, name: string, text: string, env: Env)
    returns (events: seq<Event>, t: State, r: Record)
    requires Run(a, before, s) && s.ctl.Idle?
    ensures Run(a, events, t) && events == before + [Prepare(Variable(name, text), env), BeginOk, Write, CommitOk]
    ensures r == Record(s.seqno + 1, false, true, true, Variable(name, text),
                        [Assign(EnvVar(name), CaptureVar(name, text, s.world.store, env))])
    ensures t.disk == s.disk + [Begin(r.(applied := false, verified := false)), Commit(r)] && t.done == s.done + [r]
    ensures t.ctl == Idle && t.seqno == s.seqno + 1
    ensures t.world == s.world.(store := s.world.store[EnvVar(name) := Text(text)])
  {
    hide Run, Active, RevertAll, CoveredKeys, Own, Capture, CaptureVar, Fold;
    var op := Variable(name, text);
    OneVariable(name, text, s.world.store, env);
    var t1, t2, t3;
    events, t1 := Go(a, before, s, Prepare(op, env));
    var begun := Record(s.seqno + 1, false, false, false, op, Capture(op, s.world.store, env));
    events, t2 := Go(a, events, t1, BeginOk);
    assert t2.ctl == Applying(begun, 0);
    events, t3 := Go(a, events, t2, Write);
    events, t := Go(a, events, t3, CommitOk);
    r := begun.(applied := true, verified := true);
    assert events == before + [Prepare(op, env), BeginOk, Write, CommitOk];
  }

  // The record on top is reverted and closed; its one command succeeds.
  lemma PutBack(a: State, before: seq<Event>, s: State, r: Record, x: Assign) returns (events: seq<Event>, t: State)
    requires Run(a, before, s) && s.ctl.Undoing? && s.ctl.rest != [] && s.ctl.rest[|s.ctl.rest| - 1] == r
    requires !r.adopted && r.op.LaunchEnv? && r.undo == [x]
    ensures Run(a, events, t) && events == before + [TakeTop, Unwrite, RevertConfirmed, Close]
    ensures t.disk == s.disk + [Done(r.seqno)] && t.world == s.world.(store := Put(s.world.store, x)) && t.done == s.done
    ensures t.ctl == Compacting(s.ctl.rest[..|s.ctl.rest| - 1], s.ctl.replay)
  {
    hide Run, Lost, Older, Newer, CoveredKeys;
    var t1, t2, t3;
    events, t1 := Go(a, before, s, TakeTop);
    events, t2 := Go(a, events, t1, Unwrite);
    events, t3 := Go(a, events, t2, RevertConfirmed);
    events, t := Go(a, events, t3, Close);
    assert events == before + [TakeTop, Unwrite, RevertConfirmed, Close];
  }

  // The record on top is tried and left pending: its one command fails, and may not.
  lemma LeaveStuck(a: State, before: seq<Event>, s: State, r: Record, x: Assign) returns (events: seq<Event>, t: State)
    requires Run(a, before, s) && s.ctl.Undoing? && s.ctl.rest != [] && s.ctl.rest[|s.ctl.rest| - 1] == r
    requires !r.adopted && r.op.LaunchEnv? && r.undo == [x] && !IsSoft(x)
    ensures Run(a, events, t) && events == before + [TakeTop, UnwriteErr, RevertStuck]
    ensures t.disk == s.disk && t.world == s.world && t.done == s.done
    ensures t.ctl == Undoing(s.ctl.rest[..|s.ctl.rest| - 1], s.ctl.replay)
  {
    hide Run;
    var t1, t2;
    events, t1 := Go(a, before, s, TakeTop);
    events, t2 := Go(a, events, t1, UnwriteErr);
    events, t := Go(a, events, t2, RevertStuck);
    assert events == before + [TakeTop, UnwriteErr, RevertStuck];
  }

  lemma TwoLines(disk: seq<Entry>, r: Record, r': Record)
    requires r.seqno == r'.seqno
    ensures Fold(disk + [Begin(r), Commit(r')]) == Fold(disk)[r'.seqno := r']
  {
    hide Fold;
    FoldMore(disk, Begin(r));
    FoldMore(disk + [Begin(r)], Commit(r'));
    assert disk + [Begin(r)] + [Commit(r')] == disk + [Begin(r), Commit(r')];
  }

  lemma OneOutstanding(r: Record)
    ensures InOrder(map[r.seqno := r]) == [r]
  {
    var m: Open := map[];
    InOrderPush(m, r.seqno, r);
    assert m[r.seqno := r] == map[r.seqno := r];
  }

  // ---------------------------------------------------------------- a stuck revert

  const NO_PROXY := EnvVar("NO_PROXY")

  lemma CapturedTwice(env: Env)
    ensures CaptureVar("NO_PROXY", "a", map[], env) == None
    ensures CaptureVar("NO_PROXY", "b", map[NO_PROXY := Text("a")], env) == Some(Text("a"))
  {
    assert Trim("a") == "a" && Trim("b") == "b";
  }

  // Both variables set, one over the other.
  lemma TwoSet(env: Env) returns (events: seq<Event>, t: State, r1: Record, r2: Record)
    ensures Run(Start(), events, t) && t.ctl == Idle && t.done == [r1, r2] && t.world == World(map[NO_PROXY := Text("b")], map[])
    ensures r1.seqno == 1 && !r1.adopted && r1.op.LaunchEnv? && r1.undo == [Assign(NO_PROXY, None)]
    ensures r2.seqno == 2 && !r2.adopted && r2.op.LaunchEnv? && r2.undo == [Assign(NO_PROXY, Some(Text("a")))]
    ensures Fold(t.disk) == map[1 := r1, 2 := r2]
    ensures forall e | e in events :: !ByOthers(e)
  {
    hide Run, Fold, CaptureVar, GetEnv;
    CapturedTwice(env);
    FoldEmpty();
    var e0, s0 := Booted();
    var e1, s1, q1 := SetVariable(Start(), e0, s0, "NO_PROXY", "a", env);
    TwoLines([], q1.(applied := false, verified := false), q1);
    events, t, r2 := SetVariable(Start(), e1, s1, "NO_PROXY", "b", env);
    TwoLines(s1.disk, r2.(applied := false, verified := false), r2);
    r1 := q1;
  }

  // The undoing ends, with something still pending, and the process exits.
  lemma Quit(a: State, before: seq<Event>, s: State) returns (events: seq<Event>, t: State)
    requires Run(a, before, s) && s.ctl == Compacting([], false) && Fold(s.disk) != map[]
    ensures Run(a, events, t) && events == before + [Compact, UndoEnd, Crash]
    ensures t.ctl == Down && t.disk == s.disk && t.world == s.world
  {
    hide Run, Fold;
    var t1;
    events, t1 := Go(a, before, s, Compact);
    events, t := Exit(a, events, t1);
    assert events == before + [Compact, UndoEnd, Crash];
  }

  lemma Exit(a: State, before: seq<Event>, s: State) returns (events: seq<Event>, t: State)
    requires Run(a, before, s) && s.ctl == Undoing([], false)
    ensures Run(a, events, t) && events == before + [UndoEnd] + [Crash]
    ensures t.ctl == Down && t.disk == s.disk && t.world == s.world
  {
    hide Run, Fold;
    var t1;
    events, t1 := Go(a, before, s, UndoEnd);
    events, t := Go(a, events, t1, Crash);
  }

  lemma StartUndoing(a: State, before: seq<Event>, s: State) returns (events: seq<Event>, t: State)
    requires Run(a, before, s) && s.ctl.Idle?
    ensures Run(a, events, t) && events == before + [UndoAll]
    ensures t.ctl == Undoing(s.done, false) && t.disk == s.disk && t.world == s.world
  {
    hide Run;
    events, t := Go(a, before, s, UndoAll);
  }

  // UndoAll leaves the newer record pending and closes the older one; the process exits.
  lemma UndoneBelow(env: Env) returns (events: seq<Event>, t: State, r2: Record)
    ensures Run(Start(), events, t) && t.ctl == Down && t.world == World(map[], map[])
    ensures r2.seqno == 2 && !r2.adopted && r2.op.LaunchEnv? && r2.undo == [Assign(NO_PROXY, Some(Text("a")))]
    ensures Fold(t.disk) == map[2 := r2]
    ensures forall e | e in events :: !ByOthers(e)
  {
    hide Run, Fold, Start;
    var e0, s0, r1, q2 := TwoSet(env);
    r2 := q2;
    var e1, s1 := StartUndoing(Start(), e0, s0);
    var e2, s2 := LeaveStuck(Start(), e1, s1, r2, Assign(NO_PROXY, Some(Text("a"))));
    assert [r1, r2][..1] == [r1] && [r1][..0] == [];
    var e3, s3 := PutBack(Start(), e2, s2, r1, Assign(NO_PROXY, None));
    FoldMore(s2.disk, Done(1));
    assert map[1 := r1, 2 := r2] - {1} == map[2 := r2];
    assert 2 in Fold(s3.disk);
    events, t := Quit(Start(), e3, s3);
  }

  // A Replay comes up and finds one record.
  lemma ReplayOne(a: State, before: seq<Event>, s: State, r: Record) returns (events: seq<Event>, t: State)
    requires Run(a, before, s) && s.ctl.Down? && Fold(s.disk) == map[r.seqno := r]
    ensures Run(a, events, t) && events == before + [BootReplay]
    ensures t.ctl == Undoing([r], true) && t.disk == s.disk && t.world == s.world
  {
    hide Run, Fold;
    OneOutstanding(r);
    events, t := Go(a, before, s, BootReplay);
  }

  // Its record is closed, and the file with it.
  lemma ReplayDone(a: State, before: seq<Event>, s: State, r: Record, t: State) returns (events: seq<Event>, end: State)
    requires Run(a, before, t) && t.ctl == Compacting([], true)
    requires Fold(s.disk) == map[r.seqno := r] && t.disk == s.disk + [Done(r.seqno)]
    ensures Run(a, events, end) && events == before + [Compact]
    ensures end.ctl == Undoing([], true) && Fold(end.disk) == map[] && end.world == t.world
  {
    hide Run, Fold;
    FoldMore(s.disk, Done(r.seqno));
    assert map[r.seqno := r] - {r.seqno} == map[];
    FoldEmpty();
    events, end := Go(a, before, t, Compact);
  }

  // Two operations on one variable. The newer one's revert fails while the process lives, the older
  // one's succeeds and is closed; the Replay of what is left then restores the older operation's
  // value, reports no failure, and leaves nothing pending.
  lemma StuckRevertResurrects(env: Env) returns (events: seq<Event>, end: State)
    ensures Init(Start()) && Run(Start(), events, end) && forall e | e in events :: !ByOthers(e)
    ensures end.ctl == Undoing([], true) && Fold(end.disk) == map[]
    ensures Start().world.store == map[] && end.world.store == map[NO_PROXY := Text("a")]
    ensures NO_PROXY in end.crossed
  {
    hide Run, Fold, Init, Start;
    var e0, s0, r2 := UndoneBelow(env);
    var e1, s1 := ReplayOne(Start(), e0, s0, r2);
    assert [r2][..0] == [];
    var e2, s2 := PutBack(Start(), e1, s1, r2, Assign(NO_PROXY, Some(Text("a"))));
    events, end := ReplayDone(Start(), e2, s1, r2, s2);
    StartIsInit();
    IsCrossed(events, end);
  }

  lemma StartIsInit()
    ensures Init(Start()) && Start().world.store == map[]
  {
  }

  lemma IsCrossed(events: seq<Event>, end: State)
    requires Init(Start()) && Run(Start(), events, end) && (forall e | e in events :: !ByOthers(e)) && Fold(end.disk) == map[]
    requires end.world.store == map[NO_PROXY := Text("a")]
    ensures NO_PROXY in end.crossed
  {
    hide Run, Fold, Init, StuckApart;
    RecoveryRestoresOriginals(Start(), events, end, NO_PROXY);
    ReachableAlways(Start(), events, end);
  }

  // ---------------------------------------------------------------- a server that cannot be cleared

  const PAC_URL := ProxyServer("s", Pac)
  const PAC_SWITCH := ProxySwitch("s", Pac)

  function SomePac(): Op {
    PacProxy("u", ["s"])
  }

  lemma PacPayload(env: Env)
    ensures Own(SomePac()) == [Assign(PAC_URL, Some(Text("u"))), Assign(PAC_SWITCH, Some(Switch(true)))]
    ensures Capture(SomePac(), map[], env) == [Assign(PAC_URL, Some(Text(""))), Assign(PAC_SWITCH, Some(Switch(false)))]
  {
    var none: seq<string> := [];
    assert ["s"][1..] == none;
    assert OwnServices(SomePac(), none) == [] && CaptureServices(SomePac(), none, map[], env) == [];
    assert Trim("") == "";
  }

  lemma PacBegun(env: Env) returns (events: seq<Event>, t: State, begun: Record)
    ensures Run(Start(), events, t) && t.ctl == Applying(begun, 0) && t.disk == [Begin(begun)] && t.world == World(map[], map[])
    ensures begun == Record(1, false, false, false, SomePac(),
                            [Assign(PAC_URL, Some(Text(""))), Assign(PAC_SWITCH, Some(Switch(false)))])
    ensures events == [Boot, Prepare(SomePac(), env), BeginOk]
  {
    hide Run, Active, RevertAll, CoveredKeys, Own, Capture, Fold, OweNow;
    PacPayload(env);
    var e0, s0 := Booted();
    var e1, s1 := Go(Start(), e0, s0, Prepare(SomePac(), env));
    events, t := Go(Start(), e1, s1, BeginOk);
    begun := t.ctl.rec;
    assert events == [Boot, Prepare(SomePac(), env), BeginOk];
  }

  lemma PacApplied(env: Env) returns (events: seq<Event>, t: State, begun: Record)
    ensures Run(Start(), events, t) && t.ctl == Applying(begun, 2) && t.disk == [Begin(begun)]
    ensures t.world == World(map[PAC_URL := Text("u"), PAC_SWITCH := Switch(true)], map[])
    ensures begun == Record(1, false, false, false, SomePac(),
                            [Assign(PAC_URL, Some(Text(""))), Assign(PAC_SWITCH, Some(Switch(false)))])
    ensures Unstuck(events) && forall e | e in events :: !ByOthers(e)
  {
    hide Run, Own, Start, SomePac;
    var e2, s2, q := PacBegun(env);
    begun := q;
    PacPayload(env);
    var e3, s3 := Go(Start(), e2, s2, Write);
    events, t := Go(Start(), e3, s3, Write);
    assert t.world.store == map[PAC_URL := Text("u"), PAC_SWITCH := Switch(true)];
    assert events == [Boot, Prepare(SomePac(), env), BeginOk, Write, Write];
  }

  lemma PacSet(env: Env) returns (events: seq<Event>, t: State, r: Record)
    ensures Run(Start(), events, t) && t.ctl == Down && t.world == World(map[PAC_URL := Text("u"), PAC_SWITCH := Switch(true)], map[])
    ensures r == Record(1, false, true, true, SomePac(), [Assign(PAC_URL, Some(Text(""))), Assign(PAC_SWITCH, Some(Switch(false)))])
    ensures Fold(t.disk) == map[1 := r]
    ensures Unstuck(events) && forall e | e in events :: !ByOthers(e)
  {
    hide Run, Own, Capture, Fold, Start;
    FoldEmpty();
    var e4, s4, begun := PacApplied(env);
    var e5, s5 := Go(Start(), e4, s4, CommitOk) by {
      PacPayload(env);
    }
    r := begun.(applied := true, verified := true);
    TwoLines([], begun, r);
    assert s5.disk == [] + [Begin(begun), Commit(r)];
    events, t := Go(Start(), e5, s5, Crash);
  }

  // The clearing fails and the switching off succeeds, so the record is closed.
  lemma CloseUncleared(a: State, before: seq<Event>, s: State, r: Record, x: Assign, y: Assign)
    returns (events: seq<Event>, t: State)
    requires Run(a, before, s) && s.ctl.Undoing? && s.ctl.rest == [r]
    requires !r.adopted && r.op.PacProxy? && r.undo == [x, y] && IsSoft(x)
    ensures Run(a, events, t) && events == before + [TakeTop, UnwriteErr, Unwrite, RevertConfirmed, Close]
    ensures t.disk == s.disk + [Done(r.seqno)] && t.world == s.world.(store := Put(s.world.store, y))
    ensures t.ctl == Compacting([], s.ctl.replay)
  {
    hide Run;
    var t1, t2, t3;
    events, t1 := Go(a, before, s, TakeTop);
    events, t2 := Go(a, events, t1, UnwriteErr);
    events, t3 := Go(a, events, t2, Unwrite);
    assert t3.ctl == Reverting(r, 2, [], s.ctl.replay, false) && events == before + [TakeTop, UnwriteErr, Unwrite];
    events, t := ConfirmAndClose(a, events, t3);
    assert events == before + [TakeTop, UnwriteErr, Unwrite, RevertConfirmed, Close];
  }

  lemma ConfirmAndClose(a: State, before: seq<Event>, s: State) returns (events: seq<Event>, t: State)
    requires Run(a, before, s) && s.ctl.Reverting? && !s.ctl.failed && s.ctl.i == |s.ctl.rec.undo| && !s.ctl.rec.op.AddRoute?
    ensures Run(a, events, t) && events == before + [RevertConfirmed] + [Close]
    ensures t.disk == s.disk + [Done(s.ctl.rec.seqno)] && t.world == s.world && t.done == s.done
    ensures t.ctl == Compacting(s.ctl.rest, s.ctl.replay)
  {
    hide Run, Lost, Older, Newer, CoveredKeys;
    var t1;
    events, t1 := Go(a, before, s, RevertConfirmed);
    events, t := Go(a, events, t1, Close);
  }

  // Nothing was captured, and networksetup refuses the empty server: the Replay reports no failure and
  // leaves nothing pending, and our URL is still there. The switch beside it is off.
  lemma RefusedClearStays(env: Env) returns (events: seq<Event>, end: State)
    ensures Init(Start()) && Run(Start(), events, end) && forall e | e in events :: !ByOthers(e)
    ensures end.ctl == Undoing([], true) && Fold(end.disk) == map[]
    ensures Start().world.store == map[] && end.world.store == map[PAC_URL := Text("u"), PAC_SWITCH := Switch(false)]
    ensures Unstuck(events) && PAC_URL in end.untidy
  {
    hide Run, Fold, Init, Start;
    var e0, s0, r := PacSet(env);
    var e1, s1 := ReplayOne(Start(), e0, s0, r);
    var e2, s2 := CloseUncleared(Start(), e1, s1, r, Assign(PAC_URL, Some(Text(""))), Assign(PAC_SWITCH, Some(Switch(false))));
    events, end := ReplayDone(Start(), e2, s1, r, s2);
    StartIsInit();
    IsUntidy(events, end);
  }

  lemma IsUntidy(events: seq<Event>, end: State)
    requires Init(Start()) && Run(Start(), events, end) && (forall e | e in events :: !ByOthers(e)) && Fold(end.disk) == map[]
    requires end.world.store == map[PAC_URL := Text("u"), PAC_SWITCH := Switch(false)] && Unstuck(events)
    ensures PAC_URL in end.untidy
  {
    hide Run, Fold, Init, StuckApart;
    UnstuckIsApart(Start(), events);
    RecoveryRestoresOriginals(Start(), events, end, PAC_URL);
    SwitchIsTidy(events, end);
  }

  lemma SwitchIsTidy(events: seq<Event>, end: State)
    requires Init(Start()) && Run(Start(), events, end)
    ensures PAC_SWITCH !in end.untidy
  {
    hide Run, Fold, Init;
    ReachableAlways(Start(), events, end);
  }
}
