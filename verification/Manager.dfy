// The manager (internal/netstate/manager.go, reverify.go): operations sequenced through the journal and
// undone in reverse.
module Managers {
  import opened Settings
  import opened JournalFormat
  import opened Recovery
  import opened RecoveryProof
  import opened RecoveryAlways
  import opened RecoveryStack
  import opened RecoveryTheorems
  import opened Checks
  import opened MacWorld
  import opened FileJournals
  import opened LiveOps

  // ---------------------------------------------------------------- shapes of single decisions

  lemma ConfirmShape(s: State)
    requires s.ctl.Reverting? && s.ctl.i == RevertSteps(s.ctl.rec)
    ensures Enabled(s, RevertStuck) && Step(s, RevertStuck) == s.(ctl := Undoing(s.ctl.rest, s.ctl.replay))
    ensures !s.ctl.failed && (s.ctl.rec.op.AddRoute? ==> !Present(s.world.rib, s.ctl.rec.op.route)) ==>
      && Enabled(s, RevertConfirmed)
      && Step(s, RevertConfirmed) == s.(ctl := Closing(s.ctl.rec, s.ctl.rest, s.ctl.replay))
  {
  }

  lemma TakeTopIs(s: State)
    requires s.ctl.Undoing? && s.ctl.rest != []
    ensures var n := |s.ctl.rest| - 1;
      var top, rest := s.ctl.rest[n], s.ctl.rest[..n];
      && Enabled(s, TakeTop)
      && Step(s, TakeTop) == s.(ctl := if top.adopted then Closing(top, rest, s.ctl.replay) else Reverting(top, 0, rest, s.ctl.replay, false))
  {
  }

  lemma IdleShape(s: State, op: Op, env: Env)
    requires s.ctl.Idle? && WellFormed(op)
    ensures Enabled(s, Prepare(op, env)) && Step(s, Prepare(op, env)) == s.(ctl := Ready(NewRecord(op, s.world, env), env))
    ensures Enabled(s, UndoAll) && Step(s, UndoAll) == s.(done := [], ctl := Undoing(s.done, false))
  {
    hide WellFormed, NewRecord;
  }

  lemma UndoEndShape(s: State)
    requires s.ctl.Undoing? && s.ctl.rest == []
    ensures Enabled(s, UndoEnd) && Step(s, UndoEnd) == s.(ctl := Idle)
  {
  }

  lemma AbandonShape(s: State)
    requires s.ctl.Applying? && s.ctl.i <= ApplySteps(s.ctl.rec.op)
    ensures var back := Reverting(s.ctl.rec, 0, [], false, false);
      && (s.ctl.i < ApplySteps(s.ctl.rec.op) ==>
           && Enabled(s, WriteErr)
           && Step(s, WriteErr) == s.(ctl := if s.ctl.rec.op.AddRoute? then Closing(s.ctl.rec, [], false) else back))
      && (s.ctl.i == ApplySteps(s.ctl.rec.op) ==> Enabled(s, VerifyOrCommitErr) && Step(s, VerifyOrCommitErr) == s.(ctl := back))
  {
    hide Own;
  }

  lemma BeginShape(s: State)
    requires s.ctl.Ready?
    ensures Enabled(s, BeginOk) && Enabled(s, BeginErr) && Step(s, BeginErr) == s.(ctl := Idle)
    ensures var rec, t := s.ctl.rec.(seqno := s.seqno + 1), Step(s, BeginOk);
      && t.disk == s.disk + [Begin(rec)] && t.seqno == s.seqno + 1 && t.done == s.done && t.world == s.world
      && t.ctl == if rec.adopted then Adopting(rec) else Applying(rec, 0)
  {
    hide Active, RevertAll, CoveredKeys, OweNow;
  }

  lemma CommitShape(s: State)
    ensures s.ctl.Adopting? ==>
      && Enabled(s, AdoptErr) && Step(s, AdoptErr) == s.(ctl := Idle)
      && Step(s, AdoptOk) == s.(disk := s.disk + [Commit(s.ctl.rec)], done := s.done + [s.ctl.rec], ctl := Idle)
    ensures s.ctl.Applying? && s.ctl.i == ApplySteps(s.ctl.rec.op) ==>
      var rec := s.ctl.rec.(applied := true, verified := true);
      Enabled(s, CommitOk) && Step(s, CommitOk) == s.(disk := s.disk + [Commit(rec)], done := s.done + [rec], ctl := Idle)
  {
    hide Own;
  }

  lemma ReverifyShape(s: State, i: nat)
    requires s.ctl.Idle? && i < |s.done| && !s.done[i].adopted
    ensures Enabled(s, Recovery.Reverify(i)) && Step(s, Recovery.Reverify(i)) == s.(ctl := Restoring(s.done[i], 0))
  {
  }

  lemma ReverifyEndShape(s: State)
    requires s.ctl.Restoring?
    ensures Enabled(s, ReverifyEnd) && Step(s, ReverifyEnd) == s.(ctl := Idle)
  {
  }

  lemma UndidMore(a: seq<Event>, b: seq<Event>, e: Event)
    requires Undid(a, b) && IsUndoStep(e)
    ensures Undid(a, b + [e])
  {
    hide IsUndoStep;
  }

  lemma UndidTrans(a: seq<Event>, b: seq<Event>, c: seq<Event>)
    requires Undid(a, b) && Undid(b, c)
    ensures Undid(a, c)
  {
    hide IsUndoStep;
  }

  // ---------------------------------------------------------------- one record undone

  // The entry of tok is closed, and no other is.
  ghost predicate Closed(s: State, t: State, tok: nat) {
    Fold(t.disk) == Fold(s.disk) - {tok}
  }

  // Nothing but what op's payload names has been touched.
  ghost predicate Touched(op: Op, undo: seq<Assign>, w: World, v: World) {
    if op.AddRoute? then RouteTried(w, v, op.route) else Only(Keys(undo), w, v)
  }

  // scutil, which answers for the primary service, will show what op's writes have done.
  predicate Listed(op: Op, primary: string) {
    IsProxy(op) ==> primary in op.services
  }

  // At the end of a revert none of whose commands failed, the check that closes the record passes unless
  // scutil still shows the operation, which it cannot where the primary service is one of the list.
  lemma ConfirmPasses(start: State, log: seq<Event>, s: State, primary: string)
    requires Init(start) && Run(start, log, s) && s.ctl.Reverting? && !s.ctl.failed
    requires s.ctl.i == RevertSteps(s.ctl.rec)
    requires s.ctl.rec.op.AddRoute? ==> !Present(s.world.rib, s.ctl.rec.op.route)
    ensures VerifyReverted(s.ctl.rec.op, s.world, primary) <==> !StillLive(s.ctl.rec.op, s.world, primary)
    ensures Listed(s.ctl.rec.op, primary) ==> VerifyReverted(s.ctl.rec.op, s.world, primary)
  {
    hide Run, Init, Captured, Books, RoutesFree, Owing, Refusals, Bounded, VerifyReverted, StillLive, Present, Fold;
    ReachableAlways(start, log, s);
    InHandHeld(s);
    VerifyRevertedPasses(s.ctl.rec, s.world, s.refused, primary);
    NeverStillLive(s.ctl.rec.op, s.world, primary);
  }

  lemma NeverStillLive(op: Op, w: World, primary: string)
    ensures !IsProxy(op) ==> !StillLive(op, w, primary)
  {
  }

  lemma RevertedGone(r: Record, w: World)
    ensures r.op.AddRoute? ==> !Present(RevertOne(r, w).rib, r.op.route)
  {
  }

  // Reverts and closes the record in hand: what rollback, UndoAll and Replay have in common. A record
  // that cannot be reverted, confirmed and closed stays pending; ok only if it is closed. Where nothing
  // fails it is closed, unless scutil answers for a service the operation never wrote to.
  method RevertAndClose(j: FileJournal, op: LiveOp, tok: nat) returns (ok: bool, crashed: bool)
    requires j.Valid() && Reverts(j.mac.s.ctl, op.op, op.undo) && j.mac.s.ctl.rec.seqno == tok
    modifies j.mac
    ensures j.mac.Valid() && (crashed ==> j.mac.s.ctl.Down?)
    ensures !crashed ==> j.Valid() && j.mac.s.done == old(j.mac.s.done) && j.mac.s.owed == old(j.mac.s.owed)
    ensures !crashed ==> j.mac.s.ctl == Undoing(old(j.mac.s.ctl.rest), old(j.mac.s.ctl.replay))
    ensures !crashed ==> Closed(old(j.mac.s), j.mac.s, tok) || (!ok && j.mac.s.disk == old(j.mac.s.disk))
    ensures !crashed && ok ==> Undid(old(j.mac.log), j.mac.log) && VerifyReverted(op.op, j.mac.world, j.mac.primary)
    ensures !crashed && ok && !op.op.AddRoute? ==> Written(old(j.mac.s.ctl.rec), |op.undo|, j.mac.world.store, j.mac.s.refused)
    ensures Touched(op.op, op.undo, old(j.mac.world), j.mac.world)
    ensures j.mac.faults >= old(j.mac.faults)
    ensures j.mac.faults == old(j.mac.faults) && !crashed ==> ok == !StillLive(op.op, j.mac.world, j.mac.primary)
    ensures j.mac.faults == old(j.mac.faults) && !crashed && Listed(op.op, j.mac.primary) ==> ok
    ensures j.mac.faults == old(j.mac.faults) && !crashed ==>
      j.mac.world == RevertOne(old(j.mac.s.ctl.rec), old(j.mac.world))
  {
    hide Run, Init, Entries, Heal, Fold, Step, Enabled, Present, VerifyReverted, Written, Only, RouteTried, StillLive, RevertOne, Listed;
    var mac := j.mac;
    RevertedGone(mac.s.ctl.rec, mac.world);
    ok, crashed := op.Revert(mac);
    if crashed {
      return false, true;
    }
    if mac.faults == old(mac.faults) {
      ConfirmPasses(mac.start, mac.log, mac.s, mac.primary);
    }
    if ok {
      ok := op.ConfirmReverted(mac);
    }
    ConfirmShape(mac.s);
    if !ok {
      mac.Note(RevertStuck);
      return;
    }
    RouteGone(op.op, mac.world, mac.primary);
    ok, crashed := CloseConfirmed(j, tok);
  }

  lemma RouteGone(op: Op, w: World, primary: string)
    requires VerifyReverted(op, w, primary)
    ensures op.AddRoute? ==> !Present(w.rib, op.route)
  {
  }

  method CloseConfirmed(j: FileJournal, tok: nat) returns (ok: bool, crashed: bool)
    requires j.Valid() && j.mac.s.ctl.Reverting? && j.mac.s.ctl.i == RevertSteps(j.mac.s.ctl.rec) && !j.mac.s.ctl.failed
    requires j.mac.s.ctl.rec.op.AddRoute? ==> !Present(j.mac.world.rib, j.mac.s.ctl.rec.op.route)
    requires j.mac.s.ctl.rec.seqno == tok
    modifies j.mac
    ensures j.mac.Valid() && j.mac.world == old(j.mac.world) && (crashed ==> j.mac.s.ctl.Down?)
    ensures !crashed ==> j.Valid() && j.mac.s.done == old(j.mac.s.done) && j.mac.s.owed == old(j.mac.s.owed)
    ensures !crashed ==> j.mac.s.refused == old(j.mac.s.refused)
    ensures !crashed ==> j.mac.s.ctl == Undoing(old(j.mac.s.ctl.rest), old(j.mac.s.ctl.replay))
    ensures !crashed ==> Closed(old(j.mac.s), j.mac.s, tok) || (!ok && j.mac.s.disk == old(j.mac.s.disk))
    ensures !crashed && ok ==> Undid(old(j.mac.log), j.mac.log)
    ensures j.mac.faults >= old(j.mac.faults)
    ensures j.mac.faults == old(j.mac.faults) ==> ok || crashed
  {
    hide Run, Init, Entries, Heal, Fold, Step, Enabled, Present, RevertSteps;
    ConfirmShape(j.mac.s);
    j.mac.Note(RevertConfirmed);
    var io := j.Done(tok);
    ok, crashed := io.Ok?, io.Crashed?;
  }

  // One record off the top: an adopted one is closed, never reverted.
  method UndoTop(j: FileJournal, op: LiveOp, rec: Record) returns (ok: bool, crashed: bool)
    requires j.Valid() && j.mac.s.ctl.Undoing? && j.mac.s.ctl.rest != []
    requires rec == j.mac.s.ctl.rest[|j.mac.s.ctl.rest| - 1] && op.op == rec.op && op.undo == rec.undo
    modifies j.mac
    ensures j.mac.Valid() && (crashed ==> j.mac.s.ctl.Down?)
    ensures !crashed ==> j.Valid() && j.mac.s.done == old(j.mac.s.done) && j.mac.s.owed == old(j.mac.s.owed)
    ensures !crashed ==> j.mac.s.ctl == Undoing(old(j.mac.s.ctl.rest)[..|old(j.mac.s.ctl.rest)| - 1], old(j.mac.s.ctl.replay))
    ensures !crashed ==> Closed(old(j.mac.s), j.mac.s, rec.seqno) || (!ok && j.mac.s.disk == old(j.mac.s.disk))
    ensures !crashed && ok ==> Undid(old(j.mac.log), j.mac.log)
    ensures !crashed && ok && !rec.adopted ==> VerifyReverted(rec.op, j.mac.world, j.mac.primary)
    ensures rec.adopted ==> j.mac.world == old(j.mac.world)
    ensures Touched(rec.op, rec.undo, old(j.mac.world), j.mac.world)
    ensures j.mac.faults >= old(j.mac.faults)
    ensures j.mac.faults == old(j.mac.faults) && !crashed ==>
      ok == (rec.adopted || !StillLive(rec.op, j.mac.world, j.mac.primary))
    ensures j.mac.faults == old(j.mac.faults) && !crashed && (rec.adopted || Listed(rec.op, j.mac.primary)) ==> ok
    ensures j.mac.faults == old(j.mac.faults) && !crashed && !rec.adopted ==>
      j.mac.world == RevertOne(rec, old(j.mac.world))
  {
    hide Run, Init, Entries, Heal, Fold, Step, Enabled, VerifyReverted, RevertSteps, Written, Keys, StillLive, RevertOne, Listed;
    TakeTopIs(j.mac.s);
    j.mac.Note(TakeTop);
    if rec.adopted {
      var io := j.Done(rec.seqno);
      ok, crashed := io.Ok?, io.Crashed?;
    } else {
      ok, crashed := RevertAndClose(j, op, rec.seqno);
    }
  }

  // ---------------------------------------------------------------- the stack of applied operations

  datatype Applied = Applied(op: LiveOp, rec: Record)

  function Recs(done: seq<Applied>): seq<Record> {
    seq(|done|, i requires 0 <= i < |done| => done[i].rec)
  }

  function OpsOf(done: seq<Applied>): set<LiveOp> {
    set a | a in done :: a.op
  }

  lemma RecsLast(todo: seq<Applied>, i: nat)
    requires i < |todo|
    ensures Recs(todo[..i + 1]) == Recs(todo[..i]) + [todo[i].rec]
  {
    assert todo[..i + 1] == todo[..i] + [todo[i]];
  }

  lemma RecsMore(done: seq<Applied>, a: Applied)
    ensures Recs(done + [a]) == Recs(done) + [a.rec]
  {
  }

  ghost predicate AllListed(rs: seq<Record>, primary: string) {
    forall r | r in rs && !r.adopted :: Listed(r.op, primary)
  }

  // The i-th operation was written for other services than the one scutil answers for.
  ghost predicate StaysLive(todo: seq<Applied>, i: nat, primary: string) {
    i < |todo| && !todo[i].rec.adopted && !Listed(todo[i].rec.op, primary)
  }

  lemma NoneStays(todo: seq<Applied>, left: set<nat>, primary: string)
    requires AllListed(Recs(todo), primary) && forall i | i in left :: StaysLive(todo, i, primary)
    ensures left == {}
  {
    hide StaysLive, AllListed;
    if left != {} {
      var i :| i in left;
      ListedIsGone(todo, i, primary);
    }
  }

  lemma ListedIsGone(todo: seq<Applied>, i: nat, primary: string)
    requires AllListed(Recs(todo), primary)
    ensures !StaysLive(todo, i, primary)
  {
    if i < |todo| {
      assert Recs(todo)[i] == todo[i].rec;
    }
  }

  // Of the operations from the i-th on, all but those of left are closed.
  ghost predicate Cleared(todo: seq<Applied>, i: nat, left: set<nat>, disk: seq<Entry>)
    requires i <= |todo|
  {
    && |left| <= |todo| - i && (forall k | k in left :: i <= k < |todo|)
    && forall k | i <= k < |todo| && k !in left :: todo[k].rec.seqno !in Fold(disk)
  }

  lemma NoneLeft(todo: seq<Applied>, disk: seq<Entry>)
    ensures Cleared(todo, |todo|, {}, disk)
  {
  }

  lemma ClearedMore(todo: seq<Applied>, i: nat, left: set<nat>, disk: seq<Entry>, disk': seq<Entry>, ok: bool)
    requires i < |todo| && Cleared(todo, i + 1, left, disk)
    requires Fold(disk') == Fold(disk) - {todo[i].rec.seqno} || (!ok && disk' == disk)
    ensures i !in left && Cleared(todo, i, if ok then left else left + {i}, disk')
  {
    hide Fold;
  }

  // What an UndoAll that failed at nothing has done, from s to t: closed the process's own records and
  // no other, and put back all that is owed but what t says is lost. Where the process held the newest
  // of the pending records nothing more is crossed, and what stays pending is what lay beneath.
  ghost predicate AllUndone(s: State, t: State) {
    && Fold(t.disk) == Fold(s.disk) - Tokens(s.done) && t.owed == s.owed
    && (Active(t.disk) == [] ==> t.world.rib == t.owed.rib && Agree(t.world.store, t.owed.store, t.crossed + t.untidy))
    && Agree(RevertAll(Active(t.disk), t.world).store, t.owed.store, t.crossed + t.untidy)
    && (forall k | k in t.untidy - s.untidy :: LeftBlank(t, k))
    && (Stacked(s) ==> t.crossed == s.crossed)
    && (Stacked(s) ==> |Live(s)| <= |Active(s.disk)| && Active(t.disk) == Active(s.disk)[..|Active(s.disk)| - |Live(s)|])
  }

  lemma UndoneAll(start: State, before: seq<Event>, s: State, log: seq<Event>, t: State)
    requires Init(start) && Run(start, before, s) && s.ctl.Idle? && Run(start, log, t) && t.ctl.Idle? && t.done == []
    requires Undid(before + [UndoAll], log)
    ensures AllUndone(s, t) && (Unstuck(before) ==> t.crossed == {})
  {
    hide Run, Init, Fold, Active, Stacked, LeftBlank, RevertAll, Step, Enabled, IsUndoStep, Agree;
    var undo := log[|before| + 1..];
    assert log == before + [UndoAll] + undo;
    UndoAllRuns(start, before, s);
    RunSplit(start, before + [UndoAll], Step(s, UndoAll), undo, t);
    assert forall e | e in undo :: IsUndoStep(e);
    UndoAllRestores(start, before, s, undo, t);
    if Unstuck(before) {
      NotCrossed(start, before, s);
    }
  }

  lemma NotCrossed(start: State, before: seq<Event>, s: State)
    requires Init(start) && Run(start, before, s) && Unstuck(before)
    ensures Stacked(s) && s.crossed == {}
  {
    hide Run, Init, Stacked, Always, Apart;
    UnstuckIsApart(start, before);
    ReachableApart(start, before, s);
    ReachableStacked(start, before, s);
  }

  lemma UndoAllRuns(start: State, before: seq<Event>, s: State)
    requires Run(start, before, s) && s.ctl.Idle?
    ensures Enabled(s, UndoAll) && Run(start, before + [UndoAll], Step(s, UndoAll))
  {
    RunOne(s, UndoAll);
    RunConcat(start, before, s, [UndoAll], Step(s, UndoAll));
  }

  // A closed token is not outstanding, and the next one is never.
  lemma NextIsFresh(start: State, log: seq<Event>, s: State)
    requires Init(start) && Run(start, log, s) && !s.ctl.Down?
    ensures s.seqno + 1 !in Fold(s.disk)
  {
    hide Run, Init, Fold;
    TokenIsFresh(start, log, s, s.seqno + 1);
  }

  // Every setting in ks may have been rewritten, and routes added; nothing else has changed.
  ghost predicate Reapplied(ks: set<Key>, w: World, v: World) {
    Agree(w.store, v.store, ks) && forall at | at in w.rib :: at in v.rib && v.rib[at] == w.rib[at]
  }

  lemma ReappliedMore(ks: set<Key>, more: set<Key>, all: set<Key>, w: World, v: World, u: World)
    requires Reapplied(ks, w, v) && Reapplied(more, v, u) && ks <= all && more <= all
    ensures Reapplied(all, w, u)
  {
  }

  // The settings that the operations of done own, adopted ones aside.
  function OwnKeys(done: seq<Applied>): set<Key> {
    set a, k | a in done && !a.rec.adopted && k in Keys(Own(a.rec.op)) :: k
  }

  class Manager {
    const mac: Mac
    const j: FileJournal
    var done: seq<Applied>

    ghost predicate Valid()
      reads this, mac`file, mac`world, mac`s, mac`log, j, OpsOf(done)
    {
      && j.mac == mac && j.Valid() && mac.s.ctl.Idle?
      && mac.s.done == Recs(done)
      && forall a | a in done :: a.op.prepared && a.op.op == a.rec.op && a.op.undo == a.rec.undo
    }

    // Between operations as Valid says, except for the one in flight.
    ghost predicate InFlight(op: LiveOp, rec: Record)
      reads this, mac`file, mac`world, mac`s, mac`log, j, OpsOf(done), op
    {
      && j.mac == mac && j.Valid()
      && mac.s.done == Recs(done)
      && (forall a | a in done :: a.op.prepared && a.op.op == a.rec.op && a.op.undo == a.rec.undo && a.op != op)
      && op.prepared && op.op == rec.op && op.undo == rec.undo
    }

    constructor (j: FileJournal)
      requires j.Valid() && j.mac.s.ctl.Idle? && j.mac.s.done == []
      ensures this.j == j && mac == j.mac && Valid() && done == []
    {
      this.j := j;
      this.mac := j.mac;
      this.done := [];
    }

    // Applies one operation, or rolls it back. The object is a fresh one, as every caller's is. After a
    // failure the only entry that can be pending besides the old ones is this operation's. Where nothing
    // fails around it, it succeeds exactly when what it writes then verifies, and leaves no entry if not.
    method Do(op: LiveOp, env: Env) returns (io: IO)
      requires Valid() && !op.prepared && WellFormed(op.op)
      modifies this`done, mac, j, op
      ensures mac.Valid() && (io.Crashed? ==> mac.s.ctl.Down?)
      ensures !io.Crashed? ==> Valid()
      ensures op.op == old(op.op) || op.op == Resolved(old(op.op), mac.services)
      ensures io.Ok? ==> |done| == |old(done)| + 1 && done[..|old(done)|] == old(done)
      ensures io.Ok? ==> var a := done[|old(done)|]; a.op == op && a.rec.op == op.op && a.rec.applied && a.rec.verified
      ensures io.Ok? ==> op.op == Resolved(old(op.op), mac.services) && InForce(op.op, mac.world, mac.primary)
      ensures io.Ok? && done[|old(done)|].rec.adopted ==> mac.world == old(mac.world)
      ensures !op.op.AddRoute? ==> Only(Keys(Own(op.op)), old(mac.world), mac.world)
      ensures io.Ok? ==> Fold(mac.s.disk) == Fold(old(mac.s.disk))[old(mac.s.seqno) + 1 := done[|old(done)|].rec]
      ensures io.Failed? ==> done == old(done)
      ensures io.Failed? ==> Fold(mac.s.disk) - {old(mac.s.seqno) + 1} == Fold(old(mac.s.disk))
      ensures io.Ok? ==> mac.world == AppliedTo(op.op, old(mac.world))
      ensures mac.faults >= old(mac.faults)
      ensures mac.faults == old(mac.faults) && !io.Crashed? ==>
        (io.Ok? <==> (IsProxy(op.op) ==> op.op.services != []) && InForce(op.op, AppliedTo(op.op, old(mac.world)), mac.primary))
      ensures mac.faults == old(mac.faults) && io.Failed? && Listed(op.op, mac.primary) ==> Fold(mac.s.disk) == Fold(old(mac.s.disk))
    {
      hide Run, Init, Entries, Heal, Fold, Step, Enabled, WellFormed, InForce, Capture, Keys, Own, Only, AppliedTo, Listed;
      OnlyNothing(mac.world);
      assert forall a | a in done :: a.op != op;
      NextIsFresh(mac.start, mac.log, mac.s);
      var ok := op.Prepare(mac, env);
      if !ok {
        return Failed;
      }
      ResolvedWell(old(op.op), mac.services);
      var adopted := false;
      if CanAdopt(op.op) {
        adopted := op.Verify(mac);
      }
      var rec := Record(0, adopted, adopted, adopted, op.op, op.undo);
      NewIs(op.op, mac.world, env, mac.primary, rec);
      io := Journal(op, rec, env);
    }

    // The part of Do from the first line of the journal on.
    method Journal(op: LiveOp, rec: Record, env: Env) returns (io: IO)
      requires Valid() && (forall a | a in done :: a.op != op) && op.prepared && op.op == rec.op && op.undo == rec.undo
      requires WellFormed(rec.op) && rec == NewRecord(rec.op, mac.world, env)
      requires rec.adopted ==> InForce(rec.op, mac.world, mac.primary)
      requires mac.s.seqno + 1 !in Fold(mac.s.disk)
      modifies this`done, mac, j, op`added
      ensures mac.Valid() && (io.Crashed? ==> mac.s.ctl.Down?)
      ensures !io.Crashed? ==> Valid()
      ensures io.Ok? ==> |done| == |old(done)| + 1 && done[..|old(done)|] == old(done)
      ensures io.Ok? ==> var a := done[|old(done)|]; a.op == op && a.rec.op == op.op && a.rec.applied && a.rec.verified
      ensures io.Ok? ==> InForce(op.op, mac.world, mac.primary)
      ensures io.Ok? && done[|old(done)|].rec.adopted ==> mac.world == old(mac.world)
      ensures !op.op.AddRoute? ==> Only(Keys(Own(op.op)), old(mac.world), mac.world)
      ensures io.Ok? ==> Fold(mac.s.disk) == Fold(old(mac.s.disk))[old(mac.s.seqno) + 1 := done[|old(done)|].rec]
      ensures io.Failed? ==> done == old(done)
      ensures io.Failed? ==> Fold(mac.s.disk) - {old(mac.s.seqno) + 1} == Fold(old(mac.s.disk))
      ensures io.Ok? ==> mac.world == AppliedTo(op.op, old(mac.world))
      ensures mac.faults >= old(mac.faults)
      ensures mac.faults == old(mac.faults) && !io.Crashed? ==>
        (io.Ok? <==> InForce(op.op, AppliedTo(op.op, old(mac.world)), mac.primary))
      ensures mac.faults == old(mac.faults) && io.Failed? && Listed(op.op, mac.primary) ==> Fold(mac.s.disk) == Fold(old(mac.s.disk))
    {
      hide Run, Init, Entries, Heal, Fold, Step, Enabled, WellFormed, InForce, NewRecord, Keys, Own, Only, Capture, AppliedTo, Listed, Addable;
      OnlyNothing(mac.world);
      AddableIfNew(rec, mac.world, env, mac.primary);
      UndoIsOwn(rec, mac.world, env);
      var begun;
      io, begun := BeginOne(op, rec, env);
      if io.Ok? {
        if begun.adopted {
          io := FinishAdopted(op, begun);
        } else {
          io := ApplyAndCommit(op, begun);
        }
      }
    }

    // The record becomes durable before anything is written.
    method BeginOne(op: LiveOp, rec: Record, env: Env) returns (io: IO, begun: Record)
      requires Valid() && (forall a | a in done :: a.op != op) && op.prepared && op.op == rec.op && op.undo == rec.undo
      requires WellFormed(rec.op) && rec == NewRecord(rec.op, mac.world, env)
      modifies mac, j
      ensures mac.Valid() && mac.world == old(mac.world) && (io.Crashed? ==> mac.s.ctl.Down?)
      ensures begun == rec.(seqno := old(mac.s.seqno) + 1) && (begun.adopted ==> begun.applied && begun.verified)
      ensures io.Ok? ==> InFlight(op, begun) && mac.s.ctl == if begun.adopted then Adopting(begun) else Applying(begun, 0)
      ensures io.Ok? ==> Fold(mac.s.disk) == Fold(old(mac.s.disk))[begun.seqno := begun]
      ensures io.Failed? ==> Valid() && mac.s.disk == old(mac.s.disk)
      ensures mac.faults == old(mac.faults) + if io.Failed? then 1 else 0
    {
      hide Run, Init, Entries, Heal, Fold, Step, Enabled, WellFormed, NewRecord;
      IdleShape(mac.s, op.op, env);
      mac.Note(Prepare(op.op, env));
      BeginShape(mac.s);
      NewIsReady(rec, mac.world, env);
      var tok;
      begun := rec.(seqno := j.seqno + 1);
      io, tok := j.Begin(rec, env);
      if io.Failed? {
        mac.Note(BeginErr);
      } else if io.Ok? {
        FoldMore(old(mac.s.disk), JournalFormat.Begin(begun));
      }
    }

    // State that was already there is journalled and never touched.
    method FinishAdopted(op: LiveOp, rec: Record) returns (io: IO)
      requires InFlight(op, rec) && mac.s.ctl == Adopting(rec) && rec.applied && rec.verified
      modifies this`done, mac
      ensures mac.Valid() && mac.world == old(mac.world) && (io.Crashed? ==> mac.s.ctl.Down?)
      ensures !io.Crashed? ==> Valid()
      ensures io.Ok? ==> done == old(done) + [Applied(op, rec)] && Fold(mac.s.disk) == Fold(old(mac.s.disk))[rec.seqno := rec]
      ensures io.Failed? ==> done == old(done) && mac.s.disk == old(mac.s.disk)
      ensures mac.faults == old(mac.faults) + if io.Failed? then 1 else 0
    {
      hide Run, Init, Entries, Heal, Fold, Step;
      CommitShape(mac.s);
      io := j.Commit(rec, AdoptOk);
      if io.Failed? {
        mac.Note(AdoptErr);
      } else if io.Ok? {
        FoldMore(old(mac.s.disk), JournalFormat.Commit(rec));
        RecsMore(done, Applied(op, rec));
        done := done + [Applied(op, rec)];
      }
    }

    // Commits what has been verified; rolls back after any failure.
    method ApplyAndCommit(op: LiveOp, rec: Record) returns (io: IO)
      requires InFlight(op, rec) && mac.s.ctl == Applying(rec, 0)
      modifies this`done, mac, op`added
      ensures mac.Valid() && (io.Crashed? ==> mac.s.ctl.Down?)
      ensures !io.Crashed? ==> Valid()
      ensures io.Ok? ==> done == old(done) + [Applied(op, rec.(applied := true, verified := true))]
      ensures io.Ok? ==> InForce(op.op, mac.world, mac.primary)
      ensures !op.op.AddRoute? && Keys(op.undo) == Keys(Own(op.op)) ==> Only(Keys(Own(op.op)), old(mac.world), mac.world)
      ensures io.Ok? ==> Fold(mac.s.disk) == Fold(old(mac.s.disk))[rec.seqno := rec.(applied := true, verified := true)]
      ensures io.Failed? ==> done == old(done) && Fold(mac.s.disk) - {rec.seqno} == Fold(old(mac.s.disk)) - {rec.seqno}
      ensures io.Ok? ==> mac.world == AppliedTo(op.op, old(mac.world))
      ensures mac.faults >= old(mac.faults)
      ensures mac.faults == old(mac.faults) && !io.Crashed? ==>
        (io.Ok? <==> Addable(op.op, old(mac.world)) && InForce(op.op, AppliedTo(op.op, old(mac.world)), mac.primary))
      ensures mac.faults == old(mac.faults) && io.Failed? && Listed(op.op, mac.primary) ==>
        Fold(mac.s.disk) == Fold(old(mac.s.disk)) - {rec.seqno}
    {
      hide Run, Init, Entries, Heal, Fold, Step, Enabled, InForce, Only, PutAll, Own, Keys, AppliedTo, Addable, Listed;
      io := op.Apply(mac, false);
      if io.Crashed? {
        return;
      }
      ghost var applied := mac.world;
      var ok := false;
      if io.Ok? {
        ok := op.Verify(mac);
      }
      if !ok {
        io := Rollback(op, rec);
        BothOnly(op.op, op.undo, old(mac.world), applied, mac.world);
        return;
      }
      io := CommitOne(op, rec);
      if io.Failed? {
        io := Rollback(op, rec);
        BothOnly(op.op, op.undo, old(mac.world), applied, mac.world);
      }
    }

    // What is verified goes on the stack once its commit is durable.
    method CommitOne(op: LiveOp, rec: Record) returns (io: IO)
      requires InFlight(op, rec) && mac.s.ctl.Applying? && mac.s.ctl.rec == rec && mac.s.ctl.i == ApplySteps(rec.op)
      modifies this`done, mac`file, mac`s, mac`log, mac`faults
      ensures mac.Valid() && mac.world == old(mac.world) && (io.Crashed? ==> mac.s.ctl.Down?)
      ensures io.Ok? ==> Valid() && done == old(done) + [Applied(op, rec.(applied := true, verified := true))]
      ensures io.Ok? ==> Fold(mac.s.disk) == Fold(old(mac.s.disk))[rec.seqno := rec.(applied := true, verified := true)]
      ensures io.Failed? ==> InFlight(op, rec) && done == old(done) && mac.s == old(mac.s)
      ensures mac.faults == old(mac.faults) + if io.Failed? then 1 else 0
    {
      hide Run, Init, Entries, Heal, Fold, Step, Enabled, ApplySteps;
      var rec' := rec.(applied := true, verified := true);
      CommitShape(mac.s);
      ghost var disk := mac.s.disk;
      io := j.Commit(rec', CommitOk);
      if io.Ok? {
        FoldMore(disk, JournalFormat.Commit(rec'));
        RecsMore(done, Applied(op, rec'));
        done := done + [Applied(op, rec')];
      }
    }

    // Closes the entry only when the revert is confirmed; otherwise it stays pending for Replay. An
    // operation that changed nothing is closed without reverting what somebody else owns.
    method Rollback(op: LiveOp, rec: Record) returns (io: IO)
      requires InFlight(op, rec) && mac.s.ctl.Applying? && mac.s.ctl.rec == rec
      requires mac.s.ctl.i <= ApplySteps(op.op)
      requires op.op.AddRoute? ==> op.added == (mac.s.ctl.i == ApplySteps(op.op))
      modifies mac
      ensures mac.Valid() && !io.Ok? && (io.Crashed? ==> mac.s.ctl.Down?)
      ensures io.Failed? ==> Valid() && (Closed(old(mac.s), mac.s, rec.seqno) || mac.s.disk == old(mac.s.disk))
      ensures op.op.AddRoute? && !op.added ==> mac.world == old(mac.world)
      ensures Touched(op.op, op.undo, old(mac.world), mac.world)
      ensures mac.faults >= old(mac.faults)
      ensures mac.faults == old(mac.faults) && io.Failed? && Listed(op.op, mac.primary) ==> Closed(old(mac.s), mac.s, rec.seqno)
    {
      hide Run, Init, Entries, Heal, Fold, Step, Enabled, Own, RouteTried, Keys, VerifyReverted, Written, StillLive, Listed, RevertOne;
      var mutated := !op.op.AddRoute? || op.added;
      Abandon(rec);
      var crashed;
      if !mutated {
        var closed := j.Done(rec.seqno);
        crashed := closed.Crashed?;
        TouchedNot(op.op, op.undo, mac.world);
      } else {
        var ok;
        ok, crashed := RevertAndClose(j, op, rec.seqno);
      }
      if crashed {
        return Crashed;
      }
      UndoEndShape(mac.s);
      mac.Note(UndoEnd);
      io := Failed;
    }

    // The decision to roll back: an Apply that added no route leaves nothing to revert.
    ghost method Abandon(rec: Record)
      requires mac.Valid() && mac.s.ctl.Applying? && mac.s.ctl.rec == rec && mac.s.ctl.i <= ApplySteps(rec.op)
      modifies mac`s, mac`log
      ensures mac.Valid() && Steady(old(mac.s), mac.s)
      ensures mac.s.ctl == if rec.op.AddRoute? && old(mac.s.ctl.i) == 0 then Closing(rec, [], false)
                           else Reverting(rec, 0, [], false, false)
    {
      hide Run, Init, Entries, Heal, Fold, Step, Enabled, Own;
      AbandonShape(mac.s);
      if mac.s.ctl.i < ApplySteps(rec.op) {
        mac.Note(WriteErr);
      } else {
        mac.Note(VerifyOrCommitErr);
      }
    }

    // Reverts everything in reverse order and never stops early. failed counts left, the operations not
    // closed or whose closing was reported as failed; all others are closed. Where nothing fails around
    // it, none is left but those scutil still shows, which takes a list without the primary service.
    method UndoAll() returns (failed: nat, crashed: bool, ghost left: set<nat>)
      requires Valid()
      modifies this`done, mac
      ensures mac.Valid() && done == [] && (crashed ==> mac.s.ctl.Down?)
      ensures !crashed ==> Valid() && failed == |left| && Cleared(old(done), 0, left, mac.s.disk)
      ensures !crashed && mac.faults == old(mac.faults) ==> forall i | i in left :: StaysLive(old(done), i, mac.primary)
      ensures !crashed && mac.faults == old(mac.faults) && AllListed(Recs(old(done)), mac.primary) ==> failed == 0
      ensures !crashed && failed == 0 ==> Undid(old(mac.log) + [Recovery.UndoAll], mac.log)
      ensures !crashed && failed == 0 ==> AllUndone(old(mac.s), mac.s)
      ensures !crashed && failed == 0 && Unstuck(old(mac.log)) ==> Unstuck(mac.log) && mac.s.crossed == {}
    {
      hide Run, Init, Entries, Heal, Fold, Step, Enabled, AllUndone, Keys, IsUndoStep, Touched, VerifyReverted, StillLive, Listed, RevertOne, Cleared;
      ghost var log, s := mac.log, mac.s;
      var todo := done;
      done := [];
      StartUndoing(todo);
      failed, crashed, left := 0, false, {};
      NoneLeft(todo, mac.s.disk);
      var i := |todo|;
      assert todo[..i] == todo;
      while i > 0
        invariant 0 <= i <= |todo| && mac.Valid() && j.Valid() && j.mac == mac && done == []
        invariant mac.s.ctl == Undoing(Recs(todo[..i]), false) && mac.s.done == []
        invariant failed == |left| && Cleared(todo, i, left, mac.s.disk)
        invariant mac.faults >= old(mac.faults)
        invariant mac.faults == old(mac.faults) ==> forall k | k in left :: StaysLive(todo, k, mac.primary)
        invariant failed == 0 ==> Undid(log + [Recovery.UndoAll], mac.log)
      {
        i := i - 1;
        RecsLast(todo, i);
        assert todo[i] in todo;
        ghost var before, disk := mac.log, mac.s.disk;
        var ok;
        ok, crashed := UndoTop(j, todo[i].op, todo[i].rec);
        if crashed {
          return;
        }
        ClearedMore(todo, i, left, disk, mac.s.disk, ok);
        if !ok {
          failed, left := failed + 1, left + {i};
        } else if failed == 0 {
          UndidTrans(log + [Recovery.UndoAll], before, mac.log);
        }
      }
      assert Recs(todo[..0]) == [];
      StopUndoing();
      if mac.faults == old(mac.faults) && AllListed(Recs(todo), mac.primary) {
        NoneStays(todo, left, mac.primary);
      }
      if failed == 0 {
        UndidMore(log + [Recovery.UndoAll], mac.log[..|mac.log| - 1], UndoEnd) by {
          EndIsUndoStep();
        }
        UndoneAll(mac.start, log, s, mac.log, mac.s);
        StaysUnstuck(log, mac.log);
      }
    }

    ghost method StartUndoing(todo: seq<Applied>)
      requires mac.Valid() && mac.s.ctl.Idle? && mac.s.done == Recs(todo)
      modifies mac`s, mac`log
      ensures mac.Valid() && mac.s.ctl == Undoing(Recs(todo), false) && mac.s.done == []
      ensures mac.s.seqno == old(mac.s.seqno) && mac.log == old(mac.log) + [Recovery.UndoAll]
    {
      hide Run, Init, Entries, Heal, Fold, Step, Enabled;
      IdleShape(mac.s, LaunchEnv([]), Env(false, x => false, (x, y) => false));
      mac.Note(Recovery.UndoAll);
    }

    ghost method StopUndoing()
      requires mac.Valid() && mac.s.ctl.Undoing? && mac.s.ctl.rest == []
      modifies mac`s, mac`log
      ensures mac.Valid() && mac.s == old(mac.s).(ctl := Idle) && mac.log == old(mac.log) + [UndoEnd]
    {
      hide Run, Init, Entries, Heal, Fold, Step, Enabled;
      UndoEndShape(mac.s);
      mac.Note(UndoEnd);
    }

    // Re-checks every applied operation and re-applies, under its existing record, what has gone missing.
    // Adopted state is never touched, and nothing is journalled. turns are the worlds between operations;
    // lost counts unseen, the operations of ours not seen in force at their own turn, neither as they stood
    // nor after the re-apply. Where no read fails, what is in force is left alone and all else re-applied.
    method Reverify() returns (lost: nat, crashed: bool, ghost turns: seq<World>, ghost unseen: set<nat>)
      requires Valid()
      modifies mac`world, mac`s, mac`log, mac`faults, OpsOf(done)`added
      ensures mac.Valid() && done == old(done) && mac.file == old(mac.file) && (crashed ==> mac.s.ctl.Down?)
      ensures !crashed ==> Valid() && lost == |unseen|
      ensures !crashed ==> LookedAfter(done, |done|, turns, unseen, mac.primary)
      ensures !crashed ==> turns[0] == old(mac.world) && turns[|done|] == mac.world
      ensures !crashed && mac.faults == old(mac.faults) ==> Mended(done, |done|, turns, unseen, mac.primary)
      ensures !crashed && lost == 0 && Unshared(done, mac.primary) ==>
        forall a | a in done && !a.rec.adopted :: InForce(a.rec.op, mac.world, mac.primary)
      ensures Reapplied(OwnKeys(done), old(mac.world), mac.world)
      ensures (forall a | a in done :: a.rec.adopted) ==> mac.world == old(mac.world)
      ensures mac.faults >= old(mac.faults)
      ensures !crashed && Unstuck(old(mac.log)) ==> Unstuck(mac.log)
    {
      hide Run, Init, Entries, Heal, Fold, Step, Enabled, InForce, Keys, Reapplied, OwnKeys, AppliedTo, TurnTaken, Unshared, LookedAfter, Mended, Repaired;
      lost, crashed, turns, unseen := 0, false, [mac.world], {};
      NobodyLooked(done, mac.world, mac.primary);
      var i := 0;
      NothingReapplied(OwnKeys(done), mac.world);
      while i < |done|
        invariant 0 <= i <= |done| && Valid() && lost == |unseen|
        invariant LookedAfter(done, i, turns, unseen, mac.primary)
        invariant |turns| == i + 1 && turns[0] == old(mac.world) && turns[i] == mac.world
        invariant mac.faults >= old(mac.faults)
        invariant mac.faults == old(mac.faults) ==> Mended(done, i, turns, unseen, mac.primary)
        invariant Reapplied(OwnKeys(done), old(mac.world), mac.world)
        invariant (forall a | a in done :: a.rec.adopted) ==> mac.world == old(mac.world)
        invariant Unstuck(old(mac.log)) ==> Unstuck(mac.log)
        modifies mac`world, mac`s, mac`log, mac`faults, OpsOf(done)`added
      {
        ghost var before := mac.world;
        var seen;
        seen, crashed := Turn(i);
        ReappliedMore(OwnKeys(done), OwnKeys(done), OwnKeys(done), old(mac.world), before, mac.world);
        if crashed {
          return;
        }
        LookedMore(done, i, turns, unseen, mac.world, seen, mac.primary);
        if mac.faults == old(mac.faults) {
          MendedMore(done, i, turns, unseen, mac.world, seen, mac.primary);
        }
        if !seen {
          lost, unseen := lost + 1, unseen + {i};
        }
        turns := turns + [mac.world];
        i := i + 1;
      }
      if lost == 0 && Unshared(done, mac.primary) {
        AllInForce(done, turns, unseen, mac.primary);
      }
    }

    // One operation's turn of a Reverify.
    method Turn(i: nat) returns (seen: bool, crashed: bool)
      requires Valid() && i < |done|
      modifies mac`world, mac`s, mac`log, mac`faults, OpsOf(done)`added
      ensures mac.Valid() && (crashed ==> mac.s.ctl.Down?)
      ensures !crashed ==> Valid() && TurnTaken(done[i].rec, old(mac.world), mac.world, seen, mac.primary)
      ensures done[i].rec.adopted ==> mac.world == old(mac.world) && (!crashed ==> seen)
      ensures !crashed && mac.faults == old(mac.faults) ==> mac.world == Repaired(done[i].rec, old(mac.world), mac.primary)
      ensures !crashed && mac.faults == old(mac.faults) && !seen ==> !InForce(done[i].rec.op, mac.world, mac.primary)
      ensures Reapplied(OwnKeys(done), old(mac.world), mac.world)
      ensures mac.faults >= old(mac.faults)
      ensures Unstuck(old(mac.log)) ==> Unstuck(mac.log)
    {
      hide Run, Init, Entries, Heal, Fold, Step, Enabled, InForce, Keys, Reapplied, OwnKeys, AppliedTo, Addable;
      var a := done[i];
      assert a in done;
      seen, crashed := true, false;
      NothingReapplied(OwnKeys(done), mac.world);
      NothingReapplied(Keys(Own(a.rec.op)), mac.world);
      if !a.rec.adopted {
        seen := a.op.Verify(mac);
        if !seen {
          seen, crashed := Restore(i);
          OwnKeysHas(done, i);
          ReappliedMore({}, Keys(Own(a.rec.op)), OwnKeys(done), old(mac.world), old(mac.world), mac.world) by {
            NothingReapplied({}, old(mac.world));
          }
          BlockedIsAbsent(a.rec.op, old(mac.world), mac.primary);
        }
      }
    }

    // A re-apply that fails leaves its record as it is; there is nothing to take back.
    method Restore(i: nat) returns (ok: bool, crashed: bool)
      requires Valid() && i < |done| && !done[i].rec.adopted
      modifies mac`world, mac`s, mac`log, mac`faults, done[i].op`added
      ensures mac.Valid() && (crashed ==> mac.s.ctl.Down?)
      ensures !crashed ==> Valid()
      ensures ok ==> InForce(done[i].op.op, mac.world, mac.primary)
      ensures mac.faults >= old(mac.faults)
      ensures mac.faults == old(mac.faults) && !crashed ==> mac.world == AppliedTo(done[i].op.op, old(mac.world))
      ensures mac.faults == old(mac.faults) && !crashed ==>
        (ok <==> Addable(done[i].op.op, old(mac.world)) && InForce(done[i].op.op, mac.world, mac.primary))
      ensures Reapplied(Keys(Own(done[i].rec.op)), old(mac.world), mac.world)
      ensures Unstuck(old(mac.log)) ==> Unstuck(mac.log)
    {
      hide Run, Init, Entries, Heal, Fold, Step, Enabled, InForce, Keys, Own, PutAll, AppliedTo, Addable;
      var op := done[i].op;
      assert done[i] in done;
      ReverifyShape(mac.s, i);
      mac.Note(Recovery.Reverify(i));
      NotAddable(op.op, mac.world);
      var io := op.Apply(mac, true);
      if io.Crashed? {
        return false, true;
      }
      ok := false;
      if io.Ok? {
        ok := op.Verify(mac);
      }
      ReverifyEndShape(mac.s);
      mac.Note(ReverifyEnd);
      crashed := false;
    }
  }

  // ---------------------------------------------------------------- the turns of a Reverify

  // From w to v one operation was looked after: adopted state was left alone, what is ours was seen in
  // force when the turn ended or was not, and nothing but its own has been touched.
  ghost predicate TurnTaken(rec: Record, w: World, v: World, seen: bool, primary: string) {
    if rec.adopted then v == w && seen
    else (seen ==> InForce(rec.op, v, primary)) && Reapplied(Keys(Own(rec.op)), w, v)
  }

  // What is missing re-applied, what is there left alone.
  function Repaired(rec: Record, w: World, primary: string): World {
    if rec.adopted || InForce(rec.op, w, primary) then w else AppliedTo(rec.op, w)
  }

  // turns are the worlds around the first i turns; in unseen are those whose operation was not seen.
  ghost predicate LookedAfter(done: seq<Applied>, i: nat, turns: seq<World>, unseen: set<nat>, primary: string)
    requires i <= |done|
  {
    && |turns| == i + 1 && (forall k | k in unseen :: k < i && !done[k].rec.adopted)
    && forall k | 0 <= k < i :: TurnTaken(done[k].rec, turns[k], turns[k + 1], k !in unseen, primary)
  }

  // And each has mended what could be mended, and no more.
  ghost predicate Mended(done: seq<Applied>, i: nat, turns: seq<World>, unseen: set<nat>, primary: string)
    requires i <= |done| && |turns| == i + 1
  {
    forall k | 0 <= k < i ::
      turns[k + 1] == Repaired(done[k].rec, turns[k], primary) && (k in unseen ==> !InForce(done[k].rec.op, turns[k + 1], primary))
  }

  lemma NobodyLooked(done: seq<Applied>, w: World, primary: string)
    ensures LookedAfter(done, 0, [w], {}, primary) && Mended(done, 0, [w], {}, primary)
  {
  }

  lemma LookedMore(done: seq<Applied>, i: nat, turns: seq<World>, unseen: set<nat>, w: World, seen: bool, primary: string)
    requires i < |done| && LookedAfter(done, i, turns, unseen, primary)
    requires TurnTaken(done[i].rec, turns[i], w, seen, primary)
    ensures i !in unseen && LookedAfter(done, i + 1, turns + [w], if seen then unseen else unseen + {i}, primary)
  {
    hide TurnTaken;
    assert !seen ==> !done[i].rec.adopted by {
      SeenIfAdopted(done[i].rec, turns[i], w, seen, primary);
    }
    var after := turns + [w];
    forall k | 0 <= k <= i ensures TurnTaken(done[k].rec, after[k], after[k + 1], k !in (if seen then unseen else unseen + {i}), primary) {
      assert k < i ==> after[k] == turns[k] && after[k + 1] == turns[k + 1];
    }
  }

  lemma SeenIfAdopted(rec: Record, w: World, v: World, seen: bool, primary: string)
    requires TurnTaken(rec, w, v, seen, primary)
    ensures rec.adopted ==> seen
  {
  }

  lemma MendedMore(done: seq<Applied>, i: nat, turns: seq<World>, unseen: set<nat>, w: World, seen: bool, primary: string)
    requires i < |done| && |turns| == i + 1 && Mended(done, i, turns, unseen, primary) && i !in unseen
    requires w == Repaired(done[i].rec, turns[i], primary) && (!seen ==> !InForce(done[i].rec.op, w, primary))
    ensures Mended(done, i + 1, turns + [w], if seen then unseen else unseen + {i}, primary)
  {
    hide Repaired, InForce;
    var after := turns + [w];
    forall k | 0 <= k <= i ensures after[k + 1] == Repaired(done[k].rec, after[k], primary) {
      assert k < i ==> after[k] == turns[k] && after[k + 1] == turns[k + 1];
    }
  }

  // The settings InForce looks at.
  function Watched(op: Op, primary: string): set<Key> {
    match op
    case LaunchEnv(vars) => set i | 0 <= i < |vars| :: EnvVar(vars[i].0)
    case PacProxy(_, _) => {ProxyServer(primary, Pac), ProxySwitch(primary, Pac)}
    case WebProxy(_, _, _) =>
      {ProxyServer(primary, Web), ProxySwitch(primary, Web), ProxyServer(primary, Secure), ProxySwitch(primary, Secure)}
    case SocksProxy(_, _, _) => {ProxyServer(primary, Socks), ProxySwitch(primary, Socks)}
    case AddRoute(_) => {}
  }

  // No operation writes what shows an earlier one in force.
  ghost predicate Unshared(done: seq<Applied>, primary: string) {
    forall i, j | 0 <= i < j < |done| && !done[i].rec.adopted && !done[j].rec.adopted ::
      Keys(Own(done[j].rec.op)) !! Watched(done[i].rec.op, primary)
  }

  lemma StaysInForce(op: Op, w: World, v: World, ks: set<Key>, primary: string)
    requires InForce(op, w, primary) && Reapplied(ks, w, v) && ks !! Watched(op, primary)
    ensures InForce(op, v, primary)
  {
    match op
    case LaunchEnv(vars) =>
      forall i | 0 <= i < |vars| ensures GetEnv(v.store, vars[i].0) == vars[i].1 {
        assert EnvVar(vars[i].0) in Watched(op, primary);
      }
    case _ =>
  }

  lemma {:induction false} InForceUntil(done: seq<Applied>, turns: seq<World>, i: nat, n: nat, primary: string)
    requires |turns| == |done| + 1 && i < n <= |done| && !done[i].rec.adopted && Unshared(done, primary)
    requires forall k | 0 <= k < |done| :: TurnTaken(done[k].rec, turns[k], turns[k + 1], true, primary)
    ensures InForce(done[i].rec.op, turns[n], primary)
  {
    hide InForce, Reapplied, Keys, Own, Watched;
    assert TurnTaken(done[n - 1].rec, turns[n - 1], turns[n - 1 + 1], true, primary);
    if n > i + 1 {
      InForceUntil(done, turns, i, n - 1, primary);
      if !done[n - 1].rec.adopted {
        StaysInForce(done[i].rec.op, turns[n - 1], turns[n], Keys(Own(done[n - 1].rec.op)), primary);
      }
    }
  }

  lemma AllInForce(done: seq<Applied>, turns: seq<World>, unseen: set<nat>, primary: string)
    requires LookedAfter(done, |done|, turns, unseen, primary) && unseen == {} && Unshared(done, primary)
    ensures forall a | a in done && !a.rec.adopted :: InForce(a.rec.op, turns[|done|], primary)
  {
    hide InForce, TurnTaken, Unshared;
    forall a | a in done && !a.rec.adopted ensures InForce(a.rec.op, turns[|done|], primary) {
      var i :| 0 <= i < |done| && done[i] == a;
      InForceUntil(done, turns, i, |done|, primary);
    }
  }

  lemma NotAddable(op: Op, w: World)
    ensures !Addable(op, w) ==> AppliedTo(op, w) == w
  {
  }

  // A route that is not there but whose destination is taken stays absent.
  lemma BlockedIsAbsent(op: Op, w: World, primary: string)
    ensures !Addable(op, w) && !InForce(op, w, primary) ==> !InForce(op, AppliedTo(op, w), primary)
  {
    NotAddable(op, w);
  }

  lemma NothingReapplied(ks: set<Key>, w: World)
    ensures Reapplied(ks, w, w)
  {
  }

  lemma OwnKeysHas(done: seq<Applied>, i: nat)
    requires i < |done| && !done[i].rec.adopted
    ensures Keys(Own(done[i].rec.op)) <= OwnKeys(done)
  {
    hide Keys, Own;
    assert done[i] in done;
  }

  lemma EndIsUndoStep()
    ensures IsUndoStep(UndoEnd)
  {
  }

  lemma StaysUnstuck(before: seq<Event>, log: seq<Event>)
    requires Undid(before + [UndoAll], log)
    ensures Unstuck(before) ==> Unstuck(log)
  {
    var start := before + [UndoAll];
    forall i | 0 <= i < |log| && Unstuck(before) ensures !log[i].RevertStuck? {
      if i < |start| {
        assert log[i] == start[i];
      } else {
        assert IsUndoStep(log[i]);
      }
    }
  }

  lemma OnlyNothing(w: World)
    ensures forall ks :: Only(ks, w, w)
  {
  }

  // Applied, then reverted: still nothing but the operation's own settings.
  lemma BothOnly(op: Op, undo: seq<Assign>, w: World, v: World, u: World)
    requires !op.AddRoute? ==> Only(Keys(Own(op)), w, v)
    requires Touched(op, undo, v, u)
    ensures !op.AddRoute? && Keys(undo) == Keys(Own(op)) ==> Only(Keys(Own(op)), w, u)
  {
    hide Keys, Own, RouteTried;
  }

  // A new record that is not adopted has its destination free, or can never be in force.
  lemma AddableIfNew(rec: Record, w: World, env: Env, primary: string)
    requires rec == NewRecord(rec.op, w, env)
    ensures rec.adopted ==> AppliedTo(rec.op, w) == w
    ensures !rec.adopted && InForce(rec.op, AppliedTo(rec.op, w), primary) ==> Addable(rec.op, w)
  {
    hide Own, PutAll, Capture;
  }

  lemma UndoIsOwn(rec: Record, w: World, env: Env)
    requires rec == NewRecord(rec.op, w, env)
    ensures Keys(rec.undo) == Keys(Own(rec.op))
  {
    hide Keys, Own, Capture;
    CaptureCovers(rec.op, w.store, env);
  }

  lemma TouchedNot(op: Op, undo: seq<Assign>, w: World)
    ensures Touched(op, undo, w, w)
  {
  }

  lemma ResolvedWell(op: Op, services: seq<string>)
    requires WellFormed(op)
    ensures WellFormed(Resolved(op, services))
  {
  }

  lemma NewIs(op: Op, w: World, env: Env, primary: string, rec: Record)
    requires var adopted := CanAdopt(op) && InForce(op, w, primary);
      rec == Record(0, adopted, adopted, adopted, op, Capture(op, w.store, env))
    ensures rec == NewRecord(op, w, env)
  {
  }

  lemma NewIsReady(rec: Record, w: World, env: Env)
    requires rec == NewRecord(rec.op, w, env)
    ensures rec.adopted ==> rec.applied && rec.verified && rec.op.AddRoute?
    ensures rec.seqno == 0
  {
  }

  // ---------------------------------------------------------------- replay

  datatype Report = Report(reverted: seq<Record>, skipped: seq<Record>, failed: seq<Record>)

  // What a Replay that failed at nothing has done, from s to t: nothing is pending, nothing more is
  // crossed, and all that is owed is back but what t says is lost; a server left with our value since s
  // was captured as blank, and the switch beside it is off.
  ghost predicate AllReplayed(s: State, t: State) {
    && Outstanding(t.disk) == [] && t.owed == s.owed && t.crossed == s.crossed
    && t.world.rib == t.owed.rib && Agree(t.world.store, t.owed.store, t.crossed + t.untidy)
    && (forall k | k in t.untidy - s.untidy :: LeftBlank(t, k))
  }

  // Undoes what is pending, newest first, for the process that began it and is no more.
  method Replay(j: FileJournal) returns (rep: Report, crashed: bool)
    requires j.Valid() && j.mac.s.ctl == Undoing(Outstanding(j.mac.s.disk), true) && j.mac.s.done == []
    modifies j.mac
    ensures j.mac.Valid() && (crashed ==> j.mac.s.ctl.Down?)
    ensures !crashed ==> j.Valid() && j.mac.s.ctl.Idle?
    ensures !crashed && rep.failed == [] ==> Undid(old(j.mac.log), j.mac.log) && AllReplayed(old(j.mac.s), j.mac.s)
    ensures !crashed ==> Accounts(rep, Outstanding(old(j.mac.s.disk))) && Settled(rep, j.mac.s.disk)
    ensures !crashed && j.mac.faults == old(j.mac.faults) ==>
      forall r | r in rep.failed :: !r.adopted && !Listed(r.op, j.mac.primary)
    ensures !crashed && j.mac.faults == old(j.mac.faults) && AllListed(Outstanding(old(j.mac.s.disk)), j.mac.primary) ==>
      rep.failed == []
  {
    hide Run, Init, Entries, Heal, Fold, Step, Enabled, InOrder, Accounts, AllReplayed;
    hide Keys, IsUndoStep, Touched, VerifyReverted, StillLive, Listed, RevertOne, FileUnder, Settled;
    var mac := j.mac;
    ghost var log, s := mac.log, mac.s;
    var pending := j.Pending();
    rep, crashed := Report([], [], []), false;
    var i := |pending|;
    assert pending[..i] == pending;
    AccountsNone(pending);
    SettledNone(mac.s.disk);
    while i > 0
      invariant 0 <= i <= |pending| && mac.Valid() && j.Valid()
      invariant mac.s.ctl == Undoing(pending[..i], true) && mac.s.done == []
      invariant rep.failed == [] ==> Undid(log, mac.log)
      invariant Accounts(rep, pending[i..]) && Settled(rep, mac.s.disk)
      invariant mac.faults >= old(j.mac.faults)
      invariant mac.faults == old(j.mac.faults) ==>
        forall r | r in rep.failed :: r in pending && !r.adopted && !Listed(r.op, mac.primary)
    {
      i := i - 1;
      var r := pending[i];
      assert pending[..i + 1] == pending[..i] + [r];
      var op := new LiveOp.Revive(r);
      ghost var before, disk := mac.log, mac.s.disk;
      var ok;
      ok, crashed := UndoTop(j, op, r);
      if crashed {
        return;
      }
      AccountsMore(rep, pending, i, ok);
      SettledMore(rep, r, ok, disk, mac.s.disk);
      FiledUnder(rep, r, ok);
      if ok && rep.failed == [] {
        UndidTrans(log, before, mac.log);
      }
      rep := FileUnder(rep, r, ok);
    }
    assert pending[0..] == pending;
    assert rep.failed != [] ==> rep.failed[0] in rep.failed;
    UndoEndShape(mac.s);
    mac.Note(UndoEnd);
    if rep.failed == [] {
      UndidMore(log, mac.log[..|mac.log| - 1], UndoEnd) by {
        EndIsUndoStep();
      }
      ReplayedAll(mac.start, log, s, mac.log, mac.s);
    }
  }

  lemma ReplayedAll(start: State, before: seq<Event>, s: State, log: seq<Event>, t: State)
    requires Init(start) && Run(start, before, s) && s.ctl == Undoing(Outstanding(s.disk), true)
    requires Run(start, log, t) && Undid(before, log) && t.ctl.Idle? && t.done == []
    ensures AllReplayed(s, t)
  {
    hide Run, Init, Fold, LeftBlank, IsUndoStep, Agree, InOrder;
    var undo := log[|before|..];
    assert log == before + undo;
    RunSplit(start, before, s, undo, t);
    assert forall e | e in undo :: IsUndoStep(e);
    ReplayOutcome(start, before, s, undo, t);
    NoneOutstanding(t.disk);
  }

  // What is not reported as failed is closed; only adopted records are skipped.
  ghost predicate Settled(rep: Report, disk: seq<Entry>) {
    && (forall r | r in rep.reverted :: !r.adopted && r.seqno !in Fold(disk))
    && (forall r | r in rep.skipped :: r.adopted && r.seqno !in Fold(disk))
  }

  lemma SettledNone(disk: seq<Entry>)
    ensures Settled(Report([], [], []), disk)
  {
  }

  lemma SettledMore(rep: Report, r: Record, ok: bool, disk: seq<Entry>, disk': seq<Entry>)
    requires Settled(rep, disk) && (Fold(disk') == Fold(disk) - {r.seqno} || (!ok && disk' == disk))
    ensures Settled(FileUnder(rep, r, ok), disk')
  {
    hide Fold;
  }

  lemma FiledUnder(rep: Report, r: Record, ok: bool)
    ensures FileUnder(rep, r, ok).failed == rep.failed + if ok then [] else [r]
  {
  }

  function FileUnder(rep: Report, r: Record, ok: bool): (out: Report)
    ensures out.failed == [] ==> ok && rep.failed == []
  {
    if !ok then rep.(failed := rep.failed + [r])
    else if r.adopted then rep.(skipped := rep.skipped + [r])
    else rep.(reverted := rep.reverted + [r])
  }

  // Every record handled so far is in exactly one of the three lists.
  ghost predicate Accounts(rep: Report, handled: seq<Record>) {
    multiset(rep.reverted) + multiset(rep.skipped) + multiset(rep.failed) == multiset(handled)
  }

  lemma AccountsNone(pending: seq<Record>)
    ensures Accounts(Report([], [], []), pending[|pending|..])
  {
    assert pending[|pending|..] == [];
  }

  lemma AccountsMore(rep: Report, pending: seq<Record>, i: nat, ok: bool)
    requires i < |pending| && Accounts(rep, pending[i + 1..])
    ensures Accounts(FileUnder(rep, pending[i], ok), pending[i..])
  {
    assert pending[i..] == [pending[i]] + pending[i + 1..];
  }
}
