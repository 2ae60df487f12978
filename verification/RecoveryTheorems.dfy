// What the invariant means: recovery is exact, from wherever a crash left things, but for the settings
// whose loss is accounted for; and pending records over-approximate what we changed.
module RecoveryTheorems {
  import opened Settings
  import opened JournalFormat
  import opened Recovery
  import opened Captures
  import opened RecoveryProof
  import opened RecoveryAlways
  import opened RecoveryStack

  // ---------------------------------------------------------------- nothing pending

  lemma NothingPending(disk: seq<Entry>)
    requires Fold(disk) == map[]
    ensures Active(disk) == []
  {
    assert Keep(Fold(disk)) == map[];
  }

  lemma OwedHere(s: State)
    requires Always(s) && Active(s.disk) == []
    ensures s.world.rib == s.owed.rib
    ensures Agree(s.world.store, s.owed.store, s.crossed + s.untidy)
  {
    hide Fold, Books, Refusals, InHand, Active, Bounded;
    assert RevertAll(Active(s.disk), s.world) == s.world;
    OwedRoutes(s.disk, s.world);
    SameOwed(Fold(s.disk), s.world.rib, s.owed.rib, s.world.rib);
  }

  // Crash recovery: however the run got here, once nothing is pending every route is as owed, and every
  // setting that was not lost on the way. Nothing is lost to a stuck record that shares no setting
  // with an older pending one, and to a server that was never refused to be cleared.
  lemma CompletedReplayRestores(start: State, events: seq<Event>, end: State)
    requires Init(start) && Run(start, events, end) && Fold(end.disk) == map[]
    ensures end.world.rib == end.owed.rib
    ensures Agree(end.world.store, end.owed.store, end.crossed + end.untidy)
    ensures StuckApart(start, events) ==> end.crossed == {}
    ensures end.untidy <= end.refused
  {
    hide Run, Init, Fold, Active, StuckApart;
    ReachableAlways(start, events, end);
    NothingPending(end.disk);
    OwedHere(end);
    if StuckApart(start, events) {
      ReachableApart(start, events, end);
    }
  }

  // The command that clears server k fails.
  ghost predicate ClearFails(s: State, e: Event, k: Key) {
    && e == UnwriteErr && Enabled(s, e) && !s.ctl.rec.op.AddRoute?
    && var a := s.ctl.rec.undo[s.ctl.i]; a.key == k && IsSoft(a)
  }

  // A server is refused only where such a command has failed.
  lemma {:induction false} RefusedFailed(start: State, events: seq<Event>, end: State, k: Key)
    requires Init(start) && Run(start, events, end) && k in end.refused
    ensures exists i, mid | 0 <= i < |events| && Run(start, events[..i], mid) :: ClearFails(mid, events[i], k)
    decreases |events|
  {
    hide Step, Enabled, ClearFails;
    var n := |events| - 1;
    var mid :| Run(start, events[..n], mid) && Enabled(mid, events[n]) && Step(mid, events[n]) == end;
    if k in mid.refused {
      RefusedFailed(start, events[..n], mid, k);
      var i, m :| 0 <= i < n && Run(start, events[..n][..i], m) && ClearFails(m, events[..n][i], k);
      assert events[..n][..i] == events[..i];
    } else {
      RefusedStep(mid, events[n], k);
    }
  }

  lemma RefusedStep(s: State, e: Event, k: Key)
    requires Enabled(s, e) && k in Step(s, e).refused && k !in s.refused
    ensures ClearFails(s, e, k)
  {
    hide Fold, Active, RevertAll, Own, Older, Newer, Lost, CoveredKeys;
  }

  // ---------------------------------------------------------------- a server left uncleared

  // k is a server that was not cleared: nothing pending will touch it, and the switch beside it is off.
  ghost predicate Uncleared(s: State, k: Key) {
    && k.ProxyServer? && Get(s.world.store, Partner(k)) == Some(Switch(false))
    && k !in CoveredKeys(Active(s.disk)) && Partner(k) !in CoveredKeys(Active(s.disk))
  }

  // Only a server captured as blank can be left uncleared, and blank is what is owed for it.
  lemma CloseUntidies(s: State, k: Key)
    requires Always(s) && Enabled(s, Close) && k in Step(s, Close).untidy && k !in s.untidy
    ensures Uncleared(Step(s, Close), k) && k in s.refused
    ensures exists a | a in s.ctl.rec.undo :: a.key == k && IsSoft(a)
    ensures k !in s.crossed ==> IsSoft(Assign(k, Get(s.owed.store, k)))
  {
    hide Fold, RoutesFree, Refusals, Bounded, CoveredKeys, Keys, RevertAll, PutAll, Captured, Active, Older, Newer, Books,
      Written, Partner;
    var rec := s.ctl.rec;
    var older, newer := Older(s.disk, rec.seqno), Newer(s.disk, rec.seqno);
    ClosingHeld(s);
    UntidyIsRefused(older, rec, newer, s.world, s.refused, k);
    var a :| a in rec.undo && a.key == k && IsSoft(a) && Get(PutAll(s.world.store, rec.undo), k) == a.val;
    SwitchedOff(rec, a, s.world.store, s.refused);
    ActiveSplit(s.disk, rec.seqno);
    ActiveDone(s.disk, rec.seqno);
    CoveredConcat(older, newer);
    ActiveCaptured(s);
    forall r | r in older + newer ensures Captured(r) {
      assert r in older + [rec] + newer;
    }
    NotInPairs(older, newer, k);
    if k !in s.crossed {
      RecordDecides(older, rec, newer, s.world, k);
      assert Get(RevertAll(Active(s.disk), s.world).store, k) == Get(s.owed.store, k);
    }
  }

  lemma ActiveCaptured(s: State)
    requires Always(s)
    ensures forall r | r in Active(s.disk) :: Captured(r)
  {
    hide Fold, RoutesFree, Refusals, Bounded, Owing, Captured, InHand, Active;
    forall r | r in Active(s.disk) ensures Captured(r) {
      ActiveElements(s.disk, r);
    }
  }

  lemma NotInPairs(older: seq<Record>, newer: seq<Record>, k: Key)
    requires forall r | r in older + newer :: Captured(r)
    requires k !in CoveredKeys(older) && k !in CoveredKeys(newer)
    ensures k !in CoveredKeys(older + newer) && Partner(k) !in CoveredKeys(older + newer)
  {
    hide Captured, CoveredKeys, Partner;
    CoveredConcat(older, newer);
    PartnerTwice(k);
    if Partner(k) in CoveredKeys(older + newer) {
      CoveredInPairs(older + newer, Partner(k));
    }
  }

  lemma SwitchedOff(r: Record, a: Assign, store: Store, refused: set<Key>)
    requires Captured(r) && a in r.undo && IsSoft(a) && Written(r, |r.undo|, store, refused)
    ensures Get(store, Partner(a.key)) == Some(Switch(false))
  {
    hide Captured;
    SoftIsOff(r, a);
    var b := Assign(Partner(a.key), Some(Switch(false)));
    var j :| 0 <= j < |r.undo| && r.undo[j] == b;
  }

  // ---------------------------------------------------------------- what undoing keeps

  // A step of rolling back, UndoAll or Replay in which no record is given up.
  predicate IsUndoStep(e: Event) {
    || e.TakeTop? || e.Unwrite? || e.UnwriteErr? || e.RevertConfirmed? || e.Close? || e.Compact? || e.CompactErr?
    || e.UndoEnd?
  }

  // What is pending on disk and not in hand.
  ghost function Beneath(s: State): Open {
    Fold(s.disk) - Tokens(Held(s))
  }

  // From a to b only records in hand were closed, and only blank servers that refused were lost.
  ghost predicate Undone(a: State, b: State) {
    && b.owed == a.owed && b.begun == a.begun && Beneath(b) == Beneath(a) && a.untidy <= b.untidy
    && (forall k | k in b.untidy - a.untidy :: LeftBlank(b, k))
    && (Apart(a) ==> Apart(b) && b.crossed == a.crossed)
    && (Stacked(a) ==> Stacked(b))
  }

  ghost predicate LeftBlank(s: State, k: Key) {
    Uncleared(s, k) && (k !in s.crossed ==> IsSoft(Assign(k, Get(s.owed.store, k))))
  }

  lemma BeneathKept(s: State, e: Event)
    requires Always(s) && Enabled(s, e) && IsUndoStep(e)
    ensures Beneath(Step(s, e)) == Beneath(s)
  {
    hide Fold, Step, Enabled, Held, Tokens;
    if e.Close? {
      BeneathClosed(s);
    } else {
      SameInHand(s, e);
    }
  }

  lemma BeneathClosed(s: State)
    requires Enabled(s, Close)
    ensures Beneath(Step(s, Close)) == Beneath(s)
  {
    hide Fold, Older, Newer, Lost, CoveredKeys;
    var t := Step(s, Close);
    FoldMore(s.disk, Done(s.ctl.rec.seqno));
    assert Held(s) == Held(t) + [s.ctl.rec];
    TokensSnoc(Held(t), s.ctl.rec);
  }

  lemma SameInHand(s: State, e: Event)
    requires Enabled(s, e) && IsUndoStep(e) && !e.Close?
    ensures var t := Step(s, e); Fold(t.disk) == Fold(s.disk) && Held(t) == Held(s) && (t.world == s.world || e.Unwrite?)
  {
    if e.TakeTop? {
      TakeTopHeld(s);
    } else if e.Compact? {
      CompactHeld(s);
    } else {
      hide Fold, UnwriteOne, RevertSteps, IsSoft, Present;
    }
  }

  lemma CompactHeld(s: State)
    requires Enabled(s, Compact)
    ensures var t := Step(s, Compact); t.world == s.world && Fold(t.disk) == Fold(s.disk) && Held(t) == Held(s)
  {
    FoldEmpty();
  }

  lemma TakeTopHeld(s: State)
    requires Enabled(s, TakeTop)
    ensures var t := Step(s, TakeTop); t == s.(ctl := t.ctl) && Held(t) == Held(s)
  {
    var n := |s.ctl.rest| - 1;
    assert s.ctl.rest == s.ctl.rest[..n] + [s.ctl.rest[n]];
  }

  // Undoing never touches what nothing pending covers.
  lemma UnclearedKept(s: State, e: Event, k: Key)
    requires Always(s) && Enabled(s, e) && IsUndoStep(e) && Uncleared(s, k)
    ensures Uncleared(Step(s, e), k)
  {
    hide Fold, RoutesFree, Refusals, Bounded, Owing, InHand, Books, Active, CoveredKeys, Partner, Step, Always, Enabled;
    if e.Close? {
      ClosedCovers(s);
    } else {
      SameInHand(s, e);
      assert Active(Step(s, e).disk) == Active(s.disk) by {
        ActiveOfFold(s.disk, Step(s, e).disk);
      }
      if e.Unwrite? {
        UnwriteWithin(s, Partner(k));
      }
    }
  }

  lemma ActiveOfFold(a: seq<Entry>, b: seq<Entry>)
    requires Fold(a) == Fold(b)
    ensures Active(a) == Active(b)
  {
  }

  lemma ClosedCovers(s: State)
    requires Always(s) && Enabled(s, Close)
    ensures CoveredKeys(Active(Step(s, Close).disk)) <= CoveredKeys(Active(s.disk)) && Step(s, Close).world == s.world
  {
    hide Fold, RoutesFree, Refusals, Bounded, Owing, Books, Active, CoveredKeys, Older, Newer, Lost, Captured, Written, Present;
    var rec := s.ctl.rec;
    ClosingHeld(s);
    ActiveDone(s.disk, rec.seqno);
    if rec.adopted {
      ActiveDoneInert(s.disk, rec.seqno);
    } else {
      ActiveSplit(s.disk, rec.seqno);
      CoveredConcat(Older(s.disk, rec.seqno) + [rec], Newer(s.disk, rec.seqno));
      CoveredConcat(Older(s.disk, rec.seqno), [rec]);
      CoveredConcat(Older(s.disk, rec.seqno), Newer(s.disk, rec.seqno));
    }
  }

  lemma UnwriteWithin(s: State, k: Key)
    requires Always(s) && Enabled(s, Unwrite) && k !in CoveredKeys(Active(s.disk))
    ensures Get(Step(s, Unwrite).world.store, k) == Get(s.world.store, k)
  {
    hide Fold, RoutesFree, Refusals, Bounded, Owing, Books, Active, CoveredKeys, Captured, Written, InHand;
    InHandHeld(s);
    HeldActive(s.disk, s.ctl.rec);
    InCovered(Active(s.disk), s.ctl.rec);
    if !s.ctl.rec.op.AddRoute? {
      assert s.ctl.rec.undo[s.ctl.i] in s.ctl.rec.undo;
    }
  }

  lemma UndoStep(a: State, s: State, e: Event)
    requires Always(s) && Undone(a, s) && Enabled(s, e) && IsUndoStep(e)
    ensures Undone(a, Step(s, e))
  {
    hide Always, Beneath, Apart, Stacked, LeftBlank, Step, Enabled, IsUndoStep;
    var t := Step(s, e);
    BeneathKept(s, e);
    UndoHistory(s, e);
    if Apart(a) {
      ApartStep(s, e);
    }
    if Stacked(a) {
      StackedStep(s, e);
    }
    forall k | k in t.untidy - a.untidy ensures LeftBlank(t, k) {
      if k in s.untidy {
        assert k in s.untidy - a.untidy;
        BlankKept(s, e, k);
      } else {
        UntidyStep(s, e, k);
      }
    }
  }

  lemma ApartStep(s: State, e: Event)
    requires Always(s) && Apart(s) && Enabled(s, e) && IsUndoStep(e)
    ensures Apart(Step(s, e)) && Step(s, e).crossed == s.crossed
  {
    hide Always, Step, Enabled, Apart;
    StepKeepsApart(s, e);
    StepKeepsUncrossed(s, e);
  }

  lemma StackedStep(s: State, e: Event)
    requires Always(s) && Stacked(s) && Enabled(s, e) && IsUndoStep(e)
    ensures Stacked(Step(s, e))
  {
    hide Always, Step, Enabled, Stacked;
    StepKeepsStacked(s, e);
  }

  lemma BlankKept(s: State, e: Event, k: Key)
    requires Always(s) && Enabled(s, e) && IsUndoStep(e) && LeftBlank(s, k)
    ensures LeftBlank(Step(s, e), k)
  {
    hide Always, Uncleared, Step, IsSoft, Enabled;
    UndoHistory(s, e);
    UnclearedKept(s, e, k);
  }

  lemma UndoHistory(s: State, e: Event)
    requires Enabled(s, e) && IsUndoStep(e)
    ensures var t := Step(s, e);
      t.owed == s.owed && t.begun == s.begun && s.untidy <= t.untidy && s.crossed <= t.crossed && (!e.Close? ==> t.untidy == s.untidy)
  {
    hide Fold, Lost, Older, Newer, CoveredKeys, UnwriteOne;
  }

  lemma UntidyStep(s: State, e: Event, k: Key)
    requires Always(s) && Enabled(s, e) && IsUndoStep(e) && k in Step(s, e).untidy && k !in s.untidy
    ensures LeftBlank(Step(s, e), k)
  {
    hide Always, Uncleared, Step, IsSoft, Enabled;
    UndoHistory(s, e);
    CloseUntidies(s, k);
  }

  lemma {:induction false} UndoneByRun(a: State, events: seq<Event>, b: State)
    requires Always(a) && Run(a, events, b) && forall e | e in events :: IsUndoStep(e)
    ensures Always(b) && Undone(a, b)
    decreases |events|
  {
    hide Always, Enabled, Step, Undone, IsUndoStep;
    if events == [] {
      UndoneSelf(a);
    } else {
      var n := |events| - 1;
      var mid :| Run(a, events[..n], mid) && Enabled(mid, events[n]) && Step(mid, events[n]) == b;
      assert events[n] in events;
      UndoneByRun(a, events[..n], mid);
      UndoStep(a, mid, events[n]);
      StepKeepsAlways(mid, events[n]);
    }
  }

  lemma UndoneSelf(a: State)
    ensures Undone(a, a)
  {
  }

  // ---------------------------------------------------------------- a Replay

  lemma ReplayBegins(s: State)
    requires Always(s) && s.ctl == Undoing(Outstanding(s.disk), true)
    ensures Stacked(s) && Apart(s) && Beneath(s) == map[]
  {
    hide Fold, RoutesFree, Refusals, Bounded, Owing, Books, Outstanding;
    assert Held(s) == Outstanding(s.disk);
    KeepKeyed(s.disk);
    forall q | q in Fold(s.disk) ensures q in Tokens(Held(s)) {
      OutstandingComplete(s.disk, q);
      assert Fold(s.disk)[q] in Held(s);
    }
  }

  lemma ReplayEnd(s: State)
    requires Always(s) && Beneath(s) == map[] && (s.ctl == Undoing([], true) || (s.ctl.Idle? && s.done == []))
    ensures Fold(s.disk) == map[]
  {
    hide Fold, RoutesFree, Refusals, Bounded, Owing, Books;
    assert Held(s) == [];
    assert Fold(s.disk) - Tokens([]) == Fold(s.disk);
  }

  // Every Replay that gives up no record: nothing stays pending, nothing more is crossed, and what it
  // does not put back are servers captured as blank, whose switch is off. No run leading up to it is
  // excluded.
  lemma ReplayOutcome(start: State, before: seq<Event>, s: State, undo: seq<Event>, end: State)
    requires Init(start) && Run(start, before, s) && s.ctl == Undoing(Outstanding(s.disk), true)
    requires Run(s, undo, end) && forall e | e in undo :: IsUndoStep(e)
    requires end.ctl == Undoing([], true) || (end.ctl.Idle? && end.done == [])
    ensures Fold(end.disk) == map[] && end.owed == s.owed && end.world.rib == end.owed.rib
    ensures Agree(end.world.store, end.owed.store, end.crossed + end.untidy)
    ensures end.crossed == s.crossed
    ensures end.untidy <= end.refused && forall k | k in end.untidy - s.untidy :: LeftBlank(end, k)
  {
    hide Run, Init, Fold, Active, Always, Apart, Stacked, Beneath, Step, LeftBlank, Outstanding;
    ReachableAlways(start, before, s);
    ReplayBegins(s);
    UndoneByRun(s, undo, end);
    ReplayEnd(end);
    NothingPending(end.disk);
    OwedHere(end);
    RefusedCovers(end);
  }

  lemma RefusedCovers(s: State)
    requires Always(s)
    ensures s.untidy <= s.refused
  {
  }

  // ---------------------------------------------------------------- a Replay always gets there

  ghost predicate Undoes(a: State, events: seq<Event>, b: State) {
    Run(a, events, b) && forall e | e in events :: IsUndoStep(e)
  }

  lemma UndoMore(a: State, events: seq<Event>, s: State, e: Event)
    requires Always(s) && Undoes(a, events, s) && Enabled(s, e) && IsUndoStep(e)
    ensures Undoes(a, events + [e], Step(s, e)) && Always(Step(s, e))
  {
    hide Step, Enabled, Always, IsUndoStep;
    assert (events + [e])[..|events|] == events;
    StepKeepsAlways(s, e);
  }

  // Every command of the revert so far has succeeded.
  ghost predicate Succeeding(ctl: Control, w: World) {
    && ctl.Reverting? && !ctl.failed && ctl.i <= RevertSteps(ctl.rec)
    && (ctl.rec.op.AddRoute? && ctl.i == 1 ==> !Present(w.rib, ctl.rec.op.route))
    && (!ctl.rec.op.AddRoute? ==> Written(ctl.rec, ctl.i, w.store, {}))
  }

  lemma SucceedMore(s: State)
    requires Always(s) && Succeeding(s.ctl, s.world) && s.ctl.i < RevertSteps(s.ctl.rec)
    ensures Enabled(s, Unwrite)
    ensures var t := Step(s, Unwrite);
      && t.ctl == Reverting(s.ctl.rec, s.ctl.i + 1, s.ctl.rest, s.ctl.replay, false) && t.untidy == s.untidy
      && Succeeding(t.ctl, t.world)
  {
    hide Fold, RoutesFree, Refusals, Bounded, Owing, Books, Captured, InHand, Written;
    InHandHeld(s);
    if !s.ctl.rec.op.AddRoute? {
      WrittenMore(s.ctl.rec, s.ctl.i, s.world.store, {});
    }
  }

  // The record in hand can be closed and costs nothing.
  ghost predicate Reverted(ctl: Control, w: World) {
    ctl.Closing? && (!ctl.rec.adopted && !ctl.rec.op.AddRoute? ==> Written(ctl.rec, |ctl.rec.undo|, w.store, {}))
  }

  lemma {:induction false} UnwriteAll(a: State, before: seq<Event>, s: State) returns (events: seq<Event>, end: State)
    requires Undoes(a, before, s) && Always(s) && Apart(s) && Succeeding(s.ctl, s.world)
    ensures Undoes(a, events, end) && Always(end) && Apart(end) && end.untidy == s.untidy
    ensures end.ctl == Closing(s.ctl.rec, s.ctl.rest, s.ctl.replay) && Reverted(end.ctl, end.world)
    decreases RevertSteps(s.ctl.rec) - s.ctl.i
  {
    if s.ctl.i == RevertSteps(s.ctl.rec) {
      Confirm(s);
      hide Always, Undoes, Step, Enabled, Reverted, Succeeding, Apart;
      UndoMore(a, before, s, RevertConfirmed);
      StepKeepsApart(s, RevertConfirmed);
      events, end := before + [RevertConfirmed], Step(s, RevertConfirmed);
    } else {
      SucceedMore(s);
      hide Always, Undoes, Step, Enabled, Reverted, Written, Present, Apart;
      UndoMore(a, before, s, Unwrite);
      StepKeepsApart(s, Unwrite);
      events, end := UnwriteAll(a, before + [Unwrite], Step(s, Unwrite));
    }
  }

  lemma Confirm(s: State)
    requires Succeeding(s.ctl, s.world) && s.ctl.i == RevertSteps(s.ctl.rec)
    ensures Enabled(s, RevertConfirmed)
    ensures var t := Step(s, RevertConfirmed);
      t.ctl == Closing(s.ctl.rec, s.ctl.rest, s.ctl.replay) && t.untidy == s.untidy && Reverted(t.ctl, t.world)
  {
    hide Fold, Written, Present;
  }

  lemma CloseAndCompact(a: State, before: seq<Event>, s: State) returns (events: seq<Event>, end: State)
    requires Undoes(a, before, s) && Always(s) && Apart(s) && Reverted(s.ctl, s.world)
    ensures Undoes(a, events, end) && Always(end) && Apart(end)
    ensures end.ctl == Undoing(s.ctl.rest, s.ctl.replay) && end.untidy == s.untidy
  {
    hide Undoes, Apart, Always, Fold, Older, Newer, Lost, CoveredKeys, Written;
    var s1, e1 := Step(s, Close), before + [Close];
    UndoMore(a, before, s, Close);
    StepKeepsApart(s, Close);
    CloseCostsNothing(s);
    var s2 := Step(s1, Compact);
    UndoMore(a, e1, s1, Compact);
    StepKeepsApart(s1, Compact);
    events, end := e1 + [Compact], s2;
  }

  lemma CloseCostsNothing(s: State)
    requires Always(s) && Apart(s) && Reverted(s.ctl, s.world)
    ensures Enabled(s, Close) && Step(s, Close).untidy == s.untidy
  {
    hide Always, Apart, Written, CoveredKeys, Older, Newer, RevertAll, PutAll, Fold, Keys;
    var rec := s.ctl.rec;
    var older, newer := Older(s.disk, rec.seqno), Newer(s.disk, rec.seqno);
    forall k | k in Lost(older, rec, newer, s.world) ensures k in CoveredKeys(newer) {
      if k !in CoveredKeys(newer) {
        UntidyIsRefused(older, rec, newer, s.world, {}, k);
      }
    }
  }

  lemma TakeTopShape(s: State)
    requires Enabled(s, TakeTop)
    ensures var t := Step(s, TakeTop);
      && t == s.(ctl := t.ctl) && (Reverted(t.ctl, t.world) || Succeeding(t.ctl, t.world))
      && t.ctl.rest == s.ctl.rest[..|s.ctl.rest| - 1] && t.ctl.replay == s.ctl.replay
  {
  }

  // A Replay (or UndoAll) that meets no failing command always runs to its end.
  lemma {:induction false} UndoRest(a: State, before: seq<Event>, s: State) returns (events: seq<Event>, end: State)
    requires Undoes(a, before, s) && Always(s) && Apart(s) && s.ctl.Undoing?
    ensures Undoes(a, events, end) && end.ctl == Undoing([], s.ctl.replay) && end.untidy == s.untidy
    decreases |s.ctl.rest|
  {
    if s.ctl.rest == [] {
      events, end := before, s;
    } else {
      TakeTopShape(s);
      hide Undoes, Apart, Always, Step, Reverted, Succeeding;
      UndoMore(a, before, s, TakeTop);
      StepKeepsApart(s, TakeTop);
      var e1, s1 := before + [TakeTop], Step(s, TakeTop);
      if !Reverted(s1.ctl, s1.world) {
        e1, s1 := UnwriteAll(a, e1, s1);
      }
      var e2, s2 := CloseAndCompact(a, e1, s1);
      events, end := UndoRest(a, e2, s2);
    }
  }

  lemma {:induction false} RunConcat(a: State, before: seq<Event>, s: State, after: seq<Event>, b: State)
    requires Run(a, before, s) && Run(s, after, b)
    ensures Run(a, before + after, b)
    decreases |after|
  {
    hide Step, Enabled;
    if after == [] {
      assert before + after == before;
    } else {
      var n := |after| - 1;
      var mid :| Run(s, after[..n], mid) && Enabled(mid, after[n]) && Step(mid, after[n]) == b;
      RunConcat(a, before, s, after[..n], mid);
      assert (before + after)[..|before + after| - 1] == before + after[..n];
    }
  }

  lemma RunOne(s: State, e: Event)
    requires Enabled(s, e)
    ensures Run(s, [e], Step(s, e))
  {
    hide Step, Enabled;
    assert [e][..0] == [];
    assert Run(s, [], s);
  }

  // From any state any run can leave a dead process in, one more Replay puts back all there is to put
  // back, and loses nothing further.
  lemma ReplayRecovers(start: State, before: seq<Event>, down: State) returns (undo: seq<Event>, end: State)
    requires Init(start) && Run(start, before, down) && down.ctl.Down?
    ensures Run(start, before + [BootReplay] + undo, end) && forall e | e in undo :: IsUndoStep(e)
    ensures end.ctl == Undoing([], true) && Fold(end.disk) == map[] && end.owed == down.owed
    ensures end.crossed == down.crossed && end.untidy == down.untidy
    ensures end.world.rib == end.owed.rib && Agree(end.world.store, end.owed.store, end.crossed + end.untidy)
  {
    var boot := Step(down, BootReplay);
    assert Undoes(boot, [], boot);
    assert boot == down.(ctl := boot.ctl, done := boot.done, seqno := boot.seqno);
    RunOne(down, BootReplay);
    hide Run, Init, Fold, Always, Apart, Stacked, Beneath, Step, LeftBlank, Active, Outstanding;
    RunConcat(start, before, down, [BootReplay], boot);
    ReachableAlways(start, before + [BootReplay], boot);
    ReplayBegins(boot);
    undo, end := UndoRest(boot, [], boot);
    RunConcat(start, before + [BootReplay], boot, undo, end);
    ReplayOutcome(start, before + [BootReplay], boot, undo, end);
  }

  lemma {:induction false} RunFunctional(a: State, events: seq<Event>, b: State, c: State)
    requires Run(a, events, b) && Run(a, events, c)
    ensures b == c
    decreases |events|
  {
    hide Step, Enabled;
    if events != [] {
      var n := |events| - 1;
      var x :| Run(a, events[..n], x) && Enabled(x, events[n]) && Step(x, events[n]) == b;
      var y :| Run(a, events[..n], y) && Enabled(y, events[n]) && Step(y, events[n]) == c;
      RunFunctional(a, events[..n], x, y);
    }
  }

  // The rest of a run, from any state it passes through.
  lemma {:induction false} RunSplit(a: State, before: seq<Event>, s: State, after: seq<Event>, b: State)
    requires Run(a, before, s) && Run(a, before + after, b)
    ensures Run(s, after, b)
    decreases |after|
  {
    hide Step, Enabled;
    if after == [] {
      assert before + after == before;
      RunFunctional(a, before, s, b);
    } else {
      var n, all := |after| - 1, before + after;
      assert all[..|all| - 1] == before + after[..n] && all[|all| - 1] == after[n];
      var mid :| Run(a, all[..|all| - 1], mid) && Enabled(mid, after[n]) && Step(mid, after[n]) == b;
      RunSplit(a, before, s, after[..n], mid);
    }
  }

  // ---------------------------------------------------------------- a clean exit

  // An UndoAll that gives up no record closes the process's own records and no other, whatever went
  // wrong before. When the process had let go of none of its own, what is left is exactly what lay
  // beneath its stack, and nothing is crossed.
  lemma UndoAllRestores(start: State, before: seq<Event>, s: State, undo: seq<Event>, end: State)
    requires Init(start) && Run(start, before, s) && s.ctl.Idle?
    requires Run(Step(s, UndoAll), undo, end) && forall e | e in undo :: IsUndoStep(e)
    requires end.done == [] && (end.ctl == Undoing([], false) || end.ctl.Idle?)
    ensures Fold(end.disk) == Fold(s.disk) - Tokens(s.done) && end.owed == s.owed
    ensures Agree(RevertAll(Active(end.disk), end.world).store, end.owed.store, end.crossed + end.untidy)
    ensures Active(end.disk) == [] ==>
      end.world.rib == end.owed.rib && Agree(end.world.store, end.owed.store, end.crossed + end.untidy)
    ensures Stacked(s) ==> end.crossed == s.crossed && Stacked(end)
    ensures Stacked(s) ==> |Live(s)| <= |Active(s.disk)|
    ensures Stacked(s) ==> Active(end.disk) == Active(s.disk)[..|Active(s.disk)| - |Live(s)|]
    ensures end.untidy <= end.refused && forall k | k in end.untidy - s.untidy :: LeftBlank(end, k)
  {
    hide Run, Init, Fold, Active, Always, Apart, Stacked, Step, LeftBlank, RevertAll;
    ReachableAlways(start, before, s);
    UndoAllStart(s);
    UndoneByRun(Step(s, UndoAll), undo, end);
    AllReleased(s, end);
    OwingNow(end);
    if Active(end.disk) == [] {
      OwedHere(end);
    }
    if Stacked(s) {
      StackedIsApart(Step(s, UndoAll));
      StackIsTop(s);
    }
    RefusedCovers(end);
  }

  lemma OwingNow(s: State)
    requires Always(s)
    ensures Agree(RevertAll(Active(s.disk), s.world).store, s.owed.store, s.crossed + s.untidy)
  {
  }

  lemma UndoAllStart(s: State)
    requires Enabled(s, UndoAll)
    requires Always(s)
    ensures var t := Step(s, UndoAll);
      && Always(t) && Beneath(t) == Fold(s.disk) - Tokens(s.done) && (Stacked(s) ==> Stacked(t))
      && t == s.(ctl := t.ctl, done := []) && Held(s) == s.done
  {
    hide Fold, RoutesFree, Refusals, Bounded, Owing, Books;
    MoveKeepsAlways(s, UndoAll);
    assert Held(Step(s, UndoAll)) == Held(s) == s.done;
  }

  lemma AllReleased(s: State, end: State)
    requires end.done == [] && (end.ctl == Undoing([], false) || end.ctl.Idle?)
    requires Beneath(end) == Fold(s.disk) - Tokens(s.done)
    ensures Fold(end.disk) == Fold(s.disk) - Tokens(s.done)
  {
    hide Fold;
    assert Held(end) == [];
    assert Fold(end.disk) - Tokens([]) == Fold(end.disk);
  }

  lemma StackIsTop(s: State)
    requires Always(s) && Stacked(s)
    ensures IsSuffix(Live(s), Active(s.disk))
    ensures forall disk: seq<Entry> | Fold(disk) == Fold(s.disk) - Tokens(Held(s)) ::
      Active(disk) == Active(s.disk)[..|Active(s.disk)| - |Live(s)|]
  {
    hide Fold, RoutesFree, Refusals, Bounded, Owing, InHand, Books, InOrder, Unadopted, Tokens;
    TopIsHeld(Fold(s.disk), s.seqno, Held(s));
  }

  // ---------------------------------------------------------------- what pending records cover

  // The journal over-approximates: at every micro-step of every run, a setting that is not as owed,
  // and is not lost, is covered by a durable pending record, and the oldest such record holds the
  // value owed.
  lemma PendingCovers(start: State, events: seq<Event>, s: State, k: Key)
    requires Init(start) && Run(start, events, s) && k !in s.crossed + s.untidy
    requires Get(s.world.store, k) != Get(s.owed.store, k)
    ensures exists i | 0 <= i < |Active(s.disk)| ::
      (!Active(s.disk)[i].op.AddRoute?
       && Assign(k, Get(s.owed.store, k)) in Active(s.disk)[i].undo
       && k !in CoveredKeys(Active(s.disk)[..i]))
  {
    hide Run, Init, Always, Active, CoveredKeys;
    ReachableAlways(start, events, s);
    OwingNow(s);
    assert Get(RevertAll(Active(s.disk), s.world).store, k) == Get(s.owed.store, k);
    OldestDecides(Active(s.disk), s.world, k);
  }

  // Pending records are the live process's own stack on top of what earlier processes left.
  lemma PendingIsStack(start: State, events: seq<Event>, s: State)
    requires Init(start) && Run(start, events, s) && Unstuck(events)
    ensures IsSuffix(Live(s), Active(s.disk))
  {
    hide Run, Init, Always, Stacked, Active;
    ReachableStacked(start, events, s);
    StackIsTop(s);
  }

  // ---------------------------------------------------------------- when a stuck record costs something

  // r, the newest record, is left pending by an UndoAll that closes the others, and replayed later;
  // its own commands may have left its settings anything. The outcome for k is that of an undisturbed
  // UndoAll if and only if r and an older record do not both cover k, or captured the same value for it.
  lemma StuckThenReplayed(rest: seq<Record>, r: Record, w: World, left: World, k: Key)
    requires !r.op.AddRoute? && Agree(w.store, left.store, Keys(r.undo))
    ensures Get(RevertAll([r], RevertAll(rest, left)).store, k) == Get(RevertAll(rest + [r], w).store, k)
      <==> (k in Keys(r.undo) && k in CoveredKeys(rest) ==>
              Get(PutAll(w.store, r.undo), k) == Get(RevertAll(rest, w).store, k))
  {
    hide CoveredKeys, RevertAll, PutAll, Keys;
    var u := RevertOne(r, w);
    RevertAllConcat(rest, [r], w);
    RevertAllOne(r, w);
    RevertAllOne(r, RevertAll(rest, left));
    if k in Keys(r.undo) {
      PutAllValue(RevertAll(rest, left).store, w.store, r.undo, k);
    } else {
      PutAllOutside(RevertAll(rest, left).store, r.undo);
      PutAllOutside(w.store, r.undo);
    }
    if k in CoveredKeys(rest) {
      OwedCovered(rest, u, w, k);
      OwedCovered(rest, left, w, k);
    } else {
      OldestDecides(rest, u, k);
      OldestDecides(rest, left, k);
    }
  }
}
