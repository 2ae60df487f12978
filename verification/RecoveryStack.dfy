// Where a record that failed to close matters: the records in hand as a stack, the ones let go of, and
// why nothing is lost as long as those share no setting with the older records still to be undone.
module RecoveryStack {
  import opened Settings
  import opened JournalFormat
  import opened Recovery
  import opened Captures
  import opened RecoveryProof
  import opened RecoveryAlways

  function Tokens(rs: seq<Record>): set<nat> {
    set r | r in rs :: r.seqno
  }

  // The records pending on disk that the live process no longer has in hand, or never had.
  function Loose(m: Open, held: seq<Record>): set<nat> {
    set q | q in m && !m[q].adopted && q !in Tokens(held)
  }

  // The process holds the newest of the pending records.
  ghost predicate Stacked(s: State) {
    forall q, r | q in Loose(Fold(s.disk), Held(s)) && r in Held(s) :: q < r.seqno
  }

  // A record let go of shares no setting with an older one in hand.
  ghost predicate Apart(s: State) {
    forall q, r | q in Loose(Fold(s.disk), Held(s)) && r in Held(s) && !r.adopted && r.seqno < q ::
      Keys(Fold(s.disk)[q].undo) !! Keys(r.undo)
  }

  lemma StackedIsApart(s: State)
    requires Stacked(s)
    ensures Apart(s)
  {
  }

  // ---------------------------------------------------------------- one step

  // r is in hand before the step, or it is the one just begun.
  ghost predicate Known(s: State, r: Record) {
    r.seqno > s.seqno || exists was | was in Held(s) :: was.seqno == r.seqno && was.undo == r.undo && was.adopted == r.adopted
  }

  ghost predicate LooseSame(s: State, t: State) {
    || Held(t) == []
    || Loose(Fold(t.disk), Held(t)) == {}
    || (&& (forall q | q in Loose(Fold(t.disk), Held(t)) ::
              q in Loose(Fold(s.disk), Held(s)) && q <= s.seqno && Fold(t.disk)[q] == Fold(s.disk)[q])
        && (forall r | r in Held(t) :: Known(s, r)))
  }

  lemma SameHeld(s: State, t: State)
    requires Always(s) && Fold(t.disk) == Fold(s.disk) && Held(t) == Held(s)
    ensures LooseSame(s, t)
  {
    hide Fold, Books, RoutesFree, Owing, Refusals;
  }

  lemma DecideLoose(s: State, e: Event)
    requires Always(s) && Enabled(s, e)
    requires !e.RevertStuck? && !e.Boot? && !e.BootReplay? && !e.BeginOk? && !e.AdoptOk? && !e.CommitOk? && !e.Close?
          && !e.AdoptErr? && !e.Crash?
    ensures LooseSame(s, Step(s, e))
  {
    if Decides(e) {
      DecideSameHeld(s, e);
    } else if e.UndoAll? || e.TakeTop? || e.Compact? || e.CompactErr? {
      MoveSameHeld(s, e);
    } else {
      WriteSameHeld(s, e);
    }
    hide Always, Step, Enabled, Fold, Held, LooseSame;
    SameHeld(s, Step(s, e));
  }

  lemma DecideSameHeld(s: State, e: Event)
    requires Enabled(s, e) && Decides(e) && !e.Crash?
    ensures Fold(Step(s, e).disk) == Fold(s.disk) && Held(Step(s, e)) == Held(s)
  {
    hide Fold, NewRecord, ApplySteps, RevertSteps, Present, WellFormed;
  }

  lemma MoveSameHeld(s: State, e: Event)
    requires Enabled(s, e) && (e.UndoAll? || e.TakeTop? || e.Compact? || e.CompactErr?)
    ensures Fold(Step(s, e).disk) == Fold(s.disk) && Held(Step(s, e)) == Held(s)
  {
    hide Fold;
    FoldEmpty();
    if e.TakeTop? {
      var n := |s.ctl.rest| - 1;
      assert s.ctl.rest == s.ctl.rest[..n] + [s.ctl.rest[n]];
    }
  }

  lemma WriteSameHeld(s: State, e: Event)
    requires Enabled(s, e) && (e.Write? || e.Rewrite? || e.Unwrite? || e.UnwriteErr? || ByOthers(e))
    ensures Step(s, e).disk == s.disk && Held(Step(s, e)) == Held(s)
  {
    if ByOthers(e) {
      OthersSameHeld(s, e);
    } else {
      hide WriteOne, UnwriteOne, ApplySteps, RevertSteps, IsSoft, CanWrite;
    }
  }

  lemma OthersSameHeld(s: State, e: Event)
    requires Enabled(s, e) && ByOthers(e)
    ensures Step(s, e).disk == s.disk && Held(Step(s, e)) == Held(s)
  {
    hide Active, CoveredKeys, Claimed;
  }

  lemma BootLoose(s: State, e: Event)
    requires Always(s) && Enabled(s, e) && (e.Boot? || e.BootReplay? || e.Crash?)
    ensures LooseSame(s, Step(s, e))
  {
    hide Fold, Books, RoutesFree, Owing, Refusals, InHand, Outstanding;
    var t := Step(s, e);
    if e.BootReplay? {
      BootFacts(s.disk);
      assert Held(t) == Outstanding(s.disk);
      forall q | q in Fold(s.disk) ensures q in Tokens(Held(t)) {
        KeepKeyed(s.disk);
        OutstandingComplete(s.disk, q);
        assert Fold(s.disk)[q] in Held(t);
      }
      assert Loose(Fold(t.disk), Held(t)) == {};
    }
  }

  lemma OutstandingComplete(disk: seq<Entry>, q: nat)
    requires q in Fold(disk)
    ensures Fold(disk)[q] in Outstanding(disk)
  {
    hide Fold;
    InOrderComplete(Fold(disk), q);
  }

  // The record on top of what is in hand, letting go of which leaves held.
  lemma TokensSnoc(held: seq<Record>, r: Record)
    ensures Tokens(held + [r]) == Tokens(held) + {r.seqno}
  {
    assert forall x :: x in held + [r] <==> x in held || x == r;
  }

  lemma BeginLoose(s: State)
    requires Always(s) && Enabled(s, BeginOk)
    ensures LooseSame(s, Step(s, BeginOk))
  {
    hide Fold, Books, RoutesFree, Owing, Refusals, InHand, Active, CoveredKeys, OweNow, NewRecord;
    var t := Step(s, BeginOk);
    var rec := s.ctl.rec.(seqno := s.seqno + 1);
    FoldMore(s.disk, Begin(rec));
    assert Held(s) == s.done && Held(t) == s.done + [rec];
    TokensSnoc(s.done, rec);
  }

  lemma CommitLoose(s: State, e: Event)
    requires Always(s) && Enabled(s, e) && (e.AdoptOk? || e.CommitOk?)
    ensures LooseSame(s, Step(s, e))
  {
    var rec := CommitHeldIs(s, e);
    HeldOnDisk(s);
    hide Always, Step, Enabled, Held, Fold;
    FoldMore(s.disk, Commit(rec));
    TokensSnoc(s.done, s.ctl.rec);
    TokensSnoc(s.done, rec);
    assert s.ctl.rec in Held(s);
    CommitKnown(s, rec);
    FewerLoose(s, Step(s, e), rec);
  }

  lemma CommitHeldIs(s: State, e: Event) returns (rec: Record)
    requires Enabled(s, e) && (e.AdoptOk? || e.CommitOk?)
    ensures s.ctl.Adopting? || s.ctl.Applying?
    ensures rec == s.ctl.rec.(applied := rec.applied, verified := rec.verified)
    ensures var t := Step(s, e);
      t.disk == s.disk + [Commit(rec)] && Held(s) == s.done + [s.ctl.rec] && Held(t) == s.done + [rec]
  {
    hide Own, Present;
    rec := Step(s, e).done[|s.done|];
  }

  lemma CommitKnown(s: State, rec: Record)
    requires (s.ctl.Adopting? || s.ctl.Applying?) && Held(s) == s.done + [s.ctl.rec]
    requires rec == s.ctl.rec.(applied := rec.applied, verified := rec.verified)
    ensures forall r | r in s.done + [rec] :: Known(s, r)
  {
    hide Held;
    forall r | r in s.done + [rec] ensures Known(s, r) {
      var was := if r == rec then s.ctl.rec else r;
      assert was in Held(s);
    }
  }

  lemma FewerLoose(s: State, t: State, rec: Record)
    requires s.ctl.Adopting? || s.ctl.Applying?
    requires Always(s) && OnDisk(Fold(s.disk), s.ctl.rec) && rec.seqno == s.ctl.rec.seqno && rec.adopted == s.ctl.rec.adopted
    requires Fold(t.disk) == Fold(s.disk)[rec.seqno := rec] && Held(t) == s.done + [rec] && Held(s) == s.done + [s.ctl.rec]
    requires Tokens(Held(t)) == Tokens(Held(s)) && rec.seqno in Tokens(Held(s))
    requires forall r | r in Held(t) :: Known(s, r)
    ensures LooseSame(s, t)
  {
    hide Fold, Held, Tokens, Books, RoutesFree, Owing, Refusals, InHand, Known;
  }

  lemma CloseLoose(s: State)
    requires Always(s) && Enabled(s, Close)
    ensures LooseSame(s, Step(s, Close))
  {
    hide Fold, Books, RoutesFree, Owing, Refusals, InHand, Older, Newer, Lost, CoveredKeys;
    var t := Step(s, Close);
    FoldMore(s.disk, Done(s.ctl.rec.seqno));
    assert Held(s) == Held(t) + [s.ctl.rec];
    TokensSnoc(Held(t), s.ctl.rec);
  }

  lemma AdoptErrLoose(s: State)
    requires Always(s) && Enabled(s, AdoptErr)
    ensures LooseSame(s, Step(s, AdoptErr))
  {
    hide Fold, Books, RoutesFree, Owing, Refusals;
    var t := Step(s, AdoptErr);
    assert Held(s) == Held(t) + [s.ctl.rec];
    TokensSnoc(Held(t), s.ctl.rec);
    BooksHas(Fold(s.disk), s.seqno, Held(s), s.ctl.rec);
  }

  lemma StepLoose(s: State, e: Event)
    requires Always(s) && Enabled(s, e) && !e.RevertStuck?
    ensures LooseSame(s, Step(s, e))
  {
    hide Always, Step, Enabled, LooseSame;
    match e {
      case Boot => BootLoose(s, e);
      case BootReplay => BootLoose(s, e);
      case Crash => BootLoose(s, e);
      case BeginOk => BeginLoose(s);
      case AdoptOk => CommitLoose(s, e);
      case CommitOk => CommitLoose(s, e);
      case Close => CloseLoose(s);
      case AdoptErr => AdoptErrLoose(s);
      case _ => DecideLoose(s, e);
    }
  }

  // Only a record that fails to close comes loose.
  lemma StepKeepsStacked(s: State, e: Event)
    requires Always(s) && Stacked(s) && Enabled(s, e) && !e.RevertStuck?
    ensures Stacked(Step(s, e))
  {
    hide Always, Step, Enabled, Fold, Held, Loose;
    StepLoose(s, e);
  }

  // The record about to be left pending shares no setting with an older pending one.
  ghost predicate SharesNothing(s: State) {
    s.ctl.Reverting? || s.ctl.Closing? ==> Keys(s.ctl.rec.undo) !! CoveredKeys(Older(s.disk, s.ctl.rec.seqno))
  }

  lemma StepKeepsApart(s: State, e: Event)
    requires Enabled(s, e) && (e.RevertStuck? ==> SharesNothing(s))
    requires Always(s) && Apart(s)
    ensures Apart(Step(s, e))
  {
    hide Always, Step, Enabled, Fold, Held, Loose, Keys, SharesNothing;
    if e.RevertStuck? {
      hide Apart;
      StuckKeepsApart(s);
    } else {
      StepLoose(s, e);
    }
  }

  lemma StuckKeepsApart(s: State)
    requires Enabled(s, RevertStuck) && SharesNothing(s)
    requires Always(s) && Apart(s)
    ensures Apart(Step(s, RevertStuck))
  {
    StuckShape(s);
    hide Fold, RoutesFree, Owing, Refusals, InHand, Older, CoveredKeys, Keys, Captured, Step, Enabled, Held, Always;
    var t, m, rec := Step(s, RevertStuck), Fold(s.disk), s.ctl.rec;
    TokensSnoc(Held(t), rec);
    HeldOnDisk(s);
    forall q, r | q in Loose(m, Held(t)) && r in Held(t) && !r.adopted && r.seqno < q ensures Keys(m[q].undo) !! Keys(r.undo) {
      assert r in Held(s);
      if q == rec.seqno {
        OlderCovers(s.disk, r, rec.seqno);
      }
    }
  }

  lemma StuckShape(s: State)
    requires Enabled(s, RevertStuck)
    ensures var t := Step(s, RevertStuck);
      t.disk == s.disk && Held(s) == Held(t) + [s.ctl.rec] && (s.ctl.Reverting? || s.ctl.Closing?)
  {
  }

  lemma HeldOnDisk(s: State)
    requires Always(s)
    ensures forall r | r in Held(s) :: OnDisk(Fold(s.disk), r) && (!r.adopted ==> Captured(r))
  {
    hide Fold, RoutesFree, Owing, Refusals, InHand, Captured, Held;
    forall r | r in Held(s) ensures OnDisk(Fold(s.disk), r) && (!r.adopted ==> Captured(r)) {
      BooksHas(Fold(s.disk), s.seqno, Held(s), r);
    }
  }

  lemma OlderCovers(disk: seq<Entry>, r: Record, n: nat)
    requires OnDisk(Fold(disk), r) && !r.adopted && Captured(r) && r.seqno < n
    ensures Keys(r.undo) <= CoveredKeys(Older(disk, n))
  {
    hide Fold, InOrder, CoveredKeys;
    var below := Below(Keep(Fold(disk)), n);
    InOrderComplete(below, r.seqno);
    InCovered(Older(disk, n), r);
    if r.op.AddRoute? {
      assert r.undo == [];
    }
  }

  // ---------------------------------------------------------------- and so nothing is crossed

  lemma {:induction false} CoveredElement(stack: seq<Record>, k: Key) returns (r: Record)
    requires k in CoveredKeys(stack)
    ensures r in stack && !r.op.AddRoute? && k in Keys(r.undo)
  {
    r := stack[|stack| - 1];
    if r.op.AddRoute? || k !in Keys(r.undo) {
      r := CoveredElement(stack[..|stack| - 1], k);
    }
  }

  lemma CloseCrosses(s: State)
    requires Always(s) && Apart(s) && Enabled(s, Close)
    ensures Step(s, Close).crossed == s.crossed
  {
    hide Fold, RoutesFree, Owing, Refusals, Older, Newer, CoveredKeys, Keys, RevertAll, PutAll, Captured, Books;
    var rec := s.ctl.rec;
    var newer := Newer(s.disk, rec.seqno);
    forall k | k in Lost(Older(s.disk, rec.seqno), rec, newer, s.world) ensures k !in CoveredKeys(newer) {
      if k in CoveredKeys(newer) {
        var r := CoveredElement(newer, k);
        NewerIsLoose(s, r);
      }
    }
  }

  lemma NewerIsLoose(s: State, r: Record)
    requires Always(s) && s.ctl.Closing? && r in Newer(s.disk, s.ctl.rec.seqno)
    ensures r.seqno in Loose(Fold(s.disk), Held(s)) && r.seqno > s.ctl.rec.seqno && s.ctl.rec in Held(s)
    ensures Fold(s.disk)[r.seqno] == r
  {
    hide Fold, RoutesFree, Owing, Refusals, InHand, CoveredKeys, Keys, InOrder, Captured;
    var rec, m := s.ctl.rec, Fold(s.disk);
    var above := Above(Keep(m), rec.seqno);
    KeepKeyed(s.disk);
    var i :| 0 <= i < |InOrder(above)| && InOrder(above)[i] == r;
    InOrderElements(above, i);
    var held := Held(s);
    assert held[|held| - 1] == rec;
    forall h | h in held ensures h.seqno <= rec.seqno {
      var j :| 0 <= j < |held| && held[j] == h;
    }
  }

  lemma StepKeepsUncrossed(s: State, e: Event)
    requires Always(s) && Apart(s) && Enabled(s, e)
    ensures Step(s, e).crossed <= s.crossed
    ensures !ByOthers(e) ==> Step(s, e).crossed == s.crossed
  {
    hide Always, Apart;
    if e.Close? {
      hide Step;
      CloseCrosses(s);
    } else {
      hide Fold, Active, CoveredKeys, WriteOne, UnwriteOne, Outstanding, MaxSeq, NewRecord, OweNow, RevertAll;
    }
  }

  // ---------------------------------------------------------------- over runs

  // Every record left pending short of a crash shares no setting with an older pending one.
  ghost predicate StuckApart(start: State, events: seq<Event>)
    decreases |events|
  {
    events == [] ||
    var n := |events| - 1;
    && StuckApart(start, events[..n])
    && (events[n].RevertStuck? ==>
          forall s | Run(start, events[..n], s) && Enabled(s, RevertStuck) :: SharesNothing(s))
  }

  lemma {:induction false} UnstuckIsApart(start: State, events: seq<Event>)
    requires Unstuck(events)
    ensures StuckApart(start, events)
    decreases |events|
  {
    if events != [] {
      UnstuckIsApart(start, events[..|events| - 1]);
    }
  }

  lemma {:induction false} ReachableApart(start: State, events: seq<Event>, end: State)
    requires Init(start) && Run(start, events, end) && StuckApart(start, events)
    ensures Always(end) && Apart(end) && end.crossed == {}
    decreases |events|
  {
    hide Step, Enabled, SharesNothing, Apart, Always;
    ReachableAlways(start, events, end);
    if events == [] {
      StartStacked(start);
    } else {
      var n := |events| - 1;
      var mid :| Run(start, events[..n], mid) && Enabled(mid, events[n]) && Step(mid, events[n]) == end;
      ReachableApart(start, events[..n], mid);
      StepKeepsApart(mid, events[n]);
      StepKeepsUncrossed(mid, events[n]);
    }
  }

  lemma StartStacked(s: State)
    requires Init(s)
    ensures Stacked(s) && Apart(s)
  {
    assert Held(s) == [];
  }

  lemma {:induction false} ReachableStacked(start: State, events: seq<Event>, end: State)
    requires Init(start) && Run(start, events, end) && Unstuck(events)
    ensures Always(end) && Stacked(end)
    decreases |events|
  {
    hide Step, Enabled, Stacked, Always;
    ReachableAlways(start, events, end);
    if events == [] {
      StartStacked(start);
    } else {
      var n := |events| - 1;
      var mid :| Run(start, events[..n], mid) && Enabled(mid, events[n]) && Step(mid, events[n]) == end;
      ReachableStacked(start, events[..n], mid);
      StepKeepsStacked(mid, events[n]);
    }
  }

  // ---------------------------------------------------------------- pending records are the live stack

  ghost predicate IsSuffix(a: seq<Record>, b: seq<Record>) {
    |a| <= |b| && b[|b| - |a|..] == a
  }

  // The non-adopted records the live process itself knows to be in force, oldest first.
  function Live(s: State): seq<Record> {
    Unadopted(Held(s))
  }

  lemma {:induction false} TopIsHeld(m: Open, seqno: nat, held: seq<Record>)
    requires Books(m, seqno, held)
    requires forall q, r | q in Loose(m, held) && r in held :: q < r.seqno
    ensures IsSuffix(Unadopted(held), InOrder(Keep(m)))
    ensures InOrder(Keep(m - Tokens(held))) == InOrder(Keep(m))[..|InOrder(Keep(m))| - |Unadopted(held)|]
    decreases |held|
  {
    hide Captured, Sorted, OnDisk, InOrder, Keep, Unadopted, IsSuffix;
    if held == [] {
      NothingHeldTop(m, held);
    } else {
      var below, top := held[..|held| - 1], held[|held| - 1];
      assert held == below + [top];
      TokensSnoc(below, top);
      BooksClose(m, seqno, below, top);
      BooksHas(m, seqno, held, top);
      var m' := m - {top.seqno};
      assert m - Tokens(held) == m' - Tokens(below);
      LooseBelow(m, below, top);
      forall q, r | q in Loose(m', below) && r in below ensures q < r.seqno {
        assert q in Loose(m, held) && r in held;
      }
      SortedHeld(m, seqno, held);
      TopIsNewest(m, below, top);
      hide Books, Loose, Tokens;
      TopIsHeld(m', seqno, below);
      OneMore(m, below, top);
    }
  }

  lemma SortedHeld(m: Open, seqno: nat, held: seq<Record>)
    requires Books(m, seqno, held)
    ensures Sorted(held)
  {
  }

  lemma NothingHeldTop(m: Open, held: seq<Record>)
    requires held == []
    ensures IsSuffix(Unadopted(held), InOrder(Keep(m)))
    ensures InOrder(Keep(m - Tokens(held))) == InOrder(Keep(m))[..|InOrder(Keep(m))| - |Unadopted(held)|]
  {
    hide InOrder;
    var all := InOrder(Keep(m));
    assert all[|all|..] == [] && all[..|all|] == all;
    assert m - Tokens(held) == m;
  }

  lemma OneMore(m: Open, below: seq<Record>, top: Record)
    requires OnDisk(m, top) && (forall q | q in Keep(m) :: q <= top.seqno)
    requires IsSuffix(Unadopted(below), InOrder(Keep(m - {top.seqno})))
    ensures var all, fewer := InOrder(Keep(m)), InOrder(Keep(m - {top.seqno}));
      var live := Unadopted(below + [top]);
      IsSuffix(live, all) && all[..|all| - |live|] == fewer[..|fewer| - |Unadopted(below)|]
  {
    hide InOrder, Keep, Unadopted;
    TopOrder(m, top);
    UnadoptedSnoc(below, top);
    var live, fewer := Unadopted(below), InOrder(Keep(m - {top.seqno}));
    if top.adopted {
      assert live + [] == live && fewer + [] == fewer;
    } else {
      SuffixSnoc(live, fewer, top);
    }
  }

  lemma TopOrder(m: Open, top: Record)
    requires OnDisk(m, top) && (forall q | q in Keep(m) :: q <= top.seqno)
    ensures InOrder(Keep(m)) == InOrder(Keep(m - {top.seqno})) + if top.adopted then [] else [top]
  {
    hide InOrder;
    var m' := m - {top.seqno};
    if top.adopted {
      assert Keep(m') == Keep(m);
    } else {
      assert Keep(m') == Keep(m) - {top.seqno};
      InOrderTop(Keep(m), top.seqno);
    }
  }

  lemma LooseBelow(m: Open, below: seq<Record>, top: Record)
    ensures Loose(m - {top.seqno}, below) <= Loose(m, below + [top])
  {
    TokensSnoc(below, top);
  }

  lemma TopIsNewest(m: Open, below: seq<Record>, top: Record)
    requires Sorted(below + [top])
    requires forall q, r | q in Loose(m, below + [top]) && r in below + [top] :: q < r.seqno
    ensures forall q | q in Keep(m) :: q <= top.seqno
  {
    hide InOrder;
    var held := below + [top];
    assert held[|below|] == top;
    forall q | q in Keep(m) ensures q <= top.seqno {
      if q in Tokens(held) {
        var r :| r in held && r.seqno == q;
        var i :| 0 <= i < |held| && held[i] == r;
      } else {
        assert q in Loose(m, held) && top in held;
      }
    }
  }

  lemma SuffixSnoc(a: seq<Record>, b: seq<Record>, r: Record)
    requires IsSuffix(a, b)
    ensures IsSuffix(a + [r], b + [r])
    ensures (b + [r])[..|b + [r]| - |a + [r]|] == b[..|b| - |a|]
  {
    assert (b + [r])[|b| - |a|..] == b[|b| - |a|..] + [r];
  }
}
