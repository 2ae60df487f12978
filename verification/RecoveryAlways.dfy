// What holds in every run, also when reverts fail while the process lives on: nothing is written that
// is not covered by a durable pending record, routes that are not ours are never touched, and reverting
// the pending records gives what is owed for every setting that is not among the crossed or untidy ones.
module RecoveryAlways {
  import opened Settings
  import opened JournalFormat
  import opened Recovery
  import opened Captures
  import opened RecoveryProof

  // The records the live process has in hand, in force or on their way out.
  function Held(s: State): seq<Record> {
    s.done + Rest(s.ctl) +
    if s.ctl.Applying? || s.ctl.Reverting? || s.ctl.Closing? || s.ctl.Adopting? then [s.ctl.rec] else []
  }

  function Rest(ctl: Control): seq<Record> {
    if ctl.Reverting? || ctl.Closing? || ctl.Compacting? || ctl.Undoing? then ctl.rest else []
  }

  ghost predicate OnDisk(m: Open, r: Record) {
    r.seqno in m && m[r.seqno] == r
  }

  predicate Sorted(rs: seq<Record>) {
    forall i, j | 0 <= i < j < |rs| :: rs[i].seqno < rs[j].seqno
  }

  // Some pending record would delete this table entry.
  ghost predicate ClaimedBy(m: Open, k: RouteKey, h: Hop) {
    exists q | q in m :: (!m[q].adopted && m[q].op.AddRoute? && KeyOf(m[q].op.route) == k && Matches(m[q].op.route, h))
  }

  // The routes that are not ours are exactly what is owed.
  ghost predicate RoutesFree(m: Open, rib: Rib, owed: Rib) {
    forall at ::
      && (at in owed <==> at in rib && !ClaimedBy(m, at, rib[at]))
      && (at in owed ==> owed[at] == rib[at])
  }

  // The first i undo writes of r are in the store, but for servers that refused to be cleared.
  ghost predicate Written(r: Record, i: nat, store: Store, refused: set<Key>) {
    i <= |r.undo| &&
    forall j | 0 <= j < i :: Get(store, r.undo[j].key) == r.undo[j].val || (IsSoft(r.undo[j]) && r.undo[j].key in refused)
  }

  // A process that is gone, or one that replays, has nothing applied of its own.
  predicate Alone(ctl: Control, done: seq<Record>) {
    ctl.Down? || ((ctl.Reverting? || ctl.Closing? || ctl.Compacting? || ctl.Undoing?) && ctl.replay) ==> done == []
  }

  // What the event under way may rely on.
  ghost predicate InHand(ctl: Control, done: seq<Record>, w: World, refused: set<Key>) {
    Alone(ctl, done) &&
    match ctl
    case Ready(rec, env) => rec == NewRecord(rec.op, w, env) && WellFormed(rec.op)
    case Adopting(rec) => rec.adopted
    case Applying(rec, i) =>
      !rec.adopted && i <= ApplySteps(rec.op) && (rec.op.AddRoute? && i == 0 ==> !Present(w.rib, rec.op.route))
    case Reverting(rec, i, _, _, failed) =>
      && !rec.adopted && i <= RevertSteps(rec)
      && (!rec.op.AddRoute? && !failed ==> Written(rec, i, w.store, refused))
    case Closing(rec, _, _) =>
      && (!rec.adopted && rec.op.AddRoute? ==> !Present(w.rib, rec.op.route))
      && (!rec.adopted && !rec.op.AddRoute? ==> Written(rec, |rec.undo|, w.store, refused))
    case Restoring(rec, _) => rec in done && !rec.adopted
    case _ => true
  }

  // The outstanding records m and what the process has in hand agree.
  ghost predicate Books(m: Open, seqno: nat, held: seq<Record>) {
    && (forall k | k in m && !m[k].adopted :: Captured(m[k]))
    && (forall r | r in held :: r.seqno <= seqno && OnDisk(m, r))
    && Sorted(held)
  }

  ghost predicate Owing(disk: seq<Entry>, w: World, owed: Store, lost: set<Key>) {
    Agree(RevertAll(Active(disk), w).store, owed, lost)
  }

  predicate Refusals(untidy: set<Key>, refused: set<Key>) {
    untidy <= refused && forall k | k in refused :: k.ProxyServer?
  }

  ghost predicate Bounded(m: Open, seqno: nat) {
    forall k | k in m :: k <= seqno
  }

  ghost predicate Always(s: State) {
    && (!s.ctl.Down? ==> Bounded(Fold(s.disk), s.seqno))
    && Books(Fold(s.disk), s.seqno, Held(s))
    && RoutesFree(Fold(s.disk), s.world.rib, s.owed.rib)
    && Owing(s.disk, s.world, s.owed.store, s.crossed + s.untidy)
    && Refusals(s.untidy, s.refused)
    && InHand(s.ctl, s.done, s.world, s.refused)
  }

  // ---------------------------------------------------------------- claims, by records and by the fold

  lemma {:induction false} ClaimedElement(stack: seq<Record>, k: RouteKey, h: Hop)
    ensures Claimed(stack, k, h) <==>
      exists r | r in stack :: (r.op.AddRoute? && KeyOf(r.op.route) == k && Matches(r.op.route, h))
  {
    if stack != [] {
      var below, top := stack[..|stack| - 1], stack[|stack| - 1];
      ClaimedElement(below, k, h);
      assert forall r :: r in stack <==> r in below || r == top;
    }
  }

  lemma ClaimedIsFold(disk: seq<Entry>, k: RouteKey, h: Hop)
    ensures Claimed(Active(disk), k, h) <==> ClaimedBy(Fold(disk), k, h)
  {
    hide Fold, InOrder, Claimed;
    var m, kept := Fold(disk), Keep(Fold(disk));
    ClaimedElement(Active(disk), k, h);
    KeepKeyed(disk);
    if r :| r in Active(disk) && r.op.AddRoute? && KeyOf(r.op.route) == k && Matches(r.op.route, h) {
      ActiveElements(disk, r);
    }
    if q :| q in m && !m[q].adopted && m[q].op.AddRoute? && KeyOf(m[q].op.route) == k && Matches(m[q].op.route, h) {
      InOrderComplete(kept, q);
      assert kept[q] in Active(disk);
    }
  }

  lemma OwedRoutes(disk: seq<Entry>, w: World)
    ensures RoutesFree(Fold(disk), w.rib, RevertAll(Active(disk), w).rib)
  {
    hide Fold, Active, Claimed, ClaimedBy, RevertAll;
    RevertAllRib(Active(disk), w);
    forall at | at in w.rib ensures Claimed(Active(disk), at, w.rib[at]) <==> ClaimedBy(Fold(disk), at, w.rib[at]) {
      ClaimedIsFold(disk, at, w.rib[at]);
    }
  }

  // ---------------------------------------------------------------- the books

  lemma BooksFewer(m: Open, seqno: nat, held: seq<Record>, fewer: seq<Record>)
    requires Books(m, seqno, held) && fewer <= held
    ensures Books(m, seqno, fewer)
  {
    hide Captured;
    assert forall i | 0 <= i < |fewer| :: fewer[i] == held[i];
    forall r | r in fewer ensures r in held {
      var i :| 0 <= i < |fewer| && fewer[i] == r;
      assert held[i] == r;
    }
  }

  lemma BooksBegin(m: Open, seqno: nat, held: seq<Record>, rec: Record)
    requires Books(m, seqno, held) && Bounded(m, seqno) && rec.seqno == seqno + 1 && Captured(rec)
    ensures Books(m[rec.seqno := rec], rec.seqno, held + [rec]) && Bounded(m[rec.seqno := rec], rec.seqno)
  {
    hide Captured;
    assert forall i | 0 <= i < |held| :: held[i] in held;
  }

  lemma BooksCommit(m: Open, seqno: nat, done: seq<Record>, was: Record, rec: Record)
    requires Books(m, seqno, done + [was])
    requires rec.seqno == was.seqno && rec.op == was.op && rec.undo == was.undo && rec.adopted == was.adopted
    ensures Books(m[rec.seqno := rec], seqno, done + [rec])
  {
    var held := done + [was];
    BooksHas(m, seqno, held, was);
    SameCaptured(was, rec);
    SortedSwap(done, was, rec);
    CommitHeld(m, seqno, done, was, rec);
    hide Captured, Sorted, OnDisk;
  }

  lemma CommitHeld(m: Open, seqno: nat, done: seq<Record>, was: Record, rec: Record)
    requires Books(m, seqno, done + [was]) && rec.seqno == was.seqno
    ensures forall r | r in done + [rec] :: r.seqno <= seqno && OnDisk(m[rec.seqno := rec], r)
  {
    hide Captured, Sorted;
    assert was in done + [was];
    forall r | r in done + [rec] ensures r.seqno <= seqno && OnDisk(m[rec.seqno := rec], r) {
      if r in done {
        BelowTop(done, was, r);
      }
    }
  }

  lemma SortedSwap(done: seq<Record>, was: Record, rec: Record)
    requires Sorted(done + [was]) && rec.seqno == was.seqno
    ensures Sorted(done + [rec])
  {
    var held := done + [was];
    forall i, j | 0 <= i < j < |done| + 1 ensures (done + [rec])[i].seqno < (done + [rec])[j].seqno {
      assert held[i].seqno < held[j].seqno;
    }
  }

  lemma BelowTop(done: seq<Record>, top: Record, r: Record)
    requires Sorted(done + [top]) && r in done
    ensures r.seqno < top.seqno && r in done + [top]
  {
    var i :| 0 <= i < |done| && done[i] == r;
    assert (done + [top])[i] == r && (done + [top])[|done|] == top;
  }

  lemma SameCaptured(a: Record, b: Record)
    requires a.op == b.op && a.undo == b.undo
    ensures Captured(a) ==> Captured(b)
  {
  }

  lemma BooksClose(m: Open, seqno: nat, held: seq<Record>, rec: Record)
    requires Books(m, seqno, held + [rec])
    ensures Books(m - {rec.seqno}, seqno, held)
  {
    hide Captured;
    var all := held + [rec];
    forall r | r in held ensures r in all && r.seqno < rec.seqno {
      var i :| 0 <= i < |held| && held[i] == r;
      assert all[i] == r && all[|held|] == rec;
    }
    assert forall i | 0 <= i < |held| :: all[i] == held[i];
  }

  lemma BooksHas(m: Open, seqno: nat, held: seq<Record>, r: Record)
    requires Books(m, seqno, held) && r in held
    ensures r.seqno <= seqno && OnDisk(m, r) && (!r.adopted ==> Captured(r))
  {
  }

  lemma BooksBoot(disk: seq<Entry>, before: nat, held: seq<Record>, seqno: nat)
    requires Books(Fold(disk), before, held) && Bounded(Fold(disk), seqno)
    ensures Books(Fold(disk), seqno, []) && Books(Fold(disk), seqno, Outstanding(disk))
  {
    hide Fold, Captured, InOrder;
    KeepKeyed(disk);
    BootFacts(disk);
    var m, out := Fold(disk), Outstanding(disk);
    forall i, j | 0 <= i < j < |out| ensures out[i].seqno < out[j].seqno {
      InOrderSorted(m, i, j);
    }
  }

  // A record in hand that is not adopted is active.
  lemma HeldActive(disk: seq<Entry>, r: Record)
    requires OnDisk(Fold(disk), r) && !r.adopted
    ensures r in Active(disk)
  {
    InOrderComplete(Keep(Fold(disk)), r.seqno);
  }

  // ---------------------------------------------------------------- decisions

  // What the process has in hand afterwards is a prefix of what it had before.
  lemma FewerHeld(s: State, t: State)
    requires Always(s) && Held(t) <= Held(s) && Fold(t.disk) == Fold(s.disk)
    requires t == s.(disk := t.disk, ctl := t.ctl, done := t.done)
    requires InHand(t.ctl, t.done, t.world, t.refused) && (t.ctl.Down? || !s.ctl.Down?)
    ensures Always(t)
  {
    hide Fold, RoutesFree, InHand, Books, Refusals, Bounded, Held, RevertAll, Agree;
    BooksFewer(Fold(s.disk), s.seqno, Held(s), Held(t));
    assert Active(t.disk) == Active(s.disk);
  }

  // Decisions that move nothing but the control.
  lemma DecideKeepsAlways(s: State, e: Event)
    requires Always(s) && Enabled(s, e) && Decides(e)
    ensures Always(Step(s, e))
  {
    DecideHeld(s, e);
    DecideInHand(s, e);
    hide Always, Step, Enabled, Held, InHand, Fold;
    FewerHeld(s, Step(s, e));
  }

  predicate Decides(e: Event) {
    || e.Prepare? || e.BeginErr? || e.WriteErr? || e.VerifyOrCommitErr? || e.RevertConfirmed? || e.UndoEnd?
    || e.Reverify? || e.ReverifyEnd? || e.Crash?
  }

  lemma DecideHeld(s: State, e: Event)
    requires Enabled(s, e) && Decides(e)
    ensures var t := Step(s, e);
      Held(t) <= Held(s) && t == s.(ctl := t.ctl, done := t.done) && (t.ctl.Down? || !s.ctl.Down?)
  {
    hide Fold, NewRecord, WellFormed, Present, CanAdopt, Capture, Own, RevertAll;
    if e.Crash? || e.Reverify? || e.ReverifyEnd? {
      hide ApplySteps, RevertSteps;
    }
  }

  lemma DecideInHand(s: State, e: Event)
    requires Always(s) && Enabled(s, e) && Decides(e)
    ensures var t := Step(s, e); InHand(t.ctl, t.done, t.world, t.refused)
  {
    hide Fold, RoutesFree, Books, Own, Capture, Owing, Refusals, Bounded;
    assert e.Reverify? ==> s.done[e.j] in s.done;
  }

  // Decisions that move a record, or let go of one.
  lemma MoveKeepsAlways(s: State, e: Event)
    requires Always(s) && Enabled(s, e)
    requires e.AdoptErr? || e.UndoAll? || e.TakeTop? || e.Compact? || e.CompactErr? || e.RevertStuck?
    ensures Always(Step(s, e))
  {
    MoveInHand(s, e);
    MoveHeld(s, e);
    hide Always, Step, Enabled, Held, InHand, Fold;
    FewerHeld(s, Step(s, e));
  }

  lemma MoveHeld(s: State, e: Event)
    requires Enabled(s, e)
    requires e.AdoptErr? || e.UndoAll? || e.TakeTop? || e.Compact? || e.CompactErr? || e.RevertStuck?
    ensures var t := Step(s, e);
      && Held(t) <= Held(s) && Fold(t.disk) == Fold(s.disk) && t == s.(disk := t.disk, ctl := t.ctl, done := t.done)
      && !s.ctl.Down?
  {
    hide Fold;
    var t := Step(s, e);
    if e.UndoAll? {
      assert Held(t) == Held(s);
    } else if e.TakeTop? {
      var n := |s.ctl.rest| - 1;
      assert s.ctl.rest == s.ctl.rest[..n] + [s.ctl.rest[n]];
      assert Held(t) == Held(s);
    } else if e.RevertStuck? || e.AdoptErr? {
      assert Held(s) == Held(t) + [s.ctl.rec];
    } else {
      FoldEmpty();
      assert Held(t) == Held(s);
    }
  }

  lemma MoveInHand(s: State, e: Event)
    requires Always(s) && Enabled(s, e)
    requires e.AdoptErr? || e.UndoAll? || e.TakeTop? || e.Compact? || e.CompactErr? || e.RevertStuck?
    ensures var t := Step(s, e); InHand(t.ctl, t.done, t.world, t.refused)
  {
    hide Fold, RoutesFree, Owing, Refusals, Bounded, Books, Present, NewRecord, WellFormed;
  }

  lemma BootKeepsAlways(s: State, e: Event)
    requires Always(s) && Enabled(s, e) && (e.Boot? || e.BootReplay?)
    ensures Always(Step(s, e))
  {
    hide Fold, RoutesFree, Books, Outstanding, Owing, Refusals;
    BootFacts(s.disk);
    var t := Step(s, e);
    BooksBoot(s.disk, s.seqno, Held(s), t.seqno);
    assert Held(t) == if e.Boot? then [] else Outstanding(s.disk);
  }

  // ---------------------------------------------------------------- one more line

  lemma OwedAfterBegin(s: State)
    requires Enabled(s, BeginOk)
    ensures var t := Step(s, BeginOk); Owing(t.disk, t.world, t.owed.store, t.crossed + t.untidy)
    ensures var t := Step(s, BeginOk); t.owed.rib == RevertAll(Active(t.disk), t.world).rib
  {
    hide Carry, RevertAll, Active, CoveredKeys;
    var t := Step(s, BeginOk);
    var now := RevertAll(Active(t.disk), s.world).store;
    forall k | k !in t.crossed + t.untidy ensures Get(now, k) == Get(t.owed.store, k) {
      CarryGet(s.owed.store, now, s.crossed + s.untidy, k);
    }
  }

  lemma BeginKeepsAlways(s: State)
    requires Always(s) && Enabled(s, BeginOk)
    ensures Always(Step(s, BeginOk))
    ensures Step(s, BeginOk).owed.rib == s.owed.rib
  {
    OwedAfterBegin(s);
    BeginBooks(s);
    BeginRoutes(s);
    hide Owing, Books, RoutesFree, Bounded, Refusals, RevertAll, OweNow, Active, Fold;
    assert Refusals(s.untidy, s.refused);
    BeginInHand(s);
  }

  lemma BeginInHand(s: State)
    requires Always(s) && Enabled(s, BeginOk)
    ensures var t := Step(s, BeginOk);
      t.untidy == s.untidy && t.refused == s.refused && InHand(t.ctl, t.done, t.world, t.refused)
  {
    hide Owing, Books, RoutesFree, Bounded, Refusals, RevertAll, OweNow, Active, Fold, Capture;
  }

  lemma BeginBooks(s: State)
    requires Always(s) && Enabled(s, BeginOk)
    ensures var t := Step(s, BeginOk); Books(Fold(t.disk), t.seqno, Held(t)) && Bounded(Fold(t.disk), t.seqno)
  {
    hide Owing, Books, RoutesFree, Bounded, Refusals, RevertAll, OweNow, Active, Fold, Capture, Captured, WellFormed;
    var rec := s.ctl.rec.(seqno := s.seqno + 1);
    FoldMore(s.disk, Begin(rec));
    assert Held(s) == s.done && Held(Step(s, BeginOk)) == s.done + [rec];
    IsCaptured(rec, s.world.store, s.ctl.env);
    BooksBegin(Fold(s.disk), s.seqno, s.done, rec);
  }

  lemma BeginRoutes(s: State)
    requires Always(s) && Enabled(s, BeginOk)
    ensures var t := Step(s, BeginOk); RoutesFree(Fold(t.disk), t.world.rib, t.owed.rib) && t.owed.rib == s.owed.rib
  {
    hide Owing, Books, Refusals, RevertAll, Active, Fold, Capture, Carry, ClaimedBy, CoveredKeys;
    var t := Step(s, BeginOk);
    var rec := s.ctl.rec.(seqno := s.seqno + 1);
    FoldMore(s.disk, Begin(rec));
    BeginClaims(Fold(s.disk), rec, s.world.rib);
    OwedAfterBegin(s);
    OwedRoutes(t.disk, s.world);
    SameOwed(Fold(t.disk), s.world.rib, s.owed.rib, t.owed.rib);
  }

  // A new record claims nothing that is already in the table: a route that was there is adopted.
  lemma BeginClaims(m: Open, rec: Record, rib: Rib)
    requires rec.seqno !in m && (rec.op.AddRoute? && !rec.adopted ==> !Present(rib, rec.op.route))
    ensures forall at | at in rib :: ClaimedBy(m[rec.seqno := rec], at, rib[at]) <==> ClaimedBy(m, at, rib[at])
  {
    var m' := m[rec.seqno := rec];
    forall at | at in rib ensures ClaimedBy(m', at, rib[at]) <==> ClaimedBy(m, at, rib[at]) {
      if ClaimedBy(m, at, rib[at]) {
        var q :| q in m && !m[q].adopted && m[q].op.AddRoute? && KeyOf(m[q].op.route) == at && Matches(m[q].op.route, rib[at]);
        assert q in m' && m'[q] == m[q];
      }
      if ClaimedBy(m', at, rib[at]) {
        var q :| q in m' && !m'[q].adopted && m'[q].op.AddRoute? && KeyOf(m'[q].op.route) == at && Matches(m'[q].op.route, rib[at]);
        assert q in m && m[q] == m'[q];
      }
    }
  }

  lemma SameOwed(m: Open, rib: Rib, a: Rib, b: Rib)
    requires RoutesFree(m, rib, a) && RoutesFree(m, rib, b)
    ensures a == b
  {
    hide ClaimedBy;
    assert forall at :: at in a <==> at in b;
  }

  // A commit rewrites a record's flags and nothing else.
  lemma CommitKeepsAlways(s: State, e: Event)
    requires Always(s) && Enabled(s, e) && (e.AdoptOk? || e.CommitOk?)
    ensures Always(Step(s, e))
  {
    hide Fold, Capture, Captured, WellFormed, NewRecord, Owing, Refusals, ClaimedBy, Books, Own;
    var t := Step(s, e);
    var rec := t.done[|t.done| - 1];
    FoldMore(s.disk, Commit(rec));
    assert Held(s) == s.done + [s.ctl.rec] && Held(t) == s.done + [rec];
    BooksHas(Fold(s.disk), s.seqno, Held(s), s.ctl.rec);
    CommitOwes(s.disk, s.ctl.rec, rec, s.world, s.owed.store, s.crossed + s.untidy);
    BooksCommit(Fold(s.disk), s.seqno, s.done, s.ctl.rec, rec);
    CommitRoutes(Fold(s.disk), s.ctl.rec, rec, s.world.rib, s.owed.rib);
    assert InHand(t.ctl, t.done, t.world, t.refused);
    hide RoutesFree, InHand, Step, Enabled, Held;
  }

  lemma CommitRoutes(m: Open, was: Record, rec: Record, rib: Rib, owed: Rib)
    requires OnDisk(m, was) && RoutesFree(m, rib, owed)
    requires rec.seqno == was.seqno && rec.op == was.op && rec.adopted == was.adopted
    ensures RoutesFree(m[rec.seqno := rec], rib, owed)
  {
    SameClaims(m, m[rec.seqno := rec]);
    hide ClaimedBy;
  }

  lemma CommitOwes(disk: seq<Entry>, was: Record, rec: Record, w: World, owed: Store, lost: set<Key>)
    requires OnDisk(Fold(disk), was) && Owing(disk, w, owed, lost)
    requires rec.seqno == was.seqno && rec.op == was.op && rec.undo == was.undo && rec.adopted == was.adopted
    ensures Owing(disk + [Commit(rec)], w, owed, lost)
  {
    hide Fold, RevertAll, Active, Older, Newer;
    if was.adopted {
      ActiveAdopted(disk, rec);
    } else {
      ActiveSplit(disk, rec.seqno);
      ActiveCommit(disk, rec);
      SameOutcome(Older(disk, rec.seqno), was, rec, Newer(disk, rec.seqno), w);
    }
  }

  lemma SameOutcome(older: seq<Record>, a: Record, b: Record, newer: seq<Record>, w: World)
    requires a.op == b.op && a.undo == b.undo
    ensures RevertAll(older + [a] + newer, w) == RevertAll(older + [b] + newer, w)
  {
    RevertAllConcat(older + [a], newer, w);
    RevertAllConcat(older + [b], newer, w);
    RevertAllConcat(older, [a], RevertAll(newer, w));
    RevertAllConcat(older, [b], RevertAll(newer, w));
    RevertAllOne(a, RevertAll(newer, w));
    RevertAllOne(b, RevertAll(newer, w));
  }

  lemma SameClaims(m: Open, m': Open)
    requires m.Keys == m'.Keys && forall q | q in m :: m'[q].op == m[q].op && m'[q].adopted == m[q].adopted
    ensures forall at: RouteKey, h: Hop :: ClaimedBy(m, at, h) <==> ClaimedBy(m', at, h)
  {
    forall at: RouteKey, h: Hop ensures ClaimedBy(m, at, h) <==> ClaimedBy(m', at, h) {
      if ClaimedBy(m, at, h) {
        var q :| q in m && !m[q].adopted && m[q].op.AddRoute? && KeyOf(m[q].op.route) == at && Matches(m[q].op.route, h);
        assert q in m' && m'[q].op == m[q].op;
      }
      if ClaimedBy(m', at, h) {
        var q :| q in m' && !m'[q].adopted && m'[q].op.AddRoute? && KeyOf(m'[q].op.route) == at && Matches(m'[q].op.route, h);
        assert q in m && m[q].op == m'[q].op;
      }
    }
  }

  // ---------------------------------------------------------------- closing

  // Closing a record that claims nothing in the table frees nothing in it, and the settings it costs
  // are accounted for.
  lemma CloseKeepsAlways(s: State)
    requires Always(s) && Enabled(s, Close)
    ensures Always(Step(s, Close))
  {
    hide Fold, Capture, Captured, Books, Owing, Refusals, Lost, Older, Newer, CoveredKeys, Written;
    var t := Step(s, Close);
    var rec := s.ctl.rec;
    var m := Fold(s.disk);
    FoldMore(s.disk, Done(rec.seqno));
    assert Held(s) == Held(t) + [rec];
    BooksHas(m, s.seqno, Held(s), rec);
    BooksClose(m, s.seqno, Held(t), rec);
    CloseClaims(m, rec, s.world.rib);
    CloseOwes(s);
    CloseRefusals(s);
    hide ClaimedBy;
  }

  lemma ClosingHeld(s: State)
    requires Always(s) && s.ctl.Closing?
    ensures s.ctl.rec in Held(s) && OnDisk(Fold(s.disk), s.ctl.rec) && (!s.ctl.rec.adopted ==> Captured(s.ctl.rec))
    ensures !s.ctl.rec.adopted && !s.ctl.rec.op.AddRoute? ==>
      Written(s.ctl.rec, |s.ctl.rec.undo|, s.world.store, s.refused)
  {
    hide Fold, RoutesFree, Refusals, Bounded, Owing, Captured;
    BooksHas(Fold(s.disk), s.seqno, Held(s), s.ctl.rec);
  }

  lemma CloseOwes(s: State)
    requires Always(s) && Enabled(s, Close)
    ensures var t := Step(s, Close); Owing(t.disk, t.world, t.owed.store, t.crossed + t.untidy)
  {
    hide Fold, Books, Refusals, Lost, RevertAll, Active, CoveredKeys, RoutesFree, Bounded;
    var t := Step(s, Close);
    forall k | k !in t.crossed + t.untidy
      ensures Get(RevertAll(Active(t.disk), t.world).store, k) == Get(t.owed.store, k)
    {
      CloseDecides(s, k);
    }
  }

  // Exactly which settings a closed record takes from a full recovery.
  lemma CloseDecides(s: State, k: Key)
    requires Always(s) && Enabled(s, Close) && k !in s.crossed + s.untidy
    ensures var t := Step(s, Close);
      Get(RevertAll(Active(t.disk), t.world).store, k) == Get(s.owed.store, k) <==> k !in t.crossed + t.untidy
  {
    hide Fold, Books, Refusals, RevertAll, Active, CoveredKeys, RoutesFree, Bounded, Older, Newer, InHand;
    var rec := s.ctl.rec;
    ClosingHeld(s);
    ActiveDone(s.disk, rec.seqno);
    if rec.adopted {
      ActiveDoneInert(s.disk, rec.seqno);
    } else {
      ActiveSplit(s.disk, rec.seqno);
      RecordDecides(Older(s.disk, rec.seqno), rec, Newer(s.disk, rec.seqno), s.world, k);
    }
  }

  lemma CloseRefusals(s: State)
    requires Always(s) && Enabled(s, Close)
    ensures var t := Step(s, Close); Refusals(t.untidy, t.refused)
  {
    hide Fold, Books, RevertAll, Active, CoveredKeys, RoutesFree, Bounded, Older, Newer, Owing, Present;
    var rec := s.ctl.rec;
    var older, newer := Older(s.disk, rec.seqno), Newer(s.disk, rec.seqno);
    forall k | k in Lost(older, rec, newer, s.world) - CoveredKeys(newer) ensures k in s.refused {
      UntidyIsRefused(older, rec, newer, s.world, s.refused, k);
    }
  }

  // A setting that no other record decides is lost only where the server could not be cleared.
  lemma UntidyIsRefused(older: seq<Record>, r: Record, newer: seq<Record>, w: World, refused: set<Key>, k: Key)
    requires !r.adopted && !r.op.AddRoute? ==> Written(r, |r.undo|, w.store, refused)
    requires k in Lost(older, r, newer, w) && k !in CoveredKeys(newer)
    ensures k in refused && exists a | a in r.undo :: a.key == k && IsSoft(a) && Get(PutAll(w.store, r.undo), k) == a.val
  {
    hide RevertAll, CoveredKeys, PutAll;
    OldestDecides(newer, w, k);
    LastWrite(w.store, r.undo, k);
    var a := Assign(k, Get(PutAll(w.store, r.undo), k));
    var j :| 0 <= j < |r.undo| && r.undo[j] == a;
  }

  lemma CloseClaims(m: Open, rec: Record, rib: Rib)
    requires OnDisk(m, rec) && (!rec.adopted && rec.op.AddRoute? ==> !Present(rib, rec.op.route))
    ensures forall at | at in rib :: ClaimedBy(m - {rec.seqno}, at, rib[at]) <==> ClaimedBy(m, at, rib[at])
  {
    var m' := m - {rec.seqno};
    forall at | at in rib ensures ClaimedBy(m', at, rib[at]) <==> ClaimedBy(m, at, rib[at]) {
      if ClaimedBy(m, at, rib[at]) {
        var q :| q in m && !m[q].adopted && m[q].op.AddRoute? && KeyOf(m[q].op.route) == at && Matches(m[q].op.route, rib[at]);
        assert q != rec.seqno && m'[q] == m[q];
      }
      if ClaimedBy(m', at, rib[at]) {
        var q :| q in m' && !m'[q].adopted && m'[q].op.AddRoute? && KeyOf(m'[q].op.route) == at && Matches(m'[q].op.route, rib[at]);
        assert m[q] == m'[q];
      }
    }
  }

  // ---------------------------------------------------------------- writes

  // A write of ours changes the table only at an entry that a pending record claims.
  lemma WorldKeepsRoutes(s: State, e: Event)
    requires Always(s) && Enabled(s, e) && (e.Write? || e.Rewrite? || e.Unwrite?)
    ensures var t := Step(s, e); RoutesFree(Fold(t.disk), t.world.rib, t.owed.rib)
  {
    InHandHeld(s);
    WorldRib(s, e);
    hide Fold, Captured, Books, Owing, Refusals, InHand, Bounded, Step, Enabled, ClaimedBy;
    if s.ctl.rec.op.AddRoute? {
      OwnClaim(Fold(s.disk), s.ctl.rec);
      OwnEntry(Fold(s.disk), s.ctl.rec, s.world.rib, Step(s, e).world.rib, s.owed.rib);
    }
  }

  lemma WorldRib(s: State, e: Event)
    requires Enabled(s, e) && (e.Write? || e.Rewrite? || e.Unwrite?)
    ensures var t := Step(s, e);
      && t.disk == s.disk && t.owed == s.owed && (!s.ctl.rec.op.AddRoute? ==> t.world.rib == s.world.rib)
      && (s.ctl.rec.op.AddRoute? ==> OwnChange(s.ctl.rec.op.route, s.world.rib, t.world.rib))
  {
    hide Fold, Own, PutAll, RevertSteps;
  }

  // Our entry comes where there was none, or goes.
  predicate OwnChange(r: RouteSpec, was: Rib, now: Rib) {
    || (KeyOf(r) !in was && now == was[KeyOf(r) := HopOf(r)])
    || now == was
    || (Present(was, r) && now == was - {KeyOf(r)})
  }

  lemma OwnClaim(m: Open, rec: Record)
    requires OnDisk(m, rec) && !rec.adopted && rec.op.AddRoute?
    ensures forall h | Matches(rec.op.route, h) :: ClaimedBy(m, KeyOf(rec.op.route), h)
    ensures Matches(rec.op.route, HopOf(rec.op.route))
  {
    forall h | Matches(rec.op.route, h) ensures ClaimedBy(m, KeyOf(rec.op.route), h) {
      assert rec.seqno in m && m[rec.seqno].op == rec.op;
    }
  }

  lemma OwnEntry(m: Open, rec: Record, was: Rib, now: Rib, owed: Rib)
    requires rec.op.AddRoute? && RoutesFree(m, was, owed) && OwnChange(rec.op.route, was, now)
    requires forall h | Matches(rec.op.route, h) :: ClaimedBy(m, KeyOf(rec.op.route), h)
    requires Matches(rec.op.route, HopOf(rec.op.route))
    ensures RoutesFree(m, now, owed)
  {
    hide ClaimedBy;
  }

  lemma InHandHeld(s: State)
    requires Always(s) && (s.ctl.Applying? || s.ctl.Reverting? || s.ctl.Restoring?)
    ensures s.ctl.rec in Held(s) && !s.ctl.rec.adopted && OnDisk(Fold(s.disk), s.ctl.rec) && Captured(s.ctl.rec)
  {
    hide Fold, Captured, Books, Owing, Refusals, Written, Bounded, RoutesFree;
    assert s.ctl.rec in Held(s);
    BooksHas(Fold(s.disk), s.seqno, Held(s), s.ctl.rec);
  }

  // And no write of ours changes what a full recovery gives.
  lemma WorldKeepsOwing(s: State, e: Event)
    requires Always(s) && Enabled(s, e) && (e.Write? || e.Rewrite? || e.Unwrite?)
    ensures RevertAll(Active(s.disk), Step(s, e).world) == RevertAll(Active(s.disk), s.world)
  {
    hide Fold, Captured, Own, PutAll, Books, Refusals, Written, Bounded, RoutesFree, RevertAll, Active, Present;
    var rec := s.ctl.rec;
    InHandHeld(s);
    HeldActive(s.disk, rec);
    if e.Unwrite? {
      UnwriteInvisible(Active(s.disk), rec, s.ctl.i, s.world);
    } else {
      RewriteInvisible(Active(s.disk), rec, s.ctl.i, s.world);
    }
  }

  lemma WorldKeepsAlways(s: State, e: Event)
    requires Always(s) && Enabled(s, e) && (e.Write? || e.Rewrite? || e.Unwrite?)
    ensures Always(Step(s, e))
  {
    hide Fold, Captured, Own, PutAll, Books, Refusals, Written, Bounded, RoutesFree, RevertAll, Active, Present, Capture;
    WorldKeepsRoutes(s, e);
    WorldKeepsOwing(s, e);
    assert Held(Step(s, e)) == Held(s);
    if e.Unwrite? && !s.ctl.rec.op.AddRoute? && !s.ctl.failed {
      InHandHeld(s);
      WrittenMore(s.ctl.rec, s.ctl.i, s.world.store, s.refused);
    }
  }

  lemma WrittenMore(r: Record, i: nat, store: Store, refused: set<Key>)
    requires Captured(r) && Written(r, i, store, refused) && i < |r.undo|
    ensures Written(r, i + 1, Put(store, r.undo[i]), refused)
  {
    hide Captured, IsSoft;
    CapturedFunctional(r);
    forall j | 0 <= j < i && r.undo[j].key == r.undo[i].key ensures r.undo[j].val == r.undo[i].val {
      assert r.undo[j] in r.undo && r.undo[i] in r.undo;
    }
  }

  lemma UnwriteErrKeepsAlways(s: State)
    requires Always(s) && Enabled(s, UnwriteErr)
    ensures Always(Step(s, UnwriteErr))
  {
    hide Fold, Captured, Books, Bounded, RoutesFree, Owing, Present, Refusals, InHand, Written;
    var t := Step(s, UnwriteErr);
    assert Held(t) == Held(s);
    RefusedInHand(s);
  }

  lemma RefusedInHand(s: State)
    requires Enabled(s, UnwriteErr) && InHand(s.ctl, s.done, s.world, s.refused) && Refusals(s.untidy, s.refused)
    ensures var t := Step(s, UnwriteErr);
      && t == s.(ctl := t.ctl, refused := t.refused)
      && InHand(t.ctl, t.done, t.world, t.refused) && Refusals(t.untidy, t.refused)
  {
    hide Fold, Captured, Present;
  }

  lemma OthersKeepAlways(s: State, e: Event)
    requires Always(s) && Enabled(s, e) && ByOthers(e)
    ensures Always(Step(s, e))
  {
    hide Fold, Captured, CoveredKeys, Books, Active, Claimed, Bounded, Owing, InHand, RoutesFree;
    assert Held(Step(s, e)) == Held(s);
    OthersKeepOwing(s, e);
    OthersKeepRoutes(s, e);
    OthersInHand(s, e);
  }

  lemma OthersInHand(s: State, e: Event)
    requires Enabled(s, e) && ByOthers(e) && InHand(s.ctl, s.done, s.world, s.refused)
    ensures var t := Step(s, e); InHand(t.ctl, t.done, t.world, t.refused)
  {
    hide Active, CoveredKeys, Claimed;
  }

  lemma OthersKeepRoutes(s: State, e: Event)
    requires Enabled(s, e) && ByOthers(e) && RoutesFree(Fold(s.disk), s.world.rib, s.owed.rib)
    ensures var t := Step(s, e); RoutesFree(Fold(t.disk), t.world.rib, t.owed.rib)
  {
    hide Fold, CoveredKeys, Active, Claimed, ClaimedBy;
    if e.OthersRoute? {
      ClaimedIsFold(s.disk, e.at, e.hop);
    }
  }

  lemma PutBoth(a: Store, b: Store, x: Assign, lost: set<Key>, less: set<Key>)
    requires Agree(a, b, lost) && less == lost - {x.key}
    ensures Agree(Put(a, x), Put(b, x), less)
  {
    forall k | k !in less ensures Get(Put(a, x), k) == Get(Put(b, x), k) {
      if k != x.key {
        assert Get(a, k) == Get(b, k);
      }
    }
  }

  lemma OthersKeepOwing(s: State, e: Event)
    requires Always(s) && Enabled(s, e) && ByOthers(e)
    ensures var t := Step(s, e); Owing(t.disk, t.world, t.owed.store, t.crossed + t.untidy)
  {
    hide Fold, Captured, Books, Active, Claimed, Bounded, RevertAll, RoutesFree, CoveredKeys, InHand, Refusals;
    var stack, w, t := Active(s.disk), s.world, Step(s, e);
    match e
    case OthersSet(key, val) =>
      var a := Assign(key, val);
      if key in CoveredKeys(stack) {
        PutInside(w.store, a, CoveredKeys(stack));
        RevertAllSame(stack, w, t.world);
      } else {
        UncoveredPut(stack, w, a);
        PutBoth(RevertAll(stack, w).store, s.owed.store, a, s.crossed + s.untidy, t.crossed + t.untidy);
      }
    case _ =>
      StoreIgnoresRib(stack, w, t.world);
  }

  // ---------------------------------------------------------------- every run

  // The unconditional invariant survives every micro-step there is.
  lemma StepKeepsAlways(s: State, e: Event)
    requires Always(s) && Enabled(s, e)
    ensures Always(Step(s, e))
  {
    hide Always, Step;
    match e {
      case Boot => BootKeepsAlways(s, e);
      case BootReplay => BootKeepsAlways(s, e);
      case BeginOk => BeginKeepsAlways(s);
      case AdoptOk => CommitKeepsAlways(s, e);
      case CommitOk => CommitKeepsAlways(s, e);
      case Close => CloseKeepsAlways(s);
      case Write => WorldKeepsAlways(s, e);
      case Rewrite => WorldKeepsAlways(s, e);
      case Unwrite => WorldKeepsAlways(s, e);
      case UnwriteErr => UnwriteErrKeepsAlways(s);
      case OthersSet(_, _) => OthersKeepAlways(s, e);
      case OthersRoute(_, _) => OthersKeepAlways(s, e);
      case OthersUnroute(_) => OthersKeepAlways(s, e);
      case AdoptErr => MoveKeepsAlways(s, e);
      case UndoAll => MoveKeepsAlways(s, e);
      case TakeTop => MoveKeepsAlways(s, e);
      case Compact => MoveKeepsAlways(s, e);
      case CompactErr => MoveKeepsAlways(s, e);
      case RevertStuck => MoveKeepsAlways(s, e);
      case _ => DecideKeepsAlways(s, e);
    }
  }

  lemma AlwaysAtStart(s: State)
    requires Init(s)
    ensures Always(s)
  {
    FoldEmpty();
    assert Keep(Fold([])) == map[];
  }

  lemma {:induction false} ReachableAlways(start: State, events: seq<Event>, end: State)
    requires Init(start) && Run(start, events, end)
    ensures Always(end)
    decreases |events|
  {
    hide Step, Enabled;
    if events == [] {
      AlwaysAtStart(start);
    } else {
      var n := |events| - 1;
      var mid :| Run(start, events[..n], mid) && Enabled(mid, events[n]) && Step(mid, events[n]) == end;
      ReachableAlways(start, events[..n], mid);
      StepKeepsAlways(mid, events[n]);
    }
  }

  // ---------------------------------------------------------------- what it means

  // Everything the process holds as applied, or is applying or reverting, is durably pending with the
  // values it captured, in every run.
  lemma HeldIsPending(start: State, events: seq<Event>, s: State, r: Record)
    requires Init(start) && Run(start, events, s) && r in Held(s) && !r.adopted
    ensures exists p | p in Active(s.disk) :: p.seqno == r.seqno && p.op == r.op && p.undo == r.undo && Captured(p)
  {
    hide Run, Init, InOrder, Captured, Fold;
    ReachableAlways(start, events, s);
    var m := Fold(s.disk);
    BooksHas(m, s.seqno, Held(s), r);
    InOrderComplete(Keep(m), r.seqno);
    assert m[r.seqno] in Active(s.disk);
    KeepKeyed(s.disk);
  }

  // The next token is above every outstanding one, also where it reuses the number of a closed one.
  lemma TokenIsFresh(start: State, events: seq<Event>, s: State, k: nat)
    requires Init(start) && Run(start, events, s) && !s.ctl.Down?
    ensures k in Fold(s.disk) ==> k < s.seqno + 1
  {
    hide Run, Init, Fold;
    ReachableAlways(start, events, s);
  }

  // Write-ahead: in every run, a setting is written only while a durable pending record covers it, and
  // a route is added only while a durable pending record will delete exactly that entry.
  lemma WrittenAhead(start: State, events: seq<Event>, s: State, e: Event)
    requires Init(start) && Run(start, events, s) && Enabled(s, e) && (e.Write? || e.Rewrite?)
    ensures s.ctl.rec.op.AddRoute? ==> Claimed(Active(s.disk), KeyOf(s.ctl.rec.op.route), HopOf(s.ctl.rec.op.route))
    ensures !s.ctl.rec.op.AddRoute? ==> Own(s.ctl.rec.op)[s.ctl.i].key in CoveredKeys(Active(s.disk))
  {
    hide Run, Init, Fold, Active, CoveredKeys, Claimed, Own, Always, Held, Captured;
    ReachableAlways(start, events, s);
    var rec := s.ctl.rec;
    InHandHeld(s);
    HeldIsPending(start, events, s, rec);
    var p :| p in Active(s.disk) && p.seqno == rec.seqno && p.op == rec.op && p.undo == rec.undo && Captured(p);
    InCovered(Active(s.disk), p);
    if !rec.op.AddRoute? {
      OwnKeyCovered(p, s.ctl.i);
    }
  }

  // Route non-interference, in every run: what is not ours is in the table, unaltered, and every other
  // entry is one a pending record of ours will delete.
  lemma ForeignRoutesIntact(start: State, events: seq<Event>, s: State, at: RouteKey)
    requires Init(start) && Run(start, events, s)
    ensures at in s.owed.rib ==> at in s.world.rib && s.world.rib[at] == s.owed.rib[at]
    ensures at in s.world.rib && at !in s.owed.rib ==> Claimed(Active(s.disk), at, s.world.rib[at])
  {
    hide Run, Init, Fold, Claimed;
    ReachableAlways(start, events, s);
    if at in s.world.rib {
      ClaimedIsFold(s.disk, at, s.world.rib[at]);
    }
  }

  // And nothing the tool does, failing or not, changes which routes those are.
  lemma OursKeepsForeignRoutes(start: State, events: seq<Event>, s: State, e: Event)
    requires Init(start) && Run(start, events, s) && Enabled(s, e) && !ByOthers(e)
    ensures Step(s, e).owed.rib == s.owed.rib
  {
    hide Run, Init, Always, Step;
    ReachableAlways(start, events, s);
    if e.BeginOk? {
      BeginKeepsAlways(s);
    } else {
      OwedStays(s, e);
    }
  }

  lemma OwedStays(s: State, e: Event)
    requires Enabled(s, e) && !ByOthers(e) && !e.BeginOk?
    ensures Step(s, e).owed == s.owed
  {
    hide Fold, WriteOne, UnwriteOne, IsSoft, NewRecord, ApplySteps, RevertSteps, Present, Outstanding, MaxSeq, Lost, Older, Newer;
  }
}
