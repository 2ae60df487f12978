// What is owed, compared with what was there: an untouched original, the same value as its reader
// prints it, or nothing where the original was blank or the own value of the first operation to touch it.
module RecoveryOriginals {
  import opened Settings
  import opened JournalFormat
  import opened Recovery
  import opened Captures
  import opened RecoveryProof
  import opened RecoveryAlways
  import opened RecoveryStack
  import opened RecoveryTheorems
  import opened Checks

  // ---------------------------------------------------------------- the original

  // op takes the value k has in from for its own.
  ghost predicate OwnValue(op: Op, env: Env, k: Key, from: Store) {
    match k
    case EnvVar(name) =>
      op.LaunchEnv? && exists i | 0 <= i < |op.vars| ::
        (op.vars[i].0 == name && IsSelfValue(name, op.vars[i].1, GetEnv(from, name), env))
    case ProxyServer(svc, Pac) => op.PacProxy? && NotSelfUrl(ServerUrl(from, svc), op.url, env) == ""
    case ProxyServer(svc, slot) =>
      && (if slot.Socks? then op.SocksProxy? else op.WebProxy?)
      && NotSelfHost(ServerHost(from, svc, slot), ServerPort(from, svc, slot), op.host, op.port, env) == ""
    case ProxySwitch(_, _) => false
  }

  // An operation that was begun on k while nothing pending covered it took the original for its own.
  ghost predicate TakenForOwn(k: Key, from: Store, begun: seq<Begun>) {
    exists b | b in begun :: k in Keys(Own(b.op)) && k !in b.covered && OwnValue(b.op, b.env, k, from)
  }

  function ServerName(store: Store, svc: string, slot: Slot): string {
    if slot == Pac then ServerUrl(store, svc) else ServerHost(store, svc, slot)
  }

  // How what is owed for k relates to what was there before the first operation.
  ghost predicate Explained(k: Key, from: Store, to: Store, begun: seq<Begun>) {
    || Get(to, k) == Get(from, k)
    || match k
       case EnvVar(name) =>
         var was := GetEnv(from, name);
         || (was != "" && Get(to, k) == Some(Text(was)))
         || (Get(to, k) == None && (was == "" || TakenForOwn(k, from, begun)))
       case ProxyServer(svc, Pac) =>
         var was := ServerUrl(from, svc);
         || (was != "" && Get(to, k) == Some(Text(was)))
         || (Get(to, k) == Some(Text("")) && (was == "" || TakenForOwn(k, from, begun)))
       case ProxyServer(svc, slot) =>
         var was, p := ServerHost(from, svc, slot), ServerPort(from, svc, slot);
         || (was != "" && Get(to, k) == Some(Endpoint(was, p)))
         || (Get(to, k) == Some(Endpoint("", 0)) && (was == "" || TakenForOwn(k, from, begun)))
       case ProxySwitch(svc, slot) =>
         Get(to, k) == Some(Switch(IsOn(from, svc, slot) && ServerName(to, svc, slot) != ""))
  }

  // ---------------------------------------------------------------- one operation more

  lemma OwedShape(s: State, k: Key)
    requires Always(s) && Enabled(s, BeginOk)
    ensures var rec, t := s.ctl.rec.(seqno := s.seqno + 1), Step(s, BeginOk);
      && (k in s.crossed + s.untidy ==> Get(t.owed.store, k) == Get(s.owed.store, k))
      && (k !in s.crossed + s.untidy ==>
           && Get(s.owed.store, k) == Get(RevertAll(Active(s.disk), s.world).store, k)
           && Get(t.owed.store, k) == Get(RevertAll(Active(s.disk) + if rec.adopted then [] else [rec], s.world).store, k))
  {
    hide Fold, Carry, RevertAll, Active, CoveredKeys, Books, RoutesFree, Refusals, InHand, Capture;
    var rec, t := s.ctl.rec.(seqno := s.seqno + 1), Step(s, BeginOk);
    ActiveBegin(s.disk, rec);
    CarryGet(s.owed.store, RevertAll(Active(t.disk), s.world).store, s.crossed + s.untidy, k);
    assert Active(s.disk) + [] == Active(s.disk);
  }

  // rec captures k, and is the first pending record to do so.
  ghost predicate FirstOn(s: State, k: Key)
    requires s.ctl.Ready?
  {
    k !in CoveredKeys(Active(s.disk)) && k in Keys(s.ctl.rec.undo) && !s.ctl.rec.op.AddRoute?
  }

  // What BeginOk does to what is owed: a setting nothing pending covers yet becomes its own capture.
  lemma OwedMoves(s: State, k: Key)
    requires Always(s) && Enabled(s, BeginOk) && k !in s.crossed + s.untidy
    ensures var rec, to, to' := s.ctl.rec, s.owed.store, Step(s, BeginOk).owed.store;
      && (!FirstOn(s, k) ==> Get(to', k) == Get(to, k))
      && (FirstOn(s, k) ==>
           Get(to, k) == Get(s.world.store, k) && CaptureOf(rec.op, s.ctl.env, k, s.world.store, Get(to', k)))
  {
    var rec, a := s.ctl.rec.(seqno := s.seqno + 1), Active(s.disk);
    OwedShape(s, k);
    ReadyRecord(s);
    hide Fold, RevertAll, Active, CoveredKeys, Keys, Step, Enabled, Always, CaptureOf, Capture;
    if rec.adopted {
      assert a + [] == a;
    } else {
      TopDecides(a, rec, s.world, k);
      if FirstOn(s, k) {
        CaptureElements(rec.op, s.world.store, s.ctl.env, Assign(k, Get(PutAll(s.world.store, rec.undo), k)));
      }
    }
  }

  // What a record on top of a stack does to the outcome for k.
  lemma TopDecides(a: seq<Record>, rec: Record, w: World, k: Key)
    ensures var all, without := RevertAll(a + [rec], w).store, RevertAll(a, w).store;
      var first := k !in CoveredKeys(a) && !rec.op.AddRoute? && k in Keys(rec.undo);
      && (!first ==> Get(all, k) == Get(without, k))
      && (first ==> Get(without, k) == Get(w.store, k) && Get(all, k) == Get(PutAll(w.store, rec.undo), k)
                    && Assign(k, Get(all, k)) in rec.undo)
  {
    hide RevertAll, CoveredKeys, Keys, PutAll;
    assert a + [rec] + [] == a + [rec] && a + [] == a;
    RecordDecides(a, rec, [], w, k);
    if k !in CoveredKeys(a) && !rec.op.AddRoute? && k in Keys(rec.undo) {
      LastWrite(w.store, rec.undo, k);
      OldestDecides(a, w, k);
    }
  }

  lemma ReadyRecord(s: State)
    requires Always(s) && Enabled(s, BeginOk)
    ensures s.ctl.rec == NewRecord(s.ctl.rec.op, s.world, s.ctl.env) && WellFormed(s.ctl.rec.op)
  {
    hide Fold, Books, RoutesFree, Owing, Refusals;
  }

  lemma KeysOfOwn(s: State)
    requires Always(s) && Enabled(s, BeginOk)
    ensures Keys(s.ctl.rec.undo) == Keys(Own(s.ctl.rec.op))
    ensures forall x | x in Keys(s.ctl.rec.undo) :: Partner(x) in Keys(s.ctl.rec.undo)
    ensures forall x | x in CoveredKeys(Active(s.disk)) :: Partner(x) in CoveredKeys(Active(s.disk))
  {
    ReadyRecord(s);
    CaptureCovers(s.ctl.rec.op, s.world.store, s.ctl.env);
    IsCaptured(s.ctl.rec, s.world.store, s.ctl.env);
    ActiveCaptured(s);
    hide Fold, Active, Captured, Keys, CoveredKeys, Always, Partner, Capture, Own;
    forall x | x in Keys(s.ctl.rec.undo) ensures Partner(x) in Keys(s.ctl.rec.undo) {
      CapturedInPairs(s.ctl.rec, x);
    }
    forall x | x in CoveredKeys(Active(s.disk)) ensures Partner(x) in CoveredKeys(Active(s.disk)) {
      CoveredInPairs(Active(s.disk), x);
    }
  }

  // k and its partner were both uncovered, and are both owed as op captured them from to.
  ghost predicate BothCaptured(b: Begun, k: Key, to: Store, to': Store) {
    && k !in b.covered && k in Keys(Own(b.op)) && Partner(k) !in b.covered && Partner(k) in Keys(Own(b.op))
    && CaptureOf(b.op, b.env, k, to, Get(to', k)) && CaptureOf(b.op, b.env, Partner(k), to, Get(to', Partner(k)))
  }

  ghost predicate BothSame(k: Key, to: Store, to': Store) {
    Get(to', k) == Get(to, k) && Get(to', Partner(k)) == Get(to, Partner(k))
  }

  ghost function NewlyBegun(s: State): Begun
    requires s.ctl.Ready?
  {
    Begun(s.ctl.rec.op, s.ctl.env, CoveredKeys(Active(s.disk)))
  }

  lemma PairMoves(s: State, k: Key)
    requires Always(s) && Enabled(s, BeginOk) && {k, Partner(k)} !! s.crossed + s.untidy
    ensures var to, to' := s.owed.store, Step(s, BeginOk).owed.store;
      BothSame(k, to, to') || BothCaptured(NewlyBegun(s), k, to, to')
  {
    OwedMoves(s, k);
    OwedMoves(s, Partner(k));
    KeysOfOwn(s);
    PartnerTwice(k);
    hide Active, Keys, CoveredKeys, Always, Partner, Step, CaptureOf, Own;
    if FirstOn(s, k) {
      var op, env, w, to, to' := s.ctl.rec.op, s.ctl.env, s.world.store, s.owed.store, Step(s, BeginOk).owed.store;
      assert FirstOn(s, Partner(k));
      CaptureLocal(op, env, k, w, to, Get(to', k));
      CaptureLocal(op, env, Partner(k), w, to, Get(to', Partner(k)));
    }
  }

  // A blank owed in place of a server left uncleared stays blank, and its switch stays owed off.
  lemma BlankMoves(s: State, k: Key)
    requires Always(s) && Enabled(s, BeginOk) && k in s.untidy && Partner(k) !in s.crossed + s.untidy
    requires Get(s.owed.store, Partner(k)) == Some(Switch(false)) && k.ProxyServer?
    ensures BothSame(k, s.owed.store, Step(s, BeginOk).owed.store)
  {
    OwedShape(s, k);
    OwedMoves(s, Partner(k));
    hide Fold, Active, Always, CoveredKeys, Step;
    if FirstOn(s, Partner(k)) {
      OffStaysOff(s.ctl.rec.op, s.ctl.env, Partner(k), s.world.store, Get(Step(s, BeginOk).owed.store, Partner(k)));
    }
  }

  lemma OffStaysOff(op: Op, env: Env, k: Key, store: Store, val: Option<Val>)
    requires k.ProxySwitch? && Get(store, k) == Some(Switch(false)) && CaptureOf(op, env, k, store, val)
    ensures val == Some(Switch(false))
  {
  }

  // One more capture on top of an explained value is explained.
  lemma ExplainedStep(k: Key, from: Store, to: Store, to': Store, begun: seq<Begun>, b: Begun)
    requires Explained(k, from, to, begun) && Explained(Partner(k), from, to, begun)
    requires BothCaptured(b, k, to, to')
    ensures Explained(k, from, to', begun + [b])
  {
    ExplainedLater(k, from, to, begun, b);
    match k
    case EnvVar(name) => EnvExplained(name, from, to, to', begun, b);
    case ProxyServer(svc, slot) => ServerExplained(svc, slot, from, to, to', begun, b);
    case ProxySwitch(svc, slot) => SwitchExplained(svc, slot, from, to, to', begun, b);
  }

  lemma ExplainedLater(k: Key, from: Store, to: Store, begun: seq<Begun>, b: Begun)
    requires Explained(k, from, to, begun)
    ensures Explained(k, from, to, begun + [b])
  {
    hide OwnValue;
    assert forall x | x in begun :: x in begun + [b];
  }

  lemma EnvExplained(name: string, from: Store, to: Store, to': Store, begun: seq<Begun>, b: Begun)
    requires Explained(EnvVar(name), from, to, begun + [b])
    requires BothCaptured(b, EnvVar(name), to, to')
    ensures Explained(EnvVar(name), from, to', begun + [b])
  {
    var k := EnvVar(name);
    assert b in begun + [b];
    GetEnvTrimmed(from, name);
    var was, now := GetEnv(from, name), GetEnv(to, name);
    var i :| 0 <= i < |b.op.vars| && b.op.vars[i].0 == name
      && Get(to', k) == CaptureVar(name, b.op.vars[i].1, to, b.env);
    assert now == was || Get(to, k) == None;
    if now == was && was != "" && IsSelfValue(name, b.op.vars[i].1, was, b.env) {
      assert OwnValue(b.op, b.env, k, from);
    }
  }

  lemma ServerExplained(svc: string, slot: Slot, from: Store, to: Store, to': Store, begun: seq<Begun>, b: Begun)
    requires Explained(ProxyServer(svc, slot), from, to, begun + [b])
    requires BothCaptured(b, ProxyServer(svc, slot), to, to')
    ensures Explained(ProxyServer(svc, slot), from, to', begun + [b])
  {
    hide Own;
    assert b in begun + [b];
    ReadersTrim(from, svc, slot);
    assert Trim("") == "";
  }

  lemma SwitchExplained(svc: string, slot: Slot, from: Store, to: Store, to': Store, begun: seq<Begun>, b: Begun)
    requires Explained(ProxySwitch(svc, slot), from, to, begun)
    requires BothCaptured(b, ProxySwitch(svc, slot), to, to')
    ensures Explained(ProxySwitch(svc, slot), from, to', begun + [b])
  {
    hide Own;
    ReadersTrim(to, svc, slot);
    assert Trim("") == "";
  }

  lemma ExplainedLocal(k: Key, from: Store, to: Store, to': Store, begun: seq<Begun>)
    requires Explained(k, from, to, begun) && BothSame(k, to, to')
    ensures Explained(k, from, to', begun)
  {
    hide TakenForOwn;
  }

  // ---------------------------------------------------------------- over whole runs

  // k and its partner are explained, and a server of the pair that was left uncleared is owed blank.
  ghost predicate Told(s: State, from: Store, k: Key) {
    && Explained(k, from, s.owed.store, s.begun) && Explained(Partner(k), from, s.owed.store, s.begun)
    && BlankOwed(s, k) && BlankOwed(s, Partner(k))
  }

  ghost predicate BlankOwed(s: State, k: Key) {
    k in s.untidy ==>
      k.ProxyServer? && IsSoft(Assign(k, Get(s.owed.store, k))) && Get(s.owed.store, Partner(k)) == Some(Switch(false))
  }

  lemma TellBegin(from: Store, s: State, k: Key)
    requires Always(s) && Enabled(s, BeginOk) && {k, Partner(k)} !! s.crossed && Told(s, from, k)
    ensures Told(Step(s, BeginOk), from, k)
  {
    var t := Step(s, BeginOk);
    BeginTells(s);
    PartnerTwice(k);
    var b, to, to' := NewlyBegun(s), s.owed.store, t.owed.store;
    PartnerIsSwitch(k);
    PartnerIsSwitch(Partner(k));
    hide Always, Step, Explained, Active, IsSoft, BothCaptured, Partner, NewlyBegun;
    if k in s.untidy {
      BlankMoves(s, k);
    } else if Partner(k) in s.untidy {
      BlankMoves(s, Partner(k));
    } else {
      PairMoves(s, k);
    }
    if BothSame(k, to, to') {
      ExplainedLater(k, from, to, s.begun, b);
      ExplainedLater(Partner(k), from, to, s.begun, b);
      ExplainedLocal(k, from, to, to', t.begun);
      ExplainedLocal(Partner(k), from, to, to', t.begun);
    } else {
      PairTwice(b, k, to, to');
      ExplainedStep(k, from, to, to', s.begun, b);
      ExplainedStep(Partner(k), from, to, to', s.begun, b);
    }
  }

  lemma PairTwice(b: Begun, k: Key, to: Store, to': Store)
    requires BothCaptured(b, k, to, to')
    ensures BothCaptured(b, Partner(k), to, to')
  {
    PartnerTwice(k);
  }

  lemma PartnerIsSwitch(k: Key)
    ensures k.ProxyServer? ==> Partner(k).ProxySwitch? && Partner(k) != k
  {
  }

  lemma BeginTells(s: State)
    requires Enabled(s, BeginOk)
    ensures var t := Step(s, BeginOk);
      t.begun == s.begun + [NewlyBegun(s)] && t.crossed == s.crossed && t.untidy == s.untidy
  {
    hide Fold, Active, CoveredKeys, OweNow;
  }

  lemma TellClose(from: Store, s: State, k: Key)
    requires Always(s) && Enabled(s, Close) && Told(s, from, k) && {k, Partner(k)} !! Step(s, Close).crossed
    ensures Told(Step(s, Close), from, k)
  {
    UndoHistory(s, Close);
    StepKeepsAlways(s, Close);
    PartnerTwice(k);
    hide Always, Step, Explained, Enabled, IsSoft, Partner;
    NewlyBlank(s, k);
    NewlyBlank(s, Partner(k));
  }

  lemma NewlyBlank(s: State, k: Key)
    requires Always(s) && Enabled(s, Close) && BlankOwed(s, k) && {k, Partner(k)} !! Step(s, Close).crossed
    ensures BlankOwed(Step(s, Close), k)
  {
    var t := Step(s, Close);
    UndoHistory(s, Close);
    hide Step, Enabled, IsSoft, Partner, Active;
    if k in t.untidy && k !in s.untidy {
      CloseUntidies(s, k);
      StepKeepsAlways(s, Close);
      SwitchOwedOff(t, k);
    }
  }

  lemma SwitchOwedOff(s: State, k: Key)
    requires Always(s) && Uncleared(s, k) && Partner(k) !in s.crossed
    ensures Get(s.owed.store, Partner(k)) == Some(Switch(false))
  {
    hide Fold, Books, RoutesFree, InHand, Active, CoveredKeys, RevertAll;
    PartnerIsSwitch(k);
    OldestDecides(Active(s.disk), s.world, Partner(k));
    assert Partner(k) !in s.untidy;
  }

  lemma TellOther(from: Store, s: State, e: Event, k: Key)
    requires Enabled(s, e) && !ByOthers(e) && !e.BeginOk? && !e.Close? && Told(s, from, k)
    ensures Told(Step(s, e), from, k)
  {
    HistoryStays(s, e);
    hide Explained, Step, Enabled, IsSoft, Partner;
  }

  lemma CrossedGrows(s: State, e: Event)
    requires Enabled(s, e) && !ByOthers(e)
    ensures s.crossed <= Step(s, e).crossed && s.untidy <= Step(s, e).untidy
  {
    hide Fold, Lost, Older, Newer, CoveredKeys, Active, Outstanding, MaxSeq;
  }

  // Over a whole run in which nobody else touches the settings: no foreign route is owed less, and
  // every setting but a crossed one is owed its original, as read, or nothing where the original was
  // blank or taken for its own by the first operation to touch it.
  lemma {:induction false} OwedIsOriginal(start: State, events: seq<Event>, end: State, k: Key)
    requires Init(start) && Run(start, events, end) && forall e | e in events :: !ByOthers(e)
    ensures end.owed.rib == start.world.rib
    ensures {k, Partner(k)} !! end.crossed ==> Told(end, start.world.store, k)
    decreases |events|
  {
    hide Enabled, Step, Told, Partner;
    if events == [] {
      OwedAtStart(start, k);
    } else {
      var n := |events| - 1;
      var mid :| Run(start, events[..n], mid) && Enabled(mid, events[n]) && Step(mid, events[n]) == end;
      assert events[n] in events;
      ReachableAlways(start, events[..n], mid);
      OwedIsOriginal(start, events[..n], mid, k);
      OursKeepsForeignRoutes(start, events[..n], mid, events[n]);
      CrossedGrows(mid, events[n]);
      if {k, Partner(k)} !! end.crossed {
        hide Always;
        match events[n]
        case BeginOk => TellBegin(start.world.store, mid, k);
        case Close => TellClose(start.world.store, mid, k);
        case _ => TellOther(start.world.store, mid, events[n], k);
      }
    }
  }

  lemma OwedAtStart(start: State, k: Key)
    requires Init(start)
    ensures Told(start, start.world.store, k)
  {
  }

  predicate Touches(k: Key, begun: seq<Begun>) {
    exists i | 0 <= i < |begun| :: k in Keys(Own(begun[i].op))
  }

  lemma {:induction false} UntouchedIsOwedAsIs(start: State, events: seq<Event>, end: State, k: Key)
    requires Init(start) && Run(start, events, end)
    requires forall e | e in events :: !ByOthers(e)
    requires !Touches(k, end.begun)
    ensures Get(end.owed.store, k) == Get(start.world.store, k) && k !in end.crossed + end.untidy
    decreases |events|
  {
    hide Enabled, Step, Touches;
    if events != [] {
      var n := |events| - 1;
      var mid :| Run(start, events[..n], mid) && Enabled(mid, events[n]) && Step(mid, events[n]) == end;
      assert events[n] in events;
      ReachableAlways(start, events[..n], mid);
      UntouchedEarlier(mid, events[n], k);
      UntouchedIsOwedAsIs(start, events[..n], mid, k);
      UntouchedStep(start, events[..n], mid, events[n], k);
    }
  }

  lemma UntouchedEarlier(s: State, e: Event, k: Key)
    requires Enabled(s, e) && !Touches(k, Step(s, e).begun)
    ensures !Touches(k, s.begun)
  {
    hide Fold, Active, Outstanding, RevertAll, Own, Keys, Lost, Older, Newer, CoveredKeys, OweNow;
    if e.BeginOk? {
      var b := NewlyBegun(s);
      forall i | 0 <= i < |s.begun| ensures k !in Keys(Own(s.begun[i].op)) {
        assert (s.begun + [b])[i] == s.begun[i];
      }
    }
  }

  // Every pending record is of an operation that was begun.
  ghost predicate AllBegun(m: Open, begun: seq<Begun>) {
    forall q | q in m :: exists i | 0 <= i < |begun| :: begun[i].op == m[q].op
  }

  lemma {:induction false} PendingWasBegun(start: State, events: seq<Event>, end: State)
    requires Init(start) && Run(start, events, end)
    ensures AllBegun(Fold(end.disk), end.begun)
    decreases |events|
  {
    hide Enabled, Step, AllBegun;
    if events == [] {
      NoneBegun(start);
    } else {
      var n := |events| - 1;
      var mid :| Run(start, events[..n], mid) && Enabled(mid, events[n]) && Step(mid, events[n]) == end;
      ReachableAlways(start, events[..n], mid);
      PendingWasBegun(start, events[..n], mid);
      StepKeepsBegun(mid, events[n]);
    }
  }

  lemma NoneBegun(s: State)
    requires Init(s)
    ensures AllBegun(Fold(s.disk), s.begun)
  {
    FoldEmpty();
  }

  lemma StepKeepsBegun(s: State, e: Event)
    requires Always(s) && Enabled(s, e) && AllBegun(Fold(s.disk), s.begun)
    ensures AllBegun(Fold(Step(s, e).disk), Step(s, e).begun)
  {
    if e.BeginOk? {
      BeginTells(s);
      BeginListed(s);
    } else if e.AdoptOk? || e.CommitOk? {
      CommitListed(s, e);
    } else if e.Close? {
      CloseListed(s);
    } else {
      OtherListed(s, e);
    }
  }

  lemma BeginListed(s: State)
    requires Enabled(s, BeginOk) && AllBegun(Fold(s.disk), s.begun)
    ensures AllBegun(Fold(Step(s, BeginOk).disk), s.begun + [NewlyBegun(s)])
  {
    hide Fold, Active, CoveredKeys, OweNow;
    FoldMore(s.disk, Begin(s.ctl.rec.(seqno := s.seqno + 1)));
    var m, t, b := Fold(s.disk), Step(s, BeginOk), NewlyBegun(s);
    var begun := s.begun + [b];
    assert begun[|s.begun|] == b;
    forall q | q in Fold(t.disk) ensures exists i | 0 <= i < |begun| :: begun[i].op == Fold(t.disk)[q].op {
      if q != s.seqno + 1 {
        var i :| 0 <= i < |s.begun| && s.begun[i].op == m[q].op;
        assert begun[i] == s.begun[i];
      }
    }
  }

  lemma CommitListed(s: State, e: Event)
    requires Always(s) && Enabled(s, e) && (e.AdoptOk? || e.CommitOk?) && AllBegun(Fold(s.disk), s.begun)
    ensures AllBegun(Fold(Step(s, e).disk), Step(s, e).begun)
  {
    hide Fold, RoutesFree, Refusals, Bounded, Owing, InHand, Captured;
    var t := Step(s, e);
    FoldMore(s.disk, Commit(t.done[|t.done| - 1]));
    assert s.ctl.rec in Held(s);
    BooksHas(Fold(s.disk), s.seqno, Held(s), s.ctl.rec);
  }

  lemma CloseListed(s: State)
    requires Enabled(s, Close) && AllBegun(Fold(s.disk), s.begun)
    ensures AllBegun(Fold(Step(s, Close).disk), Step(s, Close).begun)
  {
    hide Fold, Lost, Older, Newer, CoveredKeys;
    FoldMore(s.disk, Done(s.ctl.rec.seqno));
  }

  lemma OtherListed(s: State, e: Event)
    requires Enabled(s, e) && !e.BeginOk? && !e.AdoptOk? && !e.CommitOk? && !e.Close?
    ensures Fold(Step(s, e).disk) == Fold(s.disk) && Step(s, e).begun == s.begun
  {
    hide Fold, WriteOne, UnwriteOne, IsSoft, NewRecord, ApplySteps, RevertSteps, Present, Outstanding, MaxSeq, Active, CoveredKeys;
    if e.Compact? {
      FoldEmpty();
    }
  }

  lemma UntouchedStep(start: State, events: seq<Event>, s: State, e: Event, k: Key)
    requires Init(start) && Run(start, events, s) && Enabled(s, e) && !ByOthers(e) && k !in s.crossed + s.untidy
    requires !Touches(k, Step(s, e).begun)
    ensures k !in Step(s, e).crossed + Step(s, e).untidy && Get(Step(s, e).owed.store, k) == Get(s.owed.store, k)
  {
    ReachableAlways(start, events, s);
    hide Always, Step, Enabled, Touches, Run, Init;
    if e.BeginOk? {
      BeginTells(s);
      UntouchedBegin(s, k);
    } else if e.Close? {
      PendingWasBegun(start, events, s);
      UntouchedClose(s, k);
    } else {
      HistoryStays(s, e);
    }
  }

  lemma HistoryStays(s: State, e: Event)
    requires Enabled(s, e) && !ByOthers(e) && !e.BeginOk? && !e.Close?
    ensures var t := Step(s, e);
      t.crossed == s.crossed && t.untidy == s.untidy && t.owed == s.owed && t.begun == s.begun
  {
    hide Fold, WriteOne, UnwriteOne, IsSoft, NewRecord, ApplySteps, RevertSteps, Present, Outstanding, MaxSeq;
  }

  lemma UntouchedBegin(s: State, k: Key)
    requires Always(s) && Enabled(s, BeginOk) && k !in s.crossed + s.untidy
    requires !Touches(k, s.begun + [NewlyBegun(s)])
    ensures Get(Step(s, BeginOk).owed.store, k) == Get(s.owed.store, k)
  {
    hide Fold, Active, CoveredKeys, Always, Step, Keys, Own, Partner;
    assert (s.begun + [NewlyBegun(s)])[|s.begun|] == NewlyBegun(s);
    OwedMoves(s, k);
    KeysOfOwn(s);
  }

  lemma UntouchedClose(s: State, k: Key)
    requires Always(s) && Enabled(s, Close) && AllBegun(Fold(s.disk), s.begun) && k !in s.crossed + s.untidy
    requires !Touches(k, Step(s, Close).begun)
    ensures k !in Step(s, Close).crossed + Step(s, Close).untidy && Step(s, Close).owed == s.owed
  {
    hide Fold, Older, Newer, CoveredKeys, Always, Keys, Own, RevertAll, PutAll, Captured, Capture;
    var rec := s.ctl.rec;
    ClosingHeld(s);
    if k in Keys(rec.undo) && !rec.adopted {
      var i :| 0 <= i < |s.begun| && s.begun[i].op == Fold(s.disk)[rec.seqno].op;
      KeysOfCaptured(rec);
    }
  }

  lemma KeysOfCaptured(r: Record)
    requires Captured(r)
    ensures Keys(r.undo) == Keys(Own(r.op))
  {
    hide Keys, Own, Capture;
    var store, env :| r.undo == Capture(r.op, store, env);
    CaptureCovers(r.op, store, env);
  }

  // The whole recovery statement in one place: after any number of operations, crashes and failed
  // reverts, once nothing is pending every route is back, and every setting that is not crossed; but
  // for servers captured as blank that could not be cleared, beside which the switch is off.
  lemma RecoveryRestoresOriginals(start: State, events: seq<Event>, end: State, k: Key)
    requires Init(start) && Run(start, events, end) && Fold(end.disk) == map[]
    requires forall e | e in events :: !ByOthers(e)
    ensures end.world.rib == start.world.rib
    ensures {k, Partner(k)} !! end.crossed + end.untidy ==> Explained(k, start.world.store, end.world.store, end.begun)
    ensures !Touches(k, end.begun) ==> Get(end.world.store, k) == Get(start.world.store, k)
    ensures {k, Partner(k)} !! end.crossed && k in end.untidy ==>
      && k in end.refused && Get(end.world.store, Partner(k)) == Some(Switch(false))
      && IsSoft(Assign(k, Get(end.owed.store, k))) && Explained(k, start.world.store, end.owed.store, end.begun)
    ensures StuckApart(start, events) ==> end.crossed == {}
  {
    hide Touches, Explained, Fold, Run, Init, Partner, IsSoft, StuckApart;
    CompletedReplayRestores(start, events, end);
    OwedIsOriginal(start, events, end, k);
    PartnerTwice(k);
    if {k, Partner(k)} !! end.crossed + end.untidy {
      ExplainedLocal(k, start.world.store, end.owed.store, end.world.store, end.begun);
    }
    if !Touches(k, end.begun) {
      UntouchedIsOwedAsIs(start, events, end, k);
    }
    if {k, Partner(k)} !! end.crossed && k in end.untidy {
      SwitchNotUntidy(start, events, end, k);
    }
  }

  lemma SwitchNotUntidy(start: State, events: seq<Event>, end: State, k: Key)
    requires Init(start) && Run(start, events, end) && k in end.untidy
    ensures k in end.refused && Partner(k) !in end.untidy
  {
    ReachableAlways(start, events, end);
    PartnerIsSwitch(k);
  }
}
