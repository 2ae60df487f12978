// Operations as objects (internal/netstate/op_launchenv.go, op_proxy.go, op_route_darwin.go): each
// captures what it will restore, and applies and reverts itself one command at a time.
module LiveOps {
  import opened Settings
  import opened JournalFormat
  import opened Recovery
  import opened RecoveryProof
  import opened RecoveryAlways
  import opened RecoveryTheorems
  import opened Checks
  import opened MacWorld

  // ---------------------------------------------------------------- shapes of single commands

  lemma WriteShape(s: State)
    requires (s.ctl.Restoring? || s.ctl.Applying?) && !s.ctl.rec.op.AddRoute? && s.ctl.i < |Own(s.ctl.rec.op)|
    ensures var ev := if s.ctl.Restoring? then Rewrite else Write;
      && Enabled(s, ev)
      && var t := Step(s, ev);
         t == s.(world := s.world.(store := Put(s.world.store, Own(s.ctl.rec.op)[s.ctl.i])), ctl := t.ctl)
         && Reached(s.ctl, t.ctl) && t.ctl.i == s.ctl.i + 1
  {
    hide Own;
  }

  lemma RouteShape(s: State, again: bool)
    requires if again then s.ctl.Restoring? else s.ctl.Applying?
    requires s.ctl.rec.op.AddRoute? && s.ctl.i == 0 && KeyOf(s.ctl.rec.op.route) !in s.world.rib
    ensures var ev, r := if again then Rewrite else Write, s.ctl.rec.op.route;
      && Enabled(s, ev)
      && var t := Step(s, ev);
         t == s.(world := Routed(s.world, r), ctl := t.ctl) && Reached(s.ctl, t.ctl) && t.ctl.i == 1
  {
  }

  lemma UnwriteShape(s: State)
    requires s.ctl.Reverting? && !s.ctl.rec.op.AddRoute? && s.ctl.i < |s.ctl.rec.undo|
    ensures var a := s.ctl.rec.undo[s.ctl.i];
      && Enabled(s, Unwrite) && Enabled(s, UnwriteErr)
      && Step(s, Unwrite) == s.(world := s.world.(store := Put(s.world.store, a)), ctl := Later(s.ctl, false))
      && Step(s, UnwriteErr) ==
         s.(ctl := Later(s.ctl, !IsSoft(a)), refused := if IsSoft(a) then s.refused + {a.key} else s.refused)
  {
  }

  lemma UnrouteShape(s: State)
    requires s.ctl.Reverting? && s.ctl.rec.op.AddRoute? && s.ctl.i == 0
    ensures Enabled(s, Unwrite) && Enabled(s, UnwriteErr)
    ensures Step(s, Unwrite) == s.(world := RevertOne(s.ctl.rec, s.world), ctl := Later(s.ctl, false))
    ensures Step(s, UnwriteErr) == s.(ctl := Later(s.ctl, false))
  {
    hide RevertOne;
  }

  // ---------------------------------------------------------------- what the methods promise

  // About to apply op from its first command.
  predicate Begins(ctl: Control, again: bool, op: Op) {
    (if again then ctl.Restoring? else ctl.Applying?) && ctl.i == 0 && ctl.rec.op == op
  }

  // Still applying what was being applied, for the same purpose.
  predicate Reached(was: Control, now: Control) {
    || (was.Applying? && now.Applying? && now.rec == was.rec)
    || (was.Restoring? && now.Restoring? && now.rec == was.rec)
  }

  // About to revert op from its first command.
  predicate Reverts(ctl: Control, op: Op, undo: seq<Assign>) {
    ctl.Reverting? && ctl.i == 0 && !ctl.failed && ctl.rec.op == op && ctl.rec.undo == undo
  }

  function RevertedTo(ctl: Control, i: nat, failed: bool): Control
    requires ctl.Reverting?
  {
    Reverting(ctl.rec, i, ctl.rest, ctl.replay, failed)
  }

  // At most our own entry has come into the table, where there was none.
  ghost predicate RouteAdded(w: World, v: World, r: RouteSpec) {
    v == w || (KeyOf(r) !in w.rib && v == Routed(w, r))
  }

  // At most our own entry has gone from the table.
  ghost predicate RouteTried(w: World, v: World, r: RouteSpec) {
    v == w || (Present(w.rib, r) && v == w.(rib := w.rib - {KeyOf(r)}))
  }

  // The process's memory and its journal are as they were.
  ghost predicate Steady(s: State, t: State) {
    t.done == s.done && t.seqno == s.seqno && t.disk == s.disk && t.owed == s.owed
  }

  // after is before, then steps of undoing in which no record is given up.
  ghost predicate Undid(before: seq<Event>, after: seq<Event>) {
    before <= after && forall i | |before| <= i < |after| :: IsUndoStep(after[i])
  }

  // The settings outside ks and the table are as they were.
  ghost predicate Only(ks: set<Key>, w: World, v: World) {
    Agree(w.store, v.store, ks) && v.rib == w.rib
  }

  lemma OnlySelf(ks: set<Key>, w: World)
    ensures Only(ks, w, w)
  {
  }

  lemma OnlyMore(ks: set<Key>, w: World, v: World, u: World)
    requires Only(ks, w, v) && Only(ks, v, u)
    ensures Only(ks, w, u)
  {
  }

  predicate IsProxy(op: Op) {
    op.PacProxy? || op.WebProxy? || op.SocksProxy?
  }

  // The world once every command of op has been carried out.
  function AppliedTo(op: Op, w: World): World {
    if op.AddRoute? then if KeyOf(op.route) in w.rib then w else Routed(w, op.route)
    else w.(store := PutAll(w.store, Own(op)))
  }

  // Nothing in the way of applying op: a destination takes one route only.
  predicate Addable(op: Op, w: World) {
    op.AddRoute? ==> KeyOf(op.route) !in w.rib
  }

  // An empty service list stands for every enabled service.
  function Resolved(op: Op, services: seq<string>): Op {
    match op
    case PacProxy(url, named) => PacProxy(url, if named == [] then services else named)
    case WebProxy(host, port, named) => WebProxy(host, port, if named == [] then services else named)
    case SocksProxy(host, port, named) => SocksProxy(host, port, if named == [] then services else named)
    case _ => op
  }

  class LiveOp {
    var op: Op
    var undo: seq<Assign>
    var prepared: bool
    var added: bool

    constructor (op: Op)
      ensures this.op == op && !prepared && !added
    {
      this.op := op;
      this.undo := [];
      this.prepared := false;
      this.added := false;
    }

    // An operation read back from the journal, for reverting only.
    constructor Revive(r: Record)
      ensures this.op == r.op && undo == r.undo && prepared && !added
    {
      this.op := r.op;
      this.undo := r.undo;
      this.prepared := true;
      this.added := false;
    }

    // Captures what Revert will restore, one read at a time; any read may fail.
    method Prepare(mac: Mac, env: Env) returns (ok: bool)
      requires mac.Valid()
      modifies this`op, this`undo, this`prepared, mac`faults
      ensures mac.faults >= old(mac.faults)
      ensures mac.faults == old(mac.faults) && !old(prepared) ==>
        op == Resolved(old(op), mac.services) && (ok <==> IsProxy(op) ==> op.services != [])
      ensures old(prepared) ==> ok && prepared && op == old(op) && undo == old(undo)
      ensures !old(prepared) ==> prepared == ok
      ensures op == old(op) || op == Resolved(old(op), mac.services)
      ensures ok && !old(prepared) ==> op == Resolved(old(op), mac.services) && undo == Capture(op, mac.world.store, env)
      ensures ok && !old(prepared) && IsProxy(op) ==> op.services != []
    {
      if prepared {
        return true;
      }
      match op {
      case LaunchEnv(vars) => ok := CaptureEnv(mac, env);
      case AddRoute(_) => ok, undo := true, [];
      case _ =>
        ok := ResolveServices(mac);
        if ok {
          ok := CaptureProxies(mac, env);
        }
      }
      prepared := ok;
    }

    method CaptureEnv(mac: Mac, env: Env) returns (ok: bool)
      requires op.LaunchEnv?
      modifies this`undo, mac`faults
      ensures ok <==> mac.faults == old(mac.faults)
      ensures mac.faults >= old(mac.faults)
      ensures ok ==> undo == CaptureVars(op.vars, mac.world.store, env)
    {
      hide CaptureVar;
      undo := [];
      for i := 0 to |op.vars|
        invariant undo == CaptureVars(op.vars, mac.world.store, env)[..i]
        invariant mac.faults == old(mac.faults)
      {
        var read := mac.Read();
        if !read {
          return false;
        }
        undo := undo + [Assign(EnvVar(op.vars[i].0), CaptureVar(op.vars[i].0, op.vars[i].1, mac.world.store, env))];
      }
      ok := true;
    }

    // No list given: every enabled service, and there has to be one.
    method ResolveServices(mac: Mac) returns (ok: bool)
      requires IsProxy(op)
      modifies this`op, mac`faults
      ensures mac.faults >= old(mac.faults)
      ensures mac.faults == old(mac.faults) ==> op == Resolved(old(op), mac.services) && (ok <==> op.services != [])
      ensures op == old(op) || op == Resolved(old(op), mac.services)
      ensures IsProxy(op) && (ok ==> op == Resolved(old(op), mac.services) && op.services != [])
    {
      if op.services == [] {
        var listed := mac.Read();
        if !listed {
          return false;
        }
        op := Resolved(op, mac.services);
      }
      ok := op.services != [];
    }

    // Captures service by service.
    method CaptureProxies(mac: Mac, env: Env) returns (ok: bool)
      requires IsProxy(op)
      modifies this`undo, mac`faults
      ensures ok <==> mac.faults == old(mac.faults)
      ensures mac.faults >= old(mac.faults)
      ensures ok ==> undo == CaptureServices(op, op.services, mac.world.store, env)
    {
      hide CaptureService, CaptureServices;
      undo := [];
      var services := op.services;
      CaptureNoServices(op, services, mac.world.store, env);
      for i := 0 to |services|
        invariant undo == CaptureServices(op, services[..i], mac.world.store, env)
        invariant mac.faults == old(mac.faults)
      {
        var read := mac.Read();
        if !read {
          return false;
        }
        CaptureServicesMore(op, services, i, mac.world.store, env);
        undo := undo + CaptureService(op, services[i], mac.world.store, env);
      }
      assert services[..|services|] == services;
      ok := true;
    }

    // A read failure reports false whatever is in force; otherwise the answer is exact. The table is
    // readable.
    method Verify(mac: Mac) returns (ok: bool)
      requires mac.Valid()
      modifies mac`faults
      ensures mac.faults >= old(mac.faults)
      ensures ok ==> InForce(op, mac.world, mac.primary)
      ensures op.AddRoute? || mac.faults == old(mac.faults) ==> ok == InForce(op, mac.world, mac.primary)
    {
      match op
      case LaunchEnv(vars) =>
        for i := 0 to |vars|
          invariant forall j | 0 <= j < i :: GetEnv(mac.world.store, vars[j].0) == vars[j].1
          invariant mac.faults == old(mac.faults)
        {
          var read := mac.Read();
          if !read || GetEnv(mac.world.store, vars[i].0) != vars[i].1 {
            return false;
          }
        }
        ok := true;
      case AddRoute(r) =>
        ok := Present(mac.world.rib, r);
      case _ =>
        var read := mac.Read();
        ok := read && InForce(op, mac.world, mac.primary);
    }

    // Every command in order, stopping at the first that fails. again is Reverify's re-apply under the
    // existing record.
    method Apply(mac: Mac, ghost again: bool) returns (io: IO)
      requires mac.Valid() && Begins(mac.s.ctl, again, op)
      modifies mac`world, mac`s, mac`log, mac`faults, this`added
      ensures mac.Valid() && (io.Crashed? ==> mac.s.ctl.Down?)
      ensures !io.Crashed? ==> Steady(old(mac.s), mac.s) && Reached(old(mac.s.ctl), mac.s.ctl) && mac.s.ctl.i <= ApplySteps(op)
      ensures !io.Crashed? ==> (io.Ok? <==> mac.s.ctl.i == ApplySteps(op))
      ensures op.AddRoute? && !io.Crashed? ==> added == io.Ok? && (io.Ok? ==> KeyOf(op.route) !in old(mac.world.rib))
      ensures op.AddRoute? && !io.Crashed? ==> mac.world == (if io.Ok? then Routed(old(mac.world), op.route) else old(mac.world))
      ensures op.AddRoute? ==> RouteAdded(old(mac.world), mac.world, op.route)
      ensures !op.AddRoute? && !io.Crashed? ==>
        mac.world == old(mac.world).(store := PutAll(old(mac.world.store), Own(op)[..mac.s.ctl.i]))
      ensures !op.AddRoute? ==> Only(Keys(Own(op)), old(mac.world), mac.world)
      ensures mac.faults >= old(mac.faults)
      ensures mac.faults == old(mac.faults) && !io.Crashed? ==> (io.Ok? <==> Addable(op, old(mac.world)))
      ensures io.Ok? ==> Addable(op, old(mac.world)) && mac.world == AppliedTo(op, old(mac.world))
      ensures mac.faults == old(mac.faults) && !io.Crashed? ==> mac.world == AppliedTo(op, old(mac.world))
      ensures Unstuck(old(mac.log)) ==> Unstuck(mac.log)
    {
      hide PutAll, Own, Run, Init, Entries, Heal;
      added := false;
      if op.AddRoute? {
        io := ApplyRoute(mac, again);
      } else {
        io := ApplySettings(mac);
      }
    }

    method ApplySettings(mac: Mac) returns (io: IO)
      requires mac.Valid() && (Begins(mac.s.ctl, true, op) || Begins(mac.s.ctl, false, op)) && !op.AddRoute?
      modifies mac`world, mac`s, mac`log, mac`faults
      ensures mac.Valid() && (io.Crashed? ==> mac.s.ctl.Down?)
      ensures !io.Crashed? ==> Steady(old(mac.s), mac.s) && Reached(old(mac.s.ctl), mac.s.ctl) && mac.s.ctl.i <= |Own(op)|
      ensures !io.Crashed? ==> (io.Ok? <==> mac.s.ctl.i == |Own(op)|)
      ensures !io.Crashed? ==> mac.world == old(mac.world).(store := PutAll(old(mac.world.store), Own(op)[..mac.s.ctl.i]))
      ensures io.Ok? ==> mac.world == AppliedTo(op, old(mac.world))
      ensures mac.faults >= old(mac.faults) && (mac.faults == old(mac.faults) ==> !io.Failed?)
      ensures Only(Keys(Own(op)), old(mac.world), mac.world)
      ensures Unstuck(old(mac.log)) ==> Unstuck(mac.log)
    {
      hide Run, Init, Entries, Heal, Own, PutAll, Step, Enabled, Fold, Keys, Agree;
      var i := 0;
      PutAllNone(mac.world.store);
      assert Own(op)[..0] == [];
      OnlySelf(Keys(Own(op)), mac.world);
      while i < |Own(op)|
        invariant 0 <= i <= |Own(op)| && mac.Valid()
        invariant Steady(old(mac.s), mac.s) && Reached(old(mac.s.ctl), mac.s.ctl) && mac.s.ctl.i == i
        invariant mac.world == old(mac.world).(store := PutAll(old(mac.world.store), Own(op)[..i]))
        invariant mac.faults == old(mac.faults)
        invariant Only(Keys(Own(op)), old(mac.world), mac.world)
        invariant Unstuck(old(mac.log)) ==> Unstuck(mac.log)
      {
        PutAllMore(old(mac.world.store), Own(op)[..i], Own(op)[i]);
        assert Own(op)[..i + 1] == Own(op)[..i] + [Own(op)[i]];
        ghost var before := mac.world;
        io := ApplyOne(mac, i);
        OnlyMore(Keys(Own(op)), old(mac.world), before, mac.world);
        if io.Crashed? || io.Failed? {
          return;
        }
        i := i + 1;
      }
      assert Own(op)[..i] == Own(op);
      io := Ok;
    }

    // One networksetup or launchctl command.
    method ApplyOne(mac: Mac, i: nat) returns (io: IO)
      requires mac.Valid() && (mac.s.ctl.Applying? || mac.s.ctl.Restoring?)
      requires mac.s.ctl.rec.op == op && !op.AddRoute? && mac.s.ctl.i == i < |Own(op)|
      modifies mac`world, mac`s, mac`log, mac`faults
      ensures mac.Valid() && (io.Crashed? ==> mac.s.ctl.Down?)
      ensures !io.Crashed? ==> Steady(old(mac.s), mac.s) && Reached(old(mac.s.ctl), mac.s.ctl)
      ensures !io.Crashed? ==> mac.s.ctl.i == i + if io.Ok? then 1 else 0
      ensures io.Ok? ==> mac.world == old(mac.world).(store := Put(old(mac.world.store), Own(op)[i]))
      ensures io.Failed? ==> mac.world == old(mac.world)
      ensures mac.faults == old(mac.faults) + if io.Failed? then 1 else 0
      ensures Only(Keys(Own(op)), old(mac.world), mac.world)
      ensures Unstuck(old(mac.log)) ==> Unstuck(mac.log)
    {
      hide Run, Init, Entries, Heal, Own, Step, Enabled, Fold, Keys;
      WriteShape(mac.s);
      KeyIn(Own(op), i);
      io := mac.SetOne(Own(op)[i], if mac.s.ctl.Restoring? then Rewrite else Write);
    }

    // An add onto an occupied destination fails, whatever route reports.
    method ApplyRoute(mac: Mac, ghost again: bool) returns (io: IO)
      requires mac.Valid() && op.AddRoute? && Begins(mac.s.ctl, again, op)
      modifies mac`world, mac`s, mac`log, mac`faults, this`added
      ensures mac.Valid() && (io.Crashed? ==> mac.s.ctl.Down?)
      ensures !io.Crashed? ==> Steady(old(mac.s), mac.s) && added == io.Ok?
      ensures !io.Crashed? ==> Reached(old(mac.s.ctl), mac.s.ctl) && mac.s.ctl.i == if io.Ok? then 1 else 0
      ensures !io.Crashed? ==> mac.world == (if io.Ok? then Routed(old(mac.world), op.route) else old(mac.world))
      ensures io.Ok? ==> KeyOf(op.route) !in old(mac.world.rib)
      ensures RouteAdded(old(mac.world), mac.world, op.route)
      ensures mac.faults >= old(mac.faults)
      ensures mac.faults == old(mac.faults) && io.Failed? ==> KeyOf(op.route) in old(mac.world.rib)
      ensures Unstuck(old(mac.log)) ==> Unstuck(mac.log)
    {
      hide Run, Init, Entries, Heal, Step, Enabled, Fold;
      added := false;
      if KeyOf(op.route) in mac.world.rib {
        return Failed;
      }
      RouteShape(mac.s, again);
      io := mac.Change(Routed(mac.world, op.route), if again then Rewrite else Write);
      added := io.Ok?;
    }

    // Puts back every captured value, carrying on past a command that fails. ok: none failed but a
    // route's or one that only tidies, and then every value is back but for servers that would not clear.
    // Where nothing fails at all, all is back, and no route of ours is left.
    method Revert(mac: Mac) returns (ok: bool, crashed: bool)
      requires mac.Valid() && Reverts(mac.s.ctl, op, undo)
      modifies mac`world, mac`s, mac`log, mac`faults
      ensures mac.Valid() && (crashed ==> mac.s.ctl.Down?)
      ensures !crashed ==> Steady(old(mac.s), mac.s) && Undid(old(mac.log), mac.log)
      ensures !crashed ==> mac.s.ctl == RevertedTo(old(mac.s.ctl), RevertSteps(old(mac.s.ctl.rec)), !ok)
      ensures !op.AddRoute? ==> Only(Keys(undo), old(mac.world), mac.world)
      ensures !op.AddRoute? && !crashed && ok ==> Written(old(mac.s.ctl.rec), |undo|, mac.world.store, mac.s.refused)
      ensures op.AddRoute? ==> RouteTried(old(mac.world), mac.world, op.route) && (!crashed ==> ok)
      ensures mac.faults >= old(mac.faults)
      ensures mac.faults == old(mac.faults) && !crashed ==> ok && mac.world == RevertOne(old(mac.s.ctl.rec), old(mac.world))
    {
      if op.AddRoute? {
        crashed := RevertRoute(mac);
        ok := !crashed;
      } else {
        ok, crashed := RevertSettings(mac);
      }
    }

    method RevertSettings(mac: Mac) returns (ok: bool, crashed: bool)
      requires mac.Valid() && Reverts(mac.s.ctl, op, undo) && !op.AddRoute?
      modifies mac`world, mac`s, mac`log, mac`faults
      ensures mac.Valid() && (crashed ==> mac.s.ctl.Down?)
      ensures !crashed ==> Steady(old(mac.s), mac.s) && Undid(old(mac.log), mac.log)
      ensures !crashed ==> mac.s.ctl == RevertedTo(old(mac.s.ctl), |undo|, !ok)
      ensures Only(Keys(undo), old(mac.world), mac.world)
      ensures !crashed && ok ==> Written(old(mac.s.ctl.rec), |undo|, mac.world.store, mac.s.refused)
      ensures mac.faults >= old(mac.faults)
      ensures mac.faults == old(mac.faults) && !crashed ==>
        ok && mac.world == old(mac.world).(store := PutAll(old(mac.world.store), undo))
    {
      hide Run, Init, Entries, Heal, Step, Enabled, Fold, Keys, Agree, PutAll;
      ok, crashed := true, false;
      var i := 0;
      PutAllNone(mac.world.store);
      assert undo[..0] == [];
      OnlySelf(Keys(undo), mac.world);
      while i < |undo|
        invariant 0 <= i <= |undo| && mac.Valid()
        invariant Steady(old(mac.s), mac.s) && Undid(old(mac.log), mac.log)
        invariant mac.s.ctl == RevertedTo(old(mac.s.ctl), i, !ok)
        invariant Only(Keys(undo), old(mac.world), mac.world)
        invariant mac.faults >= old(mac.faults)
        invariant mac.faults == old(mac.faults) ==>
          ok && mac.world == old(mac.world).(store := PutAll(old(mac.world.store), undo[..i]))
      {
        PutAllMore(old(mac.world.store), undo[..i], undo[i]);
        assert undo[..i + 1] == undo[..i] + [undo[i]];
        var done;
        ghost var before := mac.world;
        done, crashed := RevertWrite(mac, i);
        OnlyMore(Keys(undo), old(mac.world), before, mac.world);
        if crashed {
          return false, true;
        }
        ok := ok && done;
        i := i + 1;
      }
      assert undo[..i] == undo;
      WrittenBack(mac.start, mac.log, mac.s);
    }

    // One command; ok also when it only tidies.
    method RevertWrite(mac: Mac, i: nat) returns (ok: bool, crashed: bool)
      requires mac.Valid() && mac.s.ctl.Reverting? && mac.s.ctl.i == i < |undo| && !op.AddRoute?
      requires mac.s.ctl.rec.op == op && mac.s.ctl.rec.undo == undo
      modifies mac`world, mac`s, mac`log, mac`faults
      ensures mac.Valid() && (crashed ==> mac.s.ctl.Down?)
      ensures !crashed ==> Steady(old(mac.s), mac.s) && Undid(old(mac.log), mac.log)
      ensures !crashed ==> mac.s.ctl == Later(old(mac.s.ctl), !ok)
      ensures Only(Keys(undo), old(mac.world), mac.world)
      ensures !crashed ==> mac.world == old(mac.world) || mac.world == old(mac.world).(store := Put(old(mac.world.store), undo[i]))
      ensures !crashed && ok ==> Get(mac.world.store, undo[i].key) == undo[i].val || IsSoft(undo[i])
      ensures mac.faults >= old(mac.faults)
      ensures mac.faults == old(mac.faults) && !crashed ==>
        ok && mac.world == old(mac.world).(store := Put(old(mac.world.store), undo[i]))
    {
      hide Run, Init, Entries, Heal, Fold, Step, Enabled, Keys;
      UnwriteShape(mac.s);
      KeyIn(undo, i);
      var io := mac.SetOne(undo[i], Unwrite);
      if io.Failed? {
        mac.Note(UnwriteErr);
      }
      ok, crashed := io.Ok? || (io.Failed? && IsSoft(undo[i])), io.Crashed?;
    }

    // Looks before it deletes: an entry that is not ours stays. What the delete reports is not
    // believed; ConfirmReverted decides.
    method RevertRoute(mac: Mac) returns (crashed: bool)
      requires mac.Valid() && Reverts(mac.s.ctl, op, undo) && op.AddRoute?
      modifies mac`world, mac`s, mac`log, mac`faults
      ensures mac.Valid() && (crashed ==> mac.s.ctl.Down?)
      ensures !crashed ==> Steady(old(mac.s), mac.s) && Undid(old(mac.log), mac.log)
      ensures !crashed ==> mac.s.ctl == RevertedTo(old(mac.s.ctl), 1, false)
      ensures RouteTried(old(mac.world), mac.world, op.route)
      ensures mac.faults >= old(mac.faults)
      ensures mac.faults == old(mac.faults) && !crashed ==> mac.world == RevertOne(old(mac.s.ctl.rec), old(mac.world))
    {
      hide Run, Init, Entries, Heal, Fold, Step, Enabled;
      UnrouteShape(mac.s);
      if Present(mac.world.rib, op.route) {
        var io := mac.RouteDelete(op.route, Unwrite);
        if io.Failed? {
          mac.Note(UnwriteErr);
        }
        crashed := io.Crashed?;
      } else {
        mac.Note(Unwrite);
        crashed := false;
      }
    }

    // Reads the settings back; any read may fail, and where none does the answer is exact.
    method ConfirmReverted(mac: Mac) returns (ok: bool)
      requires mac.Valid()
      modifies mac`faults
      ensures mac.faults >= old(mac.faults)
      ensures ok ==> VerifyReverted(op, mac.world, mac.primary)
      ensures op.AddRoute? || mac.faults == old(mac.faults) ==> ok == VerifyReverted(op, mac.world, mac.primary)
    {
      match op
      case LaunchEnv(vars) =>
        for i := 0 to |vars|
          invariant forall j | 0 <= j < i :: GetEnv(mac.world.store, vars[j].0) == "" || GetEnv(mac.world.store, vars[j].0) != vars[j].1
          invariant mac.faults == old(mac.faults)
        {
          var read := mac.Read();
          if !read || (GetEnv(mac.world.store, vars[i].0) == vars[i].1 && GetEnv(mac.world.store, vars[i].0) != "") {
            return false;
          }
        }
        ok := true;
      case AddRoute(r) =>
        ok := !Present(mac.world.rib, r);
      case _ =>
        ok := ProxyGone(mac);
    }

    // scutil for the primary service, then every service of the list, since the writes went to all.
    method ProxyGone(mac: Mac) returns (ok: bool)
      requires mac.Valid() && IsProxy(op)
      modifies mac`faults
      ensures mac.faults >= old(mac.faults)
      ensures ok ==> VerifyReverted(op, mac.world, mac.primary)
      ensures mac.faults == old(mac.faults) ==> ok == VerifyReverted(op, mac.world, mac.primary)
    {
      hide ServiceReverted, StillLive;
      var read := mac.Read();
      if !read || StillLive(op, mac.world, mac.primary) {
        return false;
      }
      for i := 0 to |op.services|
        invariant forall j | 0 <= j < i :: ServiceReverted(op, op.services[j], mac.world.store)
        invariant mac.faults == old(mac.faults)
      {
        var listed := mac.Read();
        if !listed || !ServiceReverted(op, op.services[i], mac.world.store) {
          return false;
        }
      }
      ok := true;
    }
  }

  // What Always says at the end of a revert none of whose commands failed.
  lemma WrittenBack(start: State, log: seq<Event>, s: State)
    requires Init(start) && Run(start, log, s) && s.ctl.Reverting? && !s.ctl.rec.op.AddRoute?
    ensures !s.ctl.failed ==> Written(s.ctl.rec, s.ctl.i, s.world.store, s.refused)
  {
    hide Fold, Books, RoutesFree, Owing, Refusals;
    ReachableAlways(start, log, s);
  }

  function Routed(w: World, r: RouteSpec): World {
    w.(rib := w.rib[KeyOf(r) := HopOf(r)])
  }

  lemma PutAllNone(s: Store)
    ensures PutAll(s, []) == s
  {
  }

  lemma KeyIn(writes: seq<Assign>, i: nat)
    requires i < |writes|
    ensures writes[i].key in Keys(writes)
  {
    assert writes[i] in writes;
  }

  lemma CaptureNoServices(op: Op, services: seq<string>, store: Store, env: Env)
    requires op.PacProxy? || op.WebProxy? || op.SocksProxy?
    ensures CaptureServices(op, services[..0], store, env) == []
  {
  }

  lemma {:induction false} CaptureServicesMore(op: Op, services: seq<string>, i: nat, store: Store, env: Env)
    requires op.PacProxy? || op.WebProxy? || op.SocksProxy?
    requires i < |services|
    ensures CaptureServices(op, services[..i + 1], store, env) ==
            CaptureServices(op, services[..i], store, env) + CaptureService(op, services[i], store, env)
  {
    hide CaptureService;
    if i == 0 {
      assert services[..1][1..] == [] && services[..0] == [];
    } else {
      assert services[..i + 1][1..] == services[1..][..i] && services[..i][1..] == services[1..][..i - 1];
      CaptureServicesMore(op, services[1..], i - 1, store, env);
    }
  }
}
