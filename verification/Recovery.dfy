// Crash recovery as a state machine (internal/netstate/manager.go, reverify.go). Every event is one
// micro-step: one durable line, one write to a subsystem, one decision. A crash may fall between any
// two of them, including inside Apply, UndoAll, rollback and Replay.
module Recovery {
  import opened Settings
  import opened JournalFormat

  // ---------------------------------------------------------------- routes

  function KeyOf(r: RouteSpec): RouteKey {
    RouteKey(r.dst, if r.gw.Some? && r.iface != "" then Some(r.iface) else None)
  }

  predicate Matches(r: RouteSpec, h: Hop) {
    (r.iface != "" ==> h.iface == r.iface) && (r.gw.Some? ==> h.gateway == r.gw)
  }

  predicate Present(rib: Rib, r: RouteSpec) {
    KeyOf(r) in rib && Matches(r, rib[KeyOf(r)])
  }

  function HopOf(r: RouteSpec): Hop {
    Hop(r.gw, r.iface)
  }

  // A scoped entry sits on the interface it is scoped to.
  ghost predicate Consistent(rib: Rib) {
    forall k | k in rib && k.scope.Some? :: rib[k].iface == k.scope.value
  }

  // matchRoute scans the table for an entry of the right scope class; on a consistent table that
  // is the entry under the key route(8) deletes by, and no other.
  lemma MatchRouteIsKeyed(rib: Rib, r: RouteSpec)
    requires Consistent(rib)
    ensures Present(rib, r) <==>
      exists k :: k in rib && k.dst == r.dst && Matches(r, rib[k]) && (k.scope.Some? <==> r.gw.Some? && r.iface != "")
  {
    if k :| k in rib && k.dst == r.dst && Matches(r, rib[k]) && (k.scope.Some? <==> r.gw.Some? && r.iface != "") {
      assert k == KeyOf(r);
    }
  }

  // ---------------------------------------------------------------- undoing one record, undoing all

  function RevertOne(r: Record, w: World): World {
    if r.op.AddRoute? then
      if Present(w.rib, r.op.route) then w.(rib := w.rib - {KeyOf(r.op.route)}) else w
    else w.(store := PutAll(w.store, r.undo))
  }

  // Replay and UndoAll: newest first.
  function RevertAll(stack: seq<Record>, w: World): World {
    if stack == [] then w else RevertAll(stack[..|stack| - 1], RevertOne(stack[|stack| - 1], w))
  }

  function Unadopted(rs: seq<Record>): seq<Record> {
    if rs == [] then []
    else Unadopted(rs[..|rs| - 1]) + if rs[|rs| - 1].adopted then [] else [rs[|rs| - 1]]
  }

  function Keep(m: Open): Open {
    map k | k in m && !m[k].adopted :: m[k]
  }

  // The records Replay would really revert, oldest first.
  ghost function Active(disk: seq<Entry>): seq<Record> {
    InOrder(Keep(Fold(disk)))
  }

  ghost predicate Captured(r: Record) {
    WellFormed(r.op) && exists store, env :: r.undo == Capture(r.op, store, env)
  }

  // Every setting some record of rs would put back.
  function CoveredKeys(rs: seq<Record>): set<Key> {
    if rs == [] then {}
    else CoveredKeys(rs[..|rs| - 1]) + if rs[|rs| - 1].op.AddRoute? then {} else Keys(rs[|rs| - 1].undo)
  }

  // Some record of rs would delete this table entry.
  predicate Claimed(rs: seq<Record>, k: RouteKey, h: Hop) {
    rs != [] &&
    var r := rs[|rs| - 1];
    (r.op.AddRoute? && KeyOf(r.op.route) == k && Matches(r.op.route, h)) || Claimed(rs[..|rs| - 1], k, h)
  }

  // ---------------------------------------------------------------- a record among the others

  function Below(m: Open, n: nat): Open {
    map k | k in m && k < n :: m[k]
  }

  function Above(m: Open, n: nat): Open {
    map k | k in m && k > n :: m[k]
  }

  ghost function Older(disk: seq<Entry>, n: nat): seq<Record> {
    InOrder(Below(Keep(Fold(disk)), n))
  }

  ghost function Newer(disk: seq<Entry>, n: nat): seq<Record> {
    InOrder(Above(Keep(Fold(disk)), n))
  }

  // What closing r takes from a full recovery: the settings that no older record decides, and that the
  // newer records and the world itself would leave at something other than what r captured.
  function Lost(older: seq<Record>, r: Record, newer: seq<Record>, w: World): set<Key> {
    if r.adopted || r.op.AddRoute? then {}
    else
      set k | k in Keys(r.undo) && k !in CoveredKeys(older)
              && Get(RevertAll(newer, w).store, k) != Get(PutAll(w.store, r.undo), k)
  }

  // now, except for the settings of ks: those stay as they were.
  function Carry(was: Store, now: Store, ks: set<Key>): Store {
    (map k | k in now && k !in ks :: now[k]) + (map k | k in was && k in ks :: was[k])
  }

  // ---------------------------------------------------------------- the machine

  // failed: a command that may not fail has failed, so the record will not be closed.
  datatype Control =
    | Down
    | Idle
    | Ready(rec: Record, env: Env)
    | Adopting(rec: Record)
    | Applying(rec: Record, i: nat)
    | Reverting(rec: Record, i: nat, rest: seq<Record>, replay: bool, failed: bool)
    | Closing(rec: Record, rest: seq<Record>, replay: bool)
    | Compacting(rest: seq<Record>, replay: bool)
    | Undoing(rest: seq<Record>, replay: bool)
    | Restoring(rec: Record, i: nat)

  // An operation that was begun, and what pending records covered just before.
  datatype Begun = Begun(op: Op, env: Env, covered: set<Key>)

  // done and ctl die with the process. The rest below is history, which no step looks at:
  // owed is what the user is to get back. crossed are the settings lost to it because a record was
  // closed under a newer one left pending, untidy those lost because a server could not be cleared;
  // refused are all the servers that could not be cleared at some time.
  datatype State = State(disk: seq<Entry>, world: World, seqno: nat, done: seq<Record>, ctl: Control,
                         owed: World, begun: seq<Begun>, crossed: set<Key>, untidy: set<Key>, refused: set<Key>)

  datatype Event =
    | Boot | BootReplay
    | Prepare(op: Op, env: Env)
    | BeginOk | BeginErr
    | AdoptOk | AdoptErr
    | Write | WriteErr
    | CommitOk | VerifyOrCommitErr
    | UndoAll | TakeTop | Unwrite | RevertConfirmed | Close | Compact | CompactErr | UndoEnd
    | Reverify(j: nat) | Rewrite | ReverifyEnd
    | Crash
    | OthersSet(key: Key, val: Option<Val>) | OthersRoute(at: RouteKey, hop: Hop) | OthersUnroute(at: RouteKey)
    | UnwriteErr | RevertStuck

  function ApplySteps(op: Op): nat {
    if op.AddRoute? then 1 else |Own(op)|
  }

  function RevertSteps(r: Record): nat {
    if r.op.AddRoute? then 1 else |r.undo|
  }

  // One write of Apply. A route add onto an occupied destination reports "File exists" and adds nothing.
  predicate CanWrite(op: Op, i: nat, w: World) {
    i < ApplySteps(op) && (op.AddRoute? ==> KeyOf(op.route) !in w.rib)
  }

  function WriteOne(op: Op, i: nat, w: World): World
    requires CanWrite(op, i, w)
  {
    if op.AddRoute? then w.(rib := w.rib[KeyOf(op.route) := HopOf(op.route)])
    else w.(store := Put(w.store, Own(op)[i]))
  }

  // One write of Revert; the route Op looks before it deletes.
  function UnwriteOne(r: Record, i: nat, w: World): World
    requires i < RevertSteps(r)
  {
    if r.op.AddRoute? then RevertOne(r, w) else w.(store := Put(w.store, r.undo[i]))
  }

  function NewRecord(op: Op, w: World, env: Env): Record {
    var adopted := CanAdopt(op) && op.AddRoute? && Present(w.rib, op.route);
    Record(0, adopted, adopted, adopted, op, Capture(op, w.store, env))
  }

  // One command of a revert later.
  function Later(ctl: Control, failing: bool): Control
    requires ctl.Reverting?
  {
    Reverting(ctl.rec, ctl.i + 1, ctl.rest, ctl.replay, ctl.failed || failing)
  }

  // The routes now given; the settings too, but for those already lost.
  function OweNow(was: World, now: World, lost: set<Key>): World {
    World(Carry(was.store, now.store, lost), now.rib)
  }

  ghost function MaxSeq(disk: seq<Entry>): nat {
    var ks := Fold(disk).Keys;
    if ks == {} then 0 else MaxOf(ks)
  }

  ghost predicate Enabled(s: State, e: Event) {
    match e
    case Boot => s.ctl.Down?
    case BootReplay => s.ctl.Down?
    case Prepare(op, _) => s.ctl.Idle? && WellFormed(op)
    case BeginOk => s.ctl.Ready?
    case BeginErr => s.ctl.Ready?
    case AdoptOk => s.ctl.Adopting?
    case AdoptErr => s.ctl.Adopting?
    case Write => s.ctl.Applying? && CanWrite(s.ctl.rec.op, s.ctl.i, s.world)
    case WriteErr => s.ctl.Applying? && s.ctl.i < ApplySteps(s.ctl.rec.op)
    case CommitOk => s.ctl.Applying? && s.ctl.i == ApplySteps(s.ctl.rec.op)
    case VerifyOrCommitErr => s.ctl.Applying? && s.ctl.i == ApplySteps(s.ctl.rec.op)
    case UndoAll => s.ctl.Idle?
    case TakeTop => s.ctl.Undoing? && s.ctl.rest != []
    case Unwrite => s.ctl.Reverting? && s.ctl.i < RevertSteps(s.ctl.rec)
    case RevertConfirmed =>
      // VerifyReverted has read the settings back; for a route this is all it can have seen
      && s.ctl.Reverting? && s.ctl.i == RevertSteps(s.ctl.rec) && !s.ctl.failed
      && (s.ctl.rec.op.AddRoute? ==> !Present(s.world.rib, s.ctl.rec.op.route))
    case Close => s.ctl.Closing?
    case Compact => s.ctl.Compacting?
    case CompactErr => s.ctl.Compacting?
    case UndoEnd => s.ctl.Undoing? && s.ctl.rest == []
    case Reverify(j) => s.ctl.Idle? && j < |s.done| && !s.done[j].adopted
    case Rewrite => s.ctl.Restoring? && CanWrite(s.ctl.rec.op, s.ctl.i, s.world)
    case ReverifyEnd => s.ctl.Restoring?
    case Crash => !s.ctl.Down?
    case OthersSet(_, _) => s.ctl.Idle? || s.ctl.Down?
    case OthersRoute(at, hop) => (s.ctl.Idle? || s.ctl.Down?) && !Claimed(Active(s.disk), at, hop)
    case OthersUnroute(_) => s.ctl.Idle? || s.ctl.Down?
    case UnwriteErr => s.ctl.Reverting? && s.ctl.i < RevertSteps(s.ctl.rec)
    case RevertStuck => (s.ctl.Reverting? && s.ctl.i == RevertSteps(s.ctl.rec)) || s.ctl.Closing?
  }

  ghost function Step(s: State, e: Event): State
    requires Enabled(s, e)
  {
    match e
    case Boot => s.(ctl := Idle, done := [], seqno := MaxSeq(s.disk))
    case BootReplay => s.(ctl := Undoing(Outstanding(s.disk), true), done := [], seqno := MaxSeq(s.disk))
    case Prepare(op, env) => s.(ctl := Ready(NewRecord(op, s.world, env), env))
    case BeginOk =>
      var rec := s.ctl.rec.(seqno := s.seqno + 1);
      var disk := s.disk + [Begin(rec)];
      s.(disk := disk, seqno := s.seqno + 1, ctl := if rec.adopted then Adopting(rec) else Applying(rec, 0),
         owed := OweNow(s.owed, RevertAll(Active(disk), s.world), s.crossed + s.untidy),
         begun := s.begun + [Begun(rec.op, s.ctl.env, CoveredKeys(Active(s.disk)))])
    case BeginErr => s.(ctl := Idle)
    case AdoptOk => s.(disk := s.disk + [Commit(s.ctl.rec)], done := s.done + [s.ctl.rec], ctl := Idle)
    case AdoptErr => s.(ctl := Idle)
    case Write => s.(world := WriteOne(s.ctl.rec.op, s.ctl.i, s.world), ctl := Applying(s.ctl.rec, s.ctl.i + 1))
    case WriteErr =>
      // rollback: a route Op that added nothing has nothing to revert
      if s.ctl.rec.op.AddRoute? then s.(ctl := Closing(s.ctl.rec, [], false))
      else s.(ctl := Reverting(s.ctl.rec, 0, [], false, false))
    case CommitOk =>
      var rec := s.ctl.rec.(applied := true, verified := true);
      s.(disk := s.disk + [Commit(rec)], done := s.done + [rec], ctl := Idle)
    case VerifyOrCommitErr => s.(ctl := Reverting(s.ctl.rec, 0, [], false, false))
    case UndoAll => s.(done := [], ctl := Undoing(s.done, false))
    case TakeTop =>
      var n := |s.ctl.rest| - 1;
      var top, rest := s.ctl.rest[n], s.ctl.rest[..n];
      s.(ctl := if top.adopted then Closing(top, rest, s.ctl.replay) else Reverting(top, 0, rest, s.ctl.replay, false))
    case Unwrite =>
      s.(world := UnwriteOne(s.ctl.rec, s.ctl.i, s.world),
         ctl := Later(s.ctl, false))
    case RevertConfirmed => s.(ctl := Closing(s.ctl.rec, s.ctl.rest, s.ctl.replay))
    case Close =>
      var newer := Newer(s.disk, s.ctl.rec.seqno);
      var lost := Lost(Older(s.disk, s.ctl.rec.seqno), s.ctl.rec, newer, s.world);
      s.(disk := s.disk + [Done(s.ctl.rec.seqno)], ctl := Compacting(s.ctl.rest, s.ctl.replay),
         crossed := s.crossed + (lost * CoveredKeys(newer)), untidy := s.untidy + (lost - CoveredKeys(newer)))
    case Compact =>
      s.(disk := if Fold(s.disk) == map[] then [] else s.disk, ctl := Undoing(s.ctl.rest, s.ctl.replay))
    case CompactErr => s.(ctl := Undoing(s.ctl.rest, s.ctl.replay))
    case UndoEnd => s.(ctl := Idle)
    case Reverify(j) => s.(ctl := Restoring(s.done[j], 0))
    case Rewrite => s.(world := WriteOne(s.ctl.rec.op, s.ctl.i, s.world), ctl := Restoring(s.ctl.rec, s.ctl.i + 1))
    case ReverifyEnd => s.(ctl := Idle)
    case Crash => s.(ctl := Down, done := [])
    case OthersSet(key, val) =>
      var a := Assign(key, val);
      var w := s.world.(store := Put(s.world.store, a));
      if key in CoveredKeys(Active(s.disk)) then s.(world := w)
      else
        s.(world := w, owed := s.owed.(store := Put(s.owed.store, a)), crossed := s.crossed - {key}, untidy := s.untidy - {key})
    case OthersRoute(at, hop) =>
      s.(world := s.world.(rib := s.world.rib[at := hop]), owed := s.owed.(rib := s.owed.rib[at := hop]))
    case OthersUnroute(at) =>
      s.(world := s.world.(rib := s.world.rib - {at}), owed := s.owed.(rib := s.owed.rib - {at}))
    // A revert command that fails in a live process; the later commands of the record still run. The
    // report of a route delete is never believed, and a server that cannot be cleared is let go.
    case UnwriteErr =>
      var r, i := s.ctl.rec, s.ctl.i;
      if r.op.AddRoute? then s.(ctl := Later(s.ctl, false))
      else if IsSoft(r.undo[i]) then s.(ctl := Later(s.ctl, false), refused := s.refused + {r.undo[i].key})
      else s.(ctl := Later(s.ctl, true))
    // a record that is not confirmed, or not closed: it stays pending and the walk goes on below it
    case RevertStuck => s.(ctl := Undoing(s.ctl.rest, s.ctl.replay))
  }

  // Something else on the machine changed a setting or a route.
  predicate ByOthers(e: Event) {
    e.OthersSet? || e.OthersRoute? || e.OthersUnroute?
  }

  // No record was left pending by a live process that had set out to close it.
  predicate Unstuck(events: seq<Event>) {
    forall i | 0 <= i < |events| :: !events[i].RevertStuck?
  }

  predicate Init(s: State) {
    && s.disk == [] && s.done == [] && s.ctl == Down && s.seqno == 0
    && s.owed == s.world && s.begun == [] && s.crossed == {} && s.untidy == {} && s.refused == {}
  }

  ghost predicate Run(start: State, events: seq<Event>, end: State)
    decreases |events|
  {
    if events == [] then start == end
    else
      var n := |events| - 1;
      exists mid :: Run(start, events[..n], mid) && Enabled(mid, events[n]) && Step(mid, events[n]) == end
  }
}
