// The machine the manager acts on: the journal file, the settings and the routing table, each changed
// one durable step at a time. Any step may fail, and any step may be the one the process dies in.
module MacWorld {
  import opened Octets
  import opened Settings
  import opened JournalFormat
  import opened Recovery
  import opened RecoveryProof

  datatype IO = Ok | Failed | Crashed

  lemma HealFixed(file: Bytes)
    requires file == [] || file[|file| - 1] == NL
    ensures Heal(file) == file
  {
    HealIs(file, []);
    assert file + [] == file;
  }

  class Mac {
    const codec: Codec
    // the enabled network services in order, and the one scutil answers for
    const services: seq<string>
    const primary: string
    var file: Bytes
    var world: World

    // s is the recovery machine's state; log is every micro-step taken since start; faults counts the
    // reads, writes and appends that have failed without the process dying.
    ghost const start: State
    ghost var s: State
    ghost var log: seq<Event>
    ghost var faults: nat

    ghost predicate Valid()
      reads this`file, this`world, this`s, this`log
    {
      && codec.Faithful()
      && Init(start) && Run(start, log, s)
      && s.world == world
      && Entries(codec, Heal(file)) == s.disk
      && (!s.ctl.Down? ==> Heal(file) == file)
    }

    constructor (codec: Codec, services: seq<string>, primary: string, world: World)
      requires codec.Faithful()
      ensures Valid() && s == start && s.ctl.Down? && log == [] && s.world == world && file == []
    {
      this.codec := codec;
      this.services := services;
      this.primary := primary;
      this.file := [];
      this.world := world;
      var s0 := State([], world, 0, [], Down, world, [], {}, {}, {});
      start := s0;
      s := s0;
      log, faults := [], 0;
      new;
      EntriesText(codec, []);
    }

    ghost method Advance(e: Event)
      requires Run(start, log, s) && Enabled(s, e)
      modifies this`s, this`log
      ensures s == Step(old(s), e) && log == old(log) + [e] && Run(start, log, s)
    {
      hide Step, Enabled, Init;
      assert (log + [e])[..|log|] == log;
      s, log := Step(s, e), log + [e];
    }

    // A step that only the process's own memory knows about.
    ghost method Note(e: Event)
      requires Valid() && Enabled(s, e)
      requires Step(s, e).disk == s.disk && Step(s, e).world == s.world && !Step(s, e).ctl.Down? && !s.ctl.Down?
      modifies this`s, this`log
      ensures Valid() && s == Step(old(s), e) && log == old(log) + [e]
    {
      hide Step, Enabled, Run, Init, Entries, Heal;
      Advance(e);
    }

    // The process dies between two steps.
    method Die()
      requires Valid() && !s.ctl.Down?
      modifies this`s, this`log
      ensures Valid() && s == Step(old(s), Crash) && log == old(log) + [Crash]
    {
      hide Run, Init, Entries, Heal, Fold;
      Advance(Crash);
    }

    // A read of a setting or of a list, which may fail.
    method Read() returns (ok: bool)
      modifies this`faults
      ensures faults == old(faults) + if ok then 0 else 1
    {
      ok := *;
      faults := faults + if ok then 0 else 1;
    }

    // Something else has failed that is not a change of state.
    ghost method Fault()
      modifies this`faults
      ensures faults == old(faults) + 1
    {
      faults := faults + 1;
    }

    // Append one line and fsync it.
    method Append(e: Entry, ghost ev: Event) returns (io: IO)
      requires Valid() && Enabled(s, ev) && !s.ctl.Down?
      requires Step(s, ev).disk == s.disk + [e] && Step(s, ev).world == s.world && !Step(s, ev).ctl.Down?
      modifies this`file, this`s, this`log, this`faults
      ensures Valid() && world == old(world) && faults == old(faults) + if io.Failed? then 1 else 0
      ensures io.Ok? ==> s == Step(old(s), ev) && log == old(log) + [ev]
      ensures io.Failed? ==> s == old(s) && log == old(log) && file == old(file)
      ensures io.Crashed? ==> s.ctl.Down?
      ensures io.Crashed? ==> log == old(log) + [Crash] || log == old(log) + [ev] + [Crash]
    {
      hide Step, Enabled, Run, Init, Entries, Heal, Fold;
      var line := codec.encode(e);
      var fate: int := *;
      if fate == 0 {
        AppendLine(e, ev);
        io := Ok;
      } else if fate == 1 {
        faults := faults + 1;
        io := Failed;
      } else if fate == 2 {
        AppendLine(e, ev);
        Die();
        CrashIsDown(old(s), ev);
        io := Crashed;
      } else {
        var k: int := *;
        if k < 0 || k > |line| {
          k := |line|;
        }
        HealEnds(file);
        HealIs(file, line[..k]);
        file := file + line[..k];
        Advance(Crash) by {
          CrashEnabled(s);
        }
        CrashEffect(old(s));
        io := Crashed;
      }
    }

    method AppendLine(e: Entry, ghost ev: Event)
      requires Valid() && Enabled(s, ev) && !s.ctl.Down?
      requires Step(s, ev).disk == s.disk + [e] && Step(s, ev).world == s.world && !Step(s, ev).ctl.Down?
      modifies this`file, this`s, this`log
      ensures Valid() && s == Step(old(s), ev) && log == old(log) + [ev]
    {
      hide Step, Enabled, Run, Init, Entries, Heal, Fold;
      HealEnds(file);
      EntriesLine(codec, e);
      EntriesAfter(codec, file, codec.encode(e) + [NL]);
      file := file + (codec.encode(e) + [NL]);
      HealFixed(file);
      Advance(ev);
    }

    // One absolute write of one setting.
    method SetOne(a: Assign, ghost ev: Event) returns (io: IO)
      requires Valid() && Enabled(s, ev) && !s.ctl.Down?
      requires Step(s, ev).disk == s.disk && !Step(s, ev).ctl.Down?
      requires Step(s, ev).world == s.world.(store := Put(s.world.store, a))
      modifies this`world, this`s, this`log, this`faults
      ensures Valid() && faults == old(faults) + if io.Failed? then 1 else 0
      ensures io.Crashed? ==> world == old(world) || world == old(world).(store := Put(old(world.store), a))
      ensures io.Ok? ==> s == Step(old(s), ev) && log == old(log) + [ev]
      ensures io.Failed? ==> s == old(s) && log == old(log)
      ensures io.Crashed? ==> s.ctl.Down?
      ensures io.Crashed? ==> log == old(log) + [Crash] || log == old(log) + [ev] + [Crash]
    {
      var next := world.(store := Put(world.store, a));
      io := Change(next, ev);
    }

    // One write to a subsystem, which takes place or not; the process may die on either side of it.
    method Change(next: World, ghost ev: Event) returns (io: IO)
      requires Valid() && Enabled(s, ev) && !s.ctl.Down?
      requires Step(s, ev).disk == s.disk && Step(s, ev).world == next && !Step(s, ev).ctl.Down?
      modifies this`world, this`s, this`log, this`faults
      ensures Valid() && faults == old(faults) + if io.Failed? then 1 else 0
      ensures io.Crashed? ==> world == old(world) || world == next
      ensures io.Ok? ==> s == Step(old(s), ev) && log == old(log) + [ev]
      ensures io.Failed? ==> s == old(s) && log == old(log)
      ensures io.Crashed? ==> s.ctl.Down?
      ensures io.Crashed? ==> log == old(log) + [Crash] || log == old(log) + [ev] + [Crash]
    {
      hide Step, Enabled, Run, Init, Entries, Heal, Fold;
      var fate: int := *;
      if fate == 0 {
        world := next;
        Advance(ev);
        io := Ok;
      } else if fate == 1 {
        faults := faults + 1;
        io := Failed;
      } else if fate == 2 {
        world := next;
        Advance(ev);
        Die();
        CrashIsDown(old(s), ev);
        io := Crashed;
      } else {
        Die();
        CrashEffect(old(s));
        io := Crashed;
      }
    }

    // route delete: resolved by destination and scope alone, after the caller has looked.
    method RouteDelete(r: RouteSpec, ghost ev: Event) returns (io: IO)
      requires Valid() && Enabled(s, ev) && !s.ctl.Down? && Present(world.rib, r)
      requires Step(s, ev).disk == s.disk && !Step(s, ev).ctl.Down?
      requires Step(s, ev).world == s.world.(rib := s.world.rib - {KeyOf(r)})
      modifies this`world, this`s, this`log, this`faults
      ensures Valid() && faults == old(faults) + if io.Failed? then 1 else 0
      ensures io.Crashed? ==> world == old(world) || world == old(world).(rib := old(world.rib) - {KeyOf(r)})
      ensures io.Ok? ==> s == Step(old(s), ev) && log == old(log) + [ev]
      ensures io.Failed? ==> s == old(s) && log == old(log)
      ensures io.Crashed? ==> s.ctl.Down?
      ensures io.Crashed? ==> log == old(log) + [Crash] || log == old(log) + [ev] + [Crash]
    {
      var next := world.(rib := world.rib - {KeyOf(r)});
      io := Change(next, ev);
    }
  }

  lemma HealEnds(file: Bytes)
    requires Heal(file) == file
    ensures file == [] || file[|file| - 1] == NL
  {
  }

  lemma CrashEnabled(s: State)
    requires !s.ctl.Down?
    ensures Enabled(s, Crash)
  {
  }

  lemma CrashEffect(s: State)
    requires !s.ctl.Down?
    ensures Enabled(s, Crash) && Step(s, Crash).ctl.Down?
    ensures Step(s, Crash).disk == s.disk && Step(s, Crash).world == s.world
  {
  }

  lemma CrashIsDown(s: State, ev: Event)
    requires Enabled(s, ev) && !Step(s, ev).ctl.Down?
    ensures Enabled(Step(s, ev), Crash) && Step(Step(s, ev), Crash).ctl.Down?
  {
    hide Step, Enabled;
    CrashEffect(Step(s, ev));
  }
}
