// The journal as an object over the file (internal/netstate/journal.go): it heals what it opens,
// continues the sequence, and folds the file it appends to.
module FileJournals {
  import opened Octets
  import opened Settings
  import opened JournalFormat
  import opened Recovery
  import opened RecoveryProof
  import opened MacWorld

  lemma DecodeMore(c: Codec, lines: seq<Bytes>, i: nat)
    requires i < |lines|
    ensures DecodeAll(c, lines[..i + 1]) == DecodeAll(c, lines[..i]) +
            match c.decode(lines[i]) case Some(e) => [e] case None => []
  {
    assert lines[..i + 1] == lines[..i] + [lines[i]];
    DecodeAllConcat(c, lines[..i], [lines[i]]);
    DecodeSingle(c, lines[i]);
  }

  // foldJournal: line by line, skipping what does not decode, then sorted by sequence number.
  method FoldJournal(c: Codec, b: Bytes) returns (out: seq<Record>)
    ensures out == Outstanding(Entries(c, b))
  {
    var lines := Split(b);
    var open: Open := map[];
    for i := 0 to |lines|
      invariant open == Fold(DecodeAll(c, lines[..i]))
    {
      DecodeMore(c, lines, i);
      match c.decode(lines[i])
      case Some(e) =>
        FoldMore(DecodeAll(c, lines[..i]), e);
        match e {
          case Begin(r) => open := open[r.seqno := r];
          case Commit(r) => open := open[r.seqno := r];
          case Done(s) => open := open - {s};
        }
      case None =>
        assert DecodeAll(c, lines[..i + 1]) == DecodeAll(c, lines[..i]);
    }
    assert lines[..|lines|] == lines;
    out := SortBySeq(open);
  }

  method SortBySeq(open: Open) returns (out: seq<Record>)
    ensures out == InOrder(open)
  {
    var left := open;
    out := [];
    while left != map[]
      invariant InOrder(open) == InOrder(left) + out
      decreases |left|
    {
      assert MaxOf(left.Keys) in left.Keys;
      var k :| k in left.Keys && forall j :: j in left.Keys ==> j <= k;
      InOrderTop(left, k);
      var rest := left - {k};
      assert InOrder(rest) + [left[k]] + out == InOrder(rest) + ([left[k]] + out);
      assert |rest| < |left| by {
        assert rest.Keys == left.Keys - {k};
      }
      out := [left[k]] + out;
      left := rest;
    }
  }

  method HighestToken(recs: seq<Record>) returns (seqno: nat)
    ensures forall r | r in recs :: r.seqno <= seqno
    ensures seqno == 0 || exists r | r in recs :: r.seqno == seqno
  {
    seqno := 0;
    for i := 0 to |recs|
      invariant forall j | 0 <= j < i :: recs[j].seqno <= seqno
      invariant seqno == 0 || exists j | 0 <= j < i :: recs[j].seqno == seqno
    {
      if recs[i].seqno > seqno {
        seqno := recs[i].seqno;
      }
    }
  }

  class FileJournal {
    const mac: Mac
    var seqno: nat

    ghost predicate Valid()
      reads this, mac`file, mac`world, mac`s, mac`log
    {
      mac.Valid() && !mac.s.ctl.Down? && seqno == mac.s.seqno
    }

    // replay says which of the two the opening process is about to do.
    constructor Open(mac: Mac, ghost replay: bool)
      requires mac.Valid() && mac.s.ctl.Down?
      modifies mac
      ensures this.mac == mac && Valid() && mac.world == old(mac.world) && mac.faults == old(mac.faults)
      ensures mac.s == Step(old(mac.s), if replay then BootReplay else Boot)
      ensures mac.log == old(mac.log) + [if replay then BootReplay else Boot]
    {
      this.mac := mac;
      this.seqno := 0;
      new;
      hide Run, Init, Fold, InOrder, Entries, Step, Enabled;
      ghost var ev := if replay then BootReplay else Boot;
      mac.file := Heal(mac.file);
      HealFixed(mac.file);
      var recs := FoldJournal(mac.codec, mac.file);
      seqno := HighestToken(recs);
      MaxOfOutstanding(mac.s.disk, seqno);
      BootShape(mac.s);
      mac.Advance(ev);
    }

    // Tokens never collide: a new one is above every outstanding one, even where it repeats a closed one.
    method Begin(r: Record, ghost env: Env) returns (io: IO, tok: nat)
      requires Valid() && mac.s.ctl == Ready(r, env)
      modifies this`seqno, mac`file, mac`s, mac`log, mac`faults
      ensures mac.Valid() && mac.world == old(mac.world) && mac.faults == old(mac.faults) + if io.Failed? then 1 else 0
      ensures io.Ok? ==> Valid() && mac.s == Step(old(mac.s), BeginOk) && tok == seqno == old(seqno) + 1
      ensures io.Ok? ==> mac.log == old(mac.log) + [BeginOk]
      ensures io.Failed? ==> Valid() && mac.s == old(mac.s) && mac.log == old(mac.log) && mac.file == old(mac.file)
      ensures io.Crashed? ==> mac.s.ctl.Down?
      ensures io.Crashed? ==> mac.log == old(mac.log) + [Crash] || mac.log == old(mac.log) + [BeginOk] + [Crash]
    {
      hide Run, Init, Entries, Heal, Fold, Active, RevertAll, CoveredKeys, OweNow;
      seqno := seqno + 1;
      tok := seqno;
      io := mac.Append(JournalFormat.Begin(r.(seqno := seqno)), BeginOk);
      if io.Failed? {
        seqno := seqno - 1;
      }
    }

    method Commit(r: Record, ghost ev: Event) returns (io: IO)
      requires Valid()
      requires (ev.AdoptOk? && mac.s.ctl == Adopting(r))
        || (ev.CommitOk? && Enabled(mac.s, CommitOk) && r == mac.s.ctl.rec.(applied := true, verified := true))
      modifies mac`file, mac`s, mac`log, mac`faults
      ensures mac.Valid() && mac.world == old(mac.world) && mac.faults == old(mac.faults) + if io.Failed? then 1 else 0
      ensures io.Ok? ==> Valid() && mac.s == Step(old(mac.s), ev) && mac.log == old(mac.log) + [ev]
      ensures io.Failed? ==> Valid() && mac.s == old(mac.s) && mac.log == old(mac.log)
      ensures io.Crashed? ==> mac.s.ctl.Down?
      ensures io.Crashed? ==> mac.log == old(mac.log) + [Crash] || mac.log == old(mac.log) + [ev] + [Crash]
    {
      hide Run, Init, Entries, Heal, Fold, Active, RevertAll, CoveredKeys, OweNow;
      io := mac.Append(JournalFormat.Commit(r), ev);
    }

    // Closes the entry and then compacts. A truncation that fails is reported although the entry is
    // closed.
    method Done(tok: nat) returns (io: IO)
      requires Valid() && mac.s.ctl.Closing? && mac.s.ctl.rec.seqno == tok
      modifies mac`file, mac`s, mac`log, mac`faults
      ensures mac.Valid() && mac.world == old(mac.world) && mac.faults == old(mac.faults) + if io.Failed? then 1 else 0
      ensures !io.Crashed? ==> Valid() && mac.s.done == old(mac.s.done) && mac.s.owed == old(mac.s.owed)
      ensures !io.Crashed? ==> mac.s.refused == old(mac.s.refused)
      ensures !io.Crashed? ==> mac.s.ctl == Undoing(old(mac.s.ctl.rest), old(mac.s.ctl.replay))
      ensures io.Ok? ==> mac.log == old(mac.log) + [Close] + [Compact] && Fold(mac.s.disk) == Fold(old(mac.s.disk)) - {tok}
      ensures io.Failed? ==>
        || (mac.log == old(mac.log) + [Close] + [CompactErr] && Fold(mac.s.disk) == Fold(old(mac.s.disk)) - {tok})
        || (mac.s == old(mac.s).(ctl := mac.s.ctl) && mac.log == old(mac.log) + [RevertStuck])
      ensures io.Crashed? ==> mac.s.ctl.Down? && (Unstuck(old(mac.log)) ==> Unstuck(mac.log))
    {
      hide Run, Init, Entries, Heal, Fold, Step, Enabled;
      CloseShape(mac.s);
      io := mac.Append(JournalFormat.Done(tok), Close);
      if io.Ok? {
        FoldMore(old(mac.s.disk), JournalFormat.Done(tok));
        io := CompactFile();
      } else if io.Failed? {
        mac.Note(RevertStuck);
      }
    }

    method CompactFile() returns (io: IO)
      requires Valid() && mac.s.ctl.Compacting?
      modifies mac`file, mac`s, mac`log, mac`faults
      ensures mac.Valid() && mac.world == old(mac.world) && mac.faults == old(mac.faults) + if io.Failed? then 1 else 0
      ensures !io.Crashed? ==> Valid() && mac.s.done == old(mac.s.done) && mac.s.owed == old(mac.s.owed)
      ensures !io.Crashed? ==> mac.s.refused == old(mac.s.refused)
      ensures !io.Crashed? ==> mac.s.ctl == Undoing(old(mac.s.ctl.rest), old(mac.s.ctl.replay))
      ensures !io.Crashed? ==> mac.log == old(mac.log) + [if io.Ok? then Compact else CompactErr]
      ensures !io.Crashed? ==> Fold(mac.s.disk) == Fold(old(mac.s.disk))
      ensures io.Crashed? ==> mac.s.ctl.Down? && mac.log == old(mac.log) + [Crash]
    {
      hide Run, Init, InOrder, Fold, Entries, Heal, Step, Enabled;
      var fate: int := *;
      if fate == 0 {
        CrashEffect(mac.s);
        mac.Die();
        return Crashed;
      }
      var recs := FoldJournal(mac.codec, mac.file);
      NoneOutstanding(mac.s.disk);
      CompactShape(mac.s);
      if recs == [] && fate == 1 {
        mac.file := [];
        EntriesText(mac.codec, []);
        HealFixed([]);
        mac.Advance(Compact);
      } else if recs == [] {
        mac.Note(CompactErr);
        mac.Fault();
        return Failed;
      } else {
        mac.Note(Compact);
      }
      io := Ok;
    }

    method Pending() returns (recs: seq<Record>)
      requires Valid()
      ensures recs == Outstanding(mac.s.disk)
    {
      hide Run, Init, InOrder, FoldFrom, Split;
      recs := FoldJournal(mac.codec, mac.file);
    }
  }

  lemma CloseShape(s: State)
    requires s.ctl.Closing?
    ensures Enabled(s, Close) && Enabled(s, RevertStuck)
    ensures var t := Step(s, Close);
      && t.disk == s.disk + [Done(s.ctl.rec.seqno)] && t.world == s.world && t.owed == s.owed && t.done == s.done && t.refused == s.refused
      && t.seqno == s.seqno && t.ctl == Compacting(s.ctl.rest, s.ctl.replay)
    ensures Step(s, RevertStuck) == s.(ctl := Undoing(s.ctl.rest, s.ctl.replay))
  {
    hide Lost, Older, Newer, CoveredKeys;
  }

  lemma BootShape(s: State)
    requires s.ctl.Down?
    ensures Enabled(s, Boot) && Enabled(s, BootReplay)
    ensures Step(s, Boot) == s.(ctl := Idle, done := [], seqno := MaxSeq(s.disk))
    ensures Step(s, BootReplay) == s.(ctl := Undoing(Outstanding(s.disk), true), done := [], seqno := MaxSeq(s.disk))
  {
  }

  lemma CompactShape(s: State)
    requires s.ctl.Compacting?
    ensures Enabled(s, Compact) && Enabled(s, CompactErr)
    ensures Step(s, Compact) == s.(disk := if Fold(s.disk) == map[] then [] else s.disk, ctl := Undoing(s.ctl.rest, s.ctl.replay))
    ensures Step(s, CompactErr) == s.(ctl := Undoing(s.ctl.rest, s.ctl.replay))
    ensures Fold(Step(s, Compact).disk) == Fold(s.disk)
  {
    FoldEmpty();
  }

  lemma NoneOutstanding(disk: seq<Entry>)
    ensures Outstanding(disk) == [] <==> Fold(disk) == map[]
  {
  }

  lemma MaxOfOutstanding(disk: seq<Entry>, m: nat)
    requires forall r | r in Outstanding(disk) :: r.seqno <= m
    requires m == 0 || exists r | r in Outstanding(disk) :: r.seqno == m
    ensures MaxSeq(disk) == m
  {
    KeepKeyed(disk);
    BootFacts(disk);
    forall k | k in Fold(disk) ensures k <= m {
      InOrderComplete(Fold(disk), k);
    }
  }

  // Open, begin, begin, close the second, and open again: the next token repeats the closed one,
  // and both readings of the file stay right because the fold takes the lines in order.
  lemma ClosedSeqIsReused(a: Record, b: Record, c: Record)
    requires a.seqno == 1 && b.seqno == 2 && c.seqno == 2
    ensures var disk := [Begin(a), Begin(b), Done(2)];
      && MaxSeq(disk) == 1
      && Fold(disk) == map[1 := a]
      && Fold(disk + [Begin(c)]) == map[1 := a, 2 := c]
  {
    FoldMore([], Begin(a));
    FoldMore([Begin(a)], Begin(b));
    FoldMore([Begin(a), Begin(b)], Done(2));
    var disk := [Begin(a), Begin(b), Done(2)];
    assert [] + [Begin(a)] == [Begin(a)];
    assert [Begin(a)] + [Begin(b)] == [Begin(a), Begin(b)];
    assert [Begin(a), Begin(b)] + [Done(2)] == disk;
    FoldMore(disk, Begin(c));
    assert Fold([]) == map[];
    assert Fold(disk) == map[1 := a];
    assert Fold(disk).Keys == {1};
  }
}
