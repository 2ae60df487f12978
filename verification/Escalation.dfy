// What a walk of the ladder comes to, told from the network alone (internal/flow/ladder.go): which
// connection decides it, and how.
module Escalation {
  import opened Octets
  import opened Ladder

  // ---------------------------------------------------------------- what one connection can do

  // The first thing to go wrong on a connection, from the first octet sent to the first received.
  function FirstError(r: Reply): WireErr {
    if !r.sendErr.NoErr? then r.sendErr else if !r.extraErr.NoErr? then r.extraErr else FirstRead(r).err
  }

  // The rung cannot go out on this connection.
  predicate Unfit(r: Reply) {
    r.connects && r.transport && (!r.builds || r.sendErr.CapUnavailable?)
  }

  // The connection ended, or timed out, before it brought an octet.
  predicate Broken(r: Reply) {
    r.connects && r.transport && r.builds && Answer(r) == [] && (FirstError(r).OtherErr? || FirstError(r).TimedOut?)
  }

  // Sent to whole, and then nothing for the response window.
  predicate Silent(r: Reply) {
    r.connects && Reached(r) && FirstRead(r).data == [] && FirstRead(r).err.TimedOut?
  }

  // What the next rung may do better at.
  predicate Passes(r: Reply) {
    !r.connects || Unfit(r) || Broken(r)
  }

  // ---------------------------------------------------------------- what a walk can come to

  // The rungs that apply to the message, up to the first that does not parse.
  function Usable(s: Setup, rungs: seq<Spec>): seq<Spec> {
    if rungs == [] || s.parse(rungs[0]).None? then []
    else (if s.applies(s.parse(rungs[0]).value) then [rungs[0]] else []) + Usable(s, rungs[1..])
  }

  predicate AllParse(s: Setup, rungs: seq<Spec>) {
    forall x | x in rungs :: s.parse(x).Some?
  }

  // A message that may not be replayed has only the first rung.
  function Open(s: Setup, rungs: seq<Spec>): seq<Spec> {
    if s.replayable || rungs == [] then rungs else rungs[..1]
  }

  // How many connections the rungs allow after d have been dialled.
  function Reach(s: Setup, rungs: seq<Spec>, d: nat): nat {
    var n := |Usable(s, Open(s, rungs))|;
    if d + n <= Budget(s) then n else if d <= Budget(s) then Budget(s) - d else 0
  }

  // After the n-th dial there is nothing left to emit, and nothing to fail on.
  predicate Exhausted(s: Setup, rungs: seq<Spec>, d: nat, n: nat) {
    n + 1 >= Budget(s) || (n + 1 == d + |Usable(s, Open(s, rungs))| && (s.replayable ==> AllParse(s, rungs)))
  }

  predicate Safe(s: Setup, spec: Spec) {
    s.parse(spec).Some? && SafeToHandOver(s.parse(spec).value)
  }

  // The n-th dial, where d were spent before these rungs, settles nothing: the next one is due.
  predicate GoesOn(s: Setup, w: Surroundings, rungs: seq<Spec>, d: nat, n: nat)
    requires d <= n < d + Reach(s, rungs, d)
  {
    && Passes(w.net(n))
    && !(Silent(w.net(n)) && Exhausted(s, rungs, d, n) && Safe(s, Usable(s, Open(s, rungs))[n - d]))
  }

  // How a walk ends at the dial that settles it.
  function Settles(s: Setup, r: Reply, spec: Spec, n: nat): End {
    if Answer(r) != [] then
      if Rejects(s, r, FirstRead(r)) then HandedOver(spec, n, Answer(r), true) else Won(spec, n, Answer(r))
    else if Silent(r) then HandedOver(spec, n, [], false)
    else Lost
  }

  // The dials before m settled nothing; m did, or there was none left to make.
  ghost predicate Decided(s: Setup, w: Surroundings, rungs: seq<Spec>, d: nat, m: nat, o: Outcome) {
    && d <= m <= d + Reach(s, rungs, d)
    && (forall n | d <= n < m :: GoesOn(s, w, rungs, d, n))
    && (m < d + Reach(s, rungs, d) ==>
          && !GoesOn(s, w, rungs, d, m)
          && d + o.dials == m + 1
          && o.end == Settles(s, w.net(m), Usable(s, Open(s, rungs))[m - d], m))
    && (m == d + Reach(s, rungs, d) ==> d + o.dials == m && o.end.Lost?)
  }

  // ---------------------------------------------------------------- proof

  lemma {:induction false} JudgedBrings(got: seq<Read>)
    ensures Judged(got).data == [] ==> !Judged(got).err.NoErr?
  {
    if got != [] {
      JudgedBrings(got[1..]);
    }
  }

  lemma AttemptDecides(s: Setup, st: Strategy, r: Reply, last: bool, final: bool)
    requires r.connects
    ensures var (att, j) := AttemptOn(s, st, r, last, final);
      var waits := Silent(r) && final && SafeToHandOver(st);
      && (j.Evidence? <==> Answer(r) != [] && !Rejects(s, r, FirstRead(r)))
      && (j.Handover? <==> waits || (Answer(r) != [] && Rejects(s, r, FirstRead(r))))
      && (j.Handover? ==> att.rejected == (Answer(r) != []))
      && (j.Retry? || j.Skip? ==> Passes(r) && !waits)
      && (Passes(r) && !waits && !last ==> j.Retry? || j.Skip?)
      && (Answer(r) != [] ==> !Passes(r) && FirstRead(r).data == Answer(r))
      && (j.Stop? ==> !waits && Answer(r) == [] && (last || !Passes(r)))
      && (waits ==> FirstRead(r).data == [])
  {
    JudgedBrings(r.got);
    hide Judged, Rejects, SafeToHandOver;
  }

  lemma {:induction false} NothingMore(s: Setup, rungs: seq<Spec>)
    ensures !AnyRung(s, rungs) <==> Usable(s, rungs) == [] && AllParse(s, rungs)
  {
    if rungs != [] {
      NothingMore(s, rungs[1..]);
      assert forall x :: x in rungs <==> x == rungs[0] || x in rungs[1..];
      assert rungs[0] in rungs;
    }
  }

  // The look-ahead before a dial says whether that dial is the last of any use.
  lemma FinalIsExhausted(s: Setup, rungs: seq<Spec>, i: nat, d: nat)
    requires i < |rungs| && (s.replayable || (i == 0 && d == 0))
    requires s.parse(rungs[i]).Some? && s.applies(s.parse(rungs[i]).value)
    ensures Final(s, rungs, i, d + 1) == Exhausted(s, rungs[i..], d, d)
  {
    var rest := rungs[i..];
    assert rest[0] == rungs[i] && rest[1..] == rungs[i + 1..];
    if s.replayable {
      NothingMore(s, rest[1..]);
      assert forall x :: x in rest <==> x == rest[0] || x in rest[1..];
    } else {
      assert rest[..1][1..] == [] && rest[..1][0] == rest[0];
      assert Usable(s, rest[..1]) == [rest[0]] + Usable(s, []);
    }
  }

  // A rung that does not apply changes nothing.
  lemma SkipsRung(s: Setup, w: Surroundings, rungs: seq<Spec>, d: nat, m: nat, o: Outcome, o': Outcome)
    requires s.replayable && rungs != [] && s.parse(rungs[0]).Some? && !s.applies(s.parse(rungs[0]).value)
    requires Decided(s, w, rungs[1..], d, m, o) && o'.dials == o.dials && o'.end == o.end
    ensures Decided(s, w, rungs, d, m, o')
  {
    hide Passes, Silent, Settles, Safe;
    assert Usable(s, rungs) == Usable(s, rungs[1..]);
    assert forall x :: x in rungs <==> x == rungs[0] || x in rungs[1..];
    assert AllParse(s, rungs) == AllParse(s, rungs[1..]);
    assert forall n | d <= n < d + Reach(s, rungs, d) :: GoesOn(s, w, rungs, d, n) == GoesOn(s, w, rungs[1..], d, n);
  }

  // A dial that settles nothing comes in front.
  lemma DialsFirst(s: Setup, w: Surroundings, rungs: seq<Spec>, d: nat, m: nat, o: Outcome, o': Outcome)
    requires s.replayable && rungs != [] && s.parse(rungs[0]).Some? && s.applies(s.parse(rungs[0]).value)
    requires d < Budget(s) && d < d + Reach(s, rungs, d) && GoesOn(s, w, rungs, d, d)
    requires Decided(s, w, rungs[1..], d + 1, m, o) && o'.dials == o.dials + 1 && o'.end == o.end
    ensures Decided(s, w, rungs, d, m, o')
  {
    hide Passes, Silent, Settles, Safe, Exhausted, Usable, Open, AllParse;
    UsableBehind(s, rungs, d);
    var u := Usable(s, Open(s, rungs));
    forall n | d < n < d + Reach(s, rungs, d) ensures GoesOn(s, w, rungs, d, n) == GoesOn(s, w, rungs[1..], d + 1, n) {
      assert Exhausted(s, rungs, d, n) == Exhausted(s, rungs[1..], d + 1, n);
      assert u[n - d] == u[1..][n - (d + 1)];
    }
    assert m < d + Reach(s, rungs, d) ==> u[m - d] == u[1..][m - (d + 1)];
  }

  lemma UsableBehind(s: Setup, rungs: seq<Spec>, d: nat)
    requires s.replayable && rungs != [] && s.parse(rungs[0]).Some? && s.applies(s.parse(rungs[0]).value) && d < Budget(s)
    ensures Reach(s, rungs, d) == 1 + Reach(s, rungs[1..], d + 1)
    ensures forall n :: Exhausted(s, rungs, d, n) == Exhausted(s, rungs[1..], d + 1, n)
    ensures var u, v := Usable(s, Open(s, rungs)), Usable(s, Open(s, rungs[1..]));
      u != [] && u[1..] == v
  {
    var u := Usable(s, rungs[1..]);
    assert Usable(s, rungs) == [rungs[0]] + u;
    assert forall x :: x in rungs <==> x == rungs[0] || x in rungs[1..];
    assert AllParse(s, rungs) == AllParse(s, rungs[1..]);
  }

  // The first usable rung of those left, where something may still be dialled.
  lemma FirstUsable(s: Setup, rungs: seq<Spec>, d: nat)
    requires rungs != [] && s.parse(rungs[0]).Some? && s.applies(s.parse(rungs[0]).value) && d < Budget(s)
    ensures Reach(s, rungs, d) >= 1 && Usable(s, Open(s, rungs))[0] == rungs[0]
    ensures |rungs| == 1 || !s.replayable || d + 1 >= Budget(s) ==> Reach(s, rungs, d) == 1
  {
    assert Open(s, rungs)[0] == rungs[0];
    assert |rungs| == 1 || !s.replayable ==> Open(s, rungs)[1..] == [];
  }

  // One dial, in the terms of the network.
  lemma TurnDecides(s: Setup, w: Surroundings, rungs: seq<Spec>, i: nat, d: nat)
    requires Live(w) && i < |rungs| && d < Budget(s) && (s.replayable || (i == 0 && d == 0))
    requires s.parse(rungs[i]).Some? && s.applies(s.parse(rungs[i]).value)
    requires Reach(s, rungs[i..], d) >= 1 && Usable(s, Open(s, rungs[i..]))[0] == rungs[i]
    ensures var m := MoveAt(s, w, rungs, i, d);
      && (m.Goes? || m.Ends?) && m.dials == 1
      && (GoesOn(s, w, rungs[i..], d, d) ==> (m.Ends? ==> m.end.Lost? && (i + 1 == |rungs| || d + 1 >= Budget(s))))
      && (!GoesOn(s, w, rungs[i..], d, d) ==> m.Ends? && m.end == Settles(s, w.net(d), rungs[i], d))
  {
    FinalIsExhausted(s, rungs, i, d);
    var st, r := s.parse(rungs[i]).value, w.net(d);
    if r.connects {
      AttemptDecides(s, st, r, i + 1 == |rungs| || d + 1 >= Budget(s), Final(s, rungs, i, d + 1));
      hide AttemptOn, Passes, Silent, Exhausted, Final, Answer, FirstRead, Rejects, SafeToHandOver, Usable, Reach;
    }
  }

  // What ends here, with the dial that settles it or for want of another.
  lemma EndsHere(s: Setup, w: Surroundings, rungs: seq<Spec>, d: nat, o: Outcome)
    requires Reach(s, rungs, d) >= 1 && o.dials == 1
    requires GoesOn(s, w, rungs, d, d) ==> o.end.Lost? && Reach(s, rungs, d) == 1
    requires !GoesOn(s, w, rungs, d, d) ==> o.end == Settles(s, w.net(d), Usable(s, Open(s, rungs))[0], d)
    ensures Decided(s, w, rungs, d, if GoesOn(s, w, rungs, d, d) then d + 1 else d, o)
  {
    hide GoesOn, Settles, Reach, Usable, Open;
  }

  lemma NothingToDial(s: Setup, w: Surroundings, rungs: seq<Spec>, d: nat, o: Outcome)
    requires rungs == [] || d >= Budget(s) || s.parse(rungs[0]).None?
    requires o.dials == 0 && o.end.Lost?
    ensures Decided(s, w, rungs, d, d, o)
  {
    hide GoesOn, Settles;
  }

  lemma {:induction false} DecidedFrom(s: Setup, w: Surroundings, rungs: seq<Spec>, i: nat, d: nat) returns (m: nat)
    requires Live(w) && i <= |rungs| && s.replayable
    ensures Decided(s, w, rungs[i..], d, m, WalkFrom(s, w, rungs, i, d))
    decreases |rungs| - i
  {
    hide Decided, AttemptOn, GoesOn, Reach, Usable, WalkFrom;
    var rest, o := rungs[i..], WalkFrom(s, w, rungs, i, d);
    WalkUnfolds(s, w, rungs, i, d);
    m := d;
    if i == |rungs| || d >= Budget(s) || s.parse(rungs[i]).None? {
      NothingToDial(s, w, rest, d, o);
      return;
    }
    assert rest[0] == rungs[i] && rest[1..] == rungs[i + 1..];
    if !s.applies(s.parse(rungs[i]).value) {
      m := DecidedFrom(s, w, rungs, i + 1, d);
      SkipsRung(s, w, rest, d, m, WalkFrom(s, w, rungs, i + 1, d), o);
      return;
    }
    FirstUsable(s, rest, d);
    TurnDecides(s, w, rungs, i, d);
    if GoesOn(s, w, rest, d, d) && MoveAt(s, w, rungs, i, d).Goes? {
      m := DecidedFrom(s, w, rungs, i + 1, d + 1);
      DialsFirst(s, w, rest, d, m, WalkFrom(s, w, rungs, i + 1, d + 1), o);
    } else {
      m := if GoesOn(s, w, rest, d, d) then d + 1 else d;
      EndsHere(s, w, rest, d, o);
    }
  }

  lemma DecidedOnce(s: Setup, w: Surroundings, rungs: seq<Spec>) returns (m: nat)
    requires Live(w) && !s.replayable
    ensures Decided(s, w, rungs, 0, m, WalkFrom(s, w, rungs, 0, 0))
  {
    hide Decided, AttemptOn, GoesOn, Reach, Usable, WalkFrom;
    WalkUnfolds(s, w, rungs, 0, 0);
    WalkUnfolds(s, w, rungs, 1, 0);
    WalkUnfolds(s, w, rungs, 1, 1);
    m := 0;
    var o := WalkFrom(s, w, rungs, 0, 0);
    if rungs == [] || s.parse(rungs[0]).None? {
      NothingToDial(s, w, rungs, 0, o);
    } else if !s.applies(s.parse(rungs[0]).value) {
      NoneApplies(s, w, rungs, o);
    } else {
      FirstUsable(s, rungs, 0);
      assert rungs[0..] == rungs;
      TurnDecides(s, w, rungs, 0, 0);
      m := if GoesOn(s, w, rungs, 0, 0) then 1 else 0;
      EndsHere(s, w, rungs, 0, o);
    }
  }

  lemma NoneApplies(s: Setup, w: Surroundings, rungs: seq<Spec>, o: Outcome)
    requires !s.replayable && rungs != [] && s.parse(rungs[0]).Some? && !s.applies(s.parse(rungs[0]).value)
    requires o.dials == 0 && o.end.Lost?
    ensures Decided(s, w, rungs, 0, 0, o)
  {
    hide GoesOn, Settles;
    assert Open(s, rungs)[0] == rungs[0] && Open(s, rungs)[1..] == [];
    assert Usable(s, Open(s, rungs)) == Usable(s, []);
  }

  // Which connection decides a walk and how, from what the network does and nothing else. On a live
  // context the walk dials usable rung after usable rung as long as each connection fails to open, or
  // cannot carry the rung, or is reset or silent before its first octet. The first to bring octets wins,
  // or is handed over when they count against it; a silence with nothing left to try is handed over; any
  // other end, a torn write among them, loses the walk there; and where every connection in reach passes,
  // all of them have been made.
  lemma WalkDecided(s: Setup, w: Surroundings, rungs: seq<Spec>) returns (m: nat)
    requires Live(w)
    ensures Decided(s, w, rungs, 0, m, Walk(s, w, rungs))
  {
    if s.replayable {
      m := DecidedFrom(s, w, rungs, 0, 0);
      assert rungs[0..] == rungs;
    } else {
      m := DecidedOnce(s, w, rungs);
    }
  }

  lemma WalkEnds(s: Setup, w: Surroundings, rungs: seq<Spec>)
    ensures Live(w) ==> exists m :: Decided(s, w, rungs, 0, m, Walk(s, w, rungs))
  {
    hide Decided, Live, Walk;
    if Live(w) {
      var m := WalkDecided(s, w, rungs);
    }
  }

  // The first dial in reach that settles anything decides the walk.
  lemma FirstToSettle(s: Setup, w: Surroundings, rungs: seq<Spec>, m: nat)
    requires Live(w) && m < Reach(s, rungs, 0) && !GoesOn(s, w, rungs, 0, m)
    requires forall n | 0 <= n < m :: GoesOn(s, w, rungs, 0, n)
    ensures var o := Walk(s, w, rungs);
      o.dials == m + 1 && o.end == Settles(s, w.net(m), Usable(s, Open(s, rungs))[m], m)
  {
    hide GoesOn, Reach, Usable, Walk, Settles;
    var k := WalkDecided(s, w, rungs);
    assert k == m;
  }

  // Where none does, the walk is lost, and it has made every connection it could.
  lemma NoneSettles(s: Setup, w: Surroundings, rungs: seq<Spec>)
    requires Live(w) && forall n | 0 <= n < Reach(s, rungs, 0) :: GoesOn(s, w, rungs, 0, n)
    ensures Walk(s, w, rungs).end.Lost? && Walk(s, w, rungs).dials == Reach(s, rungs, 0)
  {
    hide GoesOn, Reach, Usable, Walk, Settles;
    var k := WalkDecided(s, w, rungs);
  }
}
