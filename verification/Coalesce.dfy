// Plans of segments and the governor's degradation of them (internal/emit/sender.go).
module Plans {
  import opened Octets

  datatype Kind = Stream | OobByte | FakeRaw | FakeDatagram | Unknown

  // ttl 0 leaves the socket's default hop limit; delay is waited before the segment goes out.
  datatype Segment = Segment(kind: Kind, data: Bytes, ttl: int, delay: int, note: string)

  // ---------------------------------------------------------------- what a plan puts on the wire

  datatype Tick = Wait(delay: int) | Out(kind: Kind, hop: int, octet: Byte)

  function Octet(kind: Kind, hop: int, data: Bytes): seq<Tick> {
    seq(|data|, i requires 0 <= i < |data| => Out(kind, hop, data[i]))
  }

  function Pause(s: Segment): seq<Tick> {
    if s.delay > 0 then [Wait(s.delay)] else []
  }

  function Flat(s: Segment): seq<Tick> {
    Pause(s) + Octet(s.kind, s.ttl, s.data)
  }

  function Flatten(segs: seq<Segment>): seq<Tick> {
    if segs == [] then [] else Flat(segs[0]) + Flatten(segs[1..])
  }

  // ---------------------------------------------------------------- merging

  predicate Mergeable(a: Segment, b: Segment) {
    a.kind.Stream? && b.kind.Stream? && a.ttl == b.ttl && b.delay == 0
  }

  function Join(a: Segment, b: Segment): Segment {
    a.(data := a.data + b.data, note := if a.note == "" then "coalesced" else a.note)
  }

  // How many of the boundaries at or after p can be merged; boundary p is the one in front of segs[p].
  function Seams(segs: seq<Segment>, p: nat): nat
    requires p > 0
    decreases |segs| - p
  {
    if p >= |segs| then 0 else (if Mergeable(segs[p - 1], segs[p]) then 1 else 0) + Seams(segs, p + 1)
  }

  // segs with every mergeable boundary at or after p removed, and no other.
  function JoinFrom(segs: seq<Segment>, p: nat): (r: seq<Segment>)
    requires p > 0
    ensures segs != [] ==> r != []
  {
    if |segs| <= 1 then segs
    else
      var rest := JoinFrom(segs[1..], if p > 1 then p - 1 else 1);
      if p == 1 && Mergeable(segs[0], segs[1]) then [Join(segs[0], rest[0])] + rest[1..] else [segs[0]] + rest
  }

  function Min(a: int, b: int): int {
    if a < b then a else b
  }

  // The last boundary with k mergeable ones at or after it.
  function CutAt(segs: seq<Segment>, k: nat, p: nat): (c: nat)
    requires 0 < p && k <= Seams(segs, 1)
    ensures 0 < c <= p && k <= Seams(segs, c)
  {
    if p == 1 || k <= Seams(segs, p) then p else CutAt(segs, k, p - 1)
  }

  function Excess(segs: seq<Segment>, max: int): nat {
    if max < 1 || |segs| <= max then 0 else Min(|segs| - max, Seams(segs, 1))
  }

  function Cut(segs: seq<Segment>, max: int): (c: nat)
    requires segs != []
    ensures 0 < c <= |segs|
  {
    CutAt(segs, Excess(segs, max), |segs|)
  }

  // Coalescing in closed form.
  function Coalesced(segs: seq<Segment>, max: int): seq<Segment> {
    if segs == [] then [] else JoinFrom(segs, Cut(segs, max))
  }

  // ---------------------------------------------------------------- what merging keeps

  predicate Seamless(r: seq<Segment>, p: nat)
    requires p > 0
  {
    forall j | p <= j < |r| :: !Mergeable(r[j - 1], r[j])
  }

  predicate SameShape(a: Segment, b: Segment) {
    a.kind == b.kind && a.ttl == b.ttl && a.delay == b.delay
  }

  // The boundaries before p are as they were; nothing at or after it can be merged any more.
  lemma {:induction false} JoinFacts(segs: seq<Segment>, p: nat)
    requires 0 < p <= |segs|
    ensures var r := JoinFrom(segs, p);
      && |r| + Seams(segs, p) == |segs| && p <= |r|
      && r[..p - 1] == segs[..p - 1] && SameShape(r[p - 1], segs[p - 1])
      && Seamless(r, p)
    decreases |segs|
  {
    if |segs| > 1 {
      var q := if p > 1 then p - 1 else 1;
      JoinFacts(segs[1..], q);
      SeamsShift(segs, q);
      var rest := JoinFrom(segs[1..], q);
      if p > 1 {
        KeepHead(segs, rest, p);
      } else if Mergeable(segs[0], segs[1]) {
        JoinHead(segs[0], rest);
      } else {
        KeepHeadSeamless(segs[0], rest);
      }
    }
  }

  lemma KeepHead(segs: seq<Segment>, rest: seq<Segment>, p: nat)
    requires 1 < p <= |segs| && p - 1 <= |rest|
    requires rest[..p - 2] == segs[1..][..p - 2] && SameShape(rest[p - 2], segs[1..][p - 2]) && Seamless(rest, p - 1)
    ensures var r := [segs[0]] + rest;
      r[..p - 1] == segs[..p - 1] && SameShape(r[p - 1], segs[p - 1]) && Seamless(r, p)
  {
    var r := [segs[0]] + rest;
    forall j | p <= j < |r| ensures !Mergeable(r[j - 1], r[j]) {
      assert !Mergeable(rest[j - 2], rest[j - 1]);
    }
    forall j | 0 < j < p - 1 ensures r[j] == segs[j] {
      assert rest[..p - 2][j - 1] == segs[1..][..p - 2][j - 1];
    }
  }

  lemma JoinHead(a: Segment, rest: seq<Segment>)
    requires rest != [] && Seamless(rest, 1) && a.kind == rest[0].kind && a.ttl == rest[0].ttl
    ensures Seamless([Join(a, rest[0])] + rest[1..], 1)
  {
    var r := [Join(a, rest[0])] + rest[1..];
    forall j | 1 <= j < |r| ensures !Mergeable(r[j - 1], r[j]) {
      assert !Mergeable(rest[j - 1], rest[j]);
    }
  }

  lemma KeepHeadSeamless(a: Segment, rest: seq<Segment>)
    requires rest != [] && Seamless(rest, 1) && !Mergeable(a, rest[0])
    ensures Seamless([a] + rest, 1)
  {
    var r := [a] + rest;
    forall j | 1 < j < |r| ensures !Mergeable(r[j - 1], r[j]) {
      assert !Mergeable(rest[j - 2], rest[j - 1]);
    }
  }

  lemma {:induction false} SeamsShift(segs: seq<Segment>, p: nat)
    requires |segs| > 1 && p > 0
    ensures Seams(segs[1..], p) == Seams(segs, p + 1)
    decreases |segs| - p
  {
    if p + 1 < |segs| {
      SeamsShift(segs, p + 1);
    }
  }

  // No boundary of segs from p up to q can be merged.
  predicate Apart(segs: seq<Segment>, p: nat, q: nat)
    requires 0 < p && q <= |segs|
  {
    forall b | p <= b < q :: !Mergeable(segs[b - 1], segs[b])
  }

  lemma ApartShift(segs: seq<Segment>, p: nat, q: nat)
    requires 1 < q <= |segs| && 0 < p && Apart(segs, p, q)
    ensures Apart(segs[1..], if p > 1 then p - 1 else 1, q - 1)
  {
    forall b | 0 < b && p - 1 <= b < q - 1 ensures !Mergeable(segs[1..][b - 1], segs[1..][b]) {
      assert !Mergeable(segs[b], segs[b + 1]);
    }
  }

  // Where nothing can be merged there is nothing to remove.
  lemma {:induction false} JoinSkips(segs: seq<Segment>, p: nat, q: nat)
    requires 0 < p <= q <= |segs| && Apart(segs, p, q)
    ensures JoinFrom(segs, p) == JoinFrom(segs, q) && Seams(segs, p) == Seams(segs, q)
    decreases |segs|
  {
    hide Mergeable, JoinFrom;
    if p < q {
      SeamsShift(segs, if p > 1 then p - 1 else 1);
      SeamsShift(segs, q - 1);
      ApartShift(segs, p, q);
      JoinSkips(segs[1..], if p > 1 then p - 1 else 1, q - 1);
      JoinBehindHead(segs, q);
      if p > 1 {
        JoinBehindHead(segs, p);
      } else {
        JoinPastHead(segs);
      }
    }
  }

  lemma JoinPastHead(segs: seq<Segment>)
    requires 1 < |segs| && !Mergeable(segs[0], segs[1])
    ensures JoinFrom(segs, 1) == [segs[0]] + JoinFrom(segs[1..], 1)
    ensures Seams(segs, 1) == Seams(segs, 2)
  {
  }

  // Merging the last mergeable boundary before p moves the cut there.
  lemma {:induction false} JoinOneMore(segs: seq<Segment>, p: nat, j: nat)
    requires 0 < j < p <= |segs| && Mergeable(segs[j - 1], segs[j]) && Apart(segs, j + 1, p)
    ensures Seams(segs, j) == Seams(segs, p) + 1
    ensures var r := JoinFrom(segs, p);
      j < |r| && JoinFrom(segs, j) == r[..j - 1] + [Join(r[j - 1], r[j])] + r[j + 1..]
    decreases |segs|
  {
    hide Join, Mergeable, JoinFrom;
    JoinFacts(segs, p);
    JoinSkips(segs, j + 1, p);
    ApartShift(segs, j + 1, p);
    JoinBehindHead(segs, p);
    var rest := JoinFrom(segs[1..], p - 1);
    if j == 1 {
      JoinSkips(segs[1..], 1, p - 1);
      JoinAtHead(segs);
    } else {
      JoinOneMore(segs[1..], p - 1, j - 1);
      JoinBehindHead(segs, j);
      MergeBehind(segs[0], rest, j);
    }
  }

  lemma JoinBehindHead(segs: seq<Segment>, p: nat)
    requires 1 < p && 1 < |segs|
    ensures JoinFrom(segs, p) == [segs[0]] + JoinFrom(segs[1..], p - 1)
  {
  }

  lemma JoinAtHead(segs: seq<Segment>)
    requires 1 < |segs| && Mergeable(segs[0], segs[1])
    ensures var r := [segs[0]] + JoinFrom(segs[1..], 1);
      JoinFrom(segs, 1) == r[..0] + [Join(r[0], r[1])] + r[2..]
  {
  }

  lemma MergeBehind(a: Segment, rest: seq<Segment>, j: nat)
    requires 1 < j <= |rest|
    ensures var r := [a] + rest;
      r[..j - 1] + [Join(r[j - 1], r[j])] + r[j + 1..]
        == [a] + (rest[..j - 2] + [Join(rest[j - 2], rest[j - 1])] + rest[j..])
  {
  }

  // ---------------------------------------------------------------- meaning

  lemma {:induction false} JoinKeepsWire(segs: seq<Segment>, p: nat)
    requires 0 < p <= |segs|
    ensures Flatten(JoinFrom(segs, p)) == Flatten(segs)
    decreases |segs|
  {
    if |segs| > 1 {
      var q := if p > 1 then p - 1 else 1;
      var rest := JoinFrom(segs[1..], q);
      JoinKeepsWire(segs[1..], q);
      if p == 1 && Mergeable(segs[0], segs[1]) {
        JoinFacts(segs[1..], 1);
        FlatJoin(segs[0], rest[0]);
        var r := JoinFrom(segs, p);
        assert r[1..] == rest[1..];
        assert Flatten(r) == (Flat(segs[0]) + Flat(rest[0])) + Flatten(rest[1..]);
      } else {
        assert ([segs[0]] + rest)[1..] == rest;
      }
    }
  }

  lemma FlatJoin(a: Segment, b: Segment)
    requires a.kind == b.kind && a.ttl == b.ttl && b.delay == 0
    ensures Flat(Join(a, b)) == Flat(a) + Flat(b)
  {
    assert Octet(a.kind, a.ttl, a.data + b.data) == Octet(a.kind, a.ttl, a.data) + Octet(b.kind, b.ttl, b.data);
  }

  // Two neighbouring stream segments may be merged exactly when that changes nothing on the wire.
  lemma MergeableMeans(a: Segment, b: Segment)
    requires a.kind.Stream? && b.kind.Stream? && b.data != [] && b.delay >= 0
    ensures Mergeable(a, b) <==> Flat(Join(a, b)) == Flat(a) + Flat(b)
  {
    if Mergeable(a, b) {
      FlatJoin(a, b);
    } else {
      var n := |Pause(a)| + |a.data|;
      assert Flat(Join(a, b))[n] == Out(a.kind, a.ttl, b.data[0]);
      assert (Flat(a) + Flat(b))[n] == Flat(b)[0];
    }
  }

  lemma {:induction false} CutIsExact(segs: seq<Segment>, k: nat, p: nat)
    requires 0 < p <= |segs| && k <= Seams(segs, 1) && Seams(segs, p) <= k
    ensures Seams(segs, CutAt(segs, k, p)) == k
  {
    if p > 1 && Seams(segs, p) < k {
      CutIsExact(segs, k, p - 1);
    }
  }

  function Max(a: int, b: int): int {
    if a > b then a else b
  }

  // Coalescing removes exactly the last boundaries that can be removed: down to the grant, never below
  // it, or as far as there is something to remove. What goes on the wire, and when, and with which hop limit, is unchanged; and a plan
  // that is still over its grant has nothing left to merge.
  lemma CoalescedLaws(segs: seq<Segment>, max: int)
    ensures var r := Coalesced(segs, max);
      && Flatten(r) == Flatten(segs)
      && (1 <= max < |segs| ==> |r| == Max(max, |segs| - Seams(segs, 1)))
      && (max < 1 || |segs| <= max ==> r == segs)
      && (segs != [] ==>
            var c := Cut(segs, max);
            && Seams(segs, c) == |segs| - |r| && c <= |r|
            && r[..c - 1] == segs[..c - 1]
            && Seamless(r, c))
      && (1 <= max < |r| ==> Seamless(r, 1))
  {
    hide JoinFrom, CutAt, Seams, Flatten, Mergeable;
    if segs != [] {
      var c := Cut(segs, max);
      CutCounts(segs, max);
      JoinFacts(segs, c);
      JoinKeepsWire(segs, c);
      JoinNothing(segs);
      if 1 <= max < |Coalesced(segs, max)| {
        SameCut(segs, 1, c);
        JoinFacts(segs, 1);
      }
    }
  }

  // The cut has as many mergeable boundaries behind it as are in excess, and none behind a cut at the end.
  lemma CutCounts(segs: seq<Segment>, max: int)
    requires segs != []
    ensures Seams(segs, Cut(segs, max)) == Excess(segs, max)
    ensures Excess(segs, max) == 0 ==> Cut(segs, max) == |segs|
  {
    CutIsExact(segs, Excess(segs, max), |segs|);
  }

  lemma {:induction false} JoinNothing(segs: seq<Segment>)
    requires segs != []
    ensures JoinFrom(segs, |segs|) == segs
    decreases |segs|
  {
    if |segs| > 1 {
      JoinNothing(segs[1..]);
    }
  }

  // Two cuts with as many mergeable boundaries behind them are the same cut.
  lemma {:induction false} SameCut(segs: seq<Segment>, p: nat, q: nat)
    requires 0 < p <= q <= |segs| && Seams(segs, p) == Seams(segs, q)
    ensures JoinFrom(segs, p) == JoinFrom(segs, q)
    decreases q - p
  {
    if p < q {
      SeamsShrink(segs, p, p + 1);
      SeamsShrink(segs, p + 1, q);
      JoinSkips(segs, p, p + 1);
      SameCut(segs, p + 1, q);
    }
  }

  // The last mergeable boundary left is one of the plan's own, and the last of those before the cut.
  lemma LastSeam(segs: seq<Segment>, p: nat, i: nat)
    requires 0 < p <= |segs| && 0 < i < |JoinFrom(segs, p)|
    requires var r := JoinFrom(segs, p); Mergeable(r[i - 1], r[i]) && Seamless(r, i + 1)
    ensures i < p && Mergeable(segs[i - 1], segs[i])
    ensures Apart(segs, i + 1, p)
  {
    JoinFacts(segs, p);
    var r := JoinFrom(segs, p);
    forall b | 0 < b < p ensures Mergeable(segs[b - 1], segs[b]) == Mergeable(r[b - 1], r[b]) {
      assert r[..p - 1][b - 1] == segs[..p - 1][b - 1];
      assert b < p - 1 ==> r[..p - 1][b] == segs[..p - 1][b];
    }
  }

  lemma NoSeamLeft(segs: seq<Segment>, p: nat)
    requires 0 < p <= |segs| && Seamless(JoinFrom(segs, p), 1)
    ensures Seams(segs, 1) == Seams(segs, p)
  {
    JoinFacts(segs, p);
    var r := JoinFrom(segs, p);
    forall b | 0 < b < p ensures !Mergeable(segs[b - 1], segs[b]) {
      assert r[..p - 1][b - 1] == segs[..p - 1][b - 1];
      assert b < p - 1 ==> r[..p - 1][b] == segs[..p - 1][b];
      assert !Mergeable(r[b - 1], r[b]);
    }
    JoinSkips(segs, 1, p);
  }

  // Any cut with the right number of mergeable boundaries behind it is the closed form's.
  lemma CutIsCoalesced(segs: seq<Segment>, max: int, p: nat)
    requires 0 < p <= |segs| && Seams(segs, p) == Excess(segs, max)
    ensures JoinFrom(segs, p) == Coalesced(segs, max)
  {
    var c := Cut(segs, max);
    CutIsExact(segs, Excess(segs, max), |segs|);
    if p <= c {
      SameCut(segs, p, c);
    } else {
      SameCut(segs, c, p);
    }
  }

  lemma {:induction false} SeamsShrink(segs: seq<Segment>, p: nat, q: nat)
    requires 0 < p <= q
    ensures Seams(segs, q) <= Seams(segs, p)
    decreases q - p
  {
    if p < q {
      SeamsShrink(segs, p + 1, q);
    }
  }

  // Merging brings in no new kind of segment.
  lemma {:induction false} JoinKinds(segs: seq<Segment>, p: nat)
    requires p > 0
    ensures forall r | r in JoinFrom(segs, p) :: exists s | s in segs :: s.kind == r.kind
    decreases |segs|
  {
    if |segs| > 1 {
      var q := if p > 1 then p - 1 else 1;
      JoinKinds(segs[1..], q);
      var rest := JoinFrom(segs[1..], q);
      forall r | r in JoinFrom(segs, p) ensures exists s | s in segs :: s.kind == r.kind {
        assert segs[0] in segs;
        if r in rest {
          var s :| s in segs[1..] && s.kind == r.kind;
          assert s in segs;
        } else {
          assert r.kind == segs[0].kind;
        }
      }
    }
  }

  // Merges neighbours from the last pair backwards while there are more writes than were granted.
  method Coalesce(segs: seq<Segment>, max: int) returns (out: seq<Segment>)
    ensures out == Coalesced(segs, max)
  {
    hide JoinFrom, CutAt, Cut, Coalesced, Join, Mergeable;
    if max < 1 || |segs| <= max {
      CoalescedLaws(segs, max);
      return segs;
    }
    out := segs;
    ghost var p := |segs|;
    JoinNothing(segs);
    while |out| > max
      invariant 0 < p <= |segs| && out == JoinFrom(segs, p)
      invariant max <= |out| == |segs| - Seams(segs, p)
    {
      JoinFacts(segs, p);
      var i := -1;
      var j := |out| - 1;
      while j >= 1
        invariant 0 <= j < |out| && i == -1
        invariant Seamless(out, j + 1)
      {
        if Mergeable(out[j - 1], out[j]) {
          i := j;
          break;
        }
        j := j - 1;
      }
      if i < 0 {
        NoSeamLeft(segs, p);
        break;
      }
      LastSeam(segs, p, i);
      JoinOneMore(segs, p, i);
      out := out[..i - 1] + [Join(out[i - 1], out[i])] + out[i + 1..];
      p := i;
    }
    SeamsShrink(segs, 1, p);
    CutIsCoalesced(segs, max, p);
  }
}
