// What the parse of a request head depends on: nothing after the head, and nothing yet to come.
module HttpLaws {
  import opened Settings
  import opened HttpHead

  function ShiftAll(fields: seq<Field>, d: nat): (r: seq<Field>)
    ensures |r| == |fields|
  {
    seq(|fields|, i requires 0 <= i < |fields| => fields[i].Shifted(d))
  }

  function ShiftScan(s: Scan, d: nat): Scan {
    Scan(ShiftAll(s.fields, d), if s.end.Some? then Some(s.end.value + d) else None)
  }

  lemma ShiftByZero(s: Scan)
    ensures ShiftScan(s, 0) == s
  {
  }

  // A common prefix, seen from n on.
  lemma PrefixFrom(s: string, t: string, e: nat, n: nat)
    requires n <= e <= |s| && s[..e] <= t
    ensures s[n..][..e - n] <= t[n..] && s[..n] == t[..n]
  {
  }

  lemma LineFacts(s: string)
    requires FirstLine(s).Some?
    ensures var l := FirstLine(s).value;
      && s[l.next - 1] == '\n' && (forall j | 0 <= j < l.next - 1 :: s[j] != '\n')
      && l.len == l.next - (if l.next >= 2 && s[l.next - 2] == '\r' then 2 else 1)
  {
  }

  lemma LineUnique(s: string, next: nat)
    requires 0 < next <= |s| && s[next - 1] == '\n' && forall j | 0 <= j < next - 1 :: s[j] != '\n'
    ensures FirstLine(s).Some? && FirstLine(s).value.next == next
    ensures FirstLine(s).value.len == next - (if next >= 2 && s[next - 2] == '\r' then 2 else 1)
  {
  }

  lemma FirstLinePrefix(s: string, t: string)
    requires FirstLine(s).Some? && s[..FirstLine(s).value.next] <= t
    ensures FirstLine(t) == FirstLine(s)
  {
    var l := FirstLine(s).value;
    LineFacts(s);
    assert forall j | 0 <= j < l.next :: t[j] == s[..l.next][j];
    LineUnique(t, l.next);
  }

  lemma FieldAtShifts(line: string, at: nat, d: nat)
    ensures FieldAt(line, at + d) == ShiftAll(FieldAt(line, at), d)
  {
  }

  lemma AheadShifts(fields: seq<Field>, rest: Scan, d: nat)
    ensures ShiftScan(Ahead(fields, rest), d) == Ahead(ShiftAll(fields, d), ShiftScan(rest, d))
  {
  }

  // The walk that meets the end of the head depends on the octets up to there, and on nothing else.
  lemma {:induction false} WalkPrefix(s: string, at: nat, e: nat, t: string, d: nat)
    requires Walk(s, at).end == Some(at + e) && e <= |s| && s[..e] <= t
    ensures Walk(t, at + d) == ShiftScan(Walk(s, at), d)
    decreases |s|
  {
    hide FirstLine, ShiftAll, FieldAt, ShiftScan, Walk;
    WalkEnds(s, at);
    WalkUnfolds(s, at);
    var l := FirstLine(s).value;
    PrefixFrom(s, t, e, l.next);
    PrefixFrom(s, t, e, l.len);
    FirstLinePrefix(s, t);
    WalkUnfolds(t, at + d);
    if l.len > 0 {
      var rest := Walk(s[l.next..], at + l.next);
      WalkPrefix(s[l.next..], at + l.next, e - l.next, t[l.next..], d);
      FieldAtShifts(s[..l.len], at, d);
      AheadShifts(FieldAt(s[..l.len], at), rest, d);
    } else {
      ShiftEmpty(at + e, d);
    }
  }

  lemma ShiftEmpty(e: nat, d: nat)
    ensures ShiftScan(Scan([], Some(e)), d) == Scan([], Some(e + d))
  {
  }

  lemma {:induction false} WalkEnds(s: string, at: nat)
    ensures var w := Walk(s, at); w.end.Some? ==>
      && FirstLine(s).Some? && at + FirstLine(s).value.next <= w.end.value <= at + |s|
      && (FirstLine(s).value.len == 0 ==> w.end.value == at + FirstLine(s).value.next)
    decreases |s|
  {
    hide FirstLine, FieldAt;
    var line := FirstLine(s);
    if line.Some? && line.value.len > 0 {
      WalkEnds(s[line.value.next..], at + line.value.next);
    }
  }

  lemma BothStart(b: string, off: nat, limit: nat, e: nat)
    requires off <= limit <= |b| && e <= limit - off
    ensures b[off..limit][..e] <= b[off..] && b[off..][..e] <= b[off..limit]
  {
    SliceOfSlice(b, off, limit, e);
    SliceOfSlice(b, off, |b|, e);
    assert b[off..|b|] == b[off..];
  }

  // The limit only cuts the walk short.
  lemma Bounded(b: string, off: nat)
    requires off <= |b|
    ensures Headers(b, off).end.Some? <==> Walk(b[off..], off).end.Some? && Walk(b[off..], off).end.value <= MAX_HEAD
    ensures Headers(b, off).end.Some? ==> Headers(b, off) == Walk(b[off..], off)
    ensures Headers(b, off).end.Some? ==> off < Headers(b, off).end.value <= |b|
  {
    hide Walk;
    var limit := Limit(b);
    if off <= limit {
      var h, w := b[off..limit], b[off..];
      WalkEnds(h, off);
      WalkEnds(w, off);
      if Walk(h, off).end.Some? {
        var e := Walk(h, off).end.value - off;
        BothStart(b, off, limit, e);
        WalkPrefix(h, off, e, w, 0);
        ShiftByZero(Walk(h, off));
      } else if Walk(w, off).end.Some? && Walk(w, off).end.value <= limit {
        var e := Walk(w, off).end.value - off;
        BothStart(b, off, limit, e);
        WalkPrefix(w, off, e, h, 0);
      }
    } else {
      WalkEnds(b[off..], off);
    }
  }

  lemma ParseLinePrefix(b: string, c: string)
    requires FirstLine(b).Some? && b[..FirstLine(b).value.next] <= c
    ensures ParseLine(c) == ParseLine(b) && FirstLine(c) == FirstLine(b)
  {
    hide LineParts;
    FirstLinePrefix(b, c);
    hide FirstLine;
    var l := FirstLine(b).value;
    assert c[..l.len] == c[..l.next][..l.len] == b[..l.len];
  }

  predicate Whole(b: string) {
    Parsed(b).Some? && Parsed(b).value.complete
  }

  // A complete head: its request line, and the walk over its fields without any limit.
  lemma WholeHead(b: string) returns (l: RequestLine, w: Scan)
    requires Whole(b)
    ensures ParseLine(b) == Some(l) && FirstLine(b).Some? && l.next == FirstLine(b).value.next <= |b|
    ensures w == Walk(b[l.next..], l.next) == Headers(b, l.next)
    ensures w.end.Some? && l.next < w.end.value <= |b| && w.end.value <= MAX_HEAD
    ensures Parsed(b).value == Assemble(l, w) && Parsed(b).value.headerEnd == w.end.value
  {
    l := ParseLine(b).value;
    Bounded(b, l.next);
    w := Headers(b, l.next);
  }

  // Any buffer with this request line parses as its walk says, complete exactly when the head ends in time.
  lemma ParsedAs(b: string, l: RequestLine)
    requires ParseLine(b) == Some(l) && l.next <= |b| && Walk(b[l.next..], l.next).end.Some?
    ensures Whole(b) <==> Walk(b[l.next..], l.next).end.value <= MAX_HEAD
    ensures Whole(b) ==> Parsed(b) == Some(Assemble(l, Walk(b[l.next..], l.next)))
    ensures Whole(b) ==> Headers(b, l.next) == Walk(b[l.next..], l.next)
    ensures Parsed(b).Some?
  {
    Bounded(b, l.next);
  }

  function HeadEnd(b: string): (e: nat)
    requires Whole(b)
    ensures e == Parsed(b).value.headerEnd && e <= |b|
  {
    Bounded(b, ParseLine(b).value.next);
    Parsed(b).value.headerEnd
  }

  // Head locality: whatever follows the head, the whole result is the same.
  lemma HeadLocality(b: string, c: string)
    requires Whole(b)
    ensures Parsed(b[..HeadEnd(b)] + c) == Parsed(b)
  {
    SameHead(b, b[..HeadEnd(b)] + c);
  }

  lemma SameHead(b: string, b': string)
    requires Whole(b) && b[..HeadEnd(b)] <= b'
    ensures Parsed(b') == Parsed(b)
  {
    hide Parsed, Headers, ParseLine, Assemble, Walk, FirstLine;
    var l, w := WholeHead(b);
    var e := HeadEnd(b);
    PrefixFrom(b, b', e, l.next);
    ParseLinePrefix(b, b');
    WalkPrefix(b[l.next..], l.next, e - l.next, b'[l.next..], 0);
    ShiftByZero(w);
    ParsedAs(b', l);
  }

  // ---------------------------------------------------------------- offsets

  predicate Inside(f: Field, b: string, from: nat, to: nat) {
    && from <= f.ns < f.ne < f.vs + 1 && f.vs <= f.ve < to <= |b|
    && b[f.ns..f.ne] == f.name && b[f.ne] == ':' && b[f.vs..f.ve] == f.value
  }

  lemma FieldInside(line: string, at: nat, b: string, next: nat)
    requires at + |line| < next <= |b| && b[at..at + |line|] == line
    ensures FieldAt(line, at) != [] ==> Inside(FieldAt(line, at)[0], b, at, next)
  {
    hide FieldAt;
    if FieldAt(line, at) != [] {
      FieldParts(line, at);
      var f := FieldAt(line, at)[0];
      SubSlice(b, at, at + |line|, 0, f.ne - at);
      SubSlice(b, at, at + |line|, f.vs - at, f.ve - at);
      assert line[f.ne - at] == b[at..at + |line|][f.ne - at];
    }
  }

  // A field's parts on its own line.
  lemma FieldParts(line: string, at: nat)
    requires FieldAt(line, at) != []
    ensures var f := FieldAt(line, at)[0];
      && f.ns == at < f.ne < f.vs + 1 && f.vs <= f.ve <= at + |line| && f.ne < at + |line|
      && f.name == line[..f.ne - at] && line[f.ne - at] == ':' && f.value == line[f.vs - at..f.ve - at]
  {
    hide SkipOWS, TrimOWS, IsOWS;
  }

  lemma SubSlice(b: string, i: nat, j: nat, p: nat, q: nat)
    requires i <= j <= |b| && p <= q <= j - i
    ensures b[i..j][p..q] == b[i + p..i + q]
  {
    forall k | 0 <= k < q - p ensures b[i..j][p..q][k] == b[i + p..i + q][k] {
      assert b[i..j][p + k] == b[i + (p + k)];
    }
  }

  lemma {:induction false} FieldsInside(b: string, at: nat)
    requires at <= |b|
    ensures var w := Walk(b[at..], at); forall f | f in w.fields ::
      Inside(f, b, at, if w.end.Some? then w.end.value else |b|)
    decreases |b| - at
  {
    hide FirstLine, FieldAt, Inside, Walk;
    var s := b[at..];
    var line := FirstLine(s);
    WalkUnfolds(s, at);
    WalkEnds(s, at);
    if line.Some? && line.value.len > 0 {
      var l := line.value;
      SliceOfSlice(b, at, |b|, l.next);
      SliceOfSlice(b, at, |b|, l.len);
      assert b[at..|b|] == s && b[at + l.next..|b|] == b[at + l.next..];
      FieldInside(s[..l.len], at, b, at + l.next);
      FieldsInside(b, at + l.next);
      var end := if Walk(s, at).end.Some? then Walk(s, at).end.value else |b|;
      WalkEnds(b[at + l.next..], at + l.next);
      AllInside(FieldAt(s[..l.len], at), Walk(b[at + l.next..], at + l.next).fields, b, at, at + l.next, end);
    }
  }

  lemma AllInside(first: seq<Field>, rest: seq<Field>, b: string, at: nat, next: nat, end: nat)
    requires at <= next <= end <= |b| && |first| <= 1
    requires first != [] ==> Inside(first[0], b, at, next)
    requires forall f | f in rest :: Inside(f, b, next, end)
    ensures forall f | f in first + rest :: Inside(f, b, at, end)
  {
    forall f | f in first + rest ensures Inside(f, b, at, end) {
      if f in first {
        assert f == first[0];
      }
    }
  }

  lemma {:induction false} PickIsOne(fields: seq<Field>, kept: Option<Field>)
    ensures var p := Pick(fields, kept); p.Some? && p != kept ==> p.value in fields && IsHost(p.value)
    decreases |fields|
  {
    if fields != [] {
      PickIsOne(fields[1..], kept);
      PickIsOne(fields[1..], Some(fields[0]));
    }
  }

  // Every offset lies inside the head, in order, on the octets it names.
  lemma OffsetsNest(b: string)
    requires Whole(b) && Parsed(b).value.nameStart >= 0
    ensures var r := Parsed(b).value;
      && FirstLine(b).Some? && FirstLine(b).value.next <= r.nameStart < r.nameEnd < r.valueStart + 1
      && r.valueStart == r.hostStart <= r.hostEnd <= r.valueEnd < r.headerEnd <= |b|
      && EqualFold(b[r.nameStart..r.nameEnd], "host") && b[r.nameEnd] == ':'
      && b[r.hostStart..r.hostEnd] == r.host
      && r.hostEnd - r.hostStart == HostLen(b[r.valueStart..r.valueEnd])
  {
    hide Walk, Headers, ParseLine, FirstLine, Pick, HostLen;
    var l, w := WholeHead(b);
    FieldsInside(b, l.next);
    PickIsOne(w.fields, None);
    var f := Pick(w.fields, None).value;
    assert Inside(f, b, l.next, w.end.value);
    SliceOfSlice(b, f.vs, f.ve, HostLen(f.value));
  }

  // ---------------------------------------------------------------- streaming

  lemma LongerStarts(b: string, c: string, m: string)
    ensures Starts(b + c, m) ==> Starts(b, m)
  {
    assert |m| <= |b| ==> (b + c)[..|m|] == b[..|m|];
    assert |m| > |b| ==> (b + c)[..|b|] == b;
  }

  lemma DetectedWhenLonger(b: string, c: string)
    requires b != "" && !Detected(b)
    ensures !Detected(b + c)
  {
    forall i | 0 <= i < |METHODS| ensures !Starts(b + c, METHODS[i]) {
      LongerStarts(b, c, METHODS[i]);
    }
  }

  lemma ParsedIsDetected(b: string)
    requires ParseLine(b).Some?
    ensures Detected(b)
  {
    var m := ParseLine(b).value.method_;
    var i :| 0 <= i < |METHODS| && METHODS[i] == m;
    var l := FirstLine(b).value;
    var sp := IndexOf(b[..l.len], ' ');
    assert b[sp] == ' ' && m == b[..sp];
    assert Starts(b, METHODS[i]);
  }

  // Both final answers stand however the buffer grows: "complete", and "never HTTP" once there is
  // anything at all.
  lemma NeedStands(b: string, c: string)
    ensures Need(b) == (0, true) ==> Need(b + c) == (0, true)
    ensures b != "" && Need(b) == (0, false) ==> Need(b + c) == (0, false)
  {
    hide Assemble, Headers, FirstLine, Detected, Walk;
    if Need(b) == (0, true) {
      SameHead(b, b + c);
      ParsedIsDetected(b + c);
    } else if b != "" && Need(b) == (0, false) {
      if !Detected(b) {
        DetectedWhenLonger(b, c);
      } else {
        var l := FirstLine(b).value;
        assert b[..l.next] <= b + c;
        ParseLinePrefix(b, b + c);
      }
    }
  }

  // Nothing buffered is also answered "never HTTP", and that one does not stand.
  lemma NeedOfNothing()
    ensures Need("") == (0, false) && Need("" + "G") == (1, true)
  {
    assert "G" <= METHODS[0];
    assert Starts("G", METHODS[0]);
    assert IndexOf("G", '\n') == -1;
  }
}
