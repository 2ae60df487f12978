// The rewriters of a request head (internal/httpmsg/mangle.go) and the replay gate (idempotent.go).
module HttpMangle {
  import opened Settings
  import opened HttpHead
  import opened HttpLaws

  const MIN_PAD := 9
  const MAX_PAD := 16384

  datatype Refusal = NotRequest | Incomplete | NoHost | BadSpell | AlreadyDotted | PadRange | HostIsLiteral

  datatype Rewrite = Rewritten(out: string) | Refused(why: Refusal)

  // Why b may not be rewritten at all, when it may not.
  function HostReq(b: string): Option<Refusal> {
    match Parsed(b)
    case None => Some(NotRequest)
    case Some(r) => if !r.complete then Some(Incomplete) else if !r.HasHost() then Some(NoHost) else None
  }

  predicate IsIPLiteral(h: string) {
    h != "" && (h[0] == '[' || forall i | 0 <= i < |h| :: '0' <= h[i] <= '9' || h[i] == '.')
  }

  function Filler(n: nat): string {
    seq(n, _ => 'a')
  }

  function Pad(n: nat): string
    requires n >= MIN_PAD
  {
    "X-Pad: " + Filler(n - MIN_PAD) + "\r\n"
  }

  lemma HostInRange(b: string)
    requires HostReq(b).None?
    ensures var r := Parsed(b).value;
      0 <= r.nameStart < r.nameEnd < r.hostStart + 1 && r.hostStart < r.hostEnd < r.headerEnd <= |b|
      && r.nameEnd == r.nameStart + 4
  {
    hide Walk, Headers, ParseLine, FirstLine, Pick, HostLen;
    var l, w := WholeHead(b);
    OffsetsNest(b);
  }

  // Where the Host field that is rewritten stands.
  datatype Spot = Spot(nameStart: nat, nameEnd: nat, hostStart: nat, hostEnd: nat)

  function HostSpot(b: string): (s: Spot)
    requires HostReq(b).None?
    ensures s.nameStart < s.nameEnd < s.hostStart + 1 && s.hostStart < s.hostEnd < |b| && s.nameEnd == s.nameStart + 4
  {
    HostInRange(b);
    var r := Parsed(b).value;
    Spot(r.nameStart, r.nameEnd, r.hostStart, r.hostEnd)
  }

  function Respelled(b: string, spell: string): Rewrite {
    if !EqualFold(spell, "host") then Refused(BadSpell)
    else if HostReq(b).Some? then Refused(HostReq(b).value)
    else
      var s := HostSpot(b);
      if b[s.nameStart..s.nameEnd] == spell then Refused(BadSpell)
      else Rewritten(b[..s.nameStart] + spell + b[s.nameEnd..])
  }

  function Dotted(b: string): Rewrite {
    if HostReq(b).Some? then Refused(HostReq(b).value)
    else
      var s := HostSpot(b);
      if IsIPLiteral(b[s.hostStart..s.hostEnd]) then Refused(HostIsLiteral)
      else if b[s.hostEnd - 1] == '.' then Refused(AlreadyDotted)
      else Rewritten(b[..s.hostEnd] + "." + b[s.hostEnd..])
  }

  function Padded(b: string, n: int): Rewrite {
    if n < MIN_PAD || n > MAX_PAD then Refused(PadRange)
    else if HostReq(b).Some? then Refused(HostReq(b).value)
    else
      var s := HostSpot(b);
      Rewritten(b[..s.nameStart] + Pad(n) + b[s.nameStart..])
  }

  // ---------------------------------------------------------------- the rewriters

  method RequireHost(b: string) returns (why: Option<Refusal>, s: Spot)
    ensures why == HostReq(b) && (why.None? ==> s == HostSpot(b))
  {
    s := Spot(0, 0, 0, 0);
    var r := Parse(b);
    if r.None? {
      return Some(NotRequest), s;
    }
    if !r.value.complete {
      return Some(Incomplete), s;
    }
    if !r.value.HasHost() {
      return Some(NoHost), s;
    }
    HostInRange(b);
    return None, Spot(r.value.nameStart, r.value.nameEnd, r.value.hostStart, r.value.hostEnd);
  }

  // Rewrites the name of the Host field in a copy of b.
  method HostSpell(b: string, spell: string) returns (res: Rewrite)
    ensures res == Respelled(b, spell)
  {
    if !EqualFold(spell, "host") {
      return Refused(BadSpell);
    }
    var why, s := RequireHost(b);
    if why.Some? {
      return Refused(why.value);
    }
    if b[s.nameStart..s.nameEnd] == spell {
      return Refused(BadSpell);
    }
    var out := Overwrite(b, s.nameStart, spell);
    res := Rewritten(out);
  }

  // A copy of b with patch over the octets from at on.
  method Overwrite(b: string, at: nat, patch: string) returns (res: string)
    requires at + |patch| <= |b|
    ensures res == b[..at] + patch + b[at + |patch|..]
  {
    var out := new char[|b|](i requires 0 <= i < |b| => b[i]);
    var i := 0;
    while i < |patch|
      invariant 0 <= i <= |patch|
      invariant forall j | 0 <= j < |b| :: out[j] == if at <= j < at + i then patch[j - at] else b[j]
    {
      out[at + i] := patch[i];
      i := i + 1;
    }
    assert out[..] == b[..at] + patch + b[at + |patch|..];
    res := out[..];
  }

  method HostDot(b: string) returns (res: Rewrite)
    ensures res == Dotted(b)
  {
    hide HostReq, HostSpot, IsIPLiteral;
    var why, s := RequireHost(b);
    if why.Some? {
      return Refused(why.value);
    }
    if IsIPLiteral(b[s.hostStart..s.hostEnd]) {
      return Refused(HostIsLiteral);
    }
    if b[s.hostEnd - 1] == '.' {
      return Refused(AlreadyDotted);
    }
    var out := b[..s.hostEnd];
    out := out + ".";
    out := out + b[s.hostEnd..];
    res := Rewritten(out);
  }

  // Inserts n octets of filler header just before the Host line.
  method HostPad(b: string, n: int) returns (res: Rewrite)
    ensures res == Padded(b, n)
  {
    if n < MIN_PAD || n > MAX_PAD {
      return Refused(PadRange);
    }
    var why, s := RequireHost(b);
    if why.Some? {
      return Refused(why.value);
    }
    var pad := "X-Pad: ";
    while |pad| < n - 2
      invariant 7 <= |pad| <= n - 2 && pad == "X-Pad: " + Filler(|pad| - 7)
    {
      pad := pad + ['a'];
    }
    pad := pad + "\r\n";
    var out := b[..s.nameStart];
    out := out + pad;
    out := out + b[s.nameStart..];
    res := Rewritten(out);
  }

  // ---------------------------------------------------------------- the walk around one line

  // The walk up to its k-th field, with anything at all from there on.
  lemma WalkUpTo(s: string, at: nat, k: nat, t: string)
    requires k < |Walk(s, at).fields|
    requires var f := Walk(s, at).fields[k]; at <= f.ns <= at + |s| ==> s[..f.ns - at] <= t
    ensures var w := Walk(s, at); at <= w.fields[k].ns <= at + |s|
    ensures var w := Walk(s, at); var j := w.fields[k].ns - at;
      && Walk(t, at) == Ahead(w.fields[..k], Walk(t[j..], at + j))
      && Walk(s[j..], at + j).fields == w.fields[k..] && Walk(s[j..], at + j).end == w.end
  {
    hide Walk, Ahead;
    WalksUpTo(s, at, k, t);
  }

  lemma {:induction false} WalksUpTo(s: string, at: nat, k: nat, t: string)
    requires k < |Walk(s, at).fields|
    requires var f := Walk(s, at).fields[k]; at <= f.ns <= at + |s| ==> s[..f.ns - at] <= t
    ensures UpTo(s, at, k, t)
    decreases |s|
  {
    hide FirstLine, FieldAt, Walk, Ahead, UpTo;
    WalkUnfolds(s, at);
    var l := FirstLine(s).value;
    var first, rest := FieldAt(s[..l.len], at), Walk(s[l.next..], at + l.next);
    AheadIs(first, rest);
    if k < |first| {
      WalkHere(s, at, t);
    } else {
      NextField(s, at, k);
      FieldsAfter(s[l.next..], at + l.next);
      var j := rest.fields[k - |first|].ns - at;
      SameFirst(s, t, at, l, j);
      WalksUpTo(s[l.next..], at + l.next, k - |first|, t[l.next..]);
      WalkThere(s, at, k, t, l);
    }
  }

  ghost predicate UpTo(s: string, at: nat, k: nat, t: string) {
    var w := Walk(s, at);
    && k < |w.fields| && at <= w.fields[k].ns <= at + |s| && w.fields[k].ns - at <= |t|
    && var j := w.fields[k].ns - at;
    && Walk(t, at) == Ahead(w.fields[..k], Walk(t[j..], at + j))
    && Walk(s[j..], at + j).fields == w.fields[k..] && Walk(s[j..], at + j).end == w.end
  }

  lemma NextField(s: string, at: nat, k: nat)
    requires k < |Walk(s, at).fields| && FirstLine(s).Some? && FirstLine(s).value.len > 0
    requires k >= |FieldAt(s[..FirstLine(s).value.len], at)|
    ensures var l := FirstLine(s).value;
      var first, rest := FieldAt(s[..l.len], at), Walk(s[l.next..], at + l.next);
      && k - |first| < |rest.fields| && Walk(s, at).fields[k] == rest.fields[k - |first|]
      && rest.fields[k - |first|] in rest.fields && Walk(s, at) == Ahead(first, rest)
  {
    hide FirstLine, FieldAt, Walk;
    WalkUnfolds(s, at);
  }

  // From the walk behind the first line to the walk over all of it.
  lemma WalkThere(s: string, at: nat, k: nat, t: string, l: Line)
    requires FirstLine(s) == Some(l) && l.len > 0 && l.next <= |t| && k < |Walk(s, at).fields|
    requires k >= |FieldAt(s[..l.len], at)| && UpTo(s[l.next..], at + l.next, k - |FieldAt(s[..l.len], at)|, t[l.next..])
    requires Walk(t, at) == Ahead(FieldAt(s[..l.len], at), Walk(t[l.next..], at + l.next))
    ensures UpTo(s, at, k, t)
  {
    hide FirstLine, FieldAt, Walk, Ahead;
    NextField(s, at, k);
    var first, rest := FieldAt(s[..l.len], at), Walk(s[l.next..], at + l.next);
    var k' := k - |first|;
    var j := rest.fields[k'].ns - at;
    AheadIs(first, rest);
    ConcatParts(first, rest.fields, k');
    DropDrop(s, l.next, j);
    DropDrop(t, l.next, j);
    AheadAgain(first, rest.fields[..k'], Walk(t[j..], at + j));
  }

  // The field on the first line.
  lemma WalkHere(s: string, at: nat, t: string)
    requires Walk(s, at).fields != [] && Walk(s, at).fields[0].ns == at
    ensures UpTo(s, at, 0, t)
  {
    hide Walk, Ahead;
    var w := Walk(s, at);
    assert s[0..] == s && t[0..] == t && w.fields[..0] == [] && w.fields[0..] == w.fields;
    AheadAgain([], [], Walk(t, at));
  }

  lemma AheadIs(first: seq<Field>, rest: Scan)
    ensures Ahead(first, rest) == Scan(first + rest.fields, rest.end)
  {
  }

  // Two heads that agree up to the j-th octet, behind the first line, begin with the same field.
  lemma SameFirst(s: string, t: string, at: nat, l: Line, j: nat)
    requires FirstLine(s) == Some(l) && l.len > 0 && l.next <= j <= |s| && s[..j] <= t
    ensures |t| >= l.next && s[l.next..][..j - l.next] <= t[l.next..]
    ensures Walk(t, at) == Ahead(FieldAt(s[..l.len], at), Walk(t[l.next..], at + l.next))
  {
    hide FirstLine, FieldAt, Walk, Ahead;
    LineFacts(s);
    PrefixFrom(s, t, j, l.next);
    PrefixFrom(s, t, j, l.len);
    FirstLinePrefix(s, t);
    WalkUnfolds(t, at);
  }

  lemma DropDrop(s: string, i: nat, j: nat)
    requires i <= j <= |s|
    ensures s[i..][j - i..] == s[j..]
  {
  }

  lemma ConcatParts(a: seq<Field>, b: seq<Field>, k: nat)
    requires k <= |b|
    ensures (a + b)[..|a| + k] == a + b[..k] && (a + b)[|a| + k..] == b[k..] && (k < |b| ==> (a + b)[|a| + k] == b[k])
  {
  }

  lemma {:induction false} FieldsAfter(s: string, at: nat)
    ensures forall f | f in Walk(s, at).fields :: at <= f.ns <= at + |s|
    decreases |s|
  {
    hide FirstLine, Walk;
    WalkUnfolds(s, at);
    if FirstLine(s).Some? && FirstLine(s).value.len > 0 {
      var l := FirstLine(s).value;
      FieldsAfter(s[l.next..], at + l.next);
      var first := FieldAt(s[..l.len], at);
      assert forall f | f in first :: f == first[0];
    }
  }

  // The first field that names a host is the one picked, whatever comes before and after.
  lemma {:induction false} PickFirst(fields: seq<Field>, k: nat, kept: Option<Field>)
    requires k < |fields| && Names(fields[k]) && forall i | 0 <= i < k :: !Names(fields[i])
    requires kept.Some? ==> HostLen(kept.value.value) == 0
    ensures Pick(fields, kept) == Some(fields[k])
    decreases k
  {
    hide HostLen;
    if k > 0 {
      assert !Names(fields[0]);
      PickFirst(fields[1..], k - 1, if IsHost(fields[0]) then Some(fields[0]) else kept);
    } else {
      PickStays(fields[1..], fields[0]);
    }
  }

  lemma {:induction false} PickStays(fields: seq<Field>, kept: Field)
    requires HostLen(kept.value) > 0
    ensures Pick(fields, Some(kept)) == Some(kept)
    decreases |fields|
  {
    if fields != [] {
      PickStays(fields[1..], kept);
    }
  }

  lemma {:induction false} PickNames(fields: seq<Field>, kept: Option<Field>) returns (k: nat)
    requires kept.Some? ==> HostLen(kept.value.value) == 0
    requires Pick(fields, kept).Some? && HostLen(Pick(fields, kept).value.value) > 0
    ensures k < |fields| && Names(fields[k]) && forall i | 0 <= i < k :: !Names(fields[i])
    decreases |fields|
  {
    hide HostLen;
    if Names(fields[0]) {
      k := 0;
    } else {
      k := PickNames(fields[1..], if IsHost(fields[0]) then Some(fields[0]) else kept);
      k := k + 1;
    }
  }

  // Where the field that names the host stands among all the fields.
  function Naming(fields: seq<Field>): (k: nat)
    ensures k <= |fields| && (k < |fields| ==> Names(fields[k])) && forall i | 0 <= i < k :: !Names(fields[i])
  {
    if fields == [] || Names(fields[0]) then 0 else 1 + Naming(fields[1..])
  }

  // ---------------------------------------------------------------- one line and its field

  // What makes line the line of a field, with its parts at these offsets.
  predicate Lies(line: string, colon: nat, vs: nat, ve: nat) {
    && 0 < colon < vs <= ve <= |line| && line[colon] == ':'
    && (forall j | 0 <= j < colon :: line[j] != ':')
    && (forall j | colon < j < vs :: IsOWS(line[j])) && (vs < |line| ==> !IsOWS(line[vs]))
    && (forall j | ve <= j < |line| :: IsOWS(line[j])) && (ve > vs ==> !IsOWS(line[ve - 1]))
  }

  lemma FieldLies(line: string, at: nat)
    requires FieldAt(line, at) != []
    ensures var f := FieldAt(line, at)[0];
      && f.ns == at < f.ne && f.ne < f.vs <= f.ve && Lies(line, f.ne - at, f.vs - at, f.ve - at)
      && f.name == line[..f.ne - at] && f.value == line[f.vs - at..f.ve - at]
  {
  }

  lemma {:induction false} SkipUnique(s: string, i: nat, r: nat)
    requires i <= r <= |s| && (forall j | i <= j < r :: IsOWS(s[j])) && (r < |s| ==> !IsOWS(s[r]))
    ensures SkipOWS(s, i) == r
    decreases r - i
  {
    if i < r {
      SkipUnique(s, i + 1, r);
    }
  }

  lemma {:induction false} TrimUnique(s: string, from: nat, i: nat, r: nat)
    requires from <= r <= i <= |s| && (forall j | r <= j < i :: IsOWS(s[j])) && (r > from ==> !IsOWS(s[r - 1]))
    ensures TrimOWS(s, from, i) == r
    decreases i
  {
    if r < i {
      TrimUnique(s, from, i - 1, r);
    }
  }

  lemma LiesUnique(line: string, colon: nat, vs: nat, ve: nat, at: nat)
    requires Lies(line, colon, vs, ve)
    ensures FieldAt(line, at) == [Field(at, at + colon, at + vs, at + ve, line[..colon], line[vs..ve])]
  {
    assert IndexOf(line, ':') == colon;
    SkipUnique(line, colon + 1, vs);
    TrimUnique(line, vs, |line|, ve);
  }

  // ---------------------------------------------------------------- the Host line taken out of its head

  // The parts of a head that can be rewritten: its request line, its walk, and which field is the host's.
  lemma HostField(b: string) returns (l: RequestLine, w: Scan, k: nat)
    requires HostReq(b).None?
    ensures Whole(b) && ParseLine(b) == Some(l) && FirstLine(b).Some? && l.next == FirstLine(b).value.next
    ensures l.next < |b| && w == Walk(b[l.next..], l.next) == Headers(b, l.next)
    ensures w.end.Some? && w.end.value == HeadEnd(b) <= |b| && w.end.value <= MAX_HEAD
    ensures k == Naming(w.fields) < |w.fields| && Pick(w.fields, None) == Some(w.fields[k])
    ensures Parsed(b) == Some(Assemble(l, w))
    ensures Inside(w.fields[k], b, l.next, w.end.value) && Names(w.fields[k])
    ensures var f := w.fields[k];
      HostSpot(b) == Spot(f.ns, f.ne, f.vs, f.vs + HostLen(f.value))
  {
    hide Walk, Headers, ParseLine, FirstLine, HostLen, Inside;
    l, w := WholeHead(b);
    k := PickNames(w.fields, None);
    PickFirst(w.fields, k, None);
    NamingIs(w.fields, k);
    FieldsInside(b, l.next);
    assert w.fields[k] in w.fields;
  }

  lemma NamingIs(fields: seq<Field>, k: nat)
    requires k < |fields| && Names(fields[k]) && forall i | 0 <= i < k :: !Names(fields[i])
    ensures Naming(fields) == k
  {
  }

  // The host's line, and the walk behind it.
  lemma HostLine(b: string, l: RequestLine, w: Scan, k: nat) returns (ln: Line)
    requires l.next <= |b| && w == Walk(b[l.next..], l.next) && w.end.Some? && k < |w.fields|
    ensures l.next <= w.fields[k].ns <= |b|
    ensures var f := w.fields[k]; var s := b[f.ns..];
      && Walk(s, f.ns) == Scan(w.fields[k..], w.end)
      && FirstLine(s) == Some(ln) && 0 < ln.len && FieldAt(s[..ln.len], f.ns) == [f]
      && Walk(s[ln.next..], f.ns + ln.next) == Scan(w.fields[k + 1..], w.end)
  {
    hide Walk, FirstLine, FieldAt;
    var f := w.fields[k];
    WalkUpTo(b[l.next..], l.next, k, b[l.next..]);
    assert b[l.next..][f.ns - l.next..] == b[f.ns..];
    var s := b[f.ns..];
    WalkUnfolds(s, f.ns);
    ln := FirstLine(s).value;
    FieldsAfter(s[ln.next..], f.ns + ln.next);
    var rest := Walk(s[ln.next..], f.ns + ln.next);
    var first := FieldAt(s[..ln.len], f.ns);
    assert w.fields[k..][0] == f;
    FirstComesFirst(first, rest.fields, f, f.ns + ln.next);
    assert (first + rest.fields)[1..] == rest.fields && w.fields[k..][1..] == w.fields[k + 1..];
  }

  lemma FirstComesFirst(first: seq<Field>, rest: seq<Field>, f: Field, next: nat)
    requires |first| <= 1 && first + rest != [] && (first + rest)[0] == f && f.ns < next
    requires forall g | g in rest :: next <= g.ns
    ensures first == [f]
  {
    assert forall g | g in rest :: g != f;
  }

  // A buffer that is b up to the host's line and anything at all from there on.
  lemma Rebuilt(b: string, l: RequestLine, w: Scan, k: nat, x: string)
    requires ParseLine(b) == Some(l) && FirstLine(b).Some? && l.next == FirstLine(b).value.next
    requires w == Walk(b[l.next..], l.next) && w.end.Some? && k < |w.fields| && l.next <= w.fields[k].ns <= |b|
    ensures var out := b[..w.fields[k].ns] + x;
      && ParseLine(out) == Some(l) && l.next <= |out|
      && Walk(out[l.next..], l.next) == Ahead(w.fields[..k], Walk(x, w.fields[k].ns))
  {
    hide Walk, ParseLine, FirstLine;
    var ns := w.fields[k].ns;
    var out := b[..ns] + x;
    assert b[..l.next] == out[..l.next];
    ParseLinePrefix(b, out);
    assert b[l.next..][..ns - l.next] <= out[l.next..];
    WalkUpTo(b[l.next..], l.next, k, out[l.next..]);
    assert out[l.next..][ns - l.next..] == x;
  }

  // ---------------------------------------------------------------- what rewriting keeps

  function Pairs(fields: seq<Field>): (r: seq<(string, string)>)
    ensures |r| == |fields|
  {
    seq(|fields|, i requires 0 <= i < |fields| => (fields[i].name, fields[i].value))
  }

  // Every header of b, by name and value, in order.
  function HeaderList(b: string): seq<(string, string)> {
    if ParseLine(b).None? then [] else Pairs(Headers(b, ParseLine(b).value.next).fields)
  }

  // Which header of b names the host.
  function HostAt(b: string): nat {
    if ParseLine(b).None? then 0 else Naming(Headers(b, ParseLine(b).value.next).fields)
  }

  // The fields before the host's, then these, then the walk behind: what the rewritten head parses to.
  lemma Reassembled(out: string, l: RequestLine, before: seq<Field>, now: seq<Field>, rest: Scan, at: nat)
    requires ParseLine(out) == Some(l) && l.next <= |out| && rest.end.Some?
    requires Walk(out[l.next..], l.next) == Ahead(before, Ahead(now, rest))
    requires at < |now| && Names(now[at]) && (forall i | 0 <= i < at :: !Names(now[i]))
    requires forall f | f in before :: !Names(f)
    ensures Parsed(out).Some?
    ensures Whole(out) <==> rest.end.value <= MAX_HEAD
    ensures Whole(out) ==>
      && Parsed(out) == Some(Assemble(l, Scan(before + now + rest.fields, rest.end)))
      && Pick(before + now + rest.fields, None) == Some(now[at])
      && HeaderList(out) == Pairs(before) + Pairs(now) + Pairs(rest.fields)
  {
    hide Walk, Headers, ParseLine, Names, HostLen, Assemble, Pairs;
    ParsedAs(out, l);
    assert Ahead(before, Ahead(now, rest)) == Scan(before + now + rest.fields, rest.end) by {
      AheadAgain(before, now, rest);
    }
    PickAmong(before, now, rest.fields, at);
    PairsConcat(before, now);
    PairsConcat(before + now, rest.fields);
  }

  lemma PairsConcat(a: seq<Field>, b: seq<Field>)
    ensures Pairs(a + b) == Pairs(a) + Pairs(b)
  {
  }

  lemma PickAmong(before: seq<Field>, now: seq<Field>, rest: seq<Field>, at: nat)
    requires at < |now| && Names(now[at]) && (forall i | 0 <= i < at :: !Names(now[i]))
    requires forall f | f in before :: !Names(f)
    ensures Pick(before + now + rest, None) == Some(now[at])
  {
    hide Names, Pick;
    var all := before + now + rest;
    forall i | 0 <= i < |before| + at ensures !Names(all[i]) {
      assert i < |before| ==> all[i] == before[i] && before[i] in before;
      assert i >= |before| ==> all[i] == now[i - |before|];
    }
    assert all[|before| + at] == now[at];
    PickFirst(all, |before| + at, None);
  }

  lemma BeforeNaming(fields: seq<Field>)
    ensures forall f | f in fields[..Naming(fields)] :: !Names(f)
    ensures var k := Naming(fields); k < |fields| ==> Pairs(fields) == Pairs(fields[..k]) + Pairs([fields[k]]) + Pairs(fields[k + 1..])
  {
    hide Names, Pairs;
    if Naming(fields) < |fields| {
      PairsAround(fields, Naming(fields));
    }
  }

  lemma PairsAround(fields: seq<Field>, k: nat)
    requires k < |fields|
    ensures Pairs(fields) == Pairs(fields[..k]) + Pairs([fields[k]]) + Pairs(fields[k + 1..])
  {
  }

  // Respelling keeps the whole parse, every other header, and every octet but the name's.
  lemma SpellKeeps(b: string, spell: string, out: string)
    requires Respelled(b, spell) == Rewritten(out)
    ensures Whole(b) && Parsed(out) == Parsed(b) && |out| == |b|
    ensures var k := HostAt(b); k < |HeaderList(b)| && HeaderList(out) == HeaderList(b)[k := (spell, HeaderList(b)[k].1)]
    ensures out[HeadEnd(b)..] == b[HeadEnd(b)..]
  {
    hide Walk, Headers, ParseLine, FirstLine, HostLen, FieldAt, EqualFold, Lies, Naming, Pick;
    var l, w, k := HostField(b);
    var f := w.fields[k];
    var ln := HostLine(b, l, w, k);
    var s := b[f.ns..];
    var x := spell + s[4..];
    assert out == b[..f.ns] + x;
    Rebuilt(b, l, w, k, x);
    var f' := f.(name := spell);
    SpelledWalk(s, f, spell, ln);
    BeforeNaming(w.fields);
    NamesKept(f, f');
    Reassembled(out, l, w.fields[..k], [f'], Scan(w.fields[k + 1..], w.end), 0);
    assert Pairs([f'])[0] == (spell, f.value);
    assert HeaderList(b) == Pairs(w.fields);
  }

  lemma SpelledWalk(s: string, f: Field, spell: string, ln: Line)
    requires FirstLine(s) == Some(ln) && ln.len > 0 && FieldAt(s[..ln.len], f.ns) == [f] && IsHost(f) && EqualFold(spell, "host")
    ensures |s| >= 4 && |spell| == 4 && ln.next <= |s|
    ensures Walk(spell + s[4..], f.ns) == Ahead([f.(name := spell)], Walk(s[ln.next..], f.ns + ln.next))
  {
    hide Walk, FirstLine, FieldAt, EqualFold, IsHost;
    LongLine(s, f, ln);
    var x := spell + s[4..];
    SpelledLine(s, f, spell, ln);
    LineFacts(s);
    WalkUnfolds(x, f.ns);
    assert x[ln.next..] == s[ln.next..];
  }

  lemma LongLine(s: string, f: Field, ln: Line)
    requires FirstLine(s) == Some(ln) && FieldAt(s[..ln.len], f.ns) == [f] && IsHost(f)
    ensures 4 < ln.len < ln.next <= |s| && |s| > 4
  {
    hide FirstLine, FieldAt, EqualFold;
    LineFacts(s);
    FieldLies(s[..ln.len], f.ns);
    PlainName(f.name);
  }

  lemma NamesKept(f: Field, g: Field)
    requires Names(f) && (EqualFold(g.name, "host") || g.name == f.name) && g.value == f.value
    ensures Names(g)
  {
  }

  lemma SpelledLine(s: string, f: Field, spell: string, ln: Line)
    requires FirstLine(s) == Some(ln) && FieldAt(s[..ln.len], f.ns) == [f] && IsHost(f) && EqualFold(spell, "host")
    ensures |s| >= 4 && |spell| == 4
    ensures FirstLine(spell + s[4..]) == Some(ln)
    ensures FieldAt((spell + s[4..])[..ln.len], f.ns) == [f.(name := spell)]
  {
    hide FirstLine, FieldAt, EqualFold;
    PlainName(spell);
    SpelledField(s[..ln.len], f, spell);
    LineFacts(s);
    var x := spell + s[4..];
    assert forall j | 4 <= j < |s| :: x[j] == s[j];
    LineUnique(x, ln.next);
    assert x[..ln.len] == spell + s[..ln.len][4..];
  }

  lemma SpelledField(line: string, f: Field, spell: string)
    requires FieldAt(line, f.ns) == [f] && IsHost(f) && EqualFold(spell, "host")
    ensures |line| > 4 && |spell| == 4
    ensures FieldAt(spell + line[4..], f.ns) == [f.(name := spell)]
  {
    hide FieldAt, EqualFold, IsOWS;
    FieldLies(line, f.ns);
    PlainName(spell);
    PlainName(f.name);
    var line' := spell + line[4..];
    SpelledLies(line, spell, f.vs - f.ns, f.ve - f.ns);
    hide Lies;
    LiesUnique(line', 4, f.vs - f.ns, f.ve - f.ns, f.ns);
    assert line'[..4] == spell;
    SpelledSlice(line, spell, f.vs - f.ns, f.ve - f.ns);
  }

  lemma SpelledSlice(line: string, spell: string, vs: nat, ve: nat)
    requires |spell| == 4 <= vs <= ve <= |line|
    ensures (spell + line[4..])[vs..ve] == line[vs..ve]
  {
  }

  lemma SpelledLies(line: string, spell: string, vs: nat, ve: nat)
    requires Lies(line, 4, vs, ve) && |spell| == 4 && forall j | 0 <= j < 4 :: spell[j] != ':'
    ensures Lies(spell + line[4..], 4, vs, ve)
  {
    hide IsOWS;
    var line' := spell + line[4..];
    assert forall j | 0 <= j < 4 :: line'[j] == spell[j];
    assert forall j | 4 <= j < |line| :: line'[j] == line[j];
  }

  // A spelling of "host" has nothing in it that a walk looks for.
  lemma PlainName(spell: string)
    requires EqualFold(spell, "host")
    ensures |spell| == 4 && forall j | 0 <= j < 4 :: spell[j] != ':' && spell[j] != '\n' && spell[j] != '\r'
  {
    forall j | 0 <= j < 4 ensures spell[j] != ':' && spell[j] != '\n' && spell[j] != '\r' {
      assert Lower(spell[j]) == Lower("host"[j]);
    }
  }

  // The request as it is after n more octets in front of the host's line.
  function Moved(r: Request, n: nat): Request {
    r.(headerEnd := r.headerEnd + n, nameStart := r.nameStart + n, nameEnd := r.nameEnd + n,
       valueStart := r.valueStart + n, valueEnd := r.valueEnd + n, hostStart := r.hostStart + n, hostEnd := r.hostEnd + n)
  }

  // Padding keeps the parse, n octets on, and every header, with one more in front of the host's. The
  // head stays complete exactly when it still fits under MAX_HEAD.
  lemma PadKeeps(b: string, n: nat, out: string)
    requires Padded(b, n) == Rewritten(out)
    ensures Whole(b) && Parsed(out).Some?
    ensures Whole(out) <==> HeadEnd(b) + n <= MAX_HEAD
    ensures Whole(out) ==> Parsed(out).value == Moved(Parsed(b).value, n)
    ensures Whole(out) ==>
      HostAt(b) < |HeaderList(b)|
    ensures Whole(out) ==>
      var k := HostAt(b);
      HeaderList(out) == HeaderList(b)[..k] + [("X-Pad", Filler(n - MIN_PAD))] + HeaderList(b)[k..]
    ensures |out| == |b| + n && out[HeadEnd(b) + n..] == b[HeadEnd(b)..]
  {
    hide Walk, Headers, ParseLine, FirstLine, HostLen, EqualFold, Naming, Pick, Pairs, Pad, ShiftAll, Filler, PadField;
    var l, w, k := HostField(b);
    var f := w.fields[k];
    var x := Pad(n) + b[f.ns..];
    assert out == b[..f.ns] + x;
    Rebuilt(b, l, w, k, x);
    PadWalk(b, n, l, w, k);
    var pad := PadField(n, f.ns);
    BeforeNaming(w.fields);
    PadNamesNothing(n, f.ns);
    NamesKept(f, f.Shifted(n));
    Reassembled(out, l, w.fields[..k], [pad, f.Shifted(n)], Scan(ShiftAll(w.fields[k..], n)[1..], Some(w.end.value + n)), 1);
    PadPairs(w.fields, k, n, pad);
  }

  lemma PadWalk(b: string, n: nat, l: RequestLine, w: Scan, k: nat)
    requires n >= MIN_PAD && l.next <= |b| && w == Walk(b[l.next..], l.next) && w.end.Some?
    requires k < |w.fields| && w.fields[k].ns <= w.end.value <= |b|
    ensures |Pad(n)| == n && w.fields[k].ns <= |b|
    ensures var f := w.fields[k];
      Walk(Pad(n) + b[f.ns..], f.ns) ==
        Ahead([PadField(n, f.ns), f.Shifted(n)], Scan(ShiftAll(w.fields[k..], n)[1..], Some(w.end.value + n)))
  {
    hide Walk, FirstLine, HostLen, FieldAt, Pad, ShiftAll, Filler, PadField, ShiftScan, Ahead;
    var f := w.fields[k];
    var ln := HostLine(b, l, w, k);
    var s := b[f.ns..];
    PadLine(n, f.ns, s);
    WalkUnfolds(Pad(n) + s, f.ns);
    WalkPrefix(s, f.ns, w.end.value - f.ns, s, n);
    ShiftOf(w.fields[k..], w.end.value, n);
    ShiftedHead(w.fields[k..], n);
    TwoAhead(PadField(n, f.ns), ShiftAll(w.fields[k..], n), Some(w.end.value + n));
  }

  lemma TwoAhead(first: Field, fields: seq<Field>, end: Option<nat>)
    requires fields != []
    ensures Ahead([first], Scan(fields, end)) == Ahead([first, fields[0]], Scan(fields[1..], end))
  {
  }

  lemma ShiftOf(fields: seq<Field>, e: nat, d: nat)
    ensures ShiftScan(Scan(fields, Some(e)), d) == Scan(ShiftAll(fields, d), Some(e + d))
  {
  }

  lemma PadPairs(fields: seq<Field>, k: nat, n: nat, pad: Field)
    requires k < |fields| && pad.name == "X-Pad"
    ensures var after := ShiftAll(fields[k..], n);
      Pairs(fields[..k]) + Pairs([pad, fields[k].Shifted(n)]) + Pairs(after[1..])
        == Pairs(fields)[..k] + [("X-Pad", pad.value)] + Pairs(fields)[k..]
  {
  }

  function PadField(n: nat, at: nat): Field
    requires n >= MIN_PAD
  {
    Field(at, at + 5, at + 7, at + n - 2, "X-Pad", Filler(n - MIN_PAD))
  }

  lemma PadLine(n: nat, at: nat, s: string)
    requires n >= MIN_PAD
    ensures |Pad(n)| == n && FirstLine(Pad(n) + s) == Some(Line(n - 2, n)) && (Pad(n) + s)[n..] == s
    ensures FieldAt((Pad(n) + s)[..n - 2], at) == [PadField(n, at)]
  {
    hide FirstLine, FieldAt;
    var x := Pad(n) + s;
    var fill := Filler(n - MIN_PAD);
    var line := "X-Pad: " + fill;
    assert x == line + ("\r\n" + s);
    assert x[..n - 2] == line;
    assert forall j | 7 <= j < n - 2 :: line[j] == 'a';
    assert forall j | 0 <= j < n - 2 :: x[j] == line[j];
    assert x[n - 2] == '\r' && x[n - 1] == '\n';
    LineUnique(x, n);
    assert n > MIN_PAD ==> line[n - 3] == 'a' && line[7] == 'a';
    LiesUnique(line, 5, 7, n - 2, at);
    assert line[..5] == "X-Pad" && line[7..n - 2] == fill;
  }

  lemma PadNamesNothing(n: nat, at: nat)
    requires n >= MIN_PAD
    ensures var pad := PadField(n, at); !Names(pad) && pad.name == "X-Pad" && pad.value == Filler(n - MIN_PAD)
  {
  }

  lemma ShiftedHead(fields: seq<Field>, d: nat)
    requires fields != []
    ensures ShiftAll(fields, d)[0] == fields[0].Shifted(d)
  {
  }

  // A field whose host has been given its root dot.
  function DottedField(f: Field): Field {
    var q := HostLen(f.value);
    Field(f.ns, f.ne, f.vs, f.ve + 1, f.name, f.value[..q] + "." + f.value[q..])
  }

  // Dotting appends one dot to the host and to its header, moves what is behind it by one, and keeps
  // the rest. The head stays complete exactly when it still fits under MAX_HEAD.
  lemma DotKeeps(b: string, out: string)
    requires Dotted(b) == Rewritten(out)
    ensures Whole(b) && Parsed(out).Some?
    ensures Whole(out) <==> HeadEnd(b) + 1 <= MAX_HEAD
    ensures Whole(out) ==> var r := Parsed(b).value;
      Parsed(out).value == r.(headerEnd := r.headerEnd + 1, valueEnd := r.valueEnd + 1,
                              hostEnd := r.hostEnd + 1, host := r.host + ".")
    ensures Whole(out) ==> HostAt(b) < |HeaderList(b)|
    ensures Whole(out) ==>
      var h := HeaderList(b)[HostAt(b)];
      HeaderList(out) == HeaderList(b)[HostAt(b) := (h.0, h.1[..HostLen(h.1)] + "." + h.1[HostLen(h.1)..])]
    ensures |out| == |b| + 1 && out[HeadEnd(b) + 1..] == b[HeadEnd(b)..]
  {
    hide Walk, Headers, ParseLine, FirstLine, HostLen, FieldAt, EqualFold, Naming, Pick, Pairs, ShiftAll, ShiftScan, IsIPLiteral, DottedField, Lower, Ahead;
    var l, w, k := HostField(b);
    var f := w.fields[k];
    DotReassembles(b, out, l, w, k);
    DottedHost(f) by {
      SliceOfSlice(b, f.vs, f.ve, HostLen(f.value));
    }
    DotPairs(w.fields, k);
  }

  // The re-parse of a head whose host has its dot.
  lemma DotReassembles(b: string, out: string, l: RequestLine, w: Scan, k: nat)
    requires Dotted(b) == Rewritten(out) && Whole(b) && Parsed(b) == Some(Assemble(l, w))
    requires ParseLine(b) == Some(l) && FirstLine(b).Some? && l.next == FirstLine(b).value.next <= |b|
    requires w == Walk(b[l.next..], l.next) && w.end.Some? && w.end.value == HeadEnd(b) <= |b|
    requires k == Naming(w.fields) < |w.fields| && Names(w.fields[k]) && Inside(w.fields[k], b, l.next, w.end.value)
    requires var f := w.fields[k]; HostSpot(b) == Spot(f.ns, f.ne, f.vs, f.vs + HostLen(f.value))
    ensures var now, rest := [DottedField(w.fields[k])], ShiftAll(w.fields[k + 1..], 1);
      && Parsed(out).Some? && (Whole(out) <==> HeadEnd(b) + 1 <= MAX_HEAD)
      && (Whole(out) ==>
           && Parsed(out) == Some(Assemble(l, Scan(w.fields[..k] + now + rest, Some(w.end.value + 1))))
           && Pick(w.fields[..k] + now + rest, None) == Some(now[0])
           && HeaderList(out) == Pairs(w.fields[..k]) + Pairs(now) + Pairs(rest))
    ensures |out| == |b| + 1 && out[HeadEnd(b) + 1..] == b[HeadEnd(b)..]
  {
    hide Walk, Headers, ParseLine, FirstLine, HostLen, FieldAt, EqualFold, Naming, Pick, Pairs, ShiftAll, IsIPLiteral, DottedField,
      Ahead, Assemble, Parsed, HostReq, Whole, Names, Inside, Dotted;
    DotWalks(b, out, l, w, k);
    BeforeNaming(w.fields);
    Reassembled(out, l, w.fields[..k], [DottedField(w.fields[k])], Scan(ShiftAll(w.fields[k + 1..], 1), Some(w.end.value + 1)), 0);
  }

  lemma DotWalks(b: string, out: string, l: RequestLine, w: Scan, k: nat)
    requires Dotted(b) == Rewritten(out)
    requires ParseLine(b) == Some(l) && FirstLine(b).Some? && l.next == FirstLine(b).value.next <= |b|
    requires w == Walk(b[l.next..], l.next) && w.end.Some? && w.end.value <= |b|
    requires k < |w.fields| && Names(w.fields[k]) && Inside(w.fields[k], b, l.next, w.end.value)
    requires var f := w.fields[k]; HostSpot(b) == Spot(f.ns, f.ne, f.vs, f.vs + HostLen(f.value))
    ensures ParseLine(out) == Some(l) && l.next <= |out| && Names(DottedField(w.fields[k]))
    ensures Walk(out[l.next..], l.next) ==
      Ahead(w.fields[..k], Ahead([DottedField(w.fields[k])], Scan(ShiftAll(w.fields[k + 1..], 1), Some(w.end.value + 1))))
    ensures |out| == |b| + 1 && out[w.end.value + 1..] == b[w.end.value..]
  {
    hide *;
    var f := w.fields[k];
    var x := DotOut(b, out, f, l.next, w.end.value);
    DottedHost(f);
    DotRebuilt(b, l, w, k, x);
  }

  lemma DotRebuilt(b: string, l: RequestLine, w: Scan, k: nat, x: string)
    requires ParseLine(b) == Some(l) && FirstLine(b).Some? && l.next == FirstLine(b).value.next <= |b|
    requires w == Walk(b[l.next..], l.next) && w.end.Some?
    requires k < |w.fields| && Names(w.fields[k]) && w.fields[k].ns <= |b| && DottedFrom(b[w.fields[k].ns..], w.fields[k], x)
    ensures var out := b[..w.fields[k].ns] + x;
      && ParseLine(out) == Some(l) && l.next <= |out|
      && Walk(out[l.next..], l.next) ==
           Ahead(w.fields[..k], Ahead([DottedField(w.fields[k])], Scan(ShiftAll(w.fields[k + 1..], 1), Some(w.end.value + 1))))
  {
    hide *;
    FromHost(b, l, w, k, x);
    Rebuilt(b, l, w, k, x);
  }

  // x is s, which starts with the host's line, with the dot in its place.
  predicate DottedFrom(s: string, f: Field, x: string) {
    && f.ns <= f.vs && f.vs - f.ns + HostLen(f.value) <= |s|
    && var p := f.vs - f.ns + HostLen(f.value); x == s[..p] + "." + s[p..]
  }

  lemma FromHost(b: string, l: RequestLine, w: Scan, k: nat, x: string)
    requires l.next <= |b| && w == Walk(b[l.next..], l.next) && w.end.Some? && k < |w.fields| && Names(w.fields[k])
    ensures l.next <= w.fields[k].ns <= |b|
    ensures DottedFrom(b[w.fields[k].ns..], w.fields[k], x) ==>
      Walk(x, w.fields[k].ns) == Ahead([DottedField(w.fields[k])], Scan(ShiftAll(w.fields[k + 1..], 1), Some(w.end.value + 1)))
  {
    hide Walk, FirstLine, HostLen, FieldAt, ShiftAll, DottedField, Ahead;
    var f := w.fields[k];
    var ln := HostLine(b, l, w, k);
    LineFacts(b[f.ns..]);
    NamesLong(f);
    DottedWalk(b[f.ns..], f, ln, w.fields[k + 1..], w.end.value);
  }

  lemma NamesLong(f: Field)
    requires Names(f)
    ensures HostLen(f.value) > 0
  {
    hide HostLen;
  }

  // What the dotting writes, as seen from the start of the host's line.
  lemma DotOut(b: string, out: string, f: Field, from: nat, e: nat) returns (x: string)
    requires Dotted(b) == Rewritten(out) && Inside(f, b, from, e) && e <= |b|
    requires HostSpot(b) == Spot(f.ns, f.ne, f.vs, f.vs + HostLen(f.value))
    ensures f.ns <= |b| && DottedFrom(b[f.ns..], f, x) && out == b[..f.ns] + x
    ensures |out| == |b| + 1 && out[e + 1..] == b[e..]
    ensures !IsIPLiteral(f.value[..HostLen(f.value)])
  {
    hide HostLen, IsIPLiteral, HostReq, HostSpot;
    var q := f.vs + HostLen(f.value);
    SliceOfSlice(b, f.vs, f.ve, HostLen(f.value));
    DottedTail(b, q, e);
    DotFrom(b, f.ns, q);
    x := b[f.ns..][..q - f.ns] + "." + b[f.ns..][q - f.ns..];
  }

  lemma DotFrom(b: string, i: nat, q: nat)
    requires i <= q <= |b|
    ensures b[..q] + "." + b[q..] == b[..i] + (b[i..][..q - i] + "." + b[i..][q - i..])
  {
  }

  lemma DottedTail(b: string, p: nat, e: nat)
    requires p <= e <= |b|
    ensures var out := b[..p] + "." + b[p..]; |out| == |b| + 1 && out[e + 1..] == b[e..]
  {
  }

  // The walk over a head whose host has its dot, from the host's line on.
  lemma DottedWalk(s: string, f: Field, ln: Line, rest: seq<Field>, end: nat)
    requires FirstLine(s) == Some(ln) && ln.len > 0 && FieldAt(s[..ln.len], f.ns) == [f] && HostLen(f.value) > 0
    requires ln.next <= |s| && Walk(s[ln.next..], f.ns + ln.next) == Scan(rest, Some(end))
    ensures f.ns <= f.vs && f.vs - f.ns + HostLen(f.value) <= ln.len <= |s|
    ensures var p := f.vs - f.ns + HostLen(f.value);
      Walk(s[..p] + "." + s[p..], f.ns) == Ahead([DottedField(f)], Scan(ShiftAll(rest, 1), Some(end + 1)))
  {
    hide Walk, FirstLine, FieldAt, HostLen, DottedField, ShiftAll, ShiftScan, Ahead;
    DottedLine(s, f, ln);
    LineFacts(s);
    var p := f.vs - f.ns + HostLen(f.value);
    var x, tail := s[..p] + "." + s[p..], s[ln.next..];
    WalkUnfolds(x, f.ns);
    assert x[ln.next + 1..] == tail;
    WalkEnds(tail, f.ns + ln.next);
    ShiftOf(rest, end, 1);
    WalkPrefix(tail, f.ns + ln.next, end - f.ns - ln.next, tail, 1);
  }

  lemma DotPairs(fields: seq<Field>, k: nat)
    requires k < |fields|
    ensures Pairs(fields[..k]) + Pairs([DottedField(fields[k])]) + Pairs(ShiftAll(fields[k + 1..], 1))
      == Pairs(fields)[k := (fields[k].name, DottedField(fields[k]).value)]
    ensures Pairs(fields)[k] == (fields[k].name, fields[k].value)
  {
    hide HostLen;
  }

  // The dot goes onto the host and nowhere else.
  lemma DottedHost(f: Field)
    requires Names(f) && !IsIPLiteral(f.value[..HostLen(f.value)])
    ensures var q := HostLen(f.value); var g := DottedField(f);
      && g == Field(f.ns, f.ne, f.vs, f.ve + 1, f.name, f.value[..q] + "." + f.value[q..])
      && HostLen(g.value) == q + 1 && g.value[..q + 1] == f.value[..q] + "." && Names(g)
  {
    var v, q := f.value, HostLen(f.value);
    assert v[..q][0] == v[0];
    var v' := DottedField(f).value;
    assert forall j | 0 <= j < q :: v'[j] == v[j];
    assert v'[q] == '.' && forall j | q < j < |v'| :: v'[j] == v[j - 1];
    LastIs(v', ':', if LastIndexOf(v, ':') < 0 then -1 else q + 1);
  }

  lemma LastIs(s: string, c: char, k: int)
    requires -1 <= k < |s| && (k >= 0 ==> s[k] == c) && forall j | k < j < |s| :: s[j] != c
    ensures LastIndexOf(s, c) == k
  {
  }

  lemma DottedLine(s: string, f: Field, ln: Line)
    requires FirstLine(s) == Some(ln) && FieldAt(s[..ln.len], f.ns) == [f] && HostLen(f.value) > 0
    ensures f.ns <= f.vs && f.vs - f.ns + HostLen(f.value) <= ln.len
    ensures var p := f.vs - f.ns + HostLen(f.value); var x := s[..p] + "." + s[p..];
      && FirstLine(x) == Some(Line(ln.len + 1, ln.next + 1))
      && FieldAt(x[..ln.len + 1], f.ns) == [DottedField(f)]
  {
    hide FirstLine, FieldAt, HostLen, DottedField;
    DottedFieldAt(s[..ln.len], f);
    LineFacts(s);
    var p := f.vs - f.ns + HostLen(f.value);
    DottedFirstLine(s, ln, p);
    DottedSlices(s, p, ln.len);
  }

  lemma DottedFirstLine(s: string, ln: Line, p: nat)
    requires FirstLine(s) == Some(ln) && p <= ln.len <= |s|
    requires 0 < p
    ensures FirstLine(s[..p] + "." + s[p..]) == Some(Line(ln.len + 1, ln.next + 1))
  {
    hide FirstLine;
    LineFacts(s);
    var x := s[..p] + "." + s[p..];
    assert forall j | 0 <= j < p :: x[j] == s[j];
    assert forall j | p < j < |x| :: x[j] == s[j - 1];
    LineUnique(x, ln.next + 1);
  }

  lemma DottedSlices(s: string, p: nat, n: nat)
    requires p <= n <= |s|
    ensures (s[..p] + "." + s[p..])[..n + 1] == s[..n][..p] + "." + s[..n][p..]
  {
  }

  lemma DottedFieldAt(line: string, f: Field)
    requires FieldAt(line, f.ns) == [f] && HostLen(f.value) > 0
    ensures f.ns <= f.vs && f.vs - f.ns + HostLen(f.value) <= |line|
    ensures var p := f.vs - f.ns + HostLen(f.value);
      FieldAt(line[..p] + "." + line[p..], f.ns) == [DottedField(f)]
  {
    hide FieldAt, HostLen, IsOWS;
    FieldLies(line, f.ns);
    var q := HostLen(f.value);
    var colon, vs, ve, p := f.ne - f.ns, f.vs - f.ns, f.ve - f.ns, f.vs - f.ns + q;
    var line' := line[..p] + "." + line[p..];
    LiesInOrder(line, colon, vs, ve);
    hide Lies;
    DottedLies(line, colon, vs, ve, p);
    LiesUnique(line', colon, vs, ve + 1, f.ns);
    DottedName(line, colon, p);
    DottedSlice(line, vs, ve, p);
  }

  lemma LiesInOrder(line: string, colon: nat, vs: nat, ve: nat)
    requires Lies(line, colon, vs, ve)
    ensures 0 < colon < vs <= ve <= |line|
  {
  }

  lemma DottedName(line: string, colon: nat, p: nat)
    requires colon <= p <= |line|
    ensures (line[..p] + "." + line[p..])[..colon] == line[..colon]
  {
  }

  lemma DottedLies(line: string, colon: nat, vs: nat, ve: nat, p: nat)
    requires Lies(line, colon, vs, ve) && vs < p <= ve
    ensures Lies(line[..p] + "." + line[p..], colon, vs, ve + 1)
  {
    hide IsOWS;
    DotIsNoSpace();
    var line' := line[..p] + "." + line[p..];
    assert forall j | 0 <= j < p :: line'[j] == line[j];
    assert line'[p] == '.' && forall j | p < j < |line'| :: line'[j] == line[j - 1];
  }

  lemma DottedSlice(line: string, vs: nat, ve: nat, p: nat)
    requires vs <= p <= ve <= |line|
    ensures (line[..p] + "." + line[p..])[vs..ve + 1] == line[vs..ve][..p - vs] + "." + line[vs..ve][p - vs..]
  {
  }

  lemma DotIsNoSpace()
    ensures !IsOWS('.')
  {
  }
}
