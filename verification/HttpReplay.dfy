// Whether a buffered request may be sent again on a fresh connection (internal/httpmsg/idempotent.go).
module HttpReplay {
  import opened Settings
  import opened HttpHead
  import opened HttpLaws
  import opened HttpMangle

  // RFC 9110 section 9.2.2, without CONNECT.
  const IDEMPOTENT: seq<string> := ["GET", "HEAD", "PUT", "DELETE", "OPTIONS", "TRACE"]

  predicate IsZeroLength(v: string) {
    v != "" && forall i | 0 <= i < |v| :: v[i] == '0'
  }

  function Split(v: string, c: char): seq<string> {
    var i := IndexOf(v, c);
    if i < 0 then [v] else [v[..i]] + Split(v[i + 1..], c)
  }

  function Trimmed(s: string): string {
    var from := SkipOWS(s, 0);
    s[from..TrimOWS(s, from, |s|)]
  }

  predicate ContainsToken(v: string, token: string) {
    exists f | f in Split(v, ',') :: EqualFold(Trimmed(f), token)
  }

  // The part of v from i to j stands between commas, or the ends of v, and holds none.
  predicate IsPart(v: string, i: int, j: int) {
    && 0 <= i <= j <= |v| && (i == 0 || v[i - 1] == ',') && (j == |v| || v[j] == ',')
    && forall k | i <= k < j :: v[k] != ','
  }

  predicate IsToken(v: string, i: int, j: int, token: string) {
    IsPart(v, i, j) && EqualFold(Trimmed(v[i..j]), token)
  }

  // A list holds a token exactly when one of its parts, trimmed and without regard to case, is the token.
  lemma {:induction false} TokenMeans(v: string, token: string)
    ensures ContainsToken(v, token) <==> exists i, j :: IsToken(v, i, j, token)
    decreases |v|
  {
    hide EqualFold, Trimmed, IndexOf, IsPart;
    var n := IndexOf(v, ',');
    if n < 0 {
      OnePart(v, token);
      return;
    }
    var rest := v[n + 1..];
    TokenMeans(rest, token);
    FirstPart(v, n);
    assert Split(v, ',') == [v[..n]] + Split(rest, ',');
    assert ContainsToken(v, token) <==> EqualFold(Trimmed(v[0..n]), token) || ContainsToken(rest, token);
    if i, j :| IsToken(v, i, j, token) {
      PartOf(v, n, i, j);
      assert i > n ==> IsToken(rest, i - n - 1, j - n - 1, token);
    }
    if EqualFold(Trimmed(v[0..n]), token) {
      assert IsToken(v, 0, n, token);
    }
    if i, j :| IsToken(rest, i, j, token) {
      PartBehind(v, n, i, j);
      assert IsToken(v, i + n + 1, j + n + 1, token);
    }
  }

  lemma OnePart(v: string, token: string)
    requires IndexOf(v, ',') < 0
    ensures ContainsToken(v, token) <==> exists i, j :: IsToken(v, i, j, token)
  {
    hide EqualFold, Trimmed, IndexOf;
    assert v[0..|v|] == v && IsPart(v, 0, |v|);
    assert Split(v, ',') == [v];
    assert EqualFold(Trimmed(v), token) ==> IsToken(v, 0, |v|, token);
    if i, j :| IsToken(v, i, j, token) {
      assert i == 0 && j == |v|;
    }
  }

  lemma FirstPart(v: string, n: nat)
    requires n < |v| && v[n] == ',' && forall k | 0 <= k < n :: v[k] != ','
    ensures IsPart(v, 0, n) && v[0..n] == v[..n]
  {
  }

  lemma PartOf(v: string, n: nat, i: int, j: int)
    requires n < |v| && v[n] == ',' && (forall k | 0 <= k < n :: v[k] != ',') && IsPart(v, i, j)
    ensures (i == 0 && j == n) ||
      (i > n && IsPart(v[n + 1..], i - n - 1, j - n - 1) && v[i..j] == v[n + 1..][i - n - 1..j - n - 1])
  {
    assert i == 0 || i > n;
    if i > n {
      var rest := v[n + 1..];
      assert forall k | 0 <= k < |rest| :: rest[k] == v[k + n + 1];
    }
  }

  lemma PartBehind(v: string, n: nat, i: int, j: int)
    requires n < |v| && v[n] == ',' && IsPart(v[n + 1..], i, j)
    ensures IsPart(v, i + n + 1, j + n + 1) && v[i + n + 1..j + n + 1] == v[n + 1..][i..j]
  {
    var rest := v[n + 1..];
    assert forall k | n < k < |v| :: v[k] == rest[k - n - 1];
  }

  // What one header says against a replay, "" being nothing.
  function Objection(name: string, value: string): string {
    if EqualFold(name, "transfer-encoding") then "request is chunked"
    else if EqualFold(name, "content-length") && !IsZeroLength(value) then "request carries a body"
    else if EqualFold(name, "expect") then "request uses Expect"
    else if EqualFold(name, "upgrade") then "request asks for a protocol upgrade"
    else if EqualFold(name, "connection") && ContainsToken(value, "upgrade") then "request asks for a protocol upgrade"
    else ""
  }

  function FirstObjection(headers: seq<(string, string)>): string {
    if headers == [] then ""
    else if Objection(headers[0].0, headers[0].1) != "" then Objection(headers[0].0, headers[0].1)
    else FirstObjection(headers[1..])
  }

  function Reason(b: string): (bool, string) {
    match Parsed(b)
    case None => (false, "not an HTTP/1.x request head")
    case Some(r) =>
      if !r.complete then (false, "header block is incomplete")
      else if r.method_ !in IDEMPOTENT then (false, "method " + r.method_ + " is not idempotent")
      else if r.headerEnd < |b| then (false, "bytes follow the header block")
      else
        var why := FirstObjection(HeaderList(b));
        (why == "", why)
  }

  method ReplayableReason(b: string) returns (ok: bool, why: string)
    ensures (ok, why) == Reason(b)
  {
    hide Headers, Walk, Objection;
    var r := Parse(b);
    if r.None? {
      return false, "not an HTTP/1.x request head";
    }
    if !r.value.complete {
      return false, "header block is incomplete";
    }
    if r.value.method_ !in IDEMPOTENT {
      return false, "method " + r.value.method_ + " is not idempotent";
    }
    if r.value.headerEnd < |b| {
      return false, "bytes follow the header block";
    }
    var hdrStart := FirstLine(b).value.next;
    var fields, _, _ := ForEachHeader(b, hdrStart);
    assert HeaderList(b) == Pairs(fields);
    why := "";
    for i := 0 to |fields|
      invariant why == "" && FirstObjection(Pairs(fields)[i..]) == FirstObjection(Pairs(fields))
    {
      assert Pairs(fields)[i..][1..] == Pairs(fields)[i + 1..];
      why := Objection(fields[i].name, fields[i].value);
      if why != "" {
        break;
      }
    }
    ok := why == "";
  }

  // ---------------------------------------------------------------- what it takes

  lemma {:induction false} NoObjection(headers: seq<(string, string)>)
    ensures FirstObjection(headers) == "" <==> forall i | 0 <= i < |headers| :: Objection(headers[i].0, headers[i].1) == ""
  {
    hide Objection;
    if headers != [] {
      NoObjection(headers[1..]);
      assert forall i | 0 < i < |headers| :: headers[i] == headers[1..][i - 1];
    }
  }

  // Exactly the requests that are one whole head and nothing more, of an idempotent method, with no
  // body announced, no expectation and no upgrade.
  lemma ReplayableMeans(b: string)
    ensures Reason(b).0 <==>
      && Whole(b) && Parsed(b).value.method_ in IDEMPOTENT && HeadEnd(b) == |b|
      && forall i | 0 <= i < |HeaderList(b)| :: (
        var (name, value) := HeaderList(b)[i];
        && !EqualFold(name, "transfer-encoding") && !EqualFold(name, "expect") && !EqualFold(name, "upgrade")
        && (EqualFold(name, "content-length") ==> IsZeroLength(value))
        && (EqualFold(name, "connection") ==> !ContainsToken(value, "upgrade")))
  {
    hide HeaderList, Parsed, EqualFold, IsZeroLength, ContainsToken;
    NoObjection(HeaderList(b));
  }

  // ---------------------------------------------------------------- rewriting does not change it

  lemma {:induction false} OneHeaderChanged(headers: seq<(string, string)>, k: nat, h: (string, string))
    requires k < |headers| && Objection(headers[k].0, headers[k].1) == "" == Objection(h.0, h.1)
    ensures FirstObjection(headers[k := h]) == FirstObjection(headers)
  {
    hide Objection;
    if k > 0 {
      assert headers[k := h][1..] == headers[1..][k - 1 := h];
      OneHeaderChanged(headers[1..], k - 1, h);
    } else {
      assert headers[0 := h][1..] == headers[1..];
    }
  }

  lemma {:induction false} OneHeaderMore(headers: seq<(string, string)>, k: nat, h: (string, string))
    requires k <= |headers| && Objection(h.0, h.1) == ""
    ensures FirstObjection(headers[..k] + [h] + headers[k..]) == FirstObjection(headers)
  {
    hide Objection;
    var more := headers[..k] + [h] + headers[k..];
    if k > 0 {
      assert more[1..] == headers[1..][..k - 1] + [h] + headers[1..][k - 1..];
      OneHeaderMore(headers[1..], k - 1, h);
    } else {
      assert more[1..] == headers;
    }
  }

  lemma HostHeader(b: string)
    requires HostReq(b).None?
    ensures HostAt(b) < |HeaderList(b)| && EqualFold(HeaderList(b)[HostAt(b)].0, "host")
  {
    hide Walk, Headers, ParseLine, FirstLine, HostLen, EqualFold, Naming, Pick;
    var l, w, k := HostField(b);
  }

  // A short name is none of those that object.
  lemma ShortNamesDoNot(name: string, value: string)
    requires |name| == 4 || |name| == 5
    ensures Objection(name, value) == ""
  {
  }

  lemma PadKeepsReason(b: string, n: nat, out: string)
    requires Padded(b, n) == Rewritten(out)
    ensures Reason(out) == if Whole(out) then Reason(b) else (false, "header block is incomplete")
  {
    assert n >= MIN_PAD && HostReq(b).None?;
    hide HeaderList, HostAt, Objection, EqualFold, Filler, Padded, HostReq, FirstObjection;
    PadKeeps(b, n, out);
    ShortNamesDoNot("X-Pad", Filler(n - MIN_PAD));
    if Whole(out) {
      OneHeaderMore(HeaderList(b), HostAt(b), ("X-Pad", Filler(n - MIN_PAD)));
    }
  }

  // Rewriting the host's own header says nothing against a replay that was not said before.
  lemma HostHeaderChanged(b: string, name: string, value: string)
    requires HostReq(b).None? && EqualFold(name, "host")
    ensures HostAt(b) < |HeaderList(b)| && FirstObjection(HeaderList(b)[HostAt(b) := (name, value)]) == FirstObjection(HeaderList(b))
  {
    hide HeaderList, HostAt, Objection, EqualFold, HostReq;
    HostHeader(b);
    var hs, k := HeaderList(b), HostAt(b);
    FourLetters(hs[k].0);
    FourLetters(name);
    ShortNamesDoNot(hs[k].0, hs[k].1);
    ShortNamesDoNot(name, value);
    OneHeaderChanged(hs, k, (name, value));
  }

  lemma DotKeepsReason(b: string, out: string)
    requires Dotted(b) == Rewritten(out)
    ensures Reason(out) == if Whole(out) then Reason(b) else (false, "header block is incomplete")
  {
    assert HostReq(b).None?;
    hide HeaderList, HostAt, Objection, EqualFold, HostLen, Dotted, HostReq, FirstObjection;
    DotKeeps(b, out);
    HostHeader(b);
    var h := HeaderList(b)[HostAt(b)];
    HostHeaderChanged(b, h.0, h.1[..HostLen(h.1)] + "." + h.1[HostLen(h.1)..]);
  }

  lemma SpellKeepsReason(b: string, spell: string, out: string)
    requires Respelled(b, spell) == Rewritten(out)
    ensures Reason(out) == Reason(b)
  {
    assert HostReq(b).None? && EqualFold(spell, "host");
    hide HeaderList, HostAt, Objection, EqualFold, HostReq, Respelled, FirstObjection;
    SpellKeeps(b, spell, out);
    HostHeader(b);
    HostHeaderChanged(b, spell, HeaderList(b)[HostAt(b)].1);
  }

  // The gate gives the same answer, for the same reason, before and after any of the rewrites, as long
  // as the head is still complete; and when it no longer is, it says that.
  lemma RewriteKeepsReason(b: string, out: string, spell: string, n: nat)
    requires Rewritten(out) in {Respelled(b, spell), Dotted(b), Padded(b, n)}
    ensures Reason(out) == if Whole(out) then Reason(b) else (false, "header block is incomplete")
  {
    hide Respelled, Dotted, Padded;
    if Padded(b, n) == Rewritten(out) {
      PadKeepsReason(b, n, out);
    } else if Dotted(b) == Rewritten(out) {
      DotKeepsReason(b, out);
    } else {
      SpellKeepsReason(b, spell, out);
      SpellKeeps(b, spell, out);
    }
  }

  lemma FourLetters(name: string)
    requires EqualFold(name, "host")
    ensures |name| == 4
  {
  }
}
