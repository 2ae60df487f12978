// Heads written out and read back: what the parser makes of every request head a client can write, and
// which heads the rewriters take (internal/httpmsg/parse.go, mangle.go).
module HttpRender {
  import opened Settings
  import opened HttpHead
  import opened HttpLaws
  import opened HttpMangle

  const CRLF := "\r\n"

  // ---------------------------------------------------------------- writing

  function Digit(minor: nat): char
    requires minor < 10
  {
    '0' + minor as char
  }

  function RequestText(method_: string, target: string, minor: nat): string
    requires minor < 10
  {
    method_ + " " + target + " HTTP/1." + [Digit(minor)]
  }

  function FieldText(h: (string, string)): string {
    h.0 + ": " + h.1
  }

  function FieldsText(hs: seq<(string, string)>): string {
    if hs == [] then CRLF else FieldText(hs[0]) + CRLF + FieldsText(hs[1..])
  }

  function Render(method_: string, target: string, minor: nat, hs: seq<(string, string)>): string
    requires minor < 10
  {
    RequestText(method_, target, minor) + CRLF + FieldsText(hs)
  }

  predicate IsLine(s: string) {
    '\n' !in s
  }

  // A field as a client writes one: a name without a colon, a value without white space around it.
  predicate Writable(h: (string, string)) {
    && h.0 != "" && ':' !in h.0 && IsLine(h.0) && IsLine(h.1)
    && (h.1 != "" ==> !IsOWS(h.1[0]) && !IsOWS(h.1[|h.1| - 1]))
  }

  predicate Requestable(method_: string, target: string) {
    method_ in METHODS && target != "" && IsLine(target)
  }

  // ---------------------------------------------------------------- reading back

  lemma FirstIndex(s: string, c: char, k: nat)
    requires k < |s| && s[k] == c && forall j | 0 <= j < k :: s[j] != c
    ensures IndexOf(s, c) == k
  {
  }

  lemma LastIndex(s: string, c: char, k: nat)
    requires k < |s| && s[k] == c && forall j | k < j < |s| :: s[j] != c
    ensures LastIndexOf(s, c) == k
  {
  }

  // A line, ended as a client ends it.
  lemma LineReads(line: string, rest: string)
    requires IsLine(line)
    ensures var s := line + CRLF + rest;
      && FirstLine(s) == Some(Line(|line|, |line| + 2))
      && s[..|line|] == line && s[|line| + 2..] == rest
  {
    var s := line + CRLF + rest;
    assert s[|line|] == '\r' && s[|line| + 1] == '\n';
    FirstIndex(s, '\n', |line| + 1);
  }

  lemma FieldReads(h: (string, string), at: nat) returns (f: Field)
    requires Writable(h)
    ensures FieldAt(FieldText(h), at) == [f] && f.name == h.0 && f.value == h.1
  {
    var line, n := FieldText(h), |h.0|;
    var vs := if h.1 == "" then |line| else n + 2;
    TextLies(h);
    hide Lies, FieldAt;
    LiesUnique(line, n, vs, |line|, at);
    assert line[n + 2..] == h.1;
    f := Field(at, at + n, at + vs, at + |line|, line[..n], line[vs..|line|]);
  }

  lemma TextLies(h: (string, string))
    requires Writable(h)
    ensures var line, n := FieldText(h), |h.0|; Lies(line, n, if h.1 == "" then |line| else n + 2, |line|)
  {
    var line, n := FieldText(h), |h.0|;
    assert line[n] == ':' && line[n + 1] == ' ';
    forall j | 0 <= j < n ensures line[j] != ':' {
      assert line[j] == h.0[j] && h.0[j] in h.0;
    }
    assert h.1 != "" ==> line[n + 2] == h.1[0] && line[|line| - 1] == h.1[|h.1| - 1];
  }

  // The walk over written fields finds them all, in order, and the end of the block.
  lemma {:induction false} WalkReads(hs: seq<(string, string)>, rest: string, at: nat)
    requires forall h | h in hs :: Writable(h)
    ensures var w := Walk(FieldsText(hs) + rest, at); Pairs(w.fields) == hs && w.end == Some(at + |FieldsText(hs)|)
  {
    hide FirstLine, FieldAt, Walk, Writable;
    var s := FieldsText(hs) + rest;
    WalkUnfolds(s, at);
    if hs == [] {
      LineReads("", rest);
      assert s == "" + CRLF + rest;
    } else {
      var line, more := FieldText(hs[0]), FieldsText(hs[1..]) + rest;
      assert s == line + CRLF + more;
      FieldIsLine(hs[0]);
      LineReads(line, more);
      var f := FieldReads(hs[0], at);
      WalkReads(hs[1..], rest, at + |line| + 2);
      var tail := Walk(more, at + |line| + 2);
      assert Walk(s, at).fields == [f] + tail.fields;
      PairsMore(f, tail.fields);
    }
  }

  lemma FieldIsLine(h: (string, string))
    requires Writable(h)
    ensures IsLine(FieldText(h)) && |FieldText(h)| > 0
  {
  }

  lemma PairsMore(f: Field, fields: seq<Field>)
    ensures Pairs([f] + fields) == [(f.name, f.value)] + Pairs(fields)
  {
  }

  lemma RequestReads(method_: string, target: string, minor: nat, rest: string)
    requires Requestable(method_, target) && minor < 10
    ensures var line := RequestText(method_, target, minor);
      ParseLine(line + CRLF + rest) == Some(RequestLine(method_, target, minor, |line| + 2))
  {
    hide FirstLine;
    var line := RequestText(method_, target, minor);
    PlainMethods(method_);
    RequestIsLine(method_, target, minor);
    LineReads(line, rest);
    PartsRead(method_, target, minor);
  }

  // No method holds a space, or the end of a line.
  lemma PlainMethods(method_: string)
    requires method_ in METHODS
    ensures ' ' !in method_ && IsLine(method_) && method_ != ""
  {
  }

  lemma RequestIsLine(method_: string, target: string, minor: nat)
    requires IsLine(method_) && IsLine(target) && minor < 10
    ensures IsLine(RequestText(method_, target, minor))
  {
  }

  lemma PartsRead(method_: string, target: string, minor: nat)
    requires Requestable(method_, target) && minor < 10 && ' ' !in method_ && method_ != ""
    ensures var line := RequestText(method_, target, minor);
      forall next :: LineParts(line, next) == Some(RequestLine(method_, target, minor, next))
  {
    hide IndexOf, LastIndexOf;
    var ver := "HTTP/1." + [Digit(minor)];
    assert RequestText(method_, target, minor) == method_ + " " + target + " " + ver;
    SpacesFound(method_, target, ver);
    assert ver[..7] == "HTTP/1." && ver[7] == Digit(minor);
  }

  // Three parts with a space between: no other space in front of the second or behind it counts.
  lemma SpacesFound(a: string, t: string, v: string)
    requires ' ' !in a && ' ' !in v
    ensures var line := a + " " + t + " " + v; var n := |a| + 1 + |t|;
      && IndexOf(line, ' ') == |a| && LastIndexOf(line, ' ') == n && |line| == n + 1 + |v|
      && line[..|a|] == a && line[|a| + 1..n] == t && line[n + 1..] == v
  {
    hide IndexOf, LastIndexOf;
    var line, n := a + " " + t + " " + v, |a| + 1 + |t|;
    assert line == a + (" " + t + " " + v) && line[|a|] == ' ' && line[n] == ' ';
    forall j | 0 <= j < |a| ensures line[j] != ' ' {
      assert line[j] == a[j] && a[j] in a;
    }
    forall j | n < j < |line| ensures line[j] != ' ' {
      assert line[j] == v[j - n - 1] && v[j - n - 1] in v;
    }
    FirstIndex(line, ' ', |a|);
    LastIndex(line, ' ', n);
  }

  // Round trip: every head a client writes, with anything behind it, parses back to its parts as long as
  // it fits MAX_HEAD; and when it does not fit, it is never complete.
  lemma RenderParses(method_: string, target: string, minor: nat, hs: seq<(string, string)>, rest: string)
    requires Requestable(method_, target) && minor < 10 && forall h | h in hs :: Writable(h)
    ensures var head := Render(method_, target, minor, hs); var b := head + rest;
      && Parsed(b).Some? && (Whole(b) <==> |head| <= MAX_HEAD)
      && var r := Parsed(b).value;
      && r.method_ == method_ && r.target == target && r.minor == minor
      && (Whole(b) ==> HeadEnd(b) == |head| && HeaderList(b) == hs)
  {
    hide Walk, Headers, ParseLine, FirstLine, Writable, Pairs, Pick, HostLen;
    var line, head := RequestText(method_, target, minor), Render(method_, target, minor, hs);
    var b := head + rest;
    assert b == line + CRLF + (FieldsText(hs) + rest);
    RequestReads(method_, target, minor, FieldsText(hs) + rest);
    RequestEnds(method_, target, minor, FieldsText(hs) + rest);
    WalkReads(hs, rest, |line| + 2);
    ParsedAs(b, RequestLine(method_, target, minor, |line| + 2));
    assert b[|line| + 2..] == FieldsText(hs) + rest;
  }

  lemma RequestEnds(method_: string, target: string, minor: nat, rest: string)
    requires Requestable(method_, target) && minor < 10
    ensures var line := RequestText(method_, target, minor);
      FirstLine(line + CRLF + rest) == Some(Line(|line|, |line| + 2))
  {
    PlainMethods(method_);
    RequestIsLine(method_, target, minor);
    LineReads(RequestText(method_, target, minor), rest);
  }

  // ---------------------------------------------------------------- what arrives piece by piece

  // A buffer may be HTTP exactly when some continuation of it starts with a method and a space.
  lemma DetectedMeans(b: string)
    ensures Detected(b) <==> b != "" && exists i, c | 0 <= i < |METHODS| :: METHODS[i] + " " <= b + c
  {
    if Detected(b) {
      var i :| 0 <= i < |METHODS| && Starts(b, METHODS[i]);
      var whole := METHODS[i] + " ";
      if |b| <= |whole| {
        assert b + whole[|b|..] == whole;
        assert METHODS[i] + " " <= b + whole[|b|..];
      } else {
        assert METHODS[i] + " " <= b + "";
      }
    }
    if i, c :| 0 <= i < |METHODS| && METHODS[i] + " " <= b + c {
      StartsWithin(b, c, METHODS[i]);
    }
  }

  lemma StartsWithin(b: string, c: string, m: string)
    requires m + " " <= b + c
    ensures Starts(b, m)
  {
    var whole := m + " ";
    assert forall j | 0 <= j < |whole| :: (b + c)[j] == whole[j];
    assert forall j | 0 <= j < |b| :: (b + c)[j] == b[j];
    assert |b| > |m| ==> b[|m|] == whole[|m|];
    assert forall j | 0 <= j < |m| :: whole[j] == m[j];
  }

  // A head that arrives piece by piece is waited for until it is whole, and never given up.
  lemma PrefixWaits(method_: string, target: string, minor: nat, hs: seq<(string, string)>, p: string, rest: string)
    requires Requestable(method_, target) && minor < 10 && forall h | h in hs :: Writable(h)
    requires var head := Render(method_, target, minor, hs); |head| <= MAX_HEAD && p != "" && p <= head
    ensures Need(p) == if p == Render(method_, target, minor, hs) then (0, true) else (1, true)
    ensures Need(Render(method_, target, minor, hs) + rest) == (0, true)
  {
    hide Walk, Headers, ParseLine, FirstLine, Writable, Pairs, Pick, HostLen, Render, Parsed, Detected;
    var head := Render(method_, target, minor, hs);
    RenderParses(method_, target, minor, hs, rest);
    RenderParses(method_, target, minor, hs, "");
    HasRequestLine(head + rest);
    ParsedIsDetected(head + rest);
    assert head + "" == head;
    HasRequestLine(head);
    ParsedIsDetected(head);
    NeedIs(p);
    if p != head {
      assert p + head[|p|..] == head;
      NeedStands(p, head[|p|..]);
      if Whole(p) {
        SameHead(p, head);
      }
    }
  }

  lemma HasRequestLine(b: string)
    requires Parsed(b).Some?
    ensures ParseLine(b).Some?
  {
  }

  lemma NeedIs(b: string)
    ensures Need(b) == (0, false) || Need(b) == (1, true) || (Need(b) == (0, true) && Whole(b))
  {
  }

  // A Host value as a client writes one: the hostname alone, or with a port behind it.
  lemma HostReads(host: string, port: string)
    requires host != "" && ':' !in port
    ensures host[0] != '[' && ':' !in host ==> HostLen(host) == |host|
    ensures host[0] != '[' ==> HostLen(host + ":" + port) == |host|
    ensures host[0] == '[' && IndexOf(host, ']') == |host| - 1 ==>
      HostLen(host) == |host| && HostLen(host + ":" + port) == |host|
  {
    hide IndexOf, LastIndexOf;
    var v := host + ":" + port;
    assert v[|host|] == ':' && forall j | |host| < j < |v| :: v[j] == port[j - |host| - 1];
    LastIndex(v, ':', |host|);
    if IndexOf(host, ']') == |host| - 1 {
      assert forall j | 0 <= j < |host| :: v[j] == host[j];
      FirstIndex(v, ']', |host| - 1);
    }
  }

  // ---------------------------------------------------------------- what the rewriters take

  predicate NamesHost(h: (string, string)) {
    EqualFold(h.0, "host") && HostLen(h.1) > 0
  }

  // A head can be rewritten exactly when it is whole and one of its headers names a host.
  lemma RewritableWhen(b: string)
    ensures HostReq(b).None? <==> Whole(b) && exists k | 0 <= k < |HeaderList(b)| :: NamesHost(HeaderList(b)[k])
  {
    hide Walk, Headers, ParseLine, FirstLine, HostLen, Pick, EqualFold;
    if Whole(b) {
      var l, w := WholeHead(b);
      NamedWhen(w.fields);
      assert HeaderList(b) == Pairs(w.fields);
    }
  }

  lemma NamedWhen(fields: seq<Field>)
    ensures (Pick(fields, None).Some? && HostLen(Pick(fields, None).value.value) > 0)
      <==> exists k | 0 <= k < |Pairs(fields)| :: NamesHost(Pairs(fields)[k])
  {
    hide HostLen, Pick, EqualFold;
    if exists k | 0 <= k < |Pairs(fields)| :: NamesHost(Pairs(fields)[k]) {
      var k :| 0 <= k < |Pairs(fields)| && NamesHost(Pairs(fields)[k]);
      assert Names(fields[k]);
      PickFirst(fields, Naming(fields), None);
    }
    if Pick(fields, None).Some? && HostLen(Pick(fields, None).value.value) > 0 {
      var k := PickNames(fields, None);
      assert NamesHost(Pairs(fields)[k]);
    }
  }

  // Each rewriter goes ahead exactly when the head can be rewritten and the rewrite would say something:
  // a spelling of "host" that is not the one there, a hostname that is no literal and has no dot at its
  // end, a filler within its bounds.
  lemma RewritesWhen(b: string, spell: string, n: int)
    ensures Respelled(b, spell).Rewritten? <==>
      EqualFold(spell, "host") && HostReq(b).None? && b[HostSpot(b).nameStart..HostSpot(b).nameEnd] != spell
    ensures Dotted(b).Rewritten? <==>
      && HostReq(b).None?
      && var host := b[HostSpot(b).hostStart..HostSpot(b).hostEnd]; !IsIPLiteral(host) && host[|host| - 1] != '.'
    ensures Padded(b, n).Rewritten? <==> MIN_PAD <= n <= MAX_PAD && HostReq(b).None?
  {
    hide HostReq, HostSpot, EqualFold, IsIPLiteral, Pad;
  }
}
