// Reading the head of an HTTP request (internal/httpmsg/parse.go). Octets are characters.
module HttpHead {
  import opened Settings

  const MAX_HEAD := 65536

  const METHODS: seq<string> := ["GET", "HEAD", "POST", "PUT", "DELETE", "CONNECT", "OPTIONS", "TRACE", "PATCH"]

  // ---------------------------------------------------------------- octets

  function IndexOf(s: string, c: char): (r: int)
    ensures -1 <= r < |s|
    ensures r < 0 ==> c !in s
    ensures r >= 0 ==> s[r] == c && forall j | 0 <= j < r :: s[j] != c
  {
    if s == "" then -1
    else if s[0] == c then 0
    else
      var rest := IndexOf(s[1..], c);
      if rest < 0 then -1 else rest + 1
  }

  function LastIndexOf(s: string, c: char): (r: int)
    ensures -1 <= r < |s|
    ensures r < 0 ==> c !in s
    ensures r >= 0 ==> s[r] == c && forall j | r < j < |s| :: s[j] != c
  {
    if s == "" then -1
    else if s[|s| - 1] == c then |s| - 1
    else LastIndexOf(s[..|s| - 1], c)
  }

  predicate IsOWS(c: char) {
    c == ' ' || c == '\t'
  }

  function Lower(c: char): char {
    if 'A' <= c <= 'Z' then c + 32 as char else c
  }

  predicate EqualFold(s: string, t: string) {
    |s| == |t| && forall i | 0 <= i < |s| :: Lower(s[i]) == Lower(t[i])
  }

  // ---------------------------------------------------------------- lines and fields

  // The first line of s: its length without CRLF or LF, and where the next one starts.
  datatype Line = Line(len: nat, next: nat)

  function FirstLine(s: string): (r: Option<Line>)
    ensures r.Some? ==> r.value.len < r.value.next <= |s|
  {
    var nl := IndexOf(s, '\n');
    if nl < 0 then None
    else if nl > 0 && s[nl - 1] == '\r' then Some(Line(nl - 1, nl + 1))
    else Some(Line(nl, nl + 1))
  }

  function SkipOWS(s: string, i: nat): (r: nat)
    requires i <= |s|
    ensures i <= r <= |s| && (r < |s| ==> !IsOWS(s[r]))
    ensures forall j | i <= j < r :: IsOWS(s[j])
    decreases |s| - i
  {
    if i < |s| && IsOWS(s[i]) then SkipOWS(s, i + 1) else i
  }

  function TrimOWS(s: string, from: nat, i: nat): (r: nat)
    requires from <= i <= |s|
    ensures from <= r <= i && (r > from ==> !IsOWS(s[r - 1]))
    ensures forall j | r <= j < i :: IsOWS(s[j])
    decreases i
  {
    if i > from && IsOWS(s[i - 1]) then TrimOWS(s, from, i - 1) else i
  }

  // A header field, by absolute offsets and by its octets.
  datatype Field = Field(ns: nat, ne: nat, vs: nat, ve: nat, name: string, value: string) {
    function Shifted(n: nat): Field {
      Field(ns + n, ne + n, vs + n, ve + n, name, value)
    }
  }

  // The field on one line that starts at offset at, when it has a colon with a name before it.
  function FieldAt(line: string, at: nat): (r: seq<Field>)
    ensures |r| <= 1
    ensures r != [] ==> r[0].ns == at < r[0].ne < r[0].vs + 1 && r[0].vs <= r[0].ve <= at + |line|
  {
    var colon := IndexOf(line, ':');
    if colon <= 0 then []
    else
      var vs := SkipOWS(line, colon + 1);
      var ve := TrimOWS(line, vs, |line|);
      [Field(at, at + colon, at + vs, at + ve, line[..colon], line[vs..ve])]
  }

  // What the header walk visits from s on, which starts at offset at, and where the head ends.
  datatype Scan = Scan(fields: seq<Field>, end: Option<nat>)

  function Walk(s: string, at: nat): Scan
    decreases |s|
  {
    match FirstLine(s)
    case None => Scan([], None)
    case Some(l) =>
      if l.len == 0 then Scan([], Some(at + l.next))
      else
        var rest := Walk(s[l.next..], at + l.next);
        Ahead(FieldAt(s[..l.len], at), rest)
  }

  function Limit(b: string): nat {
    if |b| > MAX_HEAD then MAX_HEAD else |b|
  }

  // The walk never looks past MAX_HEAD.
  function Headers(b: string, off: nat): Scan {
    if off > Limit(b) then Scan([], None) else Walk(b[off..Limit(b)], off)
  }

  function Ahead(fields: seq<Field>, rest: Scan): Scan {
    Scan(fields + rest.fields, rest.end)
  }

  // ---------------------------------------------------------------- the request line

  datatype RequestLine = RequestLine(method_: string, target: string, minor: nat, next: nat)

  function ParseLine(b: string): Option<RequestLine> {
    match FirstLine(b)
    case None => None
    case Some(l) => LineParts(b[..l.len], l.next)
  }

  function LineParts(line: string, next: nat): Option<RequestLine> {
    var sp1, sp2 := IndexOf(line, ' '), LastIndexOf(line, ' ');
    if sp1 <= 0 || sp2 <= sp1 + 1 || sp2 + 1 >= |line| || line[..sp1] !in METHODS then None
    else
      var ver := line[sp2 + 1..];
      if |ver| != 8 || ver[..7] != "HTTP/1." || !('0' <= ver[7] <= '9') then None
      else Some(RequestLine(line[..sp1], line[sp1 + 1..sp2], ver[7] as int - '0' as int, next))
  }

  // ---------------------------------------------------------------- the host

  // The length of the hostname in a Host value: without ":port", an IPv6 literal's brackets kept.
  function HostLen(v: string): (n: nat)
    ensures n <= |v|
  {
    if v == "" then 0
    else if v[0] == '[' then
      var i := IndexOf(v, ']');
      if i >= 0 then i + 1 else |v|
    else
      var i := LastIndexOf(v, ':');
      if i >= 0 then i else |v|
  }

  predicate IsHost(f: Field) {
    EqualFold(f.name, "host")
  }

  predicate Names(f: Field) {
    IsHost(f) && HostLen(f.value) > 0
  }

  // The Host field that is kept while the fields go by: a later one replaces it until one has a hostname.
  function Pick(fields: seq<Field>, kept: Option<Field>): Option<Field>
    decreases |fields|
  {
    if fields == [] then kept
    else if (kept.Some? && HostLen(kept.value.value) > 0) || !IsHost(fields[0]) then Pick(fields[1..], kept)
    else Pick(fields[1..], Some(fields[0]))
  }

  // Offsets are absolute, and -1 where the field is absent.
  datatype Request = Request(method_: string, target: string, minor: int, complete: bool, headerEnd: int,
                             nameStart: int, nameEnd: int, valueStart: int, valueEnd: int,
                             hostStart: int, hostEnd: int, host: string) {
    predicate HasHost() {
      hostStart >= 0 && hostEnd > hostStart
    }
  }

  function Assemble(l: RequestLine, scan: Scan): Request {
    var end := if scan.end.Some? then scan.end.value else -1;
    match Pick(scan.fields, None)
    case None => Request(l.method_, l.target, l.minor, scan.end.Some?, end, -1, -1, -1, -1, -1, -1, "")
    case Some(f) =>
      Request(l.method_, l.target, l.minor, scan.end.Some?, end, f.ns, f.ne, f.vs, f.ve,
              f.vs, f.vs + HostLen(f.value), f.value[..HostLen(f.value)])
  }

  // None is ErrNotRequest.
  function Parsed(b: string): Option<Request> {
    match ParseLine(b)
    case None => None
    case Some(l) => Some(Assemble(l, Headers(b, l.next)))
  }

  // ---------------------------------------------------------------- the walker and the parser

  // One step of the walk.
  lemma WalkUnfolds(s: string, at: nat)
    ensures match FirstLine(s)
      case None => Walk(s, at) == Scan([], None)
      case Some(l) =>
        if l.len == 0 then Walk(s, at) == Scan([], Some(at + l.next))
        else Walk(s, at) == Ahead(FieldAt(s[..l.len], at), Walk(s[l.next..], at + l.next))
  {
    hide FirstLine, FieldAt, Ahead;
  }

  lemma SliceOfSlice(b: string, i: nat, limit: nat, k: nat)
    requires i <= limit <= |b| && k <= limit - i
    ensures b[i..limit][k..] == b[i + k..limit] && b[i..limit][..k] == b[i..i + k]
  {
  }

  lemma HeadersFrom(b: string, i: nat)
    requires i <= Limit(b)
    ensures match FirstLine(b[i..Limit(b)])
      case None => Headers(b, i) == Scan([], None)
      case Some(l) =>
        if l.len == 0 then Headers(b, i) == Scan([], Some(i + l.next))
        else Headers(b, i) == Ahead(FieldAt(b[i..i + l.len], i), Headers(b, i + l.next))
  {
    hide FieldAt, FirstLine, Ahead, Walk;
    WalkUnfolds(b[i..Limit(b)], i);
    var line := FirstLine(b[i..Limit(b)]);
    if line.Some? {
      SliceOfSlice(b, i, Limit(b), line.value.next);
      SliceOfSlice(b, i, Limit(b), line.value.len);
    }
  }

  lemma AheadAgain(fields: seq<Field>, more: seq<Field>, rest: Scan)
    ensures Ahead(fields, Ahead(more, rest)) == Ahead(fields + more, rest)
    ensures Ahead([], rest) == rest
  {
  }

  // Visits header lines from off on, up to the end of the header block, of the buffer, or MAX_HEAD.
  method ForEachHeader(b: string, off: nat) returns (fields: seq<Field>, headerEnd: int, complete: bool)
    ensures var scan := Headers(b, off);
      && fields == scan.fields && complete == scan.end.Some?
      && headerEnd == if scan.end.Some? then scan.end.value else -1
  {
    hide FieldAt, FirstLine, Walk;
    fields := [];
    var limit := Limit(b);
    var i := off;
    AheadAgain([], [], Headers(b, off));
    while i <= limit
      invariant Ahead(fields, Headers(b, i)) == Headers(b, off)
      decreases limit - i
    {
      HeadersFrom(b, i);
      match FirstLine(b[i..limit])
      case None =>
        return fields, -1, false;
      case Some(l) =>
        if l.len == 0 {
          return fields, i + l.next, true;
        }
        var field := VisitLine(b[i..i + l.len], i);
        AheadAgain(fields, field, Headers(b, i + l.next));
        fields := fields + field;
        i := i + l.next;
    }
    return fields, -1, false;
  }

  lemma FieldIs(line: string, at: nat, colon: int, vs: nat, ve: nat)
    requires colon == IndexOf(line, ':') > 0 && vs == SkipOWS(line, colon + 1) && ve == TrimOWS(line, vs, |line|)
    ensures FieldAt(line, at) == [Field(at, at + colon, at + vs, at + ve, line[..colon], line[vs..ve])]
  {
    hide SkipOWS, TrimOWS, IndexOf, IsOWS;
  }

  // The field on one line, its value trimmed from both sides.
  method VisitLine(line: string, at: nat) returns (field: seq<Field>)
    ensures field == FieldAt(line, at)
  {
    hide IsOWS, IndexOf;
    var colon := IndexOf(line, ':');
    if colon <= 0 {
      return [];
    }
    hide FieldAt;
    var vs, ve := colon + 1, |line|;
    while vs < ve && IsOWS(line[vs])
      invariant colon + 1 <= vs <= ve
      invariant SkipOWS(line, vs) == SkipOWS(line, colon + 1)
    {
      vs := vs + 1;
    }
    while ve > vs && IsOWS(line[ve - 1])
      invariant vs <= ve <= |line|
      invariant TrimOWS(line, vs, ve) == TrimOWS(line, vs, |line|)
    {
      ve := ve - 1;
    }
    FieldIs(line, at, colon, vs, ve);
    field := [Field(at, at + colon, at + vs, at + ve, line[..colon], line[vs..ve])];
  }

  // The request line, then field after field; the Host field is kept on the way.
  method Parse(b: string) returns (r: Option<Request>)
    ensures r == Parsed(b)
  {
    hide Walk, Headers;
    var line := ParseLine(b);
    if line.None? {
      return None;
    }
    var fields, headerEnd, complete := ForEachHeader(b, line.value.next);
    var kept: Option<Field> := None;
    for i := 0 to |fields|
      invariant Pick(fields[i..], kept) == Pick(fields, None)
    {
      if !(kept.Some? && HostLen(kept.value.value) > 0) && EqualFold(fields[i].name, "host") {
        kept := Some(fields[i]);
      }
    }
    var l := line.value;
    var rq := Request(l.method_, l.target, l.minor, complete, headerEnd, -1, -1, -1, -1, -1, -1, "");
    if kept.Some? {
      var f := kept.value;
      var n := HostLen(f.value);
      rq := rq.(nameStart := f.ns, nameEnd := f.ne, valueStart := f.vs, valueEnd := f.ve,
                hostStart := f.vs, hostEnd := f.vs + n, host := f.value[..n]);
    }
    r := Some(rq);
  }

  // ---------------------------------------------------------------- detection

  predicate Starts(b: string, m: string) {
    b <= m || (m <= b && (|b| == |m| || b[|m|] == ' '))
  }

  predicate Detected(b: string) {
    b != "" && exists i | 0 <= i < |METHODS| :: Starts(b, METHODS[i])
  }

  method Detect(b: string) returns (yes: bool)
    ensures yes == Detected(b)
  {
    if |b| == 0 {
      return false;
    }
    for i := 0 to |METHODS|
      invariant forall j | 0 <= j < i :: !Starts(b, METHODS[j])
    {
      var m := METHODS[i];
      if |b| < |m| {
        if b == m[..|b|] {
          assert Starts(b, METHODS[i]);
          return true;
        }
        continue;
      }
      if b[..|m|] != m {
        continue;
      }
      NoMethodStartsAnother(b, i);
      return |b| == |m| || b[|m|] == ' ';
    }
    yes := false;
  }

  // No method's name begins another's, so the first one found decides.
  lemma NoMethodStartsAnother(b: string, i: nat)
    requires i < |METHODS| && METHODS[i] <= b
    ensures forall j | 0 <= j < |METHODS| && j != i :: !Starts(b, METHODS[j])
  {
    forall j | 0 <= j < |METHODS| && j != i ensures !Starts(b, METHODS[j]) {
      var m, n := METHODS[i], METHODS[j];
      assert m[0] != n[0] || m[1] != n[1];
      assert b[0] == m[0] && b[1] == m[1];
    }
  }

  // How many more octets are needed, and whether to go on waiting at all.
  function Need(b: string): (int, bool) {
    if !Detected(b) then (0, false)
    else
      var r := Parsed(b);
      if r.Some? && r.value.complete then (0, true)
      else if r.Some? then (1, true)
      else if FirstLine(b).Some? then (0, false)
      else (1, true)
  }
}
