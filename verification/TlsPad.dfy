// The ClientHello padding rewrite (internal/ops/pad.go): RFC 8446 sections 4.1.2, 4.2 and 5.1, RFC 7685 section 3.
module TlsPad {
  import opened Octets
  import opened Settings

  const EXT_PADDING := 21
  const EXT_SERVER_NAME := 0
  const EXT_HDR_LEN := 4
  const MAX_RECORD_BODY := 16384

  function Slice(b: Bytes, from: nat, len: nat): (r: Bytes)
    requires from + len <= |b|
    ensures |r| == len
  {
    b[from..from + len]
  }

  function U16(b: Bytes, p: nat): (r: nat)
    requires p + 2 <= |b|
    ensures r < 0x1_0000
  {
    b[p] as nat * 256 + b[p + 1] as nat
  }

  function U24(b: Bytes, p: nat): (r: nat)
    requires p + 3 <= |b|
    ensures r < 0x100_0000
  {
    b[p] as nat * 0x1_0000 + U16(b, p + 1)
  }

  function Bytes16(v: nat): (r: Bytes)
    requires v < 0x1_0000
    ensures |r| == 2 && U16(r, 0) == v
  {
    [(v / 256) as Byte, (v % 256) as Byte]
  }

  function Bytes24(v: nat): (r: Bytes)
    requires v < 0x100_0000
    ensures |r| == 3 && U24(r, 0) == v
  {
    [(v / 0x1_0000) as Byte, (v / 256 % 256) as Byte, (v % 256) as Byte]
  }

  // ---------------------------------------------------------------- walking a hello

  // off is the body-relative offset of the extension's type field, len the declared length of its data.
  datatype Ext = Ext(typ: nat, off: nat, len: nat)

  datatype Hello = Hello(extLenOff: nat, exts: seq<Ext>)

  // The extensions that tile b[p..limit], when extensions do.
  function ExtsFrom(b: Bytes, p: nat, limit: nat): Option<seq<Ext>>
    requires p <= limit <= |b|
    decreases limit - p
  {
    if p + EXT_HDR_LEN <= limit then
      var n := U16(b, p + 2);
      if p + EXT_HDR_LEN + n > limit then None
      else match ExtsFrom(b, p + EXT_HDR_LEN + n, limit)
        case None => None
        case Some(rest) => Some([Ext(U16(b, p), p, n)] + rest)
    else if p == limit then Some([]) else None
  }

  // Where the length of the extension block stands, behind the session id, cipher suites and compression methods.
  function ExtLenOff(b: Bytes): (r: Option<nat>)
    ensures r.Some? ==> 38 < r.value && r.value + 2 <= |b|
  {
    if 38 >= |b| then None
    else
      var suites := 38 + 1 + b[38] as nat;
      if suites + 2 > |b| then None
      else
        var methods := suites + 2 + U16(b, suites);
        if methods >= |b| then None
        else
          var at := methods + 1 + b[methods] as nat;
          if at + 2 > |b| then None else Some(at)
  }

  function WalkHello(b: Bytes): Option<Hello> {
    if |b| < 4 || b[0] != 1 || 4 + U24(b, 1) > |b| || ExtLenOff(b).None? then None
    else
      var at := ExtLenOff(b).value;
      var limit := at + 2 + U16(b, at);
      if limit > |b| then None
      else match ExtsFrom(b, at + 2, limit)
        case None => None
        case Some(exts) => Some(Hello(at, exts))
  }

  method WalkHelloExtensions(b: Bytes) returns (r: Option<Hello>)
    ensures r == WalkHello(b)
  {
    hide U16, U24, ExtsFrom, ExtLenOff;
    if |b| < 4 || b[0] != 1 {
      return None;
    }
    if 4 + U24(b, 1) > |b| {
      return None;
    }
    var at := SkipToExtensions(b);
    if at.None? {
      return None;
    }
    var p := at.value + 2;
    var total := U16(b, at.value);
    if p + total > |b| {
      return None;
    }
    var exts := TileExtensions(b, p, p + total);
    r := if exts.None? then None else Some(Hello(at.value, exts.value));
  }

  // Session id, cipher suites, compression methods: each length is checked before it is used.
  method SkipToExtensions(b: Bytes) returns (r: Option<nat>)
    ensures r == ExtLenOff(b)
  {
    hide U16;
    var p := 38;
    if p >= |b| {
      return None;
    }
    p := p + 1 + b[p] as nat;
    if p + 2 > |b| {
      return None;
    }
    p := p + 2 + U16(b, p);
    if p >= |b| {
      return None;
    }
    p := p + 1 + b[p] as nat;
    if p + 2 > |b| {
      return None;
    }
    r := Some(p);
  }

  function InFront(exts: seq<Ext>, rest: Option<seq<Ext>>): Option<seq<Ext>> {
    if rest.None? then None else Some(exts + rest.value)
  }

  lemma InFrontMore(exts: seq<Ext>, e: Ext, rest: Option<seq<Ext>>)
    ensures InFront(exts, InFront([e], rest)) == InFront(exts + [e], rest)
    ensures InFront([], rest) == rest
  {
    if rest.Some? {
      assert [] + rest.value == rest.value;
      assert exts + ([e] + rest.value) == (exts + [e]) + rest.value;
    }
  }

  lemma TileStep(b: Bytes, p: nat, limit: nat)
    requires p <= limit <= |b|
    ensures p + EXT_HDR_LEN > limit ==> ExtsFrom(b, p, limit) == if p == limit then Some([]) else None
    ensures p + EXT_HDR_LEN <= limit ==>
      var n := U16(b, p + 2);
      ExtsFrom(b, p, limit) ==
        if p + EXT_HDR_LEN + n > limit then None else InFront([Ext(U16(b, p), p, n)], ExtsFrom(b, p + EXT_HDR_LEN + n, limit))
  {
    hide U16;
  }

  // Extension after extension, each inside the block.
  method TileExtensions(b: Bytes, start: nat, limit: nat) returns (r: Option<seq<Ext>>)
    requires start <= limit <= |b|
    ensures r == ExtsFrom(b, start, limit)
  {
    hide U16, ExtsFrom, InFront;
    var p := start;
    var exts: seq<Ext> := [];
    InFrontMore([], Ext(0, 0, 0), ExtsFrom(b, p, limit));
    while p + EXT_HDR_LEN <= limit
      invariant start <= p <= limit
      invariant ExtsFrom(b, start, limit) == InFront(exts, ExtsFrom(b, p, limit))
      decreases limit - p
    {
      TileStep(b, p, limit);
      var typ, n := U16(b, p), U16(b, p + 2);
      if p + EXT_HDR_LEN + n > limit {
        NothingInFront(exts);
        return None;
      }
      InFrontMore(exts, Ext(typ, p, n), ExtsFrom(b, p + EXT_HDR_LEN + n, limit));
      exts := exts + [Ext(typ, p, n)];
      p := p + EXT_HDR_LEN + n;
    }
    TileStep(b, p, limit);
    NothingInFront(exts);
    r := if p == limit then Some(exts) else None;
  }

  lemma NothingInFront(exts: seq<Ext>)
    ensures InFront(exts, None) == None && InFront(exts, Some([])) == Some(exts)
  {
    assert exts + [] == exts;
  }

  // ---------------------------------------------------------------- the same octets walk the same

  function ShiftExt(e: Ext, d: nat): Ext {
    e.(off := e.off + d)
  }

  function ShiftExts(exts: seq<Ext>, d: nat): (r: seq<Ext>)
    ensures |r| == |exts|
  {
    seq(|exts|, i requires 0 <= i < |exts| => ShiftExt(exts[i], d))
  }

  // c has the octets of b from p to limit, d further on.
  predicate Copied(b: Bytes, c: Bytes, p: nat, limit: nat, d: nat) {
    limit <= |b| && limit + d <= |c| && forall j | p <= j < limit :: c[j + d] == b[j]
  }

  lemma {:induction false} ExtsShift(b: Bytes, c: Bytes, p: nat, limit: nat, d: nat)
    requires p <= limit && Copied(b, c, p, limit, d) && ExtsFrom(b, p, limit).Some?
    ensures ExtsFrom(c, p + d, limit + d) == Some(ShiftExts(ExtsFrom(b, p, limit).value, d))
    decreases limit - p
  {
    if p + EXT_HDR_LEN <= limit {
      U16Copied(b, c, p, limit, d, p);
      U16Copied(b, c, p, limit, d, p + 2);
      var next := p + EXT_HDR_LEN + U16(b, p + 2);
      ExtsShift(b, c, next, limit, d);
      var e, rest := Ext(U16(b, p), p, U16(b, p + 2)), ExtsFrom(b, next, limit).value;
      assert ShiftExts([e] + rest, d) == [ShiftExt(e, d)] + ShiftExts(rest, d);
    }
  }

  lemma U16Copied(b: Bytes, c: Bytes, p: nat, limit: nat, d: nat, at: nat)
    requires Copied(b, c, p, limit, d) && p <= at && at + 2 <= limit
    ensures U16(c, at + d) == U16(b, at)
  {
    assert c[at + d] == b[at] && c[(at + 1) + d] == b[at + 1];
  }

  // Extensions tile their block: each stands inside, and behind the ones before it.
  lemma {:induction false} ExtsTile(b: Bytes, p: nat, limit: nat)
    requires p <= limit <= |b| && ExtsFrom(b, p, limit).Some?
    ensures var exts := ExtsFrom(b, p, limit).value;
      forall i | 0 <= i < |exts| :: p <= exts[i].off && exts[i].off + EXT_HDR_LEN + exts[i].len <= limit
    decreases limit - p
  {
    if p + EXT_HDR_LEN <= limit {
      ExtsTile(b, p + EXT_HDR_LEN + U16(b, p + 2), limit);
    }
  }

  // One step of the walk, when there is another extension.
  lemma ExtsUnfold(b: Bytes, p: nat, limit: nat)
    requires p + EXT_HDR_LEN <= limit <= |b| && p + EXT_HDR_LEN + U16(b, p + 2) <= limit
    ensures var n := U16(b, p + 2); var rest := ExtsFrom(b, p + EXT_HDR_LEN + n, limit);
      && (rest.None? ==> ExtsFrom(b, p, limit).None?)
      && (rest.Some? ==> ExtsFrom(b, p, limit) == Some([Ext(U16(b, p), p, n)] + rest.value))
  {
  }

  lemma ExtsHead(b: Bytes, p: nat, limit: nat)
    requires p <= limit <= |b| && ExtsFrom(b, p, limit).Some? && ExtsFrom(b, p, limit).value != []
    ensures p + EXT_HDR_LEN <= limit && p + EXT_HDR_LEN + U16(b, p + 2) <= limit
    ensures ExtsFrom(b, p + EXT_HDR_LEN + U16(b, p + 2), limit).Some?
  {
  }

  // The walk up to the k-th extension, in a block that is d longer, with anything from there on.
  lemma {:induction false} ExtsUpTo(b: Bytes, c: Bytes, p: nat, limit: nat, k: nat, d: nat)
    requires p <= limit <= |b| && limit + d <= |c| && ExtsFrom(b, p, limit).Some?
    requires k < |ExtsFrom(b, p, limit).value|
    requires Copied(b, c, p, ExtsFrom(b, p, limit).value[k].off, 0)
    ensures var exts := ExtsFrom(b, p, limit).value; var off := exts[k].off;
      && p <= off <= limit && ExtsFrom(b, off, limit) == Some(exts[k..])
      && (ExtsFrom(c, off, limit + d).Some? ==>
            ExtsFrom(c, p, limit + d) == Some(exts[..k] + ExtsFrom(c, off, limit + d).value))
    decreases limit - p
  {
    hide ExtsFrom, U16;
    ExtsHead(b, p, limit);
    ExtsUnfold(b, p, limit);
    var exts := ExtsFrom(b, p, limit).value;
    var next := p + EXT_HDR_LEN + U16(b, p + 2);
    var rest := ExtsFrom(b, next, limit).value;
    if k > 0 {
      var off := exts[k].off;
      assert exts[k] == rest[k - 1];
      ExtsTile(b, next, limit);
      U16Copied(b, c, p, off, 0, p);
      U16Copied(b, c, p, off, 0, p + 2);
      ExtsUpTo(b, c, next, limit, k - 1, d);
      ExtsUnfold(c, p, limit + d);
      SplitBehind(exts[0], rest, k);
      if ExtsFrom(c, off, limit + d).Some? {
        SplitMore(exts[0], rest[..k - 1], ExtsFrom(c, off, limit + d).value);
      }
    } else {
      assert exts[0..] == exts;
      assert forall more: seq<Ext> :: exts[..0] + more == more;
    }
  }

  lemma SplitBehind(e: Ext, rest: seq<Ext>, k: nat)
    requires 0 < k <= |rest|
    ensures ([e] + rest)[k..] == rest[k - 1..] && ([e] + rest)[..k] == [e] + rest[..k - 1]
  {
  }

  lemma SplitMore(e: Ext, a: seq<Ext>, b: seq<Ext>)
    ensures [e] + (a + b) == ([e] + a) + b
  {
  }

  lemma ExtLenOffSame(b: Bytes, c: Bytes)
    requires ExtLenOff(b).Some? && |b| <= |c|
    requires Copied(b, c, 38, ExtLenOff(b).value, 0)
    ensures ExtLenOff(c) == ExtLenOff(b)
  {
    var at := ExtLenOff(b).value;
    assert c[38 + 0] == b[38];
    var suites := 38 + 1 + b[38] as nat;
    U16Copied(b, c, 38, at, 0, suites);
    var methods := suites + 2 + U16(b, suites);
    assert c[methods + 0] == b[methods];
  }

  // ---------------------------------------------------------------- the rewrite

  // The parts of a first message's description that the rewrite uses; SNI offsets are body-relative.
  datatype Meta = Meta(tls: bool, complete: bool, bodyOff: int, bodyLen: int, sniStart: int, sniEnd: int)

  datatype PadErr = NeedComplete | NeedSNI | BadValue | NotClientHello | AlreadyPadded

  datatype PadResult = Padded(out: Bytes) | Refused(err: PadErr)

  // The last server_name extension; padding anywhere refuses.
  function LastName(exts: seq<Ext>): (k: int)
    ensures -1 <= k < |exts| && (k >= 0 ==> exts[k].typ == EXT_SERVER_NAME)
    ensures forall i | k < i < |exts| :: exts[i].typ != EXT_SERVER_NAME
  {
    if exts == [] then -1
    else if exts[|exts| - 1].typ == EXT_SERVER_NAME then |exts| - 1
    else LastName(exts[..|exts| - 1])
  }

  predicate HasPadding(exts: seq<Ext>) {
    exists i | 0 <= i < |exts| :: exts[i].typ == EXT_PADDING
  }

  function Patch(s: Bytes, at: nat, x: Bytes): (r: Bytes)
    requires at + |x| <= |s|
    ensures |r| == |s|
  {
    s[..at] + x + s[at + |x|..]
  }

  lemma PatchAt(s: Bytes, at: nat, x: Bytes, j: nat)
    requires at + |x| <= |s| && j < |s|
    ensures Patch(s, at, x)[j] == if at <= j < at + |x| then x[j - at] else s[j]
  {
  }

  function PadExt(delta: nat): (r: Bytes)
    requires EXT_HDR_LEN <= delta <= MAX_RECORD_BODY
    ensures |r| == delta && U16(r, 0) == EXT_PADDING && U16(r, 2) == delta - EXT_HDR_LEN
  {
    Bytes16(EXT_PADDING) + Bytes16(delta - EXT_HDR_LEN) + seq(delta - EXT_HDR_LEN, _ => 0)
  }

  // What is refused before the hello is looked at.
  function BadMeta(payload: Bytes, m: Meta, to: int): (r: Option<PadErr>)
    ensures r.None? ==> 5 <= m.bodyOff && 0 < m.bodyLen && m.bodyOff + m.bodyLen <= |payload|
    ensures r.None? ==> 0 <= m.sniStart && EXT_HDR_LEN <= to - m.sniStart && m.bodyLen + (to - m.sniStart) <= MAX_RECORD_BODY
  {
    var end := m.bodyOff + m.bodyLen;
    var delta := to - m.sniStart;
    if !m.tls || !m.complete then Some(NeedComplete)
    else if !(m.sniStart >= 0 && m.sniEnd > m.sniStart) then Some(NeedSNI)
    else if m.bodyOff < 5 || end > |payload| || m.bodyOff >= end then Some(NeedComplete)
    else if delta < EXT_HDR_LEN || m.bodyLen + delta > MAX_RECORD_BODY then Some(BadValue)
    else None
  }

  function Refusal(payload: Bytes, m: Meta, to: int): Option<PadErr> {
    if BadMeta(payload, m, to).Some? then BadMeta(payload, m, to)
    else match WalkHello(Slice(payload, m.bodyOff, m.bodyLen))
      case None => Some(NotClientHello)
      case Some(h) =>
        if HasPadding(h.exts) then Some(AlreadyPadded)
        else if LastName(h.exts) < 0 then Some(NotClientHello)
        else if U16(payload, m.bodyOff - 2) + (to - m.sniStart) > MAX_RECORD_BODY then Some(BadValue)
        else None
  }

  // The octets with the padding inserted and no length changed yet.
  function Inserted(payload: Bytes, at: nat, pad: Bytes): (r: Bytes)
    requires at <= |payload|
    ensures |r| == |payload| + |pad|
  {
    payload[..at] + pad + payload[at..]
  }

  lemma InsertedAt(payload: Bytes, at: nat, pad: Bytes, j: nat)
    requires at <= |payload| && j < |payload| + |pad|
    ensures Inserted(payload, at, pad)[j] ==
      if j < at then payload[j] else if j < at + |pad| then pad[j - at] else payload[j - |pad|]
  {
  }

  // Where a record's body starts, where in it the padding goes and how much, and where its extension block starts.
  datatype Cut = Cut(bodyOff: nat, at: nat, delta: nat, extLenOff: nat)

  // What holds of every cut that is made, so that only the record length can still refuse.
  predicate Fits(payload: Bytes, c: Cut) {
    && 5 <= c.bodyOff && 38 < c.extLenOff && c.extLenOff + 2 <= c.at && c.bodyOff + c.at <= |payload|
    && EXT_HDR_LEN <= c.delta <= MAX_RECORD_BODY
    && U24(payload, c.bodyOff + 1) + c.delta < 0x100_0000 && U16(payload, c.bodyOff + c.extLenOff) + c.delta < 0x1_0000
  }

  // Inserts the padding and moves the three nested lengths together.
  function Rebuilt(payload: Bytes, c: Cut): Bytes
    requires Fits(payload, c) && U16(payload, c.bodyOff - 2) + c.delta < 0x1_0000
  {
    Patched(Inserted(payload, c.bodyOff + c.at, PadExt(c.delta)),
            c.bodyOff - 2, Bytes16(U16(payload, c.bodyOff - 2) + c.delta),
            c.bodyOff + 1, Bytes24(U24(payload, c.bodyOff + 1) + c.delta),
            c.bodyOff + c.extLenOff, Bytes16(U16(payload, c.bodyOff + c.extLenOff) + c.delta))
  }

  // Three lengths of a record, one behind the other.
  function Patched(s: Bytes, a: nat, x: Bytes, b: nat, y: Bytes, d: nat, z: Bytes): (r: Bytes)
    requires |x| == 2 && |y| == 3 && |z| == 2 && a + 2 <= b && b + 3 <= d && d + 2 <= |s|
    ensures |r| == |s|
  {
    Patch(Patch(Patch(s, a, x), b, y), d, z)
  }

  lemma PatchedReads(s: Bytes, a: nat, x: Bytes, b: nat, y: Bytes, d: nat, z: Bytes)
    requires |x| == 2 && |y| == 3 && |z| == 2 && a + 2 <= b && b + 3 <= d && d + 2 <= |s|
    ensures var r := Patched(s, a, x, b, y, d, z);
      U16(r, a) == U16(x, 0) && U24(r, b) == U24(y, 0) && U16(r, d) == U16(z, 0)
  {
    hide U16, U24, Patch;
    var s1 := Patch(s, a, x);
    var s2 := Patch(s1, b, y);
    PatchReads(s, a, x);
    PatchReads(s1, b, y);
    PatchReads(s2, d, z);
    PatchKeeps(s1, b, y, a);
    PatchKeeps(s2, d, z, a);
    PatchKeeps(s2, d, z, b);
  }

  lemma PatchedAt(s: Bytes, a: nat, x: Bytes, b: nat, y: Bytes, d: nat, z: Bytes, j: nat)
    requires |x| == 2 && |y| == 3 && |z| == 2 && a + 2 <= b && b + 3 <= d && d + 2 <= |s|
    requires j < |s| && !(a <= j < a + 2) && !(b <= j < b + 3) && !(d <= j < d + 2)
    ensures Patched(s, a, x, b, y, d, z)[j] == s[j]
  {
    hide Patch;
    var s1 := Patch(s, a, x);
    PatchAt(s, a, x, j);
    PatchAt(s1, b, y, j);
    PatchAt(Patch(s1, b, y), d, z, j);
  }

  lemma CutFacts(body: Bytes)
    requires WalkHello(body).Some?
    ensures var h := WalkHello(body).value;
      && 38 < h.extLenOff && h.extLenOff + 2 + U16(body, h.extLenOff) <= |body|
      && ExtLenOff(body) == Some(h.extLenOff) && U24(body, 1) + 4 <= |body|
      && ExtsFrom(body, h.extLenOff + 2, h.extLenOff + 2 + U16(body, h.extLenOff)) == Some(h.exts)
      && forall i | 0 <= i < |h.exts| ::
           h.extLenOff + 2 <= h.exts[i].off && h.exts[i].off + EXT_HDR_LEN + h.exts[i].len <= |body|
  {
    var at := ExtLenOff(body).value;
    ExtsTile(body, at + 2, at + 2 + U16(body, at));
  }

  lemma CutFits(payload: Bytes, m: Meta, to: int)
    requires BadMeta(payload, m, to).None? && WalkHello(Slice(payload, m.bodyOff, m.bodyLen)).Some?
    requires LastName(WalkHello(Slice(payload, m.bodyOff, m.bodyLen)).value.exts) >= 0
    ensures var h := WalkHello(Slice(payload, m.bodyOff, m.bodyLen)).value;
      Fits(payload, Cut(m.bodyOff, h.exts[LastName(h.exts)].off, to - m.sniStart, h.extLenOff))
  {
    hide BadMeta, WalkHello, U16, U24, LastName, HasPadding;
    var body := Slice(payload, m.bodyOff, m.bodyLen);
    CutFacts(body);
    SliceReads24(payload, m.bodyOff, m.bodyLen, 1);
    SliceReads16(payload, m.bodyOff, m.bodyLen, ExtLenOff(body).value);
    U24Below(body, 1);
  }

  // The specification, decision by decision, once the description is in order.
  lemma SpecUnfolds(payload: Bytes, m: Meta, to: int)
    requires BadMeta(payload, m, to).None?
    ensures var w := WalkHello(Slice(payload, m.bodyOff, m.bodyLen));
      && (w.None? ==> PadSpec(payload, m, to) == Refused(NotClientHello))
      && (w.Some? && HasPadding(w.value.exts) ==> PadSpec(payload, m, to) == Refused(AlreadyPadded))
      && (w.Some? && !HasPadding(w.value.exts) && LastName(w.value.exts) < 0 ==> PadSpec(payload, m, to) == Refused(NotClientHello))
      && (w.Some? && !HasPadding(w.value.exts) && LastName(w.value.exts) >= 0 ==>
           var c := Cut(m.bodyOff, w.value.exts[LastName(w.value.exts)].off, to - m.sniStart, w.value.extLenOff);
           Fits(payload, c) &&
           PadSpec(payload, m, to) ==
             if U16(payload, c.bodyOff - 2) + c.delta > MAX_RECORD_BODY then Refused(BadValue) else Padded(Rebuilt(payload, c)))
  {
    hide BadMeta, WalkHello, U16, U24, LastName, HasPadding, Rebuilt, Slice;
    var w := WalkHello(Slice(payload, m.bodyOff, m.bodyLen));
    if w.Some? && LastName(w.value.exts) >= 0 {
      CutFits(payload, m, to);
    }
    hide Fits;
  }

  lemma U24Below(b: Bytes, p: nat)
    requires p + 3 <= |b|
    ensures U24(b, p) < 0x100_0000
  {
  }

  function CutOf(payload: Bytes, m: Meta, to: int): (c: Cut)
    requires Refusal(payload, m, to).None?
    ensures Fits(payload, c) && U16(payload, c.bodyOff - 2) + c.delta <= MAX_RECORD_BODY
  {
    var body := Slice(payload, m.bodyOff, m.bodyLen);
    CutFits(payload, m, to);
    var h := WalkHello(body).value;
    Cut(m.bodyOff, h.exts[LastName(h.exts)].off, to - m.sniStart, h.extLenOff)
  }

  function PadSpec(payload: Bytes, m: Meta, to: int): PadResult {
    match Refusal(payload, m, to)
    case Some(err) => Refused(err)
    case None => Padded(Rebuilt(payload, CutOf(payload, m, to)))
  }

  // ---------------------------------------------------------------- in place

  // Adds delta to the length at out[at..at + 2], unless it would no longer fit.
  method AddUint16(out: array<Byte>, at: nat, delta: nat, max: nat) returns (ok: bool)
    requires at + 2 <= out.Length && max < 0x1_0000
    modifies out
    ensures ok == (U16(old(out[..]), at) + delta <= max)
    ensures out[..] == if ok then Patch(old(out[..]), at, Bytes16(U16(old(out[..]), at) + delta)) else old(out[..])
  {
    var v := out[at] as int * 256 + out[at + 1] as int + delta;
    if v > max {
      return false;
    }
    out[at] := (v / 256) as Byte;
    out[at + 1] := (v % 256) as Byte;
    ok := true;
  }

  method AddUint24(out: array<Byte>, at: nat, delta: nat) returns (ok: bool)
    requires at + 3 <= out.Length
    modifies out
    ensures ok == (U24(old(out[..]), at) + delta < 0x100_0000)
    ensures out[..] == if ok then Patch(old(out[..]), at, Bytes24(U24(old(out[..]), at) + delta)) else old(out[..])
  {
    var v := out[at] as int * 0x1_0000 + out[at + 1] as int * 256 + out[at + 2] as int + delta;
    if v >= 0x100_0000 {
      return false;
    }
    out[at] := (v / 0x1_0000) as Byte;
    out[at + 1] := (v / 256 % 256) as Byte;
    out[at + 2] := (v % 256) as Byte;
    ok := true;
  }

  method InsertPad(payload: Bytes, at: nat, pad: Bytes) returns (out: array<Byte>)
    requires at <= |payload|
    ensures fresh(out) && out[..] == Inserted(payload, at, pad)
  {
    var s := payload[..at];
    s := s + pad;
    s := s + payload[at..];
    out := new Byte[|s|](i requires 0 <= i < |s| => s[i]);
    assert out[..] == s;
  }

  // The insertion, into a fresh buffer, and the three lengths, in place.
  method Rebuild(payload: Bytes, c: Cut) returns (r: PadResult)
    requires Fits(payload, c)
    ensures r == if U16(payload, c.bodyOff - 2) + c.delta > MAX_RECORD_BODY then Refused(BadValue) else Padded(Rebuilt(payload, c))
  {
    hide U16, U24, Bytes16, Bytes24, PadExt, Patch, Inserted;
    LengthsStand(payload, c, [0, 0], [0, 0, 0]);
    var out := InsertPad(payload, c.bodyOff + c.at, PadExt(c.delta));
    var fits := AddUint16(out, c.bodyOff - 2, c.delta, MAX_RECORD_BODY);
    if !fits {
      return Refused(BadValue);
    }
    LengthsStand(payload, c, Bytes16(U16(payload, c.bodyOff - 2) + c.delta), Bytes24(U24(payload, c.bodyOff + 1) + c.delta));
    fits := AddUint24(out, c.bodyOff + 1, c.delta);
    if !fits {
      return Refused(BadValue);
    }
    fits := AddUint16(out, c.bodyOff + c.extLenOff, c.delta, 0xffff);
    if !fits {
      return Refused(BadValue);
    }
    r := Padded(out[..]);
  }

  // No length is read after it has been moved.
  lemma LengthsStand(payload: Bytes, c: Cut, x: Bytes, y: Bytes)
    requires Fits(payload, c) && |x| == 2 && |y| == 3
    ensures var s := Inserted(payload, c.bodyOff + c.at, PadExt(c.delta));
      var s1 := Patch(s, c.bodyOff - 2, x);
      var s2 := Patch(s1, c.bodyOff + 1, y);
      && U16(s, c.bodyOff - 2) == U16(payload, c.bodyOff - 2)
      && U24(s1, c.bodyOff + 1) == U24(payload, c.bodyOff + 1)
      && U16(s2, c.bodyOff + c.extLenOff) == U16(payload, c.bodyOff + c.extLenOff)
  {
    var s := Inserted(payload, c.bodyOff + c.at, PadExt(c.delta));
    var s1 := Patch(s, c.bodyOff - 2, x);
    hide PadExt, Patch, Inserted, U16, U24, Fits;
    InsertedReads(payload, c.bodyOff + c.at, PadExt(c.delta), c.bodyOff - 2);
    SecondStands(payload, c, x);
    ThirdStands(payload, c, x, y);
  }

  lemma SecondStands(payload: Bytes, c: Cut, x: Bytes)
    requires Fits(payload, c) && |x| == 2
    ensures var s := Inserted(payload, c.bodyOff + c.at, PadExt(c.delta));
      U24(Patch(s, c.bodyOff - 2, x), c.bodyOff + 1) == U24(payload, c.bodyOff + 1)
  {
    hide PadExt, Patch, Inserted, U16, U24;
    InsertedReads(payload, c.bodyOff + c.at, PadExt(c.delta), c.bodyOff + 1);
    PatchKeeps(Inserted(payload, c.bodyOff + c.at, PadExt(c.delta)), c.bodyOff - 2, x, c.bodyOff + 1);
  }

  lemma ThirdStands(payload: Bytes, c: Cut, x: Bytes, y: Bytes)
    requires Fits(payload, c) && |x| == 2 && |y| == 3
    ensures var s := Inserted(payload, c.bodyOff + c.at, PadExt(c.delta));
      U16(Patch(Patch(s, c.bodyOff - 2, x), c.bodyOff + 1, y), c.bodyOff + c.extLenOff) == U16(payload, c.bodyOff + c.extLenOff)
  {
    var s := Inserted(payload, c.bodyOff + c.at, PadExt(c.delta));
    hide PadExt, Patch, Inserted, U16, U24;
    InsertedReads(payload, c.bodyOff + c.at, PadExt(c.delta), c.bodyOff + c.extLenOff);
    PatchKeeps(s, c.bodyOff - 2, x, c.bodyOff + c.extLenOff);
    PatchKeeps(Patch(s, c.bodyOff - 2, x), c.bodyOff + 1, y, c.bodyOff + c.extLenOff);
  }

  lemma InsertedReads(payload: Bytes, at: nat, pad: Bytes, p: nat)
    requires at <= |payload|
    ensures p + 2 <= at ==> U16(Inserted(payload, at, pad), p) == U16(payload, p)
    ensures p + 3 <= at ==> U24(Inserted(payload, at, pad), p) == U24(payload, p)
  {
  }

  // A length elsewhere reads as before.
  lemma PatchKeeps(s: Bytes, at: nat, x: Bytes, p: nat)
    requires at + |x| <= |s|
    ensures p + 2 <= |s| && (p + 2 <= at || at + |x| <= p) ==> U16(Patch(s, at, x), p) == U16(s, p)
    ensures p + 3 <= |s| && (p + 3 <= at || at + |x| <= p) ==> U24(Patch(s, at, x), p) == U24(s, p)
  {
  }

  // Rewrites the first record of payload so that its hostname starts at body offset to.
  method PadHello(payload: Bytes, m: Meta, to: int) returns (r: PadResult)
    ensures r == PadSpec(payload, m, to)
  {
    var bad := CheckMeta(payload, m, to);
    if bad.Some? {
      return Refused(bad.value);
    }
    SpecUnfolds(payload, m, to);
    hide BadMeta, Rebuilt, LastName, HasPadding, U16, U24, PadSpec, Refusal, CutOf, WalkHello, Fits;
    var delta := to - m.sniStart;
    var body := payload[m.bodyOff..m.bodyOff + m.bodyLen];
    assert body == Slice(payload, m.bodyOff, m.bodyLen);
    var walked := WalkHelloExtensions(body);
    if walked.None? {
      return Refused(NotClientHello);
    }
    var padding, sni := FindName(walked.value.exts);
    if padding {
      return Refused(AlreadyPadded);
    }
    if sni < 0 {
      return Refused(NotClientHello);
    }
    r := Rebuild(payload, Cut(m.bodyOff, walked.value.exts[sni].off, delta, walked.value.extLenOff));
  }

  method CheckMeta(payload: Bytes, m: Meta, to: int) returns (bad: Option<PadErr>)
    ensures bad == BadMeta(payload, m, to)
  {
    if !m.tls || !m.complete {
      return Some(NeedComplete);
    }
    if !(m.sniStart >= 0 && m.sniEnd > m.sniStart) {
      return Some(NeedSNI);
    }
    var end := m.bodyOff + m.bodyLen;
    if m.bodyOff < 5 || end > |payload| || m.bodyOff >= end {
      return Some(NeedComplete);
    }
    var delta := to - m.sniStart;
    if delta < EXT_HDR_LEN {
      return Some(BadValue);
    }
    if m.bodyLen + delta > MAX_RECORD_BODY {
      return Some(BadValue);
    }
    bad := None;
  }

  // The last server_name extension, unless there is padding.
  method FindName(exts: seq<Ext>) returns (padding: bool, sni: int)
    ensures padding == HasPadding(exts)
    ensures !padding ==> sni == LastName(exts)
  {
    sni := -1;
    for i := 0 to |exts|
      invariant -1 <= sni < i && sni == LastName(exts[..i])
      invariant forall j | 0 <= j < i :: exts[j].typ != EXT_PADDING
    {
      assert exts[..i + 1][..i] == exts[..i];
      if exts[i].typ == EXT_PADDING {
        return true, sni;
      }
      if exts[i].typ == EXT_SERVER_NAME {
        sni := i;
      }
    }
    assert exts[..|exts|] == exts;
    padding := false;
  }

  // ---------------------------------------------------------------- what the rewrite does

  lemma PatchReads(s: Bytes, at: nat, x: Bytes)
    requires at + |x| <= |s|
    ensures |x| == 2 ==> U16(Patch(s, at, x), at) == U16(x, 0)
    ensures |x| == 3 ==> U24(Patch(s, at, x), at) == U24(x, 0)
  {
  }

  lemma RebuiltLengths(payload: Bytes, c: Cut)
    requires Fits(payload, c) && U16(payload, c.bodyOff - 2) + c.delta < 0x1_0000
    ensures var out := Rebuilt(payload, c);
      && |out| == |payload| + c.delta
      && U16(out, c.bodyOff - 2) == U16(payload, c.bodyOff - 2) + c.delta
      && U24(out, c.bodyOff + 1) == U24(payload, c.bodyOff + 1) + c.delta
      && U16(out, c.bodyOff + c.extLenOff) == U16(payload, c.bodyOff + c.extLenOff) + c.delta
  {
    hide U16, U24, Bytes16, Bytes24, PadExt, Patched, Inserted;
    PatchedReads(Inserted(payload, c.bodyOff + c.at, PadExt(c.delta)),
                 c.bodyOff - 2, Bytes16(U16(payload, c.bodyOff - 2) + c.delta),
                 c.bodyOff + 1, Bytes24(U24(payload, c.bodyOff + 1) + c.delta),
                 c.bodyOff + c.extLenOff, Bytes16(U16(payload, c.bodyOff + c.extLenOff) + c.delta));
  }

  predicate InLengths(c: Cut, j: int) {
    || c.bodyOff - 2 <= j < c.bodyOff
    || c.bodyOff + 1 <= j < c.bodyOff + 4
    || c.bodyOff + c.extLenOff <= j < c.bodyOff + c.extLenOff + 2
  }

  // The octet at j once the padding is in, lengths aside.
  function Octet(payload: Bytes, c: Cut, j: nat): Byte
    requires EXT_HDR_LEN <= c.delta <= MAX_RECORD_BODY && c.bodyOff + c.at <= |payload| && j < |payload| + c.delta
  {
    var at := c.bodyOff + c.at;
    if j < at then payload[j] else if j < at + c.delta then PadExt(c.delta)[j - at] else payload[j - c.delta]
  }

  // Nothing but the three lengths changes, and what is behind the padding moves by its size.
  predicate Edited(payload: Bytes, out: Bytes, c: Cut)
    requires EXT_HDR_LEN <= c.delta <= MAX_RECORD_BODY
  {
    && c.bodyOff + c.at <= |payload| && |out| == |payload| + c.delta
    && forall j | 0 <= j < |out| && !InLengths(c, j) :: out[j] == Octet(payload, c, j)
  }

  lemma RebuiltOctet(payload: Bytes, c: Cut, j: nat)
    requires Fits(payload, c) && U16(payload, c.bodyOff - 2) + c.delta < 0x1_0000
    requires j < |payload| + c.delta && !InLengths(c, j)
    ensures |Rebuilt(payload, c)| == |payload| + c.delta && Rebuilt(payload, c)[j] == Octet(payload, c, j)
  {
    hide U16, U24, Bytes16, Bytes24, PadExt, Patched, Inserted;
    var s := Inserted(payload, c.bodyOff + c.at, PadExt(c.delta));
    PatchedAt(s, c.bodyOff - 2, Bytes16(U16(payload, c.bodyOff - 2) + c.delta),
              c.bodyOff + 1, Bytes24(U24(payload, c.bodyOff + 1) + c.delta),
              c.bodyOff + c.extLenOff, Bytes16(U16(payload, c.bodyOff + c.extLenOff) + c.delta), j);
    InsertedAt(payload, c.bodyOff + c.at, PadExt(c.delta), j);
  }

  lemma RebuiltOctets(payload: Bytes, c: Cut)
    requires Fits(payload, c) && U16(payload, c.bodyOff - 2) + c.delta < 0x1_0000
    ensures Edited(payload, Rebuilt(payload, c), c)
  {
    var out := Rebuilt(payload, c);
    RebuiltLengths(payload, c);
    hide Fits, U16, U24, Rebuilt, Octet, InLengths;
    forall j | 0 <= j < |out| && !InLengths(c, j) ensures out[j] == Octet(payload, c, j) {
      RebuiltOctet(payload, c, j);
    }
  }

  // Where the extensions of a hello stand once a padding of delta octets is in front of the k-th.
  function PaddedExts(exts: seq<Ext>, k: nat, delta: nat): seq<Ext>
    requires k < |exts| && delta >= EXT_HDR_LEN
  {
    exts[..k] + [Ext(EXT_PADDING, exts[k].off, delta - EXT_HDR_LEN)] + ShiftExts(exts[k..], delta)
  }

  // nb is body with delta octets of padding at off, and both its inner lengths moved.
  predicate Spliced(body: Bytes, nb: Bytes, extLenOff: nat, off: nat, delta: nat) {
    && EXT_HDR_LEN <= delta <= MAX_RECORD_BODY
    && 38 < extLenOff && extLenOff + 2 <= off && off + EXT_HDR_LEN <= |body| && |nb| == |body| + delta
    && nb[0] == body[0] && U24(nb, 1) == U24(body, 1) + delta && U16(nb, extLenOff) == U16(body, extLenOff) + delta
    && Copied(body, nb, 4, extLenOff, 0) && Copied(body, nb, extLenOff + 2, off, 0) && Copied(body, nb, off, |body|, delta)
    && U16(nb, off) == EXT_PADDING && U16(nb, off + 2) == delta - EXT_HDR_LEN && Zeros(nb, off + EXT_HDR_LEN, off + delta)
  }

  predicate Zeros(b: Bytes, p: nat, limit: nat) {
    limit <= |b| && forall j | p <= j < limit :: b[j] == 0
  }

  // A body with the padding inserted walks, and to exactly the old extensions and the padding.
  lemma BodyWalks(body: Bytes, nb: Bytes, k: nat, delta: nat)
    requires WalkHello(body).Some? && k < |WalkHello(body).value.exts|
    requires Spliced(body, nb, WalkHello(body).value.extLenOff, WalkHello(body).value.exts[k].off, delta)
    ensures var h := WalkHello(body).value;
      WalkHello(nb) == Some(Hello(h.extLenOff, PaddedExts(h.exts, k, delta)))
  {
    hide ExtsFrom, U16, U24, ExtLenOff;
    CutFacts(body);
    var h := WalkHello(body).value;
    var at, off := h.extLenOff, h.exts[k].off;
    var limit := at + 2 + U16(body, at);
    CopiedLess(body, nb, 4, 38, at, 0);
    ExtLenOffSame(body, nb);
    ExtsUpTo(body, nb, at + 2, limit, k, delta);
    assert Copied(body, nb, off, limit, delta);
    ExtsShift(body, nb, off, limit, delta);
    ExtsUnfold(nb, off, limit + delta);
    SplitMoreMiddle(h.exts[..k], Ext(EXT_PADDING, off, delta - EXT_HDR_LEN), ShiftExts(h.exts[k..], delta));
  }

  lemma CopiedLess(b: Bytes, c: Bytes, p: nat, q: nat, limit: nat, d: nat)
    requires Copied(b, c, p, limit, d) && p <= q
    ensures Copied(b, c, q, limit, d)
  {
  }

  lemma SplitMoreMiddle(a: seq<Ext>, e: Ext, b: seq<Ext>)
    ensures a + ([e] + b) == a + [e] + b
  {
  }

  lemma SliceReads16(b: Bytes, from: nat, len: nat, p: nat)
    requires from + len <= |b| && p + 2 <= len
    ensures U16(Slice(b, from, len), p) == U16(b, from + p)
  {
  }

  lemma SliceReads24(b: Bytes, from: nat, len: nat, p: nat)
    requires from + len <= |b| && p + 3 <= len
    ensures U24(Slice(b, from, len), p) == U24(b, from + p)
  {
  }

  // How the parts of the new body stand to the parts of the old one.
  lemma BodyParts(payload: Bytes, out: Bytes, c: Cut, len: nat)
    requires EXT_HDR_LEN <= c.delta <= MAX_RECORD_BODY && Edited(payload, out, c)
    requires 38 < c.extLenOff && c.extLenOff + 2 <= c.at && c.at + EXT_HDR_LEN <= len && c.bodyOff + len <= |payload|
    ensures var body, nb := Slice(payload, c.bodyOff, len), Slice(out, c.bodyOff, len + c.delta);
      && |nb| == |body| + c.delta && nb[0] == body[0]
      && Copied(body, nb, 4, c.extLenOff, 0) && Copied(body, nb, c.extLenOff + 2, c.at, 0)
      && Copied(body, nb, c.at, len, c.delta)
      && U16(nb, c.at) == EXT_PADDING && U16(nb, c.at + 2) == c.delta - EXT_HDR_LEN
      && Zeros(nb, c.at + EXT_HDR_LEN, c.at + c.delta)
  {
    var body, nb := Slice(payload, c.bodyOff, len), Slice(out, c.bodyOff, len + c.delta);
    hide U16, PadExt, Edited;
    EditedAt(payload, out, c, c.bodyOff);
    forall j | 4 <= j < c.at && !(c.extLenOff <= j < c.extLenOff + 2) ensures nb[j + 0] == body[j] {
      EditedAt(payload, out, c, c.bodyOff + j);
    }
    forall j | c.at <= j < len ensures nb[j + c.delta] == body[j] {
      EditedAt(payload, out, c, c.bodyOff + j + c.delta);
    }
    forall j | c.at + EXT_HDR_LEN <= j < c.at + c.delta ensures nb[j] == 0 {
      EditedAt(payload, out, c, c.bodyOff + j);
      PadZero(c.delta, j - c.at);
    }
    SliceReads16(out, c.bodyOff, len + c.delta, c.at);
    SliceReads16(out, c.bodyOff, len + c.delta, c.at + 2);
    PadHeader(payload, out, c);
  }

  lemma PadZero(delta: nat, j: nat)
    requires EXT_HDR_LEN <= delta <= MAX_RECORD_BODY && EXT_HDR_LEN <= j < delta
    ensures PadExt(delta)[j] == 0
  {
    hide Bytes16;
  }

  lemma EditedAt(payload: Bytes, out: Bytes, c: Cut, j: nat)
    requires EXT_HDR_LEN <= c.delta <= MAX_RECORD_BODY && Edited(payload, out, c) && j < |out| && !InLengths(c, j)
    ensures out[j] == Octet(payload, c, j)
  {
  }

  lemma PadHeader(payload: Bytes, out: Bytes, c: Cut)
    requires EXT_HDR_LEN <= c.delta <= MAX_RECORD_BODY && Edited(payload, out, c)
    requires 38 < c.extLenOff && c.extLenOff + 2 <= c.at
    ensures U16(out, c.bodyOff + c.at) == EXT_PADDING && U16(out, c.bodyOff + c.at + 2) == c.delta - EXT_HDR_LEN
  {
    hide PadExt;
    EditedSize(payload, out, c);
    hide Edited;
    var at, pad := c.bodyOff + c.at, PadExt(c.delta);
    EditedAt(payload, out, c, at);
    EditedAt(payload, out, c, at + 1);
    EditedAt(payload, out, c, at + 2);
    EditedAt(payload, out, c, at + 3);
    assert out[at] == pad[0] && out[at + 1] == pad[1] && out[at + 2] == pad[2] && out[at + 3] == pad[3];
  }

  // The new body nb against the old one: the handshake length has grown by delta, and everything else
  // up to the length of the extensions is unchanged; nb walks, to the old extensions with one padding
  // just before server_name, zeros behind its header; every extension keeps its octets; and what stood
  // at from, behind the start of server_name, stands delta further on.
  predicate GrownBody(body: Bytes, nb: Bytes, delta: nat, from: nat) {
    && 4 <= |body| && |nb| == |body| + delta && EXT_HDR_LEN <= delta
    && U24(nb, 1) == U24(body, 1) + delta
    && WalkHello(body).Some? && LastName(WalkHello(body).value.exts) >= 0
    && var h, k := WalkHello(body).value, LastName(WalkHello(body).value.exts);
    && WalkHello(nb) == Some(Hello(h.extLenOff, PaddedExts(h.exts, k, delta)))
    && h.extLenOff + 2 <= h.exts[k].off <= |body|
    && nb[0] == body[0] && 4 <= h.extLenOff && nb[4..h.extLenOff] == body[4..h.extLenOff]
    && Zeros(nb, h.exts[k].off + EXT_HDR_LEN, h.exts[k].off + delta)
    && nb[h.extLenOff + 2..h.exts[k].off] == body[h.extLenOff + 2..h.exts[k].off]
    && nb[h.exts[k].off + delta..] == body[h.exts[k].off..]
    && (h.exts[k].off <= from <= |body| ==> nb[from + delta..] == body[from..])
  }

  lemma BodyGrows(body: Bytes, nb: Bytes, k: nat, delta: nat, from: nat)
    requires WalkHello(body).Some? && k < |WalkHello(body).value.exts| && k == LastName(WalkHello(body).value.exts)
    requires Spliced(body, nb, WalkHello(body).value.extLenOff, WalkHello(body).value.exts[k].off, delta)
    ensures GrownBody(body, nb, delta, from)
  {
    hide WalkHello, U16, U24, LastName, PaddedExts, Copied, Zeros;
    var h := WalkHello(body).value;
    var off := h.exts[k].off;
    BodyWalks(body, nb, k, delta);
    CopiedSlice(body, nb, 4, h.extLenOff, 0);
    CopiedSlice(body, nb, h.extLenOff + 2, off, 0);
    CopiedSlice(body, nb, off, |body|, delta);
    assert body[off..] == body[off..|body|] && nb[off + delta..] == nb[off + delta..|body| + delta];
    if off <= from <= |body| {
      assert body[from..] == body[off..][from - off..] && nb[from + delta..] == nb[off + delta..][from - off..];
    }
  }

  lemma CopiedSlice(b: Bytes, c: Bytes, p: nat, limit: nat, d: nat)
    requires p <= limit && Copied(b, c, p, limit, d)
    ensures c[p + d..limit + d] == b[p..limit]
  {
    forall i | 0 <= i < limit - p ensures c[p + d..limit + d][i] == b[p..limit][i] {
      assert c[(p + i) + d] == b[p + i];
    }
  }

  lemma NewBody(payload: Bytes, out: Bytes, c: Cut, len: nat, k: nat, from: nat)
    requires Fits(payload, c) && U16(payload, c.bodyOff - 2) + c.delta < 0x1_0000 && c.bodyOff + len <= |payload|
    requires out == Rebuilt(payload, c) && c.at + EXT_HDR_LEN <= len
    requires var h := WalkHello(Slice(payload, c.bodyOff, len));
      h.Some? && c.extLenOff == h.value.extLenOff && k < |h.value.exts| && k == LastName(h.value.exts)
      && c.at == h.value.exts[k].off
    ensures |out| == |payload| + c.delta
    ensures GrownBody(Slice(payload, c.bodyOff, len), Slice(out, c.bodyOff, len + c.delta), c.delta, from)
  {
    hide Rebuilt, WalkHello, U16, GrownBody, LastName, Slice, Fits, Spliced;
    BodySpliced(payload, out, c, len);
    BodyGrows(Slice(payload, c.bodyOff, len), Slice(out, c.bodyOff, len + c.delta), k, c.delta, from);
  }

  lemma BodySpliced(payload: Bytes, out: Bytes, c: Cut, len: nat)
    requires Fits(payload, c) && U16(payload, c.bodyOff - 2) + c.delta < 0x1_0000 && c.bodyOff + len <= |payload|
    requires out == Rebuilt(payload, c) && c.at + EXT_HDR_LEN <= len
    ensures |out| == |payload| + c.delta
    ensures Spliced(Slice(payload, c.bodyOff, len), Slice(out, c.bodyOff, len + c.delta), c.extLenOff, c.at, c.delta)
  {
    FitsBounds(payload, c);
    hide Rebuilt, U16, U24, Edited, Spliced, Slice, Fits;
    RebuiltLengths(payload, c);
    RebuiltOctets(payload, c);
    EditedSpliced(payload, out, c, len);
  }

  lemma EditedSpliced(payload: Bytes, out: Bytes, c: Cut, len: nat)
    requires EXT_HDR_LEN <= c.delta <= MAX_RECORD_BODY && Edited(payload, out, c)
    requires 38 < c.extLenOff && c.extLenOff + 2 <= c.at && c.at + EXT_HDR_LEN <= len && c.bodyOff + len <= |payload|
    requires |out| == |payload| + c.delta
    requires U24(out, c.bodyOff + 1) == U24(payload, c.bodyOff + 1) + c.delta
    requires U16(out, c.bodyOff + c.extLenOff) == U16(payload, c.bodyOff + c.extLenOff) + c.delta
    ensures Spliced(Slice(payload, c.bodyOff, len), Slice(out, c.bodyOff, len + c.delta), c.extLenOff, c.at, c.delta)
  {
    hide U16, U24, Edited, Copied, Zeros, Slice;
    BodyParts(payload, out, c, len);
    LengthsMoved(payload, out, c.bodyOff, len, c.delta, 1, c.extLenOff);
  }

  lemma LengthsMoved(payload: Bytes, out: Bytes, from: nat, len: nat, delta: nat, p: nat, q: nat)
    requires from + len <= |payload| && |out| == |payload| + delta && p + 3 <= len && q + 2 <= len
    requires U24(out, from + p) == U24(payload, from + p) + delta && U16(out, from + q) == U16(payload, from + q) + delta
    ensures var body, nb := Slice(payload, from, len), Slice(out, from, len + delta);
      U24(nb, p) == U24(body, p) + delta && U16(nb, q) == U16(body, q) + delta
  {
    hide U16, U24;
    SliceReads24(payload, from, len, p);
    SliceReads24(out, from, len + delta, p);
    SliceReads16(payload, from, len, q);
    SliceReads16(out, from, len + delta, q);
  }

  lemma FitsBounds(payload: Bytes, c: Cut)
    requires Fits(payload, c)
    ensures 5 <= c.bodyOff && 38 < c.extLenOff && c.extLenOff + 2 <= c.at && EXT_HDR_LEN <= c.delta <= MAX_RECORD_BODY
  {
  }

  // A rewrite that succeeds is the rebuilding at the cut in front of server_name.
  lemma SpecCut(payload: Bytes, m: Meta, to: int, out: Bytes) returns (c: Cut, k: nat)
    requires PadSpec(payload, m, to) == Padded(out)
    ensures 5 <= m.bodyOff && 0 < m.bodyLen && m.bodyOff + m.bodyLen <= |payload| && 0 <= m.sniStart < to
    ensures var body := Slice(payload, m.bodyOff, m.bodyLen);
      WalkHello(body).Some? && k < |WalkHello(body).value.exts| && k == LastName(WalkHello(body).value.exts)
      && c == Cut(m.bodyOff, WalkHello(body).value.exts[k].off, to - m.sniStart, WalkHello(body).value.extLenOff)
    ensures Fits(payload, c) && U16(payload, c.bodyOff - 2) + c.delta <= MAX_RECORD_BODY
    ensures out == Rebuilt(payload, c) && c.at + EXT_HDR_LEN <= m.bodyLen && m.bodyLen + c.delta <= MAX_RECORD_BODY
  {
    var body := Slice(payload, m.bodyOff, m.bodyLen);
    CutFacts(body);
    k := LastName(WalkHello(body).value.exts);
    hide WalkHello, Rebuilt, U16, U24, LastName, BadMeta;
    c := CutOf(payload, m, to);
  }

  // out against payload outside the record body of len octets at bodyOff: the record length has grown
  // by delta and stays within the limit, and nothing else has changed.
  predicate GrownRecord(payload: Bytes, out: Bytes, bodyOff: nat, len: nat, delta: nat) {
    && 5 <= bodyOff && bodyOff + len <= |payload| && |out| == |payload| + delta
    && U16(out, bodyOff - 2) == U16(payload, bodyOff - 2) + delta <= MAX_RECORD_BODY
    && out[..bodyOff - 2] == payload[..bodyOff - 2]
    && out[bodyOff + len + delta..] == payload[bodyOff + len..]
  }

  // Whenever the rewrite succeeds: what stands at the hostname's old offset stands at to.
  lemma PadHelloKeeps(payload: Bytes, m: Meta, to: int, out: Bytes)
    requires PadSpec(payload, m, to) == Padded(out)
    ensures m.bodyOff >= 0 && m.bodyLen >= 0 && 0 <= m.sniStart < to && m.bodyLen + (to - m.sniStart) <= MAX_RECORD_BODY
    ensures GrownRecord(payload, out, m.bodyOff, m.bodyLen, to - m.sniStart)
    ensures m.bodyOff + m.bodyLen <= |payload| && |out| == |payload| + (to - m.sniStart)
    ensures GrownBody(Slice(payload, m.bodyOff, m.bodyLen), Slice(out, m.bodyOff, m.bodyLen + (to - m.sniStart)),
                      to - m.sniStart, m.sniStart)
  {
    hide PadSpec, WalkHello, LastName, Rebuilt, Fits, U16, GrownBody, GrownRecord, Slice;
    var c, k := SpecCut(payload, m, to, out);
    NewBody(payload, out, c, m.bodyLen, k, m.sniStart);
    OutsideBody(payload, out, c, m.bodyLen);
  }

  lemma OutsideBody(payload: Bytes, out: Bytes, c: Cut, len: nat)
    requires Fits(payload, c) && U16(payload, c.bodyOff - 2) + c.delta <= MAX_RECORD_BODY
    requires out == Rebuilt(payload, c) && c.bodyOff + len <= |payload| && c.at <= len
    ensures GrownRecord(payload, out, c.bodyOff, len, c.delta)
  {
    FitsBounds(payload, c);
    hide Rebuilt, U16, U24, Edited, Fits;
    RebuiltLengths(payload, c);
    RebuiltOctets(payload, c);
    Around(payload, out, c, len);
  }

  lemma Around(payload: Bytes, out: Bytes, c: Cut, len: nat)
    requires EXT_HDR_LEN <= c.delta <= MAX_RECORD_BODY && Edited(payload, out, c)
    requires 38 < c.extLenOff && c.extLenOff + 2 <= c.at
    requires 2 <= c.bodyOff && c.at <= len && c.bodyOff + len <= |payload|
    ensures out[..c.bodyOff - 2] == payload[..c.bodyOff - 2]
    ensures out[c.bodyOff + len + c.delta..] == payload[c.bodyOff + len..]
  {
    hide PadExt, Edited;
    EditedSize(payload, out, c);
    forall j | 0 <= j < c.bodyOff - 2 ensures out[j] == payload[j] {
      EditedAt(payload, out, c, j);
    }
    forall j | c.bodyOff + c.at <= j < |payload| ensures out[j + c.delta] == payload[j] {
      EditedAt(payload, out, c, j + c.delta);
    }
    BehindPad(payload, out, c.bodyOff + c.at, c.delta, c.bodyOff + len);
  }

  lemma EditedSize(payload: Bytes, out: Bytes, c: Cut)
    requires EXT_HDR_LEN <= c.delta <= MAX_RECORD_BODY && Edited(payload, out, c)
    ensures |out| == |payload| + c.delta
  {
  }

  lemma BehindPad(payload: Bytes, out: Bytes, at: nat, delta: nat, from: nat)
    requires at <= from <= |payload| && |out| == |payload| + delta
    requires forall j | at <= j < |payload| :: out[j + delta] == payload[j]
    ensures out[from + delta..] == payload[from..]
  {
    forall i | 0 <= i < |payload| - from ensures out[from + delta..][i] == payload[from..][i] {
      assert out[(from + i) + delta] == payload[from + i];
    }
  }
}
