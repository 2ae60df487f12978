// Hellos written out, walked and padded (internal/ops/pad.go): RFC 8446 sections 4.1.2 and 4.2 say how a
// client writes one.
module TlsHello {
  import opened Octets
  import opened Settings
  import opened TlsPad

  // ---------------------------------------------------------------- writing

  datatype ExtData = ExtData(typ: nat, data: Bytes)

  // fixed: the version and the random.
  datatype HelloData = HelloData(fixed: Bytes, sid: Bytes, suites: Bytes, comp: Bytes, exts: seq<ExtData>)

  predicate ExtSound(e: ExtData) {
    e.typ < 0x1_0000 && |e.data| < 0x1_0000
  }

  predicate AllSound(exts: seq<ExtData>) {
    forall e | e in exts :: ExtSound(e)
  }

  function ExtText(e: ExtData): (r: Bytes)
    requires ExtSound(e)
    ensures |r| == EXT_HDR_LEN + |e.data|
  {
    Bytes16(e.typ) + Bytes16(|e.data|) + e.data
  }

  function Block(exts: seq<ExtData>): Bytes
    requires AllSound(exts)
  {
    if exts == [] then [] else ExtText(exts[0]) + Block(exts[1..])
  }

  predicate Sound(h: HelloData) {
    && |h.fixed| == 34 && |h.sid| < 256 && |h.suites| < 0x1_0000 && |h.comp| < 256
    && AllSound(h.exts) && |Block(h.exts)| < 0x1_0000
  }

  // From the version to the compression methods.
  function Front(h: HelloData): Bytes
    requires Sound(h)
  {
    h.fixed + ([|h.sid| as Byte] + h.sid) + (Bytes16(|h.suites|) + h.suites) + ([|h.comp| as Byte] + h.comp)
  }

  function Body(h: HelloData): Bytes
    requires Sound(h)
  {
    [1] + Bytes24(|Front(h)| + 2 + |Block(h.exts)|) + Front(h) + Bytes16(|Block(h.exts)|) + Block(h.exts)
  }

  // One record with the hello in it, between what is in front of its length and what follows it.
  function Record(front: Bytes, h: HelloData, rest: Bytes): Bytes
    requires Sound(h) && |Body(h)| < 0x1_0000
  {
    front + Bytes16(|Body(h)|) + Body(h) + rest
  }

  // ---------------------------------------------------------------- walking what was written

  function ExtsAt(exts: seq<ExtData>, p: nat): (r: seq<Ext>)
    ensures |r| == |exts|
  {
    if exts == [] then []
    else [Ext(exts[0].typ, p, |exts[0].data|)] + ExtsAt(exts[1..], p + EXT_HDR_LEN + |exts[0].data|)
  }

  lemma ReadMid(p: Bytes, q: Bytes, r: Bytes)
    ensures |q| >= 2 ==> U16(p + q + r, |p|) == U16(q, 0)
    ensures |q| >= 3 ==> U24(p + q + r, |p|) == U24(q, 0)
  {
    var s := p + q + r;
    assert forall i | 0 <= i < |q| :: s[|p| + i] == q[i];
  }

  lemma {:induction false} BlockWalks(front: Bytes, exts: seq<ExtData>, rest: Bytes)
    requires AllSound(exts)
    ensures var b := front + Block(exts) + rest;
      ExtsFrom(b, |front|, |front| + |Block(exts)|) == Some(ExtsAt(exts, |front|))
    decreases |exts|
  {
    hide ExtsFrom, U16, U24;
    var b, p, limit := front + Block(exts) + rest, |front|, |front| + |Block(exts)|;
    TileStep(b, p, limit);
    if exts != [] {
      var e := exts[0];
      var text, more := ExtText(e), Block(exts[1..]);
      assert b == (front + text) + more + rest;
      ExtReads(front, e, more + rest);
      assert b == front + text + (more + rest);
      BlockWalks(front + text, exts[1..], rest);
    }
  }

  lemma ExtReads(front: Bytes, e: ExtData, rest: Bytes)
    requires ExtSound(e)
    ensures var b := front + ExtText(e) + rest; U16(b, |front|) == e.typ && U16(b, |front| + 2) == |e.data|
  {
    hide U16, U24, Bytes16;
    var b := front + ExtText(e) + rest;
    assert b == front + Bytes16(e.typ) + (Bytes16(|e.data|) + e.data + rest);
    ReadMid(front, Bytes16(e.typ), Bytes16(|e.data|) + e.data + rest);
    assert b == (front + Bytes16(e.typ)) + Bytes16(|e.data|) + (e.data + rest);
    ReadMid(front + Bytes16(e.typ), Bytes16(|e.data|), e.data + rest);
  }

  // The three variable parts, each behind its length, are skipped.
  lemma FrontSkipped(a: Bytes, h: HelloData, rest: Bytes)
    requires |a| == 4 && Sound(h) && |rest| >= 2
    ensures ExtLenOff(a + Front(h) + rest) == Some(4 + |Front(h)|)
  {
    hide U16, U24, Bytes16, Block;
    var b := a + Front(h) + rest;
    var sid, suites, comp := [|h.sid| as Byte] + h.sid, Bytes16(|h.suites|) + h.suites, [|h.comp| as Byte] + h.comp;
    assert b == (a + h.fixed) + sid + (suites + comp + rest);
    assert b[38] == sid[0];
    assert b == (a + h.fixed + sid) + Bytes16(|h.suites|) + (h.suites + comp + rest);
    ReadMid(a + h.fixed + sid, Bytes16(|h.suites|), h.suites + comp + rest);
    assert b == (a + h.fixed + sid + suites) + comp + rest;
    assert b[|a + h.fixed + sid + suites|] == comp[0];
  }

  // Round trip: every hello that is written walks, to the extensions that were written.
  lemma HelloWalks(h: HelloData)
    requires Sound(h)
    ensures var at := 4 + |Front(h)|; WalkHello(Body(h)) == Some(Hello(at, ExtsAt(h.exts, at + 2)))
  {
    hide U16, U24, Bytes16, Bytes24, Block, Front, ExtsFrom, ExtLenOff;
    FrontShort(h);
    var b, n, f, e, block := Body(h), Bytes24(|Front(h)| + 2 + |Block(h.exts)|), Front(h), Bytes16(|Block(h.exts)|), Block(h.exts);
    assert b == [1] + n + (f + e + block);
    ReadMid([1], n, f + e + block);
    assert b == ([1] + n) + f + (e + block);
    FrontSkipped([1] + n, h, e + block);
    assert b == ([1] + n + f) + e + block;
    ReadMid([1] + n + f, e, block);
    assert b == ([1] + n + f + e) + block + [];
    BlockWalks([1] + n + f + e, h.exts, []);
  }

  lemma FrontShort(h: HelloData)
    requires Sound(h)
    ensures |Front(h)| + 2 + |Block(h.exts)| < 0x100_0000
  {
    hide Block;
  }

  // ---------------------------------------------------------------- padding what was written

  lemma {:induction false} BlockSplit(exts: seq<ExtData>, k: nat)
    requires AllSound(exts) && k <= |exts|
    ensures AllSound(exts[..k]) && AllSound(exts[k..]) && Block(exts) == Block(exts[..k]) + Block(exts[k..])
    decreases |exts|
  {
    assert forall e | e in exts[..k] || e in exts[k..] :: e in exts;
    if k > 0 {
      BlockSplit(exts[1..], k - 1);
      assert exts[..k][1..] == exts[1..][..k - 1] && exts[1..][k - 1..] == exts[k..];
    } else {
      assert exts[..0] == [] && exts[0..] == exts;
    }
  }

  // Where the k-th extension starts, and what is known of all of them.
  lemma {:induction false} ExtsStand(exts: seq<ExtData>, p: nat, k: nat)
    requires AllSound(exts) && k < |exts|
    ensures AllSound(exts[..k])
    ensures var e := ExtsAt(exts, p)[k]; e.typ == exts[k].typ && e.off == p + |Block(exts[..k])| && e.len == |exts[k].data|
    decreases k
  {
    assert forall e | e in exts[..k] :: e in exts;
    if k > 0 {
      ExtsStand(exts[1..], p + EXT_HDR_LEN + |exts[0].data|, k - 1);
      assert exts[..k][1..] == exts[1..][..k - 1];
    } else {
      assert exts[..0] == [];
    }
  }

  lemma {:induction false} LastNameIs(exts: seq<Ext>, k: nat)
    requires k < |exts| && exts[k].typ == EXT_SERVER_NAME && forall i | k < i < |exts| :: exts[i].typ != EXT_SERVER_NAME
    ensures LastName(exts) == k
  {
    if k < |exts| - 1 {
      LastNameIs(exts[..|exts| - 1], k);
    }
  }

  // The server name stands at k, no other behind it, and there is no padding yet.
  predicate NamedAt(exts: seq<ExtData>, k: nat) {
    && k < |exts| && exts[k].typ == EXT_SERVER_NAME
    && (forall i | k < i < |exts| :: exts[i].typ != EXT_SERVER_NAME)
    && forall i | 0 <= i < |exts| :: exts[i].typ != EXT_PADDING
  }

  // h with a padding extension of delta octets in front of its k-th.
  function PaddedHello(h: HelloData, k: nat, delta: nat): HelloData
    requires k < |h.exts| && EXT_HDR_LEN <= delta
  {
    h.(exts := h.exts[..k] + [ExtData(EXT_PADDING, seq(delta - EXT_HDR_LEN, _ => 0))] + h.exts[k..])
  }

  lemma PaddedBlock(exts: seq<ExtData>, k: nat, delta: nat)
    requires AllSound(exts) && k < |exts| && EXT_HDR_LEN <= delta <= MAX_RECORD_BODY
    ensures var pad := ExtData(EXT_PADDING, seq(delta - EXT_HDR_LEN, _ => 0));
      var more := exts[..k] + [pad] + exts[k..];
      && AllSound(exts[..k]) && AllSound(exts[k..]) && AllSound(more)
      && Block(more) == Block(exts[..k]) + PadExt(delta) + Block(exts[k..])
      && |Block(more)| == |Block(exts)| + delta
  {
    hide Bytes16, U16;
    var pad := ExtData(EXT_PADDING, seq(delta - EXT_HDR_LEN, _ => 0));
    var more := exts[..k] + [pad] + exts[k..];
    BlockSplit(exts, k);
    assert forall e | e in more :: e in exts || e == pad;
    BlockSplit(more, k);
    assert more[..k] == exts[..k] && more[k..] == [pad] + exts[k..];
    assert ([pad] + exts[k..])[1..] == exts[k..];
  }

  lemma PatchMid(p: Bytes, q: Bytes, x: Bytes, r: Bytes)
    requires |q| == |x|
    ensures Patch(p + q + r, |p|, x) == p + x + r
  {
  }

  // Three lengths replaced, one behind the other.
  lemma PatchThree(p: Bytes, l: Bytes, x: Bytes, o: Bytes, n: Bytes, y: Bytes, f: Bytes, e: Bytes, z: Bytes, r: Bytes)
    requires |l| == |x| == 2 && |o| == 1 && |n| == |y| == 3 && |e| == |z| == 2
    ensures Patched(p + l + o + n + f + e + r, |p|, x, |p| + 3, y, |p| + 6 + |f|, z) == p + x + o + y + f + z + r
  {
    hide Patch;
    var s := p + l + o + n + f + e + r;
    assert s == p + l + (o + n + f + e + r);
    PatchMid(p, l, x, o + n + f + e + r);
    var s1 := p + x + (o + n + f + e + r);
    assert s1 == (p + x + o) + n + (f + e + r);
    PatchMid(p + x + o, n, y, f + e + r);
    var s2 := (p + x + o) + y + (f + e + r);
    assert s2 == (p + x + o + y + f) + e + r;
    PatchMid(p + x + o + y + f, e, z, r);
  }

  // The cut the rewrite makes in a written record.
  function CutIn(front: Bytes, h: HelloData, k: nat, delta: nat): Cut
    requires Sound(h) && k < |h.exts|
  {
    assert forall e | e in h.exts[..k] :: e in h.exts;
    Cut(|front| + 2, 4 + |Front(h)| + 2 + |Block(h.exts[..k])|, delta, 4 + |Front(h)|)
  }

  lemma BodyIs(h: HelloData)
    requires Sound(h)
    ensures |Body(h)| == 6 + |Front(h)| + |Block(h.exts)| && |Front(h)| >= 38
  {
  }

  lemma LengthsRead(front: Bytes, h: HelloData, rest: Bytes)
    requires Sound(h) && |Body(h)| < 0x1_0000
    ensures var b, at := Record(front, h, rest), |front| + 2;
      && |b| == at + |Body(h)| + |rest| && Slice(b, at, |Body(h)|) == Body(h)
      && U16(b, at - 2) == |Body(h)| && U24(b, at + 1) == |Body(h)| - 4 && U16(b, at + 4 + |Front(h)|) == |Block(h.exts)|
  {
    BodyIs(h);
    hide U16, U24, Bytes16, Bytes24, Block, Front, Body;
    var b, body := Record(front, h, rest), Body(h);
    assert b == front + Bytes16(|body|) + (body + rest);
    ReadMid(front, Bytes16(|body|), body + rest);
    InnerRead(front + Bytes16(|body|), h, rest);
    SliceMid(front + Bytes16(|body|), body, rest);
  }

  lemma SliceMid(p: Bytes, q: Bytes, r: Bytes)
    ensures Slice(p + q + r, |p|, |q|) == q
  {
  }

  // The two lengths inside a written body, wherever it stands.
  lemma InnerRead(front: Bytes, h: HelloData, rest: Bytes)
    requires Sound(h)
    ensures |Body(h)| == 6 + |Front(h)| + |Block(h.exts)|
    ensures var b := front + Body(h) + rest;
      U24(b, |front| + 1) == |Body(h)| - 4 && U16(b, |front| + 4 + |Front(h)|) == |Block(h.exts)|
  {
    BodyIs(h);
    hide U16, U24, Bytes16, Bytes24, Block, Front;
    var b := front + Body(h) + rest;
    var n, f, e, block := Bytes24(|Front(h)| + 2 + |Block(h.exts)|), Front(h), Bytes16(|Block(h.exts)|), Block(h.exts);
    var p := front + [1];
    assert b == p + n + (f + e + block + rest);
    ReadMid(p, n, f + e + block + rest);
    assert b == (p + n + f) + e + (block + rest);
    ReadMid(p + n + f, e, block + rest);
  }

  // A record from the parts of its hello.
  function Parts(p: Bytes, l: Bytes, n: Bytes, f: Bytes, e: Bytes, block: Bytes, rest: Bytes): Bytes {
    p + l + ([1] + n + f + e + block) + rest
  }

  // A record in its parts, with the padding put in and the three lengths replaced.
  lemma PartsRebuilt(p: Bytes, l: Bytes, n: Bytes, f: Bytes, e: Bytes, before: Bytes, behind: Bytes, rest: Bytes,
                     x: Bytes, y: Bytes, z: Bytes, pad: Bytes)
    requires |l| == |x| == 2 && |n| == |y| == 3 && |e| == |z| == 2
    ensures var b := Parts(p, l, n, f, e, before + behind, rest);
      && |p| + 8 + |f| + |before| <= |b|
      && Patched(Inserted(b, |p| + 8 + |f| + |before|, pad), |p|, x, |p| + 3, y, |p| + 6 + |f|, z)
         == Parts(p, x, y, f, z, before + pad + behind, rest)
  {
    hide Patched, Inserted;
    var b := p + l + ([1] + n + f + e + (before + behind)) + rest;
    var a := p + l + [1] + n + f + e + before;
    assert b == a + (behind + rest);
    InsertedMid(a, pad, behind + rest);
    assert a + pad + (behind + rest) == p + l + [1] + n + f + e + (before + pad + behind + rest);
    PatchThree(p, l, x, [1], n, y, f, e, z, before + pad + behind + rest);
    Regrouped(p, x, y, f, z, before + pad + behind, rest);
  }

  lemma Regrouped(p: Bytes, x: Bytes, y: Bytes, f: Bytes, z: Bytes, block: Bytes, rest: Bytes)
    ensures p + x + [1] + y + f + z + (block + rest) == p + x + ([1] + y + f + z + block) + rest
  {
  }

  lemma InsertedMid(a: Bytes, pad: Bytes, b: Bytes)
    ensures Inserted(a + b, |a|, pad) == a + pad + b
  {
  }

  // The rewrite of a written record, octet by octet, is the record of the padded hello.
  lemma RebuiltIs(front: Bytes, h: HelloData, rest: Bytes, k: nat, delta: nat)
    requires Sound(h) && |front| >= 3 && k < |h.exts| && EXT_HDR_LEN <= delta && |Body(h)| + delta <= MAX_RECORD_BODY
    requires Fits(Record(front, h, rest), CutIn(front, h, k, delta))
    ensures Sound(PaddedHello(h, k, delta)) && |Body(PaddedHello(h, k, delta))| == |Body(h)| + delta
    ensures U16(Record(front, h, rest), |front|) == |Body(h)|
    ensures Rebuilt(Record(front, h, rest), CutIn(front, h, k, delta)) == Record(front, PaddedHello(h, k, delta), rest)
  {
    hide Body, Record, Rebuilt, PaddedHello, Front, Block, U16, U24, Bytes16, Bytes24;
    hide PadExt, Patched, Inserted, Fits, Parts, CutIn, AllSound;
    var more, c, payload := PaddedHello(h, k, delta), CutIn(front, h, k, delta), Record(front, h, rest);
    PaddedIs(h, k, delta);
    LengthsRead(front, h, rest);
    RecordParts(front, h, rest);
    RecordParts(front, more, rest);
    CutStands(front, h, k, delta);
    RebuiltParts(payload, c, |Body(h)|, |Front(h)|, |Block(h.exts)|);
    var len, block := |Body(h)|, |Block(h.exts)|;
    PartsRebuilt(front, Bytes16(len), Bytes24(len - 4), Front(h), Bytes16(block), Block(h.exts[..k]), Block(h.exts[k..]), rest,
                 Bytes16(len + delta), Bytes24(len - 4 + delta), Bytes16(block + delta), PadExt(delta));
  }

  lemma RecordParts(front: Bytes, h: HelloData, rest: Bytes)
    requires Sound(h) && |Body(h)| < 0x1_0000
    ensures var len, block := |Body(h)|, |Block(h.exts)|;
      && len == 6 + |Front(h)| + block
      && Record(front, h, rest)
         == Parts(front, Bytes16(len), Bytes24(len - 4), Front(h), Bytes16(block), Block(h.exts), rest)
  {
    BodyIs(h);
    hide Bytes16, Bytes24, Front, Block;
  }

  lemma CutStands(front: Bytes, h: HelloData, k: nat, delta: nat)
    requires Sound(h) && k < |h.exts|
    ensures AllSound(h.exts[..k])
    ensures var c := CutIn(front, h, k, delta);
      && c.bodyOff == |front| + 2 && c.delta == delta && c.extLenOff == 4 + |Front(h)|
      && c.bodyOff + c.at == |front| + 8 + |Front(h)| + |Block(h.exts[..k])|
  {
    hide Front, Block;
  }

  lemma RebuiltParts(payload: Bytes, c: Cut, len: nat, front: nat, block: nat)
    requires Fits(payload, c) && U16(payload, c.bodyOff - 2) == len && c.extLenOff == 4 + front
    requires U24(payload, c.bodyOff + 1) == len - 4 && U16(payload, c.bodyOff + 4 + front) == block && len + c.delta < 0x1_0000
    ensures Rebuilt(payload, c) ==
      Patched(Inserted(payload, c.bodyOff + c.at, PadExt(c.delta)), c.bodyOff - 2, Bytes16(len + c.delta),
              c.bodyOff + 1, Bytes24(len - 4 + c.delta), c.bodyOff + 4 + front, Bytes16(block + c.delta))
  {
    hide Patched, Inserted, PadExt, U16, U24, Bytes16, Bytes24;
  }

  lemma PaddedIs(h: HelloData, k: nat, delta: nat)
    requires Sound(h) && k < |h.exts| && EXT_HDR_LEN <= delta && |Body(h)| + delta <= MAX_RECORD_BODY
    ensures var more := PaddedHello(h, k, delta);
      && Sound(more) && Front(more) == Front(h) && |Body(more)| == |Body(h)| + delta
      && AllSound(h.exts[..k]) && AllSound(h.exts[k..]) && Block(h.exts) == Block(h.exts[..k]) + Block(h.exts[k..])
      && Block(more.exts) == Block(h.exts[..k]) + PadExt(delta) + Block(h.exts[k..])
      && |Block(more.exts)| == |Block(h.exts)| + delta
  {
    hide Block, Bytes16, PadExt;
    BodyIs(h);
    PaddedBlock(h.exts, k, delta);
    BlockSplit(h.exts, k);
    var more := PaddedHello(h, k, delta);
    SameFront(h, more);
    BodyIs(more);
  }

  lemma SameFront(h: HelloData, more: HelloData)
    requires Sound(h) && more == h.(exts := more.exts) && AllSound(more.exts) && |Block(more.exts)| < 0x1_0000
    ensures Sound(more) && Front(more) == Front(h)
  {
    hide Block;
  }

  // The rewrite on every hello a client writes, wherever its record stands and whatever follows: it goes
  // ahead exactly when the padding is as long as its header and the record stays within its limit, and
  // what comes out is the record of the same hello with that padding in front of the server name.
  lemma PaddingIsWritten(front: Bytes, h: HelloData, rest: Bytes, k: nat, m: Meta, to: int)
    requires Sound(h) && |Body(h)| < 0x1_0000 && |front| >= 3 && NamedAt(h.exts, k)
    requires m.tls && m.complete && m.bodyOff == |front| + 2 && m.bodyLen == |Body(h)| && 0 <= m.sniStart < m.sniEnd
    ensures var delta := to - m.sniStart;
      if EXT_HDR_LEN <= delta && |Body(h)| + delta <= MAX_RECORD_BODY then
        && Sound(PaddedHello(h, k, delta)) && |Body(PaddedHello(h, k, delta))| == |Body(h)| + delta
        && PadSpec(Record(front, h, rest), m, to) == Padded(Record(front, PaddedHello(h, k, delta), rest))
      else PadSpec(Record(front, h, rest), m, to) == Refused(BadValue)
  {
    hide Body, PadSpec, WalkHello, Front, Block, U16, U24, Fits, Rebuilt, LastName, HasPadding, Sound, Slice, CutIn;
    var payload, delta := Record(front, h, rest), to - m.sniStart;
    BodyIs(h);
    LengthsRead(front, h, rest);
    hide Record;
    if EXT_HDR_LEN <= delta && |Body(h)| + delta <= MAX_RECORD_BODY {
      assert BadMeta(payload, m, to) == None;
      hide BadMeta;
      WrittenCut(front, h, k, delta);
      SpecUnfolds(payload, m, to);
      RebuiltIs(front, h, rest, k, delta);
    } else {
      BadRefused(payload, m, to);
    }
  }

  lemma BadRefused(payload: Bytes, m: Meta, to: int)
    requires BadMeta(payload, m, to).Some?
    ensures PadSpec(payload, m, to) == Refused(BadMeta(payload, m, to).value)
  {
  }

  // What the rewrite finds in a written hello, and the cut that follows from it.
  lemma WrittenCut(front: Bytes, h: HelloData, k: nat, delta: nat)
    requires Sound(h) && NamedAt(h.exts, k)
    ensures var w := WalkHello(Body(h));
      && w.Some? && !HasPadding(w.value.exts) && LastName(w.value.exts) == k
      && Cut(|front| + 2, w.value.exts[k].off, delta, w.value.extLenOff) == CutIn(front, h, k, delta)
  {
    hide WalkHello, Body, LastName, HasPadding, NamedAt, Block, Front;
    HelloWalks(h);
    NameStands(h, k);
  }

  lemma NameStands(h: HelloData, k: nat)
    requires Sound(h) && NamedAt(h.exts, k)
    ensures AllSound(h.exts[..k])
    ensures var p := 6 + |Front(h)|; var exts := ExtsAt(h.exts, p);
      LastName(exts) == k && !HasPadding(exts) && exts[k].off == p + |Block(h.exts[..k])|
  {
    hide Front, Block, LastName;
    var p := 6 + |Front(h)|;
    var exts := ExtsAt(h.exts, p);
    forall i | 0 <= i < |exts| ensures exts[i].typ == h.exts[i].typ {
      ExtsStand(h.exts, p, i);
    }
    ExtsStand(h.exts, p, k);
    LastNameIs(exts, k);
  }
}
