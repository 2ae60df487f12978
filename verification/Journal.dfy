// The append-only journal (internal/netstate/journal.go): one line per entry, folded into the
// records that are still outstanding, healed of a torn last line when it is opened.
module JournalFormat {
  import opened Octets
  import opened Settings

  const NL: Byte := 10

  // One journalled mutation: self-sufficient, so another process can undo it.
  datatype Record = Record(seqno: nat, adopted: bool, applied: bool, verified: bool, op: Op, undo: seq<Assign>)

  datatype Entry = Begin(rec: Record) | Commit(rec: Record) | Done(seqno: nat)

  // The line encoding. decode is trimming, skipping blanks and unmarshalling together.
  datatype Codec = Codec(encode: Entry -> Bytes, decode: Bytes -> Option<Entry>) {
    ghost predicate Faithful() {
      && (forall e :: NL !in encode(e))
      && (forall e :: decode(encode(e)) == Some(e))
      && (forall e, k | 0 <= k < |encode(e)| :: decode(encode(e)[..k]) == None)
    }
  }

  // ---------------------------------------------------------------- lines

  function FirstNewline(b: Bytes): (i: nat)
    ensures i <= |b|
    ensures NL !in b[..i]
    ensures i < |b| ==> b[i] == NL
  {
    if b == [] || b[0] == NL then 0
    else
      var i := 1 + FirstNewline(b[1..]);
      assert b[..i] == [b[0]] + b[1..][..i - 1];
      i
  }

  // bytes.Split on the newline: one more piece than there are newlines.
  function Split(b: Bytes): seq<Bytes>
    decreases |b|
  {
    var i := FirstNewline(b);
    if i == |b| then [b] else [b[..i]] + Split(b[i + 1..])
  }

  function DecodeAll(c: Codec, lines: seq<Bytes>): seq<Entry> {
    if lines == [] then []
    else
      var rest := DecodeAll(c, lines[1..]);
      match c.decode(lines[0])
      case Some(e) => [e] + rest
      case None => rest
  }

  function Entries(c: Codec, b: Bytes): seq<Entry> {
    DecodeAll(c, Split(b))
  }

  function Text(c: Codec, es: seq<Entry>): Bytes {
    if es == [] then [] else c.encode(es[0]) + [NL] + Text(c, es[1..])
  }

  lemma FirstNewlineIs(b: Bytes, i: nat)
    requires i <= |b| && NL !in b[..i] && (i < |b| ==> b[i] == NL)
    ensures FirstNewline(b) == i
  {
    var j := FirstNewline(b);
    assert forall k | 0 <= k < i :: b[k] in b[..i];
    assert forall k | 0 <= k < j :: b[k] in b[..j];
  }

  lemma {:induction false} SplitJoin(a: Bytes, b: Bytes)
    ensures Split(a + [NL] + b) == Split(a) + Split(b)
    decreases |a|
  {
    var i := FirstNewline(a);
    var ab := a + [NL] + b;
    FirstOfJoin(a, b);
    SplitUnfolds(a);
    SplitUnfolds(ab);
    hide Split, FirstNewline;
    if i < |a| {
      assert ab[i + 1..] == a[i + 1..] + [NL] + b;
      SplitJoin(a[i + 1..], b);
      assert [a[..i]] + (Split(a[i + 1..]) + Split(b)) == ([a[..i]] + Split(a[i + 1..])) + Split(b);
    } else {
      assert ab[i + 1..] == b;
    }
  }

  lemma FirstOfJoin(a: Bytes, b: Bytes)
    ensures FirstNewline(a + [NL] + b) == FirstNewline(a)
    ensures (a + [NL] + b)[..FirstNewline(a)] == a[..FirstNewline(a)]
    ensures FirstNewline(a) == |a| ==> a[..FirstNewline(a)] == a
  {
    hide FirstNewline;
    assert (a + [NL] + b)[..FirstNewline(a)] == a[..FirstNewline(a)];
    FirstNewlineIs(a + [NL] + b, FirstNewline(a));
  }

  lemma SplitUnfolds(b: Bytes)
    ensures var i := FirstNewline(b); Split(b) == if i == |b| then [b] else [b[..i]] + Split(b[i + 1..])
  {
    hide FirstNewline;
  }

  lemma DecodeSingle(c: Codec, line: Bytes)
    ensures DecodeAll(c, [line]) == match c.decode(line) case Some(e) => [e] case None => []
  {
    assert [line][1..] == [];
  }

  lemma {:induction false} DecodeAllConcat(c: Codec, a: seq<Bytes>, b: seq<Bytes>)
    ensures DecodeAll(c, a + b) == DecodeAll(c, a) + DecodeAll(c, b)
  {
    if a == [] {
      assert a + b == b;
    } else {
      assert (a + b)[1..] == a[1..] + b;
      DecodeAllConcat(c, a[1..], b);
    }
  }

  lemma EntriesJoin(c: Codec, a: Bytes, b: Bytes)
    ensures Entries(c, a + [NL] + b) == Entries(c, a) + Entries(c, b)
  {
    SplitJoin(a, b);
    DecodeAllConcat(c, Split(a), Split(b));
  }

  lemma SplitUnterminated(b: Bytes)
    requires NL !in b
    ensures Split(b) == [b]
  {
    FirstNewlineIs(b, |b|);
  }

  // Bytes that end on a line boundary and whatever is written after them never share a line.
  lemma EntriesAfter(c: Codec, a: Bytes, b: Bytes)
    requires c.Faithful()
    requires a == [] || a[|a| - 1] == NL
    ensures Entries(c, a + b) == Entries(c, a) + Entries(c, b)
  {
    EmptyUndecodable(c);
    SplitUnterminated([]);
    DecodeSingle(c, []);
    if a == [] {
      assert a + b == b;
    } else {
      var a' := a[..|a| - 1];
      assert a == a' + [NL] + [];
      assert a + b == a' + [NL] + b;
      EntriesJoin(c, a', []);
      EntriesJoin(c, a', b);
    }
  }

  lemma EmptyUndecodable(c: Codec)
    requires c.Faithful()
    ensures c.decode([]) == None
    ensures forall e :: c.encode(e) != []
  {
    var e0, e1 := Done(0), Done(1);
    assert c.decode(c.encode(e0)) != c.decode(c.encode(e1));
    assert c.encode(e0) != c.encode(e1);
    var e := if c.encode(e0) == [] then e1 else e0;
    assert c.encode(e)[..0] == [];
    forall x ensures c.encode(x) != [] {
      assert c.decode(c.encode(x)) == Some(x);
    }
  }

  lemma EntriesLine(c: Codec, e: Entry)
    requires c.Faithful()
    ensures Entries(c, c.encode(e) + [NL]) == [e]
  {
    assert c.encode(e) + [NL] == c.encode(e) + [NL] + [];
    EntriesJoin(c, c.encode(e), []);
    SplitUnterminated(c.encode(e));
    SplitUnterminated([]);
    EmptyUndecodable(c);
    DecodeSingle(c, []);
    DecodeSingle(c, c.encode(e));
  }

  lemma {:induction false} EntriesText(c: Codec, es: seq<Entry>)
    requires c.Faithful()
    ensures Entries(c, Text(c, es)) == es
    ensures Text(c, es) == [] || Text(c, es)[|Text(c, es)| - 1] == NL
  {
    hide *;
    if es == [] {
      NoText(c);
    } else {
      EntriesText(c, es[1..]);
      EntriesLine(c, es[0]);
      TextUnfolds(c, es);
      EntriesAfter(c, c.encode(es[0]) + [NL], Text(c, es[1..]));
      assert [es[0]] + es[1..] == es;
    }
  }

  lemma NoText(c: Codec)
    requires c.Faithful()
    ensures Text(c, []) == [] && Entries(c, []) == []
  {
    SplitUnterminated([]);
    EmptyUndecodable(c);
    DecodeSingle(c, []);
  }

  lemma TextUnfolds(c: Codec, es: seq<Entry>)
    requires es != []
    ensures Text(c, es) == c.encode(es[0]) + [NL] + Text(c, es[1..])
    ensures Text(c, es[1..]) == [] || Text(c, es[1..])[|Text(c, es[1..])| - 1] == NL ==> Text(c, es)[|Text(c, es)| - 1] == NL
  {
  }

  // ---------------------------------------------------------------- healing

  function Heal(b: Bytes): (r: Bytes)
    ensures r <= b
    ensures r == [] || r[|r| - 1] == NL
    ensures NL !in b[|r|..]
  {
    if b == [] || b[|b| - 1] == NL then b
    else
      var r := Heal(b[..|b| - 1]);
      assert forall k | |r| <= k < |b| - 1 :: b[k] == b[..|b| - 1][|r|..][k - |r|];
      r
  }

  lemma {:induction false} HealIs(a: Bytes, frag: Bytes)
    requires a == [] || a[|a| - 1] == NL
    requires NL !in frag
    ensures Heal(a + frag) == a
  {
    if frag == [] {
      assert a + frag == a;
    } else {
      assert (a + frag)[..|a + frag| - 1] == a + frag[..|frag| - 1];
      HealIs(a, frag[..|frag| - 1]);
    }
  }

  lemma NoBreak(c: Codec, e: Entry, k: nat)
    requires c.Faithful() && k <= |c.encode(e)|
    ensures NL !in c.encode(e)[..k]
  {
  }

  // Torn-tail healing: whatever part of one more line a crash left behind, healing and then
  // appending any further lines reads back as exactly the complete entries.
  lemma TornTailHeals(c: Codec, es: seq<Entry>, torn: Entry, k: nat, more: seq<Entry>)
    requires c.Faithful() && k <= |c.encode(torn)|
    ensures Heal(Text(c, es) + c.encode(torn)[..k]) == Text(c, es)
    ensures Entries(c, Heal(Text(c, es) + c.encode(torn)[..k]) + Text(c, more)) == es + more
  {
    NoBreak(c, torn, k);
    hide *;
    EntriesText(c, es);
    EntriesText(c, more);
    HealIs(Text(c, es), c.encode(torn)[..k]);
    EntriesAfter(c, Text(c, es), Text(c, more));
  }

  // Why the heal is there: appended to without it, the fragment and the next line weld into one
  // undecodable line, and that next record is hidden.
  lemma UnhealedTailHidesNextRecord(c: Codec, es: seq<Entry>, frag: Bytes, next: Entry, more: seq<Entry>)
    requires c.Faithful() && NL !in frag
    requires c.decode(frag + c.encode(next)) == None
    ensures Entries(c, Text(c, es) + frag + Text(c, [next] + more)) == es + more
  {
    hide Split, Entries;
    var welded := frag + c.encode(next);
    assert Text(c, [next] + more) == c.encode(next) + [NL] + Text(c, more) by {
      assert ([next] + more)[1..] == more;
    }
    assert Text(c, es) + frag + Text(c, [next] + more) == Text(c, es) + (welded + [NL] + Text(c, more));
    CorruptLineCostsOnlyItself(c, es, welded, more);
  }

  // An undecodable line anywhere hides nothing but itself.
  lemma CorruptLineCostsOnlyItself(c: Codec, es: seq<Entry>, junk: Bytes, more: seq<Entry>)
    requires c.Faithful() && NL !in junk && c.decode(junk) == None
    ensures Entries(c, Text(c, es) + (junk + [NL] + Text(c, more))) == es + more
  {
    hide Split, Text;
    EntriesText(c, es);
    EntriesText(c, more);
    EntriesAfter(c, Text(c, es), junk + [NL] + Text(c, more));
    EntriesJoin(c, junk, Text(c, more));
    SplitUnterminated(junk);
    DecodeSingle(c, junk);
  }

  // ---------------------------------------------------------------- folding

  type Open = map<nat, Record>

  function FoldOne(m: Open, e: Entry): Open {
    match e
    case Begin(r) => m[r.seqno := r]
    case Commit(r) => m[r.seqno := r]
    case Done(s) => m - {s}
  }

  function FoldFrom(m: Open, es: seq<Entry>): Open {
    if es == [] then m else FoldOne(FoldFrom(m, es[..|es| - 1]), es[|es| - 1])
  }

  function Fold(es: seq<Entry>): Open {
    FoldFrom(map[], es)
  }

  lemma FoldSnoc(m: Open, es: seq<Entry>, e: Entry)
    ensures FoldFrom(m, es + [e]) == FoldOne(FoldFrom(m, es), e)
  {
    assert (es + [e])[..|es|] == es;
  }

  lemma {:induction false} FoldConcat(m: Open, a: seq<Entry>, b: seq<Entry>)
    ensures FoldFrom(m, a + b) == FoldFrom(FoldFrom(m, a), b)
  {
    if b == [] {
      assert a + b == a;
    } else {
      var b' := b[..|b| - 1];
      assert a + b == (a + b') + [b[|b| - 1]];
      FoldSnoc(m, a + b', b[|b| - 1]);
      FoldConcat(m, a, b');
    }
  }

  lemma {:induction false} FoldKeyed(es: seq<Entry>, k: nat)
    requires k in Fold(es)
    ensures Fold(es)[k].seqno == k
  {
    if es != [] {
      var es' := es[..|es| - 1];
      if k in Fold(es') {
        FoldKeyed(es', k);
      }
    }
  }

  // Truncating a file with nothing outstanding changes nothing any later reader can see.
  lemma CompactionInvisible(es: seq<Entry>, more: seq<Entry>)
    requires Fold(es) == map[]
    ensures Fold(es + more) == Fold([] + more)
  {
    FoldConcat(map[], es, more);
    assert [] + more == more;
  }

  // ---------------------------------------------------------------- the outstanding records, in order

  ghost function MaxOf(ks: set<nat>): (k: nat)
    requires ks != {}
    ensures k in ks && forall j | j in ks :: j <= k
    decreases ks
  {
    var k :| k in ks;
    if ks == {k} then k
    else
      var m := MaxOf(ks - {k});
      assert forall j | j in ks :: j == k || j in ks - {k};
      if m < k then k else m
  }

  ghost function InOrder(m: Open): (r: seq<Record>)
    decreases |m|
  {
    if m == map[] then []
    else
      var k := MaxOf(m.Keys);
      InOrder(m - {k}) + [m[k]]
  }

  ghost function Outstanding(es: seq<Entry>): seq<Record> {
    InOrder(Fold(es))
  }

  lemma InOrderTop(m: Open, k: nat)
    requires k in m && forall j | j in m :: j <= k
    ensures InOrder(m) == InOrder(m - {k}) + [m[k]]
  {
    assert MaxOf(m.Keys) == k;
  }

  lemma InOrderPush(m: Open, k: nat, r: Record)
    requires forall j | j in m :: j < k
    ensures InOrder(m[k := r]) == InOrder(m) + [r]
  {
    assert m[k := r] - {k} == m;
    InOrderTop(m[k := r], k);
  }

  lemma {:induction false} InOrderElements(m: Open, i: nat)
    requires forall k | k in m :: m[k].seqno == k
    requires i < |InOrder(m)|
    ensures var r := InOrder(m)[i]; r.seqno in m && m[r.seqno] == r
    decreases |m|
  {
    var k := MaxOf(m.Keys);
    if i < |InOrder(m)| - 1 {
      InOrderElements(m - {k}, i);
    }
  }

  lemma {:induction false} InOrderComplete(m: Open, k: nat)
    requires k in m
    ensures m[k] in InOrder(m)
    decreases |m|
  {
    var top := MaxOf(m.Keys);
    if k != top {
      InOrderComplete(m - {top}, k);
      assert (m - {top})[k] in InOrder(m - {top});
    }
  }

  // Sorted by sequence number, strictly: each outstanding token appears once.
  lemma {:induction false} InOrderSorted(m: Open, i: nat, j: nat)
    requires forall k | k in m :: m[k].seqno == k
    requires i < j < |InOrder(m)|
    ensures InOrder(m)[i].seqno < InOrder(m)[j].seqno
    decreases |m|
  {
    var k := MaxOf(m.Keys);
    if j < |InOrder(m)| - 1 {
      InOrderSorted(m - {k}, i, j);
    } else {
      InOrderElements(m - {k}, i);
    }
  }
}
