// What every micro-step keeps, and what follows for whole runs.
module RecoveryProof {
  import opened Settings
  import opened JournalFormat
  import opened Recovery
  import opened Captures

  // ---------------------------------------------------------------- overwriting

  ghost predicate Agree(s: Store, t: Store, ks: set<Key>) {
    forall k | k !in ks :: Get(s, k) == Get(t, k)
  }

  lemma AgreeEverywhere(s: Store, t: Store)
    requires Agree(s, t, {})
    ensures s == t
  {
    forall k ensures k in s <==> k in t {
      assert Get(s, k) == Get(t, k);
    }
    forall k | k in s ensures s[k] == t[k] {
      assert Get(s, k) == Get(t, k);
    }
  }

  // Absolute writes forget what was there before them.
  lemma {:induction false} PutAllAgree(s: Store, t: Store, undo: seq<Assign>, ks: set<Key>)
    requires Agree(s, t, ks + Keys(undo))
    ensures Agree(PutAll(s, undo), PutAll(t, undo), ks)
    decreases |undo|
  {
    if undo != [] {
      var a := undo[0];
      var s', t' := Put(s, a), Put(t, a);
      assert undo == [a] + undo[1..];
      KeysConcat([a], undo[1..]);
      forall k | k !in ks + Keys(undo[1..]) ensures Get(s', k) == Get(t', k) {
        if k != a.key {
          assert k !in ks + Keys(undo);
          assert Get(s, k) == Get(t, k);
        }
      }
      PutAllAgree(s', t', undo[1..], ks);
    }
  }

  lemma PutAllOutside(s: Store, undo: seq<Assign>)
    ensures Agree(PutAll(s, undo), s, Keys(undo))
    decreases |undo|
  {
    if undo != [] {
      PutAllOutside(Put(s, undo[0]), undo[1..]);
      assert Keys(undo[1..]) <= Keys(undo);
      assert undo[0] in undo;
    }
  }

  lemma {:induction false} PutAllMore(s: Store, a: seq<Assign>, x: Assign)
    ensures PutAll(s, a + [x]) == Put(PutAll(s, a), x)
    decreases |a|
  {
    if a == [] {
      assert [] + [x] == [x] && [x][1..] == [];
    } else {
      assert (a + [x])[1..] == a[1..] + [x];
      PutAllMore(Put(s, a[0]), a[1..], x);
    }
  }

  lemma PutInside(s: Store, a: Assign, ks: set<Key>)
    requires a.key in ks
    ensures Agree(s, Put(s, a), ks)
  {
  }

  lemma {:induction false} RevertAllAgree(stack: seq<Record>, w: World, v: World, ks: set<Key>)
    requires Agree(w.store, v.store, ks + CoveredKeys(stack))
    ensures Agree(RevertAll(stack, w).store, RevertAll(stack, v).store, ks)
  {
    if stack != [] {
      var r, below := stack[|stack| - 1], stack[..|stack| - 1];
      if !r.op.AddRoute? {
        assert ks + CoveredKeys(stack) == (ks + CoveredKeys(below)) + Keys(r.undo);
        PutAllAgree(w.store, v.store, r.undo, ks + CoveredKeys(below));
      }
      RevertAllAgree(below, RevertOne(r, w), RevertOne(r, v), ks);
    }
  }

  function Unclaimed(stack: seq<Record>, rib: Rib): Rib {
    map k | k in rib && !Claimed(stack, k, rib[k]) :: rib[k]
  }

  lemma {:induction false} RevertAllRib(stack: seq<Record>, w: World)
    ensures RevertAll(stack, w).rib == Unclaimed(stack, w.rib)
  {
    if stack != [] {
      var r, below := stack[|stack| - 1], stack[..|stack| - 1];
      RevertAllRib(below, RevertOne(r, w));
    }
  }

  lemma RevertAllSame(stack: seq<Record>, w: World, v: World)
    requires Agree(w.store, v.store, CoveredKeys(stack))
    requires Unclaimed(stack, w.rib) == Unclaimed(stack, v.rib)
    ensures RevertAll(stack, w) == RevertAll(stack, v)
  {
    assert {} + CoveredKeys(stack) == CoveredKeys(stack);
    RevertAllAgree(stack, w, v, {});
    AgreeEverywhere(RevertAll(stack, w).store, RevertAll(stack, v).store);
    RevertAllRib(stack, w);
    RevertAllRib(stack, v);
  }

  lemma {:induction false} InCovered(stack: seq<Record>, r: Record)
    requires r in stack
    ensures !r.op.AddRoute? ==> Keys(r.undo) <= CoveredKeys(stack)
    ensures r.op.AddRoute? ==> forall h | Matches(r.op.route, h) :: Claimed(stack, KeyOf(r.op.route), h)
  {
    if r != stack[|stack| - 1] {
      InCovered(stack[..|stack| - 1], r);
    }
  }

  // Re-applying any pending record, in full or in part, changes nothing about the outcome of a recovery.
  lemma RewriteInvisible(stack: seq<Record>, r: Record, i: nat, w: World)
    requires r in stack && Captured(r) && CanWrite(r.op, i, w)
    ensures RevertAll(stack, WriteOne(r.op, i, w)) == RevertAll(stack, w)
  {
    InCovered(stack, r);
    var v := WriteOne(r.op, i, w);
    if r.op.AddRoute? {
      assert Matches(r.op.route, HopOf(r.op.route));
      assert Unclaimed(stack, v.rib) == Unclaimed(stack, w.rib);
    } else {
      OwnKeyCovered(r, i);
      PutInside(w.store, Own(r.op)[i], CoveredKeys(stack));
    }
    RevertAllSame(stack, w, v);
  }

  lemma OwnKeyCovered(r: Record, i: nat)
    requires Captured(r) && !r.op.AddRoute? && i < |Own(r.op)|
    ensures Own(r.op)[i].key in Keys(r.undo)
  {
    var store, env :| r.undo == Capture(r.op, store, env);
    CaptureCovers(r.op, store, env);
    assert Own(r.op)[i] in Own(r.op);
  }

  lemma UnwriteInvisible(stack: seq<Record>, r: Record, i: nat, w: World)
    requires r in stack && i < RevertSteps(r)
    ensures RevertAll(stack, UnwriteOne(r, i, w)) == RevertAll(stack, w)
  {
    InCovered(stack, r);
    var v := UnwriteOne(r, i, w);
    if r.op.AddRoute? {
      assert Unclaimed(stack, v.rib) == Unclaimed(stack, w.rib);
    } else {
      assert r.undo[i] in r.undo;
      PutInside(w.store, r.undo[i], CoveredKeys(stack));
    }
    RevertAllSame(stack, w, v);
  }

  // ---------------------------------------------------------------- the journal's active records

  lemma FoldMore(disk: seq<Entry>, e: Entry)
    ensures Fold(disk + [e]) == FoldOne(Fold(disk), e)
  {
    FoldSnoc(map[], disk, e);
  }

  lemma KeepKeyed(disk: seq<Entry>)
    ensures forall k | k in Fold(disk) :: Fold(disk)[k].seqno == k
    ensures forall k | k in Keep(Fold(disk)) :: Keep(Fold(disk))[k].seqno == k
  {
    forall k | k in Fold(disk) ensures Fold(disk)[k].seqno == k {
      FoldKeyed(disk, k);
    }
  }

  lemma ActiveElements(disk: seq<Entry>, r: Record)
    requires r in Active(disk)
    ensures r.seqno in Fold(disk) && Fold(disk)[r.seqno] == r && !r.adopted
  {
    KeepKeyed(disk);
    var i :| 0 <= i < |Active(disk)| && Active(disk)[i] == r;
    InOrderElements(Keep(Fold(disk)), i);
  }

  lemma ActiveBegin(disk: seq<Entry>, rec: Record)
    requires forall k | k in Fold(disk) :: k < rec.seqno
    ensures Active(disk + [Begin(rec)]) == if rec.adopted then Active(disk) else Active(disk) + [rec]
  {
    FoldMore(disk, Begin(rec));
    var m, m' := Keep(Fold(disk)), Keep(Fold(disk + [Begin(rec)]));
    if rec.adopted {
      assert m' == m;
    } else {
      assert m' == m[rec.seqno := rec];
      InOrderPush(m, rec.seqno, rec);
    }
  }

  function At(m: Open, n: nat): seq<Record> {
    if n in m then [m[n]] else []
  }

  // Sorting splits at any token.
  lemma {:induction false} InOrderSplit(m: Open, n: nat)
    ensures InOrder(m) == InOrder(Below(m, n)) + At(m, n) + InOrder(Above(m, n))
    decreases |m|
  {
    if m == map[] {
      assert Below(m, n) == map[] && Above(m, n) == map[];
    } else {
      var k := MaxOf(m.Keys);
      InOrderSplit(m - {k}, n);
      InOrderTop(m, k);
      SplitAtTop(m, n, k);
      AtLess(m, n, k);
      hide InOrder, Below, Above, At;
      SplitSnoc(InOrder(Below(m - {k}, n)), At(m - {k}, n), InOrder(Above(m - {k}, n)), m[k]);
    }
  }

  lemma SplitSnoc(low: seq<Record>, mid: seq<Record>, high: seq<Record>, r: Record)
    ensures (low + mid + high) + [r] == low + mid + (high + [r])
    ensures high == [] ==> (low + mid + high) + [r] == low + (mid + [r]) + []
    ensures high == [] && mid == [] ==> (low + mid + high) + [r] == (low + [r]) + [] + []
  {
  }

  lemma AtLess(m: Open, n: nat, k: nat)
    requires k in m
    ensures k != n ==> At(m - {k}, n) == At(m, n)
    ensures k == n ==> At(m - {k}, n) == [] && At(m, n) == [] + [m[k]]
    ensures n !in m ==> At(m, n) == []
  {
  }

  lemma SplitAtTop(m: Open, n: nat, k: nat)
    requires k in m && (forall j | j in m :: j <= k)
    ensures k < n ==> InOrder(Below(m, n)) == InOrder(Below(m - {k}, n)) + [m[k]] && n !in m
    ensures k == n ==> Below(m, n) == Below(m - {k}, n)
    ensures k <= n ==> InOrder(Above(m, n)) == InOrder(Above(m - {k}, n)) == []
    ensures k > n ==> Below(m, n) == Below(m - {k}, n) && InOrder(Above(m, n)) == InOrder(Above(m - {k}, n)) + [m[k]]
  {
    if k < n {
      assert Below(m, n) - {k} == Below(m - {k}, n);
      InOrderTop(Below(m, n), k);
      assert Above(m, n) == Above(m - {k}, n) == map[];
    } else if k == n {
      assert Above(m, n) == Above(m - {k}, n) == map[];
    } else {
      assert Above(m, n) - {k} == Above(m - {k}, n);
      InOrderTop(Above(m, n), k);
    }
  }

  lemma ActiveSplit(disk: seq<Entry>, n: nat)
    requires n in Fold(disk) && !Fold(disk)[n].adopted
    ensures Active(disk) == Older(disk, n) + [Fold(disk)[n]] + Newer(disk, n)
  {
    hide Fold, InOrder;
    InOrderSplit(Keep(Fold(disk)), n);
  }

  lemma ActiveCommit(disk: seq<Entry>, rec: Record)
    requires rec.seqno in Fold(disk) && !rec.adopted
    ensures Active(disk + [Commit(rec)]) == Older(disk, rec.seqno) + [rec] + Newer(disk, rec.seqno)
  {
    hide Fold, InOrder;
    FoldMore(disk, Commit(rec));
    var n, m, m' := rec.seqno, Keep(Fold(disk)), Keep(Fold(disk + [Commit(rec)]));
    InOrderSplit(m', n);
    assert Below(m', n) == Below(m, n) && Above(m', n) == Above(m, n);
  }

  lemma ActiveAdopted(disk: seq<Entry>, rec: Record)
    requires rec.adopted && rec.seqno in Fold(disk) && Fold(disk)[rec.seqno].adopted
    ensures Active(disk + [Commit(rec)]) == Active(disk)
  {
    FoldMore(disk, Commit(rec));
    assert Keep(Fold(disk + [Commit(rec)])) == Keep(Fold(disk));
  }

  lemma ActiveDone(disk: seq<Entry>, n: nat)
    ensures Active(disk + [Done(n)]) == Older(disk, n) + Newer(disk, n)
  {
    hide Fold, InOrder;
    FoldMore(disk, Done(n));
    var m, m' := Keep(Fold(disk)), Keep(Fold(disk + [Done(n)]));
    InOrderSplit(m', n);
    assert Below(m', n) == Below(m, n) && Above(m', n) == Above(m, n);
  }

  lemma ActiveDoneInert(disk: seq<Entry>, k: nat)
    requires k in Fold(disk) ==> Fold(disk)[k].adopted
    ensures Active(disk + [Done(k)]) == Active(disk)
  {
    FoldMore(disk, Done(k));
    assert Keep(Fold(disk + [Done(k)])) == Keep(Fold(disk));
  }

  lemma UnadoptedSnoc(rs: seq<Record>, r: Record)
    ensures Unadopted(rs + [r]) == Unadopted(rs) + if r.adopted then [] else [r]
  {
    assert (rs + [r])[..|rs|] == rs;
  }

  lemma BootFacts(disk: seq<Entry>)
    ensures forall k | k in Fold(disk) :: k <= MaxSeq(disk)
    ensures forall r | r in Outstanding(disk) :: r.seqno in Fold(disk) && Fold(disk)[r.seqno] == r
  {
    KeepKeyed(disk);
    var rs := Outstanding(disk);
    forall r | r in rs ensures r.seqno in Fold(disk) && Fold(disk)[r.seqno] == r {
      var i :| 0 <= i < |rs| && rs[i] == r;
      InOrderElements(Fold(disk), i);
    }
  }

  lemma FoldEmpty()
    ensures Fold([]) == map[]
  {
  }

  // ---------------------------------------------------------------- a stack in two parts

  lemma {:induction false} RevertAllConcat(a: seq<Record>, b: seq<Record>, w: World)
    ensures RevertAll(a + b, w) == RevertAll(a, RevertAll(b, w))
  {
    if b == [] {
      assert a + b == a;
    } else {
      var top, below := b[|b| - 1], b[..|b| - 1];
      assert (a + b)[..|a + b| - 1] == a + below;
      RevertAllConcat(a, below, RevertOne(top, w));
    }
  }

  lemma {:induction false} CoveredConcat(a: seq<Record>, b: seq<Record>)
    ensures CoveredKeys(a + b) == CoveredKeys(a) + CoveredKeys(b)
  {
    if b == [] {
      assert a + b == a;
    } else {
      var below := b[..|b| - 1];
      assert (a + b)[..|a + b| - 1] == a + below;
      CoveredConcat(a, below);
    }
  }

  lemma RevertAllOne(r: Record, w: World)
    ensures RevertAll([r], w) == RevertOne(r, w)
  {
    assert [r][..0] == [];
  }

  lemma StoreIgnoresRib(stack: seq<Record>, w: World, v: World)
    requires w.store == v.store
    ensures RevertAll(stack, w).store == RevertAll(stack, v).store
  {
    RevertAllAgree(stack, w, v, {});
    AgreeEverywhere(RevertAll(stack, w).store, RevertAll(stack, v).store);
  }

  lemma {:induction false} UncoveredPut(stack: seq<Record>, w: World, a: Assign)
    requires a.key !in CoveredKeys(stack)
    ensures RevertAll(stack, w.(store := Put(w.store, a))) ==
            var b := RevertAll(stack, w); b.(store := Put(b.store, a))
  {
    if stack != [] {
      var r, below := stack[|stack| - 1], stack[..|stack| - 1];
      if !r.op.AddRoute? {
        PutAllPut(w.store, r.undo, a);
      }
      UncoveredPut(below, RevertOne(r, w), a);
    }
  }

  lemma PutAllPut(s: Store, undo: seq<Assign>, a: Assign)
    requires a.key !in Keys(undo)
    ensures PutAll(Put(s, a), undo) == Put(PutAll(s, undo), a)
    decreases |undo|
  {
    if undo != [] {
      assert undo[0] in undo;
      assert undo[0].key != a.key;
      assert Put(Put(s, a), undo[0]) == Put(Put(s, undo[0]), a);
      assert forall k | k in Keys(undo[1..]) :: k in Keys(undo);
      PutAllPut(Put(s, undo[0]), undo[1..], a);
    }
  }

  // Which record decides a setting: the oldest one that covers it.
  lemma {:induction false} OldestDecides(stack: seq<Record>, w: World, k: Key)
    ensures k !in CoveredKeys(stack) ==> Get(RevertAll(stack, w).store, k) == Get(w.store, k)
    ensures k in CoveredKeys(stack) ==>
      exists i | 0 <= i < |stack| ::
        (!stack[i].op.AddRoute?
         && Assign(k, Get(RevertAll(stack, w).store, k)) in stack[i].undo
         && k !in CoveredKeys(stack[..i]))
  {
    if stack != [] {
      var n := |stack| - 1;
      var r, below := stack[n], stack[..n];
      OldestDecides(below, RevertOne(r, w), k);
      if k in CoveredKeys(below) {
        var i :| 0 <= i < n && !below[i].op.AddRoute?
          && Assign(k, Get(RevertAll(stack, w).store, k)) in below[i].undo && k !in CoveredKeys(below[..i]);
        assert below[..i] == stack[..i] && below[i] == stack[i];
      } else if !r.op.AddRoute? {
        if k in Keys(r.undo) {
          LastWrite(w.store, r.undo, k);
        } else {
          PutAllOutside(w.store, r.undo);
        }
      }
    }
  }

  lemma {:induction false} LastWrite(s: Store, undo: seq<Assign>, k: Key)
    requires k in Keys(undo)
    ensures Assign(k, Get(PutAll(s, undo), k)) in undo
    decreases |undo|
  {
    var a := undo[0];
    assert undo == [a] + undo[1..];
    KeysConcat([a], undo[1..]);
    if k in Keys(undo[1..]) {
      LastWrite(Put(s, a), undo[1..], k);
    } else {
      PutAllOutside(Put(s, a), undo[1..]);
    }
  }

  // A covered setting comes out the same whatever it is now.
  lemma {:induction false} OwedCovered(a: seq<Record>, v: World, w: World, k: Key)
    requires k in CoveredKeys(a)
    ensures Get(RevertAll(a, v).store, k) == Get(RevertAll(a, w).store, k)
  {
    var others := v.store.Keys + w.store.Keys - {k};
    forall x | x !in others + CoveredKeys(a) ensures Get(v.store, x) == Get(w.store, x) {
    }
    RevertAllAgree(a, v, w, others);
  }

  // The value an absolute write leaves does not depend on what it is written over.
  lemma PutAllValue(s: Store, t: Store, undo: seq<Assign>, k: Key)
    requires k in Keys(undo)
    ensures Get(PutAll(s, undo), k) == Get(PutAll(t, undo), k)
  {
    var others := s.Keys + t.Keys - {k};
    forall x | x !in others + Keys(undo) ensures Get(s, x) == Get(t, x) {
    }
    PutAllAgree(s, t, undo, others);
  }

  // What one record in the middle of a stack does to the outcome for k.
  lemma RecordDecides(older: seq<Record>, r: Record, newer: seq<Record>, w: World, k: Key)
    ensures var all, without := RevertAll(older + [r] + newer, w).store, RevertAll(older + newer, w).store;
      && (k in CoveredKeys(older) ==> Get(all, k) == Get(without, k))
      && (k !in CoveredKeys(older) ==> Get(without, k) == Get(RevertAll(newer, w).store, k))
      && (k !in CoveredKeys(older) && !r.op.AddRoute? && k in Keys(r.undo) ==> Get(all, k) == Get(PutAll(w.store, r.undo), k))
      && (k !in CoveredKeys(older) && (r.op.AddRoute? || k !in Keys(r.undo)) ==> Get(all, k) == Get(without, k))
  {
    hide RevertAll, CoveredKeys, PutAll, Get;
    var v := RevertAll(newer, w);
    var u := RevertOne(r, v);
    RevertAllConcat(older + [r], newer, w);
    RevertAllConcat(older, [r], v);
    RevertAllConcat(older, newer, w);
    RevertAllOne(r, v);
    if k in CoveredKeys(older) {
      OwedCovered(older, u, v, k);
    } else {
      OldestDecides(older, u, k);
      OldestDecides(older, v, k);
      if !r.op.AddRoute? {
        if k in Keys(r.undo) {
          PutAllValue(v.store, w.store, r.undo, k);
        } else {
          PutAllOutside(v.store, r.undo);
        }
      }
    }
  }

  lemma CarryGet(was: Store, now: Store, ks: set<Key>, k: Key)
    ensures Get(Carry(was, now, ks), k) == if k in ks then Get(was, k) else Get(now, k)
  {
  }
}
