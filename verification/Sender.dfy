// The emitter (internal/emit/sender.go): one plan against one socket that may fail at any call.
module Senders {
  import opened Octets
  import opened Plans
  import Governors

  datatype Cap = StreamWrite | NoDelay | SockTTL | Urgent | RawInject | Datagram

  datatype Plan = Plan(payload: Bytes, segments: seq<Segment>)

  function SegmentCaps(segs: seq<Segment>): set<Cap> {
    if segs == [] then {}
    else
      (if segs[0].ttl != 0 then {SockTTL} else {})
      + (match segs[0].kind
         case OobByte => {Urgent}
         case FakeRaw => {RawInject}
         case FakeDatagram => {Datagram}
         case _ => {})
      + SegmentCaps(segs[1..])
  }

  function Needs(p: Plan): set<Cap> {
    {StreamWrite} + (if |p.segments| > 1 then {NoDelay} else {}) + SegmentCaps(p.segments)
  }

  datatype Sent = Done | NoTransport | NoSegments | CapUnavailable | Aborted | HopLimit | UnknownKind | ShortWrite | Failed

  // A connected socket. hop is 0 while it is the kernel's default; a call that fails to set it leaves
  // it alone. wire is everything that has gone out, and the waits between. faults counts what has gone
  // wrong around it: calls that failed, writes cut short, contexts found ended.
  class Transport {
    const caps: set<Cap>
    var hop: int
    ghost var wire: seq<Tick>
    ghost var writes: nat
    ghost var stuck: bool
    ghost var faults: nat

    constructor (caps: set<Cap>)
      ensures this.caps == caps && hop == 0 && wire == [] && writes == 0 && !stuck && faults == 0
    {
      this.caps, hop := caps, 0;
      wire, writes, stuck, faults := [], 0, false, 0;
    }

    // Whether the context the plan is sent under is still live.
    method Wanted() returns (ok: bool)
      modifies this`faults
      ensures faults == old(faults) + if ok then 0 else 1
    {
      ok := *;
      faults := faults + if ok then 0 else 1;
    }

    method SetTTL(ttl: int) returns (ok: bool)
      modifies this`hop, this`faults
      ensures hop == if ok then ttl else old(hop)
      ensures faults == old(faults) + if ok then 0 else 1
    {
      ok := *;
      faults := faults + if ok then 0 else 1;
      if ok {
        hop := ttl;
      }
    }

    // stuck is whether the last attempt to restore the default failed.
    method ResetTTL() returns (ok: bool)
      modifies this`hop, this`stuck, this`faults
      ensures hop == if ok then 0 else old(hop)
      ensures stuck == !ok && faults == old(faults) + if ok then 0 else 1
    {
      ok := *;
      faults := faults + if ok then 0 else 1;
      if ok {
        hop := 0;
      }
      stuck := !ok;
    }

    // n octets were taken, with or without an error.
    method Write(ghost kind: Kind, data: Bytes) returns (n: nat, ok: bool)
      modifies this`wire, this`writes, this`faults
      ensures n <= |data|
      ensures wire == old(wire) + Octet(kind, hop, data[..n]) && writes == old(writes) + 1
      ensures faults == old(faults) + if ok && n == |data| then 0 else 1
    {
      n, ok := *, *;
      if n > |data| {
        n := |data|;
      }
      wire := wire + Octet(kind, hop, data[..n]);
      writes := writes + 1;
      faults := faults + if ok && n == |data| then 0 else 1;
    }

    method InjectRaw(packet: Bytes) returns (ok: bool)
      modifies this`wire, this`writes, this`faults
      ensures wire == old(wire) + Octet(FakeRaw, hop, if ok then packet else []) && writes == old(writes) + 1
      ensures faults == old(faults) + if ok then 0 else 1
    {
      ok := *;
      faults := faults + if ok then 0 else 1;
      if ok {
        wire := wire + Octet(FakeRaw, hop, packet);
      }
      writes := writes + 1;
    }

    method Sleep(delay: int) returns (ok: bool)
      modifies this`wire, this`faults
      ensures wire == if ok then old(wire) + [Wait(delay)] else old(wire)
      ensures faults == old(faults) + if ok then 0 else 1
    {
      ok := *;
      faults := faults + if ok then 0 else 1;
      if ok {
        wire := wire + [Wait(delay)];
      }
    }
  }

  lemma {:induction false} FlattenMore(segs: seq<Segment>, i: nat)
    requires i < |segs|
    ensures Flatten(segs[..i + 1]) == Flatten(segs[..i]) + Flat(segs[i])
  {
    if i > 0 {
      FlattenMore(segs[1..], i - 1);
      assert segs[1..][..i] == segs[..i + 1][1..] && segs[1..][..i - 1] == segs[..i][1..];
    } else {
      assert segs[..1] == [segs[0]] && Flatten(segs[..1][1..]) == [];
    }
  }

  lemma {:induction false} FlattenSplit(segs: seq<Segment>, i: nat)
    requires i <= |segs|
    ensures Flatten(segs) == Flatten(segs[..i]) + Flatten(segs[i..])
  {
    if i > 0 {
      FlattenSplit(segs, i - 1);
      FlattenMore(segs, i - 1);
      assert segs[i - 1..][1..] == segs[i..];
    }
  }

  // A piece of the next segment after all the earlier ones is a prefix of the plan.
  lemma Partway(segs: seq<Segment>, i: nat, piece: seq<Tick>)
    requires i < |segs| && piece <= Flat(segs[i])
    ensures Flatten(segs[..i]) + piece <= Flatten(segs)
  {
    FlattenMore(segs, i);
    FlattenSplit(segs, i + 1);
  }

  // seg goes out whole, under the hop limit the socket has, or a prefix of it does.
  method EmitSegment(t: Transport, seg: Segment) returns (r: Sent, ghost n: nat)
    modifies t`wire, t`writes, t`faults
    ensures n <= |seg.data| && (r.Done? ==> n == |seg.data|)
    ensures t.wire == old(t.wire) + Octet(seg.kind, t.hop, seg.data[..n])
    ensures t.writes == old(t.writes) + if r.UnknownKind? then 0 else 1
    ensures r.UnknownKind? <==> seg.kind.Unknown?
    ensures t.faults == old(t.faults) + if r.Done? || r.UnknownKind? then 0 else 1
    ensures r.Done? || r.Failed? || r.ShortWrite? || r.UnknownKind?
  {
    var sent: nat, ok;
    match seg.kind
    case FakeRaw =>
      ok := t.InjectRaw(seg.data);
      r, n := if ok then Done else Failed, if ok then |seg.data| else 0;
      assert seg.data[..n] == if ok then seg.data else [];
    case Unknown =>
      r, n := UnknownKind, 0;
      assert Octet(seg.kind, t.hop, seg.data[..0]) == [];
    case _ =>
      sent, ok := t.Write(seg.kind, seg.data);
      r, n := if !ok then Failed else if sent != |seg.data| then ShortWrite else Done, sent;
  }

  // One turn of the loop: the delay, the hop limit, the octets. dirty is whether the socket's hop limit
  // may need restoring.
  method EmitNext(t: Transport, seg: Segment, dirty: bool) returns (r: Sent, dirty': bool, ghost piece: seq<Tick>)
    requires !dirty ==> t.hop == 0
    modifies t
    ensures t.wire == old(t.wire) + piece && piece <= Flat(seg) && (r.Done? ==> piece == Flat(seg))
    ensures !dirty' ==> t.hop == 0
    ensures t.writes <= old(t.writes) + 1 && (r.Done? ==> t.writes == old(t.writes) + 1)
    ensures t.faults >= old(t.faults) && (r.Done? || r.UnknownKind? || t.faults > old(t.faults))
    ensures r.UnknownKind? ==> seg.kind.Unknown?
    ensures !r.CapUnavailable? && !r.NoSegments? && !r.NoTransport?
  {
    hide Octet;
    dirty', piece := dirty, [];
    var live := t.Wanted();
    if !live {
      return Aborted, dirty', piece;
    }
    if seg.delay > 0 {
      var slept := t.Sleep(seg.delay);
      if !slept {
        return Aborted, dirty', piece;
      }
    }
    piece := Pause(seg);
    if seg.ttl != 0 {
      var lowered := t.SetTTL(seg.ttl);
      if !lowered {
        return HopLimit, dirty', piece;
      }
      dirty' := true;
    } else if dirty' {
      var reset := t.ResetTTL();
      if !reset {
        return HopLimit, dirty', piece;
      }
      dirty' := false;
    }
    ghost var n;
    r, n := EmitSegment(t, seg);
    PartOctets(seg, n);
    piece := Pause(seg) + Octet(seg.kind, seg.ttl, seg.data[..n]);
  }

  lemma PartOctets(seg: Segment, n: nat)
    requires n <= |seg.data|
    ensures Pause(seg) + Octet(seg.kind, seg.ttl, seg.data[..n]) <= Flat(seg)
    ensures n == |seg.data| ==> Pause(seg) + Octet(seg.kind, seg.ttl, seg.data[..n]) == Flat(seg)
  {
    assert Octet(seg.kind, seg.ttl, seg.data[..n]) == Octet(seg.kind, seg.ttl, seg.data)[..n];
  }

  predicate KindsKnown(segs: seq<Segment>) {
    forall s | s in segs :: !s.kind.Unknown?
  }

  // The segments of a plan, in order.
  method EmitAll(t: Transport, segs: seq<Segment>) returns (r: Sent, dirty: bool)
    requires t.hop == 0
    modifies t
    ensures r.Done? ==> t.wire == old(t.wire) + Flatten(segs)
    ensures old(t.wire) <= t.wire && t.wire[|old(t.wire)|..] <= Flatten(segs)
    ensures !dirty ==> t.hop == 0
    ensures t.writes <= old(t.writes) + |segs| && (r.Done? ==> t.writes == old(t.writes) + |segs|)
    ensures t.faults >= old(t.faults) && (KindsKnown(segs) ==> r.Done? || t.faults > old(t.faults))
    ensures !r.CapUnavailable? && !r.NoSegments? && !r.NoTransport?
  {
    hide Flat;
    dirty := false;
    for i := 0 to |segs|
      invariant t.wire == old(t.wire) + Flatten(segs[..i])
      invariant !dirty ==> t.hop == 0
      invariant t.writes == old(t.writes) + i
      invariant t.faults >= old(t.faults)
    {
      ghost var piece;
      r, dirty, piece := EmitNext(t, segs[i], dirty);
      FlattenMore(segs, i);
      Partway(segs, i, piece);
      if !r.Done? {
        assert t.wire == old(t.wire) + (Flatten(segs[..i]) + piece);
        return r, dirty;
      }
    }
    assert segs[..|segs|] == segs;
    r := Done;
  }

  lemma CoalescedKinds(segs: seq<Segment>, max: int)
    requires KindsKnown(segs)
    ensures KindsKnown(Coalesced(segs, max))
  {
    if segs != [] {
      JoinKinds(segs, Cut(segs, max));
    }
  }

  // Sends every segment of p in order. Whatever fails, what is on the wire is a prefix of what the
  // original plan says, each octet under its own segment's hop limit; the socket is left with its
  // default hop limit unless the restoring call itself failed; and the governor, asked only about
  // plans of several writes, bounds how many there are: on success neither more nor fewer than its
  // grant, but for what cannot be merged. Where nothing goes wrong, the plan is sent.
  method Send(t: Transport?, gov: Governors.Governor?, p: Plan, now: real) returns (r: Sent)
    requires t != null ==> t.hop == 0
    requires gov != null ==> gov.Valid()
    modifies if t != null then {t} else {}, if gov != null then {gov} else {}
    ensures gov != null ==> gov.Valid()
    ensures t == null ==> r.NoTransport?
    ensures t != null && p.segments == [] ==> r == (if p.payload == [] then Done else NoSegments)
    ensures t != null && p.segments != [] ==> (r.CapUnavailable? <==> !(Needs(p) <= t.caps))
    ensures t != null && r.Done? ==> t.wire == old(t.wire) + Flatten(p.segments)
    ensures t != null ==> old(t.wire) <= t.wire && t.wire[|old(t.wire)|..] <= Flatten(p.segments)
    ensures t != null && (r.NoSegments? || r.CapUnavailable?) ==> t.wire == old(t.wire)
    ensures t != null ==> t.hop == 0 || t.stuck
    ensures t != null && gov == null ==> t.writes <= old(t.writes) + |p.segments|
    ensures t != null && (gov == null || |p.segments| <= 1) && r.Done? ==> t.writes == old(t.writes) + |p.segments|
    ensures t != null && p.segments != [] && Needs(p) <= t.caps && KindsKnown(p.segments) ==>
      r.Done? || t.faults > old(t.faults)
    ensures t != null && t.faults == old(t.faults) ==> t.hop == 0
    ensures t == null || |p.segments| <= 1 || r.CapUnavailable? ==> gov == null || gov.calls == old(gov.calls)
    ensures t != null && gov != null && |p.segments| > 1 && !r.CapUnavailable? ==>
      && gov.calls == old(gov.calls) + [Governors.Call(|p.segments|, now)]
      && var granted := gov.granted - old(gov.granted);
      && t.writes <= old(t.writes) + |Coalesced(p.segments, granted)|
      && (r.Done? ==> t.writes == old(t.writes) + Max(granted, |p.segments| - Seams(p.segments, 1)))
  {
    hide Coalesced, Needs, Flatten, Seams, KindsKnown;
    if t == null {
      return NoTransport;
    }
    if p.segments == [] {
      FlattenNothing();
      return if p.payload == [] then Done else NoSegments;
    }
    if !(Needs(p) <= t.caps) {
      return CapUnavailable;
    }
    var segs := p.segments;
    if gov != null && |segs| > 1 {
      segs := Degrade(gov, segs, now);
    }
    r := EmitAndRestore(t, segs);
  }

  lemma FlattenNothing()
    ensures Flatten([]) == []
  {
  }

  // What the governor grants of a plan of several writes.
  method Degrade(gov: Governors.Governor, segs: seq<Segment>, now: real) returns (out: seq<Segment>)
    requires gov.Valid() && |segs| > 1
    modifies gov
    ensures gov.Valid() && gov.calls == old(gov.calls) + [Governors.Call(|segs|, now)]
    ensures 1 <= gov.granted - old(gov.granted) <= |segs|
    ensures out == Coalesced(segs, gov.granted - old(gov.granted)) && Flatten(out) == Flatten(segs)
    ensures |out| == Max(gov.granted - old(gov.granted), |segs| - Seams(segs, 1))
    ensures KindsKnown(segs) ==> KindsKnown(out)
  {
    hide Coalesced, Flatten, Seams, KindsKnown, Cut;
    var granted := gov.Reserve(|segs|, now);
    CoalescedLaws(segs, granted);
    if KindsKnown(segs) {
      CoalescedKinds(segs, granted);
    }
    out := segs;
    if granted < |segs| {
      out := Coalesce(segs, granted);
    }
  }

  // Sends the segments; a hop limit that may have been left lowered is restored whatever happened.
  method EmitAndRestore(t: Transport, segs: seq<Segment>) returns (r: Sent)
    requires t.hop == 0
    modifies t
    ensures r.Done? ==> t.wire == old(t.wire) + Flatten(segs)
    ensures old(t.wire) <= t.wire && t.wire[|old(t.wire)|..] <= Flatten(segs)
    ensures t.hop == 0 || (t.stuck && t.faults > old(t.faults))
    ensures t.writes <= old(t.writes) + |segs| && (r.Done? ==> t.writes == old(t.writes) + |segs|)
    ensures t.faults >= old(t.faults) && (KindsKnown(segs) ==> r.Done? || t.faults > old(t.faults))
    ensures !r.CapUnavailable? && !r.NoSegments? && !r.NoTransport?
  {
    hide Flatten, KindsKnown;
    var dirty;
    r, dirty := EmitAll(t, segs);
    if dirty {
      var reset := t.ResetTTL();
    }
  }
}
