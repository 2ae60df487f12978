// The network watcher's reactions (internal/netwatch/watcher.go): holds, the settle sequence, the portal probe.
module NetWatch {
  import opened Settings

  datatype Reason = Settling | Uplink | Portal

  datatype Kind =
    | RouteChange | NetworkChange | UplinkLost | UplinkBack | Wake
    | PortalDetected | PortalCleared | VPNFullTunnel | Error

  // What a handler with every hook set is called with, in order, and the probes in between. A probe that
  // could not decide is failed, and not behind.
  datatype Call =
    | Suspend(reason: Reason) | Unsuspend(reason: Reason)
    | Quiesce | Namespace(id: string) | Reverify | Resume | Stop
    | Observe(kind: Kind)
    | Probe(at: int, forced: bool, behind: bool, failed: bool)

  // One collection of facts: an error, or the uplink, what a VPN means for this run, and the namespace.
  datatype Facts = Unreadable | Facts(uplink: string, vpnFatal: bool, vpnFull: bool, id: string)

  // ---------------------------------------------------------------- what a trace says

  function HoldsOf(trace: seq<Call>): set<Reason> {
    if trace == [] then {}
    else
      var before := HoldsOf(trace[..|trace| - 1]);
      match trace[|trace| - 1]
      case Suspend(r) => before + {r}
      case Unsuspend(r) => before - {r}
      case _ => before
  }

  function IdOf(trace: seq<Call>, initial: string): string {
    if trace == [] then initial
    else match trace[|trace| - 1]
      case Namespace(id) => id
      case _ => IdOf(trace[..|trace| - 1], initial)
  }

  // The last probe.
  function ProbeOf(trace: seq<Call>): Option<Call> {
    if trace == [] then None
    else if trace[|trace| - 1].Probe? then Some(trace[|trace| - 1])
    else ProbeOf(trace[..|trace| - 1])
  }

  function ProbeTime(trace: seq<Call>): Option<int> {
    match ProbeOf(trace)
    case Some(Probe(at, _, _, _)) => Some(at)
    case _ => None
  }

  predicate SaysBehind(trace: seq<Call>) {
    match ProbeOf(trace)
    case Some(Probe(_, _, behind, _)) => behind
    case _ => false
  }

  // Whether a call may come next: holds are taken only when free and lifted only when taken, an unforced
  // probe keeps its distance, one that could not decide does not say behind, and nothing follows Stop.
  predicate MayFollow(trace: seq<Call>, c: Call, poll: int) {
    && Stop !in trace
    && match c
       case Suspend(r) => r !in HoldsOf(trace)
       case Unsuspend(r) => r in HoldsOf(trace)
       case Probe(at, forced, behind, failed) =>
         && (failed ==> !behind)
         && (forced || ProbeTime(trace).None? || at - ProbeTime(trace).value >= poll)
       case _ => true
  }

  predicate Lawful(trace: seq<Call>, poll: int) {
    forall n | 0 <= n < |trace| :: MayFollow(trace[..n], trace[n], poll)
  }

  predicate ProbePart(c: Call) {
    c.Probe? || c.Observe? || c == Suspend(Portal) || c == Unsuspend(Portal)
  }

  // The call at i stands inside one whole settle, whose probe, where there are probes, was insisted on.
  ghost predicate Bracketed(trace: seq<Call>, i: nat, probes: bool)
    requires i < |trace|
  {
    && i >= 3 && trace[i - 3] == Suspend(Settling) && trace[i - 2].Observe? && trace[i - 1] == Quiesce
    && i + 1 < |trace| && trace[i + 1] == Reverify
    && exists j :: Ends(trace, i, j, probes)
  }

  predicate Ends(trace: seq<Call>, i: int, j: int, probes: bool)
    requires 0 <= i < |trace|
  {
    && i + 1 < j && j + 1 < |trace| && trace[j] == Resume && trace[j + 1] == Unsuspend(Settling)
    && (forall m | i + 1 < m < j :: ProbePart(trace[m]))
    && (probes ==> exists m | i + 1 < m < j :: Insists(trace[m]))
  }

  predicate Insists(c: Call) {
    c.Probe? && c.forced
  }

  ghost predicate AllBracketed(trace: seq<Call>, probes: bool) {
    forall i | 0 <= i < |trace| && trace[i].Namespace? :: Bracketed(trace, i, probes)
  }

  // What lies between the re-verification of a settle and its end.
  predicate IsMiddle(middle: seq<Call>, probes: bool) {
    && (forall c | c in middle :: ProbePart(c))
    && (probes ==> exists m | 0 <= m < |middle| :: Insists(middle[m]))
  }

  function SettleHead(kind: Kind, id: string): seq<Call> {
    [Suspend(Settling), Observe(kind), Quiesce, Namespace(id), Reverify]
  }

  function SettleEnd(): seq<Call> {
    [Resume, Unsuspend(Settling)]
  }

  function BackCalls(holds: set<Reason>): seq<Call> {
    if Uplink in holds then [Unsuspend(Uplink), Observe(UplinkBack)] else []
  }

  function VpnCalls(facts: Facts): seq<Call>
    requires facts.Facts?
  {
    if facts.vpnFull then [Observe(VPNFullTunnel)] else []
  }

  // What a reaction does on a network with an uplink: stop, re-verify, or settle on the new one.
  function NetworkCalls(id: string, cause: Kind, facts: Facts, tail: seq<Call>): seq<Call>
    requires facts.Facts?
  {
    if facts.vpnFatal then [Observe(VPNFullTunnel), Stop]
    else if facts.id == id then VpnCalls(facts) + ([Observe(cause), Reverify] + tail)
    else VpnCalls(facts) + SettleCalls(facts.id, tail)
  }

  function SettleCalls(to: string, middle: seq<Call>): seq<Call> {
    SettleHead(NetworkChange, to) + middle + SettleEnd()
  }

  // The calls of one reaction to a debounced change, in order; tail is what the re-verification and the
  // probe report.
  function Reaction(holds: set<Reason>, id: string, cause: Kind, facts: Facts, tail: seq<Call>): seq<Call> {
    if facts.Unreadable? then [Observe(Error)]
    else if facts.uplink == "" then if Uplink in holds then [] else [Suspend(Uplink), Observe(UplinkLost)]
    else BackCalls(holds) + NetworkCalls(id, cause, facts, tail)
  }

  // What a probe's answer does to the portal hold.
  function PortalCalls(behind: bool, held: bool): seq<Call> {
    if behind && !held then [Suspend(Portal), Observe(PortalDetected)]
    else if !behind && held then [Unsuspend(Portal), Observe(PortalCleared)]
    else []
  }

  // Nobody has probed within the poll interval.
  predicate Due(lastProbe: Option<int>, now: int, poll: int) {
    lastProbe.Some? ==> now - lastProbe.value >= poll
  }

  predicate HasProbe(calls: seq<Call>) {
    exists m | 0 <= m < |calls| :: calls[m].Probe?
  }

  // ---------------------------------------------------------------- appending to a trace

  lemma OneMore(trace: seq<Call>, c: Call, poll: int, initial: string)
    requires Lawful(trace, poll) && MayFollow(trace, c, poll)
    ensures Lawful(trace + [c], poll)
    ensures HoldsOf(trace + [c]) == (match c case Suspend(r) => HoldsOf(trace) + {r} case Unsuspend(r) => HoldsOf(trace) - {r} case _ => HoldsOf(trace))
    ensures IdOf(trace + [c], initial) == if c.Namespace? then c.id else IdOf(trace, initial)
    ensures ProbeOf(trace + [c]) == if c.Probe? then Some(c) else ProbeOf(trace)
  {
    var more := trace + [c];
    assert more[..|trace|] == trace;
    forall n | 0 <= n < |more| ensures MayFollow(more[..n], more[n], poll) {
      assert n < |trace| ==> more[..n] == trace[..n] && more[n] == trace[n];
    }
  }

  lemma BracketStays(trace: seq<Call>, more: seq<Call>, probes: bool)
    requires AllBracketed(trace, probes) && forall c | c in more :: !c.Namespace?
    ensures AllBracketed(trace + more, probes)
  {
    var all := trace + more;
    assert forall i | 0 <= i < |more| :: all[|trace| + i] == more[i] && more[i] in more;
    assert forall i | |trace| <= i < |all| :: all[i] in more;
    forall i | 0 <= i < |all| && all[i].Namespace? ensures Bracketed(all, i, probes) {
      BracketLater(trace, more, i, probes);
    }
  }

  lemma BracketLater(trace: seq<Call>, more: seq<Call>, i: nat, probes: bool)
    requires i < |trace| && Bracketed(trace, i, probes)
    ensures Bracketed(trace + more, i, probes)
  {
    var all := trace + more;
    var j :| Ends(trace, i, j, probes);
    if probes {
      var m :| i + 1 < m < j && Insists(trace[m]);
      assert all[m] == trace[m];
    }
    assert Ends(all, i, j, probes);
  }

  // A whole settle, appended.
  lemma BracketAdded(trace: seq<Call>, kind: Kind, id: string, middle: seq<Call>, probes: bool)
    requires AllBracketed(trace, probes) && IsMiddle(middle, probes)
    ensures AllBracketed(trace + SettleHead(kind, id) + middle + SettleEnd(), probes)
  {
    var more := SettleHead(kind, id) + middle + SettleEnd();
    var all := trace + more;
    assert all == trace + SettleHead(kind, id) + middle + SettleEnd();
    var at, j := |trace| + 3, |trace| + 5 + |middle|;
    SettleEnds(trace, kind, id, middle, probes);
    assert forall i | |trace| + 5 <= i < j :: all[i] == middle[i - |trace| - 5] && !all[i].Namespace?;
    forall i | 0 <= i < |all| && all[i].Namespace? ensures Bracketed(all, i, probes) {
      if i < |trace| {
        assert all[i] == trace[i];
        BracketLater(trace, more, i, probes);
      } else {
        assert i == at;
      }
    }
  }

  lemma SettleEnds(trace: seq<Call>, kind: Kind, id: string, middle: seq<Call>, probes: bool)
    requires IsMiddle(middle, probes)
    ensures var all := trace + (SettleHead(kind, id) + middle + SettleEnd());
      Ends(all, |trace| + 3, |trace| + 5 + |middle|, probes)
  {
    var all := trace + (SettleHead(kind, id) + middle + SettleEnd());
    var j := |trace| + 5 + |middle|;
    forall m | |trace| + 4 < m < j ensures ProbePart(all[m]) {
      assert all[m] == middle[m - |trace| - 5];
    }
    if probes {
      var m :| 0 <= m < |middle| && Insists(middle[m]);
      assert all[|trace| + 5 + m] == middle[m];
    }
  }

  // ---------------------------------------------------------------- the watcher

  class Watcher {
    const initial: string
    const probes: bool
    const poll: int
    var id: string
    var holds: set<Reason>
    var behind: bool
    var lastProbe: Option<int>
    ghost var trace: seq<Call>

    // Between two calls into the handler.
    ghost predicate Sane()
      reads this
    {
      && Lawful(trace, poll)
      && holds == HoldsOf(trace) && id == IdOf(trace, initial) && lastProbe == ProbeTime(trace)
    }

    // Between two reactions: nothing is settling, the portal hold is what the last probe said, and every
    // namespace swap so far was part of a whole settle.
    ghost predicate Valid()
      reads this
    {
      && Sane() && AllBracketed(trace, probes)
      && Settling !in holds && (Portal in holds <==> SaysBehind(trace))
    }

    constructor (initial: string, probes: bool, poll: int)
      ensures Valid() && trace == [] && id == initial && holds == {}
      ensures this.initial == initial && this.probes == probes && this.poll == poll
    {
      this.initial, this.probes, this.poll, this.id := initial, probes, poll, initial;
      holds, behind, lastProbe, trace := {}, false, None, [];
    }

    // Every hook call and every probe goes through here.
    ghost method Note(c: Call)
      requires Lawful(trace, poll) && MayFollow(trace, c, poll)
      modifies this`trace
      ensures trace == old(trace) + [c] && Lawful(trace, poll)
      ensures HoldsOf(trace) == match c
        case Suspend(r) => HoldsOf(old(trace)) + {r}
        case Unsuspend(r) => HoldsOf(old(trace)) - {r}
        case _ => HoldsOf(old(trace))
      ensures IdOf(trace, initial) == if c.Namespace? then c.id else IdOf(old(trace), initial)
      ensures ProbeOf(trace) == if c.Probe? then Some(c) else ProbeOf(old(trace))
      ensures c != Stop ==> Stop !in trace
    {
      OneMore(trace, c, poll, initial);
      trace := trace + [c];
    }

    method Hold(r: Reason)
      requires Sane() && Stop !in trace
      modifies this`holds, this`trace
      ensures Sane() && Stop !in trace
      ensures trace == old(trace) + (if r in old(holds) then [] else [Suspend(r)])
      ensures holds == old(holds) + {r}
      ensures ProbeOf(trace) == ProbeOf(old(trace))
    {
      hide Lawful, HoldsOf, IdOf, ProbeOf;
      if r in holds {
        assert holds + {r} == holds && trace + [] == trace;
        return;
      }
      holds := holds + {r};
      Note(Suspend(r));
    }

    method Release(r: Reason)
      requires Sane() && Stop !in trace
      modifies this`holds, this`trace
      ensures Sane() && Stop !in trace
      ensures trace == old(trace) + (if r in old(holds) then [Unsuspend(r)] else [])
      ensures holds == old(holds) - {r}
      ensures ProbeOf(trace) == ProbeOf(old(trace))
    {
      hide Lawful, HoldsOf, IdOf, ProbeOf;
      if r !in holds {
        assert holds - {r} == holds && trace + [] == trace;
        return;
      }
      holds := holds - {r};
      Note(Unsuspend(r));
    }

    // A hook that is not about a hold: Observe, Quiesce, Resume.
    ghost method Tell(c: Call)
      requires Sane() && Stop !in trace && (c.Observe? || c.Quiesce? || c.Resume? || c.Reverify?)
      modifies this`trace
      ensures Sane() && Stop !in trace && trace == old(trace) + [c]
      ensures ProbeOf(trace) == ProbeOf(old(trace))
    {
      hide Lawful, HoldsOf, IdOf, ProbeOf;
      Note(c);
    }

    // Re-checks the system settings; a failure is reported and changes nothing.
    method DoReverify() returns (ghost tail: seq<Call>)
      requires Sane() && Stop !in trace
      modifies this`trace
      ensures Sane() && Stop !in trace && trace == old(trace) + [Reverify] + tail
      ensures forall c | c in tail :: ProbePart(c) && !c.Probe?
      ensures ProbeOf(trace) == ProbeOf(old(trace))
    {
      hide Lawful, HoldsOf, IdOf, ProbeOf;
      var failed: bool := *;
      Tell(Reverify);
      tail := [];
      if failed {
        Tell(Observe(Error));
        tail := [Observe(Error)];
      }
    }

    // The canary request. One that could not decide reports an error, and that it is not behind a portal.
    method Canary(now: int, force: bool) returns (answer: bool, ghost probe: Call)
      requires Lawful(trace, poll) && Stop !in trace && (force || Due(ProbeTime(trace), now, poll))
      modifies this`trace
      ensures Lawful(trace, poll) && Stop !in trace && trace == old(trace) + [probe]
      ensures probe.Probe? && probe.at == now && probe.forced == force && probe.behind == answer && (probe.failed ==> !answer)
      ensures HoldsOf(trace) == HoldsOf(old(trace)) && IdOf(trace, initial) == IdOf(old(trace), initial)
      ensures ProbeOf(trace) == Some(probe)
    {
      hide Lawful, HoldsOf, IdOf, ProbeOf;
      var failed: bool;
      answer, failed := *, *;
      answer := answer && !failed;
      probe := Probe(now, force, answer, failed);
      Note(probe);
    }

    // One canary request, unless the last was recent and nobody insists; the portal hold follows it.
    method ProbePortal(now: int, force: bool) returns (ghost part: seq<Call>)
      requires Sane() && Stop !in trace && (Portal in holds <==> SaysBehind(trace))
      modifies this`holds, this`trace, this`behind, this`lastProbe
      ensures Sane() && Stop !in trace && (Portal in holds <==> SaysBehind(trace))
      ensures forall r | r != Portal :: r in holds <==> r in old(holds)
      ensures trace == old(trace) + part && forall c | c in part :: ProbePart(c)
      ensures part != [] <==> probes && (force || Due(old(lastProbe), now, poll))
      ensures part != [] ==> part[0].Probe? && part[0].at == now && part[0].forced == force
      ensures part != [] && force ==> Insists(part[0])
      ensures part != [] ==> part == [part[0]] + PortalCalls(part[0].behind, Portal in old(holds))
      ensures part != [] ==> (Portal in holds <==> part[0].behind)
      ensures part != [] && part[0].failed && Portal in old(holds) ==> Portal !in holds && Unsuspend(Portal) in part
    {
      hide Lawful, HoldsOf, IdOf, ProbeOf;
      part := [];
      if !probes {
        return;
      }
      var recent := lastProbe.Some? && now - lastProbe.value < poll;
      if !force && recent {
        return;
      }
      var answer;
      ghost var probe;
      answer, probe := Canary(now, force);
      lastProbe := Some(now);
      behind := answer;
      part := [probe];
      if answer && Portal !in holds {
        Hold(Portal);
        Tell(Observe(PortalDetected));
        part := [probe, Suspend(Portal), Observe(PortalDetected)];
      } else if !answer && Portal in holds {
        Release(Portal);
        Tell(Observe(PortalCleared));
        part := [probe, Unsuspend(Portal), Observe(PortalCleared)];
      }
    }

    method SwapNamespace(to: string)
      requires Sane() && Stop !in trace && Settling !in holds
      modifies this`holds, this`trace, this`id
      ensures Sane() && Stop !in trace && id == to && holds == old(holds) + {Settling}
      ensures trace == old(trace) + [Suspend(Settling), Observe(NetworkChange), Quiesce, Namespace(to)]
      ensures ProbeOf(trace) == ProbeOf(old(trace))
    {
      hide Lawful, HoldsOf, IdOf, ProbeOf;
      Hold(Settling);
      Tell(Observe(NetworkChange));
      Tell(Quiesce);
      id := to;
      Note(Namespace(to));
    }

    // Moving to another network: the whole bracket, from taking the settling hold to lifting it.
    method Settle(now: int, to: string) returns (ghost middle: seq<Call>)
      requires Valid() && Stop !in trace
      modifies this`holds, this`trace, this`behind, this`lastProbe, this`id
      ensures Valid() && Stop !in trace && id == to
      ensures trace == old(trace) + SettleHead(NetworkChange, to) + middle + SettleEnd() && IsMiddle(middle, probes)
      ensures forall r | r != Portal :: r in holds <==> r in old(holds)
    {
      hide Lawful, HoldsOf, IdOf, ProbeOf, AllBracketed, MayFollow, ProbePart, Insists;
      SwapNamespace(to);
      ghost var failure, part;
      failure := DoReverify();
      part := ProbePortal(now, true);
      assert trace == old(trace) + SettleHead(NetworkChange, to) + (failure + part);
      Tell(Resume);
      Release(Settling);
      middle := failure + part;
      assert trace == old(trace) + SettleHead(NetworkChange, to) + middle + SettleEnd();
      assert probes ==> middle[|failure|] == part[0];
      BracketAdded(old(trace), NetworkChange, to, middle, probes);
    }

    method OnUplinkLost()
      requires Valid() && Stop !in trace
      modifies this`holds, this`trace
      ensures Valid() && Stop !in trace && Uplink in holds && holds == old(holds) + {Uplink}
      ensures trace == old(trace) + (if Uplink in old(holds) then [] else [Suspend(Uplink), Observe(UplinkLost)])
    {
      hide Lawful, HoldsOf, IdOf, ProbeOf;
      if Uplink in holds {
        assert trace + [] == trace && holds + {Uplink} == holds;
        return;
      }
      BracketStays(trace, [Suspend(Uplink), Observe(UplinkLost)], probes);
      Hold(Uplink);
      Tell(Observe(UplinkLost));
      assert trace == old(trace) + [Suspend(Uplink), Observe(UplinkLost)];
    }

    method OnUplinkBack()
      requires Valid() && Stop !in trace
      modifies this`holds, this`trace
      ensures Valid() && Stop !in trace && holds == old(holds) - {Uplink}
      ensures trace == old(trace) + BackCalls(old(holds))
    {
      hide Lawful, HoldsOf, IdOf, ProbeOf;
      if Uplink !in holds {
        assert trace + [] == trace && holds - {Uplink} == holds;
        return;
      }
      BracketStays(trace, [Unsuspend(Uplink), Observe(UplinkBack)], probes);
      Release(Uplink);
      Tell(Observe(UplinkBack));
      assert trace == old(trace) + [Unsuspend(Uplink), Observe(UplinkBack)];
    }

    // What is done about a change once it has been debounced. fatal: the run is refused and stops.
    method OnChange(cause: Kind, facts: Facts, now: int) returns (fatal: bool, ghost tail: seq<Call>)
      requires Valid() && Stop !in trace
      modifies this
      ensures Valid() && (fatal <==> Stop in trace)
      ensures fatal <==> facts.Facts? && facts.uplink != "" && facts.vpnFatal
      ensures trace == old(trace) + Reaction(old(holds), old(id), cause, facts, tail)
      ensures forall c | c in tail :: ProbePart(c)
      ensures facts.Facts? && facts.uplink != "" && !facts.vpnFatal && facts.id != old(id) ==> IsMiddle(tail, probes)
      ensures facts.Facts? && facts.uplink != "" && !facts.vpnFatal && probes && Due(old(lastProbe), now, poll) ==> HasProbe(tail)
      ensures facts.Unreadable? ==> holds == old(holds)
      ensures facts.Facts? ==> (Uplink in holds <==> facts.uplink == "")
      ensures id == if facts.Facts? && facts.uplink != "" && !facts.vpnFatal then facts.id else old(id)
    {
      hide Lawful, HoldsOf, IdOf, ProbeOf, AllBracketed, ProbePart, IsMiddle, NetworkCalls, HasProbe;
      tail := [];
      fatal := false;
      if facts.Unreadable? {
        BracketStays(trace, [Observe(Error)], probes);
        Tell(Observe(Error));
      } else if facts.uplink == "" {
        OnUplinkLost();
      } else {
        OnUplinkBack();
        ghost var back := trace;
        fatal, tail := OnNetwork(cause, facts, now);
        assert trace == old(trace) + (BackCalls(old(holds)) + NetworkCalls(old(id), cause, facts, tail));
      }
    }

    // The part of a reaction that knows of an uplink.
    method OnNetwork(cause: Kind, facts: Facts, now: int) returns (fatal: bool, ghost tail: seq<Call>)
      requires Valid() && Stop !in trace && facts.Facts?
      modifies this
      ensures Valid() && (fatal <==> Stop in trace) && fatal == facts.vpnFatal
      ensures trace == old(trace) + NetworkCalls(old(id), cause, facts, tail)
      ensures forall c | c in tail :: ProbePart(c)
      ensures !facts.vpnFatal && facts.id != old(id) ==> IsMiddle(tail, probes)
      ensures !facts.vpnFatal && probes && Due(old(lastProbe), now, poll) ==> HasProbe(tail)
      ensures forall r | r != Portal :: r in holds <==> r in old(holds)
      ensures id == if facts.vpnFatal then old(id) else facts.id
    {
      hide Lawful, HoldsOf, IdOf, ProbeOf, AllBracketed, ProbePart, Insists;
      tail := [];
      fatal := facts.vpnFatal;
      if fatal {
        Refuse();
        return;
      }
      if facts.vpnFull {
        BracketStays(trace, [Observe(VPNFullTunnel)], probes);
        Tell(Observe(VPNFullTunnel));
      }
      assert trace == old(trace) + VpnCalls(facts);
      if facts.id == id {
        tail := SameNetwork(cause, now);
        assert trace == old(trace) + (VpnCalls(facts) + ([Observe(cause), Reverify] + tail));
      } else {
        tail := Settle(now, facts.id);
        MiddleHasProbe(tail, probes);
        assert trace == old(trace) + (VpnCalls(facts) + SettleCalls(facts.id, tail));
      }
    }

    // A full-tunnel VPN this run cannot live with.
    method Refuse()
      requires Valid() && Stop !in trace
      modifies this`trace
      ensures Valid() && Stop in trace && trace == old(trace) + [Observe(VPNFullTunnel), Stop]
    {
      hide Lawful, HoldsOf, IdOf, ProbeOf, AllBracketed;
      BracketStays(trace, [Observe(VPNFullTunnel)], probes);
      Tell(Observe(VPNFullTunnel));
      BracketStays(trace, [Stop], probes);
      Note(Stop);
    }

    // The same network: settings are checked, and nothing is suspended for it.
    method SameNetwork(cause: Kind, now: int) returns (ghost tail: seq<Call>)
      requires Valid() && Stop !in trace
      modifies this`holds, this`trace, this`behind, this`lastProbe
      ensures Valid() && Stop !in trace && trace == old(trace) + [Observe(cause), Reverify] + tail
      ensures forall c | c in tail :: ProbePart(c)
      ensures probes && Due(old(lastProbe), now, poll) ==> HasProbe(tail)
      ensures forall r | r != Portal :: r in holds <==> r in old(holds)
    {
      hide Lawful, HoldsOf, IdOf, ProbeOf, AllBracketed;
      ghost var was := trace;
      Tell(Observe(cause));
      ghost var failure, part;
      failure := DoReverify();
      part := ProbePortal(now, false);
      tail := failure + part;
      assert part != [] ==> tail[|failure|] == part[0];
      assert trace == was + ([Observe(cause), Reverify] + tail);
      BracketStays(was, [Observe(cause), Reverify] + tail, probes);
    }

    // The poll while suspended for a portal: probes, and re-verifies once it has cleared.
    method Repoll(now: int) returns (ghost part: seq<Call>, ghost failure: seq<Call>)
      requires Valid() && Stop !in trace
      modifies this`holds, this`trace, this`behind, this`lastProbe
      ensures Valid() && Stop !in trace
      ensures trace == old(trace) + Polled(part, failure, Portal in old(holds) && Portal !in holds)
      ensures probes ==> part != [] && Insists(part[0]) && part[0].at == now && (Portal in holds <==> part[0].behind)
      ensures forall r | r != Portal :: r in holds <==> r in old(holds)
      ensures id == old(id)
    {
      hide Lawful, HoldsOf, IdOf, ProbeOf, AllBracketed;
      ghost var was := trace;
      var held := Portal in holds;
      part := ProbePortal(now, true);
      failure := [];
      BracketStays(was, part, probes);
      if held && Portal !in holds {
        ghost var probed := trace;
        failure := DoReverify();
        assert trace == probed + ([Reverify] + failure);
        BracketStays(probed, [Reverify] + failure, probes);
        assert trace == was + (part + ([Reverify] + failure));
      }
    }
  }

  // A poll's calls: the probe, and the re-verification once the portal has cleared.
  function Polled(part: seq<Call>, failure: seq<Call>, cleared: bool): seq<Call> {
    part + if cleared then [Reverify] + failure else []
  }

  lemma MiddleHasProbe(middle: seq<Call>, probes: bool)
    requires IsMiddle(middle, probes)
    ensures probes ==> HasProbe(middle)
  {
  }

  // What the loop selects on once a change has been debounced; the portal timer runs only while it is armed.
  datatype Input = Changed(cause: Kind, facts: Facts, now: int) | PortalDue(now: int)

  // The run is refused.
  predicate Fatal(input: Input) {
    input.Changed? && input.facts.Facts? && input.facts.uplink != "" && input.facts.vpnFatal
  }

  // The network the last of inputs that could be read, and had an uplink, was on.
  function Believed(id: string, inputs: seq<Input>): string {
    if inputs == [] then id
    else match inputs[|inputs| - 1]
      case Changed(_, Facts(uplink, fatal, _, to), _) =>
        if uplink != "" && !fatal then to else Believed(id, inputs[..|inputs| - 1])
      case _ => Believed(id, inputs[..|inputs| - 1])
  }

  // Whether the last of inputs that could be read found no uplink.
  function Adrift(was: bool, inputs: seq<Input>): bool {
    if inputs == [] then was
    else match inputs[|inputs| - 1]
      case Changed(_, Facts(uplink, _, _, _), _) => uplink == ""
      case _ => Adrift(was, inputs[..|inputs| - 1])
  }

  // A whole poll, from the trace before it to the trace after.
  predicate PollFrom(before: seq<Call>, after: seq<Call>, now: int, probes: bool, part: seq<Call>, failure: seq<Call>) {
    var cleared := Portal in HoldsOf(before) && Portal !in HoldsOf(after);
    && after == before + Polled(part, failure, cleared)
    && (probes ==> part != [] && Insists(part[0]) && part[0].at == now)
  }

  // One input, from the trace before it to the trace after: the whole reaction to a change; a poll while
  // the portal hold is on, and otherwise nothing.
  ghost predicate Handled(input: Input, before: seq<Call>, after: seq<Call>, initial: string, probes: bool) {
    match input
    case Changed(cause, facts, _) =>
      exists tail :: after == before + Reaction(HoldsOf(before), IdOf(before, initial), cause, facts, tail)
    case PortalDue(now) =>
      if Portal !in HoldsOf(before) then after == before
      else exists part, failure :: PollFrom(before, after, now, probes, part, failure)
  }

  // Every run: each input handled after the one before it, until they end or a full-tunnel VPN stops it.
  // points are the traces in between. A run that is not stopped believes in the last network it could
  // read, and is suspended for the uplink exactly when the last reading found none.
  method Run(w: Watcher, inputs: seq<Input>) returns (fatal: bool, ghost points: seq<seq<Call>>)
    requires w.Valid() && Stop !in w.trace
    modifies w
    ensures w.Valid() && (fatal <==> Stop in w.trace)
    ensures 1 <= |points| <= |inputs| + 1 && points[0] == old(w.trace) && points[|points| - 1] == w.trace
    ensures forall i | 0 <= i < |points| - 1 :: Handled(inputs[i], points[i], points[i + 1], w.initial, w.probes)
    ensures !fatal ==> |points| == |inputs| + 1 && forall i | 0 <= i < |inputs| :: !Fatal(inputs[i])
    ensures fatal ==> |points| >= 2 && Fatal(inputs[|points| - 2])
    ensures !fatal ==> w.id == Believed(old(w.id), inputs)
    ensures !fatal ==> (Uplink in w.holds <==> Adrift(Uplink in old(w.holds), inputs))
  {
    hide Lawful, HoldsOf, IdOf, ProbeOf, AllBracketed, Reaction, Handled;
    fatal, points := false, [w.trace];
    for i := 0 to |inputs|
      invariant w.Valid() && Stop !in w.trace && !fatal
      invariant |points| == i + 1 && points[0] == old(w.trace) && points[i] == w.trace
      invariant forall k | 0 <= k < i :: Handled(inputs[k], points[k], points[k + 1], w.initial, w.probes) && !Fatal(inputs[k])
      invariant w.id == Believed(old(w.id), inputs[..i])
      invariant Uplink in w.holds <==> Adrift(Uplink in old(w.holds), inputs[..i])
    {
      assert inputs[..i + 1][..i] == inputs[..i];
      fatal := HandleOne(w, inputs[i]);
      points := points + [w.trace];
      if fatal {
        return;
      }
    }
    assert inputs[..|inputs|] == inputs;
  }

  method HandleOne(w: Watcher, input: Input) returns (fatal: bool)
    requires w.Valid() && Stop !in w.trace
    modifies w
    ensures w.Valid() && (fatal <==> Stop in w.trace) && (fatal <==> Fatal(input))
    ensures Handled(input, old(w.trace), w.trace, w.initial, w.probes)
    ensures !fatal ==> w.id == Believed(old(w.id), [input])
    ensures !fatal ==> (Uplink in w.holds <==> Adrift(Uplink in old(w.holds), [input]))
  {
    hide Lawful, HoldsOf, IdOf, ProbeOf, AllBracketed, Reaction;
    fatal := false;
    match input
    case Changed(cause, facts, now) =>
      ghost var tail;
      fatal, tail := w.OnChange(cause, facts, now);
    case PortalDue(now) =>
      if Portal in w.holds {
        ghost var part, failure := w.Repoll(now);
        assert PollFrom(old(w.trace), w.trace, now, w.probes, part, failure);
      }
  }

  // ---------------------------------------------------------------- what the laws mean

  function Count(trace: seq<Call>, c: Call): nat {
    if trace == [] then 0 else Count(trace[..|trace| - 1], c) + (if trace[|trace| - 1] == c then 1 else 0)
  }

  // Suspend and Unsuspend alternate, reason by reason, starting with Suspend: at every point of every
  // lawful trace there is one more of the first exactly while the hold is on.
  lemma {:induction false} HoldsAlternate(trace: seq<Call>, poll: int, r: Reason)
    requires Lawful(trace, poll)
    ensures Count(trace, Suspend(r)) == Count(trace, Unsuspend(r)) + (if r in HoldsOf(trace) then 1 else 0)
  {
    if trace != [] {
      var n := |trace| - 1;
      assert forall m | 0 <= m < n :: trace[..n][..m] == trace[..m] && trace[..n][m] == trace[m];
      HoldsAlternate(trace[..n], poll, r);
      assert MayFollow(trace[..n], trace[n], poll);
    }
  }

  // No connection is judged while the namespace is swapped: from Suspend to Unsuspend of a settle the
  // settling hold is on, at every call in between.
  lemma {:induction false} SettleIsSuspended(trace: seq<Call>, probes: bool, i: nat, j: nat, m: nat)
    requires i < |trace| && trace[i].Namespace? && Bracketed(trace, i, probes) && Ends(trace, i, j, probes)
    requires i - 2 <= m <= j + 1
    ensures Settling in HoldsOf(trace[..m])
  {
    assert trace[..m][..m - 1] == trace[..m - 1];
    if m > i - 2 {
      hide HoldsOf, Bracketed;
      SettleIsSuspended(trace, probes, i, j, m - 1);
      KeepsSettling(trace, probes, i, j, m - 1);
      StillSettling(trace, m - 1);
    }
  }

  lemma KeepsSettling(trace: seq<Call>, probes: bool, i: nat, j: nat, m: nat)
    requires i < |trace| && trace[i].Namespace? && Bracketed(trace, i, probes) && Ends(trace, i, j, probes)
    requires i - 2 <= m <= j
    ensures trace[m] != Unsuspend(Settling)
  {
    if i + 1 < m < j {
      assert ProbePart(trace[m]);
    }
  }

  lemma StillSettling(trace: seq<Call>, m: nat)
    requires m < |trace| && trace[m] != Unsuspend(Settling) && Settling in HoldsOf(trace[..m])
    ensures Settling in HoldsOf(trace[..m + 1])
  {
    assert trace[..m + 1][..m] == trace[..m];
  }

  // ---------------------------------------------------------------- coming back from a lost uplink

  // At the end of calls, made after before, nothing is suspended although the believed id is not to.
  predicate Exposed(before: seq<Call>, calls: seq<Call>, initial: string, to: string) {
    HoldsOf(before + calls) == {} && IdOf(before + calls, initial) != to
  }

  // The reaction has lifted the uplink hold and is then exposed for at least one call.
  predicate HasGap(before: seq<Call>, calls: seq<Call>, initial: string, to: string) {
    exists m, n | 0 <= m < n <= |calls| && calls[m] == Unsuspend(Uplink) :: Exposed(before, calls[..n], initial, to)
  }

  lemma Calls(before: seq<Call>, calls: seq<Call>, n: nat, initial: string)
    requires n < |calls|
    ensures var was, now := before + calls[..n], before + calls[..n + 1];
      && HoldsOf(now) == (match calls[n] case Suspend(r) => HoldsOf(was) + {r} case Unsuspend(r) => HoldsOf(was) - {r} case _ => HoldsOf(was))
      && IdOf(now, initial) == if calls[n].Namespace? then calls[n].id else IdOf(was, initial)
  {
    var was, now := before + calls[..n], before + calls[..n + 1];
    assert now[..|now| - 1] == was;
  }

  // Until the settle begins only the uplink hold changes.
  lemma BeforeSettle(before: seq<Call>, vpn: seq<Call>, n: nat, initial: string)
    requires n <= |BackCalls(HoldsOf(before)) + vpn| && forall c | c in vpn :: c.Observe?
    ensures var calls := (BackCalls(HoldsOf(before)) + vpn)[..n];
      && IdOf(before + calls, initial) == IdOf(before, initial)
      && HoldsOf(before + calls) == if n == 0 then HoldsOf(before) else HoldsOf(before) - {Uplink}
  {
    var back := BackCalls(HoldsOf(before));
    var first := back + vpn;
    if n == 0 {
      assert before + first[..0] == before;
    } else {
      BeforeSettle(before, vpn, n - 1, initial);
      Calls(before, first, n - 1, initial);
      if n - 1 < |back| {
        assert first[n - 1] == back[n - 1];
      } else {
        assert first[n - 1] == vpn[n - 1 - |back|] && vpn[n - 1 - |back|] in vpn;
      }
    }
  }

  // From the start of the settle to just before its end the settling hold is on, and from the swap on
  // the new id is believed.
  lemma DuringSettle(before: seq<Call>, to: string, middle: seq<Call>, n: nat, initial: string)
    requires (forall c | c in middle :: ProbePart(c)) && 1 <= n <= |SettleCalls(to, middle)|
    ensures n < |SettleCalls(to, middle)| ==> Settling in HoldsOf(before + SettleCalls(to, middle)[..n])
    ensures n >= 4 ==> IdOf(before + SettleCalls(to, middle)[..n], initial) == to
  {
    var rest := SettleCalls(to, middle);
    Calls(before, rest, n - 1, initial);
    if n == 1 {
      assert rest[0] == Suspend(Settling);
    } else {
      DuringSettle(before, to, middle, n - 1, initial);
      if n <= 5 {
        assert rest[n - 1] == SettleHead(NetworkChange, to)[n - 1];
      } else if n - 6 < |middle| {
        assert rest[n - 1] == middle[n - 6] && middle[n - 6] in middle;
      } else {
        assert rest[n - 1] == SettleEnd()[n - 6 - |middle|];
      }
    }
  }

  // The reaction to a network with another id, coming from a lost uplink: there is an instant after the
  // uplink hold is lifted in which nothing is suspended and the old id is still believed, if and only if
  // the uplink hold was the only one.
  lemma UplinkBackGap(before: seq<Call>, initial: string, cause: Kind, facts: Facts, tail: seq<Call>)
    requires facts.Facts? && facts.uplink != "" && !facts.vpnFatal && facts.id != IdOf(before, initial)
    requires forall c | c in tail :: ProbePart(c)
    ensures var calls := Reaction(HoldsOf(before), IdOf(before, initial), cause, facts, tail);
      HasGap(before, calls, initial, facts.id) <==> HoldsOf(before) == {Uplink}
  {
    hide HoldsOf, IdOf, SettleCalls;
    var back, vpn := BackCalls(HoldsOf(before)), VpnCalls(facts);
    var calls := Reaction(HoldsOf(before), IdOf(before, initial), cause, facts, tail);
    assert calls == back + vpn + SettleCalls(facts.id, tail);
    if HoldsOf(before) == {Uplink} {
      BeforeSettle(before, vpn, 1, initial);
      assert calls[..1] == (back + vpn)[..1];
      assert calls[0] == Unsuspend(Uplink) && Exposed(before, calls[..1], initial, facts.id);
    }
    if HasGap(before, calls, initial, facts.id) {
      var m, n :| 0 <= m < n <= |calls| && calls[m] == Unsuspend(Uplink) && Exposed(before, calls[..n], initial, facts.id);
      GapIsEarly(before, facts, tail, m, n, initial);
    }
  }

  lemma GapIsEarly(before: seq<Call>, facts: Facts, tail: seq<Call>, m: nat, n: nat, initial: string)
    requires facts.Facts? && forall c | c in tail :: ProbePart(c)
    requires var calls := BackCalls(HoldsOf(before)) + VpnCalls(facts) + SettleCalls(facts.id, tail);
      m < n <= |calls| && calls[m] == Unsuspend(Uplink) && Exposed(before, calls[..n], initial, facts.id)
    ensures HoldsOf(before) == {Uplink}
  {
    hide HoldsOf, IdOf, SettleCalls;
    var first, rest := BackCalls(HoldsOf(before)) + VpnCalls(facts), SettleCalls(facts.id, tail);
    var calls := first + rest;
    if n <= |first| {
      BeforeSettle(before, VpnCalls(facts), n, initial);
      assert calls[..n] == first[..n];
      assert first[m] == calls[m];
    } else {
      NotExposed(before, first, facts.id, tail, n, initial);
    }
  }

  lemma NotExposed(before: seq<Call>, first: seq<Call>, to: string, middle: seq<Call>, n: nat, initial: string)
    requires forall c | c in middle :: ProbePart(c)
    requires |first| < n <= |first + SettleCalls(to, middle)|
    ensures !Exposed(before, (first + SettleCalls(to, middle))[..n], initial, to)
  {
    hide HoldsOf, IdOf, SettleCalls;
    var rest := SettleCalls(to, middle);
    assert before + (first + rest)[..n] == before + first + rest[..n - |first|];
    DuringSettle(before + first, to, middle, n - |first|, initial);
    SettleLength(to, middle);
  }

  lemma SettleLength(to: string, middle: seq<Call>)
    ensures |SettleCalls(to, middle)| >= 7
  {
  }

  // The run: the uplink goes, and comes back on another network. After three calls nothing is suspended
  // and the old id is still believed.
  method BackElsewhere() returns (ghost trace: seq<Call>)
    ensures |trace| > 4 && trace[..4] == [Suspend(Uplink), Observe(UplinkLost), Unsuspend(Uplink), Observe(UplinkBack)]
    ensures HoldsOf(trace[..3]) == {} && IdOf(trace[..3], "a") == "a" && IdOf(trace, "a") == "b"
  {
    hide Lawful, AllBracketed, ProbeOf, HoldsOf, IdOf, Reaction;
    var w := new Watcher("a", false, 60);
    var gone, back := Facts("", false, false, "a"), Facts("en0", false, false, "b");
    var fatal;
    ghost var tail;
    fatal, tail := w.OnChange(RouteChange, gone, 0);
    FirstCalls(w.trace, gone, tail);
    ghost var lost := w.trace;
    fatal, tail := w.OnChange(RouteChange, back, 1);
    trace := w.trace;
    NextCalls(lost, trace, back, tail);
    BriefTrace();
  }

  lemma FirstCalls(trace: seq<Call>, gone: Facts, tail: seq<Call>)
    requires gone == Facts("", false, false, "a") && trace == [] + Reaction({}, "a", RouteChange, gone, tail)
    ensures trace == [Suspend(Uplink), Observe(UplinkLost)] && HoldsOf(trace) == {Uplink}
  {
    assert trace == [Suspend(Uplink), Observe(UplinkLost)];
    assert trace[..1] == [Suspend(Uplink)] && trace[..1][..0] == [];
    assert HoldsOf(trace[..1]) == {Uplink};
  }

  lemma NextCalls(lost: seq<Call>, trace: seq<Call>, back: Facts, tail: seq<Call>)
    requires lost == [Suspend(Uplink), Observe(UplinkLost)] && back == Facts("en0", false, false, "b")
    requires trace == lost + Reaction({Uplink}, "a", RouteChange, back, tail)
    ensures |trace| > 4 && trace[..4] == [Suspend(Uplink), Observe(UplinkLost), Unsuspend(Uplink), Observe(UplinkBack)]
    ensures trace[..3] == [Suspend(Uplink), Observe(UplinkLost), Unsuspend(Uplink)]
  {
    hide SettleCalls;
    SettleLength("b", tail);
    assert trace == lost + [Unsuspend(Uplink), Observe(UplinkBack)] + SettleCalls("b", tail);
  }

  lemma BriefTrace()
    ensures var calls := [Suspend(Uplink), Observe(UplinkLost), Unsuspend(Uplink)]; HoldsOf(calls) == {} && IdOf(calls, "a") == "a"
  {
    var calls := [Suspend(Uplink), Observe(UplinkLost), Unsuspend(Uplink)];
    var two, one := calls[..2], calls[..1];
    assert two[..1] == one && one[..0] == [];
    assert HoldsOf(one) == {Uplink} && IdOf(one, "a") == "a";
    assert HoldsOf(two) == {Uplink} && IdOf(two, "a") == "a";
  }
}
