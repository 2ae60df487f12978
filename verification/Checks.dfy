// The independent checks (op_launchenv.go, op_proxy.go, op_route_darwin.go): what an operation reads to
// decide that it is in force, or that nothing of it is left. For proxies that is scutil, which answers
// for the primary service only, and after a revert every service as well.
module Checks {
  import opened Settings
  import opened JournalFormat
  import opened Recovery
  import opened Captures
  import opened RecoveryProof
  import opened RecoveryAlways

  // ---------------------------------------------------------------- scutil

  function LiveUrl(store: Store, primary: string): string {
    match Get(store, ProxyServer(primary, Pac))
    case Some(Text(t)) => Trim(t)
    case _ => ""
  }

  predicate LiveHost(store: Store, primary: string, slot: Slot, host: string, port: int) {
    && IsOn(store, primary, slot)
    && match Get(store, ProxyServer(primary, slot))
       case Some(Endpoint(h, p)) => Trim(h) == host && p == port
       case _ => false
  }

  predicate InForce(op: Op, w: World, primary: string) {
    match op
    case LaunchEnv(vars) => forall i | 0 <= i < |vars| :: GetEnv(w.store, vars[i].0) == vars[i].1
    case PacProxy(url, _) => IsOn(w.store, primary, Pac) && LiveUrl(w.store, primary) == url
    case WebProxy(host, port, _) =>
      LiveHost(w.store, primary, Web, host, port) && LiveHost(w.store, primary, Secure, host, port)
    case SocksProxy(host, port, _) => LiveHost(w.store, primary, Socks, host, port)
    case AddRoute(r) => Present(w.rib, r)
  }

  // scutil still shows something of op.
  predicate StillLive(op: Op, w: World, primary: string) {
    match op
    case PacProxy(url, _) => IsOn(w.store, primary, Pac) && LiveUrl(w.store, primary) == url
    case WebProxy(host, port, _) =>
      LiveHost(w.store, primary, Web, host, port) || LiveHost(w.store, primary, Secure, host, port)
    case SocksProxy(host, port, _) => LiveHost(w.store, primary, Socks, host, port)
    case _ => false
  }

  // ---------------------------------------------------------------- after a revert

  predicate StillOurs(store: Store, svc: string, slot: Slot, host: string, port: int) {
    IsOn(store, svc, slot) && ServerHost(store, svc, slot) == host && ServerPort(store, svc, slot) == port
  }

  predicate ServiceReverted(op: Op, svc: string, store: Store)
    requires op.PacProxy? || op.WebProxy? || op.SocksProxy?
  {
    match op
    case PacProxy(url, _) => !(IsOn(store, svc, Pac) && ServerUrl(store, svc) == url)
    case WebProxy(host, port, _) => !StillOurs(store, svc, Web, host, port) && !StillOurs(store, svc, Secure, host, port)
    case SocksProxy(host, port, _) => !StillOurs(store, svc, Socks, host, port)
  }

  predicate VerifyReverted(op: Op, w: World, primary: string) {
    match op
    case LaunchEnv(vars) =>
      forall i | 0 <= i < |vars| :: GetEnv(w.store, vars[i].0) == "" || GetEnv(w.store, vars[i].0) != vars[i].1
    case AddRoute(r) => !Present(w.rib, r)
    case _ => !StillLive(op, w, primary) && forall svc | svc in op.services :: ServiceReverted(op, svc, w.store)
  }

  // The captured values hold, but for servers that could not be cleared.
  ghost predicate Settled(store: Store, undo: seq<Assign>) {
    forall a | a in undo :: Get(store, a.key) == a.val || IsSoft(a)
  }

  lemma WrittenSettles(r: Record, store: Store, refused: set<Key>)
    requires Written(r, |r.undo|, store, refused)
    ensures Settled(store, r.undo)
  {
    forall a | a in r.undo ensures Get(store, a.key) == a.val || IsSoft(a) {
      var j :| 0 <= j < |r.undo| && r.undo[j] == a;
    }
  }

  // Once the undo writes of a record hold, refused ones aside, the check that closes its entry passes:
  // a capture is never the operation's own value, and beside a server left uncleared the switch is
  // off. The one exception is a primary service outside the operation's list that shows our value.
  lemma VerifyRevertedPasses(r: Record, w: World, refused: set<Key>, primary: string)
    requires Captured(r) && (r.op.AddRoute? ==> !Present(w.rib, r.op.route))
    requires !r.op.AddRoute? ==> Written(r, |r.undo|, w.store, refused)
    ensures VerifyReverted(r.op, w, primary) <==> !StillLive(r.op, w, primary)
    ensures (r.op.PacProxy? || r.op.WebProxy? || r.op.SocksProxy?) && primary in r.op.services ==>
      VerifyReverted(r.op, w, primary)
  {
    hide WellFormed, Captured, Capture;
    if !r.op.AddRoute? {
      WrittenSettles(r, w.store, refused);
      CapturedPayload(r, w, primary);
    }
  }

  lemma CapturedPayload(r: Record, w: World, primary: string)
    requires Captured(r) && Settled(w.store, r.undo) && !r.op.AddRoute?
    ensures VerifyReverted(r.op, w, primary) <==> !StillLive(r.op, w, primary)
    ensures !r.op.LaunchEnv? && primary in r.op.services ==> !StillLive(r.op, w, primary)
  {
    hide WellFormed, Settled, CaptureServices, ServiceReverted, StillLive;
    var store0, env :| r.undo == Capture(r.op, store0, env);
    if r.op.LaunchEnv? {
      EnvReverted(r.op.vars, store0, env, w.store);
      NeverLive(r.op, w, primary);
    } else {
      ServicesReverted(r.op, r.op.services, store0, env, w, primary);
    }
  }

  lemma NeverLive(op: Op, w: World, primary: string)
    requires op.LaunchEnv?
    ensures !StillLive(op, w, primary)
  {
  }

  lemma EnvReverted(vars: seq<(string, string)>, store0: Store, env: Env, store: Store)
    requires Settled(store, CaptureVars(vars, store0, env))
    ensures forall i | 0 <= i < |vars| :: GetEnv(store, vars[i].0) == "" || GetEnv(store, vars[i].0) != vars[i].1
  {
    forall i | 0 <= i < |vars| ensures GetEnv(store, vars[i].0) == "" || GetEnv(store, vars[i].0) != vars[i].1 {
      var a := CaptureVars(vars, store0, env)[i];
      assert Get(store, a.key) == a.val;
      GetEnvTrimmed(store0, vars[i].0);
    }
  }

  lemma GetEnvTrimmed(store: Store, name: string)
    ensures Trim(GetEnv(store, name)) == GetEnv(store, name)
  {
    match Get(store, EnvVar(name))
    case Some(Text(t)) => TrimIdempotent(t);
    case _ => assert Trim("") == "";
  }

  lemma {:induction false} ServicesReverted(op: Op, services: seq<string>, store0: Store, env: Env, w: World, primary: string)
    requires op.PacProxy? || op.WebProxy? || op.SocksProxy?
    requires Settled(w.store, CaptureServices(op, services, store0, env))
    ensures forall svc | svc in services :: ServiceReverted(op, svc, w.store)
    ensures primary in services ==> !StillLive(op, w, primary)
  {
    if services != [] {
      var head, tail := CaptureService(op, services[0], store0, env), CaptureServices(op, services[1..], store0, env);
      SettledParts(w.store, head, tail);
      hide Settled, CaptureService, ServiceReverted, StillLive;
      ServicesReverted(op, services[1..], store0, env, w, primary);
      assert forall svc | svc in services :: svc == services[0] || svc in services[1..];
      OneReverted(op, services[0], store0, env, w);
    }
  }

  lemma SettledParts(store: Store, a: seq<Assign>, b: seq<Assign>)
    requires Settled(store, a + b)
    ensures Settled(store, a) && Settled(store, b)
  {
    assert forall x | x in a || x in b :: x in a + b;
  }

  lemma OneReverted(op: Op, svc: string, store0: Store, env: Env, w: World)
    requires op.PacProxy? || op.WebProxy? || op.SocksProxy?
    requires Settled(w.store, CaptureService(op, svc, store0, env))
    ensures ServiceReverted(op, svc, w.store) && !StillLive(op, w, svc)
  {
    hide Settled, CaptureUrl, CaptureHost;
    match op
    case PacProxy(url, _) => UrlReverted(url, svc, store0, env, w.store);
    case WebProxy(host, port, _) =>
      SettledParts(w.store, CaptureHost(host, port, svc, Web, store0, env), CaptureHost(host, port, svc, Secure, store0, env));
      HostReverted(host, port, svc, Web, store0, env, w.store);
      HostReverted(host, port, svc, Secure, store0, env, w.store);
    case SocksProxy(host, port, _) => HostReverted(host, port, svc, Socks, store0, env, w.store);
  }

  lemma NullToEmptyTrimmed(t: string)
    ensures var raw := NullToEmpty(Trim(t)); Trim(raw) == raw && raw != "(null)"
  {
    TrimIdempotent(t);
    assert Trim("") == "";
  }

  // What a proxy reader reports is trimmed and never the literal null.
  lemma ReadersTrim(store: Store, svc: string, slot: Slot)
    ensures var raw := ServerUrl(store, svc); Trim(raw) == raw && raw != "(null)"
    ensures var raw := ServerHost(store, svc, slot); Trim(raw) == raw && raw != "(null)"
  {
    assert Trim("") == "";
    match Get(store, ProxyServer(svc, Pac)) {
      case Some(Text(t)) => NullToEmptyTrimmed(t);
      case _ =>
    }
    match Get(store, ProxyServer(svc, slot)) {
      case Some(Endpoint(h, _)) => NullToEmptyTrimmed(h);
      case _ =>
    }
  }

  lemma UrlReverted(url: string, svc: string, store0: Store, env: Env, store: Store)
    requires Settled(store, CaptureUrl(url, svc, store0, env))
    ensures !(IsOn(store, svc, Pac) && ServerUrl(store, svc) == url)
    ensures !(IsOn(store, svc, Pac) && LiveUrl(store, svc) == url)
  {
    var kept := NotSelfUrl(ServerUrl(store0, svc), url, env);
    ReadersTrim(store0, svc, Pac);
    var cap := CaptureUrl(url, svc, store0, env);
    assert cap[0] in cap && cap[1] in cap;
    assert Get(store, ProxySwitch(svc, Pac)) == Some(Switch(kept != "" && IsOn(store0, svc, Pac)));
    if kept != "" {
      assert Get(store, ProxyServer(svc, Pac)) == Some(Text(kept));
    }
  }

  lemma HostReverted(host: string, port: int, svc: string, slot: Slot, store0: Store, env: Env, store: Store)
    requires Settled(store, CaptureHost(host, port, svc, slot, store0, env))
    ensures !StillOurs(store, svc, slot, host, port) && !LiveHost(store, svc, slot, host, port)
  {
    var p := ServerPort(store0, svc, slot);
    var kept := NotSelfHost(ServerHost(store0, svc, slot), p, host, port, env);
    ReadersTrim(store0, svc, slot);
    var cap := CaptureHost(host, port, svc, slot, store0, env);
    assert cap[0] in cap && cap[1] in cap;
    assert Get(store, ProxySwitch(svc, slot)) == Some(Switch(kept != "" && IsOn(store0, svc, slot)));
    if kept != "" {
      assert Get(store, ProxyServer(svc, slot)) == Some(Endpoint(kept, p));
      assert SameHost(kept, kept, env);
    }
  }
}
