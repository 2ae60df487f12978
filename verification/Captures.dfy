// What a captured payload is made of: one value per setting, proxy settings in pairs, and nothing but
// what the setting and its pair held when it was looked at.
module Captures {
  import opened Settings
  import opened JournalFormat
  import opened Recovery

  // val is what op captures for k when it looks at store.
  ghost predicate CaptureOf(op: Op, env: Env, k: Key, store: Store, val: Option<Val>) {
    match k
    case EnvVar(name) =>
      op.LaunchEnv? && exists i | 0 <= i < |op.vars| ::
        (op.vars[i].0 == name && val == CaptureVar(name, op.vars[i].1, store, env))
    case _ =>
      match k.slot
      case Pac => op.PacProxy? && Assign(k, val) in CaptureUrl(op.url, k.service, store, env)
      case Socks => op.SocksProxy? && Assign(k, val) in CaptureHost(op.host, op.port, k.service, k.slot, store, env)
      case _ => op.WebProxy? && Assign(k, val) in CaptureHost(op.host, op.port, k.service, k.slot, store, env)
  }

  lemma CaptureElements(op: Op, store: Store, env: Env, a: Assign)
    requires a in Capture(op, store, env)
    ensures CaptureOf(op, env, a.key, store, a.val)
  {
    match op
    case LaunchEnv(vars) =>
      var i :| 0 <= i < |vars| && CaptureVars(vars, store, env)[i] == a;
    case AddRoute(_) =>
    case _ => CaptureServicesElements(op, op.services, store, env, a);
  }

  lemma {:induction false} CaptureServicesElements(op: Op, services: seq<string>, store: Store, env: Env, a: Assign)
    requires op.PacProxy? || op.WebProxy? || op.SocksProxy?
    requires a in CaptureServices(op, services, store, env)
    ensures CaptureOf(op, env, a.key, store, a.val)
  {
    if a !in CaptureService(op, services[0], store, env) {
      CaptureServicesElements(op, services[1..], store, env, a);
    }
  }

  // Two writes of one payload to the same key write the same value.
  lemma CaptureIsFunctional(op: Op, env: Env, k: Key, store: Store, v1: Option<Val>, v2: Option<Val>)
    requires WellFormed(op) && CaptureOf(op, env, k, store, v1) && CaptureOf(op, env, k, store, v2)
    ensures v1 == v2
  {
  }

  lemma IsCaptured(rec: Record, store: Store, env: Env)
    requires WellFormed(rec.op) && rec.undo == Capture(rec.op, store, env)
    ensures Captured(rec)
  {
  }

  // A capture looks at nothing but the setting itself and the other half of its slot.
  lemma CaptureLocal(op: Op, env: Env, k: Key, s: Store, t: Store, val: Option<Val>)
    requires CaptureOf(op, env, k, s, val)
    requires Get(s, k) == Get(t, k) && Get(s, Partner(k)) == Get(t, Partner(k))
    ensures CaptureOf(op, env, k, t, val)
  {
    if k.EnvVar? {
      var i :| 0 <= i < |op.vars| && op.vars[i].0 == k.name && val == CaptureVar(k.name, op.vars[i].1, s, env);
      assert val == CaptureVar(k.name, op.vars[i].1, t, env);
    }
  }

  // One value per setting.
  ghost predicate Functional(undo: seq<Assign>) {
    forall a, b | a in undo && b in undo && a.key == b.key :: a.val == b.val
  }

  lemma CapturedFunctional(r: Record)
    requires Captured(r)
    ensures Functional(r.undo)
  {
    hide WellFormed, Capture, CaptureOf;
    var store, env :| r.undo == Capture(r.op, store, env);
    forall a, b | a in r.undo && b in r.undo && a.key == b.key ensures a.val == b.val {
      CaptureElements(r.op, store, env, a);
      CaptureElements(r.op, store, env, b);
      CaptureIsFunctional(r.op, env, a.key, store, a.val, b.val);
    }
  }

  // ---------------------------------------------------------------- pairs

  // The other key of the same proxy slot; an environment variable is its own.
  function Partner(k: Key): Key {
    match k
    case EnvVar(_) => k
    case ProxyServer(svc, slot) => ProxySwitch(svc, slot)
    case ProxySwitch(svc, slot) => ProxyServer(svc, slot)
  }

  lemma SlotPaired(slot: Slot, op: Op, svc: string, store: Store, env: Env, a: Assign)
    requires slot != Pac ==> op.WebProxy? || op.SocksProxy?
    requires slot == Pac ==> op.PacProxy?
    requires a in SlotCapture(slot, op, svc, store, env)
    ensures Partner(a.key) in Keys(SlotCapture(slot, op, svc, store, env))
  {
    var cap := SlotCapture(slot, op, svc, store, env);
    assert cap[0] in cap && cap[1] in cap;
  }

  function SlotCapture(slot: Slot, op: Op, svc: string, store: Store, env: Env): seq<Assign>
    requires slot != Pac ==> op.WebProxy? || op.SocksProxy?
    requires slot == Pac ==> op.PacProxy?
  {
    if slot == Pac then CaptureUrl(op.url, svc, store, env) else CaptureHost(op.host, op.port, svc, slot, store, env)
  }

  lemma ServicePaired(op: Op, svc: string, store: Store, env: Env, k: Key)
    requires op.PacProxy? || op.WebProxy? || op.SocksProxy?
    requires k in Keys(CaptureService(op, svc, store, env))
    ensures Partner(k) in Keys(CaptureService(op, svc, store, env))
  {
    hide CaptureUrl, CaptureHost, Partner;
    var a :| a in CaptureService(op, svc, store, env) && a.key == k;
    match op
    case PacProxy(_, _) => SlotPaired(Pac, op, svc, store, env, a);
    case SocksProxy(_, _, _) => SlotPaired(Socks, op, svc, store, env, a);
    case WebProxy(_, _, _) =>
      var web, secure := SlotCapture(Web, op, svc, store, env), SlotCapture(Secure, op, svc, store, env);
      KeysConcat(web, secure);
      if a in web {
        SlotPaired(Web, op, svc, store, env, a);
      } else {
        SlotPaired(Secure, op, svc, store, env, a);
      }
  }

  lemma {:induction false} ServicesPaired(op: Op, services: seq<string>, store: Store, env: Env, k: Key)
    requires op.PacProxy? || op.WebProxy? || op.SocksProxy?
    requires k in Keys(CaptureServices(op, services, store, env))
    ensures Partner(k) in Keys(CaptureServices(op, services, store, env))
  {
    hide CaptureService, Partner;
    var head, tail := CaptureService(op, services[0], store, env), CaptureServices(op, services[1..], store, env);
    KeysConcat(head, tail);
    if k in Keys(head) {
      ServicePaired(op, services[0], store, env, k);
    } else {
      ServicesPaired(op, services[1..], store, env, k);
    }
  }

  lemma {:induction false} CoveredInPairs(stack: seq<Record>, k: Key)
    requires forall r | r in stack :: Captured(r)
    requires k in CoveredKeys(stack)
    ensures Partner(k) in CoveredKeys(stack)
  {
    var r, below := stack[|stack| - 1], stack[..|stack| - 1];
    if k in CoveredKeys(below) {
      CoveredInPairs(below, k);
    } else if !k.EnvVar? {
      CapturedInPairs(r, k);
    }
  }

  lemma CapturedInPairs(r: Record, k: Key)
    requires Captured(r) && k in Keys(r.undo)
    ensures Partner(k) in Keys(r.undo)
  {
    var store, env :| r.undo == Capture(r.op, store, env);
    if r.op.PacProxy? || r.op.WebProxy? || r.op.SocksProxy? {
      ServicesPaired(r.op, r.op.services, store, env, k);
    } else if r.op.LaunchEnv? {
      var i :| 0 <= i < |r.undo| && r.undo[i].key == k;
    }
  }

  lemma PartnerTwice(k: Key)
    ensures Partner(Partner(k)) == k
  {
  }

  // Where a server is cleared, the switch beside it is turned off.
  lemma SoftIsOff(r: Record, a: Assign)
    requires Captured(r) && a in r.undo && IsSoft(a)
    ensures Assign(Partner(a.key), Some(Switch(false))) in r.undo
  {
    hide WellFormed, Capture, CaptureOf, Partner;
    var store, env :| r.undo == Capture(r.op, store, env);
    CapturedInPairs(r, a.key);
    var b :| b in r.undo && b.key == Partner(a.key);
    CaptureElements(r.op, store, env, a);
    CaptureElements(r.op, store, env, b);
    SoftOff(r.op, env, store, a, b);
  }

  lemma SoftOff(op: Op, env: Env, store: Store, a: Assign, b: Assign)
    requires IsSoft(a) && b.key == Partner(a.key)
    requires CaptureOf(op, env, a.key, store, a.val) && CaptureOf(op, env, b.key, store, b.val)
    ensures b.val == Some(Switch(false))
  {
  }
}
