// The system settings a run changes, and the operations that change them: session environment
// variables (internal/netstate/op_launchenv.go), proxy settings (op_proxy.go) and kernel routes
// (op_route_darwin.go). An operation captures what it will restore before it writes anything.
module Settings {

  datatype Option<+T> = None | Some(value: T)

  // ---------------------------------------------------------------- text

  predicate IsSpace(c: char) {
    || '\t' <= c <= '\r' || c == ' ' || c == '\U{0085}' || c == '\U{00A0}' || c == '\U{1680}'
    || '\U{2000}' <= c <= '\U{200A}' || c == '\U{2028}' || c == '\U{2029}' || c == '\U{202F}'
    || c == '\U{205F}' || c == '\U{3000}'
  }

  function TrimLeft(s: string): string {
    if s == "" || !IsSpace(s[0]) then s else TrimLeft(s[1..])
  }

  function TrimRight(s: string): string {
    if s == "" || !IsSpace(s[|s| - 1]) then s else TrimRight(s[..|s| - 1])
  }

  function Trim(s: string): string {
    TrimRight(TrimLeft(s))
  }

  lemma {:induction false} TrimLeftEdge(s: string)
    ensures TrimLeft(s) == "" || !IsSpace(TrimLeft(s)[0])
  {
    if s != "" && IsSpace(s[0]) {
      TrimLeftEdge(s[1..]);
    }
  }

  lemma {:induction false} TrimRightEdges(s: string)
    ensures TrimRight(s) == "" || !IsSpace(TrimRight(s)[|TrimRight(s)| - 1])
    ensures TrimRight(s) <= s
  {
    if s != "" && IsSpace(s[|s| - 1]) {
      TrimRightEdges(s[..|s| - 1]);
    }
  }

  lemma TrimIdempotent(s: string)
    ensures Trim(Trim(s)) == Trim(s)
  {
    TrimLeftEdge(s);
    TrimRightEdges(TrimLeft(s));
  }

  // ---------------------------------------------------------------- the world

  // Web and Secure are the two proxies macOS keeps apart; Pac is the auto-proxy URL.
  datatype Slot = Pac | Web | Secure | Socks

  datatype Key =
    | EnvVar(name: string)
    | ProxyServer(service: string, slot: Slot)
    | ProxySwitch(service: string, slot: Slot)

  datatype Val =
    | Text(text: string)
    | Endpoint(host: string, port: int)
    | Switch(on: bool)

  type Store = map<Key, Val>

  datatype Assign = Assign(key: Key, val: Option<Val>)

  // gw == None is an interface route; iface == "" is no interface at all.
  datatype RouteSpec = RouteSpec(dst: string, gw: Option<string>, iface: string)

  // RTM_DELETE is resolved by the destination and the explicit interface scope alone.
  datatype RouteKey = RouteKey(dst: string, scope: Option<string>)

  datatype Hop = Hop(gateway: Option<string>, iface: string)

  type Rib = map<RouteKey, Hop>

  datatype World = World(store: Store, rib: Rib)

  // What the notSelf guards need to know beyond the text itself. loopback is the URL or host
  // test of isLoopbackHost; alike is every way of writing one host that is not plain equality.
  datatype Env = Env(priorResidue: bool, loopback: string -> bool, alike: (string, string) -> bool)

  // ---------------------------------------------------------------- operations

  datatype Op =
    | LaunchEnv(vars: seq<(string, string)>)
    | PacProxy(url: string, services: seq<string>)
    | WebProxy(host: string, port: int, services: seq<string>)
    | SocksProxy(host: string, port: int, services: seq<string>)
    | AddRoute(route: RouteSpec)

  // A variable map has one value per name.
  predicate WellFormed(op: Op) {
    op.LaunchEnv? ==> forall i, j | 0 <= i < j < |op.vars| :: op.vars[i].0 != op.vars[j].0
  }

  // Everything but a route refuses adoption: a setting that already holds our value is our residue.
  predicate CanAdopt(op: Op) {
    op.AddRoute?
  }

  function Keys(assigns: seq<Assign>): set<Key> {
    set a | a in assigns :: a.key
  }

  function Put(store: Store, a: Assign): Store {
    match a.val
    case Some(v) => store[a.key := v]
    case None => store - {a.key}
  }

  function PutAll(store: Store, assigns: seq<Assign>): Store
    decreases |assigns|
  {
    if assigns == [] then store else PutAll(Put(store, assigns[0]), assigns[1..])
  }

  function Get(store: Store, key: Key): Option<Val> {
    if key in store then Some(store[key]) else None
  }

  // ---------------------------------------------------------------- launchctl

  // launchctl getenv prints nothing for an unset variable, and the reader trims what it prints.
  function GetEnv(store: Store, name: string): string {
    match Get(store, EnvVar(name))
    case Some(Text(t)) => Trim(t)
    case _ => ""
  }

  predicate IsSelfValue(name: string, ours: string, val: string, env: Env) {
    || Trim(val) == Trim(ours)
    || (name != "NO_PROXY" && NotSelfUrl(val, ours, env) == "")
  }

  function NotSelfUrl(raw: string, ours: string, env: Env): string {
    var url := Trim(raw);
    if url == "" || url == Trim(ours) then ""
    else if env.priorResidue && env.loopback(url) then ""
    else url
  }

  function CaptureVar(name: string, ours: string, store: Store, env: Env): Option<Val> {
    var val := GetEnv(store, name);
    if val != "" && !IsSelfValue(name, ours, val, env) then Some(Text(val)) else None
  }

  function OwnVars(vars: seq<(string, string)>): (r: seq<Assign>) {
    seq(|vars|, i requires 0 <= i < |vars| => Assign(EnvVar(vars[i].0), Some(Text(vars[i].1))))
  }

  function CaptureVars(vars: seq<(string, string)>, store: Store, env: Env): (r: seq<Assign>) {
    seq(|vars|, i requires 0 <= i < |vars| =>
      Assign(EnvVar(vars[i].0), CaptureVar(vars[i].0, vars[i].1, store, env)))
  }

  // ---------------------------------------------------------------- networksetup

  function NullToEmpty(s: string): string {
    if s == "(null)" then "" else s
  }

  function ServerUrl(store: Store, service: string): string {
    match Get(store, ProxyServer(service, Pac))
    case Some(Text(t)) => NullToEmpty(Trim(t))
    case _ => ""
  }

  function ServerHost(store: Store, service: string, slot: Slot): string {
    match Get(store, ProxyServer(service, slot))
    case Some(Endpoint(h, _)) => NullToEmpty(Trim(h))
    case _ => ""
  }

  function ServerPort(store: Store, service: string, slot: Slot): int {
    match Get(store, ProxyServer(service, slot))
    case Some(Endpoint(_, p)) => p
    case _ => 0
  }

  predicate IsOn(store: Store, service: string, slot: Slot) {
    match Get(store, ProxySwitch(service, slot))
    case Some(Switch(on)) => on
    case _ => false
  }

  predicate SameHost(a: string, b: string, env: Env) {
    Trim(a) != "" && Trim(b) != "" && (Trim(a) == Trim(b) || env.alike(Trim(a), Trim(b)))
  }

  function NotSelfHost(raw: string, port: int, ourHost: string, ourPort: int, env: Env): string {
    var host := Trim(raw);
    if host == "" then ""
    else if port == ourPort && SameHost(host, ourHost, env) then ""
    else if env.priorResidue && env.loopback(host) then ""
    else host
  }

  // The two commands that put one slot of one service back. An empty server is switched off and
  // its stored fields are cleared, so ticking the box later cannot point at a dead port.
  function RestoreUrl(service: string, url: string, on: bool): seq<Assign> {
    [Assign(ProxyServer(service, Pac), Some(Text(url))),
     Assign(ProxySwitch(service, Pac), Some(Switch(url != "" && on)))]
  }

  function RestoreHost(service: string, slot: Slot, host: string, port: int, on: bool): seq<Assign> {
    [Assign(ProxyServer(service, slot), Some(if host == "" then Endpoint("", 0) else Endpoint(host, port))),
     Assign(ProxySwitch(service, slot), Some(Switch(host != "" && on)))]
  }

  // The command that clears a stored server is tidying: its failure does not fail a revert.
  predicate IsSoft(a: Assign) {
    a.key.ProxyServer? && (a.val == Some(Text("")) || a.val == Some(Endpoint("", 0)))
  }

  function CaptureUrl(url: string, service: string, store: Store, env: Env): seq<Assign> {
    RestoreUrl(service, NotSelfUrl(ServerUrl(store, service), url, env), IsOn(store, service, Pac))
  }

  function CaptureHost(host: string, port: int, service: string, slot: Slot, store: Store, env: Env): seq<Assign> {
    var p := ServerPort(store, service, slot);
    RestoreHost(service, slot, NotSelfHost(ServerHost(store, service, slot), p, host, port, env), p,
                IsOn(store, service, slot))
  }

  function OwnService(op: Op, service: string): seq<Assign>
    requires op.PacProxy? || op.WebProxy? || op.SocksProxy?
  {
    match op
    case PacProxy(url, _) =>
      [Assign(ProxyServer(service, Pac), Some(Text(url))), Assign(ProxySwitch(service, Pac), Some(Switch(true)))]
    case WebProxy(host, port, _) =>
      [Assign(ProxyServer(service, Web), Some(Endpoint(host, port))),
       Assign(ProxyServer(service, Secure), Some(Endpoint(host, port))),
       Assign(ProxySwitch(service, Web), Some(Switch(true))),
       Assign(ProxySwitch(service, Secure), Some(Switch(true)))]
    case SocksProxy(host, port, _) =>
      [Assign(ProxyServer(service, Socks), Some(Endpoint(host, port))),
       Assign(ProxySwitch(service, Socks), Some(Switch(true)))]
  }

  function CaptureService(op: Op, service: string, store: Store, env: Env): seq<Assign>
    requires op.PacProxy? || op.WebProxy? || op.SocksProxy?
  {
    match op
    case PacProxy(url, _) => CaptureUrl(url, service, store, env)
    case WebProxy(host, port, _) =>
      CaptureHost(host, port, service, Web, store, env) + CaptureHost(host, port, service, Secure, store, env)
    case SocksProxy(host, port, _) => CaptureHost(host, port, service, Socks, store, env)
  }

  function OwnServices(op: Op, services: seq<string>): seq<Assign>
    requires op.PacProxy? || op.WebProxy? || op.SocksProxy?
  {
    if services == [] then [] else OwnService(op, services[0]) + OwnServices(op, services[1..])
  }

  function CaptureServices(op: Op, services: seq<string>, store: Store, env: Env): seq<Assign>
    requires op.PacProxy? || op.WebProxy? || op.SocksProxy?
  {
    if services == [] then []
    else CaptureService(op, services[0], store, env) + CaptureServices(op, services[1..], store, env)
  }

  // ---------------------------------------------------------------- what Apply writes, what Revert writes

  // The absolute writes Apply makes, in order.
  function Own(op: Op): seq<Assign> {
    match op
    case LaunchEnv(vars) => OwnVars(vars)
    case AddRoute(_) => []
    case _ => OwnServices(op, op.services)
  }

  // The absolute writes Revert will make, decided before the first write of Apply.
  function Capture(op: Op, store: Store, env: Env): seq<Assign> {
    match op
    case LaunchEnv(vars) => CaptureVars(vars, store, env)
    case AddRoute(_) => []
    case _ => CaptureServices(op, op.services, store, env)
  }

  // Whatever Apply can touch, the captured payload puts back.
  lemma CaptureCovers(op: Op, store: Store, env: Env)
    ensures Keys(Own(op)) == Keys(Capture(op, store, env))
  {
    match op
    case LaunchEnv(vars) =>
      forall k ensures k in Keys(Own(op)) <==> k in Keys(Capture(op, store, env)) {
        if k in Keys(Own(op)) {
          var i :| 0 <= i < |vars| && OwnVars(vars)[i].key == k;
          assert CaptureVars(vars, store, env)[i].key == k;
        }
        if k in Keys(Capture(op, store, env)) {
          var i :| 0 <= i < |vars| && CaptureVars(vars, store, env)[i].key == k;
          assert OwnVars(vars)[i].key == k;
        }
      }
    case AddRoute(_) =>
    case _ => CaptureServicesCovers(op, op.services, store, env);
  }

  lemma KeysConcat(a: seq<Assign>, b: seq<Assign>)
    ensures Keys(a + b) == Keys(a) + Keys(b)
  {
    forall x | x in a || x in b ensures x in a + b {
      if x in a {
        var i :| 0 <= i < |a| && a[i] == x;
        assert (a + b)[i] == x;
      } else {
        var i :| 0 <= i < |b| && b[i] == x;
        assert (a + b)[|a| + i] == x;
      }
    }
  }

  lemma KeysPair(a: Assign, b: Assign)
    ensures Keys([a, b]) == {a.key, b.key}
  {
    assert a in [a, b] && b in [a, b];
  }

  lemma HostKeys(host: string, port: int, service: string, slot: Slot, store: Store, env: Env)
    ensures Keys(CaptureHost(host, port, service, slot, store, env)) ==
            {ProxyServer(service, slot), ProxySwitch(service, slot)}
  {
    var cap := CaptureHost(host, port, service, slot, store, env);
    KeysPair(cap[0], cap[1]);
  }

  lemma CaptureServiceCovers(op: Op, service: string, store: Store, env: Env)
    requires op.PacProxy? || op.WebProxy? || op.SocksProxy?
    ensures Keys(OwnService(op, service)) == Keys(CaptureService(op, service, store, env))
  {
    hide Keys, CaptureHost, CaptureUrl, RestoreHost;
    var own := OwnService(op, service);
    KeysPair(own[0], own[1]);
    match op
    case PacProxy(url, _) =>
      UrlKeys(url, service, store, env);
    case SocksProxy(host, port, _) =>
      HostKeys(host, port, service, Socks, store, env);
    case WebProxy(host, port, _) =>
      KeysPair(own[2], own[3]);
      KeysConcat([own[0], own[1]], [own[2], own[3]]);
      assert own == [own[0], own[1]] + [own[2], own[3]];
      HostKeys(host, port, service, Web, store, env);
      HostKeys(host, port, service, Secure, store, env);
      KeysConcat(CaptureHost(host, port, service, Web, store, env), CaptureHost(host, port, service, Secure, store, env));
  }

  lemma UrlKeys(url: string, service: string, store: Store, env: Env)
    ensures Keys(CaptureUrl(url, service, store, env)) == {ProxyServer(service, Pac), ProxySwitch(service, Pac)}
  {
    var cap := CaptureUrl(url, service, store, env);
    KeysPair(cap[0], cap[1]);
  }

  lemma {:induction false} CaptureServicesCovers(op: Op, services: seq<string>, store: Store, env: Env)
    requires op.PacProxy? || op.WebProxy? || op.SocksProxy?
    ensures Keys(OwnServices(op, services)) == Keys(CaptureServices(op, services, store, env))
  {
    if services != [] {
      CaptureServiceCovers(op, services[0], store, env);
      CaptureServicesCovers(op, services[1..], store, env);
      KeysConcat(OwnService(op, services[0]), OwnServices(op, services[1..]));
      KeysConcat(CaptureService(op, services[0], store, env), CaptureServices(op, services[1..], store, env));
    }
  }
}
