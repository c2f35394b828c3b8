/** Which consumers are given the same StableID. Discovery correlates what several tools say
    by this name alone, so two parties must share it exactly when they are one party. */
module StableNames {
  import opened Prelude
  import opened Discovery

  /** Who a StableID is about, told apart from how it is written. */
  datatype Party =
    | Workload(cluster: string, namespace: string, name: string)
    | RouteOf(gateway: string, route: string)
    | Address(text: string)

  ghost predicate IsWorkload(p: IDParts, w: Party) {
    && w.Workload?
    && w.cluster == (if p.cluster == "" then "local" else p.cluster)
    && w.namespace == (if p.namespace == "" then "default" else p.namespace)
    && w.name == (if p.serviceAccount != "" then p.serviceAccount else p.serviceName) != ""
  }

  ghost predicate IsAbout(p: IDParts, normalizeHost: string -> string, w: Party) {
    var named := p.serviceAccount != "" || p.serviceName != "";
    var routed := p.gateway != "" || p.route != "";
    && (named ==> IsWorkload(p, w))
    && (!named && routed ==> w == RouteOf(p.gateway, p.route))
    && (!named && !routed ==> w == Address(normalizeHost(p.host) + p.pathPrefix))
  }

  /** Kubernetes allows no slash in names and namespaces, and the one gateway that routes are
      found on has none. A cluster may have any: it is the name of a kubeconfig context. */
  predicate Separable(w: Party) {
    match w
    case Workload(_, namespace, name) => '/' !in namespace && '/' !in name
    case RouteOf(gateway, _) => '/' !in gateway
    case Address(_) => true
  }

  lemma SplitAtFirst<T>(a: seq<T>, x: seq<T>, b: seq<T>, y: seq<T>, mark: T)
    requires mark !in a && mark !in b && a + [mark] + x == b + [mark] + y
    ensures a == b && x == y
  {
    var s := a + [mark] + x;
    assert s[|a|] == mark && s[|b|] == mark;
    assert forall i :: 0 <= i < |a| ==> s[i] == a[i] != mark;
    assert forall i :: 0 <= i < |b| ==> s[i] == b[i] != mark;
    assert a == s[..|a|] == b;
    assert x == s[|a| + 1..] == y;
  }

  lemma SplitAtLast<T>(a: seq<T>, x: seq<T>, b: seq<T>, y: seq<T>, mark: T)
    requires mark !in x && mark !in y && a + [mark] + x == b + [mark] + y
    ensures a == b && x == y
  {
    var s := a + [mark] + x;
    assert s[|a|] == mark && s[|b|] == mark;
    assert forall i :: |a| < i < |s| ==> s[i] == x[i - |a| - 1] != mark;
    assert forall i :: |b| < i < |s| ==> s[i] == y[i - |b| - 1] != mark;
    assert |a| == |b|;
    assert a == s[..|a|] == b;
    assert x == s[|a| + 1..] == y;
  }

  /** How a party's StableID is written. */
  function Written(w: Party): string {
    match w
    case Workload(cluster, namespace, name) => "k8s://" + (cluster + "/" + namespace + "/" + name)
    case RouteOf(gateway, route) => "route://" + (gateway + "/" + route)
    case Address(text) => "url://" + text
  }

  lemma StableIDIsWritten(p: IDParts, normalizeHost: string -> string, w: Party)
    requires IsAbout(p, normalizeHost, w)
    ensures StableID(p, normalizeHost) == Written(w)
  {
    match w
    case Workload(c, n, s) => assert "k8s://" + c + "/" + n + "/" + s == Written(w);
    case RouteOf(g, r) => assert "route://" + g + "/" + r == Written(w);
    case Address(t) => assert "url://" + normalizeHost(p.host) + p.pathPrefix == Written(w);
  }

  lemma SameRest(scheme: string, x: string, y: string)
    requires scheme + x == scheme + y
    ensures x == y
  {
    assert x == (scheme + x)[|scheme|..] == y;
  }

  lemma WrittenSeparates(v: Party, w: Party)
    requires Separable(v) && Separable(w) && Written(v) == Written(w)
    ensures v == w
  {
    assert Written(v)[0] == (match v case Workload(_, _, _) => 'k' case RouteOf(_, _) => 'r' case Address(_) => 'u');
    assert Written(w)[0] == (match w case Workload(_, _, _) => 'k' case RouteOf(_, _) => 'r' case Address(_) => 'u');
    match v
    case Workload(c, n, s) =>
      SameRest("k8s://", c + "/" + n + "/" + s, w.cluster + "/" + w.namespace + "/" + w.name);
      SplitAtLast(c + "/" + n, s, w.cluster + "/" + w.namespace, w.name, '/');
      SplitAtLast(c, n, w.cluster, w.namespace, '/');
    case RouteOf(g, r) =>
      SameRest("route://", g + "/" + r, w.gateway + "/" + w.route);
      SplitAtFirst(g, r, w.gateway, w.route, '/');
    case Address(t) =>
      SameRest("url://", t, w.text);
  }

  /** One StableID, one party: no two workloads, routes or addresses are taken for one
      another, and what two tools find about one party carries one name. */
  lemma SameNameIff(p: IDParts, q: IDParts, normalizeHost: string -> string, v: Party, w: Party)
    requires IsAbout(p, normalizeHost, v) && IsAbout(q, normalizeHost, w)
    requires Separable(v) && Separable(w)
    ensures StableID(p, normalizeHost) == StableID(q, normalizeHost) <==> v == w
  {
    StableIDIsWritten(p, normalizeHost, v);
    StableIDIsWritten(q, normalizeHost, w);
    if Written(v) == Written(w) {
      WrittenSeparates(v, w);
    }
  }

  /** A slash in a gateway's name is what would confuse two routes: every such gateway has
      another with a route of the same StableID. */
  lemma SlashesCollide(before: string, after: string, route: string, normalizeHost: string -> string)
    ensures
      var p := IDParts("", "", "", "", before + "/" + after, route, "", "");
      var q := IDParts("", "", "", "", before, after + "/" + route, "", "");
      p != q && StableID(p, normalizeHost) == StableID(q, normalizeHost)
  {
    assert |before + "/" + after| > |before|;
    assert "route://" + (before + "/" + after) + "/" + route == "route://" + before + "/" + (after + "/" + route);
    assert after + "/" + route != "";
  }
}
