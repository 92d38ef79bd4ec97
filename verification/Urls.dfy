/** The URLs that lead to services: what is in them, read back from their text. */
module Urls {
  import opened Graph
  import opened Text
  import opened Manifests
  import opened Semantics

  const SCHEME := "http://"

  predicate Host(s: string) {
    '.' !in s && ':' !in s
  }

  /** The URL names this service in this namespace of the cluster, and no port. */
  ghost predicate NamesHost(url: string, name: string, namespace: string) {
    && |url| >= |SCHEME| && url[..|SCHEME|] == SCHEME
    && Split(url[|SCHEME|..], '.') == [name, namespace, "svc", "cluster", "local"]
  }

  /** What comes before the colon is a host, what comes after it a port. */
  ghost predicate HasHostAndPort(text: string, host: string, port: nat) {
    var parts := Split(text, ':');
    |parts| == 2 && parts[0] == host && Atoi(parts[1]) == Some(port)
  }

  ghost predicate NamesHostAndPort(url: string, name: string, namespace: string, port: nat) {
    && |url| >= |SCHEME| && url[..|SCHEME|] == SCHEME
    && exists host :: HasHostAndPort(url[|SCHEME|..], host, port) && Split(host, '.') == [name, namespace, "svc", "cluster", "local"]
  }

  /** What the URL of a Service says of it. */
  ghost predicate Addresses(o: Object, url: string) {
    match o.service
    case ClusterIP(ports) =>
      if ports == [] then url == "" else NamesHostAndPort(url, o.id.name, o.id.namespace, ports[0])
    case NodePort(nodePorts) =>
      if nodePorts == [] then url == "" else HasHostAndPort(url, "<node-ip>", nodePorts[0])
    case LoadBalancer(ports, ingress) =>
      if ports == [] || ingress == [] then url == "" else HasHostAndPort(url, ingress[0], ports[0])
    case ExternalName(host) => url == host
    case OtherType => url == ""
  }

  /** Names and addresses without the characters that the URL is made up with. */
  predicate PlainNames(o: Object) {
    && Host(o.id.name) && Host(o.id.namespace)
    && (o.service.LoadBalancer? ==> forall i :: 0 <= i < |o.service.ingress| ==> ':' !in o.service.ingress[i])
  }

  /** Five labels and four dots. */
  function Dotted(a: string, b: string, c: string, d: string, e: string): string {
    a + ['.'] + (b + ['.'] + (c + ['.'] + (d + ['.'] + e)))
  }

  lemma DottedSplits(a: string, b: string, c: string, d: string, e: string)
    requires Host(a) && Host(b) && Host(c) && Host(d) && Host(e)
    ensures Split(Dotted(a, b, c, d, e), '.') == [a, b, c, d, e]
    ensures ':' !in Dotted(a, b, c, d, e)
  {
    SplitWhole(e, '.');
    SplitHead(d, e, '.');
    SplitHead(c, d + ['.'] + e, '.');
    SplitHead(b, c + ['.'] + (d + ['.'] + e), '.');
    SplitHead(a, b + ['.'] + (c + ['.'] + (d + ['.'] + e)), '.');
  }

  lemma ClusterDomain(name: string, namespace: string)
    ensures name + "." + namespace + ".svc.cluster.local" == Dotted(name, namespace, "svc", "cluster", "local")
  {
    assert ".svc.cluster.local" == ['.'] + ("svc" + ['.'] + ("cluster" + ['.'] + "local"));
  }

  lemma HostSplits(name: string, namespace: string)
    requires Host(name) && Host(namespace)
    ensures Split(name + "." + namespace + ".svc.cluster.local", '.') == [name, namespace, "svc", "cluster", "local"]
    ensures ':' !in name + "." + namespace + ".svc.cluster.local"
  {
    ClusterDomain(name, namespace);
    DottedSplits(name, namespace, "svc", "cluster", "local");
  }

  lemma PortSplits(host: string, port: nat)
    requires ':' !in host
    ensures HasHostAndPort(host + ":" + Itoa(port), host, port)
  {
    AtoiItoa(port);
    SplitWhole(Itoa(port), ':');
    SplitHead(host, Itoa(port), ':');
    assert host + [':'] + Itoa(port) == host + ":" + Itoa(port);
  }

  lemma ClusterUrlReadsBack(o: Object)
    requires Host(o.id.name) && Host(o.id.namespace) && o.service.ClusterIP? && o.service.ports != []
    ensures NamesHostAndPort(GetServiceUrl(o), o.id.name, o.id.namespace, o.service.ports[0])
  {
    var host, port := o.id.name + "." + o.id.namespace + ".svc.cluster.local", o.service.ports[0];
    var text := host + ":" + Itoa(port);
    HostSplits(o.id.name, o.id.namespace);
    PortSplits(host, port);
    assert ".svc.cluster.local:" == ".svc.cluster.local" + ":";
    assert GetServiceUrl(o) == SCHEME + text;
    assert GetServiceUrl(o)[|SCHEME|..] == text;
  }

  /** The URL of a Service names it, its namespace and its first port. */
  lemma ServiceUrlReadsBack(o: Object)
    requires PlainNames(o)
    ensures Addresses(o, GetServiceUrl(o))
  {
    match o.service
    case ClusterIP(ports) =>
      if ports != [] {
        ClusterUrlReadsBack(o);
      }
    case NodePort(nodePorts) =>
      if nodePorts != [] {
        PortSplits("<node-ip>", nodePorts[0]);
        assert "<node-ip>" + ":" == "<node-ip>:";
      }
    case LoadBalancer(ports, ingress) =>
      if ports != [] && ingress != [] {
        PortSplits(ingress[0], ports[0]);
      }
    case ExternalName(_) =>
    case OtherType =>
  }

  /** Where the router calls a step: at its URL, or else at its name in the graph's namespace. */
  lemma StepUrl(g: Graph, s: Step)
    ensures s.serviceUrl != "" ==> ServiceUrl(g, s) == s.serviceUrl
    ensures s.serviceUrl == "" && Host(s.name) && Host(g.namespace) ==> NamesHost(ServiceUrl(g, s), s.name, g.namespace)
  {
    if s.serviceUrl == "" && Host(s.name) && Host(g.namespace) {
      HostSplits(s.name, g.namespace);
      assert ServiceUrl(g, s) == SCHEME + (s.name + "." + g.namespace + ".svc.cluster.local");
    }
  }
}
