/** internal/ingress/ingress.go: the standard Ingress in front of a web UI. */
module IngressBuilder {
  import opened Types
  import opened Objects
  import opened Manifests

  const GVK := Gvk("networking.k8s.io", "v1", "Ingress")

  function HostRule(host: string, backend: string, port: int32): Value {
    List([Map(map[
      "host" := Str(host),
      "http" := Map(map["paths" := List([Map(map[
        "path" := Str("/"),
        "pathType" := Str("Prefix"),
        "backend" := Map(map["service" := Map(map[
          "name" := Str(backend),
          "port" := Map(map["number" := Int(port)])])])])])])])])
  }

  function TlsBlock(host: string, secret: string): Value {
    List([Map(map["hosts" := List([Str(host)]), "secretName" := Str(secret)])])
  }

  function SpecFields(spec: IngressSpec, backend: string, port: int32): Fields {
    map[P1(Rules) := HostRule(spec.host, backend, port)]
    + Opt(spec.ingressClassName != "", P1(IngressClassName), Str(spec.ingressClassName))
    + Opt(spec.tlsSecretName != "", P1(Tls), TlsBlock(spec.host, spec.tlsSecretName))
  }

  /** The leaves of the desired Ingress: the host routed to the backend at "/", with class, TLS
      and annotations only where the spec gives them. */
  function Desired(spec: IngressSpec, owner: string, manager: string, backend: string, port: int32): Fields {
    Whole(manager, owner, spec.annotations, SpecFields(spec, backend, port))
  }

  /** The object as the code nests it: its leaves are exactly the desired ones, so an Ingress
      without annotations has no empty `annotations`. */
  method Build(spec: IngressSpec, owner: string, manager: string, backend: string, port: int32) returns (u: Object)
    ensures Flatten(u) == Desired(spec, owner, manager, backend, port)
  {
    var ingressSpec := One(Rules, HostRule(spec.host, backend, port));
    ingressSpec := SetIf(ingressSpec, spec.ingressClassName != "", IngressClassName, Str(spec.ingressClassName));
    ingressSpec := SetIf(ingressSpec, spec.tlsSecretName != "", Tls, TlsBlock(spec.host, spec.tlsSecretName));
    u := NewObject(manager, owner, spec.annotations, ingressSpec);
  }

  lemma DesiredWithoutStatus(spec: IngressSpec, owner: string, manager: string, backend: string, port: int32)
    ensures WithoutStatus(Desired(spec, owner, manager, backend, port))
  {
    WholeWithoutStatus(manager, owner, spec.annotations, SpecFields(spec, backend, port));
  }

  // ---------------------------------------------------------------- leaf by leaf

  /** The host at path "/" (a prefix) to that Service and port. */
  predicate IsRule(host: string, backend: string, port: int32, v: Value) {
    var service := Map(map["name" := Str(backend), "port" := Map(map["number" := Int(port)])]);
    var path := Map(map["path" := Str("/"), "pathType" := Str("Prefix"), "backend" := Map(map["service" := service])]);
    v == List([Map(map["host" := Str(host), "http" := Map(map["paths" := List([path])])])])
  }

  predicate IsTls(host: string, secret: string, v: Value) {
    secret != "" && v == List([Map(map["hosts" := List([Str(host)]), "secretName" := Str(secret)])])
  }

  predicate SpecLeaf(spec: IngressSpec, backend: string, port: int32, p: Path, v: Value) {
    || (p == P1(Rules) && IsRule(spec.host, backend, port, v))
    || (p == P1(IngressClassName) && IsGiven(spec.ingressClassName, v))
    || (p == P1(Tls) && IsTls(spec.host, spec.tlsSecretName, v))
  }

  lemma SpecLeaves(spec: IngressSpec, backend: string, port: int32, p: Path, v: Value)
    ensures LeafAt(SpecFields(spec, backend, port), p) == Some(v) <==> SpecLeaf(spec, backend, port, p, v)
  {
    var rules, tls := HostRule(spec.host, backend, port), TlsBlock(spec.host, spec.tlsSecretName);
    var class_ := Str(spec.ingressClassName);
    assert IsRule(spec.host, backend, port, rules);
    assert spec.tlsSecretName != "" ==> IsTls(spec.host, spec.tlsSecretName, tls);
    AtSum3(map[P1(Rules) := rules], Opt(spec.ingressClassName != "", P1(IngressClassName), class_),
           Opt(spec.tlsSecretName != "", P1(Tls), tls), p);
    AtOne(P1(Rules), rules, p);
    AtOpt(spec.ingressClassName != "", P1(IngressClassName), class_, p);
    AtOpt(spec.tlsSecretName != "", P1(Tls), tls, p);
  }

  /** Every leaf of the Ingress. */
  lemma IngressLeaves(spec: IngressSpec, owner: string, manager: string, backend: string, port: int32, p: Path,
                      v: Value)
    ensures LeafAt(Desired(spec, owner, manager, backend, port), p) == Some(v)
            <==> ObjectLeaf(manager, owner, spec.annotations,
                            p.Dot? && SpecLeaf(spec, backend, port, p.tail, v), p, v)
  {
    if p.Dot? { SpecLeaves(spec, backend, port, p.tail, v); }
    WholeLeaves(manager, owner, spec.annotations, SpecFields(spec, backend, port),
                p.Dot? && SpecLeaf(spec, backend, port, p.tail, v), p, v);
  }
}
