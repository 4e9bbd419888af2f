/** The parts of the RavenDBCluster resource that the modelled code reads. */
module Api {
  import opened Text

  datatype Mode = LetsEncrypt | ModeNone

  datatype Node = Node(tag: string, publicUrl: string, tcpUrl: string, certSecretRef: Option<string>)

  datatype ClusterSpec = ClusterSpec(
    image: string,
    mode: Mode,
    domain: string,
    nodes: seq<Node>,
    licenseSecretRef: string,
    clientCertSecretRef: string,
    clusterCertSecretRef: Option<string>,
    caCertSecretRef: Option<string>,
    externalAccess: bool)

  function Tags(spec: ClusterSpec): (ts: seq<string>)
    ensures |ts| == |spec.nodes|
    ensures forall i | 0 <= i < |ts| :: ts[i] == spec.nodes[i].tag
  {
    seq(|spec.nodes|, i requires 0 <= i < |spec.nodes| => spec.nodes[i].tag)
  }

  function PublicUrls(spec: ClusterSpec): (us: seq<string>)
    ensures |us| == |spec.nodes|
    ensures forall i | 0 <= i < |us| :: us[i] == spec.nodes[i].publicUrl
  {
    seq(|spec.nodes|, i requires 0 <= i < |spec.nodes| => spec.nodes[i].publicUrl)
  }

  function TcpUrls(spec: ClusterSpec): (us: seq<string>)
    ensures |us| == |spec.nodes|
    ensures forall i | 0 <= i < |us| :: us[i] == spec.nodes[i].tcpUrl
  {
    seq(|spec.nodes|, i requires 0 <= i < |spec.nodes| => spec.nodes[i].tcpUrl)
  }

  predicate Distinct<T(==)>(s: seq<T>) {
    forall i, j | 0 <= i < j < |s| :: s[i] != s[j]
  }

  predicate Plain(s: string) { s != "" && '|' !in s }

  /** What the schema of the resource and the shape of host names demand of a spec: an image,
      at least one node, and tags and URLs that are non-empty and free of '|'. */
  predicate WellFormed(spec: ClusterSpec) {
    && spec.image != ""
    && spec.nodes != []
    && (forall i | 0 <= i < |spec.nodes| ::
          Plain(spec.nodes[i].tag) && Plain(spec.nodes[i].publicUrl) && Plain(spec.nodes[i].tcpUrl))
  }
}
