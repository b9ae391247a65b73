/** How a node publishes its lease in its own node object, and how the others read it back. */
module Lease {
  import opened Wrappers
  import opened Ipv4
  import opened Peers
  import opened Netlink
  import opened Mac

  /** An annotation's text, with what it reads as: an address, or backend data holding a VtepMAC. */
  datatype Annotation = Annotation(text: string, address: Option<Addr>, backendData: Option<string>)

  type Annotations = map<string, Annotation>

  /** The fields of a node object that the daemon looks at. */
  datatype Node = Node(name: Option<string>, annotations: Option<Annotations>, podCidr: Option<Field<Ipv4Network>>,
                       addresses: seq<NodeAddress>)

  datatype NodeAddress = NodeAddress(kind: string, address: Field<Addr>)

  datatype OwnNode = OwnNode(podCidr: Field<Ipv4Network>, publicIp: Field<Addr>)

  function Key(suffix: string): string {
    "flannel.alpha.coreos.com/" + suffix
  }

  lemma KeyInjective(a: string, b: string)
    ensures Key(a) == Key(b) <==> a == b
  {
    var prefix := "flannel.alpha.coreos.com/";
    assert a == Key(a)[|prefix|..] && b == Key(b)[|prefix|..];
  }

  function FirstInternal(addresses: seq<NodeAddress>): Option<Field<Addr>> {
    if addresses == [] then None
    else if addresses[0].kind == "InternalIP" then Some(addresses[0].address)
    else FirstInternal(addresses[1..])
  }

  /** A node's own lease inputs: its PodCIDR and its first internal address, both required. */
  function ExtractOwnNode(n: Node): Option<OwnNode> {
    match (n.podCidr, FirstInternal(n.addresses))
    case (Some(cidr), Some(ip)) => Some(OwnNode(cidr, ip))
    case _ => None
  }

  lemma {:induction false} FirstInternalIs(addresses: seq<NodeAddress>)
    ensures match FirstInternal(addresses)
            case None => forall a | a in addresses :: a.kind != "InternalIP"
            case Some(ip) =>
              exists i ::
                && 0 <= i < |addresses| && addresses[i] == NodeAddress("InternalIP", ip)
                && forall j | 0 <= j < i :: addresses[j].kind != "InternalIP"
  {
    if addresses != [] && addresses[0].kind != "InternalIP" {
      var rest := addresses[1..];
      FirstInternalIs(rest);
      if ip: Field<Addr> :| FirstInternal(rest) == Some(ip) {
        var i :| 0 <= i < |rest| && rest[i] == NodeAddress("InternalIP", ip)
                 && forall j | 0 <= j < i :: rest[j].kind != "InternalIP";
        assert addresses[i + 1] == rest[i];
        assert forall j | 0 < j < i + 1 :: addresses[j] == rest[j - 1];
      }
    } else if addresses != [] {
      assert addresses[0] == NodeAddress("InternalIP", addresses[0].address);
    }
  }

  /** A node's own inputs are its PodCIDR and the first of its addresses of kind InternalIP. */
  lemma OwnNodeMeans(n: Node)
    ensures match ExtractOwnNode(n)
            case None => n.podCidr.None? || forall a | a in n.addresses :: a.kind != "InternalIP"
            case Some(own) =>
              && n.podCidr == Some(own.podCidr)
              && exists i ::
                   && 0 <= i < |n.addresses| && n.addresses[i] == NodeAddress("InternalIP", own.publicIp)
                   && forall j | 0 <= j < i :: n.addresses[j].kind != "InternalIP"
  {
    FirstInternalIs(n.addresses);
  }

  function PlainText(text: string): Annotation {
    Annotation(text, None, None)
  }

  function BackendData(mac: string): Annotation {
    Annotation("{\"VtepMAC\":\"" + mac + "\"}", None, Some(mac))
  }

  /** The annotations a node publishes: backend data only if it has a VtepMAC. */
  method BuildPublishPatch(backend: Backend, publicIp: Field<Addr>,
                           vtepMac: Option<string>) returns (annotations: Annotations)
    ensures annotations == PublishPatch(backend, publicIp, vtepMac)
  {
    hide Key, PlainText, BackendData;
    var backendType := match backend case Vxlan => "vxlan" case HostGw => "host-gw";
    annotations := map[];
    annotations := annotations[Key("backend-type") := PlainText(backendType)];
    if vtepMac.Some? {
      annotations := annotations[Key("backend-data") := BackendData(vtepMac.value)];
    }
    annotations := annotations[Key("public-ip") := Annotation(publicIp.text, publicIp.parsed, None)];
    annotations := annotations[Key("kube-subnet-manager-managed") := PlainText("true")];
    KeysDiffer();
  }

  function PublishPatch(backend: Backend, publicIp: Field<Addr>, vtepMac: Option<string>): Annotations {
    map[Key("public-ip") := Annotation(publicIp.text, publicIp.parsed, None),
        Key("backend-type") := PlainText(if backend == Vxlan then "vxlan" else "host-gw"),
        Key("kube-subnet-manager-managed") := PlainText("true")]
    + (if vtepMac.Some? then map[Key("backend-data") := BackendData(vtepMac.value)] else map[])
  }

  lemma KeysDiffer()
    ensures Key("public-ip") != Key("backend-type") && Key("public-ip") != Key("backend-data")
    ensures Key("public-ip") != Key("kube-subnet-manager-managed") && Key("backend-type") != Key("backend-data")
    ensures Key("backend-type") != Key("kube-subnet-manager-managed")
    ensures Key("backend-data") != Key("kube-subnet-manager-managed")
  {
    KeyInjective("public-ip", "backend-type");
    KeyInjective("public-ip", "backend-data");
    KeyInjective("public-ip", "kube-subnet-manager-managed");
    KeyInjective("backend-type", "backend-data");
    KeyInjective("backend-type", "kube-subnet-manager-managed");
    KeyInjective("backend-data", "kube-subnet-manager-managed");
    assert "public-ip"[0] != "backend-type"[0] && "backend-type"[8] != "backend-data"[8];
    assert "public-ip"[0] != "kube-subnet-manager-managed"[0] && "backend-type"[0] != "kube-subnet-manager-managed"[0];
  }

  lemma PublicIpKey()
    ensures Key("public-ip") == "flannel.alpha.coreos.com/public-ip"
  {
  }

  lemma BackendTypeKey()
    ensures Key("backend-type") == "flannel.alpha.coreos.com/backend-type"
  {
  }

  lemma BackendDataKey()
    ensures Key("backend-data") == "flannel.alpha.coreos.com/backend-data"
  {
  }

  lemma ManagedKey()
    ensures Key("kube-subnet-manager-managed") == "flannel.alpha.coreos.com/kube-subnet-manager-managed"
  {
  }

  /** The annotations published: their names in full, and the text under each. */
  lemma PublishedTexts(backend: Backend, publicIp: Field<Addr>, vtepMac: Option<string>)
    ensures var patch := PublishPatch(backend, publicIp, vtepMac);
            && patch.Keys == {"flannel.alpha.coreos.com/public-ip", "flannel.alpha.coreos.com/backend-type",
                              "flannel.alpha.coreos.com/kube-subnet-manager-managed"}
                             + (if vtepMac.Some? then {"flannel.alpha.coreos.com/backend-data"} else {})
            && patch["flannel.alpha.coreos.com/public-ip"] == Annotation(publicIp.text, publicIp.parsed, None)
            && (backend == Vxlan ==> patch["flannel.alpha.coreos.com/backend-type"].text == "vxlan")
            && (backend == HostGw ==> patch["flannel.alpha.coreos.com/backend-type"].text == "host-gw")
            && patch["flannel.alpha.coreos.com/kube-subnet-manager-managed"].text == "true"
            && (vtepMac.Some? ==>
                  var data := patch["flannel.alpha.coreos.com/backend-data"];
                  data.text == "{\"VtepMAC\":\"" + vtepMac.value + "\"}" && data.backendData == vtepMac)
  {
    PublicIpKey();
    BackendTypeKey();
    BackendDataKey();
    ManagedKey();
    KeysDiffer();
    hide Key;
  }

  /** Applying a patch sets the annotations it names and leaves the others alone. */
  function Applied(n: Node, patch: Annotations): Node {
    n.(annotations := Some((match n.annotations case Some(m) => m case None => map[]) + patch))
  }

  /** Another annotation stays as it is, and so does everything else about the node. */
  lemma AppliedMeans(n: Node, patch: Annotations, key: string)
    ensures var m := Applied(n, patch);
            && m == n.(annotations := m.annotations) && m.annotations.Some?
            && if key in patch then key in m.annotations.value && m.annotations.value[key] == patch[key]
               else if n.annotations.Some? && key in n.annotations.value then
                 key in m.annotations.value && m.annotations.value[key] == n.annotations.value[key]
               else key !in m.annotations.value
  {
  }

  /** A node's lease, if all its parts are there; a vxlan peer also needs readable backend data. */
  function NodeToPeer(n: Node, backend: Backend): Option<Peer> {
    match (n.annotations, n.podCidr)
    case (Some(ann), Some(podCidr)) =>
      if Key("public-ip") !in ann then None
      else
        var ip := ann[Key("public-ip")];
        var publicIp := Field(ip.text, ip.address);
        (match backend
         case Vxlan =>
           if Key("backend-data") !in ann || ann[Key("backend-data")].backendData.None? || n.name.None? then None
           else Some(Peer(n.name.value, podCidr, publicIp, ann[Key("backend-data")].backendData))
         case HostGw =>
           if n.name.None? then None else Some(Peer(n.name.value, podCidr, publicIp, None)))
    case _ => None
  }

  /** All parts of a lease are there: name, PodCIDR, public address and, for vxlan, readable backend data. */
  predicate Complete(n: Node, backend: Backend) {
    && n.name.Some? && n.podCidr.Some? && n.annotations.Some?
    && "flannel.alpha.coreos.com/public-ip" in n.annotations.value
    && (backend == Vxlan ==>
          && "flannel.alpha.coreos.com/backend-data" in n.annotations.value
          && n.annotations.value["flannel.alpha.coreos.com/backend-data"].backendData.Some?)
  }

  function LeaseOf(n: Node, backend: Backend): Peer
    requires Complete(n, backend)
  {
    var ip := n.annotations.value["flannel.alpha.coreos.com/public-ip"];
    Peer(n.name.value, n.podCidr.value, Field(ip.text, ip.address),
         if backend == HostGw then None
         else n.annotations.value["flannel.alpha.coreos.com/backend-data"].backendData)
  }

  /** A node is read as a peer exactly if its lease is complete, and then as what its own fields say. */
  lemma NodeToPeerMeans(n: Node, backend: Backend)
    ensures NodeToPeer(n, backend) == if Complete(n, backend) then Some(LeaseOf(n, backend)) else None
  {
    PublicIpKey();
    BackendDataKey();
    hide Key;
  }

  function NameOf(n: Node): string {
    match n.name
    case Some(name) => name
    case None => ""
  }

  /** The peers a list of nodes stands for, the last of several nodes of one name winning. */
  function Desired(nodes: seq<Node>, self: string, backend: Backend): PeerMap {
    if nodes == [] then map[]
    else
      var last := nodes[|nodes| - 1];
      var before := Desired(nodes[..|nodes| - 1], self, backend);
      match NodeToPeer(last, backend)
      case Some(p) => if NameOf(last) == self then before else before[NameOf(last) := p]
      case None => before
  }

  method DesiredFromNodes(nodes: seq<Node>, self: string, backend: Backend) returns (out: PeerMap)
    ensures out == Desired(nodes, self, backend)
  {
    out := map[];
    for i := 0 to |nodes|
      invariant out == Desired(nodes[..i], self, backend)
    {
      assert nodes[..i + 1][..i] == nodes[..i];
      var n := nodes[i];
      var name := NameOf(n);
      if name == self {
        continue;
      }
      var peer := NodeToPeer(n, backend);
      if peer.Some? {
        out := out[name := peer.value];
      }
    }
    assert nodes[..|nodes|] == nodes;
  }

  // -------------------------------------------------------------- publish and read back

  /**
   Reading back a published node gives its name, PodCIDR and public address, and for
   vxlan the VtepMAC; there is no lease exactly when the name, the PodCIDR or, for
   vxlan, the VtepMAC is missing. What was annotated before does not matter.
   */
  lemma PublishRoundTrip(n: Node, backend: Backend, publicIp: Field<Addr>, vtepMac: Option<string>)
    requires backend == HostGw ==> vtepMac == None
    requires backend == Vxlan ==> vtepMac.Some?
    ensures NodeToPeer(Applied(n, PublishPatch(backend, publicIp, vtepMac)), backend)
            == if n.name.None? || n.podCidr.None? then None
               else Some(Peer(n.name.value, n.podCidr.value, publicIp, vtepMac))
  {
    KeysDiffer();
    hide Key;
  }

  /** The hardware address a vxlan node publishes reaches the reader byte for byte. */
  lemma PublishedMacReadBack(n: Node, own: OwnNode, mac: seq<Byte>)
    requires n.name.Some? && ExtractOwnNode(n) == Some(own) && |mac| == 6
    ensures var p := NodeToPeer(Applied(n, PublishPatch(Vxlan, own.publicIp, Some(FormatMac(mac)))), Vxlan);
            && p.Some? && p.value.podCidr == own.podCidr && p.value.publicIp == own.publicIp
            && PeerMac(p.value) == Some(mac)
  {
    PublishRoundTrip(n, Vxlan, own.publicIp, Some(FormatMac(mac)));
    MacRoundTrip(mac);
  }

  predicate UniqueNames(nodes: seq<Node>) {
    forall i, j | 0 <= i < j < |nodes| :: NameOf(nodes[i]) != NameOf(nodes[j])
  }

  /** A node's entry in the desired map: its lease if that is complete, none otherwise. */
  predicate FiledUnder(out: PeerMap, n: Node, backend: Backend) {
    if Complete(n, backend) then n.name.value in out && out[n.name.value] == LeaseOf(n, backend)
    else NameOf(n) !in out
  }

  /** The last node of its name with a complete lease. */
  predicate LastOfName(nodes: seq<Node>, i: nat, backend: Backend) {
    && i < |nodes| && Complete(nodes[i], backend)
    && forall j | i < j < |nodes| :: Complete(nodes[j], backend) ==> nodes[j].name != nodes[i].name
  }

  /** What the i-th node of a list says, if it is the last complete one of its name, is what the map holds. */
  predicate Heard(out: PeerMap, nodes: seq<Node>, i: nat, self: string, backend: Backend) {
    LastOfName(nodes, i, backend) && nodes[i].name.value != self ==>
      nodes[i].name.value in out && out[nodes[i].name.value] == LeaseOf(nodes[i], backend)
  }

  /** Never the node itself, and for each other name what the last complete node of that name says. */
  ghost predicate LastWins(out: PeerMap, nodes: seq<Node>, self: string, backend: Backend) {
    && self !in out
    && (forall i: nat :: Heard(out, nodes, i, self, backend))
    && (forall name | name in out :: exists i: nat :: LastOfName(nodes, i, backend) && nodes[i].name == Some(name))
  }

  function WithNode(out: PeerMap, n: Node, self: string, backend: Backend): PeerMap {
    if Complete(n, backend) && n.name.value != self then out[n.name.value := LeaseOf(n, backend)] else out
  }

  lemma LastOfMore(nodes: seq<Node>, n: Node, backend: Backend)
    ensures forall i: nat | i < |nodes| ::
              LastOfName(nodes + [n], i, backend)
              <==> LastOfName(nodes, i, backend) && !(Complete(n, backend) && n.name == nodes[i].name)
    ensures LastOfName(nodes + [n], |nodes|, backend) <==> Complete(n, backend)
  {
    hide Complete;
    var more := nodes + [n];
    assert more[|nodes|] == n;
    assert forall j | 0 <= j < |nodes| :: more[j] == nodes[j];
  }

  lemma OneMoreNode(out: PeerMap, nodes: seq<Node>, n: Node, self: string, backend: Backend)
    requires LastWins(out, nodes, self, backend)
    ensures LastWins(WithNode(out, n, self, backend), nodes + [n], self, backend)
  {
    var out' := WithNode(out, n, self, backend);
    hide LeaseOf, Complete, Heard;
    forall i: nat
      ensures Heard(out', nodes + [n], i, self, backend)
    {
      assert Heard(out, nodes, i, self, backend);
      HearsOn(out, nodes, n, i, self, backend);
    }
    forall name | name in out'
      ensures exists i: nat :: LastOfName(nodes + [n], i, backend) && (nodes + [n])[i].name == Some(name)
    {
      NameStays(out, nodes, n, self, backend, name);
    }
  }

  lemma HearsOn(out: PeerMap, nodes: seq<Node>, n: Node, i: nat, self: string, backend: Backend)
    requires Heard(out, nodes, i, self, backend)
    ensures Heard(WithNode(out, n, self, backend), nodes + [n], i, self, backend)
  {
    LastOfMore(nodes, n, backend);
    hide LeaseOf;
    if i < |nodes| {
      assert (nodes + [n])[i] == nodes[i];
    } else if i == |nodes| {
      assert (nodes + [n])[i] == n;
    }
  }

  lemma NameStays(out: PeerMap, nodes: seq<Node>, n: Node, self: string, backend: Backend, name: string)
    requires LastWins(out, nodes, self, backend)
    requires name in out || (Complete(n, backend) && n.name.value == name)
    ensures exists i: nat :: LastOfName(nodes + [n], i, backend) && (nodes + [n])[i].name == Some(name)
  {
    LastOfMore(nodes, n, backend);
    var more := nodes + [n];
    if Complete(n, backend) && n.name.value == name {
      assert LastOfName(more, |nodes|, backend) && more[|nodes|].name == Some(name);
    } else {
      hide Complete, LeaseOf;
      var i: nat :| LastOfName(nodes, i, backend) && nodes[i].name == Some(name);
      assert LastOfName(more, i, backend) && more[i].name == Some(name);
    }
  }

  /** In any list of nodes, names repeated or missing, the last complete node of a name wins. */
  lemma {:induction false} DesiredIsLast(nodes: seq<Node>, self: string, backend: Backend)
    ensures LastWins(Desired(nodes, self, backend), nodes, self, backend)
  {
    if nodes != [] {
      var init, last := nodes[..|nodes| - 1], nodes[|nodes| - 1];
      DesiredIsLast(init, self, backend);
      NodeToPeerMeans(last, backend);
      assert nodes == init + [last];
      hide NodeToPeer, LeaseOf, LastWins;
      OneMoreNode(Desired(init, self, backend), init, last, self, backend);
    }
  }

  /** Never the node itself, and each peer, read from some node, under its own name. */
  lemma {:induction false} DesiredKeyed(nodes: seq<Node>, self: string, backend: Backend)
    ensures var out := Desired(nodes, self, backend);
            && self !in out && Keyed(out)
            && forall name | name in out ::
                 exists i ::
                   0 <= i < |nodes| && NameOf(nodes[i]) == name && NodeToPeer(nodes[i], backend) == Some(out[name])
  {
    if nodes != [] {
      var init, last := nodes[..|nodes| - 1], nodes[|nodes| - 1];
      DesiredKeyed(init, self, backend);
      PeerNamed(last, backend);
      hide NodeToPeer;
      var before, out := Desired(init, self, backend), Desired(nodes, self, backend);
      forall name | name in out
        ensures exists i ::
                  0 <= i < |nodes| && NameOf(nodes[i]) == name && NodeToPeer(nodes[i], backend) == Some(out[name])
      {
        if name in before && before[name] == out[name] {
          var i :| 0 <= i < |init| && NameOf(init[i]) == name && NodeToPeer(init[i], backend) == Some(before[name]);
          assert nodes[i] == init[i];
        } else {
          assert nodes[|nodes| - 1] == last;
        }
      }
    }
  }

  /** With unique names the desired map holds exactly the other nodes whose lease is complete. */
  lemma DesiredIsReadableNodes(nodes: seq<Node>, self: string, backend: Backend)
    requires UniqueNames(nodes)
    ensures forall i | 0 <= i < |nodes| && NameOf(nodes[i]) != self ::
              FiledUnder(Desired(nodes, self, backend), nodes[i], backend)
  {
    DesiredIsLast(nodes, self, backend);
    CompleteNamed(backend);
    var out := Desired(nodes, self, backend);
    hide Desired, LeaseOf, Complete;
    forall i | 0 <= i < |nodes| && NameOf(nodes[i]) != self
      ensures FiledUnder(out, nodes[i], backend)
    {
      assert Heard(out, nodes, i, self, backend);
      if k: nat :| NameOf(nodes[i]) in out && LastOfName(nodes, k, backend) && nodes[k].name == Some(NameOf(nodes[i])) {
        assert NameOf(nodes[k]) == NameOf(nodes[i]);
      }
    }
  }

  lemma CompleteNamed(backend: Backend)
    ensures forall n | Complete(n, backend) :: n.name == Some(NameOf(n))
  {
  }

  lemma PeerNamed(n: Node, backend: Backend)
    ensures NodeToPeer(n, backend).Some? ==> n.name == Some(NodeToPeer(n, backend).value.node)
  {
  }
}
