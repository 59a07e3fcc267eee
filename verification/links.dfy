module Wrappers {
  datatype Option<+T> = None | Some(value: T)
}

/** The Link resources of a node, and the link managers' decisions over a snapshot of its kernel. */
module Links {
  import opened Wrappers
  import opened Kernel

  type IPv4 = a: seq<byte> | |a| == 4 witness [0, 0, 0, 0]

  datatype LinkReference = LinkReference(name: string, optional: bool, setDown: bool)

  datatype Spec =
    | BridgeSpec(bridgeMtu: Option<int>)
    | VxlanSpec(vnid: int, remote: IPv4, port: int, sourceStart: int, sourceEnd: int,
                device: Option<LinkReference>, master: Option<LinkReference>, mtu: Option<int>, learning: Option<bool>)
    | UnmanagedSpec
    | UnsupportedSpec

  datatype Link = Link(linkName: string, spec: Spec)

  /** Keyed by resource name; `linkName` is the interface name. */
  type Links = map<string, Link>

  predicate IsManaged(l: Link) { l.spec.BridgeSpec? || l.spec.VxlanSpec? }

  predicate Supported(l: Link) { !l.spec.UnsupportedSpec? }

  function IsLearningEnabled(s: Spec): bool
    requires s.VxlanSpec?
  {
    s.learning.None? || s.learning.value
  }

  function GetDependencies(l: Link): seq<LinkReference> {
    if l.spec.VxlanSpec? then
      (if l.spec.master.Some? then [l.spec.master.value] else []) +
      (if l.spec.device.Some? then [l.spec.device.value] else [])
    else
      []
  }

  // ---------- Addresses ----------

  const V4_IN_V6_PREFIX: seq<byte> := [0, 0, 0, 0, 0, 0, 0, 0, 0, 0, 255, 255]

  /** A textual IPv4 address parses to its 16-byte form. */
  function ParseIP(a: IPv4): seq<byte> { V4_IN_V6_PREFIX + a }

  /** An IPv4 address equals its 16-byte form. */
  predicate IPEqual(a: seq<byte>, b: seq<byte>) {
    if |a| == |b| then a == b
    else if |a| == 4 && |b| == 16 then V4_IN_V6_PREFIX + a == b
    else if |a| == 16 && |b| == 4 then a == V4_IN_V6_PREFIX + b
    else false
  }

  // ---------- References ----------

  function ResolveLinkRef(ref: Option<LinkReference>, links: Links): Option<LinkReference> {
    if ref.None? || !ref.value.optional then ref
    else if ref.value.name !in links then None
    else ref
  }

  function LinkByIndex(ifs: Ifaces, index: nat): (r: Option<string>)
    requires Distinct(ifs)
    ensures r.Some? ==> r.value in ifs && ifs[r.value].index == index
    ensures r.None? ==> forall n :: n in ifs ==> ifs[n].index != index
  {
    if exists n :: n in ifs && ifs[n].index == index then
      var n :| n in ifs && ifs[n].index == index;
      Some(n)
    else
      None
  }

  datatype Check = Needed | NotNeeded | CheckFailed

  function DoesLinkRefNeedUpdate(ifs: Ifaces, ref: Option<LinkReference>, current: nat, links: Links): Check
    requires Distinct(ifs)
  {
    match ResolveLinkRef(ref, links)
    case Some(r) =>
      if current == 0 then Needed
      else (match LinkByIndex(ifs, current)
        case None => Needed
        case Some(referenced) =>
          if r.name !in links then CheckFailed
          else if referenced != links[r.name].linkName then Needed
          else NotNeeded)
    case None =>
      if current != 0 then Needed else NotNeeded
  }

  /** None when the referenced resource or its interface is missing. */
  function GetDesiredReferencedLinkIndex(ifs: Ifaces, ref: Option<LinkReference>, links: Links): Option<nat> {
    match ResolveLinkRef(ref, links)
    case None => Some(0)
    case Some(r) =>
      if r.name in links && links[r.name].linkName in ifs then Some(ifs[links[r.name].linkName].index) else None
  }

  // ---------- The managers' checks ----------

  function IsBridgeUpsertNeeded(ifs: Ifaces, l: Link): Check
    requires l.spec.BridgeSpec?
  {
    if l.linkName !in ifs then Needed
    else
      var i := ifs[l.linkName];
      if !i.kind.Bridge? then Needed
      else if l.spec.bridgeMtu.Some? && i.mtu != l.spec.bridgeMtu.value then Needed
      else if !i.up then Needed
      else NotNeeded
  }

  function IsVxlanUpsertNeeded(ifs: Ifaces, links: Links, l: Link): Check
    requires Distinct(ifs) && l.spec.VxlanSpec?
  {
    if l.linkName !in ifs then Needed
    else
      var i := ifs[l.linkName];
      var s := l.spec;
      if !i.kind.Vxlan? then Needed
      else if s.mtu.Some? && i.mtu != s.mtu.value then Needed
      else
        var master := DoesLinkRefNeedUpdate(ifs, s.master, i.master, links);
        if !master.NotNeeded? then master
        else if !IPEqual(i.group, ParseIP(s.remote)) then Needed
        else if i.vnid != s.vnid then Needed
        else if i.port != s.port then Needed
        else if i.portLow != s.sourceStart || i.portHigh != s.sourceEnd then Needed
        else if i.learning != IsLearningEnabled(s) then Needed
        else
          var device := DoesLinkRefNeedUpdate(ifs, s.device, i.device, links);
          if !device.NotNeeded? then device
          else if !i.up then Needed
          else NotNeeded
  }

  function IsUpsertNeeded(ifs: Ifaces, links: Links, l: Link): Check
    requires Distinct(ifs) && Supported(l)
  {
    match l.spec
    case BridgeSpec(_) => IsBridgeUpsertNeeded(ifs, l)
    case VxlanSpec(_, _, _, _, _, _, _, _, _) => IsVxlanUpsertNeeded(ifs, links, l)
    case UnmanagedSpec => NotNeeded
  }

  /** Whether a VXLAN must be replaced rather than updated. */
  predicate ForceReplaceVxlan(existing: Iface, s: Spec)
    requires s.VxlanSpec?
  {
    || !existing.kind.Vxlan?
    || existing.vnid != s.vnid
    || existing.portLow != s.sourceStart || existing.portHigh != s.sourceEnd
    || existing.port != s.port
    || (|existing.group| != 4 && |existing.group| != 0)
  }

  predicate ForceReplace(existing: Iface, l: Link)
    requires IsManaged(l)
  {
    if l.spec.BridgeSpec? then !existing.kind.Bridge? else ForceReplaceVxlan(existing, l.spec)
  }

  // ---------- The desired state, stated independently of the checks ----------

  /** `index` is the interface the reference asks for: none if unset or optional and absent, else the named one. */
  ghost predicate RefMet(ifs: Ifaces, ref: Option<LinkReference>, index: nat, links: Links) {
    if ref.None? || (ref.value.optional && ref.value.name !in links) then
      index == 0
    else
      ref.value.name in links &&
      var target := links[ref.value.name].linkName;
      target in ifs && index == ifs[target].index
  }

  ghost predicate Desired(ifs: Ifaces, links: Links, l: Link) {
    IsManaged(l) ==>
      l.linkName in ifs &&
      var i := ifs[l.linkName];
      i.up &&
      match l.spec
      case BridgeSpec(mtu) => i.kind == Kind.Bridge && (mtu.None? || i.mtu == mtu.value)
      case VxlanSpec(vnid, remote, port, start, end, device, master, mtu, learning) =>
        && i.kind == Kind.Vxlan
        && (mtu.None? || i.mtu == mtu.value)
        && (i.vnid, i.port, i.portLow, i.portHigh) == (vnid, port, start, end)
        && (i.group == remote || i.group == ParseIP(remote))
        && i.learning == (learning != Some(false))
        && RefMet(ifs, device, i.device, links)
        && RefMet(ifs, master, i.master, links)
      case _ => true
  }

  lemma IPEqualMeaning(group: seq<byte>, a: IPv4)
    ensures IPEqual(group, ParseIP(a)) <==> group == a || group == ParseIP(a)
  {
    if |group| == 4 && IPEqual(group, ParseIP(a)) {
      assert (V4_IN_V6_PREFIX + group)[12..] == group && (V4_IN_V6_PREFIX + a)[12..] == a;
    }
  }

  lemma RefCheckMeaning(net: Net, ref: Option<LinkReference>, current: nat, links: Links)
    requires net.Wf()
    ensures DoesLinkRefNeedUpdate(net.ifaces, ref, current, links).NotNeeded? <==>
      RefMet(net.ifaces, ref, current, links)
  {
  }

  /** The check asks for nothing exactly when the interface is in its desired state. */
  lemma CheckMeansDesired(net: Net, links: Links, l: Link)
    requires net.Wf() && Supported(l)
    ensures IsUpsertNeeded(net.ifaces, links, l).NotNeeded? <==> Desired(net.ifaces, links, l)
  {
    if l.spec.VxlanSpec? && l.linkName in net.ifaces {
      var i := net.ifaces[l.linkName];
      IPEqualMeaning(i.group, l.spec.remote);
      RefCheckMeaning(net, l.spec.master, i.master, links);
      RefCheckMeaning(net, l.spec.device, i.device, links);
    }
  }

  /** The replace predicate contradicts a satisfied check exactly for a VXLAN whose group is kept in 16 bytes. */
  lemma CheckAndReplaceAgreeIff(net: Net, links: Links, l: Link)
    requires net.Wf() && IsManaged(l) && IsUpsertNeeded(net.ifaces, links, l).NotNeeded?
    ensures l.linkName in net.ifaces
    ensures ForceReplace(net.ifaces[l.linkName], l) <==> l.spec.VxlanSpec? && |net.ifaces[l.linkName].group| == 16
  {
    CheckMeansDesired(net, links, l);
  }

  /** ... and such a VXLAN exists: the check is satisfied, yet an upsert would replace the interface. */
  lemma CheckAndReplaceCanDisagree() returns (net: Net, links: Links, l: Link)
    ensures net.Wf() && l.spec.VxlanSpec? && l.linkName in net.ifaces
    ensures IsUpsertNeeded(net.ifaces, links, l).NotNeeded?
    ensures ForceReplace(net.ifaces[l.linkName], l)
  {
    var remote: IPv4 := [10, 0, 0, 1];
    l := Link("vx0", VxlanSpec(1, remote, 4789, 4789, 4789, None, None, None, None));
    links := map["a" := l];
    var i := Iface(1, Kind.Vxlan, true, 1500, 0, 0, 1, 4789, 4789, 4789, ParseIP(remote), true);
    net := Net(map["vx0" := i], 2);
    CheckMeansDesired(net, links, l);
  }
}
