/** The link managers: bringing one interface to its desired state, one netlink call at a time. */
module Managers {
  import opened Wrappers
  import opened Kernel
  import opened Netlink
  import opened Links

  /** What an upsert of `name` may do to the kernel, however far it gets. */
  twostate predicate ActsOn(k: Netlink, name: string)
    reads k
  {
    && k.Valid()
    && Touched(old(k.net), k.net, name)
    && k.owned <= old(k.owned) + {name}
    && old(k.targets) <= k.targets <= old(k.targets) + {name}
    && old(k.faults) <= k.faults
    && old(k.seen) == k.seen
  }

  method BasicUpsertWithCheck(k: Netlink, name: string, desired: Iface, shouldForceReplace: Iface -> bool)
    returns (r: Option<Iface>)
    requires k.Valid()
    requires name in k.net.ifaces && !shouldForceReplace(k.net.ifaces[name]) ==> k.net.ifaces[name].kind == desired.kind
    modifies k
    ensures ActsOn(k, name)
    ensures r.None? ==> k.faults > old(k.faults) || (name !in k.net.ifaces && Collides(k.net.ifaces, desired))
    ensures r.None? && name in k.net.ifaces ==> k.net == old(k.net) || Pristine(k.net.ifaces[name], desired)
    ensures r.Some? ==> name in k.net.ifaces && r.value == k.net.ifaces[name]
    ensures name in old(k.net.ifaces) && !shouldForceReplace(old(k.net.ifaces)[name]) ==> k.net == old(k.net)
    ensures r.Some? && !(name in old(k.net.ifaces) && !shouldForceReplace(old(k.net.ifaces)[name])) ==>
      Rebuilt(old(k.net), k.net, name) && r.value == New(desired, old(k.net.next), r.value.mtu)
  {
    ghost var before := k.net;
    var retrieved := k.LinkByName(name);
    if retrieved.LookupFailed? { return None; }
    if retrieved.Found? {
      if !shouldForceReplace(retrieved.link) { return Some(retrieved.link); }
      var deleted := k.LinkDel(name);
      if !deleted { return None; }
    } else {
      DeleteAbsent(k.net, {name});
    }
    assert k.net == Delete(before, {name});
    var added := k.LinkAdd(name, desired);
    if added.AddFailed? { return None; }
    retrieved := k.LinkByName(name);
    if !retrieved.Found? || retrieved.link.kind != desired.kind { return None; }
    r := Some(retrieved.link);
  }

  /** As created: down, and without a group. */
  ghost predicate IsNew(i: Iface) {
    !i.up && i.group == []
  }

  ghost predicate Pristine(i: Iface, desired: Iface) {
    IsNew(i) && i.kind == desired.kind && i.vnid == desired.vnid
  }

  /** A VXLAN of the link's name has the VNID it had before, or the one that the link asks for. */
  ghost predicate VnidFrom(a: Net, b: Net, l: Link) {
    var name := l.linkName;
    name in b.ifaces && b.ifaces[name].kind.Vxlan? ==>
      || (name in a.ifaces && a.ifaces[name].kind.Vxlan? && a.ifaces[name].vnid == b.ifaces[name].vnid)
      || (l.spec.VxlanSpec? && b.ifaces[name].vnid == l.spec.vnid)
  }

  /** No VXLAN of the link's name has another VNID than the one that the link asks for. */
  ghost predicate Settled(ifs: Ifaces, l: Link) {
    l.linkName in ifs && ifs[l.linkName].kind.Vxlan? ==> l.spec.VxlanSpec? && ifs[l.linkName].vnid == l.spec.vnid
  }

  /**
   * The order of the writes: the interface comes up last, so a failed upsert brings nothing up; and the group is
   * written once the device is right, as the kernel joins a multicast group on the device.
   */
  ghost predicate Orderly(a: Net, b: Net, links: Links, l: Link, ok: bool) {
    l.linkName in b.ifaces ==>
      var i := b.ifaces[l.linkName];
      && (!ok && i.up ==> l.linkName in a.ifaces && a.ifaces[l.linkName].up)
      && (l.spec.VxlanSpec? && i.group != [] && !(l.linkName in a.ifaces && a.ifaces[l.linkName].group == i.group)
          ==> RefMet(b.ifaces, l.spec.device, i.device, links))
  }

  /** An upsert keeps the interface and its index if it can; else, once it succeeds, there is a new one. */
  ghost predicate Updated(a: Net, b: Net, l: Link, ok: bool)
    requires IsManaged(l)
  {
    var keep := l.linkName in a.ifaces && !ForceReplace(a.ifaces[l.linkName], l);
    && (keep ==> InPlace(a, b, l.linkName))
    && (ok && !keep ==> Rebuilt(a, b, l.linkName))
    && VnidFrom(a, b, l)
  }

  /** `base` with the interface `name` replaced by `i`. */
  ghost function With(base: Net, name: string, i: Iface): Net {
    base.(ifaces := base.ifaces[name := i])
  }

  /** So far an upsert has only turned the interface `name` of `base` into `i`. */
  ghost predicate Turned(k: Netlink, base: Net, name: string, i: Iface)
    reads k
  {
    && k.net == With(base, name, i)
    && k.owned <= base.ifaces.Keys
    && base.Wf() && name in base.ifaces && i.index == base.ifaces[name].index
    && i.kind == base.ifaces[name].kind && i.vnid == base.ifaces[name].vnid
    && i.master < base.next && i.device < base.next
  }

  lemma TurnedIsValid(k: Netlink, base: Net, name: string, i: Iface)
    requires Turned(k, base, name, i)
    ensures k.Valid()
  {
  }

  method SetField(k: Netlink, name: string, f: Field, ghost base: Net, ghost i: Iface)
    returns (ok: bool, ghost j: Iface)
    requires Turned(k, base, name, i)
    requires f.Master? ==> f.master < base.next
    requires f.Device? ==> f.device < base.next
    modifies k`net, k`targets, k`faults, k`writes
    ensures k.targets == old(k.targets) + {name}
    ensures k.faults >= old(k.faults) && (ok <==> k.faults == old(k.faults))
    ensures j == if ok then Write(i, f) else i
    ensures Turned(k, base, name, j)
  {
    TurnedIsValid(k, base, name, i);
    ok := k.Set(name, f);
    j := if ok then Write(i, f) else i;
    assert k.net.ifaces == With(base, name, j).ifaces;
  }

  /** The interface a reference asks for does not exist. */
  ghost predicate Dangles(ifs: Ifaces, ref: Option<LinkReference>, links: Links) {
    && ref.Some?
    && (ref.value.name in links ==> links[ref.value.name].linkName !in ifs)
    && !(ref.value.optional && ref.value.name !in links)
  }

  ghost predicate SomeReferenceDangles(ifs: Ifaces, links: Links, l: Link) {
    l.spec.VxlanSpec? && (Dangles(ifs, l.spec.device, links) || Dangles(ifs, l.spec.master, links))
  }

  /** Another VXLAN has the VNID that the link asks for, so its interface cannot be created. */
  ghost predicate VnidInUse(ifs: Ifaces, l: Link) {
    && l.spec.VxlanSpec? && l.linkName !in ifs
    && exists m :: m in ifs && ifs[m].kind.Vxlan? && ifs[m].vnid == l.spec.vnid
  }

  /** What makes an upsert fail although no call fails. */
  ghost predicate Hindered(ifs: Ifaces, links: Links, l: Link) {
    SomeReferenceDangles(ifs, links, l) || VnidInUse(ifs, l)
  }

  /** The index a reference field with value `current` should hold; None if it cannot be determined. */
  method DesiredIndex(k: Netlink, links: Links, ref: Option<LinkReference>, current: nat) returns (r: Option<nat>)
    requires k.Valid() && current < k.net.next
    modifies k`faults
    ensures k.faults >= old(k.faults)
    ensures r.None? && k.faults == old(k.faults) ==> Dangles(k.net.ifaces, ref, links)
    ensures r.Some? ==> RefMet(k.net.ifaces, ref, r.value, links) && r.value < k.net.next
    ensures r.Some? && RefMet(k.net.ifaces, ref, current, links) ==> r.value == current
  {
    RefCheckMeaning(k.net, ref, current, links);
    var fails := k.Fails();
    var check := if fails then CheckFailed else DoesLinkRefNeedUpdate(k.net.ifaces, ref, current, links);
    if check.CheckFailed? { return None; }
    if check.NotNeeded? { return Some(current); }
    fails := k.Fails();
    r := if fails then None else GetDesiredReferencedLinkIndex(k.net.ifaces, ref, links);
  }

  lemma RefMetWith(base: Net, name: string, i: Iface, ref: Option<LinkReference>, index: nat, links: Links)
    requires name in base.ifaces && i.index == base.ifaces[name].index
    ensures RefMet(With(base, name, i).ifaces, ref, index, links) <==> RefMet(base.ifaces, ref, index, links)
  {
  }

  lemma UpdatedWith(start: Net, base: Net, name: string, i: Iface)
    requires name in base.ifaces && i.index == base.ifaces[name].index
    requires i.kind == base.ifaces[name].kind && i.vnid == base.ifaces[name].vnid
    ensures With(base, name, base.ifaces[name]) == base
    ensures base == start ==> InPlace(start, With(base, name, i), name)
    ensures Rebuilt(start, base, name) ==> Rebuilt(start, With(base, name, i), name)
  {
    assert With(base, name, base.ifaces[name]).ifaces == base.ifaces;
    if Rebuilt(start, base, name) {
      assert With(base, name, i).ifaces == Delete(start, {name}).ifaces[name := i];
    }
  }

  lemma OrderlyTurned(start: Net, base: Net, links: Links, l: Link, i: Iface, ok: bool)
    requires l.linkName in base.ifaces && (base == start || IsNew(base.ifaces[l.linkName]))
    requires !ok && i.up ==> base.ifaces[l.linkName].up
    requires l.spec.VxlanSpec? && i.group != base.ifaces[l.linkName].group ==>
      RefMet(With(base, l.linkName, i).ifaces, l.spec.device, i.device, links)
    ensures Orderly(start, With(base, l.linkName, i), links, l, ok)
  {
  }

  method UpsertBridge(k: Netlink, links: Links, l: Link) returns (ok: bool)
    requires k.Valid() && l.spec.BridgeSpec?
    modifies k
    ensures ActsOn(k, l.linkName)
    ensures ok ==> Desired(k.net.ifaces, links, l)
    ensures Updated(old(k.net), k.net, l, ok) && Orderly(old(k.net), k.net, links, l, ok)
    ensures !ok ==> k.faults > old(k.faults)
    ensures k.faults == old(k.faults) ==> Settled(k.net.ifaces, l)
    ensures Desired(old(k.net.ifaces), links, l) ==> k.net == old(k.net)
  {
    ghost var start := k.net;
    var name := l.linkName;
    var like := Iface(0, Kind.Bridge, false, 0, 0, 0, 0, 0, 0, 0, [], false);
    var link := BasicUpsertWithCheck(k, name, like, (i: Iface) => !i.kind.Bridge?);
    if link.None? { return false; }
    var bridge := link.value;
    ghost var base, i := k.net, bridge;
    UpdatedWith(start, base, name, i);
    ok := true;
    if l.spec.bridgeMtu.Some? && bridge.mtu != l.spec.bridgeMtu.value {
      ok, i := SetField(k, name, Mtu(l.spec.bridgeMtu.value), base, i);
    }
    if ok {
      ok, i := SetField(k, name, Up(true), base, i);
    }
    TurnedIsValid(k, base, name, i);
    UpdatedWith(start, base, name, i);
    OrderlyTurned(start, base, links, l, i, ok);
  }

  function Ref(i: Iface, isDevice: bool): nat {
    if isDevice then i.device else i.master
  }

  /** Points one reference field at what `ref` asks for, unless it already does. */
  method SetReference(k: Netlink, links: Links, name: string, ref: Option<LinkReference>, isDevice: bool,
                      ghost base: Net, ghost i: Iface)
    returns (ok: bool, ghost j: Iface)
    requires Turned(k, base, name, i)
    modifies k`net, k`targets, k`faults, k`writes
    ensures old(k.targets) <= k.targets <= old(k.targets) + {name}
    ensures Turned(k, base, name, j)
    ensures j == if isDevice then i.(device := j.device) else i.(master := j.master)
    ensures ok ==> RefMet(base.ifaces, ref, Ref(j, isDevice), links)
    ensures RefMet(base.ifaces, ref, Ref(i, isDevice), links) ==> j == i
    ensures k.faults >= old(k.faults)
    ensures !ok && k.faults == old(k.faults) ==> Dangles(base.ifaces, ref, links)
  {
    j := i;
    TurnedIsValid(k, base, name, i);
    var link := k.net.ifaces[name];
    var current := Ref(link, isDevice);
    RefMetWith(base, name, i, ref, current, links);
    var index := DesiredIndex(k, links, ref, current);
    if index.None? { return false, j; }
    RefMetWith(base, name, i, ref, index.value, links);
    ok := true;
    if index.value != current {
      ok, j := SetField(k, name, if isDevice then Device(index.value) else Master(index.value), base, i);
    }
  }

  /** The VXLAN with the parameters that the setters, other than those of references, write. */
  function Configured(vxlan: Iface, s: Spec): Iface
    requires s.VxlanSpec?
  {
    vxlan.(mtu := if s.mtu.Some? then s.mtu.value else vxlan.mtu,
           group := if IPEqual(vxlan.group, ParseIP(s.remote)) then vxlan.group else s.remote,
           learning := IsLearningEnabled(s))
  }

  /** The group and learning writes; `i` still has the group and learning that the upsert found. */
  method ConfigureForwarding(k: Netlink, name: string, s: Spec, vxlan: Iface, ghost base: Net, ghost i: Iface)
    returns (ok: bool, ghost j: Iface)
    requires s.VxlanSpec? && Turned(k, base, name, i)
    requires i.group == vxlan.group && i.learning == vxlan.learning
    modifies k`net, k`targets, k`faults, k`writes
    ensures old(k.targets) <= k.targets <= old(k.targets) + {name}
    ensures Turned(k, base, name, j)
    ensures j == i.(group := j.group, learning := j.learning)
    ensures ok ==> j.group == Configured(vxlan, s).group && j.learning == IsLearningEnabled(s)
    ensures IPEqual(vxlan.group, ParseIP(s.remote)) && vxlan.learning == IsLearningEnabled(s) ==> j == i
    ensures k.faults >= old(k.faults) && (ok <==> k.faults == old(k.faults))
  {
    ok, j := true, i;
    if !IPEqual(vxlan.group, ParseIP(s.remote)) {
      ok, j := SetField(k, name, Group(s.remote), base, j);
    }
    if ok && vxlan.learning != IsLearningEnabled(s) {
      ok, j := SetField(k, name, Learning(IsLearningEnabled(s)), base, j);
    }
  }

  /** The setter calls of a VXLAN upsert up to its master, in order; each is made only if those before it succeeded. */
  method ConfigureTunnel(k: Netlink, links: Links, name: string, s: Spec, ghost base: Net, vxlan: Iface)
    returns (ok: bool, ghost j: Iface)
    requires s.VxlanSpec? && Turned(k, base, name, vxlan)
    modifies k`net, k`targets, k`faults, k`writes
    ensures old(k.targets) <= k.targets <= old(k.targets) + {name}
    ensures Turned(k, base, name, j)
    ensures ok ==> RefMet(base.ifaces, s.device, j.device, links) && j == Configured(vxlan, s).(device := j.device)
    ensures RefMet(base.ifaces, s.device, vxlan.device, links) && Configured(vxlan, s) == vxlan ==> j == vxlan
    ensures j.master == vxlan.master && j.up == vxlan.up
    ensures j.group != vxlan.group ==> RefMet(base.ifaces, s.device, j.device, links)
    ensures k.faults >= old(k.faults)
    ensures !ok && k.faults == old(k.faults) ==> Dangles(base.ifaces, s.device, links)
  {
    j := vxlan;
    ok := true;
    if s.mtu.Some? && vxlan.mtu != s.mtu.value {
      ok, j := SetField(k, name, Mtu(s.mtu.value), base, j);
    }
    if ok {
      ok, j := SetReference(k, links, name, s.device, true, base, j);
    }
    // Only now: the kernel joins a multicast group on the device.
    if ok {
      ok, j := ConfigureForwarding(k, name, s, vxlan, base, j);
    }
  }

  /** How far the setter calls took the interface from `vxlan`. */
  ghost predicate SetUp(base: Net, links: Links, s: Spec, vxlan: Iface, j: Iface, ok: bool)
    requires s.VxlanSpec?
  {
    && (ok ==> RefMet(base.ifaces, s.device, j.device, links) && RefMet(base.ifaces, s.master, j.master, links))
    && (ok ==> j == Configured(vxlan, s).(up := true, device := j.device, master := j.master))
    && (!ok ==> j.up == vxlan.up)
    && (j.group != vxlan.group ==> RefMet(base.ifaces, s.device, j.device, links))
    && (IsSetUp(base, links, s, vxlan) ==> j == vxlan)
  }

  ghost predicate IsSetUp(base: Net, links: Links, s: Spec, vxlan: Iface)
    requires s.VxlanSpec?
  {
    && RefMet(base.ifaces, s.device, vxlan.device, links)
    && RefMet(base.ifaces, s.master, vxlan.master, links)
    && Configured(vxlan, s) == vxlan && vxlan.up
  }

  /** The rest of them. */
  method ConfigureVxlan(k: Netlink, links: Links, name: string, s: Spec, ghost base: Net, vxlan: Iface)
    returns (ok: bool, ghost j: Iface)
    requires s.VxlanSpec? && Turned(k, base, name, vxlan)
    modifies k`net, k`targets, k`faults, k`writes
    ensures old(k.targets) <= k.targets <= old(k.targets) + {name}
    ensures Turned(k, base, name, j)
    ensures SetUp(base, links, s, vxlan, j, ok)
    ensures k.faults >= old(k.faults)
    ensures !ok && k.faults == old(k.faults) ==>
      Dangles(base.ifaces, s.device, links) || Dangles(base.ifaces, s.master, links)
  {
    ok, j := ConfigureTunnel(k, links, name, s, base, vxlan);
    if ok {
      ok, j := SetReference(k, links, name, s.master, false, base, j);
    }
    if ok {
      ok, j := SetField(k, name, Up(true), base, j);
    }
  }

  function NewVxlan(s: Spec): Iface
    requires s.VxlanSpec?
  {
    Iface(0, Kind.Vxlan, false, 0, 0, 0, s.vnid, s.port, s.sourceStart, s.sourceEnd, [], IsLearningEnabled(s))
  }

  /** The VXLAN was kept or replaced, and then set up as far as the calls succeeded. */
  lemma VxlanUpserted(start: Net, base: Net, links: Links, l: Link, vxlan: Iface, i: Iface, ok: bool)
    requires l.spec.VxlanSpec? && start.Wf() && l.linkName in base.ifaces && base.ifaces[l.linkName] == vxlan
    requires
      if l.linkName in start.ifaces && !ForceReplace(start.ifaces[l.linkName], l) then base == start
      else Rebuilt(start, base, l.linkName) && vxlan == New(NewVxlan(l.spec), start.next, vxlan.mtu)
    requires i.index == vxlan.index && i.kind == vxlan.kind && i.vnid == vxlan.vnid
    requires SetUp(base, links, l.spec, vxlan, i, ok)
    ensures var net := With(base, l.linkName, i);
      && (ok ==> Desired(net.ifaces, links, l) && |net.ifaces[l.linkName].group| == 4)
      && Updated(start, net, l, ok) && Orderly(start, net, links, l, ok)
      && (Desired(start.ifaces, links, l) && |start.ifaces[l.linkName].group| == 4 ==> net == start)
  {
    var name, s := l.linkName, l.spec;
    UpdatedWith(start, base, name, i);
    IPEqualMeaning(vxlan.group, s.remote);
    RefMetWith(base, name, i, s.device, i.device, links);
    RefMetWith(base, name, i, s.master, i.master, links);
    OrderlyTurned(start, base, links, l, i, ok);
  }

  method UpsertVxlan(k: Netlink, links: Links, l: Link) returns (ok: bool)
    requires k.Valid() && l.spec.VxlanSpec?
    modifies k
    ensures ActsOn(k, l.linkName)
    ensures ok ==> Desired(k.net.ifaces, links, l) && |k.net.ifaces[l.linkName].group| == 4
    ensures Updated(old(k.net), k.net, l, ok) && Orderly(old(k.net), k.net, links, l, ok)
    ensures !ok && k.faults == old(k.faults) ==> Hindered(k.net.ifaces, links, l)
    ensures k.faults == old(k.faults) ==> Settled(k.net.ifaces, l)
    ensures Desired(old(k.net.ifaces), links, l) && |old(k.net.ifaces)[l.linkName].group| == 4 ==> k.net == old(k.net)
  {
    ghost var start := k.net;
    var name, s := l.linkName, l.spec;
    var link := BasicUpsertWithCheck(k, name, NewVxlan(s), (i: Iface) => ForceReplaceVxlan(i, s));
    if link.None? { return false; }
    ghost var base, i := k.net, link.value;
    UpdatedWith(start, base, name, i);
    ok, i := ConfigureVxlan(k, links, name, s, base, link.value);
    TurnedIsValid(k, base, name, i);
    UpdatedWith(start, base, name, i);
    RefMetWith(base, name, i, s.device, i.device, links);
    RefMetWith(base, name, i, s.master, i.master, links);
    VxlanUpserted(start, base, links, l, link.value, i, ok);
  }

  /** The check may fail to read the kernel; else it is the check on what is there. An unmanaged link is not read. */
  method CheckUpsertNeeded(k: Netlink, links: Links, l: Link) returns (c: Check)
    requires k.Valid() && Supported(l)
    modifies k`faults, k`seen
    ensures k.faults >= old(k.faults)
    ensures !IsManaged(l) ==> k.faults == old(k.faults)
    ensures k.seen == old(k.seen) + if IsManaged(l) && k.faults == old(k.faults) then {l.linkName} else {}
    ensures c == if k.faults > old(k.faults) then CheckFailed else IsUpsertNeeded(k.net.ifaces, links, l)
  {
    if !IsManaged(l) { return NotNeeded; }
    var fails := k.Fails();
    if fails { return CheckFailed; }
    k.seen := k.seen + {l.linkName};
    c := IsUpsertNeeded(k.net.ifaces, links, l);
  }

  method Upsert(k: Netlink, links: Links, l: Link) returns (ok: bool)
    requires k.Valid() && IsManaged(l)
    modifies k
    ensures ActsOn(k, l.linkName)
    ensures ok ==> IsUpsertNeeded(k.net.ifaces, links, l).NotNeeded?
    ensures Updated(old(k.net), k.net, l, ok) && Orderly(old(k.net), k.net, links, l, ok)
    ensures !ok && k.faults == old(k.faults) ==> Hindered(k.net.ifaces, links, l)
    // An interface with the VNID of another link is at least out of the way.
    ensures k.faults == old(k.faults) ==> Settled(k.net.ifaces, l)
    ensures
      && IsUpsertNeeded(old(k.net.ifaces), links, l).NotNeeded?
      && (l.spec.VxlanSpec? ==> |old(k.net.ifaces)[l.linkName].group| == 4)
      ==> k.net == old(k.net)
    // ... and only then.
    ensures ok && IsUpsertNeeded(old(k.net.ifaces), links, l).NotNeeded? ==>
      (k.net == old(k.net) <==> (l.spec.VxlanSpec? ==> |old(k.net.ifaces)[l.linkName].group| == 4))
  {
    CheckMeansDesired(k.net, links, l);
    if IsUpsertNeeded(k.net.ifaces, links, l).NotNeeded? {
      CheckAndReplaceAgreeIff(k.net, links, l);
    }
    if l.spec.BridgeSpec? {
      ok := UpsertBridge(k, links, l);
    } else {
      ok := UpsertVxlan(k, links, l);
    }
    CheckMeansDesired(k.net, links, l);
  }
}
