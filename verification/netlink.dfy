/** The netlink operations the operator uses. Every one of them may fail, and then changes nothing. */
module Netlink {
  import opened Kernel

  datatype Lookup = Found(link: Iface) | Absent | LookupFailed
  datatype AddResult = Created | AlreadyExists | AddFailed

  /** Another VXLAN has the VNID already. */
  predicate Collides(ifs: Ifaces, like: Iface) {
    like.kind.Vxlan? && exists m :: m in ifs && ifs[m].kind.Vxlan? && ifs[m].vnid == like.vnid
  }

  /** `name` keeps its index, kind and VNID, and no other interface changes. */
  ghost predicate InPlace(a: Net, b: Net, name: string) {
    && a.next == b.next
    && name in a.ifaces && name in b.ifaces
    && b.ifaces[name].index == a.ifaces[name].index
    && b.ifaces[name].kind == a.ifaces[name].kind && b.ifaces[name].vnid == a.ifaces[name].vnid
    && b.ifaces == a.ifaces[name := b.ifaces[name]]
  }

  /** `name` is a new interface, and the others are as deleting the old one leaves them. */
  ghost predicate Rebuilt(a: Net, b: Net, name: string) {
    && b.next == a.next + 1
    && name in b.ifaces && b.ifaces[name].index == a.next
    && b.ifaces == Delete(a, {name}).ifaces[name := b.ifaces[name]]
  }

  /**
   * The other interfaces a rebuild touches are exactly those that rode on the old one or were enslaved to a lost one.
   */
  lemma RebuildTouchesExactlyRiders(a: Net, b: Net, name: string, m: string)
    requires a.Wf() && Rebuilt(a, b, name) && m != name && m in a.ifaces
    ensures m !in b.ifaces <==> m in Doomed(a.ifaces, {name})
    ensures m in b.ifaces ==>
      (b.ifaces[m] != a.ifaces[m] <==> a.ifaces[m].master in Indices(a.ifaces, Doomed(a.ifaces, {name})))
  {
    assert b.ifaces.Keys == Delete(a, {name}).ifaces.Keys + {name};
  }

  class Netlink {
    var net: Net
    /** Interfaces the operator created and has neither deleted nor handed over. */
    ghost var owned: set<string>
    /** Names the operator ever set down, updated, created or deleted. */
    ghost var targets: set<string>
    /** How many calls have failed for reasons of their own. */
    ghost var faults: nat
    /** How many calls have asked for a change. */
    ghost var writes: nat
    /** Names whose interface was compared with what its link asks for. */
    ghost var seen: set<string>

    ghost predicate Valid() reads this {
      net.Wf() && owned <= net.ifaces.Keys
    }

    constructor (net: Net)
      requires net.Wf()
      ensures Valid() && this.net == net && owned == targets == seen == {} && faults == writes == 0
    {
      this.net := net;
      owned, targets, seen, faults, writes := {}, {}, {}, 0, 0;
    }

    /** Anything that others do to the kernel, which may cost the operator some of its interfaces. */
    method Disturb()
      requires Valid()
      modifies this`net, this`owned
      ensures Valid() && owned <= old(owned)
    {
      var other: Net := *;
      if other.Wf() {
        ghost var lost: set<string> := *;
        net := other;
        owned := (owned - lost) * net.ifaces.Keys;
      }
    }

    /** Whether the call being made fails. */
    method Fails() returns (fails: bool)
      modifies this`faults
      ensures faults == old(faults) + if fails then 1 else 0
    {
      fails := *;
      faults := faults + if fails then 1 else 0;
    }

    method LinkByName(name: string) returns (r: Lookup)
      modifies this`faults
      ensures r ==
        if faults > old(faults) then LookupFailed else if name in net.ifaces then Found(net.ifaces[name]) else Absent
      ensures faults >= old(faults)
    {
      var fails := Fails();
      r := if fails then LookupFailed else if name in net.ifaces then Found(net.ifaces[name]) else Absent;
    }

    method Set(name: string, f: Field) returns (ok: bool)
      requires Valid()
      requires f.Master? ==> f.master < net.next
      requires f.Device? ==> f.device < net.next
      modifies this`net, this`targets, this`faults, this`writes
      ensures Valid() && targets == old(targets) + {name} && writes == old(writes) + 1
      ensures faults >= old(faults) && (ok <==> name in old(net.ifaces) && faults == old(faults))
      ensures ok ==> net == old(net).(ifaces := old(net.ifaces)[name := Write(old(net.ifaces)[name], f)])
      ensures !ok ==> net == old(net)
    {
      targets, writes := targets + {name}, writes + 1;
      var fails := Fails();
      if fails || name !in net.ifaces { return false; }
      net := net.(ifaces := net.ifaces[name := Write(net.ifaces[name], f)]);
      ok := true;
    }

    /** A new interface is down and refers to nothing; `like` gives its kind and VXLAN parameters. */
    method LinkAdd(name: string, like: Iface) returns (r: AddResult)
      requires Valid()
      modifies this`net, this`owned, this`targets, this`faults, this`writes
      ensures Valid() && targets == old(targets) + {name} && writes == old(writes) + 1
      ensures faults >= old(faults) && (r.AddFailed? <==> faults > old(faults))
      ensures r.Created? <==> name !in old(net.ifaces) && !Collides(old(net.ifaces), like) && faults == old(faults)
      ensures r.Created? ==> name in net.ifaces && owned == old(owned) + {name}
      ensures r.Created? ==> net.next == old(net.next) + 1
      ensures r.Created? ==> net.ifaces == old(net.ifaces)[name := New(like, old(net.next), net.ifaces[name].mtu)]
      ensures !r.Created? ==> net == old(net) && owned == old(owned)
    {
      targets, writes := targets + {name}, writes + 1;
      var fails := Fails();
      if fails { return AddFailed; }
      if name in net.ifaces || Collides(net.ifaces, like) { return AlreadyExists; }
      var defaultMtu: int := *;
      net := Net(net.ifaces[name := New(like, net.next, defaultMtu)], net.next + 1);
      owned := owned + {name};
      r := Created;
    }

    method LinkDel(name: string) returns (ok: bool)
      requires Valid()
      modifies this`net, this`owned, this`targets, this`faults, this`writes
      ensures Valid() && targets == old(targets) + {name} && writes == old(writes) + 1
      ensures faults >= old(faults) && (ok <==> name in old(net.ifaces) && faults == old(faults))
      ensures ok ==> net == Delete(old(net), {name}) && owned == old(owned) - Doomed(old(net.ifaces), {name})
      ensures !ok ==> net == old(net) && owned == old(owned)
    {
      targets, writes := targets + {name}, writes + 1;
      var fails := Fails();
      if fails || name !in net.ifaces { return false; }
      ghost var gone := Doomed(net.ifaces, {name});
      net := Delete(net, {name});
      owned := owned - gone;
      ok := true;
    }
  }

  function New(like: Iface, index: nat, mtu: int): Iface {
    like.(index := index, up := false, mtu := mtu, master := 0, device := 0, group := [])
  }

  // ---------- What acting on the names of `t` alone leaves alone ----------

  ghost predicate SameButMaster(i: Iface, j: Iface) {
    j == i || j == i.(master := 0)
  }

  /** The interfaces of `s` are unchanged, but may have lost a master outside `s`. */
  ghost predicate Spared(a: Net, b: Net, s: set<string>) {
    forall m :: m in s ==>
      && (m in a.ifaces <==> m in b.ifaces)
      && (m in a.ifaces ==>
           && SameButMaster(a.ifaces[m], b.ifaces[m])
           && (a.ifaces[m].master in Indices(a.ifaces, s) ==> b.ifaces[m] == a.ifaces[m]))
  }

  /** Going from `a` to `b`, the operator acted on names of `t` only. */
  ghost predicate Keeps(a: Net, b: Net, t: set<string>) {
    && a.next <= b.next
    && (forall m :: m in b.ifaces && m !in t ==> m in a.ifaces && SameButMaster(a.ifaces[m], b.ifaces[m]))
    && (forall s :: Closed(a.ifaces, s) && s !! t ==> Closed(b.ifaces, s) && Spared(a, b, s))
  }

  lemma KeepsNothing(a: Net, t: set<string>)
    ensures Keeps(a, a, t)
  {
  }

  lemma KeepsAdd(a: Net, b: Net, name: string)
    requires a.Wf() && name !in a.ifaces
    requires b.next == a.next + 1 && name in b.ifaces && b.ifaces == a.ifaces[name := b.ifaces[name]]
    requires b.ifaces[name].index == a.next
    ensures Keeps(a, b, {name})
  {
  }

  lemma KeepsDelete(a: Net, names: set<string>)
    requires a.Wf()
    ensures Keeps(a, Delete(a, names), names)
  {
    var b := Delete(a, names);
    var gone := Doomed(a.ifaces, names);
    forall s | Closed(a.ifaces, s) && s !! names ensures Closed(b.ifaces, s) && Spared(a, b, s) {
      ClosedIsSpared(a.ifaces, s, names);
      assert Indices(a.ifaces, s) !! Indices(a.ifaces, gone);
    }
  }

  lemma SparedTransitive(a: Net, b: Net, c: Net, s: set<string>)
    requires Spared(a, b, s) && Spared(b, c, s)
    ensures Spared(a, c, s)
  {
    forall m | m in s && m in a.ifaces && a.ifaces[m].master in Indices(a.ifaces, s)
      ensures c.ifaces[m] == a.ifaces[m]
    {
      var n :| n in s && n in a.ifaces && a.ifaces[n].index == a.ifaces[m].master;
      assert n in b.ifaces && b.ifaces[n].index == b.ifaces[m].master;
    }
  }

  lemma KeepsTransitive(a: Net, b: Net, c: Net, t: set<string>)
    requires Keeps(a, b, t) && Keeps(b, c, t)
    ensures Keeps(a, c, t)
  {
    forall s | Closed(a.ifaces, s) && s !! t ensures Closed(c.ifaces, s) && Spared(a, c, s) {
      SparedTransitive(a, b, c, s);
    }
  }

  /** How far an upsert of `name` got: nothing, an update, a deletion, or a replacement. */
  ghost predicate Touched(a: Net, b: Net, name: string) {
    b == a || InPlace(a, b, name) || b == Delete(a, {name}) || Rebuilt(a, b, name)
  }

  lemma KeepsTouched(a: Net, b: Net, name: string)
    requires a.Wf() && Touched(a, b, name)
    ensures Keeps(a, b, {name})
  {
    if InPlace(a, b, name) {
    } else if Rebuilt(a, b, name) {
      var c := Delete(a, {name});
      KeepsDelete(a, {name});
      KeepsAdd(c, b, name);
      KeepsTransitive(a, c, b, {name});
    } else if b == Delete(a, {name}) {
      KeepsDelete(a, {name});
    }
  }

  lemma KeepsMore(a: Net, b: Net, t: set<string>, more: set<string>)
    requires Keeps(a, b, t) && t <= more
    ensures Keeps(a, b, more)
  {
  }
}
