/** The network interfaces of one node's kernel, and what deleting one of them takes along. */
module Kernel {

  newtype byte = x: int | 0 <= x < 256

  datatype Kind = Bridge | Vxlan | OtherKind(name: string)

  /** One interface. Index 0 means "no interface" in `master` and `device`. */
  datatype Iface = Iface(
    index: nat, kind: Kind, up: bool, mtu: int, master: nat, device: nat,
    vnid: int, port: int, portLow: int, portHigh: int, group: seq<byte>, learning: bool)

  /** What one netlink setter writes: exactly one field. */
  datatype Field =
    | Up(up: bool)
    | Mtu(mtu: int)
    | Master(master: nat)
    | Device(device: nat)
    | Group(group: seq<byte>)
    | Learning(learning: bool)

  function Write(i: Iface, f: Field): Iface {
    match f
    case Up(v) => i.(up := v)
    case Mtu(v) => i.(mtu := v)
    case Master(v) => i.(master := v)
    case Device(v) => i.(device := v)
    case Group(v) => i.(group := v)
    case Learning(v) => i.(learning := v)
  }

  type Ifaces = map<string, Iface>

  datatype Net = Net(ifaces: Ifaces, next: nat) {
    /** Indexes are distinct, positive and never reused; a reference may dangle but never names a future index. */
    predicate Wf() {
      && next > 0
      && Distinct(ifaces)
      && forall n :: n in ifaces ==> 0 < ifaces[n].index < next && ifaces[n].master < next && ifaces[n].device < next
    }
  }

  predicate Distinct(ifs: Ifaces) {
    forall m, n :: m in ifs && n in ifs && ifs[m].index == ifs[n].index ==> m == n
  }

  /** The interface is down, or there is none of that name. */
  ghost predicate DownOrAbsent(net: Net, n: string) {
    n in net.ifaces ==> !net.ifaces[n].up
  }

  function Indices(ifs: Ifaces, names: set<string>): set<nat> {
    set n | n in names && n in ifs :: ifs[n].index
  }

  /** The VXLANs whose device is one of `names`. */
  function Riders(ifs: Ifaces, names: set<string>): set<string> {
    set m | m in ifs && ifs[m].kind.Vxlan? && ifs[m].device in Indices(ifs, names)
  }

  /** Everything that disappears when `names` are deleted: `names`, and every VXLAN riding on one that disappears. */
  function Doomed(ifs: Ifaces, names: set<string>): (r: set<string>)
    ensures names <= r <= names + ifs.Keys
    ensures Riders(ifs, r) <= r
    decreases ifs.Keys - names
  {
    var more := Riders(ifs, names);
    if more <= names then names else
      assert ifs.Keys - (names + more) < ifs.Keys - names by {
        var m :| m in more && m !in names;
        assert m in ifs.Keys - names;
      }
      Doomed(ifs, names + more)
  }

  function Detach(i: Iface, gone: set<nat>): Iface {
    if i.master in gone then i.(master := 0) else i
  }

  /** The kernel after deleting `names` at once. */
  function Delete(net: Net, names: set<string>): Net {
    var gone := Doomed(net.ifaces, names);
    var indexes := Indices(net.ifaces, gone);
    net.(ifaces := map m | m in net.ifaces && m !in gone :: Detach(net.ifaces[m], indexes))
  }

  /** Doomed is the least set that holds `names` and its own riders. */
  lemma {:induction false} DoomedIsLeast(ifs: Ifaces, names: set<string>, closed: set<string>)
    requires names <= closed && Riders(ifs, closed) <= closed
    ensures Doomed(ifs, names) <= closed
    decreases ifs.Keys - names
  {
    var more := Riders(ifs, names);
    assert Indices(ifs, names) <= Indices(ifs, closed);
    assert more <= Riders(ifs, closed);
    if !(more <= names) {
      var m :| m in more && m !in names;
      assert m in ifs.Keys - names;
      DoomedIsLeast(ifs, names + more, closed);
    }
  }

  lemma DoomedInTwoSteps(net: Net, a: set<string>, b: set<string>)
    ensures forall m :: m in net.ifaces ==>
      (m in Doomed(net.ifaces, a + b) <==> m in Doomed(net.ifaces, a) || m in Doomed(Delete(net, a).ifaces, b))
  {
    var ifs, ifs' := net.ifaces, Delete(net, a).ifaces;
    var x, y, z := Doomed(ifs, a), Doomed(ifs', b), Doomed(ifs, a + b);
    assert Riders(ifs, x + y) <= x + y by {
      forall m | m in Riders(ifs, x + y) ensures m in x + y {
        var n :| n in x + y && n in ifs && ifs[n].index == ifs[m].device;
        if n in x {
          assert m in Riders(ifs, x);
        } else if m !in x {
          assert m in ifs' && n in ifs' && ifs'[n].index == ifs[n].index && ifs'[m].device == ifs[m].device;
          assert m in Riders(ifs', y);
        }
      }
    }
    DoomedIsLeast(ifs, a + b, x + y);
    DoomedIsLeast(ifs, a, z);
    assert Riders(ifs', z) <= z by {
      forall m | m in Riders(ifs', z) ensures m in z {
        var n :| n in z && n in ifs' && ifs'[n].index == ifs'[m].device;
        assert ifs[n].index == ifs[m].device;
        assert m in Riders(ifs, z);
      }
    }
    DoomedIsLeast(ifs', b, z);
  }

  lemma IndicesInTwoSteps(net: Net, a: set<string>, b: set<string>)
    requires net.Wf()
    ensures var ifs, ifs' := net.ifaces, Delete(net, a).ifaces;
      Indices(ifs, Doomed(ifs, a + b)) == Indices(ifs, Doomed(ifs, a)) + Indices(ifs', Doomed(ifs', b))
    ensures 0 !in Indices(net.ifaces, Doomed(net.ifaces, a + b))
  {
    DoomedInTwoSteps(net, a, b);
    var ifs, ifs' := net.ifaces, Delete(net, a).ifaces;
    var x, y, z := Doomed(ifs, a), Doomed(ifs', b), Doomed(ifs, a + b);
    forall i | i in Indices(ifs, z) ensures i in Indices(ifs, x) + Indices(ifs', y) {
      var n :| n in z && n in ifs && ifs[n].index == i;
      if n !in x { assert n in y && n in ifs' && ifs'[n].index == i; }
    }
    forall i | i in Indices(ifs, x) + Indices(ifs', y) ensures i in Indices(ifs, z) {
      if i in Indices(ifs, x) {
        var n :| n in x && n in ifs && ifs[n].index == i;
        assert n in z;
      } else {
        var n :| n in y && n in ifs' && ifs'[n].index == i;
        assert n in z && ifs[n].index == i;
      }
    }
  }

  /** Deleting in two steps is deleting at once: the cascade of the first step does not change the outcome. */
  lemma DeleteInTwoSteps(net: Net, a: set<string>, b: set<string>)
    requires net.Wf()
    ensures Delete(Delete(net, a), b) == Delete(net, a + b)
  {
    DoomedInTwoSteps(net, a, b);
    IndicesInTwoSteps(net, a, b);
    var ifs, ifs' := net.ifaces, Delete(net, a).ifaces;
    var gone, gone' := Indices(ifs, Doomed(ifs, a)), Indices(ifs', Doomed(ifs', b));
    var one, two := Delete(net, a + b).ifaces, Delete(Delete(net, a), b).ifaces;
    assert one.Keys == two.Keys;
    forall m | m in one ensures one[m] == two[m] {
      assert two[m] == Detach(Detach(ifs[m], gone), gone');
    }
  }

  lemma DeleteAbsent(net: Net, names: set<string>)
    requires names !! net.ifaces.Keys
    ensures Delete(net, names) == net
  {
    assert Indices(net.ifaces, names) == {};
    assert Riders(net.ifaces, names) == {};
    assert Delete(net, names).ifaces == net.ifaces;
  }

  /** Every VXLAN of `s` rides, if at all, on an interface of `s`. */
  ghost predicate Closed(ifs: Ifaces, s: set<string>) {
    forall m, n :: m in s && m in ifs && ifs[m].kind.Vxlan? && n in ifs && ifs[n].index == ifs[m].device ==> n in s
  }

  lemma ClosedIsSpared(ifs: Ifaces, s: set<string>, names: set<string>)
    requires Closed(ifs, s) && names !! s
    ensures Doomed(ifs, names) !! s
  {
    var rest := (ifs.Keys + names) - s;
    assert Riders(ifs, rest) <= rest;
    DoomedIsLeast(ifs, names, rest);
  }
}
