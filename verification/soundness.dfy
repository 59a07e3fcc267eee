/** Why links in their desired state stay there while the operator works on others. */
module Soundness {
  import opened Wrappers
  import opened Kernel
  import opened Netlink
  import opened Links
  import opened LinkGraph

  ghost function Names(links: Links, rs: set<string>): set<string> {
    set r | r in rs && r in links :: links[r].linkName
  }

  function ManagedNames(links: Links): set<string> {
    set r | r in links && IsManaged(links[r]) :: links[r].linkName
  }

  function UnmanagedNames(links: Links): set<string> {
    set r | r in links && !IsManaged(links[r]) :: links[r].linkName
  }

  /** `n` would disappear with `m`; in particular, `m` itself would. */
  predicate VanishesWith(net: Net, n: string, m: string) {
    n in Doomed(net.ifaces, {m})
  }

  /** No unmanaged interface would disappear with a managed one; in particular, they share no name. */
  predicate NoUnmanagedRides(net: Net, links: Links) {
    forall m, u {:trigger VanishesWith(net, u, m)} ::
      m in ManagedNames(links) && u in UnmanagedNames(links) ==> !VanishesWith(net, u, m)
  }

  /** The names outside the operator's reach: deleting managed interfaces spares them. */
  ghost function External(net: Net, links: Links): set<string> {
    set n | n in net.ifaces.Keys + UnmanagedNames(links) && Spares(net, links, n)
  }

  ghost predicate Spares(net: Net, links: Links, n: string) {
    forall m {:trigger VanishesWith(net, n, m)} :: m in ManagedNames(links) ==> !VanishesWith(net, n, m)
  }

  lemma ExternalIsClosed(net: Net, links: Links)
    requires NoUnmanagedRides(net, links)
    ensures Closed(net.ifaces, External(net, links))
    ensures External(net, links) !! ManagedNames(links)
    ensures UnmanagedNames(links) <= External(net, links)
  {
    var ext := External(net, links);
    forall x, n |
      && x in ext && x in net.ifaces && net.ifaces[x].kind.Vxlan?
      && n in net.ifaces && net.ifaces[n].index == net.ifaces[x].device
      ensures n in ext
    {
      forall m | m in ManagedNames(links) ensures !VanishesWith(net, n, m) {
        assert !VanishesWith(net, x, m);
        assert x !in Riders(net.ifaces, Doomed(net.ifaces, {m}));
      }
    }
    forall m | m in ManagedNames(links) ensures m !in ext {
      assert VanishesWith(net, m, m);
    }
  }

  lemma ClosedMeansNoRides(net: Net, links: Links, ext: set<string>)
    requires Closed(net.ifaces, ext) && ext !! ManagedNames(links) && UnmanagedNames(links) <= ext
    ensures NoUnmanagedRides(net, links)
  {
    forall m, u | m in ManagedNames(links) && u in UnmanagedNames(links) ensures !VanishesWith(net, u, m) {
      ClosedIsSpared(net.ifaces, ext, {m});
    }
  }

  /** The links `good` are in their desired state along with all their dependencies on the node. */
  ghost predicate Sound(net: Net, links: Links, good: set<string>, ext: set<string>) {
    && net.Wf()
    && Closed(net.ifaces, ext)
    && UnmanagedNames(links) <= ext
    && forall r :: r in good ==> SoundLink(net, links, good, r)
  }

  ghost predicate SoundLink(net: Net, links: Links, good: set<string>, r: string) {
    && r in links
    && Desired(net.ifaces, links, links[r])
    && forall d :: DependsOn(links[r], d) && d in links ==> d in good
  }

  lemma SoundIsClosed(net: Net, links: Links, good: set<string>, ext: set<string>)
    requires Sound(net, links, good, ext)
    ensures Closed(net.ifaces, Names(links, good) + ext)
  {
    var s := Names(links, good) + ext;
    forall x, n |
      && x in s && x in net.ifaces && net.ifaces[x].kind.Vxlan?
      && n in net.ifaces && net.ifaces[n].index == net.ifaces[x].device
      ensures n in s
    {
      if x !in ext {
        var r :| r in good && r in links && links[r].linkName == x;
        assert SoundLink(net, links, good, r);
        var l := links[r];
        assert l.spec.VxlanSpec?;
        var d := l.spec.device.value.name;
        assert DependsOn(l, d) by { assert l.spec.device.value in GetDependencies(l); }
        assert links[d].linkName == n;
      }
    }
  }

  /** Work on names outside the good links' and the external ones does not disturb the good links. */
  lemma SoundKeeps(a: Net, b: Net, links: Links, good: set<string>, ext: set<string>, t: set<string>)
    requires Sound(a, links, good, ext) && Keeps(a, b, t) && b.Wf()
    requires t !! (Names(links, good) + ext)
    ensures Sound(b, links, good, ext)
  {
    var s := Names(links, good) + ext;
    SoundIsClosed(a, links, good, ext);
    assert Spared(a, b, s);
    forall r | r in good ensures SoundLink(b, links, good, r) {
      assert SoundLink(a, links, good, r);
      var l := links[r];
      if IsManaged(l) {
        assert l.linkName in s;
        var i := a.ifaces[l.linkName];
        if l.spec.VxlanSpec? {
          ReferenceKeeps(a, b, links, good, ext, l, l.spec.device, i.device);
          ReferenceKeeps(a, b, links, good, ext, l, l.spec.master, i.master);
        }
      }
    }
  }

  lemma ReferenceKeeps(a: Net, b: Net, links: Links, good: set<string>, ext: set<string>, l: Link,
                       ref: Option<LinkReference>, index: nat)
    requires Spared(a, b, Names(links, good) + ext) && a.Wf()
    requires ref.Some? ==> ref.value in GetDependencies(l)
    requires forall d :: DependsOn(l, d) && d in links ==> d in good
    requires RefMet(a.ifaces, ref, index, links)
    ensures RefMet(b.ifaces, ref, index, links)
    ensures index == 0 || index in Indices(a.ifaces, Names(links, good) + ext)
  {
    if index != 0 {
      var d := ref.value.name;
      assert DependsOn(l, d);
      var target := links[d].linkName;
      assert target in Names(links, good);
    }
  }

  lemma SoundGrows(net: Net, links: Links, good: set<string>, ext: set<string>, r: string)
    requires Sound(net, links, good, ext) && SoundLink(net, links, good, r)
    ensures Sound(net, links, good + {r}, ext)
  {
    forall x | x in good + {r} ensures SoundLink(net, links, good + {r}, x) {
      assert SoundLink(net, links, good, x);
    }
  }
}
