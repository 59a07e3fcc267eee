/** Setting interfaces down and deleting them. */
module Deletion {
  import opened Kernel
  import opened Wrappers
  import opened Netlink
  import opened Status

  function Down(i: Iface): Iface { Write(i, Up(false)) }

  /** The kernel with the interfaces `names`, as far as they exist, set down. */
  function DownAll(net: Net, names: set<string>): Net {
    net.(ifaces := map m | m in net.ifaces :: if m in names then Down(net.ifaces[m]) else net.ifaces[m])
  }

  lemma DownAllMore(net: Net, names: set<string>, n: string)
    ensures n !in net.ifaces ==> DownAll(net, names + {n}) == DownAll(net, names)
    ensures n in net.ifaces ==>
      var d := DownAll(net, names);
      DownAll(net, names + {n}) == d.(ifaces := d.ifaces[n := Down(d.ifaces[n])])
  {
    var d := DownAll(net, names);
    assert n !in net.ifaces ==> DownAll(net, names + {n}).ifaces == d.ifaces;
    assert n in net.ifaces ==> DownAll(net, names + {n}).ifaces == d.ifaces[n := Down(d.ifaces[n])];
  }

  lemma DownAllNothing(net: Net)
    ensures DownAll(net, {}) == net
  {
    assert DownAll(net, {}).ifaces == net.ifaces;
  }

  lemma KeepsDownAll(net: Net, names: set<string>)
    ensures Keeps(net, DownAll(net, names), names)
  {
  }

  /** Sets one interface down; one that is absent is fine. */
  method BringDownLink(k: Netlink, status: Storage<NodeLinksStatus>, name: string, ghost start: Net,
                       ghost done: set<string>)
    returns (ok: bool)
    requires k.Valid() && k.net == DownAll(start, done)
    modifies k`net, k`targets, k`faults, k`writes, status
    ensures k.Valid() && old(k.targets) <= k.targets <= old(k.targets) + {name}
    ensures k.faults >= old(k.faults) && (ok <==> k.faults == old(k.faults))
    ensures k.net == if ok then DownAll(start, done + {name}) else old(k.net)
    ensures ok && name in k.net.ifaces ==> Condition(status.value.linkConditions, name, OperationallyUp) == Some(False)
    ensures OnlyOperational(old(status.value), status.value)
  {
    DownAllMore(start, done, name);
    var link := k.LinkByName(name);
    if link.LookupFailed? { return false; }
    if link.Absent? { return true; }
    ok := k.Set(name, Up(false));
    if ok {
      SetLinkCondition(status, name, OperationallyUp, False);
    }
  }

  /** Deletes one interface; one that is absent is fine. */
  method DeleteLink(k: Netlink, name: string) returns (ok: bool)
    requires k.Valid()
    modifies k`net, k`owned, k`targets, k`faults, k`writes
    ensures k.Valid() && old(k.targets) <= k.targets <= old(k.targets) + {name}
    ensures k.faults >= old(k.faults) && (ok <==> k.faults == old(k.faults))
    ensures k.net == if ok then Delete(old(k.net), {name}) else old(k.net)
    ensures k.owned <= old(k.owned)
    ensures ok ==> name !in k.net.ifaces
  {
    var link := k.LinkByName(name);
    if link.LookupFailed? { return false; }
    if link.Absent? {
      DeleteAbsent(k.net, {name});
      return true;
    }
    ok := k.LinkDel(name);
  }

  function Elements(names: seq<string>): set<string> { set n | n in names }

  lemma ElementsPrefix(names: seq<string>, i: nat)
    requires i < |names|
    ensures Elements(names[..i + 1]) == Elements(names[..i]) + {names[i]}
  {
    assert names[..i + 1] == names[..i] + [names[i]];
  }

  /** Sets one interface down before its deletion; `others` are already reported as not ready. */
  method BringDownUndesired(k: Netlink, status: Storage<NodeLinksStatus>, name: string, ghost others: set<string>,
                            ghost start: Net, ghost done: set<string>)
    returns (ok: bool)
    requires k.Valid() && k.net == DownAll(start, done) && NotReady(status.value.linkConditions, others)
    modifies k`net, k`targets, k`faults, k`writes, status
    ensures k.Valid() && old(k.targets) <= k.targets <= old(k.targets) + {name}
    ensures k.faults >= old(k.faults) && (ok <==> k.faults == old(k.faults))
    ensures k.net == if ok then DownAll(start, done + {name}) else old(k.net)
    ensures NotReady(status.value.linkConditions, others + {name})
    ensures SameAvailability(old(status.value), status.value, {})
    ensures SameReady(old(status.value).linkConditions, status.value.linkConditions, {name})
  {
    ghost var before := status.value;
    ok := BringDownLink(k, status, name, start, done);
    StillNotReady(before, status.value, others);
    OneMoreNotReady(status.value, others, name);
    SetLinkCondition(status, name, Ready, False);
  }

  /** The first phase: sets every name down, going on after a failure. */
  method BringDownAll(k: Netlink, status: Storage<NodeLinksStatus>, names: seq<string>)
    returns (ok: bool, ghost done: set<string>, ghost missed: set<string>)
    requires k.Valid()
    modifies k`net, k`targets, k`faults, k`writes, status
    ensures k.Valid() && old(k.targets) <= k.targets <= old(k.targets) + Elements(names)
    ensures k.faults >= old(k.faults) && (ok <==> k.faults == old(k.faults))
    ensures names == [] ==> k.writes == old(k.writes)
    // A failure costs one name at most; the others are handled all the same.
    ensures done <= Elements(names) && (ok ==> done == Elements(names))
    ensures Elements(names) <= done + missed && |missed| <= k.faults - old(k.faults)
    ensures k.net == DownAll(old(k.net), done)
    ensures NotReady(status.value.linkConditions, Elements(names))
    ensures SameAvailability(old(status.value), status.value, {})
    ensures SameReady(old(status.value).linkConditions, status.value.linkConditions, Elements(names))
  {
    ghost var start := k.net;
    ok, done, missed := true, {}, {};
    DownAllNothing(start);
    for i := 0 to |names|
      invariant k.Valid() && old(k.targets) <= k.targets <= old(k.targets) + Elements(names[..i])
      invariant k.faults >= old(k.faults) && (ok <==> k.faults == old(k.faults))
      invariant i == 0 ==> k.writes == old(k.writes)
      invariant done <= Elements(names[..i]) && (ok ==> done == Elements(names[..i]))
      invariant Elements(names[..i]) <= done + missed && |missed| <= k.faults - old(k.faults)
      invariant k.net == DownAll(start, done)
      invariant NotReady(status.value.linkConditions, Elements(names[..i]))
      invariant SameAvailability(old(status.value), status.value, {})
      invariant SameReady(old(status.value).linkConditions, status.value.linkConditions, Elements(names))
    {
      ElementsPrefix(names, i);
      var down := BringDownUndesired(k, status, names[i], Elements(names[..i]), start, done);
      if down { done := done + {names[i]}; } else { missed := missed + {names[i]}; }
      ok := ok && down;
    }
    assert names[..|names|] == names;
  }

  /** A deleted interface loses its conditions, any other one is not ready; `undone` are already reported. */
  method RecordDeletion(status: Storage<NodeLinksStatus>, name: string, deleted: bool, ghost undone: set<string>)
    requires NotReady(status.value.linkConditions, undone)
    modifies status
    ensures NotReady(status.value.linkConditions, if deleted then undone - {name} else undone + {name})
    ensures SameAvailability(old(status.value), status.value, {name})
    ensures SameReady(old(status.value).linkConditions, status.value.linkConditions, {name})
    ensures status.value.linkConditions.Keys ==
      if deleted then old(status.value).linkConditions.Keys - {name} else old(status.value).linkConditions.Keys + {name}
  {
    if deleted {
      FewerNotReady(status.value.linkConditions, undone, name);
      status.value := status.value.(linkConditions := status.value.linkConditions - {name});
    } else {
      OneMoreNotReady(status.value, undone, name);
      SetLinkCondition(status, name, Ready, False);
    }
  }

  /** Deletes one more interface and records how that went. */
  method DeleteUndesired(k: Netlink, status: Storage<NodeLinksStatus>, name: string, ghost undone: set<string>,
                         ghost start: Net, ghost done: set<string>)
    returns (ok: bool)
    requires k.Valid() && start.Wf() && k.net == Delete(start, done) && NotReady(status.value.linkConditions, undone)
    modifies k`net, k`owned, k`targets, k`faults, k`writes, status
    ensures k.Valid() && old(k.targets) <= k.targets <= old(k.targets) + {name}
    ensures k.faults >= old(k.faults) && (ok <==> k.faults == old(k.faults))
    ensures k.net == if ok then Delete(start, done + {name}) else old(k.net)
    ensures k.owned <= old(k.owned)
    ensures NotReady(status.value.linkConditions, if ok then undone - {name} else undone + {name})
    ensures SameAvailability(old(status.value), status.value, {name})
    ensures SameReady(old(status.value).linkConditions, status.value.linkConditions, {name})
    ensures status.value.linkConditions.Keys ==
      if ok then old(status.value).linkConditions.Keys - {name} else old(status.value).linkConditions.Keys + {name}
  {
    DeleteInTwoSteps(start, done, {name});
    ok := DeleteLink(k, name);
    RecordDeletion(status, name, ok, undone);
  }

  /** The second phase: deletes every name, going on after a failure. */
  method DeleteAll(k: Netlink, status: Storage<NodeLinksStatus>, names: seq<string>)
    returns (ok: bool, ghost done: set<string>, ghost missed: set<string>)
    requires k.Valid()
    modifies k`net, k`owned, k`targets, k`faults, k`writes, status
    ensures k.Valid() && old(k.targets) <= k.targets <= old(k.targets) + Elements(names)
    ensures k.faults >= old(k.faults) && (ok <==> k.faults == old(k.faults))
    ensures names == [] ==> k.writes == old(k.writes)
    // A failure costs one name at most; the others are handled all the same.
    ensures done <= Elements(names) && (ok ==> done == Elements(names))
    ensures Elements(names) <= done + missed && |missed| <= k.faults - old(k.faults)
    ensures k.net == Delete(old(k.net), done)
    ensures k.owned <= old(k.owned)
    ensures NotReady(status.value.linkConditions, Elements(names) - done)
    ensures SameAvailability(old(status.value), status.value, Elements(names))
    ensures ok ==> Elements(names) !! status.value.linkConditions.Keys
    ensures SameReady(old(status.value).linkConditions, status.value.linkConditions, Elements(names))
  {
    ghost var start := k.net;
    ok, done, missed := true, {}, {};
    DeleteAbsent(start, {});
    for i := 0 to |names|
      invariant k.Valid() && old(k.targets) <= k.targets <= old(k.targets) + Elements(names[..i])
      invariant k.faults >= old(k.faults) && (ok <==> k.faults == old(k.faults))
      invariant i == 0 ==> k.writes == old(k.writes)
      invariant done <= Elements(names[..i]) && (ok ==> done == Elements(names[..i]))
      invariant Elements(names[..i]) <= done + missed && |missed| <= k.faults - old(k.faults)
      invariant k.net == Delete(start, done)
      invariant k.owned <= old(k.owned)
      invariant NotReady(status.value.linkConditions, missed)
      invariant SameAvailability(old(status.value), status.value, Elements(names))
      invariant ok ==> Elements(names[..i]) !! status.value.linkConditions.Keys
      invariant SameReady(old(status.value).linkConditions, status.value.linkConditions, Elements(names))
    {
      ElementsPrefix(names, i);
      var deleted := DeleteUndesired(k, status, names[i], missed, start, done);
      ok := ok && deleted;
      if deleted {
        done, missed := done + {names[i]}, missed - {names[i]};
      } else {
        missed := missed + {names[i]};
      }
    }
    assert names[..|names|] == names;
  }

  /**
   * Deletes interfaces in two phases. `downed` says that the first phase succeeded, for the names `down`; `deleted`
   * are the names whose deletion then succeeded.
   */
  method DeleteLinks(k: Netlink, status: Storage<NodeLinksStatus>, names: seq<string>)
    returns (ok: bool, ghost downed: bool, ghost down: set<string>, ghost deleted: set<string>)
    requires k.Valid()
    modifies k`net, k`owned, k`targets, k`faults, k`writes, status
    ensures k.Valid() && old(k.targets) <= k.targets <= old(k.targets) + Elements(names)
    ensures k.faults >= old(k.faults) && (ok <==> k.faults == old(k.faults))
    ensures k.owned <= old(k.owned)
    ensures down <= Elements(names) && deleted <= Elements(names)
    ensures k.net == Delete(DownAll(old(k.net), down), deleted)
    ensures names == [] ==> k.writes == old(k.writes)
    // Nothing is deleted unless everything is down.
    ensures if downed then down == Elements(names) else !ok && deleted == {}
    ensures ok ==> k.net == DeleteEach(DownAll(old(k.net), Elements(names)), names)
    ensures ok ==> forall n :: n in names ==> n !in k.net.ifaces && n !in k.owned
    ensures NotReady(status.value.linkConditions, Elements(names) - deleted)
    ensures SameAvailability(old(status.value), status.value, Elements(names))
    // The conditions of what was deleted go with it; a failure is reported.
    ensures if ok then Elements(names) !! status.value.linkConditions.Keys else status.value.ready == Some(False)
    ensures SameReady(old(status.value).linkConditions, status.value.linkConditions, Elements(names))
  {
    ghost var start := k.net;
    ghost var missed;
    ok, down, missed := BringDownAll(k, status, names);
    downed, deleted := ok, {};
    DeleteAbsent(k.net, {});
    if ok {
      ok, deleted, missed := DeleteAll(k, status, names);
      DeleteEachIsAtOnce(DownAll(start, down), names);
    }
    if !ok {
      SetReady(status, False);
    }
  }

  lemma DeletionOfNothing(net: Net)
    ensures Delete(DownAll(net, {}), {}) == net
  {
    DownAllNothing(net);
    DeleteAbsent(net, {});
  }

  /** Deleting the names one after the other, each from what the cascades of the earlier ones left. */
  ghost function DeleteEach(net: Net, names: seq<string>): Net
    decreases |names|
  {
    if names == [] then net else DeleteEach(Delete(net, {names[0]}), names[1..])
  }

  lemma {:induction false} DeleteEachIsAtOnce(net: Net, names: seq<string>)
    requires net.Wf()
    ensures DeleteEach(net, names) == Delete(net, Elements(names))
    decreases |names|
  {
    if names == [] {
      DeleteAbsent(net, {});
    } else {
      DeleteEachIsAtOnce(Delete(net, {names[0]}), names[1..]);
      DeleteInTwoSteps(net, {names[0]}, Elements(names[1..]));
      assert Elements(names) == {names[0]} + Elements(names[1..]);
    }
  }

  /** Any permutation of the names leaves the same kernel, without any of them. */
  lemma DeletionOrderDoesNotMatter(net: Net, names: seq<string>, others: seq<string>)
    requires net.Wf() && multiset(names) == multiset(others)
    ensures DeleteEach(net, names) == DeleteEach(net, others)
    ensures DeleteEach(net, names).ifaces.Keys !! Elements(names)
  {
    forall n ensures n in names <==> n in others {
      assert n in names <==> n in multiset(names);
      assert n in others <==> n in multiset(others);
    }
    assert Elements(names) == Elements(others);
    DeleteEachIsAtOnce(net, names);
    DeleteEachIsAtOnce(net, others);
  }
}
