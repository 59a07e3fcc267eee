/** The status of a NodeLinks resource: condition types are kept with their status only. */
module Status {
  import opened Wrappers

  datatype ConditionType = Ready | ValidConfiguration | DependencyLinksAvailable | OperationallyUp
  datatype ConditionStatus = True | False | Unknown

  type Conditions = map<ConditionType, ConditionStatus>

  datatype NodeLinksStatus = NodeLinksStatus(ready: Option<ConditionStatus>, linkConditions: map<string, Conditions>,
                                             lastAttempted: seq<string>)

  /** The mutable storage behind a status: the lists and maps that copies of the status share. */
  class Storage<S> {
    var value: S
    constructor (value: S)
      ensures this.value == value
    {
      this.value := value;
    }
  }

  function WithLinkCondition(s: NodeLinksStatus, name: string, t: ConditionType, c: ConditionStatus): NodeLinksStatus {
    var conditions := if name in s.linkConditions then s.linkConditions[name] else map[];
    s.(linkConditions := s.linkConditions[name := conditions[t := c]])
  }

  method SetLinkCondition(status: Storage<NodeLinksStatus>, name: string, t: ConditionType, c: ConditionStatus)
    modifies status
    ensures status.value == WithLinkCondition(old(status.value), name, t, c)
  {
    status.value := WithLinkCondition(status.value, name, t, c);
  }

  method SetReady(status: Storage<NodeLinksStatus>, c: ConditionStatus)
    modifies status
    ensures status.value == old(status.value).(ready := Some(c))
  {
    status.value := status.value.(ready := Some(c));
  }

  /** One condition of an interface. */
  function Condition(conditions: map<string, Conditions>, name: string, t: ConditionType): Option<ConditionStatus> {
    if name in conditions && t in conditions[name] then Some(conditions[name][t]) else None
  }

  function Availability(s: NodeLinksStatus, name: string): Option<ConditionStatus> {
    Condition(s.linkConditions, name, DependencyLinksAvailable)
  }

  /** The ValidConfiguration conditions of all but `names` are as they were. */
  ghost predicate SameValidity(s: map<string, Conditions>, t: map<string, Conditions>, names: set<string>) {
    forall n :: n !in names ==> Condition(t, n, ValidConfiguration) == Condition(s, n, ValidConfiguration)
  }

  /** The record, and the verdicts on all but `names`, are as they were. */
  ghost predicate SameAvailability(s: NodeLinksStatus, t: NodeLinksStatus, names: set<string>) {
    && t.lastAttempted == s.lastAttempted
    && SameValidity(s.linkConditions, t.linkConditions, names)
    && forall n :: n !in names ==> Availability(t, n) == Availability(s, n)
  }

  ghost predicate NotReady(conditions: map<string, Conditions>, names: set<string>) {
    forall n :: n in names ==> Condition(conditions, n, Ready) == Some(False)
  }

  lemma OneMoreNotReady(s: NodeLinksStatus, names: set<string>, n: string)
    requires NotReady(s.linkConditions, names)
    ensures NotReady(WithLinkCondition(s, n, Ready, False).linkConditions, names + {n})
  {
  }

  lemma StillNotReady(s: NodeLinksStatus, t: NodeLinksStatus, names: set<string>)
    requires NotReady(s.linkConditions, names) && OnlyOperational(s, t)
    ensures NotReady(t.linkConditions, names)
  {
    forall n | n in names ensures Condition(t.linkConditions, n, Ready) == Some(False) {
      assert Condition(t.linkConditions, n, Ready) == Condition(s.linkConditions, n, Ready);
    }
  }

  lemma FewerNotReady(conditions: map<string, Conditions>, names: set<string>, n: string)
    requires NotReady(conditions, names)
    ensures NotReady(conditions - {n}, names - {n})
  {
  }

  /** Only OperationallyUp conditions changed. */
  ghost predicate OnlyOperational(s: NodeLinksStatus, t: NodeLinksStatus) {
    && t.lastAttempted == s.lastAttempted && t.ready == s.ready
    && forall n, c :: c != OperationallyUp ==> Condition(t.linkConditions, n, c) == Condition(s.linkConditions, n, c)
  }

  lemma SetsOnlyOperational(s: NodeLinksStatus, name: string, c: ConditionStatus)
    ensures OnlyOperational(s, WithLinkCondition(s, name, OperationallyUp, c))
  {
  }

  /** Recording whether a link is ready, and perhaps whether it is operationally up, changes nothing else. */
  lemma OutcomeRecorded(s: NodeLinksStatus, t: NodeLinksStatus, name: string, ready: ConditionStatus)
    requires OnlyOperational(WithLinkCondition(s, name, Ready, ready), t)
    ensures SameAvailability(s, t, {}) && SameReady(s.linkConditions, t.linkConditions, {name})
    ensures Condition(t.linkConditions, name, Ready) == Some(ready)
  {
    var u := WithLinkCondition(s, name, Ready, ready);
    forall n, c | c != OperationallyUp && !(n == name && c == Ready)
      ensures Condition(t.linkConditions, n, c) == Condition(s.linkConditions, n, c)
    {
      assert Condition(t.linkConditions, n, c) == Condition(u.linkConditions, n, c);
    }
  }

  /** Only the Ready conditions of `names` changed. */
  ghost predicate SameReady(s: map<string, Conditions>, t: map<string, Conditions>, names: set<string>) {
    forall n :: n !in names ==> Condition(t, n, Ready) == Condition(s, n, Ready)
  }

  /** The merge patch of a status: lists are replaced whole, the map of link conditions is merged key by key. */
  function MergeStatus(stored: NodeLinksStatus, from: NodeLinksStatus, to: NodeLinksStatus): NodeLinksStatus {
    NodeLinksStatus(
      if from.ready == to.ready then stored.ready else to.ready,
      map n | n in stored.linkConditions.Keys + to.linkConditions.Keys
          && (Differs(from, to, n) ==> n in to.linkConditions) && (!Differs(from, to, n) ==> n in stored.linkConditions)
        :: if Differs(from, to, n) then to.linkConditions[n] else stored.linkConditions[n],
      if from.lastAttempted == to.lastAttempted then stored.lastAttempted else to.lastAttempted)
  }

  predicate Differs(from: NodeLinksStatus, to: NodeLinksStatus, n: string) {
    !(n in from.linkConditions && n in to.linkConditions && from.linkConditions[n] == to.linkConditions[n])
    && (n in from.linkConditions || n in to.linkConditions)
  }

  lemma MergeStatusIsExact(x: NodeLinksStatus, y: NodeLinksStatus)
    ensures MergeStatus(x, x, y) == y
  {
    assert MergeStatus(x, x, y).linkConditions == y.linkConditions;
  }
}
