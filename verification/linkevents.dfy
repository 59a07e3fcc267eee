/**
 * The link event watcher, the reconcile queue and the reconciler as one protocol, one atomic action per step: the
 * kernel's lossy subscription, the channel of capacity one with its non-blocking send, and the set of watched names.
 */
module LinkEvents {

  /** A subscription delivers the buffered events, and has ended once events were lost or receiving failed. */
  datatype Subscription = NotSubscribed | Subscribed(buffer: seq<string>, ended: bool)

  datatype Watcher =
    | Waiting                 // before (re)subscribing
    | Listening               // ready to receive an event
    | Received(name: string)  // about to test whether the name is watched
    | Requesting              // about to test whether any name is watched
    | Sending                 // about to send without blocking

  datatype Worker =
    | Resting
    | Getting                         // about to read the NodeLinks
    | Fetching                        // about to read its Links and then to swap the watched names
    | Reading(unread: set<string>)    // working on the kernel; these names are still to be read
    | Removing                        // the NodeLinks is gone or being deleted

  datatype State = State(
    watched: set<string>,     // the shared set of link names
    unmanaged: set<string>,   // those of them that unmanaged links ask for
    changed: set<string>,     // names that changed since a reconcile last read them
    subscription: Subscription,
    watcher: Watcher,
    channel: bool,            // a request fills the channel
    inFlight: nat,            // requests the controller took from the channel but has not queued yet
    queued: bool,             // the work queue holds the node's key
    retry: bool,              // a failed reconcile will be queued again
    worker: Worker,
    live: bool)               // the NodeLinks exists and is not being deleted

  const INITIAL := State({}, {}, {}, NotSubscribed, Waiting, false, 0, false, false, Resting, false)

  datatype Action =
    | Change(name: string, delivered: bool) // anyone changes a link, the reconciler included
    | End                                   // the subscription fails
    | Subscribe
    | Receive
    | Resubscribe                           // the closed channel is noticed
    | Test
    | Request
    | Send
    | Take
    | Enqueue
    | Requeue
    | Begin
    | Get
    | Swap(names: set<string>, unmanaged: set<string>) // of the names watched, those that unmanaged links ask for
    | Read(name: string)
    | ReadFails(name: string)               // of an unmanaged link: its condition becomes unknown, nothing else
    | Finish
    | Removed                               // all links are deleted, the finalizer is still there
    | Gone                                  // nothing is left to do
    | Fail
    | Create                                // a NodeLinks appears, which queues its key
    | Delete
    | Touch                                 // a watched API object changes

  predicate Enabled(s: State, a: Action) {
    match a
    case Change(_, _) => true
    case End => s.subscription.Subscribed?
    case Subscribe => s.watcher.Waiting?
    case Receive => s.watcher.Listening? && s.subscription.Subscribed? && s.subscription.buffer != []
    case Resubscribe => s.watcher.Listening? && s.subscription == Subscribed([], true)
    case Test => s.watcher.Received?
    case Request => s.watcher.Requesting?
    case Send => s.watcher.Sending?
    case Take => s.channel
    case Enqueue => s.inFlight > 0
    case Requeue => s.retry
    case Begin => s.worker.Resting? && s.queued
    case Get => s.worker.Getting?
    case Swap(_, _) => s.worker.Fetching?
    case Read(n) => s.worker.Reading? && n in s.worker.unread
    case ReadFails(n) => s.worker.Reading? && n in s.worker.unread && n in s.unmanaged
    case Finish => s.worker.Reading? && s.worker.unread == {}
    case Removed => s.worker.Removing?
    case Gone => s.worker.Removing?
    case Fail => !s.worker.Resting?
    case Create => !s.live
    case Delete => s.live
    case Touch => true
  }

  function Do(s: State, a: Action): State
    requires Enabled(s, a)
  {
    match a
    case Change(n, delivered) =>
      s.(changed := s.changed + {n},
         subscription := match s.subscription
           case NotSubscribed => NotSubscribed
           case Subscribed(buffer, ended) =>
             if ended then Subscribed(buffer, true)
             else if delivered then Subscribed(buffer + [n], false)
             else Subscribed(buffer, true))
    case End => s.(subscription := Subscribed(s.subscription.buffer, true))
    case Subscribe => s.(subscription := Subscribed([], false), watcher := Requesting)
    case Receive =>
      s.(subscription := Subscribed(s.subscription.buffer[1..], s.subscription.ended),
         watcher := Received(s.subscription.buffer[0]))
    case Resubscribe => s.(subscription := NotSubscribed, watcher := Waiting)
    case Test => s.(watcher := if s.watcher.name in s.watched then Requesting else Listening)
    case Request => s.(watcher := if s.watched == {} then Listening else Sending)
    case Send => s.(channel := true, watcher := Listening) // dropped if the channel is full
    case Take => s.(channel := false, inFlight := s.inFlight + 1)
    case Enqueue => s.(inFlight := s.inFlight - 1, queued := true)
    case Requeue => s.(retry := false, queued := true)
    case Begin => s.(queued := false, worker := Getting)
    case Get => s.(worker := if s.live then Fetching else Removing)
    case Swap(names, unmanaged) => s.(watched := names, unmanaged := unmanaged, worker := Reading(names))
    case Read(n) => s.(changed := s.changed - {n}, worker := Reading(s.worker.unread - {n}))
    case ReadFails(n) => s.(worker := Reading(s.worker.unread - {n}))
    case Finish => s.(worker := Resting)
    case Removed => s.(watched := {}, unmanaged := {})
    case Gone => s.(worker := Resting)
    case Fail => s.(worker := Resting, retry := true)
    case Create => s.(live := true, queued := true)
    case Delete => s.(live := false)
    case Touch => s.(queued := true)
  }

  /** A run from the initial state, and where it leads. */
  predicate IsRun(s: State, run: seq<Action>)
    decreases |run|
  {
    run == [] || (Enabled(s, run[0]) && IsRun(Do(s, run[0]), run[1..]))
  }

  function After(s: State, run: seq<Action>): State
    requires IsRun(s, run)
    decreases |run|
  {
    if run == [] then s else After(Do(s, run[0]), run[1..])
  }

  /** Something still to come will make a later reconcile read `n`, or the running one has not yet read its Links. */
  ghost predicate Pending(s: State, n: string) {
    // the event is on its way, or the subscription will be renewed
    || s.subscription.NotSubscribed? || s.subscription.ended || n in s.subscription.buffer
    || s.watcher == Received(n) || s.watcher.Requesting? || s.watcher.Sending?
    // a request is pending
    || s.channel || s.inFlight > 0 || s.queued || s.retry
    || s.worker.Getting? || s.worker.Fetching?
  }

  /** ... or the running reconcile will still read it, or there is nothing left to repair. */
  ghost predicate Covered(s: State, n: string) {
    Pending(s, n) || (s.worker.Reading? && n in s.worker.unread) || !s.live
  }

  /** The names whose last read failed, given those before the run. */
  function Failed(failed: set<string>, run: seq<Action>): set<string>
    decreases |run|
  {
    if run == [] then failed else Failed(FailedBy(failed, run[0]), run[1..])
  }

  function FailedBy(failed: set<string>, a: Action): set<string> {
    match a
    case ReadFails(n) => failed + {n}
    case Read(n) => failed - {n}
    case Change(n, _) => failed - {n} // it has not been read since
    case Swap(_, _) => {}             // all watched names are to be read again
    case _ => failed
  }

  predicate Supersedes(a: Action, n: string) {
    a == Read(n) || a.Swap? || (a.Change? && a.name == n)
  }

  /** Nothing in the run from its i-th action on supersedes a failed read of `n`. */
  predicate Stands(run: seq<Action>, i: nat, n: string) {
    forall j :: i <= j < |run| ==> !Supersedes(run[j], n)
  }

  /** Spelled out: some read of `n` failed, and since then `n` was not read, changed or set to be read again. */
  lemma {:induction false} FailedMeaning(failed: set<string>, run: seq<Action>, n: string)
    ensures n in Failed(failed, run) <==>
      || (n in failed && Stands(run, 0, n))
      || (exists i :: 0 <= i < |run| && run[i] == ReadFails(n) && Stands(run, i + 1, n))
    decreases |run|
  {
    if run != [] {
      var rest := run[1..];
      FailedMeaning(FailedBy(failed, run[0]), rest, n);
      StandsInRest(run, 0, n);
      if i :| 0 <= i < |rest| && rest[i] == ReadFails(n) && Stands(rest, i + 1, n) {
        StandsInRest(run, i + 1, n);
        assert run[i + 1] == ReadFails(n) && Stands(run, (i + 1) + 1, n);
      }
      if i :| 0 < i < |run| && run[i] == ReadFails(n) && Stands(run, i + 1, n) {
        StandsInRest(run, i, n);
        assert rest[i - 1] == ReadFails(n) && Stands(rest, (i - 1) + 1, n);
      }
    }
  }

  lemma StandsInRest(run: seq<Action>, i: nat, n: string)
    requires run != []
    ensures Stands(run[1..], i, n) <==> Stands(run, i + 1, n)
  {
    if Stands(run[1..], i, n) {
      forall j | i + 1 <= j < |run| ensures !Supersedes(run[j], n) {
        assert run[j] == run[1..][j - 1];
      }
    }
  }

  /** The protocol's invariant, with the names `failed` whose last read failed. */
  ghost predicate NoneLost(s: State, failed: set<string>) {
    && (s.watcher.Waiting? <==> s.subscription.NotSubscribed?)
    && (s.worker.Reading? ==> failed !! s.worker.unread)
    && failed * s.watched <= s.unmanaged
    && forall n :: n in s.changed && n in s.watched ==> Covered(s, n) || n in failed
  }

  lemma StepLosesNone(s: State, failed: set<string>, a: Action)
    requires NoneLost(s, failed) && Enabled(s, a)
    ensures NoneLost(Do(s, a), FailedBy(failed, a))
  {
    var t := Do(s, a);
    forall n | n in t.changed && n in t.watched ensures Covered(t, n) || n in FailedBy(failed, a) {
      if n in s.changed && n in s.watched {
        assert Covered(s, n) || n in failed;
      }
      if a.Receive? && s.subscription.buffer != [] {
        assert s.subscription.buffer == [s.subscription.buffer[0]] + s.subscription.buffer[1..];
      }
    }
  }

  lemma {:induction false} RunLosesNone(s: State, failed: set<string>, run: seq<Action>)
    requires NoneLost(s, failed) && IsRun(s, run)
    ensures NoneLost(After(s, run), Failed(failed, run))
    decreases |run|
  {
    if run != [] {
      StepLosesNone(s, failed, run[0]);
      RunLosesNone(Do(s, run[0]), FailedBy(failed, run[0]), run[1..]);
    }
  }

  /**
   * In every reachable state, a change of a watched link that no later reconcile has read is covered, unless the last
   * read of the link failed and nothing is pending; and then it is not.
   */
  lemma NoLostWakeup(run: seq<Action>, n: string)
    requires IsRun(INITIAL, run)
    ensures var s := After(INITIAL, run);
      n in s.changed && n in s.watched ==> (Covered(s, n) <==> n !in Failed({}, run) || Pending(s, n) || !s.live)
  {
    RunLosesNone(INITIAL, {}, run);
  }

  /** A change of a link that is managed is covered in every reachable state. */
  lemma NoLostWakeupIfManaged(run: seq<Action>, n: string)
    requires IsRun(INITIAL, run)
    ensures var s := After(INITIAL, run);
      n in s.changed && n in s.watched && n !in s.unmanaged ==> Covered(s, n)
  {
    RunLosesNone(INITIAL, {}, run);
  }

  /** Nothing is under way, and the subscription is healthy. */
  ghost predicate AtRest(s: State) {
    && s.live && s.subscription == Subscribed([], false) && s.watcher.Listening?
    && !s.channel && s.inFlight == 0 && !s.queued && !s.retry && s.worker.Resting?
  }

  /**
   * When everything has come to rest, the watched links with an unread change are unmanaged ones whose last read
   * failed.
   */
  lemma RestMeansRead(run: seq<Action>)
    requires IsRun(INITIAL, run) && AtRest(After(INITIAL, run))
    ensures var s := After(INITIAL, run); s.changed * s.watched <= Failed({}, run) * s.unmanaged
  {
    RunLosesNone(INITIAL, {}, run);
    forall n | n in After(INITIAL, run).changed * After(INITIAL, run).watched
      ensures n in Failed({}, run) * After(INITIAL, run).unmanaged
    {
      NoLostWakeup(run, n);
    }
  }

  /** Such a run: a change is noticed before its name is watched, and the only read of it fails. */
  lemma UnmanagedChangeCanBeLost() returns (run: seq<Action>, n: string)
    ensures IsRun(INITIAL, run) && AtRest(After(INITIAL, run))
    ensures var s := After(INITIAL, run); n in s.changed && n in s.watched && n in s.unmanaged && !Covered(s, n)
  {
    n := "eth0";
    ChangeBeforeWatching(n);
    FailsToRead(n);
    var first := [Subscribe, Request] + ([Create, Change(n, true)] + [Receive, Test]);
    var second := [Begin, Get] + ([Swap({n}, {n}), ReadFails(n)] + [Finish]);
    RunsInTurn(INITIAL, first, second);
    run := first + second;
  }

  function Unwatched(n: string): State {
    State({}, {}, {n}, Subscribed([], false), Listening, false, 0, true, false, Resting, true)
  }

  lemma ChangeBeforeWatching(n: string)
    ensures var run := [Subscribe, Request] + ([Create, Change(n, true)] + [Receive, Test]);
      IsRun(INITIAL, run) && After(INITIAL, run) == Unwatched(n)
  {
    var t := INITIAL.(subscription := Subscribed([], false), watcher := Listening);
    var u := t.(live := true, queued := true, changed := {n}, subscription := Subscribed([n], false));
    assert [] + [n] == [n] && [n][1..] == [];
    assert Do(Do(INITIAL, Subscribe), Request) == t;
    assert Do(Do(t, Create), Change(n, true)) == u;
    assert Do(Do(u, Receive), Test) == Unwatched(n);
    assert [Receive, Test] + [] == [Receive, Test];
    RunOf(u, Receive, Test, []);
    RunOf(t, Create, Change(n, true), [Receive, Test]);
    RunOf(INITIAL, Subscribe, Request, [Create, Change(n, true)] + [Receive, Test]);
  }

  lemma FailsToRead(n: string)
    ensures var run := [Begin, Get] + ([Swap({n}, {n}), ReadFails(n)] + [Finish]);
      && IsRun(Unwatched(n), run)
      && After(Unwatched(n), run) == Unwatched(n).(queued := false, watched := {n}, unmanaged := {n})
  {
    var s := Unwatched(n);
    var r := s.(queued := false, worker := Fetching);
    var t := r.(watched := {n}, unmanaged := {n}, worker := Reading({}));
    assert Do(Do(s, Begin), Get) == r;
    assert {n} - {n} == {};
    assert Do(Do(r, Swap({n}, {n})), ReadFails(n)) == t;
    assert IsRun(t, [Finish]) && After(t, [Finish]) == t.(worker := Resting);
    RunOf(r, Swap({n}, {n}), ReadFails(n), [Finish]);
    RunOf(s, Begin, Get, [Swap({n}, {n}), ReadFails(n)] + [Finish]);
  }

  lemma RunOf(s: State, a: Action, b: Action, rest: seq<Action>)
    requires Enabled(s, a) && Enabled(Do(s, a), b)
    ensures IsRun(s, [a, b] + rest) <==> IsRun(Do(Do(s, a), b), rest)
    ensures IsRun(Do(Do(s, a), b), rest) ==> After(s, [a, b] + rest) == After(Do(Do(s, a), b), rest)
  {
    assert ([a, b] + rest)[1..] == [b] + rest && ([b] + rest)[1..] == rest;
  }

  lemma {:induction false} RunsInTurn(s: State, first: seq<Action>, second: seq<Action>)
    requires IsRun(s, first) && IsRun(After(s, first), second)
    ensures IsRun(s, first + second) && After(s, first + second) == After(After(s, first), second)
    decreases |first|
  {
    if first == [] {
      assert first + second == second;
    } else {
      RunsInTurn(Do(s, first[0]), first[1..], second);
      assert (first + second)[1..] == first[1..] + second;
    }
  }
}
