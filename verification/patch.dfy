/** API objects with a status subresource, and the two-phase patch that both reconcilers use. */
module Patch {
  import opened Wrappers
  import opened Status

  /** Metadata and spec: what the main endpoint serves. */
  datatype Meta<P> = Meta(finalizers: seq<string>, deleting: bool, spec: P)

  datatype Object<P, S> = Object(meta: Meta<P>, status: S)

  datatype ApiResult = Ok | NotFound | Failed

  /** A JSON merge patch (RFC 7396, section 2) of the main object: a list that differs replaces the stored one whole. */
  function MergeMeta<P(==)>(stored: Meta<P>, from: Meta<P>, to: Meta<P>): Meta<P> {
    Meta(if from.finalizers == to.finalizers then stored.finalizers else to.finalizers,
         stored.deleting,
         if from.spec == to.spec then stored.spec else to.spec)
  }

  /** The server refuses new finalizers on an object that is being deleted. */
  predicate Permitted<P>(stored: Meta<P>, merged: Meta<P>) {
    stored.deleting ==> forall f :: f in merged.finalizers ==> f in stored.finalizers
  }

  predicate NoDuplicates(names: seq<string>) {
    forall i, j :: 0 <= i < j < |names| ==> names[i] != names[j]
  }

  /** The list without the name, as a finalizer or an entry of a spec is removed. */
  function Filtered(names: seq<string>, name: string): (r: seq<string>)
    ensures forall n :: n in r <==> n in names && n != name
    ensures NoDuplicates(names) ==> NoDuplicates(r)
    ensures |r| <= |names| && (|r| == |names| <==> name !in names)
  {
    if names == [] then [] else
      var rest := Filtered(names[1..], name);
      assert NoDuplicates(names) ==> NoDuplicates(names[1..]) && names[0] !in names[1..];
      if names[0] == name then rest else [names[0]] + rest
  }

  /** An object that is being deleted disappears with its last finalizer. */
  function Kept<P, S>(o: Object<P, S>): Option<Object<P, S>> {
    if o.meta.deleting && o.meta.finalizers == [] then None else Some(o)
  }

  predicate Guarded<P, S>(slot: Option<Object<P, S>>, finalizer: string) {
    slot.Some? && finalizer in slot.value.meta.finalizers
  }

  /**
   * What everybody else may do to the stored object between two calls of a controller: only its controller writes
   * the status, and adds or removes the finalizer; without the finalizer the object may vanish and come back anew.
   */
  predicate OthersMay<P, S(==)>(finalizer: string, blank: S, a: Option<Object<P, S>>, b: Option<Object<P, S>>) {
    && (Guarded(a, finalizer) ==>
         Guarded(b, finalizer) && b.value.status == a.value.status && (a.value.meta.deleting ==> b.value.meta.deleting))
    && (!Guarded(a, finalizer) ==> !Guarded(b, finalizer))
    && (b.Some? ==> b.value.status == blank || (a.Some? && b.value.status == a.value.status))
  }

  /** However many times others act between two calls, together they did no more than one of them may. */
  lemma OthersMayTransitive<P, S>(finalizer: string, blank: S, a: Option<Object<P, S>>, b: Option<Object<P, S>>,
                                  c: Option<Object<P, S>>)
    requires OthersMay(finalizer, blank, a, b) && OthersMay(finalizer, blank, b, c)
    ensures OthersMay(finalizer, blank, a, c)
  {
  }

  /** An object as a controller holds it in memory; copies may share the storage of the status. */
  class Resource<P(==), S(==)> {
    var meta: Meta<P>
    var status: Storage<S>

    constructor (o: Object<P, S>)
      ensures Value() == o && fresh(status)
    {
      meta := o.meta;
      status := new Storage(o.status);
    }

    function Value(): Object<P, S> reads this, status {
      Object(meta, status.value)
    }

    /** Becomes a deep copy of `other`. */
    method CopyFrom(other: Resource<P, S>)
      modifies this
      ensures Value() == other.Value() && fresh(status)
    {
      meta := other.meta;
      status := new Storage(other.status.value);
    }
  }

  /** The server's endpoint for one object, as its controller uses it. */
  class Endpoint<P(==), S(==)> {
    var slot: Option<Object<P, S>>
    const finalizer: string
    const blank: S
    /** The merge patch of a status: applied to what the patch was computed from, it gives what was asked for. */
    const merge: (S, S, S) -> S
    /** Whether nobody else touches the object while a reconcile runs. */
    const calm: bool
    /** How many calls have failed for reasons of their own. */
    ghost var faults: nat

    constructor (slot: Option<Object<P, S>>, finalizer: string, initial: S, merge: (S, S, S) -> S, calm: bool)
      ensures this.slot == slot && this.finalizer == finalizer && this.blank == initial && this.merge == merge
      ensures this.calm == calm
    {
      this.slot, this.finalizer, this.blank, this.merge, this.calm := slot, finalizer, initial, merge, calm;
    }

    /** Whether the call being made fails. */
    method Fails() returns (fails: bool)
      modifies this`faults
      ensures faults == old(faults) + if fails then 1 else 0
    {
      fails := *;
      faults := faults + if fails then 1 else 0;
    }

    /** Whatever else happens to the object, in any number of steps. */
    method Interfere()
      modifies this`slot
      ensures OthersMay(finalizer, blank, old(slot), slot)
      ensures calm ==> slot == old(slot)
    {
      if calm { return; }
      var steps :| steps >= 0;
      for i := 0 to steps
        invariant OthersMay(finalizer, blank, old(slot), slot)
      {
        var other: Option<Object<P, S>> := *;
        if OthersMay(finalizer, blank, slot, other) {
          OthersMayTransitive(finalizer, blank, old(slot), slot, other);
          slot := other;
        }
      }
    }

    /** Patches metadata and spec. On success the response, with the stored status, is written into `o`. */
    method PatchMain(o: Resource<P, S>, from: Meta<P>) returns (r: ApiResult, ghost seen: Option<Object<P, S>>)
      modifies this, o, o.status
      ensures o.status == old(o.status)
      ensures OthersMay(finalizer, blank, old(slot), seen) && (calm ==> seen == old(slot))
      ensures r.Ok? ==> seen.Some? && slot == AfterMain(seen, from, old(o.meta))
      ensures r.Ok? ==> o.Value() == MainResponse(seen, from, old(o.meta))
      ensures !r.Ok? ==> slot == seen && o.Value() == old(o.Value())
      ensures faults >= old(faults)
      ensures !r.Ok? && faults == old(faults) ==>
        seen.None? || !Permitted(seen.value.meta, MergeMeta(seen.value.meta, from, old(o.meta)))
    {
      Interfere();
      seen := slot;
      var fails := Fails();
      if fails { return Failed, seen; }
      if slot.None? { return NotFound, seen; }
      var merged := MergeMeta(slot.value.meta, from, o.meta);
      if !Permitted(slot.value.meta, merged) { return Failed, seen; }
      o.meta, o.status.value := merged, slot.value.status;
      slot := Kept(Object(merged, slot.value.status));
      r := Ok;
    }

    /** Patches the status. On success the response is written into `o`. */
    method PatchStatus(o: Resource<P, S>, from: S) returns (r: ApiResult, ghost seen: Option<Object<P, S>>)
      modifies this, o, o.status
      ensures o.status == old(o.status)
      ensures OthersMay(finalizer, blank, old(slot), seen) && (calm ==> seen == old(slot))
      ensures r.Ok? ==>
        seen.Some? && slot == Some(AfterStatus(merge, seen, from, old(o.status.value))) && Some(o.Value()) == slot
      ensures !r.Ok? ==> slot == seen && o.Value() == old(o.Value())
      ensures r.NotFound? ==> seen.None?
      ensures faults >= old(faults) && (r.Failed? ==> faults > old(faults))
    {
      Interfere();
      seen := slot;
      var fails := Fails();
      if fails { return Failed, seen; }
      if slot.None? { return NotFound, seen; }
      slot := Some(AfterStatus(merge, slot, from, o.status.value));
      o.meta, o.status.value := slot.value.meta, slot.value.status;
      r := Ok;
    }
  }

  function MainResponse<P(==), S>(seen: Option<Object<P, S>>, from: Meta<P>, to: Meta<P>): Object<P, S>
    requires seen.Some?
  {
    Object(MergeMeta(seen.value.meta, from, to), seen.value.status)
  }

  function AfterMain<P(==), S>(seen: Option<Object<P, S>>, from: Meta<P>, to: Meta<P>): Option<Object<P, S>>
    requires seen.Some?
  {
    Kept(MainResponse(seen, from, to))
  }

  function AfterStatus<P, S>(merge: (S, S, S) -> S, seen: Option<Object<P, S>>, from: S, to: S): Object<P, S>
    requires seen.Some?
  {
    seen.value.(status := merge(seen.value.status, from, to))
  }

  /** What a two-phase patch found and did. */
  datatype Trace<P, S> = Trace(
    first: Option<Object<P, S>>, mainDone: bool,   // the object before the first phase, and whether that was patched
    second: Option<Object<P, S>>, statusDone: bool) // the same for the second phase

  /** The copy of the server's state after the first phase. */
  ghost function AfterFirst<P, S>(cached: Object<P, S>, asked: Object<P, S>, t: Trace<P, S>): Object<P, S>
    requires t.mainDone ==> t.first.Some?
  {
    if t.mainDone then MainResponse(t.first, cached.meta, asked.meta) else cached
  }

  /**
   * From `before`, with the copy `cached` and the object `asked` for, a patch left `after` on the server,
   * `cached'` and `memory'` in memory, and returned `ok`.
   */
  ghost predicate Patched<P, S>(e: Endpoint<P, S>, before: Option<Object<P, S>>, cached: Object<P, S>,
                                asked: Object<P, S>, t: Trace<P, S>, ok: bool, after: Option<Object<P, S>>,
                                cached': Object<P, S>, memory': Object<P, S>)
  {
    && OthersMay(e.finalizer, e.blank, before, t.first)
    && (t.mainDone ==> t.first.Some? && cached.meta != asked.meta)
    && var copy := AfterFirst(cached, asked, t);
    && OthersMay(e.finalizer, e.blank,
                 if t.mainDone then AfterMain(t.first, cached.meta, asked.meta) else t.first, t.second)
    && (t.statusDone ==> t.second.Some? && copy.status != asked.status && (t.mainDone || cached.meta == asked.meta))
    && after == (if t.statusDone then Some(AfterStatus(e.merge, t.second, copy.status, asked.status)) else t.second)
    && memory' == (if t.statusDone then after.value
                   else Object(if t.mainDone then copy.meta else asked.meta, asked.status))
    && cached' == (if ok then memory' else copy)
    && (ok ==> t.mainDone || cached.meta == asked.meta)
    && (ok ==> t.statusDone || copy.status == asked.status || (t.second.None? && memory'.meta.deleting))
    && (t.statusDone || ((t.mainDone || cached.meta == asked.meta) && copy.status == asked.status) ==> ok)
  }

  /** The object is gone, or the server refuses the patch. */
  ghost predicate Impeded<P, S>(cached: Meta<P>, asked: Meta<P>, t: Trace<P, S>, memory': Meta<P>) {
    || (cached != asked && !t.mainDone
        && (t.first.None? || !Permitted(t.first.value.meta, MergeMeta(t.first.value.meta, cached, asked))))
    || (t.second.None? && !memory'.deleting)
  }

  method PatchResource<P(==), S(==)>(e: Endpoint<P, S>, cached: Resource<P, S>, o: Resource<P, S>)
    returns (ok: bool, ghost t: Trace<P, S>)
    requires cached != o && cached.status != o.status
    modifies e, cached, o, cached.status, o.status
    ensures Patched(e, old(e.slot), old(cached.Value()), old(o.Value()), t, ok, e.slot, cached.Value(), o.Value())
    ensures e.faults >= old(e.faults)
    ensures !ok && e.faults == old(e.faults) ==> Impeded(old(cached.meta), old(o.meta), t, o.meta)
    ensures e.calm ==> Undisturbed(old(e.slot), old(cached.Value()), old(o.Value()), t)
    // The two never share storage afterwards.
    ensures cached.status != o.status && fresh(o.status)
    ensures (cached.status == old(cached.status) || fresh(cached.status))
  {
    t := Trace(e.slot, false, e.slot, false);
    var desired := new Storage(o.status.value);
    o.status := cached.status; // shared for now
    if cached.meta != o.meta {
      var r;
      ghost var seen;
      r, seen := e.PatchMain(o, cached.meta);
      t := Trace(seen, r.Ok?, e.slot, false);
      if !r.Ok? {
        o.status := desired;
        return false, t;
      }
      cached.CopyFrom(o);
    }
    o.status := desired;
    if cached.status.value != o.status.value {
      var r;
      ghost var seen;
      r, seen := e.PatchStatus(o, cached.status.value);
      t := t.(second := seen, statusDone := r.Ok?);
      // Removing the last finalizer of an object that is being deleted leaves no status to patch.
      if !r.Ok? && !(r.NotFound? && o.meta.deleting) { return false, t; }
    }
    cached.CopyFrom(o);
    ok := true;
  }

  // ---------- What a patch achieves when nobody interferes ----------

  ghost predicate Undisturbed<P, S>(before: Option<Object<P, S>>, cached: Object<P, S>, asked: Object<P, S>,
                                    t: Trace<P, S>)
  {
    && t.first == before
    && (t.mainDone ==> t.first.Some?)
    && t.second == if t.mainDone then AfterMain(t.first, cached.meta, asked.meta) else t.first
  }

  /** A merge patch gives what was asked for when applied to the state it was computed from. */
  ghost predicate MergesExactly<S(!new)>(merge: (S, S, S) -> S) {
    forall x, y :: merge(x, x, y) == y
  }

  /** What is left on the server. An object goes with its last finalizer only when its metadata is written. */
  function Left<P(==), S>(cached: Object<P, S>, asked: Object<P, S>): Option<Object<P, S>> {
    if cached.meta == asked.meta then Some(asked) else Kept(asked)
  }

  /**
   * With a current copy and no interference: on success the server, the copy and memory agree on metadata and status,
   * whichever of them changed, unless the object went away with its last finalizer; the status in memory is always
   * the one asked for.
   */
  lemma PatchAgrees<P, S(!new)>(e: Endpoint<P, S>, before: Option<Object<P, S>>, cached: Object<P, S>,
                                asked: Object<P, S>, t: Trace<P, S>, ok: bool, after: Option<Object<P, S>>,
                                cached': Object<P, S>, memory': Object<P, S>)
    requires before == Some(cached) && MergesExactly(e.merge) && asked.meta.deleting == cached.meta.deleting
    requires Patched(e, before, cached, asked, t, ok, after, cached', memory') && Undisturbed(before, cached, asked, t)
    ensures memory'.status == asked.status
    ensures ok ==> cached' == memory' == asked
    ensures ok ==> after == Left(cached, asked)
    ensures !ok ==> after == Kept(cached') || after == Some(cached)
    ensures !ok && Impeded(cached.meta, asked.meta, t, memory'.meta) ==> !Permitted(cached.meta, asked.meta)
  {
    assert e.merge(cached.status, cached.status, asked.status) == asked.status;
  }

  /** A patch whose first phase alone succeeded is completed by a retry. */
  lemma RetryCompletes<P, S(!new)>(e: Endpoint<P, S>, before: Option<Object<P, S>>, cached: Object<P, S>,
                                   asked: Object<P, S>, t: Trace<P, S>, after: Option<Object<P, S>>,
                                   cached': Object<P, S>, memory': Object<P, S>, t': Trace<P, S>,
                                   after': Option<Object<P, S>>, cached'': Object<P, S>, memory'': Object<P, S>)
    requires before == Some(cached) && MergesExactly(e.merge) && asked.meta.deleting == cached.meta.deleting
    requires asked.meta.finalizers != [] || !asked.meta.deleting
    requires Patched(e, before, cached, asked, t, false, after, cached', memory')
    requires Undisturbed(before, cached, asked, t)
    requires Patched(e, after, cached', memory', t', true, after', cached'', memory'')
    requires Undisturbed(after, cached', memory', t')
    ensures after' == Some(asked) && cached'' == memory'' == asked
    ensures t.mainDone ==> !t'.mainDone
  {
    PatchAgrees(e, before, cached, asked, t, false, after, cached', memory');
    assert e.merge(cached.status, cached.status, asked.status) == asked.status;
  }

  // ---------- What a patch achieves while others interfere ----------

  /** The copy knows whether the stored object carries the controller's finalizer, and then its status. */
  ghost predicate InStep<P, S>(finalizer: string, slot: Option<Object<P, S>>, copy: Object<P, S>) {
    && (Guarded(slot, finalizer) <==> finalizer in copy.meta.finalizers)
    && (Guarded(slot, finalizer) ==> slot.value.status == copy.status)
  }

  /** In memory, at most the controller's finalizer differs from the copy. */
  ghost predicate MetaClose<P>(finalizer: string, copy: Meta<P>, memory: Meta<P>) {
    && copy.deleting == memory.deleting && copy.spec == memory.spec
    && (copy.finalizers == memory.finalizers || (finalizer in copy.finalizers <==> finalizer !in memory.finalizers))
  }

  /** A patch keeps the copy in step; a guarded object ends with its old status or, on success, the one asked for. */
  lemma PatchStaysInStep<P, S(!new)>(e: Endpoint<P, S>, before: Option<Object<P, S>>, copy: Object<P, S>,
                                     asked: Object<P, S>, t: Trace<P, S>, ok: bool, after: Option<Object<P, S>>,
                                     copy': Object<P, S>, memory': Object<P, S>)
    requires MergesExactly(e.merge)
    requires Patched(e, before, copy, asked, t, ok, after, copy', memory')
    requires InStep(e.finalizer, before, copy) && MetaClose(e.finalizer, copy.meta, asked.meta)
    ensures InStep(e.finalizer, after, copy') && MetaClose(e.finalizer, copy'.meta, memory'.meta)
    ensures e.finalizer in asked.meta.finalizers && ok ==>
      Guarded(after, e.finalizer) && after.value.status == memory'.status == asked.status
    ensures Guarded(before, e.finalizer) && e.finalizer in asked.meta.finalizers ==>
      Guarded(after, e.finalizer) && (after.value.status == before.value.status || after.value.status == asked.status)
    ensures Guarded(before, e.finalizer) && Guarded(after, e.finalizer) && !ok ==>
      after.value.status == before.value.status
    ensures !ok ==> memory'.status == asked.status
  {
    assert e.merge(copy.status, copy.status, asked.status) == asked.status;
    if t.mainDone {
      var s := t.first.value.status;
      assert e.merge(s, s, asked.status) == asked.status;
    }
  }
}
