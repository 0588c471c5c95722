/** The Flux controller's reconcile loop over one release: the objects on the
  * cluster, the persisted status, and a log of what was asked of the API server. */
module ReleaseController {
  import opened Options
  import opened ResourceIds
  import opened StableSort

  /** The fate of one API call. Lost: the server did it, but the reply was an error. */
  datatype Reply = Done | Lost | Failed

  datatype Lookup = Found | Missing | Unreachable

  datatype Outcome = Ignored | Requeued | Errored

  datatype Condition = Condition(status: bool, reason: string, generation: int)

  datatype Status = Status(
    lastApplied: string,
    lastAttempted: string,
    lastHandled: string,
    observedGeneration: int,
    inventory: Option<seq<ResourceRef>>,
    conditions: map<string, Condition>)

  datatype Event =
    | Applied(id: Identity)
    | Deleted(id: Identity)
    | Recorded(revision: string, objects: seq<Object>)

  datatype World = World(live: set<Identity>, stored: Status, log: seq<Event>)

  /** One delivery of the release to Reconcile: what its spec says, and how every
    * stage and API call turns out. */
  datatype Attempt = Attempt(
    lookup: Lookup,
    suspend: bool,
    generation: int,
    prune: bool,
    targetNamespace: string,
    requestedAt: Option<string>,
    begin: Reply,
    source: Option<string>,
    fetched: bool,
    values: bool,
    rendered: Option<seq<Object>>,
    applies: seq<Reply>,
    deletes: seq<Reply>,
    finish: Reply)

  const NEW_STATUS := Status("", "", "", 0, None, map[])
  const NEW_WORLD := World({}, NEW_STATUS, [])

  // ---------------------------------------------------------------- objects

  function Ids(objs: seq<Object>): set<Identity>
  {
    set o | o in objs :: IdentityOf(o)
  }

  function Refs(objs: seq<Object>): seq<ResourceRef>
  {
    seq(|objs|, i requires 0 <= i < |objs| => RefOf(objs[i]))
  }

  function Labels(objs: seq<Object>): set<Identity>
  {
    set o | o in objs :: Label(o)
  }

  predicate AllSound(objs: seq<Object>)
  {
    forall o :: o in objs ==> Sound(o)
  }

  function ApplyRank(kind: string): nat
  {
    if kind in {"Namespace", "CustomResourceDefinition"} then 0
    else if kind in {"ConfigMap", "Secret", "SealedSecret"} then 1
    else if kind == "PersistentVolumeClaim" then 2
    else if kind in {"ServiceAccount", "ClusterRole", "Role"} then 3
    else if kind in {"ClusterRoleBinding", "RoleBinding", "Service"} then 4
    else if kind in {"Deployment", "DaemonSet", "StatefulSet", "CronJob"} then 5
    else if kind in {"Ingress", "Certificate"} then 6
    else if kind == "HorizontalPodAutoscaler" then 7
    else 8
  }

  /** Kinds that run pods, and the kinds these may refer to, CSI drivers of inline volumes included. */
  predicate RunsPods(kind: string)
  {
    kind in {"Deployment", "StatefulSet", "DaemonSet", "CronJob"}
  }

  predicate Prerequisite(kind: string)
  {
    kind in {"Namespace", "CustomResourceDefinition", "CSIDriver", "ServiceAccount", "ClusterRole", "ClusterRoleBinding",
             "Role", "RoleBinding", "ConfigMap", "Secret", "SealedSecret", "PersistentVolumeClaim", "Service"}
  }

  predicate ByRank(o: Object, p: Object)
  {
    ApplyRank(o.kind) < ApplyRank(p.kind)
  }

  function InApplyOrder(objs: seq<Object>): seq<Object>
  {
    Sort(ByRank, objs)
  }

  /** TargetNamespace, when set, overwrites the namespace of every object. */
  function Retarget(objs: seq<Object>, namespace: string): seq<Object>
  {
    if namespace == "" then objs
    else seq(|objs|, i requires 0 <= i < |objs| => objs[i].(namespace := namespace))
  }

  // ------------------------------------------------------------- API calls

  /** The reply to the i-th call of a stage; calls beyond the list succeed. */
  function At(replies: seq<Reply>, i: nat): Reply
  {
    if i < |replies| then replies[i] else Done
  }

  /** The first call from i on that does not come back Done, or n. */
  function StopFrom(replies: seq<Reply>, i: nat, n: nat): (r: nat)
    requires i <= n
    ensures i <= r <= n
    ensures forall k :: i <= k < r ==> At(replies, k) == Done
    ensures r < n ==> At(replies, r) != Done
    decreases n - i
  {
    if i == n || At(replies, i) != Done then i else StopFrom(replies, i + 1, n)
  }

  /** How many of n calls, made in order until one errs, take effect: all before the first
    * error, and the erring one too when only its reply was lost. */
  function Effective(replies: seq<Reply>, n: nat): (r: nat)
    ensures r <= n
    ensures forall k :: 0 <= k < r - 1 ==> At(replies, k) == Done
    ensures r > 0 ==> At(replies, r - 1) != Failed
    ensures r < n ==> At(replies, r) == Failed || (r > 0 && At(replies, r - 1) == Lost)
  {
    var stop := StopFrom(replies, 0, n);
    if stop < n && At(replies, stop) == Lost then stop + 1 else stop
  }

  /** A merge patch carries the fields in which `changed` differs from `base`. */
  function Patched(base: Status, changed: Status, stored: Status): Status
  {
    Status(
      if changed.lastApplied != base.lastApplied then changed.lastApplied else stored.lastApplied,
      if changed.lastAttempted != base.lastAttempted then changed.lastAttempted else stored.lastAttempted,
      if changed.lastHandled != base.lastHandled then changed.lastHandled else stored.lastHandled,
      if changed.observedGeneration != base.observedGeneration then changed.observedGeneration else stored.observedGeneration,
      if changed.inventory != base.inventory then changed.inventory else stored.inventory,
      if changed.conditions != base.conditions then changed.conditions else stored.conditions)
  }

  function PatchStatus(w: World, base: Status, changed: Status, reply: Reply): World
  {
    if reply.Failed? then w else w.(stored := Patched(base, changed, w.stored))
  }

  function AppliedEvents(objs: seq<Object>): seq<Event>
  {
    seq(|objs|, i requires 0 <= i < |objs| => Applied(IdentityOf(objs[i])))
  }

  function DeletedEvents(ids: seq<Identity>): seq<Event>
  {
    seq(|ids|, i requires 0 <= i < |ids| => Deleted(ids[i]))
  }

  function WithApplied(w: World, objs: seq<Object>): World
  {
    w.(live := w.live + Ids(objs), log := w.log + AppliedEvents(objs))
  }

  function WithDeleted(w: World, gone: seq<Identity>, asked: seq<Identity>): World
  {
    w.(live := w.live - (set t | t in gone), log := w.log + DeletedEvents(asked))
  }

  /** Server-side apply of objs in order, up to the first error. */
  function ApplyAll(w: World, objs: seq<Object>, replies: seq<Reply>): (World, bool)
  {
    (WithApplied(w, objs[..Effective(replies, |objs|)]), StopFrom(replies, 0, |objs|) == |objs|)
  }

  function NewIds(refs: seq<ResourceRef>): set<string>
  {
    set r | r in refs :: r.id
  }

  /** What a prune asks to delete: entries of the old inventory whose id is not in the new one. */
  function Stale(previous: seq<ResourceRef>, newIds: set<string>): seq<Identity>
  {
    if previous == [] then []
    else
      (if previous[0].id in newIds || ObjectFromRef(previous[0]).None? then []
       else [IdentityOf(ObjectFromRef(previous[0]).value)])
      + Stale(previous[1..], newIds)
  }

  function Min(a: nat, b: nat): nat { if a < b then a else b }

  /** Deletion in order, up to the first error other than NotFound. */
  function DeleteAll(w: World, targets: seq<Identity>, replies: seq<Reply>): World
  {
    WithDeleted(w, targets[..Effective(replies, |targets|)],
                targets[..Min(StopFrom(replies, 0, |targets|) + 1, |targets|)])
  }

  // ------------------------------------------------------------- Reconcile

  const RECONCILING := "Reconciling"
  const READY := "Ready"

  function Starting(s: Status, generation: int): Status
  {
    s.(conditions := s.conditions[RECONCILING := Condition(true, "Reconciling", generation)])
  }

  function Finished(s: Status, ready: Condition): Status
  {
    s.(conditions := s.conditions[READY := ready] - {RECONCILING})
  }

  /** The working copy after the source resolved: revision noted, manual request noted. */
  function Noted(s: Status, revision: string, requestedAt: Option<string>): Status
  {
    var t := s.(lastAttempted := revision);
    if requestedAt.Some? && requestedAt.value != t.lastHandled then t.(lastHandled := requestedAt.value) else t
  }

  function GiveUp(w: World, local: Status, reason: string, a: Attempt): (World, Outcome)
  {
    (PatchStatus(w, local, Finished(local, Condition(false, reason, a.generation)), a.finish),
     if a.finish.Done? then Requeued else Errored)
  }

  function PruneStage(w: World, local: Status, objs: seq<Object>, a: Attempt): World
  {
    if a.prune && local.inventory.Some?
    then DeleteAll(w, Stale(local.inventory.value, NewIds(Refs(objs))), a.deletes)
    else w
  }

  /** The success status write; when it takes effect it is logged. */
  function Commit(w: World, local: Status, revision: string, objs: seq<Object>, a: Attempt): (World, Outcome)
  {
    var changed := Finished(local.(lastApplied := revision,
                                   inventory := Some(Refs(objs)),
                                   observedGeneration := a.generation),
                            Condition(true, "Succeeded", a.generation));
    var v := PatchStatus(w, local, changed, a.finish);
    (if a.finish.Failed? then v else v.(log := v.log + [Recorded(revision, objs)]),
     if a.finish.Done? then Requeued else Errored)
  }

  function Deploy(w: World, local: Status, revision: string, objs: seq<Object>, a: Attempt): (World, Outcome)
  {
    var ordered := InApplyOrder(objs);
    var (v, ok) := ApplyAll(w, ordered, a.applies);
    if !ok then GiveUp(v, local, "ApplyFailed", a)
    else Commit(PruneStage(v, local, ordered, a), local, revision, ordered, a)
  }

  function AfterBegin(w: World, a: Attempt): (World, Outcome)
  {
    if a.source.None? then GiveUp(w, w.stored, "SourceNotReady", a)
    else
      var local := Noted(w.stored, a.source.value, a.requestedAt);
      if !a.fetched then GiveUp(w, local, "ArtifactFetchFailed", a)
      else if !a.values then GiveUp(w, local, "ValuesResolveFailed", a)
      else if a.rendered.None? then GiveUp(w, local, "RenderFailed", a)
      else Deploy(w, local, a.source.value, Retarget(a.rendered.value, a.targetNamespace), a)
  }

  /** One whole Reconcile call. */
  function Step(w: World, a: Attempt): (World, Outcome)
  {
    if a.lookup.Missing? then (w, Ignored)
    else if a.lookup.Unreachable? then (w, Errored)
    else if a.suspend then (w, Ignored)
    else
      var v := PatchStatus(w, w.stored, Starting(w.stored, a.generation), a.begin);
      if !a.begin.Done? then (v, Errored) else AfterBegin(v, a)
  }

  /** What the caller is told: an error exactly when the release cannot be read or one of the two
    * status writes does not come back, whatever else fails; nothing at all, and nothing is done,
    * exactly when the release is gone or suspended. */
  lemma OutcomeIs(w: World, a: Attempt)
    ensures Step(w, a).1 == Errored <==>
            || a.lookup.Unreachable?
            || (a.lookup.Found? && !a.suspend && !(a.begin.Done? && a.finish.Done?))
    ensures Step(w, a).1 == Ignored <==> a.lookup.Missing? || (a.lookup.Found? && a.suspend)
    ensures Step(w, a).1 == Ignored || a.lookup.Unreachable? ==> Step(w, a).0 == w
  {
    hide PatchStatus, ApplyAll, PruneStage, InApplyOrder, Finished, Noted, Retarget;
  }

  /** The reconciler and the API server it talks to. */
  class Reconciler {
    var live: set<Identity>
    var stored: Status
    ghost var log: seq<Event>

    constructor ()
      ensures Model() == NEW_WORLD
    {
      live, stored, log := {}, NEW_STATUS, [];
    }

    ghost function Model(): World
      reads this
    {
      World(live, stored, log)
    }

    method SendStatus(base: Status, changed: Status, reply: Reply)
      modifies this`stored
      ensures Model() == PatchStatus(old(Model()), base, changed, reply)
    {
      if !reply.Failed? {
        stored := Patched(base, changed, stored);
      }
    }

    method ApplyOne(obj: Object, reply: Reply)
      modifies this`live, this`log
      ensures Model() == if reply.Failed? then old(Model()) else WithApplied(old(Model()), [obj])
    {
      if !reply.Failed? {
        live := live + {IdentityOf(obj)};
        log := log + [Applied(IdentityOf(obj))];
      }
    }

    method DeleteOne(target: Identity, reply: Reply)
      modifies this`live, this`log
      ensures Model() == WithDeleted(old(Model()), if reply.Failed? then [] else [target], [target])
    {
      log := log + [Deleted(target)];
      if !reply.Failed? {
        live := live - {target};
      }
    }

    /** Sorts in place, applies in order, and lists what it applied. */
    method ApplyObjects(objects: array<Object>, replies: seq<Reply>)
      returns (inventory: seq<ResourceRef>, ok: bool)
      modifies objects, this`live, this`log
      ensures objects[..] == InApplyOrder(old(objects[..]))
      ensures (Model(), ok) == ApplyAll(old(Model()), InApplyOrder(old(objects[..])), replies)
      ensures inventory == Refs(InApplyOrder(old(objects[..]))[..StopFrom(replies, 0, objects.Length)])
    {
      hide WithApplied, Refs, Sort, RefOf, IdentityOf;
      RankIsWeakOrder();
      SortInPlace(ByRank, objects);
      ghost var objs := objects[..];
      ghost var before := Model();
      inventory := [];
      var i := 0;
      WithNothingApplied(before);
      while i < objects.Length
        invariant 0 <= i <= objects.Length && objects[..] == objs
        invariant forall k :: 0 <= k < i ==> At(replies, k) == Done
        invariant inventory == Refs(objs[..i])
        invariant Model() == WithApplied(before, objs[..i])
      {
        StopIs(replies, i, |objs|);
        WithOneMoreApplied(before, objs, i);
        ApplyOne(objects[i], At(replies, i));
        if !At(replies, i).Done? {
          return inventory, false;
        }
        inventory := inventory + [RefOf(objects[i])];
        i := i + 1;
      }
      StopIs(replies, i, |objs|);
      ok := true;
    }

    /** Deletes what the old inventory lists and the new one does not. */
    method PruneObjects(oldInventory: seq<ResourceRef>, newInventory: seq<ResourceRef>, replies: seq<Reply>)
      returns (pruned: nat, ok: bool)
      modifies this`live, this`log
      ensures Model() == DeleteAll(old(Model()), Stale(oldInventory, NewIds(newInventory)), replies)
      ensures pruned == StopFrom(replies, 0, |Stale(oldInventory, NewIds(newInventory))|)
      ensures ok <==> pruned == |Stale(oldInventory, NewIds(newInventory))|
    {
      hide ObjectFromRef, WithDeleted, IdentityOf, NewIds, DeleteAll;
      var newIds := CollectIds(newInventory);
      ghost var targets := Stale(oldInventory, newIds);
      ghost var before := Model();
      pruned := 0;
      var i := 0;
      WithNothingDeleted(before);
      while i < |oldInventory|
        invariant 0 <= i <= |oldInventory|
        invariant pruned <= |targets| && targets[pruned..] == Stale(oldInventory[i..], newIds)
        invariant forall k :: 0 <= k < pruned ==> At(replies, k) == Done
        invariant Model() == WithDeleted(before, targets[..pruned], targets[..pruned])
      {
        var ref := oldInventory[i];
        var obj := ObjectFromRef(ref);
        StaleStep(oldInventory, newIds, i, targets, pruned);
        if ref.id !in newIds && obj.Some? {
          StopIs(replies, pruned, |targets|);
          WithOneMoreDeleted(before, targets, pruned);
          DeleteOne(IdentityOf(obj.value), At(replies, pruned));
          if !At(replies, pruned).Done? {
            PruneStops(before, targets, replies, pruned);
            return pruned, false;
          }
          pruned := pruned + 1;
        }
        i := i + 1;
      }
      assert |targets[pruned..]| == 0;
      StopIs(replies, pruned, |targets|);
      PruneEnds(before, targets, replies);
      ok := true;
    }

    static method CollectIds(refs: seq<ResourceRef>) returns (ids: set<string>)
      ensures ids == NewIds(refs)
    {
      ids := {};
      var n := 0;
      while n < |refs|
        invariant 0 <= n <= |refs|
        invariant ids == NewIds(refs[..n])
      {
        assert refs[..n + 1] == refs[..n] + [refs[n]];
        ids := ids + {refs[n].id};
        n := n + 1;
      }
      assert refs[..n] == refs;
    }

    method FailWithError(local: Status, reason: string, a: Attempt) returns (out: Outcome)
      modifies this`stored
      ensures (Model(), out) == GiveUp(old(Model()), local, reason, a)
      ensures live == old(live) && log == old(log) && stored == old(stored).(conditions := stored.conditions)
    {
      SendStatus(local, Finished(local, Condition(false, reason, a.generation)), a.finish);
      out := if a.finish.Done? then Requeued else Errored;
    }

    /** Overwrites the namespaces of the decoded objects in place. */
    static method RetargetObjects(rendered: seq<Object>, namespace: string) returns (objects: array<Object>)
      ensures fresh(objects) && objects[..] == Retarget(rendered, namespace)
    {
      objects := new Object[|rendered|](i requires 0 <= i < |rendered| => rendered[i]);
      if namespace != "" {
        var i := 0;
        while i < objects.Length
          invariant 0 <= i <= objects.Length == |rendered|
          invariant forall k :: 0 <= k < i ==> objects[k] == rendered[k].(namespace := namespace)
          invariant forall k :: i <= k < objects.Length ==> objects[k] == rendered[k]
        {
          objects[i] := objects[i].(namespace := namespace);
          i := i + 1;
        }
      }
    }

    method Reconcile(a: Attempt) returns (out: Outcome)
      modifies this
      ensures (Model(), out) == Step(old(Model()), a)
      ensures out == Errored <==>
              || a.lookup.Unreachable?
              || (a.lookup.Found? && !a.suspend && !(a.begin.Done? && a.finish.Done?))
      ensures out == Ignored <==> a.lookup.Missing? || (a.lookup.Found? && a.suspend)
      ensures out == Ignored ==> Model() == old(Model())
    {
      OutcomeIs(Model(), a);
      if a.lookup.Missing? { return Ignored; }
      if a.lookup.Unreachable? { return Errored; }
      if a.suspend { return Ignored; }

      SendStatus(stored, Starting(stored, a.generation), a.begin);
      if !a.begin.Done? { return Errored; }
      var release := stored;

      if a.source.None? {
        out := FailWithError(release, "SourceNotReady", a);
        return;
      }
      release := release.(lastAttempted := a.source.value);
      if a.requestedAt.Some? && a.requestedAt.value != release.lastHandled {
        release := release.(lastHandled := a.requestedAt.value);
      }
      if !a.fetched {
        out := FailWithError(release, "ArtifactFetchFailed", a);
        return;
      }
      if !a.values {
        out := FailWithError(release, "ValuesResolveFailed", a);
        return;
      }
      if a.rendered.None? {
        out := FailWithError(release, "RenderFailed", a);
        return;
      }

      var objects := RetargetObjects(a.rendered.value, a.targetNamespace);
      var inventory, ok := ApplyObjects(objects, a.applies);
      if !ok {
        out := FailWithError(release, "ApplyFailed", a);
        return;
      }
      ghost var ordered := objects[..];
      assert ordered[..objects.Length] == ordered;

      if a.prune && release.inventory.Some? {
        var pruned, _ := PruneObjects(release.inventory.value, inventory, a.deletes);
      }

      var done := Finished(release.(lastApplied := a.source.value,
                                    inventory := Some(inventory),
                                    observedGeneration := a.generation),
                           Condition(true, "Succeeded", a.generation));
      SendStatus(release, done, a.finish);
      if !a.finish.Failed? {
        log := log + [Recorded(a.source.value, objects[..])];
      }
      out := if a.finish.Done? then Requeued else Errored;
    }
  }

  lemma RankIsWeakOrder()
    ensures WeakOrder(ByRank)
  {
  }

  lemma WithNothingApplied(w: World)
    ensures WithApplied(w, []) == w && Refs([]) == []
  {
    assert w.log + AppliedEvents([]) == w.log;
  }

  lemma WithOneMoreApplied(w: World, objs: seq<Object>, i: nat)
    requires i < |objs|
    ensures WithApplied(WithApplied(w, objs[..i]), [objs[i]]) == WithApplied(w, objs[..i + 1])
    ensures Refs(objs[..i]) + [RefOf(objs[i])] == Refs(objs[..i + 1])
  {
    assert objs[..i + 1] == objs[..i] + [objs[i]];
    assert Ids(objs[..i + 1]) == Ids(objs[..i]) + Ids([objs[i]]);
    assert AppliedEvents(objs[..i + 1]) == AppliedEvents(objs[..i]) + AppliedEvents([objs[i]]);
  }

  lemma StaleStep(refs: seq<ResourceRef>, newIds: set<string>, i: nat, targets: seq<Identity>, n: nat)
    requires i < |refs| && n <= |targets| && targets[n..] == Stale(refs[i..], newIds)
    ensures if refs[i].id in newIds || ObjectFromRef(refs[i]).None? then targets[n..] == Stale(refs[i + 1..], newIds)
            else && n < |targets|
                 && targets[n] == IdentityOf(ObjectFromRef(refs[i]).value)
                 && targets[n + 1..] == Stale(refs[i + 1..], newIds)
  {
    assert refs[i..][1..] == refs[i + 1..];
    if !(refs[i].id in newIds || ObjectFromRef(refs[i]).None?) {
      assert targets[n] == targets[n..][0];
      assert targets[n + 1..] == targets[n..][1..];
    }
  }

  lemma WithNothingDeleted(w: World)
    ensures WithDeleted(w, [], []) == w
  {
    assert w.log + DeletedEvents([]) == w.log;
  }

  lemma WithOneMoreDeleted(w: World, ids: seq<Identity>, i: nat)
    requires i < |ids|
    ensures var v := WithDeleted(w, ids[..i], ids[..i]);
            && WithDeleted(v, [ids[i]], [ids[i]]) == WithDeleted(w, ids[..i + 1], ids[..i + 1])
            && WithDeleted(v, [], [ids[i]]) == WithDeleted(w, ids[..i], ids[..i + 1])
  {
    assert ids[..i + 1] == ids[..i] + [ids[i]];
    assert DeletedEvents(ids[..i + 1]) == DeletedEvents(ids[..i]) + DeletedEvents([ids[i]]);
  }

  lemma PruneStops(w: World, targets: seq<Identity>, replies: seq<Reply>, n: nat)
    requires n < |targets| && forall k :: 0 <= k < n ==> At(replies, k) == Done
    requires At(replies, n) != Done
    ensures DeleteAll(w, targets, replies) ==
            WithDeleted(w, targets[..if At(replies, n).Lost? then n + 1 else n], targets[..n + 1])
  {
    hide WithDeleted;
    StopIs(replies, n, |targets|);
  }

  lemma PruneEnds(w: World, targets: seq<Identity>, replies: seq<Reply>)
    requires forall k :: 0 <= k < |targets| ==> At(replies, k) == Done
    ensures DeleteAll(w, targets, replies) == WithDeleted(w, targets[..|targets|], targets[..|targets|])
  {
    hide WithDeleted;
    StopIs(replies, |targets|, |targets|);
  }

  lemma {:induction false} StopIs(replies: seq<Reply>, i: nat, n: nat)
    requires i <= n && forall k :: 0 <= k < i ==> At(replies, k) == Done
    ensures i == n || At(replies, i) != Done ==> StopFrom(replies, 0, n) == i
  {
  }
}
