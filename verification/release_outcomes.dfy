/** What one delivery writes for the user to read, and what it asks of the cluster, in terms of the
  * delivery alone. */
module ReleaseOutcomes {
  import opened Seqs
  import opened ResourceIds
  import opened StableSort
  import opened ReleaseController
  import opened ReleaseSafety

  // ------------------------------------------------------------- the status

  /** Past the begin patch. */
  predicate Begun(a: Attempt)
  {
    a.lookup.Found? && !a.suspend && a.begin.Done?
  }

  /** Some apply call does not come back. */
  predicate ApplyErrs(a: Attempt)
    requires a.rendered.Some?
  {
    exists i :: 0 <= i < |a.applies| && i < |a.rendered.value| && a.applies[i] != Done
  }

  /** The stage an attempt stops at, as the reason it is to give, or "Succeeded". */
  ghost predicate StopsFor(a: Attempt, reason: string)
  {
    match reason
    case "SourceNotReady" => a.source.None?
    case "ArtifactFetchFailed" => a.source.Some? && !a.fetched
    case "ValuesResolveFailed" => a.source.Some? && a.fetched && !a.values
    case "RenderFailed" => a.source.Some? && a.fetched && a.values && a.rendered.None?
    case "ApplyFailed" => a.source.Some? && a.fetched && a.values && a.rendered.Some? && ApplyErrs(a)
    case "Succeeded" => a.source.Some? && a.fetched && a.values && a.rendered.Some? && !ApplyErrs(a)
    case _ => false
  }

  lemma ApplyErrsIs(a: Attempt)
    requires a.rendered.Some?
    ensures FullyApplied(a) <==> !ApplyErrs(a)
  {
    var n := |a.rendered.value|;
    assert |Desired(a)| == n;
    var stop := StopFrom(a.applies, 0, n);
    if stop < n {
      assert At(a.applies, stop) != Done && a.applies[stop] != Done;
    }
    if i :| 0 <= i < |a.applies| && i < n && a.applies[i] != Done {
      assert At(a.applies, i) != Done;
    }
  }

  /** The condition a delivery persists, and what else of the status it changes. An attempt whose
    * last status write takes effect is not Reconciling any more, and Ready or not for the reason
    * of the stage it stopped at; the generation is observed by successes only. */
  lemma StatusSays(w: World, a: Attempt, reason: string)
    requires Begun(a) && StopsFor(a, reason)
    ensures var s := Step(w, a).0.stored;
            && (!a.finish.Failed? ==>
                  s.conditions == (w.stored.conditions - {"Reconciling"})
                                  ["Ready" := Condition(reason == "Succeeded", reason, a.generation)])
            && (a.finish.Failed? ==>
                  s.conditions == w.stored.conditions["Reconciling" := Condition(true, "Reconciling", a.generation)])
            && s.observedGeneration == (if reason == "Succeeded" && !a.finish.Failed? then a.generation
                                        else w.stored.observedGeneration)
            && (reason == "Succeeded" && !a.finish.Failed? ==>
                  a.source.Some? && s.lastApplied == a.source.value)
  {
    var v := PatchStatus(w, w.stored, Starting(w.stored, a.generation), a.begin);
    MarkedReconciling(w, a);
    if reason == "Succeeded" {
      var u, local := Committing(v, a);
      CommitSays(u, local, a);
    } else {
      var u, local := GivingUp(v, a, reason);
      GiveUpKeeps(u, local, reason, a);
      hide GiveUp, Step, AfterBegin, StopsFor;
      SameOtherFields(w, v, GiveUp(u, local, reason, a).0);
    }
  }

  lemma SameOtherFields(w: World, v: World, x: World)
    requires v == w.(stored := w.stored.(conditions := v.stored.conditions))
    requires x.stored == v.stored.(conditions := x.stored.conditions)
    ensures x.stored.observedGeneration == w.stored.observedGeneration
  {
  }

  lemma MarkedReconciling(w: World, a: Attempt)
    requires Begun(a)
    ensures var v := PatchStatus(w, w.stored, Starting(w.stored, a.generation), a.begin);
            && v == w.(stored := w.stored.(conditions :=
                         w.stored.conditions["Reconciling" := Condition(true, "Reconciling", a.generation)]))
            && Step(w, a).0 == AfterBegin(v, a).0
  {
    hide AfterBegin;
  }

  /** An attempt that stops early gives up for that reason, with the status as it was. */
  lemma GivingUp(v: World, a: Attempt, reason: string) returns (u: World, local: Status)
    requires StopsFor(a, reason) && reason != "Succeeded"
    ensures AfterBegin(v, a).0 == GiveUp(u, local, reason, a).0
    ensures u.stored == v.stored && local.conditions == v.stored.conditions
  {
    hide GiveUp, PatchStatus, Commit, PruneStage, InApplyOrder, Retarget, ApplyErrs;
    u, local := v, v.stored;
    if a.source.Some? {
      local := Noted(v.stored, a.source.value, a.requestedAt);
      if reason == "ApplyFailed" {
        ApplyErrsIs(a);
        SortedLength(Desired(a));
        u := ApplyAll(v, InApplyOrder(Desired(a)), a.applies).0;
      }
    }
  }

  /** And one that does not commits from there. */
  lemma Committing(v: World, a: Attempt) returns (u: World, local: Status)
    requires StopsFor(a, "Succeeded")
    ensures a.source.Some?
    ensures AfterBegin(v, a).0 == Commit(u, local, a.source.value, InApplyOrder(Desired(a)), a).0
    ensures u.stored == v.stored
    ensures local.conditions == v.stored.conditions && local.observedGeneration == v.stored.observedGeneration
    ensures local.lastApplied == v.stored.lastApplied
  {
    hide PatchStatus, Commit, InApplyOrder, Retarget, ApplyErrs, Stale, Refs;
    local := Noted(v.stored, a.source.value, a.requestedAt);
    ApplyErrsIs(a);
    SortedLength(Desired(a));
    var objs := InApplyOrder(Desired(a));
    u := PruneStage(ApplyAll(v, objs, a.applies).0, local, objs, a);
  }

  lemma CommitSays(u: World, local: Status, a: Attempt)
    requires a.source.Some? && local.conditions == u.stored.conditions && local.lastApplied == u.stored.lastApplied
    requires local.observedGeneration == u.stored.observedGeneration
    ensures var s := Commit(u, local, a.source.value, InApplyOrder(Desired(a)), a).0.stored;
            && (a.finish.Failed? ==> s == u.stored)
            && (!a.finish.Failed? ==>
                  && s.conditions == u.stored.conditions["Ready" := Condition(true, "Succeeded", a.generation)]
                                     - {"Reconciling"}
                  && s.observedGeneration == a.generation && s.lastApplied == a.source.value)
  {
    hide InApplyOrder, Desired, Refs;
  }

  /** Before that the release is at most marked as being worked on. */
  lemma NotBegun(w: World, a: Attempt)
    requires !Begun(a)
    ensures var s := Step(w, a).0.stored;
            s == if a.lookup.Found? && !a.suspend && a.begin.Lost?
                 then w.stored.(conditions := w.stored.conditions["Reconciling" := Condition(true, "Reconciling", a.generation)])
                 else w.stored
  {
  }

  // --------------------------------------------------------- what is applied

  /** The cluster object a rendered object becomes under a target namespace. */
  predicate Becomes(o: Object, targetNamespace: string, id: Identity)
  {
    && id.kind == o.kind && id.name == o.name && id.group == o.group
    && id.namespace ==
       if o.kind in {"Namespace", "CustomResourceDefinition", "CSIDriver", "ClusterRole", "ClusterRoleBinding"} then ""
       else if targetNamespace != "" then targetNamespace else o.namespace
  }

  lemma RetargetedIs(o: Object, targetNamespace: string, id: Identity)
    ensures var p := if targetNamespace == "" then o else o.(namespace := targetNamespace);
            IdentityOf(p) == id <==> Becomes(o, targetNamespace, id)
  {
  }

  lemma DesiredAre(a: Attempt, id: Identity)
    ensures a.rendered.None? ==> Desired(a) == []
    ensures a.rendered.Some? ==>
              (id in Ids(Desired(a)) <==> exists o :: o in a.rendered.value && Becomes(o, a.targetNamespace, id))
  {
    hide IdentityOf, Becomes;
    if a.rendered.Some? {
      var rendered, objs := a.rendered.value, Desired(a);
      if id in Ids(objs) {
        var i :| 0 <= i < |objs| && IdentityOf(objs[i]) == id;
        RetargetedIs(rendered[i], a.targetNamespace, id);
      }
      if o :| o in rendered && Becomes(o, a.targetNamespace, id) {
        var i :| 0 <= i < |rendered| && rendered[i] == o;
        RetargetedIs(o, a.targetNamespace, id);
        assert objs[i] in objs;
      }
    }
  }

  /** In the log of any run, what an action applied is what a rendered object of its own becomes. */
  lemma AppliedIsRendered(acts: seq<Action>, k: nat, j: nat)
    requires k < |acts| && |LogAt(acts, k)| <= j < |LogAt(acts, k + 1)| && LogAt(acts, k + 1)[j].Applied?
    ensures acts[k].Deliver? && acts[k].attempt.rendered.Some?
    ensures exists o :: o in acts[k].attempt.rendered.value
                        && Becomes(o, acts[k].attempt.targetNamespace, LogAt(acts, k + 1)[j].id)
  {
    hide Step, Run, OneBlock, Desired, Ids, InApplyOrder, IdentityOf, Becomes;
    RunStep(acts, k);
    RunStores(acts[..k]);
    var u := Run(NEW_WORLD, acts[..k]);
    assert acts[k].Deliver?;
    var a := acts[k].attempt;
    StepAddsBlock(u, a);
    BlockEvents(u.log, LogAt(acts, k + 1), a, j);
    InApplyOrderMembers(Desired(a));
    var id := LogAt(acts, k + 1)[j].id;
    InIds(InApplyOrder(Desired(a)), j - |u.log|);
    DesiredAre(a, id);
    NoIds();
  }

  lemma InIds(objs: seq<Object>, i: nat)
    requires i < |objs|
    ensures IdentityOf(objs[i]) in Ids(objs)
  {
  }

  lemma NoIds()
    ensures Ids([]) == {}
  {
  }

  /** And an action that commits applied what each of its rendered objects becomes. */
  lemma RenderedIsApplied(acts: seq<Action>, k: nat, o: Object, id: Identity)
    requires k < |acts| && acts[k].Deliver? && Commits(acts[k].attempt)
    requires o in acts[k].attempt.rendered.value && Becomes(o, acts[k].attempt.targetNamespace, id)
    ensures AppliedBetween(LogAt(acts, k + 1), |LogAt(acts, k)|, |LogAt(acts, k + 1)|, id)
  {
    hide Step, Run, IsBlock, Desired, Ids, InApplyOrder, IdentityOf, Becomes;
    RunStep(acts, k);
    RunStores(acts[..k]);
    var u, a := Run(NEW_WORLD, acts[..k]), acts[k].attempt;
    StepAddsBlock(u, a);
    DesiredAre(a, id);
    InApplyOrderMembers(Desired(a));
    var n: nat, gone, record :| IsBlock(u.log, LogAt(acts, k + 1), a, n, gone, record);
    BlockApplies(u.log, LogAt(acts, k + 1), a, n, gone, record, id);
  }

  lemma BlockApplies(before: seq<Event>, after: seq<Event>, a: Attempt, n: nat, gone: seq<Identity>, record: seq<Event>,
                     id: Identity)
    requires IsBlock(before, after, a, n, gone, record) && Commits(a) && id in Ids(InApplyOrder(Desired(a)))
    ensures AppliedBetween(after, |before|, |after|, id)
  {
    hide Commits, Desired, InApplyOrder, IdentityOf, StaleIds;
    var objs := InApplyOrder(Desired(a));
    var i :| 0 <= i < |objs| && IdentityOf(objs[i]) == id;
    assert objs[..n] == objs;
    assert after[|before| + i] == AppliedEvents(objs)[i];
  }

  // ------------------------------------------------------------- what is asked

  /** m calls of n are made: all of them, or up to and with the first that errs. */
  ghost predicate CallsMade(replies: seq<Reply>, n: nat, m: nat)
  {
    && m <= n
    && (forall k :: 0 <= k < m - 1 ==> At(replies, k) == Done)
    && (m < n ==> m > 0 && At(replies, m - 1) != Done)
  }

  lemma CallsOf(replies: seq<Reply>, n: nat)
    ensures CallsMade(replies, n, Min(StopFrom(replies, 0, n) + 1, n))
  {
  }

  /** All a delivery that deploys adds to the log: the applies that take effect, in order; and, when
    * all of them came back and the release prunes, the deletions asked for, the failing one
    * included; and the record, when the last status write takes effect. */
  lemma StepLogs(w: World, a: Attempt) returns (m: nat)
    requires StoredIsRecorded(w) && Deploys(a)
    ensures var objs := InApplyOrder(Desired(a));
            var targets := Stale(Refs(Held(w.log)), NewIds(Refs(objs)));
            && CallsMade(a.deletes, |targets|, m)
            && Step(w, a).0.log ==
               w.log + AppliedEvents(objs[..Effective(a.applies, |objs|)])
               + (if FullyApplied(a) && a.prune then DeletedEvents(targets[..m]) else [])
               + (if FullyApplied(a) && !a.finish.Failed? then [Recorded(a.source.value, objs)] else [])
  {
    hide ObjectFromRef, ResourceId, Sort, IdentityOf, ApplyRank;
    var objs := InApplyOrder(Desired(a));
    SortedLength(Desired(a));
    var targets := Stale(Refs(Held(w.log)), NewIds(Refs(objs)));
    m := Min(StopFrom(a.deletes, 0, |targets|) + 1, |targets|);
    CallsOf(a.deletes, |targets|);
    var v := PatchStatus(w, w.stored, Starting(w.stored, a.generation), a.begin);
    var local := Noted(v.stored, a.source.value, a.requestedAt);
    if local.inventory.Some? {
      assert local.inventory.value == Refs(Held(w.log));
    } else {
      assert targets == [];
      assert DeletedEvents(targets[..m]) == [];
    }
  }

  // ------------------------------------------------------------ apply order

  /** Kinds in the order they are applied in; all others come last. */
  const APPLY_ORDER: seq<set<string>> :=
    [{"Namespace", "CustomResourceDefinition"},
     {"ConfigMap", "Secret", "SealedSecret"},
     {"PersistentVolumeClaim"},
     {"ServiceAccount", "ClusterRole", "Role"},
     {"ClusterRoleBinding", "RoleBinding", "Service"},
     {"Deployment", "DaemonSet", "StatefulSet", "CronJob"},
     {"Ingress", "Certificate"},
     {"HorizontalPodAutoscaler"}]

  lemma ApplyRankIs(k: string, l: string)
    ensures ApplyRank(k) < ApplyRank(l) <==> ListedBefore(APPLY_ORDER, k, l)
  {
    PlaceIs(k);
    PlaceIs(l);
    hide ApplyRank, APPLY_ORDER;
    if ApplyRank(k) < ApplyRank(l) {
      assert k in APPLY_ORDER[ApplyRank(k)];
      assert forall j :: 0 <= j <= ApplyRank(k) ==> l !in APPLY_ORDER[j];
    }
    if i :| 0 <= i < |APPLY_ORDER| && k in APPLY_ORDER[i] && forall j :: 0 <= j <= i ==> l !in APPLY_ORDER[j] {
      assert i == ApplyRank(k);
      assert ApplyRank(l) < |APPLY_ORDER| ==> l in APPLY_ORDER[ApplyRank(l)];
    }
  }

  lemma PlaceIs(kind: string)
    ensures 0 <= ApplyRank(kind) <= |APPLY_ORDER|
    ensures forall i :: 0 <= i < |APPLY_ORDER| ==> (kind in APPLY_ORDER[i] <==> i == ApplyRank(kind))
  {
  }

  /** Inside one delivery of any run, an object is applied only after every desired object of a
    * kind listed before its own. */
  lemma AppliedAsListed(acts: seq<Action>, k: nat, j: nat, p: Object)
    requires k < |acts| && acts[k].Deliver? && p in Desired(acts[k].attempt)
    requires |LogAt(acts, k)| <= j < |LogAt(acts, k + 1)| && LogAt(acts, k + 1)[j].Applied?
    requires ListedBefore(APPLY_ORDER, p.kind, LogAt(acts, k + 1)[j].id.kind)
    ensures AppliedBetween(LogAt(acts, k + 1), |LogAt(acts, k)|, j, IdentityOf(p))
  {
    ApplyRankIs(p.kind, LogAt(acts, k + 1)[j].id.kind);
    hide ApplyRank, ListedBefore, LogAt, Desired, AppliedBetween;
    AppliedInRankOrder(acts, k, j, p);
  }
}
