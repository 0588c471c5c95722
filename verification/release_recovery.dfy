/** Retrying a render: what is left on the cluster, and what its status says. */
module ReleaseRecovery {
  import opened Options
  import opened ResourceIds
  import opened StableSort
  import opened ReleaseController
  import opened ReleaseSafety

  /** The cluster objects the persisted inventory was written for. */
  function Inventoried(s: Status): set<Identity>
  {
    if s.inventory.None? then {}
    else set r | r in s.inventory.value && LabelFromId(r.id).Some? :: Served(LabelFromId(r.id).value)
  }

  /** The inventory is what the controller wrote for some sound objects. */
  ghost predicate Wrote(s: Status, held: seq<Object>)
  {
    && AllSound(held)
    && (s.inventory == Some(Refs(held)) || (s.inventory == None && held == []))
  }

  lemma InventoriedIs(s: Status, held: seq<Object>)
    requires Wrote(s, held)
    ensures Inventoried(s) == Ids(held)
  {
    hide LabelFromId, ResourceId, Served, Label;
    if s.inventory.Some? {
      var refs := Refs(held);
      forall x | x in Inventoried(s) ensures x in Ids(held) {
        var r :| r in refs && LabelFromId(r.id).Some? && Served(LabelFromId(r.id).value) == x;
        var i :| 0 <= i < |refs| && refs[i] == r;
        LabelRoundTrip(held[i]);
      }
      forall x | x in Ids(held) ensures x in Inventoried(s) {
        var i :| 0 <= i < |held| && IdentityOf(held[i]) == x;
        LabelRoundTrip(held[i]);
        assert refs[i] in refs;
      }
    }
  }

  /** No deletion errs; NotFound is not an error. */
  predicate DeletesWork(a: Attempt)
  {
    forall i :: 0 <= i < |a.deletes| ==> a.deletes[i] == Done
  }

  predicate AppliesWork(a: Attempt, n: nat)
  {
    forall i :: 0 <= i < |a.applies| && i < n ==> a.applies[i] == Done
  }

  /** The attempt gets all the way through its final status write. */
  predicate Succeeds(a: Attempt)
  {
    && a.lookup.Found? && !a.suspend && a.begin.Done?
    && a.source.Some? && a.fetched && a.values && a.rendered.Some?
    && AppliesWork(a, |a.rendered.value|)
    && a.finish.Done?
  }

  /** Everything on the cluster is inventoried or about to be applied. */
  predicate NoStray(w: World, wanted: set<Identity>)
  {
    w.live <= Inventoried(w.stored) + wanted
  }

  // -------------------------------------------------- one attempt's effect

  /** What a prune would delete, in the order it asks. */
  function PruneTargets(w: World, a: Attempt): seq<Identity>
  {
    Stale(Refs(Held(w.log)), NewIds(Refs(InApplyOrder(Desired(a)))))
  }

  /** How many of the targets the attempt deletes: it stops at the first call that errs. */
  function Deletions(w: World, a: Attempt): (n: nat)
    ensures n <= |PruneTargets(w, a)|
  {
    if a.prune then Effective(a.deletes, |PruneTargets(w, a)|) else 0
  }

  function Pruned(w: World, a: Attempt): set<Identity>
  {
    set t | t in PruneTargets(w, a)[..Deletions(w, a)]
  }

  /** What the inventory listed, the attempt does not render and does not delete. */
  function Undeleted(w: World, a: Attempt): set<Identity>
  {
    Ids(Held(w.log)) - Ids(Desired(a)) - Pruned(w, a)
  }

  /** What the attempt renders and deletes all the same. */
  function Lost(w: World, a: Attempt): set<Identity>
  {
    Ids(Desired(a)) * Pruned(w, a)
  }

  /** Everything on the cluster is of a kind that a server can have. */
  predicate Known(live: set<Identity>)
  {
    forall x :: x in live ==> !Unknown(x.kind)
  }

  /** The cluster after an attempt, however many of its calls fail or are lost. */
  lemma LiveAfter(w: World, a: Attempt)
    requires StoredIsRecorded(w)
    ensures Step(w, a).0.live ==
            if !Deploys(a) then w.live
            else w.live + Ids(Reached(a)) - if FullyApplied(a) then Pruned(w, a) else {}
  {
    hide ObjectFromRef, ResourceId, Sort;
    var v := PatchStatus(w, w.stored, Starting(w.stored, a.generation), a.begin);
    if Deploys(a) {
      var objs := InApplyOrder(Desired(a));
      SortedLength(Desired(a));
      var local := Noted(v.stored, a.source.value, a.requestedAt);
      if local.inventory.Some? {
        assert local.inventory.value == Refs(Held(w.log));
      } else {
        assert PruneTargets(w, a) == [];
      }
    }
  }

  /** What an attempt deletes is stale or unknown, and with deletes working it is all that is stale. */
  lemma TargetsAre(w: World, a: Attempt)
    requires AllSound(Held(w.log)) && AllSound(Desired(a))
    ensures forall x :: x in Pruned(w, a) ==> Unknown(x.kind) || x in StaleIds(Held(w.log), Desired(a))
    ensures a.prune && DeletesWork(a) ==> StaleIds(Held(w.log), Desired(a)) <= Pruned(w, a)
    ensures forall x :: x in StaleIds(Held(w.log), Desired(a)) ==> x in PruneTargets(w, a)
  {
    hide ObjectFromRef, ResourceId, Sound, Sort, Stale, StaleIds;
    InApplyOrderMembers(Desired(a));
    StaleIsGone(Held(w.log), InApplyOrder(Desired(a)));
    SameLabels(Held(w.log), InApplyOrder(Desired(a)), Desired(a));
    var targets := PruneTargets(w, a);
    var known := set x | x in targets && !Unknown(x.kind);
    assert known == StaleIds(Held(w.log), Desired(a));
    forall x | x in Pruned(w, a) && !Unknown(x.kind) ensures x in StaleIds(Held(w.log), Desired(a)) {
      assert x in targets && x in known;
    }
    if a.prune && DeletesWork(a) {
      assert targets[..Deletions(w, a)] == targets;
      forall x | x in known ensures x in Pruned(w, a) { assert x in targets; }
    }
  }

  lemma SameLabels(held: seq<Object>, a: seq<Object>, b: seq<Object>)
    requires Labels(a) == Labels(b)
    ensures StaleIds(held, a) == StaleIds(held, b) && Ids(a) == Ids(b)
  {
    hide Label, Served;
    forall x ensures x in Ids(a) <==> x in Ids(b) {
      if x in Ids(a) {
        var o :| o in a && IdentityOf(o) == x;
        assert Label(o) in Labels(b);
        var p :| p in b && Label(p) == Label(o);
      }
      if x in Ids(b) {
        var o :| o in b && IdentityOf(o) == x;
        assert Label(o) in Labels(a);
        var p :| p in a && Label(p) == Label(o);
      }
    }
  }

  lemma SoundIsKnown(objs: seq<Object>)
    requires AllSound(objs)
    ensures Known(Ids(objs))
  {
    hide Label;
    forall x | x in Ids(objs) ensures !Unknown(x.kind) {
      var o :| o in objs && IdentityOf(o) == x;
      SameName(o);
    }
  }

  /** Nothing rendered is lost if the held objects are spared; with pruning on and deletes
    * working, only then. */
  lemma LostIff(w: World, a: Attempt)
    requires AllSound(Held(w.log)) && AllSound(Desired(a))
    ensures Spared(Held(w.log), Desired(a)) ==> Lost(w, a) == {}
    ensures a.prune && DeletesWork(a) ==> (Lost(w, a) == {} <==> Spared(Held(w.log), Desired(a)))
  {
    hide Ids, StaleIds, Spared, Pruned, Held, Desired;
    TargetsAre(w, a);
    SparedIff(Held(w.log), Desired(a));
    SoundIsKnown(Desired(a));
    var stale, own := StaleIds(Held(w.log), Desired(a)), Ids(Desired(a));
    forall x | x in stale && x in own && stale <= Pruned(w, a) ensures x in Lost(w, a) {
    }
    forall x | x in Lost(w, a) ensures x in stale && x in own {
    }
  }

  /** What is held and not rendered has a plain name, so that the prune can read it. */
  ghost predicate Readable(held: seq<Object>, objs: seq<Object>)
  {
    forall h :: h in held && IdentityOf(h) !in Ids(objs) ==> PlainName(h.name)
  }

  /** With pruning on and deletes working nothing stays undeleted exactly when all of it can be
    * read; what cannot be is never deleted, whatever the attempt. */
  lemma UndeletedIff(w: World, a: Attempt)
    requires AllSound(Held(w.log)) && AllSound(Desired(a))
    ensures a.prune && DeletesWork(a) ==> (Undeleted(w, a) == {} <==> Readable(Held(w.log), Desired(a)))
    ensures forall h :: h in Held(w.log) && IdentityOf(h) !in Ids(Desired(a)) && !PlainName(h.name) ==>
              IdentityOf(h) in Undeleted(w, a)
  {
    hide Pruned, Held, Desired, Label, Served;
    TargetsAre(w, a);
    var held, objs := Held(w.log), Desired(a);
    forall h | h in held && IdentityOf(h) !in Ids(objs) && !PlainName(h.name) ensures IdentityOf(h) in Undeleted(w, a) {
      SameName(h);
      forall g | g in held && IdentityOf(g) == IdentityOf(h) ensures !PlainName(g.name) { SameName(g); }
      assert IdentityOf(h) !in StaleIds(held, objs);
    }
    forall h | h in held && IdentityOf(h) !in Ids(objs) && PlainName(h.name) ensures IdentityOf(h) in StaleIds(held, objs) {
      assert forall o :: o in objs && Label(o) == Label(h) ==> IdentityOf(o) in Ids(objs);
    }
  }

  lemma StoredAfter(w: World, a: Attempt)
    requires StoredIsRecorded(w)
    ensures var v := Step(w, a).0;
            if Commits(a) then v.stored.inventory == Some(Refs(InApplyOrder(Desired(a))))
            else SameRecord(v.stored, w.stored)
  {
    hide Step, OneBlock, Commits;
    StepAddsBlock(w, a);
  }

  lemma HeldIsInventoried(w: World)
    requires StoredIsRecorded(w) && AllSound(Held(w.log))
    ensures Inventoried(w.stored) == Ids(Held(w.log))
  {
    InventoriedIs(w.stored, Held(w.log));
  }

  lemma InventoriedAfter(w: World, a: Attempt)
    requires StoredIsRecorded(w) && AllSound(Held(w.log)) && AllSound(Desired(a))
    ensures var v := Step(w, a).0;
            Inventoried(v.stored) == if Commits(a) then Ids(Desired(a)) else Inventoried(w.stored)
  {
    hide Step;
    StoredAfter(w, a);
    InApplyOrderMembers(Desired(a));
    if Commits(a) {
      InventoriedIs(Step(w, a).0.stored, InApplyOrder(Desired(a)));
    }
  }

  lemma ReachedIsDesired(a: Attempt)
    ensures Ids(Reached(a)) <= Ids(Desired(a))
    ensures FullyApplied(a) ==> Ids(Reached(a)) == Ids(Desired(a))
  {
    SortedLength(Desired(a));
    InApplyOrderMembers(Desired(a));
    var objs := InApplyOrder(Desired(a));
    assert FullyApplied(a) ==> Reached(a) == objs;
  }

  // -------------------------------------------------------- retry theorems

  /** An attempt at `wanted`, wherever it stops and whatever fails or is lost, leaves nothing
    * stray unless it commits an inventory without an object that is still on the cluster
    * because its deletion failed or pruning is off; and then it does. */
  lemma AttemptKeepsNoStray(w: World, a: Attempt, wanted: set<Identity>)
    requires StoredIsRecorded(w) && AllSound(Held(w.log)) && AllSound(Desired(a))
    requires a.rendered.Some? ==> Ids(Desired(a)) == wanted
    requires NoStray(w, wanted) && Known(w.live)
    ensures NoStray(Step(w, a).0, wanted) <==> Commits(a) ==> w.live !! Undeleted(w, a)
  {
    hide Step, Pruned;
    HeldIsInventoried(w);
    InventoriedAfter(w, a);
    ReachedIsDesired(a);
    LiveAfter(w, a);
    PrunedIsHeld(w, a);
  }

  /** What a successful attempt leaves behind: the wanted objects but for those it deletes itself,
    * the strays that no inventory knew of, and what it should have deleted but did not. */
  lemma SuccessLeaves(w: World, a: Attempt)
    requires StoredIsRecorded(w) && AllSound(Held(w.log)) && AllSound(Desired(a)) && Known(w.live)
    requires Succeeds(a)
    ensures var v := Step(w, a).0;
            && v.live == (Ids(Desired(a)) - Lost(w, a)) + (w.live - Inventoried(w.stored)) + w.live * Undeleted(w, a)
            && Inventoried(v.stored) == Ids(Desired(a))
            && (v.live == Ids(Desired(a)) <==>
                NoStray(w, Ids(Desired(a))) && w.live !! Undeleted(w, a) && Lost(w, a) == {})
  {
    hide Step, Pruned, Held, Desired, Ids, Known;
    SuccessCommits(a);
    HeldIsInventoried(w);
    InventoriedAfter(w, a);
    ReachedIsDesired(a);
    LiveAfter(w, a);
    PrunedWasHeld(w, a);
    LiveParts(w.live, Ids(Desired(a)), Ids(Held(w.log)), Pruned(w, a));
  }

  lemma PrunedWasHeld(w: World, a: Attempt)
    requires AllSound(Held(w.log)) && AllSound(Desired(a)) && Known(w.live)
    ensures forall x :: x in Pruned(w, a) && (x in w.live || x in Ids(Desired(a))) ==> x in Ids(Held(w.log))
  {
    hide Pruned, Held, Desired, Ids;
    PrunedIsHeld(w, a);
  }

  lemma LiveParts(live: set<Identity>, want: set<Identity>, held: set<Identity>, pruned: set<Identity>)
    requires forall x :: x in pruned && (x in live || x in want) ==> x in held
    ensures var after := live + want - pruned;
            && after == (want - want * pruned) + (live - held) + live * (held - want - pruned)
            && (after == want <==> live <= held + want && live !! (held - want - pruned) && want * pruned == {})
  {
    var after := live + want - pruned;
    if after == want {
      forall x | x in want ensures x !in pruned { assert x in after; }
      forall x | x in live && x !in want ensures x in pruned { assert x !in after; }
    }
    if live <= held + want && live !! (held - want - pruned) && want * pruned == {} {
      forall x ensures x in after <==> x in want {
        if x in want { assert x !in want * pruned; }
      }
    }
  }

  /** What is deleted and could be on the cluster was listed. */
  lemma PrunedIsHeld(w: World, a: Attempt)
    requires AllSound(Held(w.log)) && AllSound(Desired(a))
    ensures forall x :: x in Pruned(w, a) && !Unknown(x.kind) ==> x in Ids(Held(w.log))
    ensures Known(Ids(Held(w.log))) && Known(Ids(Desired(a)))
  {
    hide Pruned, StaleIds;
    TargetsAre(w, a);
    SparedIff(Held(w.log), Desired(a));
    SoundIsKnown(Held(w.log));
    SoundIsKnown(Desired(a));
  }

  lemma SuccessCommits(a: Attempt)
    requires Succeeds(a)
    ensures Commits(a)
  {
    assert |Desired(a)| == |a.rendered.value|;
  }

  /** An action while a render is being retried: an attempt at it that commits also deletes. */
  ghost predicate Retry(act: Action, objs: seq<Object>)
  {
    act.Deliver? ==>
      && AllSound(Desired(act.attempt))
      && (Commits(act.attempt) ==> act.attempt.prune && DeletesWork(act.attempt))
      && (act.attempt.rendered.Some? ==> Labels(Desired(act.attempt)) == Labels(objs))
  }

  lemma {:induction false} RunConcat(w: World, a: seq<Action>, b: seq<Action>)
    ensures Run(w, a + b) == Run(Run(w, a), b)
  {
    if b == [] {
      assert a + b == a;
    } else {
      var n := |b| - 1;
      assert (a + b)[..|a + b| - 1] == a + b[..n];
      RunConcat(w, a, b[..n]);
    }
  }

  lemma {:induction false} LastConcat(a: seq<Action>, b: seq<Action>)
    ensures LastCommitted(a + b) == if LastCommitted(b).Some? then LastCommitted(b) else LastCommitted(a)
  {
    hide Commits;
    if b == [] {
      assert a + b == a;
    } else {
      assert (a + b)[..|a + b| - 1] == a + b[..|b| - 1];
      LastConcat(a, b[..|b| - 1]);
    }
  }

  /** A run of sound renders leaves only kinds on the cluster that a server can have. */
  lemma {:induction false} LiveIsKnown(acts: seq<Action>)
    requires forall act :: act in acts ==> SoundAction(act)
    ensures Known(Run(NEW_WORLD, acts).live)
  {
    if acts != [] {
      hide Step, Pruned, Desired, Reached;
      var n := |acts| - 1;
      LiveIsKnown(acts[..n]);
      assert SoundAction(acts[n]);
      if acts[n].Deliver? {
        RunStores(acts[..n]);
        LiveAfter(Run(NEW_WORLD, acts[..n]), acts[n].attempt);
        ReachedIsDesired(acts[n].attempt);
        SoundIsKnown(Desired(acts[n].attempt));
      }
    }
  }

  /** What is held while a render is being retried: what was before, or that render's labels. */
  lemma HeldWhileRetrying(past: seq<Action>, retries: seq<Action>, objs: seq<Object>)
    requires forall act :: act in retries ==> Retry(act, objs)
    ensures if LastCommitted(retries).Some? then Labels(HeldBy(LastCommitted(past + retries))) == Labels(objs)
            else HeldBy(LastCommitted(past + retries)) == HeldBy(LastCommitted(past))
  {
    hide Labels, AllSound, DeletesWork, InApplyOrder, Desired;
    LastConcat(past, retries);
    LastIsIn(retries);
    if LastCommitted(retries).Some? {
      var a := LastCommitted(retries).value;
      assert Retry(Deliver(a), objs);
      InApplyOrderMembers(Desired(a));
    }
  }

  lemma SameLabelsReadable(held: seq<Object>, objs: seq<Object>)
    requires Labels(held) == Labels(objs)
    ensures Readable(held, objs) && Spared(held, objs)
  {
    hide Label, Served;
    SameLabels(held, held, objs);
    forall h | h in held ensures Label(h) in Labels(objs) && IdentityOf(h) in Ids(objs) {
      assert Label(h) in Labels(held) && IdentityOf(h) in Ids(held);
    }
  }

  lemma RetryIsSound(act: Action, objs: seq<Object>)
    requires Retry(act, objs)
    ensures SoundAction(act)
  {
  }

  /** The run so far, and what holds of it. */
  lemma RetryRun(past: seq<Action>, retries: seq<Action>, objs: seq<Object>)
    requires forall act :: act in past ==> SoundAction(act)
    requires forall act :: act in retries ==> Retry(act, objs)
    ensures var w := Run(NEW_WORLD, past + retries);
            && StoredIsRecorded(w) && AllSound(Held(w.log)) && Known(w.live)
            && Held(w.log) == HeldBy(LastCommitted(past + retries))
  {
    hide Run, Retry, SoundAction, StoredIsRecorded, Held, Known, AllSound, HeldBy, LastCommitted;
    var before := past + retries;
    forall act | act in before ensures SoundAction(act) {
      if act in retries { RetryIsSound(act, objs); }
    }
    RunStores(before);
    HeldBySound(before);
    LiveIsKnown(before);
  }

  lemma RetryKeepsNoStray(w: World, act: Action, objs: seq<Object>)
    requires StoredIsRecorded(w) && AllSound(Held(w.log)) && Known(w.live)
    requires Retry(act, objs) && NoStray(w, Ids(objs)) && Readable(Held(w.log), objs)
    ensures NoStray(Act(w, act), Ids(objs))
  {
    hide Step, Undeleted, Held, Desired;
    if act.Deliver? {
      var a := act.attempt;
      if a.rendered.Some? {
        SameLabels([], Desired(a), objs);
      }
      AttemptKeepsNoStray(w, a, Ids(objs));
      UndeletedIff(w, a);
    }
  }

  lemma {:induction false} RetriesKeepNoStray(past: seq<Action>, retries: seq<Action>, objs: seq<Object>)
    requires forall act :: act in past ==> SoundAction(act)
    requires forall act :: act in retries ==> Retry(act, objs)
    requires NoStray(Run(NEW_WORLD, past), Ids(objs)) && Readable(HeldBy(LastCommitted(past)), objs)
    ensures NoStray(Run(NEW_WORLD, past + retries), Ids(objs))
    ensures Readable(HeldBy(LastCommitted(past + retries)), objs)
  {
    hide Act, Retry, NoStray, SoundAction, StoredIsRecorded, Held, AllSound, Known, HeldBy, LastCommitted, Readable, Ids;
    HeldWhileRetrying(past, retries, objs);
    if LastCommitted(retries).Some? {
      SameLabelsReadable(HeldBy(LastCommitted(past + retries)), objs);
    }
    if retries == [] {
      assert past + retries == past;
    } else {
      var n := |retries| - 1;
      var before := past + retries[..n];
      assert (past + retries)[..|past + retries| - 1] == before;
      assert (past + retries)[|past + retries| - 1] == retries[n];
      RetriesKeepNoStray(past, retries[..n], objs);
      RetryRun(past, retries[..n], objs);
      RetryKeepsNoStray(Run(NEW_WORLD, before), retries[n], objs);
    }
  }

  /** Recovery by retry: after any history, once nothing on the cluster is outside the inventory
    * and the render and what the inventory lists beyond it can be read, any number of failing
    * attempts at that render, with other actors deleting in between, followed by one that
    * succeeds, ends with exactly its objects in the inventory; and with exactly them on the
    * cluster, unless the last attempt is the first to commit and what was held before is not
    * spared. */
  lemma RetryRecovers(past: seq<Action>, retries: seq<Action>, last: Attempt)
    requires forall act :: act in past ==> SoundAction(act)
    requires forall act :: act in retries ==> Retry(act, Desired(last))
    requires Retry(Deliver(last), Desired(last)) && Succeeds(last)
    requires NoStray(Run(NEW_WORLD, past), Ids(Desired(last)))
    requires Readable(HeldBy(LastCommitted(past)), Desired(last))
    ensures var w := Run(NEW_WORLD, past + retries + [Deliver(last)]);
            && Inventoried(w.stored) == Ids(Desired(last))
            && (w.live == Ids(Desired(last)) <==>
                LastCommitted(retries).Some? || Spared(HeldBy(LastCommitted(past)), Desired(last)))
  {
    hide Act, NoStray, SoundAction, StoredIsRecorded, Held, AllSound, Known, HeldBy, LastCommitted, Readable, Ids,
         Desired, Undeleted, Lost, Spared, Labels;
    var objs := Desired(last);
    var before := past + retries;
    var w := Run(NEW_WORLD, before);
    RetriesKeepNoStray(past, retries, objs);
    RetryRun(past, retries, objs);
    HeldWhileRetrying(past, retries, objs);
    if LastCommitted(retries).Some? {
      SameLabelsReadable(HeldBy(LastCommitted(before)), objs);
    }
    RunSnoc(before, last);
    SuccessCommits(last);
    UndeletedIff(w, last);
    LostIff(w, last);
    SuccessLeaves(w, last);
  }

  lemma RunSnoc(acts: seq<Action>, a: Attempt)
    ensures Run(NEW_WORLD, acts + [Deliver(a)]) == Step(Run(NEW_WORLD, acts), a).0
  {
    hide Step;
    assert (acts + [Deliver(a)])[..|acts|] == acts;
  }

  /** Giving up on a half-applied render orphans what it created: the next
    * successful render neither wants it nor finds it in the inventory. */
  lemma AbandonedRenderOrphans(w: World, a: Attempt, b: Attempt, x: Identity)
    requires StoredIsRecorded(w) && Justified(w.log) && Backed(w.log) && Known(w.live)
    requires AllSound(Desired(a)) && Deploys(a) && !FullyApplied(a) && x in Ids(Reached(a))
    requires AllSound(Desired(b)) && Succeeds(b) && x !in Ids(Desired(b))
    requires x !in Inventoried(w.stored)
    ensures var v := Step(Step(w, a).0, b).0;
            x in v.live && x !in Inventoried(v.stored)
  {
    hide Step;
    var u := Step(w, a).0;
    HeldSound(w.log);
    StepAddsBlock(w, a);
    BlockKeepsHistory(w.log, u.log, a);
    HeldSound(u.log);
    LiveAfter(w, a);
    InventoriedAfter(w, a);
    ReachedIsDesired(a);
    SoundIsKnown(Desired(a));
    SuccessLeaves(u, b);
  }

  /** A deletion that errs is not retried, and neither is one of an entry that cannot be read.
    * Of what the inventory listed and the cluster had, a successful attempt orphans exactly what
    * it neither renders nor deletes. */
  lemma FailedDeleteOrphans(w: World, a: Attempt, x: Identity)
    requires StoredIsRecorded(w) && AllSound(Held(w.log)) && AllSound(Desired(a)) && Known(w.live) && Succeeds(a)
    requires x in w.live && x in Inventoried(w.stored)
    ensures var v := Step(w, a).0;
            x in v.live && x !in Inventoried(v.stored) <==> x in Undeleted(w, a)
  {
    hide Step;
    HeldIsInventoried(w);
    SuccessLeaves(w, a);
  }

  /** When the j-th deletion fails, its target and all those listed after it are orphaned, unless
    * they are rendered or deleted before it; so an entry that is misread as a kind no server has,
    * and cannot be deleted, keeps the ones behind it. */
  lemma FailedCallOrphans(w: World, a: Attempt, j: nat, k: nat)
    requires AllSound(Held(w.log)) && AllSound(Desired(a))
    requires a.prune && j <= k < |PruneTargets(w, a)| && At(a.deletes, j) == Failed
    requires PruneTargets(w, a)[k] !in PruneTargets(w, a)[..j]
    requires !Unknown(PruneTargets(w, a)[k].kind) && PruneTargets(w, a)[k] !in Ids(Desired(a))
    ensures PruneTargets(w, a)[k] in Undeleted(w, a)
  {
    TargetIsHeld(w, a, k);
    hide PruneTargets, Held, Desired, Ids, AllSound, Deletions;
    DeletionsStop(w, a, j);
    NotEarlier(PruneTargets(w, a), Deletions(w, a), j, PruneTargets(w, a)[k]);
  }

  lemma DeletionsStop(w: World, a: Attempt, j: nat)
    requires j < |PruneTargets(w, a)| && At(a.deletes, j) == Failed
    ensures Deletions(w, a) <= j
  {
    hide PruneTargets;
  }

  lemma NotEarlier(targets: seq<Identity>, n: nat, j: nat, x: Identity)
    requires n <= j <= |targets| && x !in targets[..j]
    ensures x !in targets[..n]
  {
    assert targets[..n] <= targets[..j];
  }

  lemma TargetIsHeld(w: World, a: Attempt, j: nat)
    requires AllSound(Held(w.log)) && AllSound(Desired(a))
    requires j < |PruneTargets(w, a)| && !Unknown(PruneTargets(w, a)[j].kind)
    ensures PruneTargets(w, a)[j] in Ids(Held(w.log))
  {
    hide ObjectFromRef, ResourceId, Sound, Sort, Stale, StaleIds;
    InApplyOrderMembers(Desired(a));
    StaleIsGone(Held(w.log), InApplyOrder(Desired(a)));
    SparedIff(Held(w.log), InApplyOrder(Desired(a)));
    var targets := PruneTargets(w, a);
    assert targets[j] in (set x | x in targets && !Unknown(x.kind));
  }

  /** An orphan stays: no later attempt deletes it unless one desires it first. */
  lemma {:induction false} OrphanStays(past: seq<Action>, more: seq<Action>, x: Identity)
    requires forall act :: act in past + more ==> SoundAction(act)
    requires forall act :: act in more ==> act.Deliver? && x !in Ids(Desired(act.attempt))
    requires var w := Run(NEW_WORLD, past); x in w.live && x !in Inventoried(w.stored)
    ensures var w := Run(NEW_WORLD, past + more); x in w.live && x !in Inventoried(w.stored)
  {
    if more == [] {
      assert past + more == past;
    } else {
      hide Step, Pruned;
      var n := |more| - 1;
      var before := past + more[..n];
      assert (past + more)[..|past + more| - 1] == before && (past + more)[|past + more| - 1] == more[n];
      assert forall act :: act in before ==> act in past + more;
      OrphanStays(past, more[..n], x);
      assert more[n] in more && more[n] in past + more && SoundAction(more[n]);
      var w, a := Run(NEW_WORLD, before), more[n].attempt;
      RunKeepsHistory(before);
      HeldSound(w.log);
      HeldIsInventoried(w);
      LiveIsKnown(before);
      InventoriedAfter(w, a);
      LiveAfter(w, a);
      PrunedIsHeld(w, a);
    }
  }

  // ------------------------------------------------- what the status claims

  /** Ready and not Reconciling: everything inventoried is on the cluster. */
  ghost predicate ReadyIsTrue(w: World)
  {
    READY in w.stored.conditions && w.stored.conditions[READY].status && RECONCILING !in w.stored.conditions ==>
      LastRecord(w.log).Some? && Ids(Held(w.log)) <= w.live
  }

  lemma ConditionsAfter(w: World, a: Attempt)
    ensures var v := Step(w, a).0;
            || v == w
            || RECONCILING in v.stored.conditions
            || (READY in v.stored.conditions && !v.stored.conditions[READY].status)
            || Commits(a)
  {
    hide Sort, Refs, Stale;
    SortedLength(Desired(a));
  }

  /** Every attempt of the run that commits spares what was held before it. */
  ghost predicate RunSpares(acts: seq<Action>)
  {
    forall k | 0 <= k < |acts| && acts[k].Deliver? && Commits(acts[k].attempt) ::
      Spared(HeldBy(LastCommitted(acts[..k])), Desired(acts[k].attempt))
  }

  lemma RunSparesPrefix(acts: seq<Action>)
    requires acts != [] && RunSpares(acts)
    ensures RunSpares(acts[..|acts| - 1])
  {
    hide Commits, Spared;
    var init := acts[..|acts| - 1];
    assert forall k :: 0 <= k < |init| ==> init[..k] == acts[..k] && init[k] == acts[k];
  }

  /** If nobody else deletes objects and commits spare what was held, a persisted Ready without
    * Reconciling is never a lie, however many attempts were cut off before or after it. */
  lemma {:induction false} ReadyMeansLive(acts: seq<Action>)
    requires forall act :: act in acts ==> act.Deliver? && SoundAction(act)
    requires RunSpares(acts)
    ensures ReadyIsTrue(Run(NEW_WORLD, acts))
  {
    hide Step, RunSpares, Spared, Lost, ReadyIsTrue, Commits, Desired, HeldBy;
    if acts == [] {
      NothingIsReady();
    } else {
      var n := |acts| - 1;
      RunSparesPrefix(acts);
      ReadyMeansLive(acts[..n]);
      RunStores(acts[..n]);
      HeldBySound(acts[..n]);
      var w := Run(NEW_WORLD, acts[..n]);
      assert acts[n] in acts && SoundAction(acts[n]);
      var a := acts[n].attempt;
      ConditionsAfter(w, a);
      if Commits(a) {
        LastSpares(acts);
        LostIff(w, a);
        CommitIsLive(w, a);
      } else if Step(w, a).0 != w {
        NotReadyIsTrue(Step(w, a).0);
      }
    }
  }

  lemma NothingIsReady()
    ensures ReadyIsTrue(NEW_WORLD)
  {
  }

  lemma NotReadyIsTrue(w: World)
    requires RECONCILING in w.stored.conditions || (READY in w.stored.conditions && !w.stored.conditions[READY].status)
    ensures ReadyIsTrue(w)
  {
  }

  lemma CommitIsLive(w: World, a: Attempt)
    requires StoredIsRecorded(w) && Commits(a) && Lost(w, a) == {}
    ensures ReadyIsTrue(Step(w, a).0)
  {
    hide Step, OneBlock, Pruned, Desired, Ids, Reached;
    StepAddsBlock(w, a);
    ReachedIsDesired(a);
    InApplyOrderMembers(Desired(a));
    LiveAfter(w, a);
    WantedStays(w.live, Ids(Desired(a)), Pruned(w, a));
  }

  lemma WantedStays(live: set<Identity>, want: set<Identity>, pruned: set<Identity>)
    ensures want <= live + want - pruned <==> want * pruned == {}
  {
    if want <= live + want - pruned {
      forall x | x in want ensures x !in pruned { assert x in live + want - pruned; }
    } else {
      var x :| x in want && x !in live + want - pruned;
      assert x in want * pruned;
    }
  }

  lemma LastSpares(acts: seq<Action>)
    requires acts != [] && RunSpares(acts)
    requires acts[|acts| - 1].Deliver? && Commits(acts[|acts| - 1].attempt)
    ensures Spared(HeldBy(LastCommitted(acts[..|acts| - 1])), Desired(acts[|acts| - 1].attempt))
  {
  }

  /** After a success, Ready is persisted; it tells the truth exactly when nothing rendered was lost. */
  lemma ReadyIffNothingLost(w: World, a: Attempt)
    requires StoredIsRecorded(w) && Succeeds(a)
    ensures var v := Step(w, a).0;
            && READY in v.stored.conditions && v.stored.conditions[READY].status && RECONCILING !in v.stored.conditions
            && (Ids(Desired(a)) <= v.live <==> Lost(w, a) == {})
  {
    SuccessIsReady(w, a);
    hide Step, Pruned, Desired, Ids, Reached;
    SuccessCommits(a);
    ReachedIsDesired(a);
    LiveAfter(w, a);
    WantedStays(w.live, Ids(Desired(a)), Pruned(w, a));
  }

  lemma SuccessIsReady(w: World, a: Attempt)
    requires Succeeds(a)
    ensures var v := Step(w, a).0;
            READY in v.stored.conditions && v.stored.conditions[READY].status && RECONCILING !in v.stored.conditions
  {
    hide Sort, Refs, Stale, ApplyRank;
    SuccessCommits(a);
    SortedLength(Desired(a));
  }

  // -------------------------------------------- a target namespace that changes

  /** All cluster-scoped objects carry one namespace field. */
  ghost predicate Steady(act: Action, namespace: string)
  {
    act.Deliver? ==>
      forall o :: o in Desired(act.attempt) && ClusterScoped(o.kind) ==> o.namespace == namespace
  }

  /** With one namespace field throughout, every attempt of a run spares what is held. */
  lemma SteadySpares(acts: seq<Action>, namespace: string)
    requires forall act :: act in acts ==> Steady(act, namespace)
    ensures RunSpares(acts)
    ensures forall k | 0 <= k < |acts| && acts[k].Deliver? && LastCommitted(acts[..k]).Some? ::
              Spared(Desired(LastCommitted(acts[..k]).value), Desired(acts[k].attempt))
  {
    hide Spared, Commits, Desired, InApplyOrder;
    forall k | 0 <= k < |acts| && acts[k].Deliver?
      ensures Spared(HeldBy(LastCommitted(acts[..k])), Desired(acts[k].attempt))
      ensures LastCommitted(acts[..k]).Some? ==>
                Spared(Desired(LastCommitted(acts[..k]).value), Desired(acts[k].attempt))
    {
      var a, last := acts[k].attempt, LastCommitted(acts[..k]);
      LastIsIn(acts[..k]);
      assert Steady(acts[k], namespace);
      if last.Some? {
        assert Deliver(last.value) in acts && Steady(Deliver(last.value), namespace);
        InApplyOrderMembers(Desired(last.value));
        OneNamespaceSpares(Desired(last.value), Desired(a), namespace);
      }
      OneNamespaceSpares(HeldBy(last), Desired(a), namespace);
    }
  }

  const PROD := Object("", "prod", "", "v1", "Namespace")

  /** An attempt at one Namespace, everything of which goes well. */
  function Deploying(revision: string, targetNamespace: string): Attempt
  {
    Attempt(Found, false, 1, true, targetNamespace, None, Done, Some(revision), true, true, Some([PROD]), [], [], Done)
  }

  lemma DeployingIs(revision: string, targetNamespace: string)
    ensures var a := Deploying(revision, targetNamespace);
            var o := if targetNamespace == "" then PROD else PROD.(namespace := targetNamespace);
            && Desired(a) == [o] && InApplyOrder(Desired(a)) == [o] && Succeeds(a) && Commits(a)
            && a.prune && a.applies == [] && a.deletes == [] && DeletesWork(a) && Reached(a) == [o]
            && IdentityOf(o) == Identity("", "prod", "", "Namespace")
  {
    var a := Deploying(revision, targetNamespace);
    var o := if targetNamespace == "" then PROD else PROD.(namespace := targetNamespace);
    assert Desired(a) == [o];
    assert [o][1..] == [];
    assert Sort(ByRank, [o]) == Insert(ByRank, o, Sort(ByRank, []));
    SuccessCommits(a);
    SortedLength(Desired(a));
  }

  /** The log of an attempt none of whose calls errs. */
  lemma CleanAttempt(w: World, a: Attempt)
    requires StoredIsRecorded(w) && Succeeds(a) && a.applies == [] && a.deletes == [] && a.prune
    ensures Step(w, a).0.log ==
            w.log + AppliedEvents(InApplyOrder(Desired(a))) + DeletedEvents(PruneTargets(w, a))
            + [Recorded(a.source.value, InApplyOrder(Desired(a)))]
  {
    hide ObjectFromRef, ResourceId, Sort, IdentityOf, ApplyRank;
    var objs := InApplyOrder(Desired(a));
    SortedLength(Desired(a));
    SuccessCommits(a);
    assert objs[..|objs|] == objs;
    var v := PatchStatus(w, w.stored, Starting(w.stored, a.generation), a.begin);
    var local := Noted(v.stored, a.source.value, a.requestedAt);
    if local.inventory.Some? {
      assert local.inventory.value == Refs(Held(w.log));
      var targets := PruneTargets(w, a);
      assert targets[..|targets|] == targets;
    } else {
      assert PruneTargets(w, a) == [];
      assert w.log + AppliedEvents(objs) + DeletedEvents([]) == w.log + AppliedEvents(objs);
    }
  }

  /** A release of one Namespace, first without and then with a target namespace: both attempts
    * succeed, the second applies the Namespace and then prunes it as the entry of the first, and
    * says Ready. */
  lemma MovedNamespaceIsPruned(first: string, second: string)
    ensures var acts := [Deliver(Deploying(first, "")), Deliver(Deploying(second, "tgt"))];
            var w := Run(NEW_WORLD, acts);
            && (forall act :: act in acts ==> SoundAction(act) && Succeeds(act.attempt))
            && IdentityOf(PROD) in Ids(Desired(Deploying(second, "tgt")))
            && w.live == {} && Deleted(IdentityOf(PROD)) in w.log
            && READY in w.stored.conditions && w.stored.conditions[READY].status && RECONCILING !in w.stored.conditions
  {
    var a, b := Deploying(first, ""), Deploying(second, "tgt");
    var acts := [Deliver(a), Deliver(b)];
    ProdRecorded(first);
    ProdPruned(Step(NEW_WORLD, a).0, second);
    DeployingSound(first, "");
    DeployingSound(second, "tgt");
    hide Step, Run, Desired, Deploying, Succeeds, StoredIsRecorded, SoundAction, Held, IdentityOf;
    RunTwo(a, b);
  }

  lemma RunTwo(a: Attempt, b: Attempt)
    ensures Run(NEW_WORLD, [Deliver(a), Deliver(b)]) == Step(Step(NEW_WORLD, a).0, b).0
  {
    RunSnoc([], a);
    RunSnoc([Deliver(a)], b);
    hide Step;
    assert [] + [Deliver(a)] == [Deliver(a)] && [Deliver(a)] + [Deliver(b)] == [Deliver(a), Deliver(b)];
    assert Run(NEW_WORLD, []) == NEW_WORLD;
  }

  lemma DeployingSound(revision: string, targetNamespace: string)
    requires '_' !in targetNamespace
    ensures var a := Deploying(revision, targetNamespace);
            SoundAction(Deliver(a)) && Succeeds(a) && IdentityOf(PROD) in Ids(Desired(a))
  {
    hide Desired, Deploying, Succeeds;
    DeployingIs(revision, targetNamespace);
  }

  lemma ProdRecorded(revision: string)
    ensures var w := Step(NEW_WORLD, Deploying(revision, "")).0;
            StoredIsRecorded(w) && Held(w.log) == [PROD] && w.live == {IdentityOf(PROD)}
  {
    hide Step, OneBlock, Pruned, Deploying, IdentityOf;
    DeployingIs(revision, "");
    NothingHappened();
    StepAddsBlock(NEW_WORLD, Deploying(revision, ""));
    LiveAfter(NEW_WORLD, Deploying(revision, ""));
    assert PruneTargets(NEW_WORLD, Deploying(revision, "")) == [];
    NonePruned(NEW_WORLD, Deploying(revision, ""));
  }

  lemma NonePruned(w: World, a: Attempt)
    requires PruneTargets(w, a) == []
    ensures Pruned(w, a) == {}
  {
    hide PruneTargets;
  }

  lemma ProdPruned(w: World, revision: string)
    requires StoredIsRecorded(w) && Held(w.log) == [PROD] && w.live == {IdentityOf(PROD)}
    ensures var v := Step(w, Deploying(revision, "tgt")).0;
            && v.live == {} && Deleted(IdentityOf(PROD)) in v.log
            && READY in v.stored.conditions && v.stored.conditions[READY].status && RECONCILING !in v.stored.conditions
  {
    var b, moved := Deploying(revision, "tgt"), PROD.(namespace := "tgt");
    DeployingIs(revision, "tgt");
    hide Step, Deploying, Pruned, PruneTargets, Desired, InApplyOrder, Reached, Succeeds, Commits;
    TargetsAre(w, b);
    assert StaleIds([PROD], [moved]) == {IdentityOf(PROD)};
    LiveAfter(w, b);
    SuccessIsReady(w, b);
    TargetIsLogged(w, b, IdentityOf(PROD));
  }

  lemma TargetIsLogged(w: World, a: Attempt, x: Identity)
    requires StoredIsRecorded(w) && Succeeds(a) && a.applies == [] && a.deletes == [] && a.prune
    requires x in PruneTargets(w, a)
    ensures Deleted(x) in Step(w, a).0.log
  {
    hide Step, PruneTargets, Succeeds, StoredIsRecorded;
    CleanAttempt(w, a);
    var targets := PruneTargets(w, a);
    var k :| 0 <= k < |targets| && targets[k] == x;
    assert DeletedEvents(targets)[k] == Deleted(x) && Deleted(x) in DeletedEvents(targets);
  }

  lemma StepForgetsNotes(w: World, a: Attempt)
    ensures var s := Step(w, a).0.stored;
            s.lastAttempted == w.stored.lastAttempted && s.lastHandled == w.stored.lastHandled
  {
    hide Sort, Refs, Stale, ApplyRank;
  }

  /** The attempted revision and the handled request are noted only in memory: both
    * status patches take their base after the note, so neither is ever persisted. */
  lemma {:induction false} NotesAreNeverPersisted(acts: seq<Action>)
    ensures var s := Run(NEW_WORLD, acts).stored;
            s.lastAttempted == "" && s.lastHandled == ""
  {
    hide Step;
    if acts != [] {
      var n := |acts| - 1;
      NotesAreNeverPersisted(acts[..n]);
      if acts[n].Deliver? { StepForgetsNotes(Run(NEW_WORLD, acts[..n]), acts[n].attempt); }
    }
  }

  // ------------------------------------------------------------ apply order

  /** Nothing is applied before every object of the render with a lower rank. */
  lemma LowerRanksFirst(a: Attempt, o: Object, p: Object)
    requires o in Reached(a) && p in Desired(a) && ApplyRank(p.kind) < ApplyRank(o.kind)
    ensures p in Reached(a)
  {
    hide StopFrom;
    var objs := InApplyOrder(Desired(a));
    RankIsWeakOrder();
    SortIsStable(ByRank, Desired(a));
    InApplyOrderMembers(Desired(a));
    hide Sort, ApplyRank, Desired, Effective, InApplyOrder, WeakOrder, Sorted;
    assert p in multiset(objs);
    var i :| 0 <= i < |Reached(a)| && Reached(a)[i] == o;
    var j :| 0 <= j < |objs| && objs[j] == p;
    SmallerIsFirst(ByRank, objs, i, j);
    assert Reached(a)[j] == p;
  }

  /** The kind is always applied before what runs pods, whatever call fails. */
  ghost predicate AppliedBeforePods(kind: string)
  {
    forall a: Attempt, o: Object, p: Object ::
      o in Reached(a) && RunsPods(o.kind) && p in Desired(a) && p.kind == kind ==> p in Reached(a)
  }

  /** An attempt at two objects, the first of them in apply order applied and the second not. */
  function Halfway(first: Object, second: Object): Attempt
  {
    Attempt(Found, false, 1, true, "", None, Done, Some("r"), true, true, Some([first, second]), [Done, Failed], [], Done)
  }

  lemma HalfwayReaches(first: Object, second: Object)
    requires ApplyRank(first.kind) <= ApplyRank(second.kind)
    ensures Desired(Halfway(first, second)) == [first, second] && Reached(Halfway(first, second)) == [first]
  {
    hide ApplyRank;
    var a := Halfway(first, second);
    assert Sort(ByRank, [second]) == [second] by { assert [second][1..] == []; }
    assert [first, second][1..] == [second];
    assert InApplyOrder(Desired(a)) == [first, second];
  }

  /** Exactly the kinds of a rank below 5 are applied before everything that runs pods. */
  lemma AppliedBeforePodsIff(kind: string)
    ensures AppliedBeforePods(kind) <==> ApplyRank(kind) < 5
  {
    if ApplyRank(kind) < 5 {
      forall a: Attempt, o: Object, p: Object |
        o in Reached(a) && RunsPods(o.kind) && p in Desired(a) && p.kind == kind
        ensures p in Reached(a)
      {
        hide Reached, Desired;
        LowerRanksFirst(a, o, p);
      }
    } else {
      hide Reached, Desired;
      var o, p := Object("n", "a", "apps", "v1", "Deployment"), Object("n", "b", "", "v1", kind);
      HalfwayReaches(o, p);
      assert o in Reached(Halfway(o, p)) && p in Desired(Halfway(o, p)) && p !in Reached(Halfway(o, p));
    }
  }

  /** Whatever call fails: when something that runs pods was applied, everything of the render
    * that it may refer to was, except possibly a CSI driver. */
  lemma PrerequisitesApplied(a: Attempt, o: Object, p: Object)
    requires o in Reached(a) && RunsPods(o.kind)
    requires p in Desired(a) && Prerequisite(p.kind)
    ensures p in Reached(a) || p.kind == "CSIDriver"
    ensures AppliedBeforePods(p.kind) <==> p.kind != "CSIDriver"
  {
    hide Reached, Desired, AppliedBeforePods;
    AppliedBeforePodsIff(p.kind);
    if p.kind != "CSIDriver" {
      LowerRanksFirst(a, o, p);
    }
  }

  /** A CSI driver is applied after everything that runs pods; and with the next call failing
    * it is missing where the pod that mounts it is not. */
  lemma DriverComesLast(a: Attempt, o: Object, driver: Object)
    requires driver.kind == "CSIDriver" && RunsPods(o.kind)
    ensures driver in Reached(a) && o in Desired(a) ==> o in Reached(a)
    ensures o in Reached(Halfway(o, driver)) && driver in Desired(Halfway(o, driver))
    ensures driver !in Reached(Halfway(o, driver))
  {
    hide Reached, Desired;
    if driver in Reached(a) && o in Desired(a) {
      LowerRanksFirst(a, driver, o);
    }
    HalfwayReaches(o, driver);
  }
}
