/** What every run of the reconcile loop keeps, whatever fails on the way. */
module ReleaseSafety {
  import opened Options
  import opened ResourceIds
  import opened StableSort
  import opened ReleaseController

  /** Between two deliveries other actors may delete objects. */
  datatype Action = Deliver(attempt: Attempt) | Vanish(gone: set<Identity>)

  function Act(w: World, act: Action): World
  {
    match act
    case Deliver(a) => Step(w, a).0
    case Vanish(gone) => w.(live := w.live - gone)
  }

  function Run(w: World, acts: seq<Action>): World
  {
    if acts == [] then w else Act(Run(w, acts[..|acts| - 1]), acts[|acts| - 1])
  }

  /** The objects an attempt would deploy. */
  function Desired(a: Attempt): seq<Object>
  {
    if a.rendered.None? then [] else Retarget(a.rendered.value, a.targetNamespace)
  }

  ghost predicate SoundAction(act: Action)
  {
    act.Deliver? ==> AllSound(Desired(act.attempt))
  }

  /** Past the begin patch and the render: the attempt reaches the cluster. */
  predicate Deploys(a: Attempt)
  {
    && a.lookup.Found? && !a.suspend && a.begin.Done?
    && a.source.Some? && a.fetched && a.values && a.rendered.Some?
  }

  function Reached(a: Attempt): seq<Object>
  {
    var objs := InApplyOrder(Desired(a));
    objs[..Effective(a.applies, |objs|)]
  }

  predicate FullyApplied(a: Attempt)
  {
    StopFrom(a.applies, 0, |Desired(a)|) == |Desired(a)|
  }

  lemma SortedLength(objs: seq<Object>)
    ensures |InApplyOrder(objs)| == |objs|
  {
    InApplyOrderMembers(objs);
    assert |multiset(InApplyOrder(objs))| == |multiset(objs)|;
  }

  /** The success status write takes effect. */
  predicate Commits(a: Attempt)
  {
    Deploys(a) && FullyApplied(a) && !a.finish.Failed?
  }

  /** The latest attempt of a run that commits. */
  function LastCommitted(acts: seq<Action>): Option<Attempt>
  {
    if acts == [] then None
    else
      var last := acts[|acts| - 1];
      if last.Deliver? && Commits(last.attempt) then Some(last.attempt) else LastCommitted(acts[..|acts| - 1])
  }

  // ------------------------------------------------------ the log of a run

  /** The last status write that took effect. */
  function LastRecord(log: seq<Event>): (r: Option<(string, seq<Object>)>)
  {
    if log == [] then None
    else if log[|log| - 1].Recorded? then Some((log[|log| - 1].revision, log[|log| - 1].objects))
    else LastRecord(log[..|log| - 1])
  }

  /** What the persisted inventory lists: nothing before the first write. */
  function Held(log: seq<Event>): seq<Object>
  {
    if LastRecord(log).None? then [] else LastRecord(log).value.1
  }

  predicate Unrecorded(log: seq<Event>)
  {
    forall e :: e in log ==> !e.Recorded?
  }

  lemma {:induction false} LastRecordSkips(log: seq<Event>, more: seq<Event>)
    requires Unrecorded(more)
    ensures LastRecord(log + more) == LastRecord(log)
  {
    if more == [] {
      assert log + more == log;
    } else {
      var n := |more| - 1;
      assert (log + more)[..|log + more| - 1] == log + more[..n];
      assert (log + more)[|log + more| - 1] == more[n];
      LastRecordSkips(log, more[..n]);
    }
  }

  // ------------------------------------------------- what a prune would delete

  /** Of the held objects those whose id the new render does not have, as the server knows them;
    * an id with an underscore in the name is not read as its own object. */
  function StaleIds(held: seq<Object>, objs: seq<Object>): set<Identity>
  {
    set h | h in held && PlainName(h.name) && Label(h) !in Labels(objs) :: IdentityOf(h)
  }

  /** No held object is the same cluster object as one of the render under another namespace
    * field, without its own id being rendered too. */
  ghost predicate Spared(held: seq<Object>, objs: seq<Object>)
  {
    forall h, o :: h in held && o in objs && PlainName(h.name) && IdentityOf(h) == IdentityOf(o) ==>
      Label(h) in Labels(objs)
  }

  /** A prune spares the new render exactly under that condition; and then it asks for what is
    * held, has a plain name and is not rendered. */
  lemma SparedIff(held: seq<Object>, objs: seq<Object>)
    ensures StaleIds(held, objs) !! Ids(objs) <==> Spared(held, objs)
    ensures Spared(held, objs) ==>
              forall x :: x in StaleIds(held, objs) <==> x in Ids(held) && PlainName(x.name) && x !in Ids(objs)
    ensures StaleIds(held, objs) <= Ids(held)
  {
    hide Label, Served;
    if StaleIds(held, objs) !! Ids(objs) {
      forall h, o | h in held && o in objs && PlainName(h.name) && IdentityOf(h) == IdentityOf(o)
        ensures Label(h) in Labels(objs)
      {
        assert IdentityOf(o) in Ids(objs);
      }
    }
    if Spared(held, objs) {
      forall x | x in StaleIds(held, objs) ensures x !in Ids(objs) && PlainName(x.name) {
        var h :| h in held && PlainName(h.name) && Label(h) !in Labels(objs) && IdentityOf(h) == x;
        SameName(h);
      }
      forall x | x in Ids(held) && PlainName(x.name) && x !in Ids(objs) ensures x in StaleIds(held, objs) {
        var h :| h in held && IdentityOf(h) == x;
        SameName(h);
      }
    }
  }

  lemma SameName(o: Object)
    ensures IdentityOf(o).name == o.name && IdentityOf(o).kind == o.kind && IdentityOf(o).group == o.group
  {
  }

  /** One namespace field for all cluster-scoped objects, as a target namespace that stays the
    * same gives them, is enough. */
  lemma OneNamespaceSpares(held: seq<Object>, objs: seq<Object>, namespace: string)
    requires forall o :: o in held + objs && ClusterScoped(o.kind) ==> o.namespace == namespace
    ensures Spared(held, objs)
  {
    forall h, o | h in held && o in objs && IdentityOf(h) == IdentityOf(o) ensures Label(h) in Labels(objs) {
      assert h in held + objs && o in held + objs;
      assert Label(h) == Label(o);
    }
  }

  // ------------------------------- one attempt adds one block to the log

  /** What a delivery appends to the log: a prefix of the desired objects in apply
    * order; only if that is all of them, deletions of held objects whose ids are not
    * desired, or of kinds that no server has; and, exactly if it commits, the record of these objects. */
  ghost predicate OneBlock(before: seq<Event>, after: seq<Event>, a: Attempt)
  {
    exists n: nat, gone, record :: IsBlock(before, after, a, n, gone, record)
  }

  ghost predicate IsBlock(before: seq<Event>, after: seq<Event>, a: Attempt,
                          n: nat, gone: seq<Identity>, record: seq<Event>)
  {
    var objs := InApplyOrder(Desired(a));
    && n <= |objs|
    && after == before + AppliedEvents(objs[..n]) + DeletedEvents(gone) + record
    && (gone != [] || record != [] ==> n == |objs| && a.source.Some?)
    && (record == [] || record == [Recorded(a.source.value, objs)])
    && (record != [] <==> Commits(a))
    && (AllSound(objs) && AllSound(Held(before)) ==>
          forall x :: x in gone ==> Unknown(x.kind) || x in StaleIds(Held(before), objs))
  }

  /** The status pair is the one of the last record. */
  ghost predicate StoredIsRecorded(w: World)
  {
    match LastRecord(w.log)
    case None => w.stored.lastApplied == "" && w.stored.inventory == None
    case Some((revision, objs)) => w.stored.lastApplied == revision && w.stored.inventory == Some(Refs(objs))
  }

  /** What a prune asks to delete, but for kinds that no server has, is the stale ids. */
  lemma {:induction false} StaleIsGone(held: seq<Object>, objs: seq<Object>)
    requires AllSound(held) && AllSound(objs)
    ensures var stale := Stale(Refs(held), NewIds(Refs(objs)));
            (set x | x in stale && !Unknown(x.kind)) == StaleIds(held, objs)
  {
    hide ObjectFromRef, ResourceId, Served, Label;
    if held != [] {
      var o := held[0];
      var rest := held[1..];
      assert Refs(held)[0] == RefOf(o) && Refs(held)[1..] == Refs(rest);
      StaleIsGone(rest, objs);
      RefReadAs(o);
      SameName(o);
      NewIdsMeans(o, objs);
      var tail := Stale(Refs(rest), NewIds(Refs(objs)));
      var p := ObjectFromRef(RefOf(o)).value;
      SameName(p);
      var head := if Label(o) in Labels(objs) then [] else [IdentityOf(p)];
      assert Stale(Refs(held), NewIds(Refs(objs))) == head + tail;
      assert held == [o] + rest;
      assert StaleIds(held, objs) == StaleIds([o], objs) + StaleIds(rest, objs);
      assert (set x | x in head && !Unknown(x.kind)) == StaleIds([o], objs);
    }
  }

  lemma NewIdsMeans(o: Object, objs: seq<Object>)
    requires Sound(o) && AllSound(objs)
    ensures ResourceId(o) in NewIds(Refs(objs)) <==> Label(o) in Labels(objs)
  {
    hide ResourceId, Label;
    if ResourceId(o) in NewIds(Refs(objs)) {
      var r :| r in Refs(objs) && r.id == ResourceId(o);
      var i :| 0 <= i < |objs| && Refs(objs)[i] == r;
      IdInjective(o, objs[i]);
    }
    if Label(o) in Labels(objs) {
      var p :| p in objs && Label(p) == Label(o);
      var i :| 0 <= i < |objs| && objs[i] == p;
      IdInjective(o, p);
      assert Refs(objs)[i] in Refs(objs);
    }
  }

  lemma InApplyOrderMembers(objs: seq<Object>)
    ensures multiset(InApplyOrder(objs)) == multiset(objs)
    ensures Ids(InApplyOrder(objs)) == Ids(objs) && Labels(InApplyOrder(objs)) == Labels(objs)
    ensures AllSound(InApplyOrder(objs)) <==> AllSound(objs)
    ensures forall o :: o in InApplyOrder(objs) <==> o in objs
  {
    var sorted := InApplyOrder(objs);
    RankIsWeakOrder();
    SortIsStable(ByRank, objs);
    assert forall o :: o in sorted <==> o in multiset(sorted);
    assert forall o :: o in objs <==> o in multiset(objs);
  }

  lemma EventsUnrecorded(objs: seq<Object>, gone: seq<Identity>)
    ensures Unrecorded(AppliedEvents(objs) + DeletedEvents(gone))
  {
  }

  /** Parts of the right shape make a block, and its record is the last one. */
  lemma BlockParts(before: seq<Event>, a: Attempt, n: nat, gone: seq<Identity>, record: seq<Event>)
    requires n <= |InApplyOrder(Desired(a))|
    requires gone != [] || record != [] ==> n == |InApplyOrder(Desired(a))| && a.source.Some?
    requires record == [] || record == [Recorded(a.source.value, InApplyOrder(Desired(a)))]
    requires record != [] <==> Commits(a)
    requires AllSound(InApplyOrder(Desired(a))) && AllSound(Held(before)) ==>
               forall x :: x in gone ==> Unknown(x.kind) || x in StaleIds(Held(before), InApplyOrder(Desired(a)))
    ensures OneBlock(before, before + AppliedEvents(InApplyOrder(Desired(a))[..n]) + DeletedEvents(gone) + record, a)
    ensures LastRecord(before + AppliedEvents(InApplyOrder(Desired(a))[..n]) + DeletedEvents(gone) + record) ==
            if record == [] then LastRecord(before) else Some((a.source.value, InApplyOrder(Desired(a))))
  {
    var objs := InApplyOrder(Desired(a));
    var middle := AppliedEvents(objs[..n]) + DeletedEvents(gone);
    EventsUnrecorded(objs[..n], gone);
    LastRecordSkips(before, middle);
    var log := before + middle;
    assert before + AppliedEvents(objs[..n]) + DeletedEvents(gone) == log;
    assert IsBlock(before, log + record, a, n, gone, record);
    if record == [] {
      assert log + record == log;
    } else {
      assert (log + record)[|log + record| - 1] == record[0];
    }
  }

  predicate SameRecord(s: Status, t: Status)
  {
    s.inventory == t.inventory && s.lastApplied == t.lastApplied
  }

  /** Giving up writes conditions and nothing else, whatever the attempt has noted: when the
    * write takes effect the release is no longer Reconciling, and not Ready for the reason. */
  lemma GiveUpKeeps(w: World, local: Status, reason: string, a: Attempt)
    ensures var (v, out) := GiveUp(w, local, reason, a);
            && v == w.(stored := w.stored.(conditions := v.stored.conditions))
            && (out == Errored <==> !a.finish.Done?)
            && (local.conditions == w.stored.conditions ==>
                  v.stored.conditions ==
                  if a.finish.Failed? then w.stored.conditions
                  else w.stored.conditions[READY := Condition(false, reason, a.generation)] - {RECONCILING})
  {
  }

  lemma NoBlock(w: World, v: World, a: Attempt)
    requires StoredIsRecorded(w) && SameRecord(v.stored, w.stored) && v.log == w.log && !Commits(a)
    ensures StoredIsRecorded(v) && OneBlock(w.log, v.log, a)
  {
    BlockParts(w.log, a, 0, [], []);
    assert w.log + AppliedEvents(InApplyOrder(Desired(a))[..0]) + DeletedEvents([]) + [] == w.log;
  }

  /** What a prune asks to delete is stale, or of a kind that no server has. */
  lemma PruneAsks(w: World, local: Status, objs: seq<Object>, a: Attempt) returns (asked: seq<Identity>)
    requires StoredIsRecorded(w) && SameRecord(local, w.stored)
    ensures PruneStage(w, local, objs, a).log == w.log + DeletedEvents(asked)
    ensures PruneStage(w, local, objs, a).stored == w.stored
    ensures AllSound(objs) && AllSound(Held(w.log)) ==>
              forall x :: x in asked ==> Unknown(x.kind) || x in StaleIds(Held(w.log), objs)
  {
    hide ObjectFromRef, Sound, StaleIds;
    if a.prune && local.inventory.Some? {
      var stale := Stale(local.inventory.value, NewIds(Refs(objs)));
      asked := stale[..Min(StopFrom(a.deletes, 0, |stale|) + 1, |stale|)];
      if AllSound(objs) && AllSound(Held(w.log)) {
        assert local.inventory.value == Refs(Held(w.log));
        StaleIsGone(Held(w.log), objs);
        forall x | x in asked ensures Unknown(x.kind) || x in StaleIds(Held(w.log), objs) {
          assert x in stale;
          assert !Unknown(x.kind) ==> x in (set y | y in stale && !Unknown(y.kind));
        }
      }
    } else {
      asked := [];
      assert w.log + DeletedEvents([]) == w.log;
    }
  }

  lemma DeployBlock(w: World, local: Status, a: Attempt)
    requires StoredIsRecorded(w) && SameRecord(local, w.stored)
    requires Deploys(a)
    ensures var v := Deploy(w, local, a.source.value, Desired(a), a).0;
            && StoredIsRecorded(v) && OneBlock(w.log, v.log, a)
            && LastRecord(v.log) == if FullyApplied(a) && !a.finish.Failed?
                                    then Some((a.source.value, InApplyOrder(Desired(a)))) else LastRecord(w.log)
  {
    SortedLength(Desired(a));
    var objs := InApplyOrder(Desired(a));
    var n := Effective(a.applies, |objs|);
    var (v, ok) := ApplyAll(w, objs, a.applies);
    if !ok {
      GiveUpKeeps(v, local, "ApplyFailed", a);
      BlockParts(w.log, a, n, [], []);
      assert v.log == w.log + AppliedEvents(objs[..n]) + DeletedEvents([]) + [];
    } else {
      EventsUnrecorded(objs[..n], []);
      assert AppliedEvents(objs[..n]) + DeletedEvents([]) == AppliedEvents(objs[..n]);
      LastRecordSkips(w.log, AppliedEvents(objs[..n]));
      var asked := PruneAsks(v, local, objs, a);
      var u := PruneStage(v, local, objs, a);
      var record := if a.finish.Failed? then [] else [Recorded(a.source.value, objs)];
      BlockParts(w.log, a, n, asked, record);
      var z := Commit(u, local, a.source.value, objs, a).0;
      assert z.log == w.log + AppliedEvents(objs[..n]) + DeletedEvents(asked) + record;
    }
  }

  /** Every delivery adds one block and keeps the stored pair that of the last record, which is
    * a new one exactly when the attempt commits. */
  lemma StepAddsBlock(w: World, a: Attempt)
    requires StoredIsRecorded(w)
    ensures StoredIsRecorded(Step(w, a).0)
    ensures OneBlock(w.log, Step(w, a).0.log, a)
    ensures LastRecord(Step(w, a).0.log) ==
            if Commits(a) then Some((a.source.value, InApplyOrder(Desired(a)))) else LastRecord(w.log)
  {
    var v := PatchStatus(w, w.stored, Starting(w.stored, a.generation), a.begin);
    if a.lookup.Found? && !a.suspend && a.begin.Done? {
      assert SameRecord(v.stored, w.stored) && v.log == w.log;
      if a.source.Some? && a.fetched && a.values && a.rendered.Some? {
        DeployBlock(v, Noted(v.stored, a.source.value, a.requestedAt), a);
      } else {
        NoBlock(w, AfterBegin(v, a).0, a);
      }
    } else {
      NoBlock(w, Step(w, a).0, a);
    }
  }

  // ------------------------------------------------------------ whole runs

  function AppliedIn(log: seq<Event>): set<Identity>
  {
    set e | e in log && e.Applied? :: e.id
  }

  /** At every deletion the persisted inventory of that moment lists the object, or the kind is
    * one that no server has. */
  ghost predicate Justified(log: seq<Event>)
  {
    forall j :: 0 <= j < |log| && log[j].Deleted? ==> Unknown(log[j].id.kind) || log[j].id in Ids(Held(log[..j]))
  }

  /** Every record comes after the apply of each object it lists, all of them sound. */
  ghost predicate Backed(log: seq<Event>)
  {
    forall i :: 0 <= i < |log| && log[i].Recorded? ==>
      Ids(log[i].objects) <= AppliedIn(log[..i]) && AllSound(log[i].objects)
  }

  /** The last record of the log is its i-th event. */
  ghost predicate LastAt(log: seq<Event>, i: nat)
    requires i < |log|
  {
    && LastRecord(log).Some?
    && log[i] == Recorded(LastRecord(log).value.0, LastRecord(log).value.1) && Unrecorded(log[i + 1..])
  }

  lemma {:induction false} HeldIsRecorded(log: seq<Event>)
    ensures LastRecord(log).Some? ==> exists i :: 0 <= i < |log| && LastAt(log, i)
    ensures LastRecord(log).None? ==> Unrecorded(log)
  {
    if log != [] {
      var n := |log| - 1;
      HeldIsRecorded(log[..n]);
      if log[n].Recorded? {
        assert LastAt(log, n);
      } else if LastRecord(log).Some? {
        var i :| 0 <= i < n && LastAt(log[..n], i);
        LastAtSnoc(log, i);
      } else {
        assert log == log[..n] + [log[n]];
      }
    }
  }

  lemma LastAtSnoc(log: seq<Event>, i: nat)
    requires i < |log| - 1 && LastAt(log[..|log| - 1], i) && !log[|log| - 1].Recorded?
    ensures LastAt(log, i)
  {
    var n := |log| - 1;
    assert log[i + 1..] == log[..n][i + 1..] + [log[n]];
    assert log[i] == log[..n][i];
  }

  lemma HeldSound(log: seq<Event>)
    requires Backed(log)
    ensures AllSound(Held(log))
  {
    HeldIsRecorded(log);
  }

  lemma DeletionsJustified(before: seq<Event>, objs: seq<Object>, gone: seq<Identity>)
    requires Justified(before)
    requires forall x :: x in gone ==> Unknown(x.kind) || x in Ids(Held(before))
    ensures Justified(before + (AppliedEvents(objs) + DeletedEvents(gone)))
  {
    var middle := AppliedEvents(objs) + DeletedEvents(gone);
    var log := before + middle;
    EventsUnrecorded(objs, gone);
    forall j | 0 <= j < |log| && log[j].Deleted?
      ensures Unknown(log[j].id.kind) || log[j].id in Ids(Held(log[..j]))
    {
      if j < |before| {
        assert log[..j] == before[..j] && log[j] == before[j];
      } else {
        assert log[j] == middle[j - |before|] && log[j].id in gone;
        assert log[..j] == before + middle[..j - |before|];
        LastRecordSkips(before, middle[..j - |before|]);
      }
    }
  }

  lemma RecordJustified(log: seq<Event>, e: Event)
    requires Justified(log) && e.Recorded?
    ensures Justified(log + [e])
  {
    var after := log + [e];
    forall j | 0 <= j < |after| && after[j].Deleted?
      ensures Unknown(after[j].id.kind) || after[j].id in Ids(Held(after[..j]))
    {
      assert after[..j] == log[..j] && after[j] == log[j];
    }
  }

  lemma RecordBacked(before: seq<Event>, middle: seq<Event>, record: seq<Event>)
    requires Backed(before) && Unrecorded(middle)
    requires |record| <= 1
    requires forall e :: e in record && e.Recorded? ==> AllSound(e.objects) && Ids(e.objects) <= AppliedIn(middle)
    ensures Backed(before + middle + record)
  {
    var after := before + middle + record;
    forall i | 0 <= i < |after| && after[i].Recorded?
      ensures Ids(after[i].objects) <= AppliedIn(after[..i]) && AllSound(after[i].objects)
    {
      if i < |before| {
        assert after[..i] == before[..i] && after[i] == before[i];
      } else if i < |before| + |middle| {
        assert false;
      } else {
        assert after[i] == record[0] && after[..i] == before + middle;
        assert AppliedIn(middle) <= AppliedIn(before + middle);
      }
    }
  }

  lemma EventsApplied(objs: seq<Object>, gone: seq<Identity>)
    ensures Ids(objs) <= AppliedIn(AppliedEvents(objs) + DeletedEvents(gone))
  {
    var middle := AppliedEvents(objs) + DeletedEvents(gone);
    forall x | x in Ids(objs) ensures x in AppliedIn(middle) {
      var k :| 0 <= k < |objs| && IdentityOf(objs[k]) == x;
      assert middle[k] == Applied(x);
    }
  }

  lemma PartsKeepHistory(before: seq<Event>, objs: seq<Object>, n: nat, gone: seq<Identity>, record: seq<Event>,
                         revision: string)
    requires Justified(before) && Backed(before) && AllSound(objs)
    requires n <= |objs| && (record != [] ==> n == |objs|)
    requires record == [] || record == [Recorded(revision, objs)]
    requires forall x :: x in gone ==> Unknown(x.kind) || x in Ids(Held(before))
    ensures var after := before + (AppliedEvents(objs[..n]) + DeletedEvents(gone)) + record;
            Justified(after) && Backed(after)
  {
    hide Justified, Backed, Held, AppliedIn, AllSound, AppliedEvents, DeletedEvents, Ids;
    var middle := AppliedEvents(objs[..n]) + DeletedEvents(gone);
    EventsUnrecorded(objs[..n], gone);
    EventsApplied(objs[..n], gone);
    assert record != [] ==> objs[..n] == objs;
    RecordBacked(before, middle, record);
    DeletionsJustified(before, objs[..n], gone);
    if record == [] {
      assert before + middle + record == before + middle;
    } else {
      RecordJustified(before + middle, record[0]);
    }
  }

  lemma BlockKeepsHistory(before: seq<Event>, after: seq<Event>, a: Attempt)
    requires Justified(before) && Backed(before)
    requires OneBlock(before, after, a) && AllSound(Desired(a))
    ensures Justified(after) && Backed(after)
  {
    hide Justified, Backed, Held, AppliedIn, AllSound, AppliedEvents, DeletedEvents, Ids, StaleIds;
    var objs := InApplyOrder(Desired(a));
    InApplyOrderMembers(Desired(a));
    HeldSound(before);
    SparedIff(Held(before), objs);
    var n: nat, gone, record :| IsBlock(before, after, a, n, gone, record);
    assert after == before + (AppliedEvents(objs[..n]) + DeletedEvents(gone)) + record;
    PartsKeepHistory(before, objs, n, gone, record, if a.source.Some? then a.source.value else "");
  }

  /** The stored pair is that of an attempt: its revision, and the ids of all it rendered. */
  ghost predicate StoredBy(s: Status, a: Option<Attempt>)
  {
    match a
    case None => s.lastApplied == "" && s.inventory == None
    case Some(a) => a.source.Some? && s.lastApplied == a.source.value
                    && s.inventory == Some(Refs(InApplyOrder(Desired(a))))
  }

  /** After any run at all the stored pair and the held objects are those of the latest attempt
    * of the run that applied its whole render and whose final write took effect. */
  lemma {:induction false} RunStores(acts: seq<Action>)
    ensures StoredIsRecorded(Run(NEW_WORLD, acts))
    ensures StoredBy(Run(NEW_WORLD, acts).stored, LastCommitted(acts))
    ensures Held(Run(NEW_WORLD, acts).log) == HeldBy(LastCommitted(acts))
  {
    RunRecords(acts);
  }

  function HeldBy(last: Option<Attempt>): seq<Object>
  {
    if last.None? then [] else InApplyOrder(Desired(last.value))
  }

  lemma {:induction false} RunRecords(acts: seq<Action>)
    ensures StoredIsRecorded(Run(NEW_WORLD, acts))
    ensures LastRecord(Run(NEW_WORLD, acts).log) ==
            match LastCommitted(acts)
            case None => None
            case Some(a) => Some((if a.source.Some? then a.source.value else "", InApplyOrder(Desired(a))))
    ensures LastCommitted(acts).Some? ==> LastCommitted(acts).value.source.Some?
  {
    hide OneBlock, Desired, InApplyOrder;
    if acts == [] {
      NothingHappened();
    } else {
      hide Step;
      var n := |acts| - 1;
      RunRecords(acts[..n]);
      if acts[n].Deliver? {
        StepAddsBlock(Run(NEW_WORLD, acts[..n]), acts[n].attempt);
      }
    }
  }

  /** Every deletion of a run of sound renders was justified, every record backed. */
  lemma {:induction false} RunKeepsHistory(acts: seq<Action>)
    requires forall act :: act in acts ==> SoundAction(act)
    ensures var w := Run(NEW_WORLD, acts);
            StoredIsRecorded(w) && Justified(w.log) && Backed(w.log)
  {
    hide Justified, Backed, OneBlock, Desired, InApplyOrder, StoredIsRecorded;
    RunStores(acts);
    if acts == [] {
      NothingHappened();
    } else {
      hide Step;
      var n := |acts| - 1;
      RunKeepsHistory(acts[..n]);
      var w := Run(NEW_WORLD, acts[..n]);
      assert SoundAction(acts[n]);
      if acts[n].Deliver? {
        var a := acts[n].attempt;
        StepAddsBlock(w, a);
        BlockKeepsHistory(w.log, Step(w, a).0.log, a);
      }
    }
  }

  lemma NothingHappened()
    ensures Justified([]) && Backed([]) && StoredIsRecorded(NEW_WORLD) && NEW_WORLD.log == []
  {
  }

  // -------------------------------------------- what one delivery of a run did

  /** The events of a block: applies of the desired objects in order, then deletions of what is
    * stale or of no server's kind. */
  lemma BlockEvents(before: seq<Event>, after: seq<Event>, a: Attempt, j: nat)
    requires OneBlock(before, after, a)
    requires |before| <= j < |after|
    ensures before <= after
    ensures after[j].Deleted? && AllSound(Held(before)) && AllSound(Desired(a)) ==>
              Unknown(after[j].id.kind) || after[j].id in StaleIds(Held(before), InApplyOrder(Desired(a)))
    ensures after[j].Applied? ==>
              var objs := InApplyOrder(Desired(a));
              && j - |before| < |objs|
              && forall i | |before| <= i <= j :: after[i] == Applied(IdentityOf(objs[i - |before|]))
  {
    hide AllSound, Held, InApplyOrder, IdentityOf, StaleIds;
    var objs := InApplyOrder(Desired(a));
    InApplyOrderMembers(Desired(a));
    var n: nat, gone, record :| IsBlock(before, after, a, n, gone, record);
    var k := j - |before|;
    if k < n {
      forall i | |before| <= i <= j ensures after[i] == Applied(IdentityOf(objs[i - |before|])) {
        assert after[i] == AppliedEvents(objs[..n])[i - |before|];
      }
    } else if k < n + |gone| {
      assert after[j] == DeletedEvents(gone)[k - n] && gone[k - n] in gone;
    } else {
      assert after[j] == record[k - n - |gone|];
    }
  }

  /** The log before and after the k-th action of a run. */
  function LogAt(acts: seq<Action>, k: nat): seq<Event>
    requires k <= |acts|
  {
    Run(NEW_WORLD, acts[..k]).log
  }

  /** From one log to the next, only ids of the last attempt are deleted that the action does not
    * render, or kinds that no server has; and, if the last attempt's objects are spared, none of
    * the action's own objects. */
  ghost predicate StaleOnly(before: seq<Event>, after: seq<Event>, last: Option<Attempt>, act: Action)
  {
    && before <= after
    && forall j | |before| <= j < |after| && after[j].Deleted? ::
         && act.Deliver?
         && (Unknown(after[j].id.kind) ||
             (&& last.Some?
              && after[j].id in StaleIds(Desired(last.value), Desired(act.attempt))
              && (Spared(Desired(last.value), Desired(act.attempt)) ==> after[j].id !in Ids(Desired(act.attempt)))))
  }

  /** What the k-th action of a run asked to delete, against the latest attempt committed before it. */
  ghost predicate DeletesStaleOnly(acts: seq<Action>, k: nat)
    requires k < |acts|
  {
    StaleOnly(LogAt(acts, k), LogAt(acts, k + 1), LastCommitted(acts[..k]), acts[k])
  }

  predicate AppliedBetween(log: seq<Event>, from: nat, to: nat, id: Identity)
    requires to <= |log|
  {
    exists i :: from <= i < to && log[i] == Applied(id)
  }

  lemma RunStep(acts: seq<Action>, k: nat)
    requires k < |acts|
    ensures Run(NEW_WORLD, acts[..k + 1]) == Act(Run(NEW_WORLD, acts[..k]), acts[k])
  {
    assert acts[..k + 1][..k] == acts[..k];
  }

  lemma StaleIdsInOrder(held: seq<Object>, objs: seq<Object>)
    ensures StaleIds(InApplyOrder(held), InApplyOrder(objs)) == StaleIds(held, objs)
  {
    hide InApplyOrder, IdentityOf, Label;
    InApplyOrderMembers(held);
    InApplyOrderMembers(objs);
  }

  lemma HeldBySound(acts: seq<Action>)
    requires forall act :: act in acts ==> SoundAction(act)
    ensures LastCommitted(acts).Some? ==> AllSound(Desired(LastCommitted(acts).value))
    ensures AllSound(HeldBy(LastCommitted(acts)))
  {
    hide AllSound, Desired, Commits;
    LastIsIn(acts);
    if LastCommitted(acts).Some? {
      assert SoundAction(Deliver(LastCommitted(acts).value));
      InApplyOrderMembers(Desired(LastCommitted(acts).value));
    } else {
      NothingIsSound();
    }
  }

  lemma NothingIsSound()
    ensures AllSound([])
  {
  }

  lemma {:induction false} LastIsIn(acts: seq<Action>)
    ensures LastCommitted(acts).Some? ==>
              Deliver(LastCommitted(acts).value) in acts && Commits(LastCommitted(acts).value)
  {
    hide Commits;
    if acts != [] { LastIsIn(acts[..|acts| - 1]); }
  }

  lemma ActionDeletesStaleOnly(acts: seq<Action>, k: nat)
    requires forall act :: act in acts ==> SoundAction(act)
    requires k < |acts|
    ensures DeletesStaleOnly(acts, k)
  {
    hide Step, Run, OneBlock, AllSound, Desired, InApplyOrder, Ids, LastCommitted, Commits, StaleIds, Spared;
    RunStep(acts, k);
    RunStores(acts[..k]);
    HeldBySound(acts[..k]);
    assert SoundAction(acts[k]);
    var u, last := Run(NEW_WORLD, acts[..k]), LastCommitted(acts[..k]);
    if acts[k].Deliver? {
      var a := acts[k].attempt;
      var v := Step(u, a).0;
      StepAddsBlock(u, a);
      BlockIsSuffix(u.log, v.log, a);
      forall j | |u.log| <= j < |v.log| && v.log[j].Deleted? && !Unknown(v.log[j].id.kind)
        ensures last.Some? && v.log[j].id in StaleIds(Desired(last.value), Desired(a))
        ensures Spared(Desired(last.value), Desired(a)) ==> v.log[j].id !in Ids(Desired(a))
      {
        BlockEvents(u.log, v.log, a, j);
        NothingStale(InApplyOrder(Desired(a)));
        StaleIdsInOrder(Desired(last.value), Desired(a));
        SparedIff(Desired(last.value), Desired(a));
      }
    }
  }

  lemma NothingStale(objs: seq<Object>)
    ensures StaleIds([], objs) == {}
  {
  }

  lemma BlockIsSuffix(before: seq<Event>, after: seq<Event>, a: Attempt)
    requires OneBlock(before, after, a)
    ensures before <= after
  {
  }

  /** Inside one delivery of any run, applying follows the ranks: an object is applied only after
    * every desired object of a lower rank. */
  lemma AppliedInRankOrder(acts: seq<Action>, k: nat, j: nat, p: Object)
    requires k < |acts| && acts[k].Deliver? && p in Desired(acts[k].attempt)
    requires |LogAt(acts, k)| <= j < |LogAt(acts, k + 1)| && LogAt(acts, k + 1)[j].Applied?
    requires ApplyRank(p.kind) < ApplyRank(LogAt(acts, k + 1)[j].id.kind)
    ensures AppliedBetween(LogAt(acts, k + 1), |LogAt(acts, k)|, j, IdentityOf(p))
  {
    hide Step, Run, OneBlock, Desired, Ids, LastCommitted, ApplyRank, Sort, StaleIds, AllSound;
    RunStep(acts, k);
    RunStores(acts[..k]);
    var u, a := Run(NEW_WORLD, acts[..k]), acts[k].attempt;
    StepAddsBlock(u, a);
    var after := LogAt(acts, k + 1);
    BlockEvents(u.log, after, a, j);
    var objs := InApplyOrder(Desired(a));
    InApplyOrderMembers(Desired(a));
    var at :| 0 <= at < |objs| && objs[at] == p;
    RankIsWeakOrder();
    SortIsStable(ByRank, Desired(a));
    SameName(objs[j - |u.log|]);
    SmallerIsFirst(ByRank, objs, j - |u.log|, at);
    assert after[|u.log| + at] == Applied(IdentityOf(p));
  }

  lemma {:induction false} RunLogGrows(acts: seq<Action>, k: nat)
    requires k <= |acts|
    ensures LogAt(acts, k) <= Run(NEW_WORLD, acts).log
    decreases |acts| - k
  {
    if k == |acts| {
      assert acts[..k] == acts;
    } else {
      hide Run, Step, OneBlock;
      RunLogGrows(acts, k + 1);
      RunStep(acts, k);
      RunStores(acts[..k]);
      if acts[k].Deliver? {
        StepAddsBlock(Run(NEW_WORLD, acts[..k]), acts[k].attempt);
        BlockIsSuffix(LogAt(acts, k), LogAt(acts, k + 1), acts[k].attempt);
      }
    }
  }

  /** A deletion names what the latest completed attempt had recorded, and had applied before. */
  lemma DeletionExplained(log: seq<Event>, j: nat)
    requires Justified(log) && Backed(log)
    requires j < |log| && log[j].Deleted? && !Unknown(log[j].id.kind)
    ensures exists i, k :: 0 <= k < i < j
              && log[i].Recorded? && log[j].id in Ids(log[i].objects)
              && log[k] == Applied(log[j].id) && Unrecorded(log[i + 1..j])
  {
    hide Ids, AllSound;
    var past := log[..j];
    HeldIsRecorded(past);
    assert log[j].id in Ids(Held(past));
    NothingHeld(past);
    var i :| 0 <= i < |past| && past[i] == Recorded(LastRecord(past).value.0, LastRecord(past).value.1)
             && Unrecorded(past[i + 1..]);
    assert log[i] == past[i] && past[i + 1..] == log[i + 1..j];
    assert log[j].id in AppliedIn(log[..i]);
    var e :| e in log[..i] && e == Applied(log[j].id);
    var k :| 0 <= k < i && log[..i][k] == e;
    assert log[k] == e;
  }

  lemma NothingHeld(log: seq<Event>)
    ensures LastRecord(log).None? ==> Ids(Held(log)) == {}
  {
  }

  lemma HeldIsApplied(log: seq<Event>)
    requires Backed(log)
    ensures Ids(Held(log)) <= AppliedIn(log)
  {
    hide Ids, AllSound;
    HeldIsRecorded(log);
    NothingHeld(log);
    if LastRecord(log).Some? {
      var i :| 0 <= i < |log| && log[i] == Recorded(LastRecord(log).value.0, LastRecord(log).value.1);
      assert AppliedIn(log[..i]) <= AppliedIn(log);
    }
  }

  /** After any run, with any failures and any interference, the persisted revision and full id
    * list are those of the latest attempt of the run that completed, and the log tells the run
    * action by action. If the renders are sound: what an action asked to delete, but for kinds
    * that no server has, are ids of the latest attempt completed before it that it does not
    * render, and none of its own objects if that attempt's objects are spared; and each object
    * deleted had been applied before that completion. */
  lemma RunIsSafe(acts: seq<Action>)
    ensures var w := Run(NEW_WORLD, acts);
            && StoredBy(w.stored, LastCommitted(acts))
            && forall k | 0 <= k < |acts| :: LogAt(acts, k) <= w.log
    ensures (forall act :: act in acts ==> SoundAction(act)) ==>
              var w := Run(NEW_WORLD, acts);
              && (forall k | 0 <= k < |acts| :: DeletesStaleOnly(acts, k))
              && Ids(Held(w.log)) <= AppliedIn(w.log)
              && forall j :: 0 <= j < |w.log| && w.log[j].Deleted? && !Unknown(w.log[j].id.kind) ==>
                   exists i, k :: 0 <= k < i < j
                     && w.log[i].Recorded? && w.log[j].id in Ids(w.log[i].objects)
                     && w.log[k] == Applied(w.log[j].id)
                     && Unrecorded(w.log[i + 1..j])
  {
    hide Run, StoredIsRecorded, Justified, Backed, Held, AppliedIn, Unrecorded, SoundAction, LogAt, DeletesStaleOnly,
         StoredBy, LastCommitted;
    RunStores(acts);
    var log := Run(NEW_WORLD, acts).log;
    forall k | 0 <= k < |acts| ensures LogAt(acts, k) <= log {
      RunLogGrows(acts, k);
    }
    if forall act :: act in acts ==> SoundAction(act) {
      RunKeepsHistory(acts);
      HeldIsApplied(log);
      forall k | 0 <= k < |acts| ensures DeletesStaleOnly(acts, k) {
        ActionDeletesStaleOnly(acts, k);
      }
      forall j | 0 <= j < |log| && log[j].Deleted? && !Unknown(log[j].id.kind)
        ensures exists i, k :: 0 <= k < i < j
                  && log[i].Recorded? && log[j].id in Ids(log[i].objects)
                  && log[k] == Applied(log[j].id) && Unrecorded(log[i + 1..j])
      {
        DeletionExplained(log, j);
      }
    }
  }
}
