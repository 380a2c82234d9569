/** What the Bucket controller achieves when its calls are answered. */
module BucketProgress {
  import opened Text
  import opened BucketUpdate
  import opened Adoption
  import opened BucketLifecycle
  import opened BucketSafety

  /** The status records a bucket that is there, under its name and identity. */
  ghost predicate Recorded(w: World) {
    && w.status.bucketName in w.store
    && w.status.resourceId == Some(w.store[w.status.bucketName].identity)
  }

  /** A new bucket is as desired, and holds no statement but the user's. */
  lemma NewBucketsAreAsDesired(d: Desired)
    ensures AsDesired(d, NewRecord(d))
    ensures NewRecord(d).policy.statements == if d.policy.Parsed? then d.policy.document.statements else []
  {}

  /** A repair whose calls are answered ends the drift of the recorded bucket. */
  lemma RepairConverges(w: World, name: string, f: Fates)
    requires name in w.store && !w.spec.desired.policy.Unparsable?
    requires f.get.Answered? && f.update.Answered? && f.status.Answered?
    ensures var r := RepairBucket(w, name, f);
      && r.end.Completed? && Recorded(r.w) && r.w.status.bucketName == name
      && AsDesired(w.spec.desired, r.w.store[name].record)
  {
    hide RequiresUpdate, UpdateFor, AsDesired, WithProviderStatus;
    UpdateMakesAsDesired(w.spec.desired, w.store[name].record);
    DriftMeansNotAsDesired(w.spec.desired, w.store[name].record);
    ProviderStatusKeepsName(Observed(w.status, name, w.store[name]), w.store[name]);
  }

  /** A completed pass over a bucket that is there reports it available exactly if the provider calls
      it ready and there was nothing to repair. */
  lemma RepairReportsReady(w: World, name: string, f: Fates)
    requires name in w.store && RepairBucket(w, name, f).end.Completed?
    ensures RepairBucket(w, name, f).w.status.conditions.state.Available? <==>
        w.store[name].ready && AsDesired(w.spec.desired, w.store[name].record)
  {
    hide RequiresUpdate, UpdateFor, AsDesired;
    DriftMeansNotAsDesired(w.spec.desired, w.store[name].record);
  }

  lemma ProviderStatusKeepsName(st: Status, remote: Remote)
    ensures var r := WithProviderStatus(st, remote);
      r.bucketName == st.bucketName && r.resourceId == st.resourceId
  {}

  /** Without failures in looking up and creating, the first name that is free is created. */
  lemma {:induction false} AllocateConverges(c: Config, w: World, st: Status, f: Fates, turn: nat, created: seq<string>, free: nat)
    requires SuffixOn(w.spec) && !w.spec.desired.policy.Unparsable? && f.status.Answered?
    requires turn <= free < Attempts(w.spec)
    requires forall i | turn <= i <= free :: f.TurnAt(i).suffix.Some? && f.TurnAt(i).get.Answered? && f.TurnAt(i).create.Answered?
    requires forall i | turn <= i < free :: TurnName(w.spec, f.TurnAt(i)) in w.store
    requires TurnName(w.spec, f.TurnAt(free)) !in w.store
    ensures var p := Allocate(c, w, st, f, turn, created);
      && p.end.Completed? && p.tries == free + 1
      && p.created == created + [TurnName(w.spec, f.TurnAt(free))]
      && Recorded(p.w) && p.w.status.bucketName == TurnName(w.spec, f.TurnAt(free))
      && AsDesired(w.spec.desired, p.w.store[p.w.status.bucketName].record)
    decreases free - turn
  {
    hide TurnName, NewRecord, AsDesired, Eligible;
    if turn < free {
      AllocateConverges(c, w, st, f, turn + 1, created, free);
    } else {
      NewBucketsAreAsDesired(w.spec.desired);
    }
  }

  /** A creating pass with suffixes whose calls are answered skips the names that are taken, creates
      exactly one bucket, as desired, and records it. */
  lemma CreateConverges(c: Config, w: World, f: Fates, free: nat)
    requires SuffixOn(w.spec) && !w.spec.desired.policy.Unparsable? && f.start.Answered? && f.status.Answered?
    requires (w.spec.region != "" || c.defaultRegion != "") && free < Attempts(w.spec)
    requires forall i | 0 <= i <= free :: f.TurnAt(i).suffix.Some? && f.TurnAt(i).get.Answered? && f.TurnAt(i).create.Answered?
    requires forall i | 0 <= i < free :: TurnName(w.spec, f.TurnAt(i)) in w.store
    requires TurnName(w.spec, f.TurnAt(free)) !in w.store
    ensures var p := CreateBucket(c, w, f);
      && p.end.Completed? && p.created == [TurnName(w.spec, f.TurnAt(free))]
      && Recorded(p.w) && p.w.status.bucketName == TurnName(w.spec, f.TurnAt(free))
      && AsDesired(w.spec.desired, p.w.store[p.w.status.bucketName].record)
  {
    hide Allocate, TurnName, AsDesired;
    var st := With(w.status, BucketLifecycle.C.Progressing, "Creating");
    AllocateConverges(c, Persisted(w, st, f.start), st, f, 0, [], free);
  }

  /** A bucket that is gone is forgotten by the pass that notices, and made anew by the next. */
  lemma LostBucketIsRecreated(c: Config, w: World, f: Fates, f': Fates)
    requires w.status.bucketName != "" && w.status.bucketName !in w.store
    requires f.get.Answered? && f.status.Answered?
    ensures var w' := Reconcile(c, w, f).w;
      && w' == w.(status := w'.status) && w'.status.bucketName == "" && w'.status.resourceId.None?
      && Reconcile(c, w', f') == CreateBucket(c, w', f')
  {
    hide CreateBucket;
  }

  // ---------- Recovery ----------

  /** Every call is answered, and the suffixes are not blank. */
  ghost predicate Answering(w: World, f: Fates) {
    && f.start.Answered? && f.get.Answered? && f.update.Answered? && f.status.Answered?
    && forall i | 0 <= i < Attempts(w.spec) ::
         f.TurnAt(i).suffix.Some? && Trim(f.TurnAt(i).suffix.value) != "" && f.TurnAt(i).get.Answered? && f.TurnAt(i).create.Answered?
  }

  /** One of the random names is free. */
  ghost predicate SomeNameFree(w: World, f: Fates) {
    exists i | 0 <= i < Attempts(w.spec) :: TurnName(w.spec, f.TurnAt(i)) !in w.store
  }

  lemma FirstFree(w: World, f: Fates, n: nat) returns (free: nat)
    requires exists i | 0 <= i < n :: TurnName(w.spec, f.TurnAt(i)) !in w.store
    ensures free < n && TurnName(w.spec, f.TurnAt(free)) !in w.store
    ensures forall i | 0 <= i < free :: TurnName(w.spec, f.TurnAt(i)) in w.store
  {
    hide TurnName;
    free := 0;
    while TurnName(w.spec, f.TurnAt(free)) in w.store
      invariant free < n
      invariant forall i | 0 <= i < free :: TurnName(w.spec, f.TurnAt(i)) in w.store
      decreases n - free
    {
      var i :| 0 <= i < n && TurnName(w.spec, f.TurnAt(i)) !in w.store;
      assert free < i;
      free := free + 1;
    }
  }

  /** What the passes of a resource with suffixes keep: an identity is recorded with a name only. */
  predicate Consistent(w: World) {
    SuffixOn(w.spec) && (w.status.resourceId.Some? ==> w.status.bucketName != "")
  }

  /** What a resource needs to be served. */
  predicate Wanted(c: Config, w: World) {
    !w.spec.desired.policy.Unparsable? && (w.spec.region != "" || c.defaultRegion != "")
  }

  /** The recorded bucket is there and as desired. */
  ghost predicate InSync(w: World) {
    w.status.bucketName != "" && Recorded(w) && AsDesired(w.spec.desired, w.store[w.status.bucketName].record)
  }

  ghost predicate ReportsReadiness(w: World) {
    w.status.bucketName in w.store &&
    (w.status.conditions.state.Available? <==> w.store[w.status.bucketName].ready)
  }

  /** From a recorded bucket that is there, one answered pass brings it in sync; if it was, the pass
      reports whether it is ready. */
  lemma RecordedPass(c: Config, w: World, f: Fates)
    requires Wanted(c, w) && w.status.bucketName != "" && w.status.bucketName in w.store
    requires f.get.Answered? && f.update.Answered? && f.status.Answered?
    ensures var r := Reconcile(c, w, f).w;
      && InSync(r) && r.spec == w.spec
      && (AsDesired(w.spec.desired, w.store[w.status.bucketName].record) ==> ReportsReadiness(r))
  {
    hide RepairBucket, CreateBucket, AsDesired, BaseName;
    var n := w.status.bucketName;
    RepairConverges(w, n, f);
    RepairStaysPut(w, n, f);
    if AsDesired(w.spec.desired, w.store[n].record) {
      NoDriftNoRepair(w, n, f);
      RepairReportsReady(w, n, f);
    }
  }

  lemma CreatingPass(c: Config, w: World, f: Fates)
    requires Wanted(c, w) && SuffixOn(w.spec) && w.status.bucketName == "" && w.status.resourceId.None?
    requires Answering(w, f) && SomeNameFree(w, f)
    ensures var r := Reconcile(c, w, f).w;
      InSync(r) && r.spec == w.spec
  {
    hide CreateBucket, TurnName, AsDesired;
    var free := FirstFree(w, f, Attempts(w.spec));
    CreateConverges(c, w, f, free);
    AllocationBounds(c, w, f);
    NameNotBlank(w, f, free);
  }

  lemma NameNotBlank(w: World, f: Fates, i: nat)
    requires SuffixOn(w.spec) && f.TurnAt(i).suffix.Some? && Trim(f.TurnAt(i).suffix.value) != ""
    ensures TurnName(w.spec, f.TurnAt(i)) != ""
  {
    hide Trim, BaseName;
  }

  /** From every consistent state three answered passes suffice, each finding a free name should it
      need one: a bucket is recorded, it is there and as desired, and it is reported available
      exactly if the provider calls it ready. */
  lemma ThreePassesSuffice(c: Config, w: World, f1: Fates, f2: Fates, f3: Fates)
    requires Consistent(w) && Wanted(c, w) && Answering(w, f1) && Answering(w, f2) && Answering(w, f3)
    requires SomeNameFree(w, f1) && SomeNameFree(w, f2)
    ensures var r := Reconcile(c, Reconcile(c, Reconcile(c, w, f1).w, f2).w, f3).w;
      InSync(r) && ReportsReadiness(r)
  {
    assert f1.get.Answered? && f1.update.Answered? && f1.status.Answered?;
    hide Reconcile, AsDesired, Answering, SomeNameFree, Recorded;
    var w1 := Reconcile(c, w, f1).w;
    var w2 := Reconcile(c, w1, f2).w;
    if w.status.bucketName == "" {
      CreatingPass(c, w, f1);
      InSyncStays(c, w, w1, f2);
      InSyncStays(c, w, w2, f3);
    } else if w.status.bucketName in w.store {
      RecordedPass(c, w, f1);
      InSyncStays(c, w, w1, f2);
      InSyncStays(c, w, w2, f3);
    } else {
      ForgettingPass(c, w, f1);
      OnlyStatusDiffers(c, w, w1, f2);
      CreatingPass(c, w1, f2);
      InSyncStays(c, w, w2, f3);
    }
  }

  lemma InSyncStays(c: Config, w0: World, w: World, f: Fates)
    requires Wanted(c, w0) && Consistent(w0) && w.spec == w0.spec && InSync(w) && Answering(w0, f)
    ensures var r := Reconcile(c, w, f).w;
      InSync(r) && ReportsReadiness(r) && r.spec == w0.spec
  {
    hide Reconcile, AsDesired;
    RecordedPass(c, w, f);
  }

  lemma ForgettingPass(c: Config, w: World, f: Fates)
    requires w.status.bucketName != "" && w.status.bucketName !in w.store && f.get.Answered? && f.status.Answered?
    ensures var r := Reconcile(c, w, f).w;
      r == w.(status := r.status) && r.status.bucketName == "" && r.status.resourceId.None?
  {
    hide Reconcile;
    LostBucketIsRecreated(c, w, f, f);
  }

  lemma OnlyStatusDiffers(c: Config, w: World, w': World, f: Fates)
    requires w' == w.(status := w'.status)
    ensures (Wanted(c, w) ==> Wanted(c, w')) && (Answering(w, f) ==> Answering(w', f)) && (SomeNameFree(w, f) ==> SomeNameFree(w', f))
  {
    hide TurnName;
  }

  // ---------- Consistency over runs ----------

  /** The random suffix is never blank. */
  ghost predicate NoBlankSuffix(f: Fates) {
    forall i: nat :: f.TurnAt(i).suffix.Some? ==> Trim(f.TurnAt(i).suffix.value) != ""
  }

  ghost predicate SuffixRun(es: seq<Event>) {
    forall i | 0 <= i < |es| ::
      && (es[i].Reconciled? ==> NoBlankSuffix(es[i].f))
      && (es[i].Respecified? ==> SuffixOn(es[i].spec))
  }

  /** A turn that creates or finds nothing keeps the record; one that does records a name. */
  lemma TurnConsistent(c: Config, w: World, st: Status, name: string, f: Fates, turn: nat, created: seq<string>)
    requires Consistent(w) && st.resourceId.None? && (f.TurnAt(turn).suffix.Some? ==> name != "")
    ensures match TakeTurn(c, w, st, name, f, turn, created)
      case Again(w', _) => Consistent(w') && w'.spec == w.spec
      case Over(p) => Consistent(p.w)
  {
    hide NewRecord, Eligible, Adopt;
  }

  lemma {:induction false} AllocateConsistent(c: Config, w: World, st: Status, f: Fates, turn: nat, created: seq<string>)
    requires Consistent(w) && st.resourceId.None? && NoBlankSuffix(f) && turn <= Attempts(w.spec)
    ensures Consistent(Allocate(c, w, st, f, turn, created).w)
    decreases Attempts(w.spec) - turn
  {
    hide TurnName, TakeTurn, Trim;
    if turn < Attempts(w.spec) {
      if f.TurnAt(turn).suffix.Some? {
        NameNotBlank(w, f, turn);
      }
      TurnConsistent(c, w, st, TurnName(w.spec, f.TurnAt(turn)), f, turn, created);
      var o := TakeTurn(c, w, st, TurnName(w.spec, f.TurnAt(turn)), f, turn, created);
      if o.Again? {
        AllocateConsistent(c, o.w, st, f, turn + 1, o.created);
      }
    }
  }

  lemma PassConsistent(c: Config, w: World, f: Fates)
    requires Consistent(w) && NoBlankSuffix(f)
    ensures Consistent(Reconcile(c, w, f).w)
  {
    hide Allocate, BaseName, RequiresUpdate, UpdateFor, NoBlankSuffix;
    if w.status.bucketName == "" && (w.spec.region != "" || c.defaultRegion != "") && f.start.Answered? {
      var st := With(w.status, BucketLifecycle.C.Progressing, "Creating");
      AllocateConsistent(c, Persisted(w, st, f.start), st, f, 0, []);
    }
  }

  lemma {:induction false} RunConsistent(c: Config, w: World, es: seq<Event>)
    requires Consistent(w) && SuffixRun(es)
    ensures Consistent(Run(c, w, es))
  {
    hide Reconcile, NoBlankSuffix, BaseName;
    if |es| > 0 {
      var most, e := es[..|es| - 1], es[|es| - 1];
      RunConsistent(c, w, most);
      if e.Reconciled? {
        PassConsistent(c, Run(c, w, most), e.f);
      }
    }
  }

  /** Whatever passes failed or were cut before, whatever was lost, recreated or taken over: with
      suffixes on, three answered passes end with a recorded bucket that is there, as desired, and
      available exactly if the provider calls it ready. */
  lemma BucketRecovery(c: Config, w: World, es: seq<Event>, f1: Fates, f2: Fates, f3: Fates)
    requires SuffixOn(w.spec) && w.status.bucketName == "" && w.status.resourceId.None? && SuffixRun(es)
    requires var now := Run(c, w, es);
      && Wanted(c, now) && Answering(now, f1) && Answering(now, f2) && Answering(now, f3)
      && SomeNameFree(now, f1) && SomeNameFree(now, f2)
    ensures var r := Reconcile(c, Reconcile(c, Reconcile(c, Run(c, w, es), f1).w, f2).w, f3).w;
      InSync(r) && ReportsReadiness(r)
  {
    hide Run, Reconcile, SuffixRun, InSync, ReportsReadiness, Answering, SomeNameFree;
    RunConsistent(c, w, es);
    ThreePassesSuffice(c, Run(c, w, es), f1, f2, f3);
  }
}
