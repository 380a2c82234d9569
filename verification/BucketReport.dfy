/** What the status of a Bucket tells, and what a teardown owes before the finalizer goes. */
module BucketReport {
  import opened Text
  import opened Faults
  import opened BucketUpdate
  import opened Adoption
  import opened BucketLifecycle
  import opened BucketProgress
  import C = Conditions

  // ---------- Creating passes ----------

  ghost predicate Available(w: World) {
    w.status.conditions.state.Available?
  }

  /** The buckets that were there are as they were; the new ones are this resource's, and as desired. */
  ghost predicate Grown(w: World, w': World) {
    && w'.spec == w.spec
    && (forall n | n in w.store :: n in w'.store && w'.store[n] == w.store[n])
    && (forall n | n in w'.store && n !in w.store ::
          w'.store[n].maker.ThisResource? && AsDesired(w.spec.desired, w'.store[n].record))
  }

  lemma GrownTransitive(w: World, w': World, w'': World)
    requires Grown(w, w') && Grown(w', w'')
    ensures Grown(w, w'')
  {
    hide AsDesired;
  }

  /** How a creating pass ends: a bucket that it did not find ready is not called available, a
      completed pass reports on a recorded bucket, and a failed one reports the failure. */
  ghost predicate Reported(w: World, p: Pass, f: Fates) {
    && Grown(w, p.w)
    && (Available(p.w) ==> Recorded(p.w) && p.w.store[p.w.status.bucketName].ready)
    && (p.end.Completed? ==> Recorded(p.w) && (Available(p.w) <==> p.w.store[p.w.status.bucketName].ready))
    && (p.end.Errored? && f.start.Answered? && f.status.Answered? && f.error.Answered? ==> p.w.status.conditions.state.Degraded?)
    && (p.w.status.conditions.state.Degraded? ==> !p.end.Completed?)
  }

  lemma CreatedGrows(w: World, name: string, t: Turn)
    ensures Grown(w, Created(w, name, t))
  {
    hide AsDesired, NewRecord;
    NewBucketsAreAsDesired(w.spec.desired);
  }

  lemma TryReports(w: World, st: Status, name: string, f: Fates, turn: nat, created: seq<string>)
    requires name !in w.store && w.status.conditions.state.Progressing?
    ensures match TryCreate(w, st, name, f, turn, created)
      case Again(w', _) => Grown(w, w') && w'.status == w.status
      case Over(p) => Reported(w, p, f)
  {
    hide AsDesired, NewRecord;
    CreatedGrows(w, name, f.TurnAt(turn));
  }

  lemma NothingGrown(w: World)
    ensures Grown(w, w)
  {}

  lemma FailReports(w: World, st: Status, reason: string, f: Fates, tries: nat, created: seq<string>)
    requires w.status.conditions.state.Progressing?
    ensures Reported(w, Fail(w, st, reason, f.error, tries, created), f)
  {}

  lemma CutReports(w: World, f: Fates, tries: nat, created: seq<string>)
    requires w.status.conditions.state.Progressing?
    ensures Reported(w, Pass(w, Interrupted, tries, created), f)
  {}

  lemma AdoptReports(c: Config, w: World, st: Status, name: string, f: Fates, tries: nat, created: seq<string>)
    requires name in w.store && w.status.conditions.state.Progressing?
    ensures Reported(w, Adopt(c, w, st, name, w.store[name], f, tries, created), f)
  {
    hide Eligible, AsDesired;
  }

  lemma TurnReports(c: Config, w: World, st: Status, name: string, f: Fates, turn: nat, created: seq<string>)
    requires w.status.conditions.state.Progressing?
    ensures match TakeTurn(c, w, st, name, f, turn, created)
      case Again(w', _) => Grown(w, w') && w'.status == w.status
      case Over(p) => Reported(w, p, f)
  {
    hide NewRecord, TryCreate, Adopt, Eligible, Reported, Grown, Fail;
    if name in w.store {
      AdoptReports(c, w, st, name, f, turn + 1, created);
      NothingGrown(w);
    } else {
      TryReports(w, st, name, f, turn, created);
    }
    FailReports(w, st, "NameSuffixFailed", f, turn + 1, created);
    FailReports(w, st, "InvalidPolicy", f, turn + 1, created);
    FailReports(w, st, "GetFailed", f, turn + 1, created);
    CutReports(w, f, turn + 1, created);
  }

  /** A turn that completes the pass has recorded a bucket, and calls it available exactly if the
      provider calls it ready. */
  lemma CompletedTurn(c: Config, w: World, st: Status, name: string, f: Fates, turn: nat, created: seq<string>)
    ensures var o := TakeTurn(c, w, st, name, f, turn, created);
      o.Over? && o.pass.end.Completed? ==> Recorded(o.pass.w) && ReportsReadiness(o.pass.w)
  {
    hide NewRecord, Eligible;
  }

  lemma ReportedBefore(w: World, w': World, p: Pass, f: Fates)
    requires Grown(w, w') && Reported(w', p, f)
    ensures Reported(w, p, f)
  {
    hide Grown;
    GrownTransitive(w, w', p.w);
  }

  lemma {:induction false} AllocateReports(c: Config, w: World, st: Status, f: Fates, turn: nat, created: seq<string>)
    requires w.status.conditions.state.Progressing?
    ensures Reported(w, Allocate(c, w, st, f, turn, created), f)
    decreases Attempts(w.spec) - turn
  {
    hide TakeTurn, TurnName, Reported, Grown;
    if turn < Attempts(w.spec) {
      var name := TurnName(w.spec, f.TurnAt(turn));
      TurnReports(c, w, st, name, f, turn, created);
      var o := TakeTurn(c, w, st, name, f, turn, created);
      if o.Again? {
        SameAttempts(w, o.w);
        AllocateReports(c, o.w, st, f, turn + 1, o.created);
        ReportedBefore(w, o.w, Allocate(c, o.w, st, f, turn + 1, o.created), f);
      }
    } else {
      FailReports(w, st, "FailedCreate", f, turn, created);
    }
  }

  lemma SameAttempts(w: World, w': World)
    requires Grown(w, w')
    ensures w'.spec == w.spec
  {}

  /** Whatever its fates: a creating pass leaves the buckets it found as they are, and makes buckets as
      desired only.  If it completes, it has recorded a bucket and calls it available exactly if the
      provider calls it ready; if it fails with its status writes answered, it says so. */
  lemma CreatingPassReports(c: Config, w: World, f: Fates)
    ensures var p := CreateBucket(c, w, f);
      || Reported(w, p, f)
      || (p.w == w && !p.end.Completed? && !(f.start.Answered? && f.error.Answered?))
  {
    hide Allocate, AsDesired;
    if (w.spec.region != "" || c.defaultRegion != "") && f.start.Answered? {
      var st := With(w.status, C.Progressing, "Creating");
      AllocateReports(c, Persisted(w, st, f.start), st, f, 0, []);
    }
  }

  // ---------- Every pass ----------

  /** The name that the resource trusts to be its own: the one on record, or without one a fixed name. */
  predicate Trusted(w: World, n: string) {
    n != "" && (n == w.status.bucketName ||
                (w.status.bucketName == "" && w.spec.generateNameSuffix == Some(false) && n == BaseName(w.spec)))
  }

  /** Something is on record, but the trusted name leads to no bucket. */
  ghost predicate Lost(w: World) {
    && (w.status.bucketName != "" || w.status.resourceId.Some?)
    && exists n :: Trusted(w, n) && n !in w.store
  }

  lemma TrustedName(w: World, n: string)
    ensures Trusted(w, n) <==> ProvisionedName(w.spec, w.status) == Some(n)
  {
    hide BaseName;
  }

  ghost predicate Forgotten(w: World, w': World) {
    w' == w.(status := w.status.(bucketName := "", resourceId := None))
  }

  lemma RepairReports(w: World, name: string, f: Fates)
    ensures var p := RepairBucket(w, name, f);
      && (p.w.status != w.status && Available(p.w) ==>
            if name in w.store then
              p.w == w.(status := p.w.status) && p.w.status.bucketName == name && Recorded(p.w) && w.store[name].ready
            else
              Forgotten(w, p.w))
      && (name !in w.store && f.get.Answered? && f.status.Answered? ==> p.end.Completed? && Forgotten(w, p.w))
      && (p.end.Errored? && f.status.Answered? && f.error.Answered? ==> p.w.status.conditions.state.Degraded?)
      && (p.end.Completed? && p.w.status.conditions.state.Degraded? ==> name !in w.store && Forgotten(w, p.w))
      && (p.end.Completed? && name !in w.store ==> Forgotten(w, p.w))
      && (p.end.Completed? && name in w.store ==>
            p.w.status.bucketName == name && Recorded(p.w) && AsDesired(w.spec.desired, p.w.store[name].record))
  {
    hide RequiresUpdate, UpdateFor, AsDesired;
    if name in w.store {
      DriftMeansNotAsDesired(w.spec.desired, w.store[name].record);
      UpdateMakesAsDesired(w.spec.desired, w.store[name].record);
    }
  }

  /** Whatever fails or is cut: a pass that writes Available has recorded a bucket that is there and
      that the provider calls ready, and has changed no bucket; unless the bucket on record was lost,
      when exactly the record is cleared, and what was said of it stays. */
  lemma AvailableIsEarned(c: Config, w: World, f: Fates)
    ensures var r := Reconcile(c, w, f).w;
      r.status != w.status && Available(r) ==>
        if Lost(w) then Forgotten(w, r)
        else Grown(w, r) && Recorded(r) && r.store[r.status.bucketName].ready
  {
    hide CreateBucket, RepairBucket, ProvisionedName, AsDesired;
    if w.status.bucketName == "" && w.status.resourceId.None? {
      CreatingPassReports(c, w, f);
    } else {
      var name := ProvisionedName(w.spec, w.status);
      forall n
        ensures Trusted(w, n) <==> name == Some(n)
      {
        TrustedName(w, n);
      }
      if name.Some? {
        assert Trusted(w, name.value);
        RepairReports(w, name.value, f);
      }
    }
  }

  /** A pass with something on record completes only with the bucket recorded and as desired, or
      without a record because the bucket was lost. */
  lemma CompletedMeansAsDesired(c: Config, w: World, f: Fates)
    requires (w.status.bucketName != "" || w.status.resourceId.Some?) && Reconcile(c, w, f).end.Completed?
    ensures var r := Reconcile(c, w, f).w;
      if Lost(w) then r.status.bucketName == "" && r.status.resourceId.None?
      else Recorded(r) && AsDesired(w.spec.desired, r.store[r.status.bucketName].record)
  {
    hide CreateBucket, RepairBucket, ProvisionedName, AsDesired;
    var name := ProvisionedName(w.spec, w.status);
    forall n
      ensures Trusted(w, n) <==> name == Some(n)
    {
      TrustedName(w, n);
    }
    RepairReports(w, name.value, f);
    assert Trusted(w, name.value);
  }

  /** It does happen: whatever is said of a bucket that was lost, Available included, stays after the
      answered pass that notices. */
  lemma LostStaysAvailable(c: Config, w: World, f: Fates)
    requires Lost(w) && f.get.Answered? && f.status.Answered?
    ensures var p := Reconcile(c, w, f);
      p.end.Completed? && Forgotten(w, p.w) && p.w.status.conditions == w.status.conditions
  {
    hide CreateBucket, RepairBucket, ProvisionedName;
    var n :| Trusted(w, n) && n !in w.store;
    TrustedName(w, n);
    RepairReports(w, n, f);
  }

  /** A pass that fails although its status writes are answered says so, and unless a bucket was lost a
      pass that completes does not say so. */
  lemma FailureIsReported(c: Config, w: World, f: Fates)
    requires f.start.Answered? && f.status.Answered? && f.error.Answered?
    ensures var p := Reconcile(c, w, f);
      && (p.end.Errored? ==> p.w.status.conditions.state.Degraded?)
      && (p.end.Completed? && p.w.status.conditions.state.Degraded? ==> Forgotten(w, p.w))
  {
    hide CreateBucket, RepairBucket, ProvisionedName, AsDesired, Grown;
    if w.status.bucketName == "" && w.status.resourceId.None? {
      CreatingPassReports(c, w, f);
    } else {
      var name := ProvisionedName(w.spec, w.status);
      if name.Some? {
        RepairReports(w, name.value, f);
      }
    }
  }

  // ---------- Deletion ----------

  /** Exactly what a teardown does: it removes the bucket of the trusted name and no other, and the
      finalizer goes exactly if that call is answered and the update takes effect; without a trusted
      name no bucket is touched, and without the finalizer nothing is. */
  lemma TeardownExactly(w: World, t: TeardownFates, n: string)
    ensures var r := Terminate(w, t);
      && r == w.(store := r.store, finalizer := r.finalizer)
      && (!w.finalizer ==> r == w)
      && (w.finalizer && Trusted(w, n) ==>
            && r.store == (if t.delete.Applied() then w.store - {n} else w.store)
            && (!r.finalizer <==> t.delete.Answered? && t.finalizer.Applied()))
      && (w.finalizer && (forall m :: !Trusted(w, m)) ==> r.store == w.store && (!r.finalizer <==> t.finalizer.Applied()))
  {
    hide ProvisionedName;
    TrustedName(w, n);
    var name := ProvisionedName(w.spec, w.status);
    if name.Some? {
      TrustedName(w, name.value);
    }
  }

  /** When the finalizer goes, the bucket of the trusted name is gone.  With suffixes on and no name on
      record there is no trusted name. */
  lemma FinalizerGuardsBucket(w: World, t: TeardownFates)
    requires w.finalizer && !Terminate(w, t).finalizer
    ensures forall n | Trusted(w, n) :: n !in Terminate(w, t).store
    ensures w.status.bucketName == "" && w.spec.generateNameSuffix != Some(false) ==> Terminate(w, t).store == w.store
  {
    hide Terminate, BaseName;
    forall n
      ensures Trusted(w, n) ==> n !in Terminate(w, t).store
    {
      TeardownExactly(w, t, n);
    }
    TeardownExactly(w, t, "");
  }
}
