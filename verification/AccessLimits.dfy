/** Where the guarantees end: what breaks the agreement once a hypothesis is dropped. */
module AccessLimits {
  import opened Text
  import opened Faults
  import opened Policy
  import opened AccessModel
  import opened AccessSafety
  import opened AccessRuns
  import opened AccessAgreement
  import opened AccessRecovery
  import opened AccessCredits
  import opened AccessExternal
  import opened AccessGrants
  import opened AccessReport
  import opened AccessRevocation
  import P = Permissions

  /** The pass replaces the credential, and is cut right after recording the new one. */
  ghost predicate CutAtRecord(f: Fates) {
    && f.getAccount.Answered? && f.accountStatus.Answered? && f.deleteLost.Answered? && f.createCred.Answered?
    && f.deleteOld.Answered? && f.credStatus.CutAfter?
    && f.progress.Answered? && forall j :: At(f.views, j).Answered?
  }

  predicate Spurious(read: Fate) {
    read.Refused? || read.Unheard?
  }

  /** A credential that is deleted, and whose identity will not be given out again. */
  ghost predicate Gone(iam: Iam, cred: Id) {
    cred !in iam.creds && cred < iam.nextId
  }

  lemma TornCredential(a: Access, at: SecretRef, rotate: bool, l: Ledger, obj: Status, account: Id, arn: Arn, ts: seq<Target>, f: Fates)
    requires WellFormed(l.iam) && obj.cred.Some? && LiveOn(l.iam, account, obj.cred.value)
    requires Material(l.secrets, at).Some? && CutAtRecord(f)
    requires Spurious(f.readSecret) || (rotate && f.readSecret.Answered?)
    ensures var r := WithCredential(a, at, rotate, l, obj, account, arn, ts, f);
      && r.ledger.secrets == l.secrets && r.ledger.status.cred == Some(l.iam.nextId) && r.reply.Cut?
      && Gone(r.ledger.iam, obj.cred.value)
  {
    hide Deliver;
  }

  lemma TornStage(a: Access, at: SecretRef, spec: Spec, rotate: bool, l: Ledger, obj: Status, ts: seq<Target>, f: Fates)
    requires SecretTarget(a, spec) == Some(at) && spec.writeSecretTo.value.name != ""
    requires WellFormed(l.iam) && Settled(a, at, l) && Tracks(obj, l.status) && CutAtRecord(f)
    requires Spurious(f.readSecret) || (rotate && f.readSecret.Answered?)
    ensures var r := EnsureManaged(a, spec, rotate, l, obj, ts, f);
      && r.ledger.secrets == l.secrets && r.ledger.status.cred == Some(l.iam.nextId) && r.reply.Cut?
      && Gone(r.ledger.iam, l.status.cred.value)
  {
    assert spec.writeSecretTo.Some?;
    hide WellFormed, Gone, LiveOn, WithCredential, OwnsId, AccountName, SecretTarget, Material;
    assert EnsureAccount(a, l.iam, AccountName(a, spec), obj.account, f) == (l.iam, Ok(obj.account.value));
    assert l.(iam := l.iam) == l;
    var account := obj.account.value;
    var arn := ServiceAccountArn(a.organisation, account);
    var obj1 := obj.(account := Some(account), principal := Some(arn));
    TornCredential(a, at, rotate, Persisted(l, obj1, f.accountStatus), obj1, account, arn, ts, f);
  }

  lemma TornPass(a: Access, at: SecretRef, w: World, sid: string, wanted: P.Resolution, f: Fates)
    requires Manages(a, at, w.spec) && Provided(a, w, wanted) && WellFormed(w.ledger.iam) && Settled(a, at, w.ledger) && CutAtRecord(f)
    requires Spurious(f.readSecret) || (w.rotate && f.readSecret.Answered?)
    ensures var r := ReconcileAs(a, w, sid, wanted, f).w;
      && r == w.(ledger := r.ledger) && r.ledger.secrets == w.ledger.secrets && r.ledger.status.cred == Some(w.ledger.iam.nextId)
      && Gone(r.ledger.iam, w.ledger.status.cred.value)
  {
    hide Gone, WellFormed, EnsureManaged, GrantAll, ResolveFrom, FailPass, Settled, SecretTarget, Trim, BucketReady;
    ResolvesAll(w, f);
    var obj := Begun(w.ledger.status);
    var l := Persisted(w.ledger, obj, f.progress);
    assert Settled(a, at, l) && l.status.cred == w.ledger.status.cred by {
      StatusKeepsSettled(a, at, w.ledger, l);
    }
    TornStage(a, at, w.spec, w.rotate, l, obj.(permissions := wanted.actions), ResolveFrom(w.spec.bucketRefs, w.views, f, 0, []).ts, f);
  }

  lemma StatusKeepsSettled(a: Access, at: SecretRef, l: Ledger, l': Ledger)
    requires Settled(a, at, l) && l' == l.(status := l'.status) && Tracks(l'.status, l.status)
    ensures Settled(a, at, l')
  {}

  /** Then the Secret holds the keys of a credential other than the tracked one. */
  lemma TornDisagrees(a: Access, at: SecretRef, w: World, w': World)
    requires Settled(a, at, w.ledger) && WellFormed(w.ledger.iam)
    requires w'.ledger.secrets == w.ledger.secrets && w'.ledger.status.cred == Some(w.ledger.iam.nextId)
    ensures !Agreement(a, at, false, w'.ledger)
  {
    hide OwnsId;
  }

  function AnsweredBut(readSecret: Fate, credStatus: Fate): Fates {
    Fates([], Answered, Answered, Answered, Answered, Answered, Answered, Answered, readSecret, Answered, Answered,
          Answered, Answered, credStatus, Answered, Answered, Answered, Answered, false, Answered, Answered, [], [], Answered, Answered)
  }

  /** The agreement survives a pass, wherever that is cut, exactly if the error-prone read of the
      Secret does not report a Secret that is there as missing. */
  lemma ReadsMustBeFaithful(a: Access, at: SecretRef, w: World, read: Fate)
    requires Manages(a, at, w.spec) && Sound(a, at, w.rotate, w.ledger) && !w.rotate && Provided(a, w, Wanted(w.spec))
    ensures (forall f: Fates | f.readSecret == read :: Agreement(a, at, false, Reconcile(a, w, f).w.ledger)) <==>
        !(Spurious(read) && Material(w.ledger.secrets, at).Some?)
  {
    hide ReconcileAs, P.Resolve, Manages, Provided, Settled, WellFormed, OneOwned, SecretOurs, Served, SidOf, Material;
    var wanted := Wanted(w.spec);
    if Spurious(read) && Material(w.ledger.secrets, at).Some? {
      var f := AnsweredBut(read, CutAfter);
      TornPass(a, at, w, SidOf(a), wanted, f);
      TornDisagrees(a, at, w, Reconcile(a, w, f).w);
    } else {
      forall f: Fates | f.readSecret == read
        ensures Agreement(a, at, false, Reconcile(a, w, f).w.ledger)
      {
        ManagedPass(a, at, w, SidOf(a), wanted, f);
      }
    }
  }

  // ---------- Withdrawing a rotation request ----------

  /** Without stored keys the request changes nothing but the flag that is reported. */
  lemma FlagOnlyCredential(iam: Iam, obj: Status, account: Id, f: Fates)
    ensures var c, c' := EnsureCredential(iam, obj, account, None, true, f), EnsureCredential(iam, obj, account, None, false, f);
      && c.iam == c'.iam && c.obj == c'.obj && SameReply(c.reply, c'.reply)
      && (c.reply.Ok? ==> c.reply.value == c'.reply.value.(rotated := c.reply.value.rotated))
  {
    hide DropCred;
  }

  ghost predicate SameReply<T>(r: Reply<T>, r': Reply<T>) {
    r.Ok? == r'.Ok? && r.Cut? == r'.Cut?
  }

  ghost predicate SameStage(s: Stage, s': Stage) {
    s.ledger == s'.ledger && s.obj == s'.obj && SameReply(s.reply, s'.reply)
  }

  lemma FlagOnlyRecord(a: Access, at: SecretRef, l: Ledger, obj: Status, prev: Option<Id>, account: Id, issue: Issue, flag: bool,
                       arn: Arn, ts: seq<Target>, f: Fates)
    ensures SameStage(RecordCredential(a, at, l, obj, prev, account, issue.(rotated := flag), arn, ts, f),
                      RecordCredential(a, at, l, obj, prev, account, issue, arn, ts, f))
  {
    hide Stamped, SecretOwned, DropCred, NamesOf, FirstEndpoint;
    assert forall s, n, e :: Stamped(a, at, s, issue.(rotated := flag), n, e) == Stamped(a, at, s, issue, n, e) by {
      FlagOnlyStamp(a, at, issue, flag);
    }
  }

  lemma FlagOnlyStamp(a: Access, at: SecretRef, issue: Issue, flag: bool)
    ensures forall s, n, e :: Stamped(a, at, s, issue.(rotated := flag), n, e) == Stamped(a, at, s, issue, n, e)
  {}

  lemma FlagOnlyManaged(a: Access, at: SecretRef, spec: Spec, l: Ledger, obj: Status, ts: seq<Target>, f: Fates)
    requires SecretTarget(a, spec) == Some(at) && Material(l.secrets, at).None?
    ensures SameStage(EnsureManaged(a, spec, true, l, obj, ts, f), EnsureManaged(a, spec, false, l, obj, ts, f))
  {
    hide EnsureAccount, EnsureCredential, RecordCredential, SecretTarget, AccountName, Material;
    var (iam, r) := EnsureAccount(a, l.iam, AccountName(a, spec), obj.account, f);
    if r.Ok? {
      var arn := ServiceAccountArn(a.organisation, r.value);
      var obj1 := obj.(account := Some(r.value), principal := Some(arn));
      var l1 := Persisted(l.(iam := iam), obj1, f.accountStatus);
      FlagOnlyCredential(l1.iam, obj1, r.value, f);
      var c := EnsureCredential(l1.iam, obj1, r.value, None, true, f);
      var c' := EnsureCredential(l1.iam, obj1, r.value, None, false, f);
      if c.reply.Ok? {
        FlagOnlyRecord(a, at, l1.(iam := c.iam), c.obj, obj1.cred, r.value, c'.reply.value, c.reply.value.rotated, arn, ts, f);
      }
    }
  }

  lemma WithdrawnTargets(a: Access, at: SecretRef, w: World, ts: seq<Target>, sid: string, wanted: P.Resolution, f: Fates)
    requires Manages(a, at, w.spec) && Faithful(at, w.ledger, f) && w.rotate
    requires Sound(a, at, true, w.ledger) && Material(w.ledger.secrets, at).None?
    ensures Sound(a, at, false, WithTargets(a, w, ts, sid, wanted, f).w.ledger)
  {
    hide WithTargets, EnsureManaged, GrantAll, OwnsId, SecretOurs, OneOwned, WellFormed, SecretTarget, Material;
    WithTargetsShape(a, w, ts, sid, wanted, f);
    var r := WithTargets(a, w, ts, sid, wanted, f);
    if Bookkept(w, r.w) && !r.end.Completed? {
      StatusKeepsSound(a, at, false, w.ledger, r.w.ledger);
    } else {
      var obj := Begun(w.ledger.status);
      var l := Persisted(w.ledger, obj, f.progress);
      StatusKeepsSound(a, at, false, w.ledger, l);
      FlagOnlyManaged(a, at, w.spec, l, obj.(permissions := wanted.actions), ts, f);
      EnsureManagedFacts(a, at, w.spec, false, l, obj.(permissions := wanted.actions), ts, f);
      var s := Prepared(a, w, ts, wanted, f);
      if s.reply.Ok? {
        var w1 := w.(ledger := s.ledger);
        var g := Grant(sid, s.reply.value.arn, wanted.actions);
        GrantAllFacts(w1, s.obj, g, s.reply.value.rotated, ts, f);
        StatusKeepsSound(a, at, false, s.ledger, r.w.ledger);
      }
    }
  }

  lemma WithdrawnPass(a: Access, at: SecretRef, w: World, sid: string, wanted: P.Resolution, f: Fates)
    requires Manages(a, at, w.spec) && Faithful(at, w.ledger, f) && w.rotate
    requires Sound(a, at, true, w.ledger) && Material(w.ledger.secrets, at).None?
    ensures Agreement(a, at, false, ReconcileAs(a, w, sid, wanted, f).w.ledger)
  {
    hide ReconcileAs, WithTargets, ResolveFrom, Settled, SecretOurs, OneOwned, WellFormed, SecretTarget, Faithful, Material;
    ReconcileShape(a, w, sid, wanted, f);
    var r := ReconcileAs(a, w, sid, wanted, f);
    if Bookkept(w, r.w) && !r.end.Completed? {
      StatusKeepsSound(a, at, false, w.ledger, r.w.ledger);
    } else {
      WithdrawnTargets(a, at, w, ResolveFrom(w.spec.bucketRefs, w.views, f, 0, []).ts, sid, wanted, f);
    }
  }

  /** A pass whose first status write is refused leaves the ledger as it was. */
  lemma RefusedAtOnce(a: Access, w: World, sid: string, wanted: P.Resolution, f: Fates)
    requires Provided(a, w, wanted) && w.spec.principalRef.None? && f.progress.Refused? && forall j :: At(f.views, j).Answered?
    ensures ReconcileAs(a, w, sid, wanted, f).w == w
  {
    hide GrantAll, Prepare, ResolveFrom, FailPass, Trim, BucketReady;
    ResolvesAll(w, f);
  }

  /** Withdrawing a rotation request is harmless, wherever a pass before it was cut or failed, exactly
      if the Secret held no keys when that pass began.  Otherwise some pass leaves keys in the Secret
      that are not those of the tracked credential, and without a request later passes keep them. */
  lemma WithdrawalExact(a: Access, at: SecretRef, w: World)
    requires Manages(a, at, w.spec) && Sound(a, at, w.rotate, w.ledger) && w.rotate && Provided(a, w, Wanted(w.spec))
    ensures (forall f: Fates | Faithful(at, w.ledger, f) ::
                Agreement(a, at, false, After(a, After(a, w, Reconciled(f)), RotationWithdrawn).ledger)) <==>
        Material(w.ledger.secrets, at).None?
  {
    hide ReconcileAs, P.Resolve, Manages, Provided, Settled, WellFormed, OneOwned, SecretOurs, SidOf, Material;
    var wanted := Wanted(w.spec);
    if Material(w.ledger.secrets, at).None? {
      forall f: Fates | Faithful(at, w.ledger, f)
        ensures Agreement(a, at, false, After(a, After(a, w, Reconciled(f)), RotationWithdrawn).ledger)
      {
        WithdrawnPass(a, at, w, SidOf(a), wanted, f);
      }
    } else {
      var f := AnsweredBut(Answered, CutAfter);
      if Settled(a, at, w.ledger) {
        TornPass(a, at, w, SidOf(a), wanted, f);
        TornDisagrees(a, at, w, After(a, After(a, w, Reconciled(f)), RotationWithdrawn));
      } else {
        f := f.(progress := Refused);
        assert ReconcileAs(a, w, SidOf(a), wanted, f).w == w by {
          ManagesManaged(a, at, w.spec);
          RefusedAtOnce(a, w, SidOf(a), wanted, f);
        }
      }
      assert Faithful(at, w.ledger, f);
      assert !Agreement(a, at, false, After(a, After(a, w, Reconciled(f)), RotationWithdrawn).ledger);
    }
  }

  lemma ManagesManaged(a: Access, at: SecretRef, spec: Spec)
    requires Manages(a, at, spec)
    ensures spec.principalRef.None?
  {}

  // ---------- Rolling back a recovered credential ----------

  /** While the Secret holds the keys of a live credential and no rotation is due, the credential
      stage and what follows it delete that credential exactly if the status has lost track of it,
      the listing found it again, the status write failed, and the rollback took effect. */
  lemma RecoveredCredentialIsRolledBack(a: Access, at: SecretRef, l: Ledger, obj: Status, account: Id, arn: Arn, ts: seq<Target>,
                                        cred: Id, f: Fates)
    requires WellFormed(l.iam) && f.readSecret.Answered?
    requires Material(l.secrets, at) == Some(KeysOf(cred)) && LiveOn(l.iam, account, cred)
    ensures var r := WithCredential(a, at, false, l, obj, account, arn, ts, f).ledger;
      && (!LiveOn(r.iam, account, cred) <==>
            obj.cred.None? && f.listCreds.Answered? && (f.credStatus.Refused? || f.credStatus.Unheard?) && f.rollback.Applied())
      && (!f.credStatus.Answered? ==> r.secrets == l.secrets)
  {
    hide Deliver;
    var c := EnsureCredential(l.iam, obj, account, Material(l.secrets, at), false, f);
    if c.reply.Ok? && f.credStatus.Answered? {
      var obj1 := c.obj.(cred := Some(c.reply.value.cred), accessKey := Some(c.reply.value.accessKey));
      DeliverKeeps(a, at, Persisted(l.(iam := c.iam), obj1, f.credStatus), obj1, c.reply.value, arn, ts, f);
    }
  }

  lemma RolledBackStage(a: Access, at: SecretRef, spec: Spec, l: Ledger, obj: Status, account: Id, cred: Id, ts: seq<Target>, f: Fates)
    requires SecretTarget(a, spec) == Some(at) && spec.writeSecretTo.value.name != ""
    requires WellFormed(l.iam) && OneOwned(a, l.iam.accounts) && OwnsId(a, l.iam.accounts, account)
    requires Material(l.secrets, at) == Some(KeysOf(cred)) && LiveOn(l.iam, account, cred) && obj.cred.None?
    requires f == AnsweredBut(Answered, Refused)
    ensures var r := EnsureManaged(a, spec, false, l, obj, ts, f);
      r.ledger.secrets == l.secrets && !LiveOn(r.ledger.iam, account, cred) && !r.reply.Ok?
  {
    assert spec.writeSecretTo.Some?;
    hide EnsureAccount, EnsureCredential, RecordCredential, OwnsId, OneOwned, AccountName, SecretTarget, Material;
    var (iam, r) := EnsureAccount(a, l.iam, AccountName(a, spec), obj.account, f);
    OwnedIsReused(a, l.iam, AccountName(a, spec), obj.account, account, f);
    assert l.(iam := l.iam) == l;
    var arn := ServiceAccountArn(a.organisation, account);
    var obj1 := obj.(account := Some(account), principal := Some(arn));
    RecoveredCredentialIsRolledBack(a, at, Persisted(l, obj1, f.accountStatus), obj1, account, arn, ts, cred, f);
    RefusedRecordFails(a, at, Persisted(l, obj1, f.accountStatus), obj1, account, arn, ts, f);
  }

  lemma RefusedRecordFails(a: Access, at: SecretRef, l: Ledger, obj: Status, account: Id, arn: Arn, ts: seq<Target>, f: Fates)
    requires f.credStatus.Refused?
    ensures !WithCredential(a, at, false, l, obj, account, arn, ts, f).reply.Ok?
  {
    hide EnsureCredential, Deliver, Material, DropCred;
  }

  /** The account stage finds the one owned account again, whatever the status says. */
  lemma OwnedIsReused(a: Access, iam: Iam, name: string, tracked: Option<Id>, account: Id, f: Fates)
    requires WellFormed(iam) && OneOwned(a, iam.accounts) && OwnsId(a, iam.accounts, account)
    requires f.getAccount.Answered? && f.listAccounts.Answered?
    ensures EnsureAccount(a, iam, name, tracked, f) == (iam, Ok(account))
  {
    hide PickOwned, OneOwned;
    PickOwnedFacts(a, iam, name);
    FindAccountFacts(iam.accounts, account);
    var picked := PickOwned(a, iam.accounts, name);
    if picked.Some? {
      OneOwnedId(a, iam.accounts, picked.value, account);
    }
    if tracked.Some? && OwnsId(a, iam.accounts, tracked.value) {
      OneOwnedId(a, iam.accounts, tracked.value, account);
    }
  }

  lemma RolledBackPass(a: Access, at: SecretRef, w: World, sid: string, wanted: P.Resolution, account: Id, cred: Id, f: Fates)
    requires Manages(a, at, w.spec) && Provided(a, w, wanted) && !w.rotate && w.ledger.status.cred.None?
    requires WellFormed(w.ledger.iam) && OneOwned(a, w.ledger.iam.accounts) && OwnsId(a, w.ledger.iam.accounts, account)
    requires Material(w.ledger.secrets, at) == Some(KeysOf(cred)) && LiveOn(w.ledger.iam, account, cred)
    requires f == AnsweredBut(Answered, Refused)
    ensures var r := ReconcileAs(a, w, sid, wanted, f).w.ledger;
      r.secrets == w.ledger.secrets && !LiveOn(r.iam, account, cred)
  {
    hide EnsureManaged, GrantAll, ResolveFrom, FailPass, SecretTarget, Trim, BucketReady, Material, OwnsId, OneOwned, WellFormed;
    ResolvesAll(w, f);
    var obj := Begun(w.ledger.status);
    var ts := ResolveFrom(w.spec.bucketRefs, w.views, f, 0, []).ts;
    RolledBackStage(a, at, w.spec, Persisted(w.ledger, obj, f.progress), obj.(permissions := wanted.actions), account, cred, ts, f);
  }

  lemma ExternalPassSucceeds(a: Access, w: World, sid: string, wanted: P.Resolution, p: PrincipalRef)
    requires Provided(a, w, wanted) && !w.rotate && w.spec.principalRef == Some(p) && Exists(w.ledger.iam, p)
    ensures ReconcileAs(a, w, sid, wanted, AnsweredBut(Answered, Answered)).end.Completed?
  {
    hide GrantAll, Prepare, ResolveFrom, Trim, FailPass, BucketReady, Exists;
    var f := AnsweredBut(Answered, Answered);
    ResolvesAll(w, f);
    var ts := ResolveFrom(w.spec.bucketRefs, w.views, f, 0, []).ts;
    PreparedExternal(a, w, ts, wanted, f);
    var s := Prepared(a, w, ts, wanted, f);
    GrantAllSucceeds(w.(ledger := s.ledger), s.obj, Grant(sid, s.reply.value.arn, wanted.actions), s.reply.value.rotated, ts, f);
  }

  /** A run that gets there from any settled access: switch to an existing external principal, let a
      pass complete, switch back, and have one status write refused.  The Secret still holds the
      keys of the credential that the rollback then deletes. */
  lemma ModeSwitchLosesCredential(a: Access, at: SecretRef, w: World, p: PrincipalRef)
    requires Manages(a, at, w.spec) && Sound(a, at, w.rotate, w.ledger) && !w.rotate && Provided(a, w, Wanted(w.spec))
    requires Material(w.ledger.secrets, at).Some? && Exists(w.ledger.iam, p)
    ensures var run := [Respecified(w.spec.(principalRef := Some(p))), Reconciled(AnsweredBut(Answered, Answered)),
                        Respecified(w.spec), Reconciled(AnsweredBut(Answered, Refused))];
      var r, st := Run(a, w, run).ledger, w.ledger.status;
      Material(r.secrets, at) == Some(KeysOf(st.cred.value)) && !LiveOn(r.iam, st.account.value, st.cred.value)
  {
    hide ReconcileAs, P.Resolve, SidOf, SecretTarget, Exists, OwnsId, WellFormed, OneOwned, SecretOurs, BucketReady, Material;
    var ext := w.spec.(principalRef := Some(p));
    var e0, e1, e2, e3 :=
      Respecified(ext), Reconciled(AnsweredBut(Answered, Answered)), Respecified(w.spec), Reconciled(AnsweredBut(Answered, Refused));
    FourEvents(a, w, e0, e1, e2, e3);
    var w1 := w.(spec := ext);
    var w2 := Reconcile(a, w1, e1.f).w;
    var w3 := w2.(spec := w.spec);
    assert Provided(a, w1, Wanted(ext)) by {
      StillProvided(a, w, w1);
    }
    ExternalPassSucceeds(a, w1, SidOf(a), Wanted(ext), p);
    ExternalPassServes(a, w1, e1.f);
    PassWrites(a, w1, SidOf(a), Wanted(ext), e1.f);
    assert Provided(a, w3, Wanted(w.spec)) by {
      OnlySidKeys(w1.buckets, w2.buckets, SidOf(a));
      StillProvided(a, w, w3);
    }
    RolledBackPass(a, at, w3, SidOf(a), Wanted(w.spec), w.ledger.status.account.value, w.ledger.status.cred.value, e3.f);
  }

  lemma StillProvided(a: Access, w: World, w': World)
    requires Provided(a, w, Wanted(w.spec)) && w'.spec == w.spec.(principalRef := w'.spec.principalRef) && w'.views == w.views
    requires forall n :: n in w'.buckets <==> n in w.buckets
    ensures Provided(a, w', Wanted(w'.spec))
  {
    hide P.Resolve;
    forall i | 0 <= i < |w'.spec.bucketRefs|
      ensures BucketReady(w', w'.spec.bucketRefs[i])
    {
      assert BucketReady(w, w.spec.bucketRefs[i]);
    }
  }

  lemma RunStep(a: Access, w: World, es: seq<Event>, e: Event)
    ensures Run(a, w, es + [e]) == After(a, Run(a, w, es), e)
  {
    hide After;
    assert (es + [e])[..|es + [e]| - 1] == es;
  }

  lemma FourEvents(a: Access, w: World, e0: Event, e1: Event, e2: Event, e3: Event)
    ensures Run(a, w, [e0, e1, e2, e3]) == After(a, After(a, After(a, After(a, w, e0), e1), e2), e3)
  {
    hide After;
    ThreeEvents(a, w, e0, e1, e2);
    RunStep(a, w, [e0, e1, e2], e3);
    assert [e0, e1, e2] + [e3] == [e0, e1, e2, e3];
  }

  /** A completed pass in external mode stops tracking the managed credential, which stays alive:
      one more that nothing tracks, though no call failed. */
  lemma ExternalModeForgets(a: Access, w: World, f: Fates)
    requires w.spec.principalRef.Some? && Reconcile(a, w, f).end.Completed?
    ensures var r := Reconcile(a, w, f).w.ledger;
      && Untracked(a, r) == OwnedLive(a, w.ledger.iam)
      && r.iam == w.ledger.iam && r.secrets == w.ledger.secrets
  {
    hide ReconcileAs, WithTargets, ResolveFrom, Prepared, GrantAll, P.Resolve, SidOf, OwnedLive;
    var sid, wanted := SidOf(a), P.Resolve(w.spec.preset, w.spec.permissions);
    ReconcileShape(a, w, sid, wanted, f);
    var ts := ResolveFrom(w.spec.bucketRefs, w.views, f, 0, []).ts;
    WithTargetsShape(a, w, ts, sid, wanted, f);
    var s := Prepared(a, w, ts, wanted, f);
    PreparedExternal(a, w, ts, wanted, f);
    CompletedGrants(w.(ledger := s.ledger), s.obj, Grant(sid, s.reply.value.arn, wanted.actions), s.reply.value.rotated, ts, f);
  }

  // ---------- Dropping a reference ----------

  lemma OnlyReferenced(w: World, n: string)
    requires forall i | 0 <= i < |w.spec.bucketRefs| ::
        w.spec.bucketRefs[i] in w.views && w.views[w.spec.bucketRefs[i]].bucketName != ""
    ensures n in RefNames(w) ==> Referenced(w.spec.bucketRefs, w.views, n)
  {
    if n in RefNames(w) {
      var i :| 0 <= i < |w.spec.bucketRefs| && RefNames(w)[i] == n;
      assert LeadsTo(w.views, w.spec.bucketRefs[i], n);
    }
  }

  /** An answered pass leaves the grant on a bucket it no longer refers to, and records only others. */
  lemma DroppedReferencePass(a: Access, at: SecretRef, w: World, f: Fates, n: string)
    requires CarriedOn(w.buckets, n, SidOf(a)) && !Referenced(w.spec.bucketRefs, w.views, n)
    requires Manages(a, at, w.spec) && SecretOurs(a, at, w.ledger.secrets) && Provided(a, w, Wanted(w.spec)) && AllAnswered(f)
    ensures var r := Reconcile(a, w, f).w;
      && CarriedOn(r.buckets, n, SidOf(a)) && n !in r.ledger.status.granted
      && r.spec == w.spec && r.views == w.views && r.finalizer == w.finalizer
  {
    ManagesManaged(a, at, w.spec);
    hide ReconcileAs, P.Resolve, SidOf, Provided, SecretOurs, Manages, SecretTarget, Carries, HoldsReport, Referenced;
    PassSucceeds(a, at, w, SidOf(a), Wanted(w.spec), f);
    PassWrites(a, w, SidOf(a), Wanted(w.spec), f);
    CompletedPassReports(a, w, f);
    OnlyReferenced(w, n);
  }

  lemma ThreeEvents(a: Access, w: World, e0: Event, e1: Event, e2: Event)
    ensures Run(a, w, [e0, e1, e2]) == After(a, After(a, After(a, w, e0), e1), e2)
  {
    hide After;
    RunStep(a, w, [], e0);
    RunStep(a, w, [e0], e1);
    RunStep(a, w, [e0, e1], e2);
    assert [] + [e0] == [e0] && [e0] + [e1] == [e0, e1] && [e0, e1] + [e2] == [e0, e1, e2];
  }

  /** From every state in which a bucket carries the grant: drop its reference, let one answered pass
      record the rest, and tear the access down without failures.  The grant is still there. */
  lemma DroppedReferenceKeepsGrant(a: Access, at: SecretRef, w: World, spec: Spec, f: Fates, t: TeardownFates, n: string)
    requires CarriedOn(w.buckets, n, SidOf(a)) && !Referenced(spec.bucketRefs, w.views, n) && w.finalizer
    requires Manages(a, at, spec) && SecretOurs(a, at, w.ledger.secrets)
    requires Provided(a, w.(spec := spec), Wanted(spec)) && AllAnswered(f) && TeardownAnswered(t)
    ensures var r := Run(a, w, [Respecified(spec), Reconciled(f), TornDown(t)]);
      !r.finalizer && CarriedOn(r.buckets, n, SidOf(a))
  {
    hide ReconcileAs, TerminateAs, SidOf, Provided, SecretOurs, Manages, CarriedOn, Referenced, Run;
    ThreeEvents(a, w, Respecified(spec), Reconciled(f), TornDown(t));
    var w1 := w.(spec := spec);
    DroppedReferencePass(a, at, w1, f, n);
    TeardownExact(a, Reconcile(a, w1, f).w, t, n);
    TeardownFacts(a, Reconcile(a, w1, f).w, SidOf(a), t);
  }

  // ---------- A Secret that cannot be written ----------

  /** From every state in which nobody else owns the Secret, in particular from none at all: the write
      of the Secret is refused because its namespace is not there, and every other call is answered.
      The pass completes and reports Ready, although there is no Secret; every referenced bucket
      grants the empty principal, while the status names the account; and a pending rotation request
      stays. */
  lemma MissingNamespaceGrantsNobody(a: Access, at: SecretRef, w: World, f: Fates)
    requires Manages(a, at, w.spec) && SecretOurs(a, at, w.ledger.secrets) && Provided(a, w, Wanted(w.spec))
    requires AllAnswered(f.(putSecret := Answered)) && PutMissing(f) && f.error.Answered?
    ensures var r := Reconcile(a, w, f);
      var st := r.w.ledger.status;
      && r.end.Completed? && ShowsReady(st) && at !in r.w.ledger.secrets && r.w.rotate == w.rotate
      && st.account.Some? && st.principal == Some(ServiceAccountArn(a.organisation, st.account.value))
      && GrantsTo(r.w, SidOf(a), OtherArn(""))
  {
    ManagesManaged(a, at, w.spec);
    assert SecretTarget(a, w.spec) == Some(at);
    hide ReconcileAs, P.Resolve, SidOf, SecretOurs, Provided, SecretTarget, AllAnswered, GrantsTo, ShowsReady, HoldsReport;
    PassSucceeds(a, at, w, SidOf(a), Wanted(w.spec), f);
    CompletedPassReports(a, w, f);
    CompletedPassGrants(a, w, f);
    CompletedPassAvailable(a, w, f);
    AvailableShowsReady(Reconcile(a, w, f).w.ledger.status);
  }
}
