/** Once the Secret holds the keys of a deleted credential while another one is tracked, nothing in
    the protocol notices: the keys stay, and the access reports Ready. */
module DeadKeys {
  import opened Text
  import opened Faults
  import opened Policy
  import opened AccessModel
  import opened AccessSafety
  import opened AccessRuns
  import opened AccessAgreement
  import opened AccessRecovery
  import opened AccessLimits
  import AccessReport
  import AccessRevocation
  import P = Permissions

  /** The Secret holds these keys, and some credential is tracked. */
  ghost predicate Holding(a: Access, at: SecretRef, l: Ledger, tracked: Id, keys: (AccessKey, AccessSecret)) {
    l.status.cred == Some(tracked) && Material(l.secrets, at) == Some(keys) && SecretOurs(a, at, l.secrets)
  }

  /** Credentials are as they were; an account may have been added. */
  ghost predicate SameCreds(iam: Iam, iam': Iam) {
    iam'.creds == iam.creds && iam.nextId <= iam'.nextId
  }

  // ---------- One pass ----------

  lemma DeliverHolds(a: Access, at: SecretRef, l: Ledger, obj: Status, issue: Issue, arn: Arn, ts: seq<Target>, tracked: Id, f: Fates)
    requires Holding(a, at, l, tracked, (issue.accessKey, issue.accessSecret)) && obj.cred == Some(tracked) && !PutMissing(f)
    ensures var r := Deliver(a, at, l, obj, issue, arn, ts, f);
      && Holding(a, at, r.ledger, tracked, (issue.accessKey, issue.accessSecret))
      && r.ledger.iam == l.iam && r.obj.cred == Some(tracked)
  {
    hide WriteSecret, SecretOurs, NamesOf, FirstEndpoint;
    WriteSecretFacts(a, l.secrets, at, issue, NamesOf(ts), FirstEndpoint(ts), f);
  }

  /** Stored keys are reused with whatever credential is tracked, and are written again. */
  lemma WithCredentialHolds(a: Access, at: SecretRef, l: Ledger, obj: Status, account: Id, arn: Arn, ts: seq<Target>,
                            tracked: Id, keys: (AccessKey, AccessSecret), f: Fates)
    requires Holding(a, at, l, tracked, keys) && obj.cred == Some(tracked) && Faithful(at, l, f) && !PutMissing(f)
    ensures var r := WithCredential(a, at, false, l, obj, account, arn, ts, f);
      && Holding(a, at, r.ledger, tracked, keys) && r.ledger.iam == l.iam
      && (r.reply.Ok? ==> r.obj.cred == Some(tracked))
  {
    hide Deliver, SecretOurs, Replace;
    var issue := Issue(keys.0, keys.1, tracked, false);
    var obj1 := obj.(cred := Some(tracked), accessKey := Some(keys.0));
    DeliverHolds(a, at, Persisted(l, obj1, f.credStatus), obj1, issue, arn, ts, tracked, f);
  }

  lemma AccountStageCreds(a: Access, iam: Iam, name: string, tracked: Option<Id>, f: Fates)
    ensures SameCreds(iam, EnsureAccount(a, iam, name, tracked, f).0)
  {
    hide OwnsId, PickOwned, OwnerLabel;
  }

  lemma EnsureManagedHolds(a: Access, at: SecretRef, spec: Spec, l: Ledger, obj: Status, ts: seq<Target>,
                           tracked: Id, keys: (AccessKey, AccessSecret), f: Fates)
    requires SecretTarget(a, spec) == Some(at) && Faithful(at, l, f) && !PutMissing(f)
    requires Holding(a, at, l, tracked, keys) && obj.cred == Some(tracked)
    ensures var r := EnsureManaged(a, spec, false, l, obj, ts, f);
      && Holding(a, at, r.ledger, tracked, keys) && SameCreds(l.iam, r.ledger.iam)
      && (r.reply.Ok? ==> r.obj.cred == Some(tracked))
  {
    hide EnsureAccount, WithCredential, AccountName, SecretTarget, SecretOurs, Material;
    AccountStageCreds(a, l.iam, AccountName(a, spec), obj.account, f);
    var (iam, r) := EnsureAccount(a, l.iam, AccountName(a, spec), obj.account, f);
    if r.Ok? {
      var arn := ServiceAccountArn(a.organisation, r.value);
      var obj1 := obj.(account := Some(r.value), principal := Some(arn));
      WithCredentialHolds(a, at, Persisted(l.(iam := iam), obj1, f.accountStatus), obj1, r.value, arn, ts, tracked, keys, f);
    }
  }

  lemma StatusHolds(a: Access, at: SecretRef, l: Ledger, l': Ledger, tracked: Id, keys: (AccessKey, AccessSecret))
    requires Holding(a, at, l, tracked, keys) && l' == l.(status := l'.status) && l'.status.cred == l.status.cred
    ensures Holding(a, at, l', tracked, keys) && SameCreds(l.iam, l'.iam)
  {}

  lemma GrantAllKeepsRequest(w: World, obj: Status, g: Grant, rotated: bool, ts: seq<Target>, f: Fates)
    requires obj.cred == w.ledger.status.cred && !w.rotate
    ensures var r := GrantAll(w, obj, g, rotated, ts, f).w;
      !r.rotate && r.ledger == w.ledger.(status := r.ledger.status) && r.ledger.status.cred == w.ledger.status.cred
  {
    hide GrantFrom, NamesOf;
  }

  /** A pass without a rotation request keeps credentials, stored keys and the tracked credential,
      whether or not they belong together. */
  lemma PassHolds(a: Access, at: SecretRef, w: World, sid: string, wanted: P.Resolution, tracked: Id, keys: (AccessKey, AccessSecret), f: Fates)
    requires Manages(a, at, w.spec) && !w.rotate && Faithful(at, w.ledger, f) && !PutMissing(f) && Holding(a, at, w.ledger, tracked, keys)
    ensures var r := ReconcileAs(a, w, sid, wanted, f).w;
      Holding(a, at, r.ledger, tracked, keys) && SameCreds(w.ledger.iam, r.ledger.iam) && !r.rotate && r.spec == w.spec
  {
    hide ReconcileAs, WithTargets, ResolveFrom, EnsureManaged, GrantAll, SecretTarget, SecretOurs, Material;
    ReconcileShape(a, w, sid, wanted, f);
    AccessRevocation.PassWrites(a, w, sid, wanted, f);
    var r := ReconcileAs(a, w, sid, wanted, f);
    if Bookkept(w, r.w) && !r.end.Completed? {
      StatusHolds(a, at, w.ledger, r.w.ledger, tracked, keys);
    } else {
      TargetsHold(a, at, w, ResolveFrom(w.spec.bucketRefs, w.views, f, 0, []).ts, sid, wanted, tracked, keys, f);
    }
  }

  lemma TargetsHold(a: Access, at: SecretRef, w: World, ts: seq<Target>, sid: string, wanted: P.Resolution,
                    tracked: Id, keys: (AccessKey, AccessSecret), f: Fates)
    requires Manages(a, at, w.spec) && !w.rotate && Faithful(at, w.ledger, f) && !PutMissing(f) && Holding(a, at, w.ledger, tracked, keys)
    ensures var r := WithTargets(a, w, ts, sid, wanted, f).w;
      Holding(a, at, r.ledger, tracked, keys) && SameCreds(w.ledger.iam, r.ledger.iam) && !r.rotate
  {
    hide WithTargets, EnsureManaged, GrantAll, SecretTarget, SecretOurs, Material;
    WithTargetsShape(a, w, ts, sid, wanted, f);
    var r := WithTargets(a, w, ts, sid, wanted, f);
    if Bookkept(w, r.w) && !r.end.Completed? {
      StatusHolds(a, at, w.ledger, r.w.ledger, tracked, keys);
    } else {
      var obj := Begun(w.ledger.status);
      var l := Persisted(w.ledger, obj, f.progress);
      StatusHolds(a, at, w.ledger, l, tracked, keys);
      EnsureManagedHolds(a, at, w.spec, l, obj.(permissions := wanted.actions), ts, tracked, keys, f);
      var s := Prepared(a, w, ts, wanted, f);
      if s.reply.Ok? {
        var g := Grant(sid, s.reply.value.arn, wanted.actions);
        GrantAllKeepsRequest(w.(ledger := s.ledger), s.obj, g, s.reply.value.rotated, ts, f);
        StatusHolds(a, at, s.ledger, r.w.ledger, tracked, keys);
      }
    }
  }

  // ---------- Runs ----------

  /** Events that neither request a rotation nor take the keys away nor rewrite the status.  Others
      may do anything to accounts, credentials, buckets and other Secrets. */
  ghost predicate Quiet(a: Access, at: SecretRef, w: World, e: Event) {
    match e
    case Reconciled(f) => Faithful(at, w.ledger, f) && !PutMissing(f)
    case SecretDeleted(x) => x != at
    case SecretStripped(x, keepKey, keepSecret) => x == at ==> keepKey && keepSecret
    case SecretsChanged(secrets) => at in secrets && at in w.ledger.secrets && secrets[at] == w.ledger.secrets[at]
    case Respecified(spec) => Manages(a, at, spec)
    case RotationRequested => false
    case StatusChanged(_) => false
    case _ => true
  }

  ghost predicate QuietRun(a: Access, at: SecretRef, w: World, es: seq<Event>) {
    |es| == 0 || (QuietRun(a, at, w, es[..|es| - 1]) && Quiet(a, at, Run(a, w, es[..|es| - 1]), es[|es| - 1]))
  }

  /** The Secret holds the keys of a deleted credential, another one is tracked, and no rotation is due. */
  ghost predicate Dead(a: Access, at: SecretRef, w: World, tracked: Id, cred: Id) {
    Manages(a, at, w.spec) && !w.rotate && Holding(a, at, w.ledger, tracked, KeysOf(cred)) && Gone(w.ledger.iam, cred)
  }

  lemma OthersLeaveDead(a: Access, at: SecretRef, w: World, e: Event, tracked: Id, cred: Id)
    requires Dead(a, at, w, tracked, cred) && Quiet(a, at, w, e) && !e.Reconciled? && !e.TornDown?
    ensures Dead(a, at, After(a, w, e), tracked, cred)
  {
    hide Reconcile, Terminate, SecretTarget, SecretOwned, ControlledByOther, WithoutAccount;
  }

  lemma TeardownLeavesDead(a: Access, at: SecretRef, w: World, sid: string, t: TeardownFates, tracked: Id, cred: Id)
    requires Dead(a, at, w, tracked, cred)
    ensures Dead(a, at, TerminateAs(a, w, sid, t), tracked, cred)
  {
    hide RevokeGranted, RevokeRefs, SecretTarget, SecretOurs, OwnsId, WithoutAccount;
  }

  lemma {:induction false} RunLeavesDead(a: Access, at: SecretRef, w: World, es: seq<Event>, tracked: Id, cred: Id)
    requires Dead(a, at, w, tracked, cred) && QuietRun(a, at, w, es)
    ensures Dead(a, at, Run(a, w, es), tracked, cred)
  {
    hide ReconcileAs, TerminateAs, P.Resolve, SidOf, Material, SecretOurs, SecretTarget, IamAfter, SecretsAfter;
    if |es| > 0 {
      var most, e := es[..|es| - 1], es[|es| - 1];
      RunLeavesDead(a, at, w, most, tracked, cred);
      var now := Run(a, w, most);
      match e
      case Reconciled(f) => PassHolds(a, at, now, SidOf(a), Wanted(now.spec), tracked, KeysOf(cred), f);
      case TornDown(t) => TeardownLeavesDead(a, at, now, SidOf(a), t, tracked, cred);
      case _ => OthersLeaveDead(a, at, now, e, tracked, cred);
    }
  }

  /** The keys of the deleted credential stay, and the next pass that has what it needs and whose
      calls are answered completes and reports Ready over them. */
  lemma DeadKeysStay(a: Access, at: SecretRef, w: World, es: seq<Event>, tracked: Id, cred: Id, f: Fates)
    requires Dead(a, at, w, tracked, cred) && QuietRun(a, at, w, es)
    ensures var now := Run(a, w, es);
      var r := Reconcile(a, now, f);
      && Dead(a, at, now, tracked, cred)
      && (Provided(a, now, Wanted(now.spec)) && AllAnswered(f) ==>
            r.end.Completed? && ShowsReady(r.w.ledger.status) && Dead(a, at, r.w, tracked, cred))
  {
    hide ReconcileAs, P.Resolve, SidOf, Material, SecretOurs, SecretTarget, Run, QuietRun, ShowsReady, Provided;
    RunLeavesDead(a, at, w, es, tracked, cred);
    var now := Run(a, w, es);
    if Provided(a, now, Wanted(now.spec)) && AllAnswered(f) {
      PassSucceeds(a, at, now, SidOf(a), Wanted(now.spec), f);
      PassHolds(a, at, now, SidOf(a), Wanted(now.spec), tracked, KeysOf(cred), f);
      AccessReport.CompletedPassAvailable(a, now, f);
      AvailableShowsReady(Reconcile(a, now, f).w.ledger.status);
    }
  }

  // ---------- How it comes about ----------

  lemma TornIsDead(a: Access, at: SecretRef, w: World, w': World)
    requires Manages(a, at, w.spec) && Sound(a, at, w.rotate, w.ledger) && Settled(a, at, w.ledger)
    requires w' == w.(ledger := w'.ledger, rotate := false) && w'.ledger.secrets == w.ledger.secrets
    requires w'.ledger.status.cred == Some(w.ledger.iam.nextId) && Gone(w'.ledger.iam, w.ledger.status.cred.value)
    ensures Dead(a, at, w', w.ledger.iam.nextId, w.ledger.status.cred.value)
  {}

  /** One failed read of a Secret that is there, and a cut right after the new credential is recorded:
      from then on, through every run that neither rotates nor takes the keys away, the Secret holds
      the keys of the deleted credential, and the access reports Ready. */
  lemma FailedReadKillsKeys(a: Access, at: SecretRef, w: World, read: Fate, es: seq<Event>, f: Fates)
    requires Manages(a, at, w.spec) && Sound(a, at, w.rotate, w.ledger) && !w.rotate && Provided(a, w, Wanted(w.spec))
    requires Spurious(read) && Material(w.ledger.secrets, at).Some?
    requires QuietRun(a, at, After(a, w, Reconciled(AnsweredBut(read, CutAfter))), es)
    ensures var lost, now := w.ledger.status.cred, Run(a, After(a, w, Reconciled(AnsweredBut(read, CutAfter))), es);
      var r := Reconcile(a, now, f);
      && lost.Some? && Dead(a, at, now, w.ledger.iam.nextId, lost.value)
      && (Provided(a, now, Wanted(now.spec)) && AllAnswered(f) ==>
            r.end.Completed? && ShowsReady(r.w.ledger.status) && Dead(a, at, r.w, w.ledger.iam.nextId, lost.value))
  {
    hide ReconcileAs, P.Resolve, SidOf, Run, QuietRun, ShowsReady, Provided, Dead, WellFormed, OneOwned, SecretOurs, Manages, Material;
    var g := AnsweredBut(read, CutAfter);
    TornPass(a, at, w, SidOf(a), Wanted(w.spec), g);
    var w' := Reconcile(a, w, g).w;
    TornIsDead(a, at, w, w');
    DeadKeysStay(a, at, w', es, w.ledger.iam.nextId, w.ledger.status.cred.value, f);
  }

  /** The same after a rotation that is cut at that point and then withdrawn. */
  lemma WithdrawalKillsKeys(a: Access, at: SecretRef, w: World, es: seq<Event>, f: Fates)
    requires Manages(a, at, w.spec) && Sound(a, at, w.rotate, w.ledger) && w.rotate && Provided(a, w, Wanted(w.spec))
    requires Settled(a, at, w.ledger)
    requires QuietRun(a, at, After(a, After(a, w, Reconciled(AnsweredBut(Answered, CutAfter))), RotationWithdrawn), es)
    ensures var lost := w.ledger.status.cred.value;
      var now := Run(a, After(a, After(a, w, Reconciled(AnsweredBut(Answered, CutAfter))), RotationWithdrawn), es);
      var r := Reconcile(a, now, f);
      && Dead(a, at, now, w.ledger.iam.nextId, lost)
      && (Provided(a, now, Wanted(now.spec)) && AllAnswered(f) ==>
            r.end.Completed? && ShowsReady(r.w.ledger.status) && Dead(a, at, r.w, w.ledger.iam.nextId, lost))
  {
    hide ReconcileAs, P.Resolve, SidOf, Run, QuietRun, ShowsReady, Provided, Dead, WellFormed, OneOwned, SecretOurs, Manages, Material;
    var g := AnsweredBut(Answered, CutAfter);
    TornPass(a, at, w, SidOf(a), Wanted(w.spec), g);
    var w' := After(a, After(a, w, Reconciled(g)), RotationWithdrawn);
    TornIsDead(a, at, w, w');
    DeadKeysStay(a, at, w', es, w.ledger.iam.nextId, w.ledger.status.cred.value, f);
  }
}
