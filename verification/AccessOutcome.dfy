/** When a pass completes, and how its status tells how it ended. */
module AccessOutcome {
  import opened Text
  import opened Faults
  import opened Policy
  import opened BucketUpdate
  import opened AccessModel
  import opened AccessSafety
  import opened AccessAgreement
  import opened AccessGrants
  import opened AccessRecovery
  import opened AccessExternal
  import opened AccessSecrets
  import P = Permissions

  // ---------- The managed stage ----------

  /** The Secret is not there, or it is this access's, and nothing else controls it where the access
      would have to. */
  ghost predicate Writable(a: Access, at: SecretRef, secrets: map<SecretRef, Secret>) {
    at in secrets ==>
      SecretOwned(a, secrets[at]) && (at.namespace == a.namespace ==> !ControlledByOther(a, secrets[at].owners))
  }

  predicate StatusAnswered(f: Fates) {
    && f.waiting.Answered? && f.progress.Answered? && f.error.Answered? && f.accountStatus.Answered?
    && f.credStatus.Answered? && f.secretStatus.Answered? && f.clearRotation.Answered? && f.last.Answered?
  }

  ghost predicate Failed(st: Status) {
    st.conditions.state.Degraded?
  }

  /** The calls that a success needs: recording and storing the credential, unless the write of the
      Secret finds nothing to write to, when it is the report of that. */
  predicate SecretHeard(f: Fates) {
    && f.getSecret.Answered? && f.rereadSecret.Answered?
    && (if PutMissing(f) then f.error.Answered? else f.putSecret.Answered? && f.secretStatus.Answered?)
  }

  predicate StageHeard(f: Fates, tracked: Option<Id>) {
    && (tracked.Some? ==> f.getAccount.Answered?) && f.accountStatus.Answered? && !f.readSecret.Cuts()
    && f.credStatus.Answered? && SecretHeard(f)
  }

  /** A stage succeeds only if the Secret can be written, and then if nothing stops it; it reports a
      failure. */
  ghost predicate Came(a: Access, at: SecretRef, secrets: map<SecretRef, Secret>, s: Stage, f: Fates) {
    && (s.reply.Ok? ==> Writable(a, at, secrets) && SecretHeard(f))
    && (Writable(a, at, secrets) && Unstopped(f) ==> s.reply.Ok?)
    && (s.reply.Err? && StatusAnswered(f) ==> Failed(s.ledger.status))
  }

  lemma WriteExactly(a: Access, secrets: map<SecretRef, Secret>, at: SecretRef, issue: Issue, names: seq<string>, endpoint: string, f: Fates)
    ensures var r := WriteSecret(a, secrets, at, issue, names, endpoint, f).1;
      && (r.Written? || r.NotFound? ==> Writable(a, at, secrets) && f.getSecret.Answered? && f.rereadSecret.Answered?)
      && (r.Written? ==> f.putSecret.Answered?) && (r.NotFound? ==> PutMissing(f))
      && (Writable(a, at, secrets) && f.getSecret.Answered? && f.rereadSecret.Answered? ==>
            (f.putSecret.Answered? ==> r.Written?) && (PutMissing(f) ==> r.NotFound?))
  {
    hide SecretOwned, WithController;
    NobodyControlsNew(a);
  }

  lemma DeliverOutcome(a: Access, at: SecretRef, l: Ledger, obj: Status, issue: Issue, arn: Arn, ts: seq<Target>, f: Fates)
    ensures Came(a, at, l.secrets, Deliver(a, at, l, obj, issue, arn, ts, f), f)
  {
    hide WriteSecret, Writable, NamesOf, FirstEndpoint;
    WriteExactly(a, l.secrets, at, issue, NamesOf(ts), FirstEndpoint(ts), f);
  }

  lemma RecordOutcome(a: Access, at: SecretRef, l: Ledger, obj: Status, prev: Option<Id>, account: Id, issue: Issue, arn: Arn,
                      ts: seq<Target>, f: Fates)
    ensures var s := RecordCredential(a, at, l, obj, prev, account, issue, arn, ts, f);
      Came(a, at, l.secrets, s, f) && (s.reply.Ok? ==> f.credStatus.Answered?)
  {
    hide Deliver, Writable, DropCred;
    var obj1 := obj.(cred := Some(issue.cred), accessKey := Some(issue.accessKey));
    DeliverOutcome(a, at, Persisted(l, obj1, f.credStatus), obj1, issue, arn, ts, f);
  }

  lemma CredentialHeard(iam: Iam, obj: Status, account: Id, stored: Option<(AccessKey, AccessSecret)>, rotate: bool, f: Fates)
    ensures EnsureCredential(iam, obj, account, stored, rotate, f).reply.Ok? ==> !f.readSecret.Cuts()
  {}

  lemma AccountHeard(a: Access, iam: Iam, name: string, tracked: Option<Id>, f: Fates)
    ensures EnsureAccount(a, iam, name, tracked, f).1.Ok? && tracked.Some? ==> f.getAccount.Answered?
  {}

  lemma WithCredentialOutcome(a: Access, at: SecretRef, rotate: bool, l: Ledger, obj: Status, account: Id, arn: Arn, ts: seq<Target>, f: Fates)
    ensures var s := WithCredential(a, at, rotate, l, obj, account, arn, ts, f);
      Came(a, at, l.secrets, s, f) && (s.reply.Ok? ==> !f.readSecret.Cuts() && f.credStatus.Answered?)
  {
    hide EnsureCredential, RecordCredential, Writable, Material;
    CredentialHeard(l.iam, obj, account, Material(l.secrets, at), rotate, f);
    var c := EnsureCredential(l.iam, obj, account, Material(l.secrets, at), rotate, f);
    if c.reply.Ok? {
      RecordOutcome(a, at, l.(iam := c.iam), c.obj, obj.cred, account, c.reply.value, arn, ts, f);
    }
    if Unstopped(f) {
      CredentialStageAnswers(l.iam, obj, account, Material(l.secrets, at), rotate, f);
    }
  }

  lemma EnsureManagedOutcome(a: Access, spec: Spec, rotate: bool, l: Ledger, obj: Status, ts: seq<Target>, f: Fates)
    ensures var s := EnsureManaged(a, spec, rotate, l, obj, ts, f);
      && (s.reply.Ok? ==> StageHeard(f, obj.account) && exists at :: AsksFor(a, spec, at) && Writable(a, at, l.secrets))
      && ((exists at :: AsksFor(a, spec, at) && Writable(a, at, l.secrets)) && Unstopped(f) ==> s.reply.Ok?)
      && (s.reply.Err? && StatusAnswered(f) ==> Failed(s.ledger.status))
  {
    hide EnsureAccount, WithCredential, Writable, SecretTarget, AsksFor, AccountName;
    forall at
      ensures AsksFor(a, spec, at) <==> SecretTarget(a, spec) == Some(at) && spec.writeSecretTo.Some? && spec.writeSecretTo.value.name != ""
    {
      AskedForExactly(a, spec, at);
    }
    AccountHeard(a, l.iam, AccountName(a, spec), obj.account, f);
    if Unstopped(f) {
      AccountStageAnswers(a, l.iam, AccountName(a, spec), obj.account, f);
    }
    var at := SecretTarget(a, spec);
    var (iam, r) := EnsureAccount(a, l.iam, AccountName(a, spec), obj.account, f);
    if r.Ok? && at.Some? {
      var arn := ServiceAccountArn(a.organisation, r.value);
      var obj1 := obj.(account := Some(r.value), principal := Some(arn));
      WithCredentialOutcome(a, at.value, rotate, Persisted(l.(iam := iam), obj1, f.accountStatus), obj1, r.value, arn, ts, f);
    }
  }

  // ---------- The pass ----------

  /** Whom to grant to can be found: an account with a Secret that can be written, or an existing
      principal while no rotation is requested. */
  ghost predicate PrincipalReady(a: Access, w: World) {
    if w.spec.principalRef.None? then exists at :: AsksFor(a, w.spec, at) && Writable(a, at, w.ledger.secrets)
    else Exists(w.ledger.iam, w.spec.principalRef.value) && !w.rotate
  }

  /** What a pass needs to complete. */
  ghost predicate Servable(a: Access, w: World) {
    && Trim(a.organisation) != ""
    && P.Resolve(w.spec.preset, w.spec.permissions).Granted?
    && (forall i | 0 <= i < |w.spec.bucketRefs| :: BucketReady(w, w.spec.bucketRefs[i]))
    && PrincipalReady(a, w)
  }

  predicate PrincipalHeard(w: World, f: Fates) {
    if w.spec.principalRef.None? then StageHeard(f, w.ledger.status.account) else f.getPrincipal.Answered?
  }

  lemma PreparedOutcome(a: Access, w: World, ts: seq<Target>, wanted: P.Resolution, f: Fates)
    requires wanted.Granted? && Trim(a.organisation) != "" && (w.spec.principalRef.Some? ==> !w.rotate)
    ensures var s := Prepared(a, w, ts, wanted, f);
      && (s.reply.Ok? ==> PrincipalReady(a, w) && PrincipalHeard(w, f))
      && (PrincipalReady(a, w) && Unstopped(f) && f.getPrincipal.Answered? ==> s.reply.Ok?)
      && (s.reply.Err? && StatusAnswered(f) ==> Failed(s.ledger.status))
  {
    hide EnsureManaged, AsksFor, Writable, ResolvePrincipal, Trim, ArnOf, Exists;
    var obj := Begun(w.ledger.status);
    if w.spec.principalRef.None? {
      EnsureManagedOutcome(a, w.spec, w.rotate, Persisted(w.ledger, obj, f.progress), obj.(permissions := wanted.actions), ts, f);
    } else {
      PreparedExternal(a, w, ts, wanted, f);
    }
  }

  lemma {:induction false} GrantHeard(buckets: map<string, Record>, ts: seq<Target>, g: Grant, f: Fates, i: nat)
    ensures GrantFrom(buckets, ts, g, f, i).1.Ok? ==> forall j | i <= j < |ts| :: At(f.getBucket, j).Answered? && At(f.putBucket, j).Answered?
    decreases |ts| - i
  {
    hide Upsert;
    if i < |ts| {
      GrantHeard(GrantOn(buckets, ts[i].name, g.On(ts[i].name), At(f.getBucket, i), At(f.putBucket, i)).0, ts, g, f, i + 1);
    }
  }

  lemma GrantAllOutcome(w: World, obj: Status, g: Grant, rotated: bool, ts: seq<Target>, f: Fates)
    ensures var p := GrantAll(w, obj, g, rotated, ts, f);
      && (p.end.Completed? ==> f.last.Answered? && forall j | 0 <= j < |ts| ::
            ts[j].name in w.buckets && At(f.getBucket, j).Answered? && At(f.putBucket, j).Answered?)
      && (p.end.Errored? && StatusAnswered(f) ==> Failed(p.w.ledger.status))
      && !p.end.Waiting?
  {
    hide GrantFrom, NamesOf, GrantedOn, OnlySid;
    GrantFromFacts(w.buckets, ts, g, f, 0);
    GrantHeard(w.buckets, ts, g, f, 0);
    var b := GrantFrom(w.buckets, ts, g, f, 0).0;
    OnlySidKeys(w.buckets, b, g.sid);
    if GrantAll(w, obj, g, rotated, ts, f).end.Completed? {
      forall j | 0 <= j < |ts|
        ensures ts[j].name in b
      {
        GrantedIsThere(b, ts[j].name, g);
      }
    }
  }

  lemma GrantedIsThere(buckets: map<string, Record>, name: string, g: Grant)
    requires GrantedOn(buckets, name, g)
    ensures name in buckets
  {}

  /** Nothing stops the pass. */
  ghost predicate Unobstructed(f: Fates) {
    && Unstopped(f) && f.getPrincipal.Answered? && f.progress.Answered? && f.clearRotation.Answered? && f.last.Answered?
    && (forall j :: At(f.views, j).Answered?)
    && (forall j :: At(f.getBucket, j).Answered? && At(f.putBucket, j).Answered?)
  }

  lemma TargetsOutcome(a: Access, w: World, ts: seq<Target>, sid: string, wanted: P.Resolution, f: Fates)
    requires Trim(a.organisation) != "" && (w.spec.principalRef.Some? ==> !w.rotate)
    ensures var p := WithTargets(a, w, ts, sid, wanted, f);
      && (p.end.Completed? ==>
            && wanted.Granted? && PrincipalReady(a, w) && PrincipalHeard(w, f) && f.progress.Answered? && f.last.Answered?
            && forall j | 0 <= j < |ts| ::
                 ts[j].name in w.buckets && At(f.getBucket, j).Answered? && At(f.putBucket, j).Answered?)
      && ((&& wanted.Granted? && PrincipalReady(a, w) && Unobstructed(f)
           && (forall j | 0 <= j < |ts| :: ts[j].name in w.buckets)) ==> p.end.Completed?)
      && (p.end.Errored? && StatusAnswered(f) ==> Failed(p.w.ledger.status))
      && !p.end.Waiting?
  {
    hide Prepare, GrantAll, PrincipalReady, Trim;
    if wanted.Granted? {
      PreparedOutcome(a, w, ts, wanted, f);
      var s := Prepared(a, w, ts, wanted, f);
      if s.reply.Ok? {
        var w1 := w.(ledger := s.ledger);
        var g := Grant(sid, s.reply.value.arn, wanted.actions);
        GrantAllOutcome(w1, s.obj, g, s.reply.value.rotated, ts, f);
        if Unobstructed(f) && forall j | 0 <= j < |ts| :: ts[j].name in w.buckets {
          GrantAllSucceeds(w1, s.obj, g, s.reply.value.rotated, ts, f);
        }
      }
    }
  }

  lemma ResolvedAreReady(w: World, ts: seq<Target>, f: Fates)
    requires TargetsOf(w.spec.bucketRefs, w.views, ts) && forall j | 0 <= j < |ts| :: ts[j].name in w.buckets
    requires forall j: nat | j < |w.spec.bucketRefs| :: RefReady(w.spec.bucketRefs, w.views, f, j)
    ensures forall i | 0 <= i < |w.spec.bucketRefs| :: BucketReady(w, w.spec.bucketRefs[i])
  {
    forall i | 0 <= i < |w.spec.bucketRefs|
      ensures BucketReady(w, w.spec.bucketRefs[i])
    {
      assert ts[i].name in w.buckets && RefReady(w.spec.bucketRefs, w.views, f, i);
    }
  }

  lemma ReadyWasLookedUp(w: World, f: Fates)
    requires forall j: nat | j < |w.spec.bucketRefs| :: RefReady(w.spec.bucketRefs, w.views, f, j)
    ensures forall j | 0 <= j < |w.spec.bucketRefs| :: At(f.views, j).Answered?
  {
    forall j | 0 <= j < |w.spec.bucketRefs|
      ensures At(f.views, j).Answered?
    {
      assert RefReady(w.spec.bucketRefs, w.views, f, j);
    }
  }

  lemma ReadyMeansNotRequested(a: Access, w: World)
    requires PrincipalReady(a, w)
    ensures w.spec.principalRef.Some? ==> !w.rotate
  {}

  lemma LookupsAnswered(f: Fates)
    requires Unobstructed(f)
    ensures forall j :: At(f.views, j).Answered?
  {}

  /** The calls whose answers every completed pass has had. */
  ghost predicate Heard(w: World, f: Fates) {
    && PrincipalHeard(w, f) && f.progress.Answered? && f.last.Answered?
    && forall j | 0 <= j < |w.spec.bucketRefs| ::
         At(f.views, j).Answered? && At(f.getBucket, j).Answered? && At(f.putBucket, j).Answered?
  }

  /** If nothing stops it, a pass completes exactly if it has what it needs, even if reading the Secret,
      listing credentials or deleting a superseded one fails.  With any fates it completes only then,
      and only if it has had the answers it needs.  A pass that fails although its status writes are
      answered says so in the status. */
  lemma CompletesExactly(a: Access, w: World, f: Fates)
    ensures var p := Reconcile(a, w, f);
      && (p.end.Completed? ==> Servable(a, w) && Heard(w, f))
      && (Unobstructed(f) ==> (p.end.Completed? <==> Servable(a, w)))
      && (p.end.Errored? && StatusAnswered(f) ==> Failed(p.w.ledger.status))
  {
    hide WithTargets, ResolveFrom, P.Resolve, PrincipalReady, SidOf, Trim, BucketReady, RefReady, TargetsOf, Unobstructed, PrincipalHeard;
    var sid, wanted := SidOf(a), P.Resolve(w.spec.preset, w.spec.permissions);
    var refs := w.spec.bucketRefs;
    NoTargetsYet(refs, w.views);
    ResolveFromFacts(refs, w.views, f, 0, []);
    ResolveExactly(refs, w.views, f, 0, []);
    var r := ResolveFrom(refs, w.views, f, 0, []);
    if Servable(a, w) && Unobstructed(f) {
      ReadyMeansNotRequested(a, w);
      LookupsAnswered(f);
      ResolvesAll(w, f);
    }
    if r.Targets? && Trim(a.organisation) != "" && (w.spec.principalRef.Some? ==> !w.rotate) {
      TargetsOutcome(a, w, r.ts, sid, wanted, f);
      if Reconcile(a, w, f).end.Completed? {
        ResolvedAreReady(w, r.ts, f);
        ReadyWasLookedUp(w, f);
      }
    }
  }

  /** A pass is put off exactly by a bucket that is not ready or not found yet, if the reference is not
      blank and its lookup is answered; the status says which. */
  lemma WaitsExactly(a: Access, w: World, f: Fates, k: nat)
    requires Trim(a.organisation) != "" && StatusAnswered(f) && HoldsUp(w.spec.bucketRefs, w.views, f, 0, k)
    ensures var p, ref := Reconcile(a, w, f), w.spec.bucketRefs[k];
      && (p.end.Waiting? <==> ref != "" && At(f.views, k).Answered?)
      && (p.end.Waiting? ==>
            && p.w == w.(ledger := w.ledger.(status := p.w.ledger.status))
            && (if ref in w.views then p.w.ledger.status.conditions.state.Progressing? else Failed(p.w.ledger.status)))
  {
    hide WithTargets, ResolveFrom, P.Resolve, SidOf, Trim, RefReady;
    ResolveExactly(w.spec.bucketRefs, w.views, f, 0, []);
  }

  lemma ReadyNeverWaits(a: Access, w: World, f: Fates)
    requires Trim(a.organisation) == "" || forall j: nat | j < |w.spec.bucketRefs| :: RefReady(w.spec.bucketRefs, w.views, f, j)
    ensures !Reconcile(a, w, f).end.Waiting?
  {
    hide WithTargets, ResolveFrom, P.Resolve, SidOf, Trim, RefReady;
    var sid, wanted := SidOf(a), P.Resolve(w.spec.preset, w.spec.permissions);
    ResolveExactly(w.spec.bucketRefs, w.views, f, 0, []);
    var r := ResolveFrom(w.spec.bucketRefs, w.views, f, 0, []);
    if r.Targets? && Trim(a.organisation) != "" && (w.spec.principalRef.Some? ==> !w.rotate) {
      TargetsOutcome(a, w, r.ts, sid, wanted, f);
    }
  }

  // ---------- What is created ----------

  /** Nothing is created, or one account with a fresh identity, the name the spec asks for or one made
      of namespace and name, and the label that is made of both. */
  ghost predicate CreatesOnly(a: Access, spec: Spec, iam: Iam, accounts: seq<Account>) {
    || accounts == iam.accounts
    || accounts == iam.accounts +
         [Account(iam.nextId, if spec.serviceAccountName == "" then a.namespace + "-" + a.name else spec.serviceAccountName,
                  a.namespace + "." + a.name)]
  }

  /** A credential that is new belongs to the account on record. */
  ghost predicate MintsOnRecord(iam: Iam, l: Ledger) {
    forall c | c in l.iam.creds && c !in iam.creds :: l.status.account == Some(l.iam.creds[c])
  }

  lemma CredentialStageMints(iam: Iam, obj: Status, account: Id, stored: Option<(AccessKey, AccessSecret)>, rotate: bool, f: Fates)
    ensures var r := EnsureCredential(iam, obj, account, stored, rotate, f);
      && r.iam.accounts == iam.accounts && r.obj.account == obj.account
      && forall c | c in r.iam.creds && c !in iam.creds :: r.iam.creds[c] == account
  {}

  lemma WithCredentialMints(a: Access, at: SecretRef, rotate: bool, l: Ledger, obj: Status, account: Id, arn: Arn, ts: seq<Target>, f: Fates)
    requires l.status.account == Some(account) == obj.account
    ensures var s := WithCredential(a, at, rotate, l, obj, account, arn, ts, f);
      && s.ledger.iam.accounts == l.iam.accounts && MintsOnRecord(l.iam, s.ledger)
      && s.obj.account == Some(account) == s.ledger.status.account
  {
    hide EnsureCredential, WriteSecret, Material;
    CredentialStageMints(l.iam, obj, account, Material(l.secrets, at), rotate, f);
  }

  lemma NothingCreated(a: Access, spec: Spec, iam: Iam)
    ensures CreatesOnly(a, spec, iam, iam.accounts)
  {}

  lemma AccountStageCreates(a: Access, iam: Iam, spec: Spec, tracked: Option<Id>, f: Fates)
    ensures var r := EnsureAccount(a, iam, AccountName(a, spec), tracked, f).0;
      CreatesOnly(a, spec, iam, r.accounts) && r.creds == iam.creds
  {
    hide PickOwned, OwnsId;
  }

  lemma EnsureManagedCreates(a: Access, spec: Spec, rotate: bool, l: Ledger, obj: Status, ts: seq<Target>, f: Fates)
    ensures var s := EnsureManaged(a, spec, rotate, l, obj, ts, f);
      && CreatesOnly(a, spec, l.iam, s.ledger.iam.accounts) && MintsOnRecord(l.iam, s.ledger)
      && (s.reply.Ok? ==> s.obj.account == s.ledger.status.account)
  {
    hide EnsureAccount, WithCredential, CreatesOnly, SecretTarget, AccountName;
    AccountStageCreates(a, l.iam, spec, obj.account, f);
    NothingCreated(a, spec, l.iam);
    var at := SecretTarget(a, spec);
    var (iam, r) := EnsureAccount(a, l.iam, AccountName(a, spec), obj.account, f);
    if r.Ok? && at.Some? && f.accountStatus.Answered? {
      var arn := ServiceAccountArn(a.organisation, r.value);
      var obj1 := obj.(account := Some(r.value), principal := Some(arn));
      WithCredentialMints(a, at.value, rotate, Persisted(l.(iam := iam), obj1, f.accountStatus), obj1, r.value, arn, ts, f);
    }
  }

  /** Whatever fails or is cut, in either mode: a pass creates at most the one account, named and
      labelled as documented, and mints only for an account that its status has on record. */
  lemma PassCreates(a: Access, w: World, f: Fates)
    ensures var r := Reconcile(a, w, f).w;
      CreatesOnly(a, w.spec, w.ledger.iam, r.ledger.iam.accounts) && MintsOnRecord(w.ledger.iam, r.ledger)
  {
    hide ReconcileAs, WithTargets, ResolveFrom, Prepared, GrantAll, P.Resolve, SidOf, CreatesOnly;
    var sid, wanted := SidOf(a), P.Resolve(w.spec.preset, w.spec.permissions);
    ReconcileShape(a, w, sid, wanted, f);
    NothingCreated(a, w.spec, w.ledger.iam);
    var resolved := ResolveFrom(w.spec.bucketRefs, w.views, f, 0, []);
    if resolved.Targets? {
      WithTargetsShape(a, w, resolved.ts, sid, wanted, f);
      if wanted.Granted? {
        PreparedCreates(a, w, resolved.ts, wanted, f);
        var s := Prepared(a, w, resolved.ts, wanted, f);
        if s.reply.Ok? {
          GrantAllLedger(w.(ledger := s.ledger), s.obj, Grant(sid, s.reply.value.arn, wanted.actions), s.reply.value.rotated, resolved.ts, f);
          GrantAllKeepsAccount(w.(ledger := s.ledger), s.obj, Grant(sid, s.reply.value.arn, wanted.actions), s.reply.value.rotated, resolved.ts, f);
        }
      }
    }
  }

  lemma GrantAllKeepsAccount(w: World, obj: Status, g: Grant, rotated: bool, ts: seq<Target>, f: Fates)
    ensures var st := GrantAll(w, obj, g, rotated, ts, f).w.ledger.status;
      st.account == obj.account || st.account == w.ledger.status.account
  {
    hide GrantFrom, NamesOf;
  }

  lemma PreparedCreates(a: Access, w: World, ts: seq<Target>, wanted: P.Resolution, f: Fates)
    requires wanted.Granted?
    ensures var s := Prepared(a, w, ts, wanted, f);
      && CreatesOnly(a, w.spec, w.ledger.iam, s.ledger.iam.accounts) && MintsOnRecord(w.ledger.iam, s.ledger)
      && (s.reply.Ok? && s.ledger.iam != w.ledger.iam ==> s.obj.account == s.ledger.status.account)
  {
    hide EnsureManaged, ResolvePrincipal;
    var obj := Begun(w.ledger.status);
    EnsureManagedCreates(a, w.spec, w.rotate, Persisted(w.ledger, obj, f.progress), obj.(permissions := wanted.actions), ts, f);
  }
}
