/** The Secret and the tracked credential agree, over every managed run; and one pass without
    failures repairs whatever earlier passes left behind. */
module AccessAgreement {
  import opened Text
  import opened Faults
  import opened Policy
  import opened AccessModel
  import opened AccessSafety

  // ---------- The invariant ----------

  function KeysOf(cred: Id): (AccessKey, AccessSecret) {
    (AccessKey(cred), AccessSecret(cred))
  }

  /** The status tracks a live credential of the owned account, and the Secret holds its keys. */
  ghost predicate Settled(a: Access, at: SecretRef, l: Ledger) {
    && l.status.cred.Some? && l.status.account.Some?
    && OwnsId(a, l.iam.accounts, l.status.account.value)
    && LiveOn(l.iam, l.status.account.value, l.status.cred.value)
    && Material(l.secrets, at) == Some(KeysOf(l.status.cred.value))
  }

  ghost predicate Agreement(a: Access, at: SecretRef, rotate: bool, l: Ledger) {
    !rotate && Material(l.secrets, at).Some? ==> Settled(a, at, l)
  }

  /** If the Secret is there, this access owns it and nobody else controls it. */
  ghost predicate SecretOurs(a: Access, at: SecretRef, secrets: map<SecretRef, Secret>) {
    at in secrets ==> SecretOwned(a, secrets[at]) && !ControlledByOther(a, secrets[at].owners)
  }

  ghost predicate Sound(a: Access, at: SecretRef, rotate: bool, l: Ledger) {
    && WellFormed(l.iam) && OneOwned(a, l.iam.accounts)
    && SecretOurs(a, at, l.secrets)
    && Agreement(a, at, rotate, l)
  }

  ghost predicate Tracks(st: Status, st': Status) {
    st.cred == st'.cred && st.account == st'.account
  }

  /** Any read error counts as a missing Secret; here that happens only if it really is missing. */
  ghost predicate Faithful(at: SecretRef, l: Ledger, f: Fates) {
    f.readSecret.Refused? || f.readSecret.Unheard? ==> Material(l.secrets, at).None?
  }

  /** The Secret could not be written because it, or its namespace, is not there: the stage answers
      with an empty principal. */
  ghost predicate Lapsed(at: SecretRef, s: Stage) {
    s.reply == Ok(Grantee(OtherArn(""), false)) && at !in s.ledger.secrets && Tracks(s.obj, s.ledger.status)
  }

  /** Every call of the managed stage is answered. */
  predicate Unhindered(f: Fates) {
    && f.getAccount.Answered? && f.listAccounts.Answered? && f.createAccount.Answered? && f.accountStatus.Answered?
    && f.readSecret.Answered? && f.listCreds.Answered? && f.deleteLost.Answered? && f.createCred.Answered?
    && f.deleteOld.Answered? && f.credStatus.Answered? && f.getSecret.Answered? && f.rereadSecret.Answered? && f.putSecret.Answered?
    && f.secretStatus.Answered?
  }

  // ---------- The Secret ----------

  lemma {:induction false} WithControllerFacts(a: Access, owners: seq<OwnerRef>)
    ensures OwnRef(a) in WithController(a, owners)
    ensures !ControlledByOther(a, owners) ==> !ControlledByOther(a, WithController(a, owners))
    ensures forall r | r in owners && !SameObject(a, r) :: r in WithController(a, owners)
  {
    if |owners| > 0 && !SameObject(a, owners[0]) {
      WithControllerFacts(a, owners[1..]);
      assert WithController(a, owners)[1..] == WithController(a, owners[1..]);
      assert owners == [owners[0]] + owners[1..];
      assert WithController(a, owners) == [owners[0]] + WithController(a, owners[1..]);
    }
  }

  ghost predicate FirstController(owners: seq<OwnerRef>, i: nat) {
    i < |owners| && owners[i].controller && forall j | 0 <= j < i :: !owners[j].controller
  }

  lemma {:induction false} ControlledFirst(a: Access, owners: seq<OwnerRef>)
    ensures ControlledByOther(a, owners) <==> exists i: nat :: FirstController(owners, i) && !SameObject(a, owners[i])
  {
    hide SameObject;
    if |owners| > 0 && !owners[0].controller {
      ControlledFirst(a, owners[1..]);
      if i: nat :| FirstController(owners, i) && !SameObject(a, owners[i]) {
        assert FirstController(owners[1..], i - 1);
      }
      if i: nat :| FirstController(owners[1..], i) && !SameObject(a, owners[1..][i]) {
        assert forall j | 0 < j < i + 1 :: owners[j] == owners[1..][j - 1];
        assert FirstController(owners, i + 1);
      }
    } else if |owners| > 0 {
      assert FirstController(owners, 0);
    }
  }

  /** Control is somebody else's exactly if the first reference that claims it names another object. */
  lemma ControlledExactly(a: Access, owners: seq<OwnerRef>)
    ensures ControlledByOther(a, owners) <==>
        exists i: nat :: FirstController(owners, i) &&
          (owners[i].group, owners[i].kind, owners[i].name) != ("objectstorage.controllers.thalassa.cloud", "BucketAccess", a.name)
  {
    hide ControlledByOther, FirstController;
    ControlledFirst(a, owners);
  }

  /** In its own namespace the access becomes the controller of the Secret it writes, beside whatever
      other owners there are, unless another object controls it; elsewhere it leaves its label. */
  lemma StampedExactly(a: Access, at: SecretRef, s: Secret, issue: Issue, names: seq<string>, endpoint: string)
    ensures var r := Stamped(a, at, s, issue, names, endpoint);
      && (r.None? <==> at.namespace == a.namespace && ControlledByOther(a, s.owners))
      && (r.Some? && at.namespace == a.namespace ==>
            && OwnerRef("objectstorage.controllers.thalassa.cloud", "BucketAccess", a.name, a.uid, true) in r.value.owners
            && (forall o | o in s.owners && (o.group, o.kind, o.name) !=
                  ("objectstorage.controllers.thalassa.cloud", "BucketAccess", a.name) :: o in r.value.owners)
            && r.value.owner == s.owner)
      && (at.namespace != a.namespace ==> r.value.owner == a.namespace + "." + a.name && r.value.owners == s.owners)
  {
    hide ControlledByOther, WithController;
    WithControllerFacts(a, s.owners);
  }

  /** What is written is recognised as owned, and can be written again. */
  lemma StampedIsOurs(a: Access, at: SecretRef, s: Secret, issue: Issue, names: seq<string>, endpoint: string)
    ensures var r := Stamped(a, at, s, issue, names, endpoint);
      && (r.Some? ==> SecretOwned(a, r.value))
      && (!ControlledByOther(a, s.owners) ==> r.Some? && !ControlledByOther(a, r.value.owners))
  {
    hide ControlledByOther;
    WithControllerFacts(a, s.owners);
    if at.namespace == a.namespace {
      var i :| 0 <= i < |WithController(a, s.owners)| && WithController(a, s.owners)[i] == OwnRef(a);
      assert IsOwnRef(a, WithController(a, s.owners)[i]);
    }
  }

  lemma WriteSecretFacts(a: Access, secrets: map<SecretRef, Secret>, at: SecretRef, issue: Issue, names: seq<string>, endpoint: string, f: Fates)
    requires SecretOurs(a, at, secrets)
    ensures var (s, r) := WriteSecret(a, secrets, at, issue, names, endpoint, f);
      && SecretOurs(a, at, s)
      && (!r.NotFound? ==> s == secrets || Material(s, at) == Some((issue.accessKey, issue.accessSecret)))
      && (r.Written? ==> Material(s, at) == Some((issue.accessKey, issue.accessSecret)) && !PutMissing(f))
      && (r.NotFound? ==> at !in s && PutMissing(f))
      && (f.getSecret.Answered? && f.rereadSecret.Answered? && f.putSecret.Answered? ==> r.Written?)
      && (f.getSecret.Answered? && f.rereadSecret.Answered? && PutMissing(f) ==> r.NotFound?)
  {
    hide SecretOwned, ControlledByOther;
    var before := if at in secrets then secrets[at] else NEW_SECRET;
    assert !ControlledByOther(a, before.owners) by {
      NobodyControlsNew(a);
    }
    StampedIsOurs(a, at, before, issue, names, endpoint);
  }

  lemma NobodyControlsNew(a: Access)
    ensures !ControlledByOther(a, NEW_SECRET.owners)
  {}

  // ---------- The credential stage ----------

  lemma MintFacts(iam: Iam, account: Id, prior: Option<Id>, rotate: bool, f: Fates)
    requires WellFormed(iam)
    ensures var (iam1, r) := Mint(iam, account, prior, rotate, f);
      && WellFormed(iam1) && iam1.accounts == iam.accounts
      && (r.Ok? ==>
            && r.value == IssueOf(iam.nextId, rotate || prior.Some?)
            && LiveOn(iam1, account, iam.nextId))
      && (f.createCred.Answered? && f.deleteOld.Answered? ==> r.Ok?)
  {}

  lemma ReplaceFacts(iam: Iam, obj: Status, account: Id, secretOk: bool, rotate: bool, f: Fates)
    requires WellFormed(iam) && (rotate || !secretOk)
    ensures var c := Replace(iam, obj, account, secretOk, rotate, f);
      && WellFormed(c.iam) && c.iam.accounts == iam.accounts
      && c.obj.account == obj.account
      && (c.reply.Ok? ==> c.reply.value == IssueOf(iam.nextId, rotate) && LiveOn(c.iam, account, iam.nextId))
      && (f.deleteLost.Answered? && f.createCred.Answered? && f.deleteOld.Answered? ==> c.reply.Ok?)
  {
    hide Mint;
    MintFacts(iam, account, obj.cred, rotate, f);
    if obj.cred.Some? {
      MintFacts(DropCred(iam, account, obj.cred.value, f.deleteLost), account, None, rotate, f);
    }
  }

  /** The status tracks the credential whose keys are stored. */
  ghost predicate InUse(iam: Iam, obj: Status, account: Id, stored: Option<(AccessKey, AccessSecret)>) {
    obj.cred.Some? && stored == Some(KeysOf(obj.cred.value)) && LiveOn(iam, account, obj.cred.value)
  }

  /** While the Secret holds keys and no rotation is due, the tracked credential is reused and IAM
      stays as it is.  Otherwise a fresh credential comes back, or none; and "rotated" is reported
      exactly when rotation was requested. */
  lemma EnsureCredentialFacts(iam: Iam, obj: Status, account: Id, stored: Option<(AccessKey, AccessSecret)>, rotate: bool, f: Fates)
    requires WellFormed(iam)
    requires !rotate && stored.Some? ==> InUse(iam, obj, account, stored)
    requires f.readSecret.Refused? || f.readSecret.Unheard? ==> stored.None?
    ensures var c := EnsureCredential(iam, obj, account, stored, rotate, f);
      && WellFormed(c.iam) && c.iam.accounts == iam.accounts
      && c.obj.account == obj.account
      && (c.reply.Ok? ==> LiveOn(c.iam, account, c.reply.value.cred) && c.reply.value == IssueOf(c.reply.value.cred, rotate))
      && (if !rotate && stored.Some? then
            c.iam == iam && c.obj == obj && !c.reply.Err? && (c.reply.Ok? ==> c.reply.value.cred == obj.cred.value)
          else
            c.reply.Ok? ==> c.reply.value.cred == iam.nextId)
  {
    hide Replace;
    if rotate || stored.None? {
      ReplaceFacts(iam, obj, account, f.readSecret.Answered? && stored.Some?, rotate, f);
    }
  }

  /** In every state, even without the agreement: "rotated" is reported exactly when rotation was
      requested, and then the credential is a new one. */
  lemma RotatedExactlyWhenRequested(iam: Iam, obj: Status, account: Id, stored: Option<(AccessKey, AccessSecret)>, rotate: bool, f: Fates)
    ensures var r := EnsureCredential(iam, obj, account, stored, rotate, f).reply;
      r.Ok? ==> (r.value.rotated <==> rotate) && (rotate ==> r.value.cred == iam.nextId)
  {
    hide DropCred;
    if obj.cred.Some? {
      assert DropCred(iam, account, obj.cred.value, f.deleteLost).nextId == iam.nextId by {
        DropKeepsNext(iam, account, obj.cred.value, f.deleteLost);
      }
    }
  }

  // ---------- The managed stage ----------

  /** Delivering keys settles the ledger, or leaves the Secret as it was. */
  lemma DeliverFacts(a: Access, at: SecretRef, rotate: bool, l: Ledger, obj: Status, issue: Issue, arn: Arn, ts: seq<Target>, f: Fates)
    requires Sound(a, at, rotate, l) && Tracks(obj, l.status)
    requires obj.cred == Some(issue.cred) && obj.account.Some? && OwnsId(a, l.iam.accounts, obj.account.value)
    requires LiveOn(l.iam, obj.account.value, issue.cred) && issue == IssueOf(issue.cred, rotate)
    ensures var r := Deliver(a, at, l, obj, issue, arn, ts, f);
      && Sound(a, at, rotate, r.ledger) && r.ledger.iam == l.iam
      && Tracks(r.obj, r.ledger.status)
      && (r.reply.Ok? ==> Tracks(r.obj, obj))
      && (r.reply.Ok? ==> if PutMissing(f) then Lapsed(at, r) else
            Settled(a, at, r.ledger) && r.reply.value == Grantee(arn, rotate))
  {
    hide WriteSecret, OwnsId, SecretOurs, OneOwned, WellFormed, NamesOf, FirstEndpoint;
    WriteSecretFacts(a, l.secrets, at, issue, NamesOf(ts), FirstEndpoint(ts), f);
    var r := Deliver(a, at, l, obj, issue, arn, ts, f);
    if r.reply.Ok? {
      assert WriteSecret(a, l.secrets, at, issue, NamesOf(ts), FirstEndpoint(ts), f).1 == if PutMissing(f) then NotFound else Written;
      assert r.ledger.secrets == WriteSecret(a, l.secrets, at, issue, NamesOf(ts), FirstEndpoint(ts), f).0;
      assert OwnsId(a, r.ledger.iam.accounts, r.ledger.status.account.value);
    }
  }

  lemma RecordCredentialFacts(a: Access, at: SecretRef, rotate: bool, l: Ledger, obj: Status, prev: Option<Id>, account: Id,
                              issue: Issue, arn: Arn, ts: seq<Target>, f: Fates)
    requires Sound(a, at, rotate, l) && obj.account == Some(account) == l.status.account && OwnsId(a, l.iam.accounts, account)
    requires LiveOn(l.iam, account, issue.cred) && issue == IssueOf(issue.cred, rotate)
    requires !rotate && Material(l.secrets, at).Some? ==> prev == Some(issue.cred) && Material(l.secrets, at) == Some(KeysOf(issue.cred))
    ensures var r := RecordCredential(a, at, l, obj, prev, account, issue, arn, ts, f);
      && Sound(a, at, rotate, r.ledger)
      && (r.reply.Ok? ==> r.ledger.status.cred == Some(issue.cred) && r.ledger.status.account == Some(account))
      && (r.reply.Ok? ==> if PutMissing(f) then Lapsed(at, r) else
            Settled(a, at, r.ledger) && r.reply.value == Grantee(arn, rotate) && Tracks(r.obj, r.ledger.status))
  {
    hide Deliver, OwnsId, SecretOurs, OneOwned;
    var obj1 := obj.(cred := Some(issue.cred), accessKey := Some(issue.accessKey));
    var l1 := Persisted(l, obj1, f.credStatus);
    assert Agreement(a, at, rotate, l1);
    if f.credStatus.Answered? {
      DeliverFacts(a, at, rotate, l1, obj1, issue, arn, ts, f);
    }
  }

  lemma WithCredentialFacts(a: Access, at: SecretRef, rotate: bool, l: Ledger, obj: Status, account: Id, arn: Arn,
                            ts: seq<Target>, f: Fates)
    requires Sound(a, at, rotate, l) && Tracks(obj, l.status)
    requires obj.account == Some(account) && OwnsId(a, l.iam.accounts, account)
    requires Faithful(at, l, f)
    ensures var r := WithCredential(a, at, rotate, l, obj, account, arn, ts, f);
      && Sound(a, at, rotate, r.ledger)
      && (r.reply.Ok? ==> r.ledger.status.account == Some(account) && r.ledger.status.cred.Some?)
      && (r.reply.Ok? ==> if PutMissing(f) then Lapsed(at, r) else
            Settled(a, at, r.ledger) && r.reply.value == Grantee(arn, rotate) && Tracks(r.obj, r.ledger.status))
      && (!rotate && Material(l.secrets, at).Some? ==> r.ledger.iam == l.iam)
      && (r.reply.Ok? && (rotate || Material(l.secrets, at).None?) ==> r.ledger.status.cred == Some(l.iam.nextId))
  {
    hide EnsureCredential, RecordCredential, OwnsId, SecretOurs, OneOwned;
    var stored := Material(l.secrets, at);
    EnsureCredentialFacts(l.iam, obj, account, stored, rotate, f);
    var c := EnsureCredential(l.iam, obj, account, stored, rotate, f);
    var l1 := l.(iam := c.iam);
    assert Agreement(a, at, rotate, l1);
    if c.reply.Ok? {
      RecordCredentialFacts(a, at, rotate, l1, c.obj, obj.cred, account, c.reply.value, arn, ts, f);
      RecordCredentialIam(a, at, l1, c.obj, obj.cred, account, c.reply.value, arn, ts, f);
    }
  }

  /** A reused credential is never taken back. */
  lemma RecordCredentialIam(a: Access, at: SecretRef, l: Ledger, obj: Status, prev: Option<Id>, account: Id,
                            issue: Issue, arn: Arn, ts: seq<Target>, f: Fates)
    ensures prev == Some(issue.cred) ==> RecordCredential(a, at, l, obj, prev, account, issue, arn, ts, f).ledger.iam == l.iam
  {
    hide WriteSecret, DropCred;
  }

  /** With the agreement in force, the account on record is the one the account stage finds. */
  lemma WithAccountFacts(a: Access, at: SecretRef, rotate: bool, l: Ledger, obj: Status, account: Id, ts: seq<Target>, f: Fates)
    requires Sound(a, at, rotate, l) && obj.cred == l.status.cred && OwnsId(a, l.iam.accounts, account)
    requires Faithful(at, l, f)
    ensures var r := WithAccount(a, Some(at), rotate, l, obj, account, ts, f);
      && Sound(a, at, rotate, r.ledger)
      && (r.reply.Ok? ==> r.ledger.status.account == Some(account) && r.ledger.status.cred.Some?)
      && (r.reply.Ok? ==> if PutMissing(f) then Lapsed(at, r) else
            && Settled(a, at, r.ledger) && Tracks(r.obj, r.ledger.status)
            && r.reply.value == Grantee(ServiceAccountArn(a.organisation, account), rotate))
      && (!rotate && Material(l.secrets, at).Some? ==> r.ledger.iam == l.iam)
      && (r.reply.Ok? && (rotate || Material(l.secrets, at).None?) ==> r.ledger.status.cred == Some(l.iam.nextId))
  {
    hide WithCredential, OwnsId, SecretOurs, OneOwned;
    var arn := ServiceAccountArn(a.organisation, account);
    var obj1 := obj.(account := Some(account), principal := Some(arn));
    var l1 := Persisted(l, obj1, f.accountStatus);
    if Settled(a, at, l) {
      OneOwnedId(a, l.iam.accounts, l.status.account.value, account);
    }
    assert Agreement(a, at, rotate, l1);
    if f.accountStatus.Answered? {
      WithCredentialFacts(a, at, rotate, l1, obj1, account, arn, ts, f);
    }
  }

  /** The account stage keeps the ledger sound; while an account is owned, it changes nothing. */
  lemma AccountStageSound(a: Access, at: SecretRef, rotate: bool, l: Ledger, name: string, tracked: Option<Id>, f: Fates)
    requires Sound(a, at, rotate, l)
    ensures var (iam, r) := EnsureAccount(a, l.iam, name, tracked, f);
      && Sound(a, at, rotate, l.(iam := iam))
      && (r.Ok? ==> OwnsId(a, iam.accounts, r.value))
      && (!rotate && Material(l.secrets, at).Some? ==> iam == l.iam)
      && iam.creds == l.iam.creds && l.iam.nextId <= iam.nextId
  {
    hide EnsureAccount, OneOwned, SecretOurs;
    EnsureAccountFacts(a, l.iam, name, tracked, f);
    AccountStageSafe(a, l.iam, name, tracked, f);
    if Settled(a, at, l) {
      FindAccountFacts(l.iam.accounts, l.status.account.value);
    }
  }

  lemma EnsureManagedFacts(a: Access, at: SecretRef, spec: Spec, rotate: bool, l: Ledger, obj: Status, ts: seq<Target>, f: Fates)
    requires Sound(a, at, rotate, l) && obj.cred == l.status.cred && Tracks(obj, l.status)
    requires SecretTarget(a, spec) == Some(at) && Faithful(at, l, f)
    ensures var r := EnsureManaged(a, spec, rotate, l, obj, ts, f);
      && Sound(a, at, rotate, r.ledger)
      && (r.reply.Ok? ==> r.ledger.status.cred.Some? && r.ledger.status.account.Some?)
      && (r.reply.Ok? ==> if PutMissing(f) then Lapsed(at, r) else
            && Settled(a, at, r.ledger) && Tracks(r.obj, r.ledger.status)
            && r.reply.value == Grantee(ServiceAccountArn(a.organisation, r.ledger.status.account.value), rotate))
      && (!rotate && Material(l.secrets, at).Some? ==> r.ledger.iam == l.iam)
      && (r.reply.Ok? && (rotate || Material(l.secrets, at).None?) ==> l.iam.nextId <= r.ledger.status.cred.value)
  {
    assert spec.writeSecretTo.Some?;
    hide EnsureAccount, WithAccount, OwnsId, SecretOurs, OneOwned, AccountName, SecretTarget, WellFormed, Settled, Lapsed;
    if spec.writeSecretTo.Some? && spec.writeSecretTo.value.name != "" {
      AccountStageSound(a, at, rotate, l, AccountName(a, spec), obj.account, f);
      var (iam, r) := EnsureAccount(a, l.iam, AccountName(a, spec), obj.account, f);
      if r.Ok? {
        WithAccountFacts(a, at, rotate, l.(iam := iam), obj, r.value, ts, f);
      }
    }
  }

  // ---------- When every call is answered ----------

  /** Every call is answered, but for a write of the Secret that finds nothing to write to, and for
      calls whose failure does not matter: reading the Secret, listing credentials, and deleting the
      superseded one. */
  predicate Unstopped(f: Fates) {
    && f.getAccount.Answered? && f.listAccounts.Answered? && f.createAccount.Answered? && f.accountStatus.Answered?
    && !f.readSecret.Cuts() && !f.listCreds.Cuts() && !f.deleteOld.Cuts()
    && f.deleteLost.Answered? && f.createCred.Answered? && f.credStatus.Answered?
    && f.getSecret.Answered? && f.rereadSecret.Answered?
    && (if PutMissing(f) then f.error.Answered? else f.putSecret.Answered? && f.secretStatus.Answered?)
  }

  lemma AccountStageAnswers(a: Access, iam: Iam, name: string, tracked: Option<Id>, f: Fates)
    requires Unstopped(f)
    ensures EnsureAccount(a, iam, name, tracked, f).1.Ok?
  {
    hide PickOwned, OwnsId;
  }

  lemma CredentialStageAnswers(iam: Iam, obj: Status, account: Id, stored: Option<(AccessKey, AccessSecret)>, rotate: bool, f: Fates)
    requires Unstopped(f)
    ensures EnsureCredential(iam, obj, account, stored, rotate, f).reply.Ok?
  {
    hide DropCred;
  }

  lemma RecordAnswers(a: Access, at: SecretRef, l: Ledger, obj: Status, prev: Option<Id>, account: Id, issue: Issue, arn: Arn,
                      ts: seq<Target>, f: Fates)
    requires SecretOurs(a, at, l.secrets) && Unstopped(f)
    ensures RecordCredential(a, at, l, obj, prev, account, issue, arn, ts, f).reply.Ok?
  {
    hide WriteSecret, DropCred, SecretOurs, NamesOf, FirstEndpoint;
    WriteSecretFacts(a, l.secrets, at, issue, NamesOf(ts), FirstEndpoint(ts), f);
  }

  /** The managed stage succeeds from every state in which nobody else owns the Secret. */
  lemma EnsureManagedAnswers(a: Access, at: SecretRef, spec: Spec, rotate: bool, l: Ledger, obj: Status, ts: seq<Target>, f: Fates)
    requires SecretTarget(a, spec) == Some(at) && spec.writeSecretTo.value.name != ""
    requires SecretOurs(a, at, l.secrets) && Unstopped(f)
    ensures EnsureManaged(a, spec, rotate, l, obj, ts, f).reply.Ok?
  {
    assert spec.writeSecretTo.Some?;
    hide EnsureAccount, EnsureCredential, RecordCredential, AccountName, SecretTarget, Material, SecretOurs;
    AccountStageAnswers(a, l.iam, AccountName(a, spec), obj.account, f);
    var (iam, r) := EnsureAccount(a, l.iam, AccountName(a, spec), obj.account, f);
    var arn := ServiceAccountArn(a.organisation, r.value);
    var obj1 := obj.(account := Some(r.value), principal := Some(arn));
    var l1 := Persisted(l.(iam := iam), obj1, f.accountStatus);
    CredentialStageAnswers(l1.iam, obj1, r.value, Material(l1.secrets, at), rotate, f);
    var c := EnsureCredential(l1.iam, obj1, r.value, Material(l1.secrets, at), rotate, f);
    RecordAnswers(a, at, l1.(iam := c.iam), c.obj, obj1.cred, r.value, c.reply.value, arn, ts, f);
  }
}
