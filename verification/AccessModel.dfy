/** The BucketAccess protocol: what one pass, cut or failing at any call, does to the world. */
module AccessModel {
  import opened Text
  import opened Faults
  import opened Policy
  import opened BucketUpdate
  import C = Conditions
  import P = Permissions

  type Id = nat

  /** Each credential has its own key pair, named after the credential. */
  datatype AccessKey = AccessKey(cred: Id)
  datatype AccessSecret = AccessSecret(cred: Id)

  /** The resource, and the manager's configuration. */
  datatype Access = Access(organisation: string, crossNamespace: bool, namespace: string, name: string, uid: string)

  /** Of the labels of accounts and Secrets only the ownership label matters; "" means it is absent. */
  datatype Account = Account(id: Id, name: string, owner: string)

  datatype OwnerRef = OwnerRef(group: string, kind: string, name: string, uid: string, controller: bool)

  datatype Secret = Secret(
    owners: seq<OwnerRef>, owner: string,
    accessKey: Option<AccessKey>, accessSecret: Option<AccessSecret>,
    endpoint: string, names: seq<string>)

  datatype SecretRef = SecretRef(namespace: string, name: string)

  /** spec.principalRef: a user, a service account (None if the identity is blank), or any other kind. */
  datatype PrincipalRef = UserRef(subject: string) | AccountRef(account: Option<Id>) | OtherRef(kind: string)

  datatype Spec = Spec(
    bucketRefs: seq<string>, writeSecretTo: Option<SecretRef>, principalRef: Option<PrincipalRef>,
    serviceAccountName: string, preset: string, permissions: seq<string>)

  /** The conditions are given by the last call that set them, as for buckets. */
  datatype Status = Status(
    account: Option<Id>, principal: Option<Arn>, cred: Option<Id>, accessKey: Option<AccessKey>,
    permissions: seq<string>, granted: seq<string>, secret: Option<SecretRef>, conditions: C.Call)

  /** What this controller reads of a Bucket resource. */
  datatype BucketView = BucketView(bucketName: string, hasResourceId: bool, ready: bool, endpoint: string)

  /** The IAM service: accounts in listing order, the live credentials with the account of each,
      the next fresh identity, and the organisation's members. */
  datatype Iam = Iam(accounts: seq<Account>, creds: map<Id, Id>, nextId: nat, members: set<string>)

  /** What the managed stage writes: IAM, Secrets, and the persisted status. */
  datatype Ledger = Ledger(iam: Iam, secrets: map<SecretRef, Secret>, status: Status)

  datatype World = World(
    ledger: Ledger, buckets: map<string, Record>, views: map<string, BucketView>,
    spec: Spec, rotate: bool, finalizer: bool)

  /** The fate of every call one pass can make, by call site.  A refused write of the Secret can in
      addition be refused with "not found": its namespace is missing, or the Secret was deleted after
      the pass had looked it up. */
  datatype Fates = Fates(
    views: seq<Fate>, waiting: Fate, progress: Fate, error: Fate,
    getAccount: Fate, listAccounts: Fate, createAccount: Fate, accountStatus: Fate,
    readSecret: Fate, listCreds: Fate, deleteLost: Fate, createCred: Fate, deleteOld: Fate,
    credStatus: Fate, rollback: Fate,
    getSecret: Fate, rereadSecret: Fate, putSecret: Fate, putMissing: bool, secretStatus: Fate,
    getPrincipal: Fate, getBucket: seq<Fate>, putBucket: seq<Fate>,
    clearRotation: Fate, last: Fate)

  // ---------- Ways to go on ----------

  datatype Pass = Pass(w: World, end: Ending)

  function Persisted(l: Ledger, st: Status, f: Fate): Ledger {
    if f.Applied() then l.(status := st) else l
  }

  function Standing(st: Status, state: C.State, reason: string): Status {
    st.(conditions := C.Call(state, reason, ""))
  }

  function Stopped(f: Fate): Ending {
    if f.Cuts() then Interrupted else Errored
  }

  /** What a pass grants to, and whether the credential was rotated. */
  datatype Grantee = Grantee(arn: Arn, rotated: bool)

  /** After a stage: the ledger, the in-memory status, and the stage's answer. */
  datatype Stage = Stage(ledger: Ledger, obj: Status, reply: Reply<Grantee>)

  /** setErrorCondition, as the end of a stage. */
  function FailStage(l: Ledger, obj: Status, f: Fates): Stage {
    var st := Standing(obj, C.Degraded, "Failed");
    Stage(Persisted(l, st, f.error), st, if f.error.Cuts() then Cut else Err)
  }

  /** setErrorCondition drops an error that says "not found": the stage then answers without an error
      and with nothing else, so that the pass goes on with an empty principal. */
  function AbsorbMissing(l: Ledger, obj: Status, f: Fates): Stage {
    var s := FailStage(l, obj, f);
    if f.error.Answered? then s.(reply := Ok(Grantee(OtherArn(""), false))) else s
  }

  /** setErrorCondition, as the end of the pass. */
  function FailPass(w: World, obj: Status, f: Fates): Pass {
    Pass(w.(ledger := Persisted(w.ledger, Standing(obj, C.Degraded, "Failed"), f.error)), Stopped(f.error))
  }

  /** The same for an error that says "not found": the pass is put off. */
  function PutOff(w: World, obj: Status, f: Fates): Pass {
    var p := FailPass(w, obj, f);
    if f.error.Answered? then p.(end := Waiting) else p
  }

  // ---------- Service accounts ----------

  function OwnerLabel(a: Access): string {
    a.namespace + "." + a.name
  }

  predicate Owns(a: Access, account: Account) {
    account.owner == OwnerLabel(a)
  }

  function AccountName(a: Access, spec: Spec): string {
    if spec.serviceAccountName != "" then spec.serviceAccountName else a.namespace + "-" + a.name
  }

  function FindAccount(accounts: seq<Account>, id: Id): Option<Account> {
    if |accounts| == 0 then None
    else if accounts[0].id == id then Some(accounts[0])
    else FindAccount(accounts[1..], id)
  }

  predicate OwnsId(a: Access, accounts: seq<Account>, id: Id) {
    FindAccount(accounts, id).Some? && Owns(a, FindAccount(accounts, id).value)
  }

  /** The first owned account, of any name or of the given one. */
  function FirstOwned(a: Access, accounts: seq<Account>, name: Option<string>): Option<Id> {
    if |accounts| == 0 then None
    else if Owns(a, accounts[0]) && (name.Some? ==> accounts[0].name == name.value) then Some(accounts[0].id)
    else FirstOwned(a, accounts[1..], name)
  }

  /** An exact name match wins; otherwise the first owned account. */
  function PickOwned(a: Access, accounts: seq<Account>, name: string): Option<Id> {
    var exact := FirstOwned(a, accounts, Some(name));
    if exact.Some? then exact else FirstOwned(a, accounts, None)
  }

  function WithNewAccount(a: Access, iam: Iam, name: string): Iam {
    iam.(accounts := iam.accounts + [Account(iam.nextId, name, OwnerLabel(a))], nextId := iam.nextId + 1)
  }

  function EnsureAccount(a: Access, iam: Iam, name: string, tracked: Option<Id>, f: Fates): (Iam, Reply<Id>) {
    if tracked.Some? && !f.getAccount.Answered? then (iam, f.getAccount.Failure())
    else if tracked.Some? && OwnsId(a, iam.accounts, tracked.value) then (iam, Ok(tracked.value))
    else if !f.listAccounts.Answered? then (iam, f.listAccounts.Failure())
    else
      match PickOwned(a, iam.accounts, name)
      case Some(id) => (iam, Ok(id))
      case None =>
        (if f.createAccount.Applied() then WithNewAccount(a, iam, name) else iam,
         if f.createAccount.Answered? then Ok(iam.nextId) else f.createAccount.Failure())
  }

  // ---------- Credentials ----------

  datatype Issue = Issue(accessKey: AccessKey, accessSecret: AccessSecret, cred: Id, rotated: bool)

  function IssueOf(cred: Id, rotated: bool): Issue {
    Issue(AccessKey(cred), AccessSecret(cred), cred, rotated)
  }

  /** The namespace a Secret reference leads to; crossing namespaces must be allowed. */
  function SecretTarget(a: Access, spec: Spec): Option<SecretRef> {
    match spec.writeSecretTo
    case None => None
    case Some(r) =>
      if r.namespace == "" || r.namespace == a.namespace then Some(SecretRef(a.namespace, r.name))
      else if a.crossNamespace then Some(r)
      else None
  }

  function Material(secrets: map<SecretRef, Secret>, at: SecretRef): Option<(AccessKey, AccessSecret)> {
    if at in secrets && secrets[at].accessKey.Some? && secrets[at].accessSecret.Some? then
      Some((secrets[at].accessKey.value, secrets[at].accessSecret.value))
    else None
  }

  predicate LiveOn(iam: Iam, account: Id, cred: Id) {
    cred in iam.creds && iam.creds[cred] == account
  }

  function DropCred(iam: Iam, account: Id, cred: Id, f: Fate): Iam {
    if f.Applied() && LiveOn(iam, account, cred) then iam.(creds := iam.creds - {cred}) else iam
  }

  function Minted(iam: Iam, account: Id, f: Fate): Iam {
    if f.Applied() then iam.(creds := iam.creds[iam.nextId := account], nextId := iam.nextId + 1) else iam
  }

  /** Create a credential; on success delete the one it supersedes, as far as that works. */
  function Mint(iam: Iam, account: Id, prior: Option<Id>, rotate: bool, f: Fates): (Iam, Reply<Issue>) {
    var cred := iam.nextId;
    var iam1 := Minted(iam, account, f.createCred);
    if !f.createCred.Answered? then (iam1, f.createCred.Failure())
    else if prior.Some? && prior.value != cred then
      (DropCred(iam1, account, prior.value, f.deleteOld),
       if f.deleteOld.Cuts() then Cut else Ok(IssueOf(cred, true)))
    else (iam1, Ok(IssueOf(cred, rotate || prior.Some?)))
  }

  /** What the credential stage leaves in memory and in IAM, and its answer. */
  datatype Credentialed = Credentialed(iam: Iam, obj: Status, reply: Reply<Issue>)

  /** Delete a tracked credential whose secret is gone before minting; after minting otherwise. */
  function Replace(iam: Iam, obj: Status, account: Id, secretOk: bool, rotate: bool, f: Fates): Credentialed {
    if obj.cred.Some? && !secretOk then
      var iam1 := DropCred(iam, account, obj.cred.value, f.deleteLost);
      if !f.deleteLost.Answered? then Credentialed(iam1, obj, f.deleteLost.Failure())
      else
        var (iam2, r) := Mint(iam1, account, None, rotate, f);
        Credentialed(iam2, obj.(cred := None, accessKey := None), r)
    else
      var (iam1, r) := Mint(iam, account, obj.cred, rotate, f);
      Credentialed(iam1, obj, r)
  }

  /** Reuse what the Secret holds, or find its credential again by access key, or replace it.
      Any error reading the Secret counts as missing material. */
  function EnsureCredential(iam: Iam, obj: Status, account: Id, stored: Option<(AccessKey, AccessSecret)>, rotate: bool, f: Fates)
    : Credentialed
  {
    var seen := if f.readSecret.Answered? then stored else None;
    if f.readSecret.Cuts() then Credentialed(iam, obj, Cut)
    else if rotate || seen.None? then Replace(iam, obj, account, seen.Some?, rotate, f)
    else
      var (key, secret) := seen.value;
      if obj.cred.Some? then Credentialed(iam, obj, Ok(Issue(key, secret, obj.cred.value, false)))
      else if f.listCreds.Cuts() then Credentialed(iam, obj, Cut)
      else if f.listCreds.Answered? && LiveOn(iam, account, key.cred) then
        Credentialed(iam, obj, Ok(Issue(key, secret, key.cred, false)))
      else Replace(iam, obj, account, true, rotate, f)
  }

  // ---------- The Secret ----------

  const API_GROUP := "objectstorage.controllers.thalassa.cloud"
  const API_KIND := "BucketAccess"

  function OwnRef(a: Access): OwnerRef {
    OwnerRef(API_GROUP, API_KIND, a.name, a.uid, true)
  }

  predicate IsOwnRef(a: Access, r: OwnerRef) {
    r.uid == a.uid && r.kind == API_KIND && r.controller
  }

  predicate SecretOwned(a: Access, s: Secret) {
    || (exists i | 0 <= i < |s.owners| :: IsOwnRef(a, s.owners[i]))
    || s.owner == OwnerLabel(a)
  }

  /** When setting the controller reference, references count as the same object by group, kind and name. */
  predicate SameObject(a: Access, r: OwnerRef) {
    r.group == API_GROUP && r.kind == API_KIND && r.name == a.name
  }

  /** The first controller reference names another object. */
  predicate ControlledByOther(a: Access, owners: seq<OwnerRef>) {
    if |owners| == 0 then false
    else if owners[0].controller then !SameObject(a, owners[0])
    else ControlledByOther(a, owners[1..])
  }

  /** Overwrite the first reference to this resource, or append one. */
  function WithController(a: Access, owners: seq<OwnerRef>): seq<OwnerRef> {
    if |owners| == 0 then [OwnRef(a)]
    else if SameObject(a, owners[0]) then [OwnRef(a)] + owners[1..]
    else [owners[0]] + WithController(a, owners[1..])
  }

  const NEW_SECRET := Secret([], "", None, None, "", [])

  /** The Secret after the write: material, buckets, and a mark of ownership, which across
      namespaces is a label.  Setting the controller fails if the Secret has another one. */
  function Stamped(a: Access, at: SecretRef, s: Secret, issue: Issue, names: seq<string>, endpoint: string): Option<Secret> {
    var filled := s.(accessKey := Some(issue.accessKey), accessSecret := Some(issue.accessSecret), endpoint := endpoint,
                     names := if |names| > 0 then names else s.names);
    if at.namespace != a.namespace then Some(filled.(owner := OwnerLabel(a)))
    else if ControlledByOther(a, s.owners) then None
    else Some(filled.(owners := WithController(a, s.owners)))
  }

  datatype WriteReply = Written | NotFound | NotWritten | WriteCut

  /** What comes back from a write that failed, but not with "not found". */
  function WriteFailure(f: Fate): WriteReply {
    if f.Cuts() then WriteCut else NotWritten
  }

  predicate PutMissing(f: Fates) {
    f.putSecret.Refused? && f.putMissing
  }

  /** A write that is refused with "not found" finds no Secret, so there is none any more. */
  function WriteSecret(a: Access, secrets: map<SecretRef, Secret>, at: SecretRef, issue: Issue,
                       names: seq<string>, endpoint: string, f: Fates): (map<SecretRef, Secret>, WriteReply)
  {
    if !f.getSecret.Answered? then (secrets, WriteFailure(f.getSecret))
    else if at in secrets && !SecretOwned(a, secrets[at]) then (secrets, NotWritten)
    else if !f.rereadSecret.Answered? then (secrets, WriteFailure(f.rereadSecret))
    else
      var s := Stamped(a, at, if at in secrets then secrets[at] else NEW_SECRET, issue, names, endpoint);
      if s.None? then (secrets, NotWritten)
      else if PutMissing(f) then (secrets - {at}, NotFound)
      else (if f.putSecret.Applied() then secrets[at := s.value] else secrets,
            if f.putSecret.Answered? then Written else WriteFailure(f.putSecret))
  }

  // ---------- Managed mode ----------

  /** A bucket as the pass resolved it. */
  datatype Target = Target(name: string, endpoint: string)

  function NamesOf(ts: seq<Target>): seq<string> {
    seq(|ts|, i requires 0 <= i < |ts| => ts[i].name)
  }

  function FirstEndpoint(ts: seq<Target>): string {
    if |ts| > 0 then ts[0].endpoint else ""
  }

  /** From a new or reused credential to the persisted Secret. */
  function Deliver(a: Access, at: SecretRef, l: Ledger, obj: Status, issue: Issue, arn: Arn, ts: seq<Target>, f: Fates): Stage {
    var (secrets, r) := WriteSecret(a, l.secrets, at, issue, NamesOf(ts), FirstEndpoint(ts), f);
    var l1 := l.(secrets := secrets);
    if r.WriteCut? then Stage(l1, obj, Cut)
    else if r.NotWritten? then FailStage(l1, obj, f)
    else if r.NotFound? then AbsorbMissing(l1, obj, f)
    else
      var obj1 := obj.(secret := Some(at));
      Stage(Persisted(l1, obj1, f.secretStatus), obj1,
            if f.secretStatus.Answered? then Ok(Grantee(arn, issue.rotated)) else f.secretStatus.Failure())
  }

  /** Persist which credential is in use; if that fails, take a new one back. */
  function RecordCredential(a: Access, at: SecretRef, l: Ledger, obj: Status, prev: Option<Id>, account: Id, issue: Issue,
                            arn: Arn, ts: seq<Target>, f: Fates): Stage
  {
    var obj1 := obj.(cred := Some(issue.cred), accessKey := Some(issue.accessKey));
    var l1 := Persisted(l, obj1, f.credStatus);
    if f.credStatus.Answered? then Deliver(a, at, l1, obj1, issue, arn, ts, f)
    else if f.credStatus.Cuts() then Stage(l1, obj1, Cut)
    else if prev == Some(issue.cred) then Stage(l1, obj1, Err)
    else Stage(l1.(iam := DropCred(l1.iam, account, issue.cred, f.rollback)), obj1, if f.rollback.Cuts() then Cut else Err)
  }

  /** The account is on record: see to its credential. */
  function WithCredential(a: Access, at: SecretRef, rotate: bool, l: Ledger, obj: Status, account: Id, arn: Arn,
                          ts: seq<Target>, f: Fates): Stage
  {
    var c := EnsureCredential(l.iam, obj, account, Material(l.secrets, at), rotate, f);
    var l1 := l.(iam := c.iam);
    if c.reply.Cut? then Stage(l1, c.obj, Cut)
    else if c.reply.Err? then FailStage(l1, c.obj, f)
    else RecordCredential(a, at, l1, c.obj, obj.cred, account, c.reply.value, arn, ts, f)
  }

  /** The account is known: persist it, then see to the credential, unless the Secret reference
      crosses namespaces and must not. */
  function WithAccount(a: Access, target: Option<SecretRef>, rotate: bool, l: Ledger, obj: Status, account: Id,
                       ts: seq<Target>, f: Fates): Stage
  {
    var arn := ServiceAccountArn(a.organisation, account);
    var obj1 := obj.(account := Some(account), principal := Some(arn));
    var l1 := Persisted(l, obj1, f.accountStatus);
    if !f.accountStatus.Answered? then Stage(l1, obj1, f.accountStatus.Failure())
    else if target.None? then FailStage(l1, obj1, f)
    else WithCredential(a, target.value, rotate, l1, obj1, account, arn, ts, f)
  }

  function EnsureManaged(a: Access, spec: Spec, rotate: bool, l: Ledger, obj: Status, ts: seq<Target>, f: Fates): Stage {
    if spec.writeSecretTo.None? || spec.writeSecretTo.value.name == "" then FailStage(l, obj, f)
    else
      var (iam, r) := EnsureAccount(a, l.iam, AccountName(a, spec), obj.account, f);
      var l1 := l.(iam := iam);
      if r.Cut? then Stage(l1, obj, Cut)
      else if r.Err? then FailStage(l1, obj, f)
      else WithAccount(a, SecretTarget(a, spec), rotate, l1, obj, r.value, ts, f)
  }

  // ---------- External mode ----------

  function ResolvePrincipal(a: Access, iam: Iam, p: PrincipalRef, f: Fate): Reply<(Arn, Option<Id>)> {
    match p
    case UserRef(subject) =>
      if Trim(subject) == "" || Trim(a.organisation) == "" then Err
      else if !f.Answered? then f.Failure()
      else if Trim(subject) in iam.members then Ok((UserArn(Trim(a.organisation), Trim(subject)), None))
      else Err
    case AccountRef(account) =>
      if account.None? || Trim(a.organisation) == "" then Err
      else if !f.Answered? then f.Failure()
      else if FindAccount(iam.accounts, account.value).Some? then
        Ok((ServiceAccountArn(Trim(a.organisation), account.value), account))
      else Err
    case OtherRef(_) => Err
  }

  function UseExternal(a: Access, l: Ledger, obj: Status, p: PrincipalRef, f: Fates): Stage {
    var r := ResolvePrincipal(a, l.iam, p, f.getPrincipal);
    if r.Cut? then Stage(l, obj, Cut)
    else if r.Err? then FailStage(l, obj, f)
    else
      var (arn, id) := r.value;
      Stage(l, obj.(account := id, cred := None, accessKey := None, secret := None, principal := Some(arn)),
            Ok(Grantee(arn, false)))
  }

  // ---------- Buckets ----------

  datatype Resolved = Targets(ts: seq<Target>) | NotReady | BadRef | MissingRef | ResolveCut

  function ResolveFrom(refs: seq<string>, views: map<string, BucketView>, f: Fates, i: nat, out: seq<Target>): Resolved
    decreases |refs| - i
  {
    if i >= |refs| then Targets(out)
    else if refs[i] == "" then BadRef
    else if At(f.views, i).Cuts() then ResolveCut
    else if !At(f.views, i).Answered? then BadRef
    else if refs[i] !in views then MissingRef
    else
      var v := views[refs[i]];
      if v.bucketName == "" || !v.hasResourceId || !v.ready then NotReady
      else ResolveFrom(refs, views, f, i + 1, out + [Target(v.bucketName, v.endpoint)])
  }

  ghost function GrantOn(buckets: map<string, Record>, name: string, stmt: Statement, get: Fate, put: Fate)
    : (map<string, Record>, Reply<()>)
  {
    if !get.Answered? then (buckets, get.Failure())
    else if name !in buckets then (buckets, Err)
    else
      (if put.Applied() then buckets[name := buckets[name].(policy := Upsert(buckets[name].policy, stmt))] else buckets,
       if put.Answered? then Ok(()) else put.Failure())
  }

  /** The statement that grants the actions on one bucket; everything in it but the bucket is
      common to all buckets of a pass. */
  datatype Grant = Grant(sid: string, arn: Arn, actions: seq<string>) {
    function On(name: string): Statement {
      GrantStatement(sid, arn, name, actions)
    }
  }

  /** Grant on the buckets from the i-th on, stopping at the first failure. */
  ghost function GrantFrom(buckets: map<string, Record>, ts: seq<Target>, g: Grant, f: Fates, i: nat)
    : (map<string, Record>, Reply<()>)
    decreases |ts| - i
  {
    if i >= |ts| then (buckets, Ok(()))
    else
      var (buckets1, r) := GrantOn(buckets, ts[i].name, g.On(ts[i].name), At(f.getBucket, i), At(f.putBucket, i));
      if r.Ok? then GrantFrom(buckets1, ts, g, f, i + 1) else (buckets1, r)
  }

  // ---------- The pass ----------

  /** Everything is granted: clear the rotation request and report. */
  function Conclude(w: World, obj: Status, ts: seq<Target>, rotated: bool, f: Fates): Pass {
    var clears := rotated && w.rotate;
    var w1 := if clears && f.clearRotation.Applied() then w.(rotate := false) else w;
    if clears && !f.clearRotation.Answered? then Pass(w1, Stopped(f.clearRotation))
    else
      var st := Standing(obj.(granted := NamesOf(ts)), C.Available, "Ready");
      Pass(w1.(ledger := Persisted(w1.ledger, st, f.last)), if f.last.Answered? then Completed else Stopped(f.last))
  }

  ghost function GrantAll(w: World, obj: Status, g: Grant, rotated: bool, ts: seq<Target>, f: Fates): Pass {
    var (buckets, r) := GrantFrom(w.buckets, ts, g, f, 0);
    var w1 := w.(buckets := buckets);
    if r.Cut? then Pass(w1, Interrupted)
    else if r.Err? then FailPass(w1, obj, f)
    else Conclude(w1, obj, ts, rotated, f)
  }

  /** Find whom to grant to: the managed account or the external principal. */
  function Prepare(a: Access, w: World, l: Ledger, obj: Status, ts: seq<Target>, f: Fates): Stage {
    if w.spec.principalRef.None? then EnsureManaged(a, w.spec, w.rotate, l, obj, ts, f)
    else UseExternal(a, l, obj, w.spec.principalRef.value, f)
  }

  /** The status of a pass that has begun. */
  function Begun(st: Status): Status {
    Standing(st, C.Progressing, "Reconciling")
  }

  /** The buckets are resolved: find whom to grant to, then grant. */
  ghost function WithTargets(a: Access, w: World, ts: seq<Target>, sid: string, wanted: P.Resolution, f: Fates): Pass {
    var obj := Begun(w.ledger.status);
    var l := Persisted(w.ledger, obj, f.progress);
    if !f.progress.Answered? then Pass(w.(ledger := l), Stopped(f.progress))
    else if !wanted.Granted? then FailPass(w.(ledger := l), obj, f)
    else
      var s := Prepare(a, w, l, obj.(permissions := wanted.actions), ts, f);
      var w1 := w.(ledger := s.ledger);
      if s.reply.Ok? then GrantAll(w1, s.obj, Grant(sid, s.reply.value.arn, wanted.actions), s.reply.value.rotated, ts, f)
      else Pass(w1, if s.reply.Cut? then Interrupted else Errored)
  }

  ghost function ReconcileAs(a: Access, w: World, sid: string, wanted: P.Resolution, f: Fates): Pass {
    var st := w.ledger.status;
    if Trim(a.organisation) == "" then FailPass(w, st, f)
    else
      match ResolveFrom(w.spec.bucketRefs, w.views, f, 0, [])
      case ResolveCut => Pass(w, Interrupted)
      case NotReady =>
        Pass(w.(ledger := Persisted(w.ledger, Standing(st, C.Progressing, "WaitingForBucket"), f.waiting)),
             if f.waiting.Cuts() then Interrupted else Waiting)
      case BadRef => FailPass(w, st, f)
      case MissingRef => PutOff(w, st, f)
      case Targets(ts) =>
        if w.spec.principalRef.Some? && w.rotate then FailPass(w, st, f)
        else WithTargets(a, w, ts, sid, wanted, f)
  }

  function SidOf(a: Access): string {
    ManagedSid(a.namespace, a.name)
  }

  ghost function Reconcile(a: Access, w: World, f: Fates): Pass {
    ReconcileAs(a, w, SidOf(a), P.Resolve(w.spec.preset, w.spec.permissions), f)
  }

  // ---------- Deletion ----------

  datatype TeardownFates = TeardownFates(
    getGranted: seq<Fate>, putGranted: seq<Fate>,
    views: seq<Fate>, getRef: seq<Fate>, putRef: seq<Fate>,
    getAccount: Fate, deleteCred: Fate, deleteAccount: Fate, finalizer: Fate)

  ghost function RevokeOn(buckets: map<string, Record>, name: string, sid: string, get: Fate, put: Fate)
    : (map<string, Record>, Reply<()>)
  {
    if !get.Answered? then (buckets, get.Failure())
    else if name !in buckets then (buckets, Ok(()))
    else
      (if put.Applied() then buckets[name := buckets[name].(policy := Remove(buckets[name].policy, sid))] else buckets,
       if put.Answered? then Ok(()) else put.Failure())
  }

  /** Revoke on the recorded buckets, stopping at the first failure. */
  ghost function RevokeGranted(buckets: map<string, Record>, names: seq<string>, sid: string, f: TeardownFates, i: nat)
    : (map<string, Record>, Reply<()>)
    decreases |names| - i
  {
    if i >= |names| then (buckets, Ok(()))
    else
      var (buckets1, r) := RevokeOn(buckets, names[i], sid, At(f.getGranted, i), At(f.putGranted, i));
      if r.Ok? then RevokeGranted(buckets1, names, sid, f, i + 1) else (buckets1, r)
  }

  /** Try the referenced buckets too, whatever errors come back; only a cut stops this. */
  ghost function RevokeRefs(buckets: map<string, Record>, refs: seq<string>, views: map<string, BucketView>, sid: string, f: TeardownFates, i: nat)
    : (map<string, Record>, Reply<()>)
    decreases |refs| - i
  {
    if i >= |refs| then (buckets, Ok(()))
    else if At(f.views, i).Cuts() then (buckets, Cut)
    else if !At(f.views, i).Answered? || refs[i] !in views || views[refs[i]].bucketName == "" then
      RevokeRefs(buckets, refs, views, sid, f, i + 1)
    else
      var (buckets1, r) := RevokeOn(buckets, views[refs[i]].bucketName, sid, At(f.getRef, i), At(f.putRef, i));
      if r.Cut? then (buckets1, Cut) else RevokeRefs(buckets1, refs, views, sid, f, i + 1)
  }

  function WithoutAccount(accounts: seq<Account>, id: Id): seq<Account> {
    if |accounts| == 0 then []
    else if accounts[0].id == id then WithoutAccount(accounts[1..], id)
    else [accounts[0]] + WithoutAccount(accounts[1..], id)
  }

  /** In managed mode, and only for an account that carries the ownership label. */
  function DeleteIam(a: Access, iam: Iam, managed: bool, st: Status, f: TeardownFates): (Iam, Reply<()>) {
    if !managed || st.account.None? then (iam, Ok(()))
    else if !f.getAccount.Answered? then (iam, f.getAccount.Failure())
    else
      var id := st.account.value;
      if !OwnsId(a, iam.accounts, id) then (iam, Ok(()))
      else
        var iam1 := if st.cred.Some? then DropCred(iam, id, st.cred.value, f.deleteCred) else iam;
        if st.cred.Some? && !f.deleteCred.Answered? then (iam1, f.deleteCred.Failure())
        else (if f.deleteAccount.Applied() then iam1.(accounts := WithoutAccount(iam1.accounts, id)) else iam1,
              if f.deleteAccount.Answered? then Ok(()) else f.deleteAccount.Failure())
  }

  ghost function TerminateAs(a: Access, w: World, sid: string, f: TeardownFates): World {
    if !w.finalizer then w
    else
      var (buckets1, r1) := RevokeGranted(w.buckets, w.ledger.status.granted, sid, f, 0);
      if !r1.Ok? then w.(buckets := buckets1)
      else
        var (buckets2, r2) := RevokeRefs(buckets1, w.spec.bucketRefs, w.views, sid, f, 0);
        if !r2.Ok? then w.(buckets := buckets2)
        else
          var (iam, r3) := DeleteIam(a, w.ledger.iam, w.spec.principalRef.None?, w.ledger.status, f);
          w.(buckets := buckets2, ledger := w.ledger.(iam := iam), finalizer := !(r3.Ok? && f.finalizer.Applied()))
  }

  ghost function Terminate(a: Access, w: World, f: TeardownFates): World {
    TerminateAs(a, w, SidOf(a), f)
  }
}
