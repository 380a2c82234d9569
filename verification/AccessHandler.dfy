/** The BucketAccess handler as the program runs it: handlers update the in-memory status, the
    annotation, and the remote IAM, policy and Secret state step by step. */
module AccessHandler {
  import opened Text
  import opened Faults
  import opened Policy
  import opened BucketUpdate
  import opened AccessModel
  import C = Conditions
  import P = Permissions

  /** The reply to ListServiceAccounts with a filter on the ownership label. */
  function Listed(a: Access, accounts: seq<Account>): seq<Account> {
    if |accounts| == 0 then []
    else if Owns(a, accounts[0]) then [accounts[0]] + Listed(a, accounts[1..])
    else Listed(a, accounts[1..])
  }

  lemma {:induction false} ListedKeepsFirst(a: Access, accounts: seq<Account>, name: Option<string>)
    ensures FirstOwned(a, Listed(a, accounts), name) == FirstOwned(a, accounts, name)
  {
    if |accounts| > 0 {
      ListedKeepsFirst(a, accounts[1..], name);
    }
  }

  method PickOwnedServiceAccountId(a: Access, accounts: seq<Account>, name: string) returns (r: Option<Id>)
    ensures r == PickOwned(a, accounts, name)
  {
    var fallback: Option<Id> := None;
    for i := 0 to |accounts|
      invariant FirstOwned(a, accounts, Some(name)) == FirstOwned(a, accounts[i..], Some(name))
      invariant FirstOwned(a, accounts, None) == if fallback.Some? then fallback else FirstOwned(a, accounts[i..], None)
    {
      assert accounts[i..][1..] == accounts[i + 1..];
      if !Owns(a, accounts[i]) {
        continue;
      }
      if accounts[i].name == name {
        return Some(accounts[i].id);
      }
      if fallback.None? {
        fallback := Some(accounts[i].id);
      }
    }
    return fallback;
  }

  method SecretOwnedBy(a: Access, s: Secret) returns (owned: bool)
    ensures owned <==> SecretOwned(a, s)
    ensures owned <==> s.owner == a.namespace + "." + a.name || exists i | 0 <= i < |s.owners| ::
        s.owners[i].uid == a.uid && s.owners[i].kind == "BucketAccess" && s.owners[i].controller
  {
    for i := 0 to |s.owners|
      invariant forall j | 0 <= j < i :: !IsOwnRef(a, s.owners[j])
    {
      var ref := s.owners[i];
      if ref.uid == a.uid && ref.kind == API_KIND && ref.controller {
        return true;
      }
    }
    return s.owner == OwnerLabel(a);
  }

  class Handler {
    const access: Access

    // IAM and the object store.
    var accounts: seq<Account>
    var creds: map<Id, Id>
    var nextId: nat
    var members: set<string>
    var buckets: map<string, Record>

    // The API server.
    var secrets: map<SecretRef, Secret>
    var views: map<string, BucketView>
    var spec: Spec
    var status: Status
    var rotate: bool
    var finalizer: bool

    // The copy of the status this pass works on.
    var obj: Status

    constructor (access: Access, w: World)
      ensures this.access == access && Now() == w && obj == w.ledger.status
    {
      this.access := access;
      accounts, creds, nextId, members, buckets := w.ledger.iam.accounts, w.ledger.iam.creds, w.ledger.iam.nextId, w.ledger.iam.members, w.buckets;
      secrets, views, spec, status := w.ledger.secrets, w.views, w.spec, w.ledger.status;
      rotate, finalizer, obj := w.rotate, w.finalizer, w.ledger.status;
    }

    ghost function Now(): World
      reads this
    {
      World(Book(), buckets, views, spec, rotate, finalizer)
    }

    ghost function Book(): Ledger
      reads this
    {
      Ledger(Directory(), secrets, status)
    }

    ghost function Directory(): Iam
      reads this
    {
      Iam(accounts, creds, nextId, members)
    }

    // ---------- Status ----------

    method UpdateStatus(f: Fate) returns (r: Reply<()>)
      modifies this`status
      ensures Book() == Persisted(old(Book()), obj, f)
      ensures r == if f.Answered? then Ok(()) else f.Failure()
    {
      if f.Applied() {
        status := obj;
      }
      r := if f.Answered? then Ok(()) else f.Failure();
    }

    /** An error that says "not found" is dropped, once the status is written. */
    method SetErrorCondition(missing: bool, f: Fates) returns (end: Ending)
      modifies this`status, this`obj
      ensures var p := if missing then PutOff(old(Now()), old(obj), f) else FailPass(old(Now()), old(obj), f);
        Now() == p.w && end == p.end
      ensures obj == Standing(old(obj), C.Degraded, "Failed")
    {
      obj := Standing(obj, C.Degraded, "Failed");
      var r := UpdateStatus(f.error);
      if !r.Ok? {
        return if r.Cut? then Interrupted else Errored;
      }
      end := if missing then Waiting else Errored;
    }

    method FailManaged(f: Fates) returns (r: Reply<Grantee>)
      modifies this`status, this`obj
      ensures Stage(Book(), obj, r) == FailStage(old(Book()), old(obj), f)
    {
      var end := SetErrorCondition(false, f);
      r := if end.Interrupted? then Cut else Err;
    }

    /** The caller returns the dropped error with empty results. */
    method FailMissing(f: Fates) returns (r: Reply<Grantee>)
      modifies this`status, this`obj
      ensures Stage(Book(), obj, r) == AbsorbMissing(old(Book()), old(obj), f)
    {
      var end := SetErrorCondition(true, f);
      r := if end.Waiting? then Ok(Grantee(OtherArn(""), false)) else if end.Interrupted? then Cut else Err;
    }

    // ---------- Service accounts ----------

    method EnsureServiceAccount(f: Fates) returns (r: Reply<Id>)
      modifies this`accounts, this`nextId
      ensures (Directory(), r) == EnsureAccount(access, old(Directory()), AccountName(access, spec), obj.account, f)
    {
      if obj.account.Some? {
        if !f.getAccount.Answered? {
          return f.getAccount.Failure();
        }
        var sa := FindAccount(accounts, obj.account.value);
        if sa.Some? && Owns(access, sa.value) {
          return Ok(obj.account.value);
        }
      }
      var name := AccountName(access, spec);
      if !f.listAccounts.Answered? {
        return f.listAccounts.Failure();
      }
      var listed := Listed(access, accounts);
      var existing := PickOwnedServiceAccountId(access, listed, name);
      ListedKeepsFirst(access, accounts, Some(name));
      ListedKeepsFirst(access, accounts, None);
      if existing.Some? {
        return Ok(existing.value);
      }
      var id := nextId;
      if f.createAccount.Applied() {
        accounts := accounts + [Account(id, name, OwnerLabel(access))];
        nextId := nextId + 1;
      }
      r := if f.createAccount.Answered? then Ok(id) else f.createAccount.Failure();
    }

    // ---------- Credentials ----------

    method DeleteCredential(account: Id, cred: Id, f: Fate)
      modifies this`creds
      ensures Directory() == DropCred(old(Directory()), account, cred, f)
    {
      if f.Applied() && cred in creds && creds[cred] == account {
        creds := creds - {cred};
      }
    }

    /** Search the account's credentials for the one with this access key. */
    method FindByAccessKey(account: Id, key: AccessKey) returns (r: Option<Id>)
      ensures r == if LiveOn(Directory(), account, key.cred) then Some(key.cred) else None
    {
      var rest := set c | c in creds && creds[c] == account;
      while rest != {}
        invariant rest <= set c | c in creds && creds[c] == account
        invariant LiveOn(Directory(), account, key.cred) ==> key.cred in rest
      {
        var c :| c in rest;
        if AccessKey(c) == key {
          return Some(c);
        }
        rest := rest - {c};
      }
      return None;
    }

    method EnsureAccessCredential(account: Id, at: SecretRef, f: Fates) returns (r: Reply<Issue>)
      modifies this`creds, this`nextId, this`obj
      ensures Credentialed(Directory(), obj, r) ==
          EnsureCredential(old(Directory()), old(obj), account, Material(secrets, at), rotate, f)
    {
      if f.readSecret.Cuts() {
        return Cut;
      }
      var existing := if f.readSecret.Answered? then Material(secrets, at) else None;
      var secretOk := existing.Some?;
      var oldCred := obj.cred;
      if !rotate && secretOk {
        if oldCred.Some? {
          return Ok(Issue(existing.value.0, existing.value.1, oldCred.value, false));
        }
        if f.listCreds.Cuts() {
          return Cut;
        }
        if f.listCreds.Answered? {
          var found := FindByAccessKey(account, existing.value.0);
          if found.Some? {
            return Ok(Issue(existing.value.0, existing.value.1, found.value, false));
          }
        }
      }
      if oldCred.Some? && !secretOk {
        DeleteCredential(account, oldCred.value, f.deleteLost);
        if !f.deleteLost.Answered? {
          return f.deleteLost.Failure();
        }
        obj := obj.(cred := None, accessKey := None);
        oldCred := None;
      }
      var created := nextId;
      if f.createCred.Applied() {
        creds := creds[created := account];
        nextId := nextId + 1;
      }
      if !f.createCred.Answered? {
        return f.createCred.Failure();
      }
      if oldCred.Some? && oldCred.value != created {
        DeleteCredential(account, oldCred.value, f.deleteOld);
        if f.deleteOld.Cuts() {
          return Cut;
        }
      }
      return Ok(Issue(AccessKey(created), AccessSecret(created), created, rotate || oldCred.Some?));
    }

    // ---------- The Secret ----------

    method WriteCredentials(at: SecretRef, issue: Issue, ts: seq<Target>, f: Fates) returns (r: WriteReply)
      modifies this`secrets
      ensures (secrets, r) == WriteSecret(access, old(secrets), at, issue, NamesOf(ts), FirstEndpoint(ts), f)
    {
      var names: seq<string> := [];
      var endpoint := "";
      for i := 0 to |ts|
        invariant names == NamesOf(ts)[..i]
        invariant endpoint == if i > 0 then ts[0].endpoint else ""
      {
        names := names + [ts[i].name];
        if i == 0 {
          endpoint := ts[i].endpoint;
        }
      }
      assert names == NamesOf(ts);
      if !f.getSecret.Answered? {
        return WriteFailure(f.getSecret);
      }
      var secret := NEW_SECRET;
      if at in secrets {
        var owned := SecretOwnedBy(access, secrets[at]);
        if !owned {
          return NotWritten;
        }
        secret := secrets[at];
      }
      if !f.rereadSecret.Answered? {
        return WriteFailure(f.rereadSecret);
      }
      ghost var before := secret;
      secret := secret.(accessKey := Some(issue.accessKey));
      secret := secret.(accessSecret := Some(issue.accessSecret));
      secret := secret.(endpoint := endpoint);
      if |names| > 0 {
        secret := secret.(names := names);
      }
      if at.namespace == access.namespace {
        if ControlledByOther(access, secret.owners) {
          return NotWritten;
        }
        secret := secret.(owners := WithController(access, secret.owners));
      } else {
        secret := secret.(owner := OwnerLabel(access));
      }
      assert Some(secret) == Stamped(access, at, before, issue, names, endpoint);
      if PutMissing(f) {
        secrets := secrets - {at};
        return NotFound;
      }
      if f.putSecret.Applied() {
        secrets := secrets[at := secret];
      }
      r := if f.putSecret.Answered? then Written else WriteFailure(f.putSecret);
    }

    // ---------- Managed mode ----------

    method DeliverCredential(at: SecretRef, issue: Issue, arn: Arn, ts: seq<Target>, f: Fates) returns (r: Reply<Grantee>)
      modifies this`secrets, this`status, this`obj
      ensures Stage(Book(), obj, r) == Deliver(access, at, old(Book()), old(obj), issue, arn, ts, f)
    {
      var written := WriteCredentials(at, issue, ts, f);
      if written.WriteCut? {
        return Cut;
      }
      if written.NotWritten? {
        r := FailManaged(f);
        return;
      }
      if written.NotFound? {
        r := FailMissing(f);
        return;
      }
      obj := obj.(secret := Some(at));
      var stored := UpdateStatus(f.secretStatus);
      if !stored.Ok? {
        return f.secretStatus.Failure();
      }
      return Ok(Grantee(arn, issue.rotated));
    }

    method RecordAndDeliver(at: SecretRef, prev: Option<Id>, account: Id, issue: Issue, arn: Arn, ts: seq<Target>, f: Fates)
      returns (r: Reply<Grantee>)
      modifies this`creds, this`secrets, this`status, this`obj
      ensures Stage(Book(), obj, r) == RecordCredential(access, at, old(Book()), old(obj), prev, account, issue, arn, ts, f)
    {
      obj := obj.(cred := Some(issue.cred), accessKey := Some(issue.accessKey));
      var stored := UpdateStatus(f.credStatus);
      if stored.Cut? {
        return Cut;
      }
      if stored.Err? {
        if prev != Some(issue.cred) {
          DeleteCredential(account, issue.cred, f.rollback);
          if f.rollback.Cuts() {
            return Cut;
          }
        }
        return Err;
      }
      r := DeliverCredential(at, issue, arn, ts, f);
    }

    method EnsureManagedCredentials(ts: seq<Target>, f: Fates) returns (r: Reply<Grantee>)
      modifies this`accounts, this`nextId, this`creds, this`secrets, this`status, this`obj
      ensures Stage(Book(), obj, r) == EnsureManaged(access, spec, rotate, old(Book()), old(obj), ts, f)
    {
      if spec.writeSecretTo.None? || spec.writeSecretTo.value.name == "" {
        r := FailManaged(f);
        return;
      }
      var account := EnsureServiceAccount(f);
      if account.Cut? {
        return Cut;
      }
      if account.Err? {
        r := FailManaged(f);
        return;
      }
      obj := obj.(account := Some(account.value));
      var arn := ServiceAccountArn(access.organisation, account.value);
      obj := obj.(principal := Some(arn));
      var stored := UpdateStatus(f.accountStatus);
      if !stored.Ok? {
        return f.accountStatus.Failure();
      }
      var at := SecretTarget(access, spec);
      if at.None? {
        r := FailManaged(f);
        return;
      }
      var prev := obj.cred;
      var issue := EnsureAccessCredential(account.value, at.value, f);
      if issue.Cut? {
        return Cut;
      }
      if issue.Err? {
        r := FailManaged(f);
        return;
      }
      r := RecordAndDeliver(at.value, prev, account.value, issue.value, arn, ts, f);
    }

    method ResolveExternalPrincipal(p: PrincipalRef, f: Fate) returns (r: Reply<(Arn, Option<Id>)>)
      ensures r == ResolvePrincipal(access, Directory(), p, f)
    {
      var org := Trim(access.organisation);
      match p
      case UserRef(subject) =>
        if Trim(subject) == "" || org == "" {
          return Err;
        }
        if !f.Answered? {
          return f.Failure();
        }
        if Trim(subject) !in members {
          return Err;
        }
        return Ok((UserArn(org, Trim(subject)), None));
      case AccountRef(account) =>
        if account.None? || org == "" {
          return Err;
        }
        if !f.Answered? {
          return f.Failure();
        }
        var sa := FindAccount(accounts, account.value);
        if sa.None? {
          return Err;
        }
        return Ok((ServiceAccountArn(org, account.value), account));
      case OtherRef(_) =>
        return Err;
    }

    method GrantExternal(p: PrincipalRef, f: Fates) returns (r: Reply<Grantee>)
      modifies this`status, this`obj
      ensures Stage(Book(), obj, r) == UseExternal(access, old(Book()), old(obj), p, f)
    {
      var resolved := ResolveExternalPrincipal(p, f.getPrincipal);
      if resolved.Cut? {
        return Cut;
      }
      if resolved.Err? {
        r := FailManaged(f);
        return;
      }
      obj := obj.(account := resolved.value.1);
      obj := obj.(cred := None, accessKey := None, secret := None);
      obj := obj.(principal := Some(resolved.value.0));
      return Ok(Grantee(resolved.value.0, false));
    }

    // ---------- Buckets ----------

    method ResolveBuckets(f: Fates) returns (r: Resolved)
      ensures r == ResolveFrom(spec.bucketRefs, views, f, 0, [])
    {
      var out: seq<Target> := [];
      for i := 0 to |spec.bucketRefs|
        invariant ResolveFrom(spec.bucketRefs, views, f, 0, []) == ResolveFrom(spec.bucketRefs, views, f, i, out)
      {
        var ref := spec.bucketRefs[i];
        if ref == "" {
          return BadRef;
        }
        if At(f.views, i).Cuts() {
          return ResolveCut;
        }
        if !At(f.views, i).Answered? {
          return BadRef;
        }
        if ref !in views {
          return MissingRef;
        }
        var v := views[ref];
        if v.bucketName == "" || !v.hasResourceId {
          return NotReady;
        }
        if !v.ready {
          return NotReady;
        }
        out := out + [Target(v.bucketName, v.endpoint)];
      }
      return Targets(out);
    }

    method EnsureBucketGrant(name: string, sid: string, arn: Arn, actions: seq<string>, get: Fate, put: Fate)
      returns (r: Reply<()>)
      modifies this`buckets
      ensures (buckets, r) == GrantOn(old(buckets), name, Grant(sid, arn, actions).On(name), get, put)
    {
      if !get.Answered? {
        return get.Failure();
      }
      if name !in buckets {
        return Err;
      }
      var policy := UpsertManagedStatement(buckets[name].policy, sid, arn, name, actions);
      if put.Applied() {
        buckets := buckets[name := buckets[name].(policy := policy)];
      }
      r := if put.Answered? then Ok(()) else put.Failure();
    }

    method GrantBuckets(ts: seq<Target>, sid: string, arn: Arn, actions: seq<string>, f: Fates)
      returns (r: Reply<seq<string>>)
      modifies this`buckets
      ensures buckets == GrantFrom(old(buckets), ts, Grant(sid, arn, actions), f, 0).0
      ensures r == match GrantFrom(old(buckets), ts, Grant(sid, arn, actions), f, 0).1
        case Ok(_) => Ok(NamesOf(ts))
        case Err => Err
        case Cut => Cut
    {
      var granted: seq<string> := [];
      for i := 0 to |ts|
        invariant GrantFrom(old(buckets), ts, Grant(sid, arn, actions), f, 0) == GrantFrom(buckets, ts, Grant(sid, arn, actions), f, i)
        invariant granted == NamesOf(ts)[..i]
      {
        var one := EnsureBucketGrant(ts[i].name, sid, arn, actions, At(f.getBucket, i), At(f.putBucket, i));
        if one.Cut? {
          return Cut;
        }
        if one.Err? {
          return Err;
        }
        granted := granted + [ts[i].name];
      }
      assert granted == NamesOf(ts);
      return Ok(granted);
    }

    // ---------- The pass ----------

    method ClearRotateAnnotation(f: Fate) returns (r: Reply<()>)
      modifies this`rotate
      ensures rotate == (old(rotate) && !f.Applied())
      ensures r == if !old(rotate) || f.Answered? then Ok(()) else f.Failure()
    {
      if !rotate {
        return Ok(());
      }
      if f.Applied() {
        rotate := false;
      }
      r := if f.Answered? then Ok(()) else f.Failure();
    }

    method ConcludePass(granted: seq<string>, ts: seq<Target>, rotated: bool, f: Fates) returns (end: Ending)
      requires granted == NamesOf(ts)
      modifies this`status, this`obj, this`rotate
      ensures Pass(Now(), end) == Conclude(old(Now()), old(obj), ts, rotated, f)
    {
      obj := obj.(granted := granted);
      if rotated {
        var cleared := ClearRotateAnnotation(f.clearRotation);
        if !cleared.Ok? {
          return if cleared.Cut? then Interrupted else Errored;
        }
      }
      obj := Standing(obj, C.Available, "Ready");
      var stored := UpdateStatus(f.last);
      end := if stored.Ok? then Completed else if stored.Cut? then Interrupted else Errored;
    }

    method GrantAndConclude(g: Grantee, sid: string, actions: seq<string>, ts: seq<Target>, f: Fates) returns (end: Ending)
      modifies this`buckets, this`status, this`obj, this`rotate
      ensures Pass(Now(), end) == GrantAll(old(Now()), old(obj), Grant(sid, g.arn, actions), g.rotated, ts, f)
    {
      var granted := GrantBuckets(ts, sid, g.arn, actions, f);
      if granted.Cut? {
        return Interrupted;
      }
      if granted.Err? {
        end := SetErrorCondition(false, f);
        return;
      }
      end := ConcludePass(granted.value, ts, g.rotated, f);
    }

    method PrepareAndGrant(ts: seq<Target>, sid: string, wanted: P.Resolution, f: Fates) returns (end: Ending)
      requires obj == status
      modifies this
      ensures Pass(Now(), end) == WithTargets(access, old(Now()), ts, sid, wanted, f)
    {
      hide EnsureManaged, UseExternal, GrantAll;
      obj := Begun(obj);
      var stored := UpdateStatus(f.progress);
      if !stored.Ok? {
        return if stored.Cut? then Interrupted else Errored;
      }
      if !wanted.Granted? {
        end := SetErrorCondition(false, f);
        return;
      }
      obj := obj.(permissions := wanted.actions);
      var g: Reply<Grantee>;
      if spec.principalRef.None? {
        g := EnsureManagedCredentials(ts, f);
      } else {
        g := GrantExternal(spec.principalRef.value, f);
      }
      if !g.Ok? {
        return if g.Cut? then Interrupted else Errored;
      }
      end := GrantAndConclude(g.value, sid, wanted.actions, ts, f);
    }

    method ReconcileResolved(sid: string, wanted: P.Resolution, f: Fates) returns (end: Ending)
      modifies this
      ensures Pass(Now(), end) == ReconcileAs(access, old(Now()), sid, wanted, f)
    {
      obj := status;
      if Trim(access.organisation) == "" {
        end := SetErrorCondition(false, f);
        return;
      }
      var resolved := ResolveBuckets(f);
      if resolved.ResolveCut? {
        return Interrupted;
      }
      if resolved.NotReady? {
        obj := Standing(obj, C.Progressing, "WaitingForBucket");
        var stored := UpdateStatus(f.waiting);
        return if stored.Cut? then Interrupted else Waiting;
      }
      if resolved.BadRef? || resolved.MissingRef? {
        end := SetErrorCondition(resolved.MissingRef?, f);
        return;
      }
      if spec.principalRef.Some? && rotate {
        end := SetErrorCondition(false, f);
        return;
      }
      end := PrepareAndGrant(resolved.ts, sid, wanted, f);
    }

    method ReconcileOnce(f: Fates) returns (end: Ending)
      modifies this
      ensures Pass(Now(), end) == Reconcile(access, old(Now()), f)
    {
      var wanted := P.ResolvePermissions(spec.preset, spec.permissions);
      end := ReconcileResolved(SidOf(access), wanted, f);
    }

    // ---------- Deletion ----------

    method RemoveBucketGrant(name: string, sid: string, get: Fate, put: Fate) returns (r: Reply<()>)
      modifies this`buckets
      ensures (buckets, r) == RevokeOn(old(buckets), name, sid, get, put)
    {
      if !get.Answered? {
        return get.Failure();
      }
      if name !in buckets {
        return Ok(());
      }
      var policy := RemoveManagedStatement(buckets[name].policy, sid);
      if put.Applied() {
        buckets := buckets[name := buckets[name].(policy := policy)];
      }
      r := if put.Answered? then Ok(()) else put.Failure();
    }

    method DeleteManagedIam(f: TeardownFates) returns (r: Reply<()>)
      modifies this`creds, this`accounts
      ensures (Directory(), r) == DeleteIam(access, old(Directory()), spec.principalRef.None?, status, f)
    {
      if spec.principalRef.Some? || status.account.None? {
        return Ok(());
      }
      if !f.getAccount.Answered? {
        return f.getAccount.Failure();
      }
      var id := status.account.value;
      var sa := FindAccount(accounts, id);
      if sa.None? || !Owns(access, sa.value) {
        return Ok(());
      }
      if status.cred.Some? {
        DeleteCredential(id, status.cred.value, f.deleteCred);
        if !f.deleteCred.Answered? {
          return f.deleteCred.Failure();
        }
      }
      if f.deleteAccount.Applied() {
        accounts := WithoutAccount(accounts, id);
      }
      r := if f.deleteAccount.Answered? then Ok(()) else f.deleteAccount.Failure();
    }

    method TerminateWith(sid: string, f: TeardownFates)
      modifies this
      ensures Now() == TerminateAs(access, old(Now()), sid, f)
    {
      if !finalizer {
        return;
      }
      for i := 0 to |status.granted|
        invariant Now() == old(Now()).(buckets := buckets)
        invariant RevokeGranted(old(buckets), status.granted, sid, f, 0) == RevokeGranted(buckets, status.granted, sid, f, i)
      {
        var r := RemoveBucketGrant(status.granted[i], sid, At(f.getGranted, i), At(f.putGranted, i));
        if !r.Ok? {
          return;
        }
      }
      ghost var revoked := buckets;
      for i := 0 to |spec.bucketRefs|
        invariant Now() == old(Now()).(buckets := buckets)
        invariant RevokeRefs(revoked, spec.bucketRefs, views, sid, f, 0) == RevokeRefs(buckets, spec.bucketRefs, views, sid, f, i)
      {
        if At(f.views, i).Cuts() {
          return;
        }
        if !At(f.views, i).Answered? || spec.bucketRefs[i] !in views {
          continue;
        }
        var v := views[spec.bucketRefs[i]];
        if v.bucketName != "" {
          var r := RemoveBucketGrant(v.bucketName, sid, At(f.getRef, i), At(f.putRef, i));
          if r.Cut? {
            return;
          }
        }
      }
      var deleted := DeleteManagedIam(f);
      if deleted.Ok? && f.finalizer.Applied() {
        finalizer := false;
      }
    }

    method Teardown(f: TeardownFates)
      modifies this
      ensures Now() == Terminate(access, old(Now()), f)
    {
      TerminateWith(SidOf(access), f);
    }
  }
}
