/** What a completed managed pass leaves in the status and in the Secret, from any state at all. */
module AccessReport {
  import opened Text
  import opened Policy
  import opened AccessModel
  import opened AccessSafety
  import opened AccessAgreement
  import opened AccessExternal
  import opened AccessGrants
  import opened AccessSecrets
  import AccessRevocation
  import C = Conditions
  import P = Permissions

  /** The Secret is owned and holds the access key on record, the given buckets and endpoint. */
  ghost predicate HoldsReport(a: Access, at: SecretRef, secrets: map<SecretRef, Secret>, key: Option<AccessKey>, names: seq<string>, endpoint: string) {
    && at in secrets && key.Some?
    && secrets[at].accessKey == key && secrets[at].accessSecret.Some?
    && SecretOwned(a, secrets[at])
    && secrets[at].endpoint == endpoint && (|names| > 0 ==> secrets[at].names == names)
  }

  lemma WriteSecretWrites(a: Access, secrets: map<SecretRef, Secret>, at: SecretRef, issue: Issue, names: seq<string>, endpoint: string, f: Fates)
    ensures var (s, r) := WriteSecret(a, secrets, at, issue, names, endpoint, f);
      && (r.Written? ==> !PutMissing(f) && HoldsReport(a, at, s, Some(issue.accessKey), names, endpoint))
      && (r.Written? && names == [] ==> s[at].names == if at in secrets then secrets[at].names else [])
      && (r.NotFound? ==> PutMissing(f) && at !in s)
      && (forall k | k != at :: k in s <==> k in secrets)
      && (forall k | k != at && k in secrets :: s[k] == secrets[k])
  {
    hide SecretOwned, ControlledByOther, WithController;
    var before := if at in secrets then secrets[at] else NEW_SECRET;
    StampedIsOurs(a, at, before, issue, names, endpoint);
  }

  /** The status names this account, its principal, and a credential. */
  ghost predicate Named(a: Access, obj: Status, account: Id, permissions: seq<string>) {
    && obj.account == Some(account) && obj.principal == Some(ServiceAccountArn(a.organisation, account))
    && obj.cred.Some? && obj.permissions == permissions
  }

  /** What the managed stage owes when it succeeds: status, Secret and grantee tell the same story;
      unless the Secret could not be written because it is not there. */
  ghost predicate Told(a: Access, at: SecretRef, s: Stage, account: Id, permissions: seq<string>, ts: seq<Target>, f: Fates) {
    && s.reply.Ok? && Named(a, s.obj, account, permissions)
    && (if PutMissing(f) then Lapsed(at, s) else
          && Some(s.reply.value.arn) == s.obj.principal && s.obj.secret == Some(at)
          && HoldsReport(a, at, s.ledger.secrets, s.obj.accessKey, NamesOf(ts), FirstEndpoint(ts)))
  }

  lemma DeliverTells(a: Access, at: SecretRef, l: Ledger, obj: Status, issue: Issue, account: Id, ts: seq<Target>, f: Fates)
    requires Named(a, obj, account, obj.permissions) && obj.accessKey == Some(issue.accessKey)
    ensures var s := Deliver(a, at, l, obj, issue, ServiceAccountArn(a.organisation, account), ts, f);
      s.reply.Ok? ==> Told(a, at, s, account, obj.permissions, ts, f)
  {
    hide WriteSecret, HoldsReport, NamesOf, FirstEndpoint;
    WriteSecretWrites(a, l.secrets, at, issue, NamesOf(ts), FirstEndpoint(ts), f);
    var s := Deliver(a, at, l, obj, issue, ServiceAccountArn(a.organisation, account), ts, f);
    if s.reply.Ok? {
      assert s.ledger.secrets == WriteSecret(a, l.secrets, at, issue, NamesOf(ts), FirstEndpoint(ts), f).0;
    }
  }

  lemma RecordTells(a: Access, at: SecretRef, l: Ledger, obj: Status, prev: Option<Id>, account: Id, issue: Issue, ts: seq<Target>, f: Fates)
    requires obj.account == Some(account) && obj.principal == Some(ServiceAccountArn(a.organisation, account))
    ensures var s := RecordCredential(a, at, l, obj, prev, account, issue, ServiceAccountArn(a.organisation, account), ts, f);
      s.reply.Ok? ==> Told(a, at, s, account, obj.permissions, ts, f)
  {
    hide Deliver, Told, DropCred;
    var obj1 := obj.(cred := Some(issue.cred), accessKey := Some(issue.accessKey));
    DeliverTells(a, at, Persisted(l, obj1, f.credStatus), obj1, issue, account, ts, f);
  }

  lemma CredentialStageKeeps(iam: Iam, obj: Status, account: Id, stored: Option<(AccessKey, AccessSecret)>, rotate: bool, f: Fates)
    ensures var r := EnsureCredential(iam, obj, account, stored, rotate, f).obj;
      r.account == obj.account && r.principal == obj.principal && r.permissions == obj.permissions
  {
    hide Mint, DropCred;
  }

  lemma WithCredentialTells(a: Access, at: SecretRef, rotate: bool, l: Ledger, obj: Status, account: Id, ts: seq<Target>, f: Fates)
    requires obj.account == Some(account) && obj.principal == Some(ServiceAccountArn(a.organisation, account))
    ensures var s := WithCredential(a, at, rotate, l, obj, account, ServiceAccountArn(a.organisation, account), ts, f);
      s.reply.Ok? ==> Told(a, at, s, account, obj.permissions, ts, f)
  {
    hide EnsureCredential, RecordCredential, Told, Material;
    CredentialStageKeeps(l.iam, obj, account, Material(l.secrets, at), rotate, f);
    var c := EnsureCredential(l.iam, obj, account, Material(l.secrets, at), rotate, f);
    if c.reply.Ok? {
      RecordTells(a, at, l.(iam := c.iam), c.obj, obj.cred, account, c.reply.value, ts, f);
    }
  }

  lemma EnsureManagedTells(a: Access, spec: Spec, rotate: bool, l: Ledger, obj: Status, ts: seq<Target>, f: Fates)
    ensures var s := EnsureManaged(a, spec, rotate, l, obj, ts, f);
      s.reply.Ok? ==>
        && SecretTarget(a, spec).Some? && s.obj.account.Some?
        && Told(a, SecretTarget(a, spec).value, s, s.obj.account.value, obj.permissions, ts, f)
  {
    hide EnsureAccount, WithCredential, SecretTarget, AccountName, HoldsReport;
    var at := SecretTarget(a, spec);
    var (iam, r) := EnsureAccount(a, l.iam, AccountName(a, spec), obj.account, f);
    if r.Ok? && at.Some? {
      var obj1 := obj.(account := Some(r.value), principal := Some(ServiceAccountArn(a.organisation, r.value)));
      WithCredentialTells(a, at.value, rotate, Persisted(l.(iam := iam), obj1, f.accountStatus), obj1, r.value, ts, f);
    }
  }

  lemma NamedSecret(a: Access, spec: Spec, rotate: bool, l: Ledger, obj: Status, ts: seq<Target>, f: Fates)
    requires EnsureManaged(a, spec, rotate, l, obj, ts, f).reply.Ok?
    ensures spec.writeSecretTo.Some? && spec.writeSecretTo.value.name != ""
  {
    hide EnsureAccount, WithAccount;
  }

  lemma CompletedStatus(w: World, obj: Status, g: Grant, rotated: bool, ts: seq<Target>, f: Fates)
    requires GrantAll(w, obj, g, rotated, ts, f).end.Completed?
    ensures var r := GrantAll(w, obj, g, rotated, ts, f).w;
      && r.ledger.secrets == w.ledger.secrets
      && r.ledger.status == Standing(obj.(granted := NamesOf(ts)), C.Available, "Ready")
  {
    hide GrantFrom, NamesOf;
  }

  function RefNames(w: World): seq<string>
    requires forall i | 0 <= i < |w.spec.bucketRefs| :: w.spec.bucketRefs[i] in w.views
  {
    seq(|w.spec.bucketRefs|, i requires 0 <= i < |w.spec.bucketRefs| => w.views[w.spec.bucketRefs[i]].bucketName)
  }

  /** A completed managed pass names in its status the account and its principal, the actions, and
      the buckets of the references in order.  The Secret is then owned and holds the access key on
      record, the same buckets, and the endpoint of the first, exactly if its write was not refused
      with "not found"; otherwise there is no Secret. */
  lemma CompletedPassReports(a: Access, w: World, f: Fates)
    requires w.spec.principalRef.None? && Reconcile(a, w, f).end.Completed?
    ensures var r, at := Reconcile(a, w, f).w, SecretTarget(a, w.spec);
      var st := r.ledger.status;
      && P.Resolve(w.spec.preset, w.spec.permissions) == P.Granted(st.permissions)
      && (forall i | 0 <= i < |w.spec.bucketRefs| ::
            w.spec.bucketRefs[i] in w.views && w.views[w.spec.bucketRefs[i]].bucketName != "")
      && st.granted == RefNames(w)
      && st.account.Some? && st.principal == Some(ServiceAccountArn(a.organisation, st.account.value))
      && at.Some? && AsksFor(a, w.spec, at.value) && st.cred.Some?
      && (if PutMissing(f) then at.value !in r.ledger.secrets else
            && st.secret == at
            && HoldsReport(a, at.value, r.ledger.secrets, st.accessKey, st.granted,
                           if |w.spec.bucketRefs| > 0 then w.views[w.spec.bucketRefs[0]].endpoint else ""))
  {
    hide ReconcileAs, WithTargets, ResolveFrom, EnsureManaged, GrantAll, P.Resolve, SidOf, SecretTarget, HoldsReport, AsksFor;
    var sid, wanted := SidOf(a), P.Resolve(w.spec.preset, w.spec.permissions);
    ReconcileShape(a, w, sid, wanted, f);
    NoTargetsYet(w.spec.bucketRefs, w.views);
    ResolveFromFacts(w.spec.bucketRefs, w.views, f, 0, []);
    var ts := ResolveFrom(w.spec.bucketRefs, w.views, f, 0, []).ts;
    WithTargetsShape(a, w, ts, sid, wanted, f);
    var obj := Begun(w.ledger.status);
    EnsureManagedTells(a, w.spec, w.rotate, Persisted(w.ledger, obj, f.progress), obj.(permissions := wanted.actions), ts, f);
    var s := Prepared(a, w, ts, wanted, f);
    AskedForExactly(a, w.spec, SecretTarget(a, w.spec).value);
    NamedSecret(a, w.spec, w.rotate, Persisted(w.ledger, obj, f.progress), obj.(permissions := wanted.actions), ts, f);
    CompletedStatus(w.(ledger := s.ledger), s.obj, Grant(sid, s.reply.value.arn, wanted.actions), s.reply.value.rotated, ts, f);
    assert NamesOf(ts) == RefNames(w);
  }

  lemma CompletedPassAvailable(a: Access, w: World, f: Fates)
    requires Reconcile(a, w, f).end.Completed?
    ensures Reconcile(a, w, f).w.ledger.status.conditions.state.Available?
  {
    hide ReconcileAs, WithTargets, ResolveFrom, Prepared, GrantAll, P.Resolve, SidOf;
    var sid, wanted := SidOf(a), P.Resolve(w.spec.preset, w.spec.permissions);
    ReconcileShape(a, w, sid, wanted, f);
    var ts := ResolveFrom(w.spec.bucketRefs, w.views, f, 0, []).ts;
    WithTargetsShape(a, w, ts, sid, wanted, f);
    var s := Prepared(a, w, ts, wanted, f);
    CompletedStatus(w.(ledger := s.ledger), s.obj, Grant(sid, s.reply.value.arn, wanted.actions), s.reply.value.rotated, ts, f);
  }

  // ---------- Ready is earned ----------

  ghost predicate Modest(st: Status) {
    !st.conditions.state.Available?
  }

  lemma DeliverModest(a: Access, at: SecretRef, l: Ledger, obj: Status, issue: Issue, arn: Arn, ts: seq<Target>, f: Fates)
    requires Modest(l.status) && Modest(obj)
    ensures Modest(Deliver(a, at, l, obj, issue, arn, ts, f).ledger.status)
  {
    hide WriteSecret;
  }

  lemma WithCredentialModest(a: Access, at: SecretRef, rotate: bool, l: Ledger, obj: Status, account: Id, arn: Arn, ts: seq<Target>, f: Fates)
    requires Modest(l.status) && Modest(obj)
    ensures Modest(WithCredential(a, at, rotate, l, obj, account, arn, ts, f).ledger.status)
  {
    hide EnsureCredential, Deliver, Material, DropCred;
    var c := EnsureCredential(l.iam, obj, account, Material(l.secrets, at), rotate, f);
    assert Modest(c.obj) by {
      CredentialStageModest(l.iam, obj, account, Material(l.secrets, at), rotate, f);
    }
    if c.reply.Ok? {
      var obj1 := c.obj.(cred := Some(c.reply.value.cred), accessKey := Some(c.reply.value.accessKey));
      DeliverModest(a, at, Persisted(l.(iam := c.iam), obj1, f.credStatus), obj1, c.reply.value, arn, ts, f);
    }
  }

  lemma CredentialStageModest(iam: Iam, obj: Status, account: Id, stored: Option<(AccessKey, AccessSecret)>, rotate: bool, f: Fates)
    requires Modest(obj)
    ensures Modest(EnsureCredential(iam, obj, account, stored, rotate, f).obj)
  {
    hide Mint, DropCred;
  }

  lemma EnsureManagedModest(a: Access, spec: Spec, rotate: bool, l: Ledger, obj: Status, ts: seq<Target>, f: Fates)
    requires Modest(l.status) && Modest(obj)
    ensures Modest(EnsureManaged(a, spec, rotate, l, obj, ts, f).ledger.status)
  {
    hide EnsureAccount, WithCredential, SecretTarget, AccountName;
    var at := SecretTarget(a, spec);
    var (iam, r) := EnsureAccount(a, l.iam, AccountName(a, spec), obj.account, f);
    if r.Ok? && at.Some? {
      var arn := ServiceAccountArn(a.organisation, r.value);
      var obj1 := obj.(account := Some(r.value), principal := Some(arn));
      WithCredentialModest(a, at.value, rotate, Persisted(l.(iam := iam), obj1, f.accountStatus), obj1, r.value, arn, ts, f);
    }
  }

  lemma PreparedModest(a: Access, w: World, ts: seq<Target>, wanted: P.Resolution, f: Fates)
    requires wanted.Granted? && f.progress.Answered?
    ensures Modest(Prepared(a, w, ts, wanted, f).ledger.status)
  {
    hide EnsureManaged, ResolvePrincipal;
    var obj := Begun(w.ledger.status);
    EnsureManagedModest(a, w.spec, w.rotate, Persisted(w.ledger, obj, f.progress), obj.(permissions := wanted.actions), ts, f);
  }

  /** Every referenced bucket grants this principal the actions on record. */
  ghost predicate GrantsTo(w: World, sid: string, arn: Arn) {
    forall i | 0 <= i < |w.spec.bucketRefs| ::
      && w.spec.bucketRefs[i] in w.views
      && GrantedOn(w.buckets, w.views[w.spec.bucketRefs[i]].bucketName, Grant(sid, arn, w.ledger.status.permissions))
  }

  /** They grant the principal on record, exactly if no write of the managed Secret was refused with
      "not found"; otherwise they grant the empty principal. */
  ghost predicate GrantsOnRecord(w: World, sid: string, lapsed: bool) {
    && w.ledger.status.principal.Some?
    && GrantsTo(w, sid, if lapsed then OtherArn("") else w.ledger.status.principal.value)
  }

  predicate Lapses(spec: Spec, f: Fates) {
    spec.principalRef.None? && PutMissing(f)
  }

  lemma PreparedNames(a: Access, w: World, ts: seq<Target>, wanted: P.Resolution, f: Fates)
    requires wanted.Granted?
    ensures var s := Prepared(a, w, ts, wanted, f);
      s.reply.Ok? ==>
        && s.obj.principal.Some? && s.obj.permissions == wanted.actions
        && s.reply.value.arn == if Lapses(w.spec, f) then OtherArn("") else s.obj.principal.value
  {
    hide EnsureManaged, UseExternal, HoldsReport;
    if w.spec.principalRef.None? {
      var obj := Begun(w.ledger.status);
      EnsureManagedTells(a, w.spec, w.rotate, Persisted(w.ledger, obj, f.progress), obj.(permissions := wanted.actions), ts, f);
    } else {
      PreparedExternal(a, w, ts, wanted, f);
    }
  }

  lemma GrantAllEarns(w: World, obj: Status, g: Grant, rotated: bool, ts: seq<Target>, f: Fates)
    requires Modest(w.ledger.status) && obj.permissions == g.actions
    requires TargetsOf(w.spec.bucketRefs, w.views, ts)
    ensures var r := GrantAll(w, obj, g, rotated, ts, f).w;
      Modest(r.ledger.status) || (r.ledger.status.principal == obj.principal && GrantsTo(r, g.sid, g.arn))
  {
    hide GrantFrom, NamesOf, GrantedOn, OnlySid;
    GrantFromFacts(w.buckets, ts, g, f, 0);
    var r := GrantAll(w, obj, g, rotated, ts, f).w;
    if !Modest(r.ledger.status) {
      assert GrantFrom(w.buckets, ts, g, f, 0).1.Ok? && r.buckets == GrantFrom(w.buckets, ts, g, f, 0).0;
      assert r.ledger.status.permissions == g.actions && Grant(g.sid, g.arn, r.ledger.status.permissions) == g;
      forall i | 0 <= i < |w.spec.bucketRefs|
        ensures GrantedOn(r.buckets, w.views[w.spec.bucketRefs[i]].bucketName, g)
      {
        assert GrantedOn(r.buckets, ts[i].name, g);
      }
    }
  }

  /** Whatever fails or is cut, in either mode: a pass that writes Ready has granted every referenced
      bucket, with the actions that the status names, to the principal that the status names, or to
      the empty one, exactly as the write of the managed Secret was not, or was, refused with "not
      found". */
  lemma ReadyIsEarned(a: Access, w: World, f: Fates)
    ensures var r := Reconcile(a, w, f).w;
      r.ledger.status == w.ledger.status || Modest(r.ledger.status) || GrantsOnRecord(r, SidOf(a), Lapses(w.spec, f))
  {
    hide WithTargets, ResolveFrom, P.Resolve, SidOf, Trim, GrantsOnRecord, TargetsOf, Lapses;
    var sid, wanted := SidOf(a), P.Resolve(w.spec.preset, w.spec.permissions);
    assert TargetsOf(w.spec.bucketRefs[..0], w.views, []) by {
      NoTargetsYet(w.spec.bucketRefs, w.views);
    }
    ResolveFromFacts(w.spec.bucketRefs, w.views, f, 0, []);
    var resolved := ResolveFrom(w.spec.bucketRefs, w.views, f, 0, []);
    if resolved.Targets? {
      TargetsEarn(a, w, resolved.ts, sid, wanted, f);
    }
  }

  /** Every completed pass, from any state, in either mode: every referenced bucket grants the principal
      that the status names, exactly if no write of the managed Secret was refused with "not found";
      otherwise the empty one, and a rotation request stays pending. */
  lemma CompletedPassGrants(a: Access, w: World, f: Fates)
    requires Reconcile(a, w, f).end.Completed?
    ensures var r := Reconcile(a, w, f).w;
      && P.Resolve(w.spec.preset, w.spec.permissions) == P.Granted(r.ledger.status.permissions)
      && GrantsOnRecord(r, SidOf(a), Lapses(w.spec, f))
      && (Lapses(w.spec, f) ==> r.rotate == w.rotate)
  {
    hide ReconcileAs, WithTargets, ResolveFrom, Prepare, GrantAll, GrantFrom, P.Resolve, SidOf, GrantedOn, OnlySid, Lapses;
    var sid, wanted := SidOf(a), P.Resolve(w.spec.preset, w.spec.permissions);
    ReconcileShape(a, w, sid, wanted, f);
    NoTargetsYet(w.spec.bucketRefs, w.views);
    ResolveFromFacts(w.spec.bucketRefs, w.views, f, 0, []);
    var ts := ResolveFrom(w.spec.bucketRefs, w.views, f, 0, []).ts;
    WithTargetsShape(a, w, ts, sid, wanted, f);
    PreparedNames(a, w, ts, wanted, f);
    LapsedKeepsRequest(a, w, ts, wanted, f);
    var s := Prepared(a, w, ts, wanted, f);
    var g := Grant(sid, s.reply.value.arn, wanted.actions);
    CompletedGrants(w.(ledger := s.ledger), s.obj, g, s.reply.value.rotated, ts, f);
    CompletedStatus(w.(ledger := s.ledger), s.obj, g, s.reply.value.rotated, ts, f);
    GrantFromFacts(w.buckets, ts, g, f, 0);
    var r := Reconcile(a, w, f).w;
    forall i | 0 <= i < |w.spec.bucketRefs|
      ensures GrantedOn(r.buckets, w.views[w.spec.bucketRefs[i]].bucketName, g)
    {
      assert GrantedOn(r.buckets, ts[i].name, g);
    }
    var st := r.ledger.status;
    assert st.principal == s.obj.principal && st.permissions == wanted.actions;
    assert g == Grant(sid, if Lapses(w.spec, f) then OtherArn("") else st.principal.value, st.permissions);
    assert r.spec == w.spec && r.views == w.views by {
      AccessRevocation.PassWrites(a, w, sid, wanted, f);
    }
  }

  lemma LapsedKeepsRequest(a: Access, w: World, ts: seq<Target>, wanted: P.Resolution, f: Fates)
    requires wanted.Granted?
    ensures var s := Prepared(a, w, ts, wanted, f);
      s.reply.Ok? && Lapses(w.spec, f) ==> !s.reply.value.rotated
  {
    hide EnsureManaged, UseExternal, HoldsReport;
    if w.spec.principalRef.None? {
      var obj := Begun(w.ledger.status);
      EnsureManagedTells(a, w.spec, w.rotate, Persisted(w.ledger, obj, f.progress), obj.(permissions := wanted.actions), ts, f);
    }
  }

  lemma TargetsEarn(a: Access, w: World, ts: seq<Target>, sid: string, wanted: P.Resolution, f: Fates)
    requires TargetsOf(w.spec.bucketRefs, w.views, ts)
    ensures var r := WithTargets(a, w, ts, sid, wanted, f).w;
      r.ledger.status == w.ledger.status || Modest(r.ledger.status) || GrantsOnRecord(r, sid, Lapses(w.spec, f))
  {
    hide Prepare, GrantAll, TargetsOf, GrantsTo, Lapses;
    if wanted.Granted? && f.progress.Answered? {
      PreparedModest(a, w, ts, wanted, f);
      PreparedNames(a, w, ts, wanted, f);
      var s := Prepared(a, w, ts, wanted, f);
      if s.reply.Ok? {
        GrantAllEarns(w.(ledger := s.ledger), s.obj, Grant(sid, s.reply.value.arn, wanted.actions), s.reply.value.rotated, ts, f);
      }
    }
  }
}
