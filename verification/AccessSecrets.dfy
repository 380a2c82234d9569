/** Which Secret a pass can touch. */
module AccessSecrets {
  import opened Text
  import opened Policy
  import opened AccessModel
  import opened AccessSafety
  import P = Permissions

  /** The Secret that the resource asks for: in its own namespace unless the manager allows another. */
  ghost predicate AsksFor(a: Access, spec: Spec, at: SecretRef) {
    && spec.writeSecretTo.Some? && at.name == spec.writeSecretTo.value.name != ""
    && at.namespace == (if spec.writeSecretTo.value.namespace == "" then a.namespace else spec.writeSecretTo.value.namespace)
    && (at.namespace == a.namespace || a.crossNamespace)
  }

  lemma AskedForExactly(a: Access, spec: Spec, at: SecretRef)
    ensures AsksFor(a, spec, at) <==> SecretTarget(a, spec) == Some(at) && spec.writeSecretTo.Some? && spec.writeSecretTo.value.name != ""
  {}

  /** No Secret but the given one comes, goes or changes. */
  ghost predicate Confined(at: SecretRef, secrets: map<SecretRef, Secret>, secrets': map<SecretRef, Secret>) {
    && (forall k | at != k :: k in secrets' <==> k in secrets)
    && (forall k | at != k && k in secrets :: secrets'[k] == secrets[k])
  }

  lemma WriteConfined(a: Access, secrets: map<SecretRef, Secret>, at: SecretRef, issue: Issue, names: seq<string>, endpoint: string, f: Fates)
    ensures Confined(at, secrets, WriteSecret(a, secrets, at, issue, names, endpoint, f).0)
  {
    hide Stamped, SecretOwned;
  }

  lemma DeliverConfined(a: Access, at: SecretRef, l: Ledger, obj: Status, issue: Issue, arn: Arn, ts: seq<Target>, f: Fates)
    ensures Confined(at, l.secrets, Deliver(a, at, l, obj, issue, arn, ts, f).ledger.secrets)
  {
    hide WriteSecret, NamesOf, FirstEndpoint;
    WriteConfined(a, l.secrets, at, issue, NamesOf(ts), FirstEndpoint(ts), f);
  }

  lemma WithCredentialConfined(a: Access, at: SecretRef, rotate: bool, l: Ledger, obj: Status, account: Id, arn: Arn, ts: seq<Target>, f: Fates)
    ensures Confined(at, l.secrets, WithCredential(a, at, rotate, l, obj, account, arn, ts, f).ledger.secrets)
  {
    hide EnsureCredential, Deliver, Material, DropCred;
    var c := EnsureCredential(l.iam, obj, account, Material(l.secrets, at), rotate, f);
    if c.reply.Ok? {
      var obj1 := c.obj.(cred := Some(c.reply.value.cred), accessKey := Some(c.reply.value.accessKey));
      DeliverConfined(a, at, Persisted(l.(iam := c.iam), obj1, f.credStatus), obj1, c.reply.value, arn, ts, f);
    }
  }

  /** Nothing changes but the Secret that the resource asks for. */
  ghost predicate AskedOnly(a: Access, spec: Spec, secrets: map<SecretRef, Secret>, secrets': map<SecretRef, Secret>) {
    forall k | !AsksFor(a, spec, k) :: (k in secrets' <==> k in secrets) && (k in secrets ==> secrets'[k] == secrets[k])
  }

  lemma EnsureManagedConfined(a: Access, spec: Spec, rotate: bool, l: Ledger, obj: Status, ts: seq<Target>, f: Fates)
    ensures AskedOnly(a, spec, l.secrets, EnsureManaged(a, spec, rotate, l, obj, ts, f).ledger.secrets)
  {
    hide EnsureAccount, WithCredential, SecretTarget, AsksFor, AccountName;
    var at := SecretTarget(a, spec);
    var (iam, r) := EnsureAccount(a, l.iam, AccountName(a, spec), obj.account, f);
    if r.Ok? && at.Some? && spec.writeSecretTo.Some? && spec.writeSecretTo.value.name != "" {
      AskedForExactly(a, spec, at.value);
      var arn := ServiceAccountArn(a.organisation, r.value);
      var obj1 := obj.(account := Some(r.value), principal := Some(arn));
      WithCredentialConfined(a, at.value, rotate, Persisted(l.(iam := iam), obj1, f.accountStatus), obj1, r.value, arn, ts, f);
    }
  }

  lemma PreparedConfined(a: Access, w: World, ts: seq<Target>, wanted: P.Resolution, f: Fates)
    requires wanted.Granted?
    ensures AskedOnly(a, w.spec, w.ledger.secrets, Prepared(a, w, ts, wanted, f).ledger.secrets)
  {
    hide EnsureManaged, ResolvePrincipal, AsksFor;
    var obj := Begun(w.ledger.status);
    EnsureManagedConfined(a, w.spec, w.rotate, Persisted(w.ledger, obj, f.progress), obj.(permissions := wanted.actions), ts, f);
  }

  lemma ReconcileConfined(a: Access, w: World, sid: string, wanted: P.Resolution, f: Fates)
    ensures AskedOnly(a, w.spec, w.ledger.secrets, ReconcileAs(a, w, sid, wanted, f).w.ledger.secrets)
  {
    hide ReconcileAs, WithTargets, ResolveFrom, Prepared, GrantAll, AsksFor;
    ReconcileShape(a, w, sid, wanted, f);
    var ts := ResolveFrom(w.spec.bucketRefs, w.views, f, 0, []);
    if ts.Targets? {
      WithTargetsShape(a, w, ts.ts, sid, wanted, f);
      if wanted.Granted? {
        PreparedConfined(a, w, ts.ts, wanted, f);
        var s := Prepared(a, w, ts.ts, wanted, f);
        if s.reply.Ok? {
          GrantAllLedger(w.(ledger := s.ledger), s.obj, Grant(sid, s.reply.value.arn, wanted.actions), s.reply.value.rotated, ts.ts, f);
        }
      }
    }
  }

  /** A pass touches the target Secret only; so unless the manager allows it, no Secret in another
      namespace, whatever the resource asks for. */
  lemma PassConfined(a: Access, w: World, f: Fates)
    ensures var s := Reconcile(a, w, f).w.ledger.secrets;
      && AskedOnly(a, w.spec, w.ledger.secrets, s)
      && (!a.crossNamespace ==> forall k: SecretRef | k.namespace != a.namespace ::
            (k in s <==> k in w.ledger.secrets) && (k in s ==> s[k] == w.ledger.secrets[k]))
  {
    hide ReconcileAs, P.Resolve, SidOf;
    ReconcileConfined(a, w, SidOf(a), P.Resolve(w.spec.preset, w.spec.permissions), f);
  }
}
