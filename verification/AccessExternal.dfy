/** External mode: the grants go to a principal that somebody else manages. */
module AccessExternal {
  import opened Text
  import opened Policy
  import opened AccessModel
  import opened AccessSafety
  import opened AccessGrants
  import P = Permissions

  function ArnOf(a: Access, p: PrincipalRef): Arn {
    match p
    case UserRef(subject) => UserArn(Trim(a.organisation), Trim(subject))
    case AccountRef(account) => if account.Some? then ServiceAccountArn(Trim(a.organisation), account.value) else OtherArn("")
    case OtherRef(_) => OtherArn("")
  }

  predicate Exists(iam: Iam, p: PrincipalRef) {
    match p
    case UserRef(subject) => Trim(subject) != "" && Trim(subject) in iam.members
    case AccountRef(account) => account.Some? && FindAccount(iam.accounts, account.value).Some?
    case OtherRef(_) => false
  }

  lemma PreparedExternal(a: Access, w: World, ts: seq<Target>, wanted: P.Resolution, f: Fates)
    requires w.spec.principalRef.Some? && wanted.Granted?
    ensures var r := Prepared(a, w, ts, wanted, f);
      var p := w.spec.principalRef.value;
      && r.ledger.iam == w.ledger.iam && r.ledger.secrets == w.ledger.secrets
      && (Exists(w.ledger.iam, p) && Trim(a.organisation) != "" && f.getPrincipal.Answered? ==> r.reply.Ok?)
      && (r.reply.Ok? ==>
            && Exists(w.ledger.iam, p) && f.getPrincipal.Answered? && r.reply.value == Grantee(ArnOf(a, p), false)
            && r.obj.principal == Some(ArnOf(a, p)) && r.obj.cred.None? && r.obj.permissions == wanted.actions)
  {}

  /** A completed pass has granted everything and stored the status it worked on. */
  lemma CompletedGrants(w: World, obj: Status, g: Grant, rotated: bool, ts: seq<Target>, f: Fates)
    requires GrantAll(w, obj, g, rotated, ts, f).end.Completed?
    ensures var r := GrantAll(w, obj, g, rotated, ts, f).w;
      && GrantFrom(w.buckets, ts, g, f, 0).1.Ok? && r.buckets == GrantFrom(w.buckets, ts, g, f, 0).0
      && r.ledger.iam == w.ledger.iam && r.ledger.secrets == w.ledger.secrets
      && r.ledger.status.cred == obj.cred && r.ledger.status.principal == obj.principal
      && (!rotated ==> r.rotate == w.rotate)
  {
    hide GrantFrom, NamesOf;
  }

  /** A completed pass in external mode: the principal exists, every referenced bucket grants it
      exactly the wanted actions, no rotation was requested, and IAM and the Secrets are as they were. */
  lemma ExternalPassServes(a: Access, w: World, f: Fates)
    requires w.spec.principalRef.Some? && Reconcile(a, w, f).end.Completed?
    ensures var r, p, wanted := Reconcile(a, w, f).w, w.spec.principalRef.value, P.Resolve(w.spec.preset, w.spec.permissions);
      && !w.rotate && !r.rotate && wanted.Granted? && Exists(w.ledger.iam, p)
      && r.ledger.iam == w.ledger.iam && r.ledger.secrets == w.ledger.secrets
      && r.ledger.status.principal == Some(ArnOf(a, p)) && r.ledger.status.cred.None?
      && forall i | 0 <= i < |w.spec.bucketRefs| ::
           && w.spec.bucketRefs[i] in w.views
           && GrantedOn(r.buckets, w.views[w.spec.bucketRefs[i]].bucketName, Grant(SidOf(a), ArnOf(a, p), wanted.actions))
  {
    hide ReconcileAs, WithTargets, ResolveFrom, Prepared, GrantAll, GrantFrom, P.Resolve, SidOf, GrantedOn, OnlySid, ArnOf, Exists;
    var sid, wanted := SidOf(a), P.Resolve(w.spec.preset, w.spec.permissions);
    ReconcileShape(a, w, sid, wanted, f);
    NoTargetsYet(w.spec.bucketRefs, w.views);
    ResolveFromFacts(w.spec.bucketRefs, w.views, f, 0, []);
    var ts := ResolveFrom(w.spec.bucketRefs, w.views, f, 0, []).ts;
    WithTargetsShape(a, w, ts, sid, wanted, f);
    PreparedExternal(a, w, ts, wanted, f);
    var s := Prepared(a, w, ts, wanted, f);
    var g := Grant(sid, s.reply.value.arn, wanted.actions);
    CompletedGrants(w.(ledger := s.ledger), s.obj, g, s.reply.value.rotated, ts, f);
    GrantFromFacts(w.buckets, ts, g, f, 0);
  }
}
