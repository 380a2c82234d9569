/** Where an access's statement can be: what passes write under its Sid, and what a teardown takes
    away again. */
module AccessRevocation {
  import opened Text
  import opened Faults
  import opened Policy
  import opened BucketUpdate
  import opened AccessModel
  import opened AccessSafety
  import opened AccessRuns
  import opened AccessGrants
  import P = Permissions

  // ---------- One teardown ----------

  /** The buckets a teardown visits. */
  function Visited(w: World): set<string> {
    (set n | n in w.ledger.status.granted) +
    (set i | 0 <= i < |w.spec.bucketRefs| && w.spec.bucketRefs[i] in w.views && w.views[w.spec.bucketRefs[i]].bucketName != ""
       :: w.views[w.spec.bucketRefs[i]].bucketName)
  }

  lemma VisitedFacts(w: World)
    ensures forall n | n in w.ledger.status.granted :: n in Visited(w)
    ensures forall i, n | 0 <= i < |w.spec.bucketRefs| && LeadsTo(w.views, w.spec.bucketRefs[i], n) :: n in Visited(w)
  {}

  ghost predicate TeardownAnswered(t: TeardownFates) {
    && t.getAccount.Answered? && t.deleteCred.Answered? && t.deleteAccount.Answered? && t.finalizer.Answered?
    && (forall j :: At(t.getGranted, j).Answered? && At(t.putGranted, j).Answered?)
    && (forall j :: At(t.views, j).Answered? && At(t.getRef, j).Answered? && At(t.putRef, j).Answered?)
  }

  lemma DeleteIamAnswered(a: Access, iam: Iam, managed: bool, st: Status, t: TeardownFates)
    requires t.getAccount.Answered? && t.deleteCred.Answered? && t.deleteAccount.Answered?
    ensures DeleteIam(a, iam, managed, st, t).1.Ok?
  {
    hide OwnsId, DropCred, WithoutAccount;
  }

  /** Without the finalizer nothing happens.  Whatever failed: other statements are left alone, only visited buckets change, and when the
      finalizer goes, every recorded bucket is gone or free of the Sid.  When nothing failed, the
      finalizer goes, and so does the Sid from every referenced bucket. */
  lemma TeardownFacts(a: Access, w: World, sid: string, t: TeardownFates)
    ensures var r := TerminateAs(a, w, sid, t);
      && (!w.finalizer ==> r == w)
      && Revoked(w.buckets, r.buckets, sid, Visited(w))
      && (w.finalizer && !r.finalizer ==> forall i | 0 <= i < |w.ledger.status.granted| :: !CarriedOn(r.buckets, w.ledger.status.granted[i], sid))
      && (w.finalizer && TeardownAnswered(t) ==>
            && !r.finalizer
            && forall j, n | 0 <= j < |w.spec.bucketRefs| && LeadsTo(w.views, w.spec.bucketRefs[j], n) :: !CarriedOn(r.buckets, n, sid))
  {
    hide RevokeGranted, RevokeRefs, DeleteIam, Revoked, CarriedOn, Visited;
    var names, refs := w.ledger.status.granted, w.spec.bucketRefs;
    VisitedFacts(w);
    RevokedRefl(w.buckets, sid, Visited(w));
    RevokeGrantedFacts(w.buckets, names, sid, t, 0, Visited(w));
    var b1 := RevokeGranted(w.buckets, names, sid, t, 0).0;
    RevokeRefsFacts(b1, refs, w.views, sid, t, 0, Visited(w));
    RevokedTransitive(w.buckets, b1, RevokeRefs(b1, refs, w.views, sid, t, 0).0, sid, Visited(w));
    if TeardownAnswered(t) {
      RevokeGrantedSucceeds(w.buckets, names, sid, t, 0);
      DeleteIamAnswered(a, w.ledger.iam, w.spec.principalRef.None?, w.ledger.status, t);
    }
  }

  /** A teardown drops the finalizer if the recorded buckets and IAM answer, whatever errors, short of
      a cut, come back from the buckets that are merely referenced. */
  lemma TeardownGoesOn(a: Access, w: World, t: TeardownFates)
    requires forall j :: At(t.getGranted, j).Answered? && At(t.putGranted, j).Answered?
    requires forall j :: !At(t.views, j).Cuts() && !At(t.getRef, j).Cuts() && !At(t.putRef, j).Cuts()
    requires t.getAccount.Answered? && t.deleteCred.Answered? && t.deleteAccount.Answered? && t.finalizer.Applied()
    ensures !Terminate(a, w, t).finalizer
  {
    hide RevokeGranted, RevokeRefs, DeleteIam, SidOf;
    RevokeGrantedSucceeds(w.buckets, w.ledger.status.granted, SidOf(a), t, 0);
    RevokeRefsGoesOn(RevokeGranted(w.buckets, w.ledger.status.granted, SidOf(a), t, 0).0, w.spec.bucketRefs, w.views, SidOf(a), t, 0);
    DeleteIamAnswered(a, w.ledger.iam, w.spec.principalRef.None?, w.ledger.status, t);
  }

  /** Exactly the recorded and the referenced buckets lose the Sid in a teardown without failures:
      a bucket that is neither keeps the grant for good. */
  lemma TeardownExact(a: Access, w: World, t: TeardownFates, n: string)
    requires w.finalizer && TeardownAnswered(t)
    ensures CarriedOn(Terminate(a, w, t).buckets, n, SidOf(a)) <==>
        CarriedOn(w.buckets, n, SidOf(a)) && n !in w.ledger.status.granted && !Referenced(w.spec.bucketRefs, w.views, n)
  {
    hide TerminateAs, Others, SidOf, ManagedSid;
    var r := Terminate(a, w, t);
    TeardownFacts(a, w, SidOf(a), t);
    if n in w.ledger.status.granted {
      var i :| 0 <= i < |w.ledger.status.granted| && w.ledger.status.granted[i] == n;
    }
  }

  /** Whatever failed: when the finalizer goes in managed mode, the account on record is gone or was
      never this access's, and if it is gone, so is the tracked credential. */
  lemma TeardownDeletesIam(a: Access, w: World, t: TeardownFates)
    requires w.finalizer && !Terminate(a, w, t).finalizer && w.spec.principalRef.None? && w.ledger.status.account.Some?
    requires OwnsId(a, w.ledger.iam.accounts, w.ledger.status.account.value)
    ensures var r, st := Terminate(a, w, t).ledger.iam, w.ledger.status;
      && (forall x | x in r.accounts :: x.id != st.account.value)
      && (st.cred.Some? ==> !LiveOn(r, st.account.value, st.cred.value))
  {
    hide RevokeGranted, RevokeRefs, OwnsId, SidOf;
    WithoutAccountMembers(w.ledger.iam.accounts, w.ledger.status.account.value);
  }

  lemma AnsweredIam(a: Access, w: World, t: TeardownFates)
    requires w.finalizer && TeardownAnswered(t)
    ensures Terminate(a, w, t).ledger.iam == DeleteIam(a, w.ledger.iam, w.spec.principalRef.None?, w.ledger.status, t).0
  {
    hide RevokeGranted, RevokeRefs, DeleteIam, SidOf;
    var st := w.ledger.status;
    RevokeGrantedSucceeds(w.buckets, st.granted, SidOf(a), t, 0);
    VisitedFacts(w);
    RevokeRefsFacts(RevokeGranted(w.buckets, st.granted, SidOf(a), t, 0).0, w.spec.bucketRefs, w.views, SidOf(a), t, 0, Visited(w));
  }

  /** A labelled account outlives a teardown without failures exactly in external mode, or if it is
      not the one on record.  A credential on it is spared exactly then, or if it is not tracked. */
  lemma IamLeftBehindExactly(a: Access, w: World, t: TeardownFates, x: Id, c: Id)
    requires w.finalizer && TeardownAnswered(t) && OwnsId(a, w.ledger.iam.accounts, x)
    ensures var r, st := Terminate(a, w, t).ledger.iam, w.ledger.status;
      && (OwnsId(a, r.accounts, x) <==> w.spec.principalRef.Some? || st.account != Some(x))
      && (LiveOn(w.ledger.iam, x, c) ==>
            (LiveOn(r, x, c) <==> w.spec.principalRef.Some? || st.account != Some(x) || st.cred != Some(c)))
  {
    AnsweredIam(a, w, t);
    hide Terminate, OwnsId;
    var st := w.ledger.status;
    var r := Terminate(a, w, t).ledger.iam;
    if st.account == Some(x) {
      AccountGone(a, w.ledger.iam.accounts, x);
    } else {
      TeardownSparesOther(a, w.ledger.iam, w.spec.principalRef.None?, st, t, x);
    }
  }

  lemma AccountGone(a: Access, accounts: seq<Account>, x: Id)
    ensures !OwnsId(a, WithoutAccount(accounts, x), x)
  {
    WithoutAccountMembers(accounts, x);
    FindAccountFacts(WithoutAccount(accounts, x), x);
  }

  lemma TeardownSparesOther(a: Access, iam: Iam, managed: bool, st: Status, t: TeardownFates, x: Id)
    requires st.account != Some(x)
    ensures OwnsId(a, DeleteIam(a, iam, managed, st, t).0.accounts, x) <==> OwnsId(a, iam.accounts, x)
    ensures forall c :: LiveOn(DeleteIam(a, iam, managed, st, t).0, x, c) <==> LiveOn(iam, x, c)
  {
    hide OwnsId;
    if st.account.Some? {
      OthersStayFound(iam.accounts, st.account.value, x);
      StillOwned(a, iam.accounts, WithoutAccount(iam.accounts, st.account.value), x);
    }
  }

  // ---------- One pass ----------

  /** A pass touches the given bucket only to grant on it. */
  ghost predicate WroteGrant(w: World, w': World, sid: string, wanted: P.Resolution, n: string) {
    && Referenced(w.spec.bucketRefs, w.views, n)
    && wanted.Granted? && exists arn :: GrantedOn(w'.buckets, n, Grant(sid, arn, wanted.actions))
  }

  lemma GrantAllBuckets(w: World, obj: Status, g: Grant, rotated: bool, ts: seq<Target>, f: Fates)
    ensures GrantAll(w, obj, g, rotated, ts, f).w.buckets == GrantFrom(w.buckets, ts, g, f, 0).0
    ensures var r := GrantAll(w, obj, g, rotated, ts, f).w;
      r == w.(buckets := r.buckets, ledger := r.ledger, rotate := r.rotate)
  {
    hide GrantFrom;
  }

  lemma TargetsAreReferenced(w: World, ts: seq<Target>, j: nat)
    requires TargetsOf(w.spec.bucketRefs, w.views, ts) && j < |ts|
    ensures Referenced(w.spec.bucketRefs, w.views, ts[j].name)
  {
    assert LeadsTo(w.views, w.spec.bucketRefs[j], ts[j].name);
  }

  lemma WithTargetsWrites(a: Access, w: World, ts: seq<Target>, sid: string, wanted: P.Resolution, f: Fates)
    requires TargetsOf(w.spec.bucketRefs, w.views, ts)
    ensures var r := WithTargets(a, w, ts, sid, wanted, f).w;
      && OnlySid(w.buckets, r.buckets, sid)
      && r == w.(buckets := r.buckets, ledger := r.ledger, rotate := r.rotate)
      && forall n | n in w.buckets && r.buckets[n] != w.buckets[n] :: WroteGrant(w, r, sid, wanted, n)
  {
    hide WithTargets, Prepared, GrantAll, GrantFrom, GrantedOn, OnlySid, TargetsOf, Referenced;
    WithTargetsShape(a, w, ts, sid, wanted, f);
    OnlySidRefl(w.buckets, sid);
    if wanted.Granted? {
      var s := Prepared(a, w, ts, wanted, f);
      if s.reply.Ok? {
        var w1 := w.(ledger := s.ledger);
        var g := Grant(sid, s.reply.value.arn, wanted.actions);
        GrantAllBuckets(w1, s.obj, g, s.reply.value.rotated, ts, f);
        GrantFromFacts(w.buckets, ts, g, f, 0);
        forall j | 0 <= j < |ts|
          ensures Referenced(w.spec.bucketRefs, w.views, ts[j].name)
        {
          TargetsAreReferenced(w, ts, j);
        }
      }
    }
  }

  /** A pass changes referenced buckets only, and there only what is under its own Sid: it leaves
      the grant, and nothing else, there. */
  lemma PassWrites(a: Access, w: World, sid: string, wanted: P.Resolution, f: Fates)
    ensures var r := ReconcileAs(a, w, sid, wanted, f).w;
      && OnlySid(w.buckets, r.buckets, sid)
      && r == w.(buckets := r.buckets, ledger := r.ledger, rotate := r.rotate)
      && forall n | n in w.buckets && r.buckets[n] != w.buckets[n] :: WroteGrant(w, r, sid, wanted, n)
  {
    hide ReconcileAs, WithTargets, ResolveFrom, OnlySid, WroteGrant, TargetsOf;
    ReconcileShape(a, w, sid, wanted, f);
    OnlySidRefl(w.buckets, sid);
    var resolved := ResolveFrom(w.spec.bucketRefs, w.views, f, 0, []);
    assert TargetsOf(w.spec.bucketRefs[..0], w.views, []) by {
      NoTargetsYet(w.spec.bucketRefs, w.views);
    }
    ResolveFromFacts(w.spec.bucketRefs, w.views, f, 0, []);
    if resolved.Targets? {
      WithTargetsWrites(a, w, resolved.ts, sid, wanted, f);
    }
  }

  // ---------- Runs ----------

  /** Nobody else puts a statement under this access's Sid. */
  ghost predicate NothingNew(buckets: map<string, Record>, buckets': map<string, Record>, sid: string) {
    forall n, s | n in buckets' && s in buckets'[n].policy.statements && s.sid == sid ::
      n in buckets && s in buckets[n].policy.statements
  }

  ghost predicate SidIsOurs(a: Access, w: World, es: seq<Event>) {
    |es| == 0 ||
    (&& SidIsOurs(a, w, es[..|es| - 1])
     && (es[|es| - 1].BucketsChanged? ==> NothingNew(Run(a, w, es[..|es| - 1]).buckets, es[|es| - 1].buckets, SidOf(a))))
  }

  /** The references never change, and one that leads to a bucket keeps leading there, at least
      while that bucket is there and carries the grant. */
  ghost predicate Steady(a: Access, w: World, e: Event) {
    match e
    case Respecified(spec) => spec.bucketRefs == w.spec.bucketRefs
    case BucketsChanged(buckets, views) =>
      forall i, n | 0 <= i < |w.spec.bucketRefs| && LeadsTo(w.views, w.spec.bucketRefs[i], n) && CarriedOn(buckets, n, SidOf(a)) ::
        LeadsTo(views, w.spec.bucketRefs[i], n)
    case _ => true
  }

  ghost predicate SteadyRun(a: Access, w: World, es: seq<Event>) {
    |es| == 0 || (SteadyRun(a, w, es[..|es| - 1]) && Steady(a, Run(a, w, es[..|es| - 1]), es[|es| - 1]))
  }

  /** Every bucket that carries the Sid is a referenced one. */
  ghost predicate Within(a: Access, w: World) {
    forall n | CarriedOn(w.buckets, n, SidOf(a)) :: Referenced(w.spec.bucketRefs, w.views, n)
  }

  lemma CarriesMember(ss: seq<Statement>, sid: string)
    ensures Carries(ss, sid) <==> exists s :: s in ss && s.sid == sid
  {
    if s :| s in ss && s.sid == sid {
      var i :| 0 <= i < |ss| && ss[i] == s;
    }
  }

  lemma NothingNewCarried(buckets: map<string, Record>, buckets': map<string, Record>, sid: string, n: string)
    requires NothingNew(buckets, buckets', sid) && CarriedOn(buckets', n, sid)
    ensures CarriedOn(buckets, n, sid)
  {
    CarriesMember(buckets'[n].policy.statements, sid);
    var s :| s in buckets'[n].policy.statements && s.sid == sid;
    CarriesMember(buckets[n].policy.statements, sid);
  }

  lemma OthersKeepWithin(a: Access, w: World, e: Event)
    requires Within(a, w) && Steady(a, w, e) && !e.Reconciled? && !e.TornDown?
    requires e.BucketsChanged? ==> NothingNew(w.buckets, e.buckets, SidOf(a))
    ensures Within(a, After(a, w, e))
  {
    hide Reconcile, Terminate, NothingNew, CarriedOn, SidOf, LeadsTo, IamAfter, SecretsAfter;
    var r := After(a, w, e);
    forall n | CarriedOn(r.buckets, n, SidOf(a))
      ensures Referenced(r.spec.bucketRefs, r.views, n)
    {
      if e.BucketsChanged? {
        NothingNewCarried(w.buckets, e.buckets, SidOf(a), n);
        var i :| 0 <= i < |w.spec.bucketRefs| && LeadsTo(w.views, w.spec.bucketRefs[i], n);
      }
    }
  }

  lemma PassKeepsWithin(a: Access, w: World, f: Fates)
    requires Within(a, w)
    ensures Within(a, Reconcile(a, w, f).w)
  {
    hide ReconcileAs, P.Resolve, Referenced, Others, GrantedOn, SidOf;
    PassWrites(a, w, SidOf(a), P.Resolve(w.spec.preset, w.spec.permissions), f);
  }

  lemma TeardownKeepsWithin(a: Access, w: World, t: TeardownFates)
    requires Within(a, w)
    ensures Within(a, Terminate(a, w, t))
  {
    hide TerminateAs, Referenced, Others, Visited, SidOf;
    TeardownFacts(a, w, SidOf(a), t);
    TeardownKeepsRefs(a, w, SidOf(a), t);
  }

  lemma TeardownKeepsRefs(a: Access, w: World, sid: string, t: TeardownFates)
    ensures var r := TerminateAs(a, w, sid, t);
      r.spec == w.spec && r.views == w.views
  {
    hide RevokeGranted, RevokeRefs, DeleteIam;
  }

  lemma {:induction false} RunKeepsWithin(a: Access, w: World, es: seq<Event>)
    requires Within(a, w) && SidIsOurs(a, w, es) && SteadyRun(a, w, es)
    ensures Within(a, Run(a, w, es))
  {
    hide Reconcile, Terminate, Within, Steady, NothingNew, SidOf, IamAfter, SecretsAfter;
    if |es| > 0 {
      var most, e := es[..|es| - 1], es[|es| - 1];
      RunKeepsWithin(a, w, most);
      var now := Run(a, w, most);
      match e
      case Reconciled(f) => PassKeepsWithin(a, now, f);
      case TornDown(t) => TeardownKeepsWithin(a, now, t);
      case _ => OthersKeepWithin(a, now, e);
    }
  }

  /** If references and bucket names never changed, a teardown without failures leaves the Sid on
      no bucket at all, even after grant passes that failed half way and were never recorded; and
      it changes no other statement. */
  lemma RevocationOnDelete(a: Access, w: World, es: seq<Event>, t: TeardownFates)
    requires (forall n :: !CarriedOn(w.buckets, n, SidOf(a))) && SidIsOurs(a, w, es) && SteadyRun(a, w, es)
    requires Run(a, w, es).finalizer && TeardownAnswered(t)
    ensures var now := Run(a, w, es);
      var r := Terminate(a, now, t);
      && !r.finalizer
      && (forall n :: !CarriedOn(r.buckets, n, SidOf(a)))
      && OnlySid(now.buckets, r.buckets, SidOf(a))
  {
    hide TerminateAs, Run, SidIsOurs, SteadyRun, Referenced, CarriedOn, OnlySid, SidOf, Visited;
    RunKeepsWithin(a, w, es);
    var now := Run(a, w, es);
    TeardownFacts(a, now, SidOf(a), t);
    forall n
      ensures !CarriedOn(Terminate(a, now, t).buckets, n, SidOf(a))
    {
      TeardownExact(a, now, t, n);
    }
  }

  // ---------- Which actions are granted ----------

  /** Whatever is under the Sid names these actions only. */
  ghost predicate Limited(buckets: map<string, Record>, sid: string, allowed: set<string>) {
    forall n, s, x | n in buckets && s in buckets[n].policy.statements && s.sid == sid && x in s.action :: x in allowed
  }

  /** What the spec asks for resolves to these actions only, if to any. */
  predicate AsksWithin(spec: Spec, allowed: set<string>) {
    var wanted := P.Resolve(spec.preset, spec.permissions);
    wanted.Granted? ==> forall x | x in wanted.actions :: x in allowed
  }

  ghost predicate AskWithin(es: seq<Event>, allowed: set<string>) {
    forall i | 0 <= i < |es| && es[i].Respecified? :: AsksWithin(es[i].spec, allowed)
  }

  lemma GrantIsLimited(w: World, w': World, sid: string, wanted: P.Resolution, n: string, s: Statement, x: string, allowed: set<string>)
    requires WroteGrant(w, w', sid, wanted, n) && forall y | y in wanted.actions :: y in allowed
    requires n in w'.buckets && s in w'.buckets[n].policy.statements && s.sid == sid && x in s.action
    ensures x in allowed
  {
    hide Referenced;
    var arn :| GrantedOn(w'.buckets, n, Grant(sid, arn, wanted.actions));
    assert s.action == wanted.actions;
  }

  lemma PassKeepsLimit(a: Access, w: World, f: Fates, allowed: set<string>)
    requires Limited(w.buckets, SidOf(a), allowed) && AsksWithin(w.spec, allowed)
    ensures Limited(Reconcile(a, w, f).w.buckets, SidOf(a), allowed) && Reconcile(a, w, f).w.spec == w.spec
  {
    hide ReconcileAs, P.Resolve, Others, WroteGrant, SidOf;
    var wanted := P.Resolve(w.spec.preset, w.spec.permissions);
    var r := ReconcileAs(a, w, SidOf(a), wanted, f).w;
    PassWrites(a, w, SidOf(a), wanted, f);
    forall n, s, x | n in r.buckets && s in r.buckets[n].policy.statements && s.sid == SidOf(a) && x in s.action
      ensures x in allowed
    {
      if r.buckets[n] != w.buckets[n] {
        WroteAsWanted(w, r, SidOf(a), wanted, n);
        GrantIsLimited(w, r, SidOf(a), wanted, n, s, x, allowed);
      }
    }
  }

  lemma WroteAsWanted(w: World, w': World, sid: string, wanted: P.Resolution, n: string)
    requires WroteGrant(w, w', sid, wanted, n)
    ensures wanted.Granted?
  {}

  lemma TeardownKeepsLimit(a: Access, w: World, t: TeardownFates, allowed: set<string>)
    requires Limited(w.buckets, SidOf(a), allowed)
    ensures Limited(Terminate(a, w, t).buckets, SidOf(a), allowed) && Terminate(a, w, t).spec == w.spec
  {
    hide TerminateAs, Others, Visited, SidOf;
    TeardownFacts(a, w, SidOf(a), t);
    TeardownKeepsRefs(a, w, SidOf(a), t);
    var r := Terminate(a, w, t);
    forall n, s, x | n in r.buckets && s in r.buckets[n].policy.statements && s.sid == SidOf(a) && x in s.action
      ensures x in allowed
    {
      CarriesMember(r.buckets[n].policy.statements, SidOf(a));
    }
  }

  lemma OthersKeepLimit(a: Access, w: World, e: Event, allowed: set<string>)
    requires Limited(w.buckets, SidOf(a), allowed) && !e.Reconciled? && !e.TornDown?
    requires e.BucketsChanged? ==> NothingNew(w.buckets, e.buckets, SidOf(a))
    ensures Limited(After(a, w, e).buckets, SidOf(a), allowed)
  {
    hide Reconcile, Terminate, SidOf, IamAfter, SecretsAfter;
  }

  /** Through every run in which the spec asks for no more than this, the grants allow no more. */
  lemma {:induction false} RunKeepsLimit(a: Access, w: World, es: seq<Event>, allowed: set<string>)
    requires Limited(w.buckets, SidOf(a), allowed) && SidIsOurs(a, w, es)
    requires AsksWithin(w.spec, allowed) && AskWithin(es, allowed)
    ensures Limited(Run(a, w, es).buckets, SidOf(a), allowed) && AsksWithin(Run(a, w, es).spec, allowed)
  {
    hide Reconcile, Terminate, SidOf, IamAfter, SecretsAfter, AsksWithin, Limited, NothingNew;
    if |es| > 0 {
      var most, e := es[..|es| - 1], es[|es| - 1];
      RunKeepsLimit(a, w, most, allowed);
      var now := Run(a, w, most);
      match e
      case Reconciled(f) => PassKeepsLimit(a, now, f, allowed);
      case TornDown(t) => TeardownKeepsLimit(a, now, t, allowed);
      case _ => OthersKeepLimit(a, now, e, allowed);
    }
  }

  /** In every run, across changes of preset, permissions and mode, whatever is under the Sid grants
      actions of the allowlist only. */
  lemma GrantsStayAllowlisted(a: Access, w: World, es: seq<Event>)
    requires Limited(w.buckets, SidOf(a), P.AllowedActions()) && SidIsOurs(a, w, es)
    ensures Limited(Run(a, w, es).buckets, SidOf(a), P.AllowedActions())
  {
    hide P.Resolve, P.AllowedActions, Limited, SidIsOurs, Run, SidOf;
    forall spec: Spec
      ensures AsksWithin(spec, P.AllowedActions())
    {
      if P.Resolve(spec.preset, spec.permissions).Granted? {
        P.GrantedActionsAreAllowed(spec.preset, spec.permissions);
      }
    }
    RunKeepsLimit(a, w, es, P.AllowedActions());
  }

  predicate ReadOnly(spec: Spec) {
    spec.permissions == [] && Trim(spec.preset) == "ReadOnly"
  }

  lemma ReadOnlyAsksToRead(spec: Spec)
    requires ReadOnly(spec)
    ensures AsksWithin(spec, P.ReadActions())
  {
    hide P.ReadActions, P.Resolve, P.ReadWriteActions, P.ChangesObjects, Trim;
    P.PresetsGrant(spec.preset);
    var wanted := P.Resolve(spec.preset, spec.permissions);
    forall x | x in wanted.actions
      ensures x in P.ReadActions()
    {
      assert x in P.SetOf(wanted.actions);
    }
  }

  /** An access that is read-only throughout is never granted anything but reading: no action under
      its Sid puts, deletes or aborts anything, through passes that fail or are cut anywhere. */
  lemma ReadOnlyStaysSo(a: Access, w: World, es: seq<Event>)
    requires Limited(w.buckets, SidOf(a), P.ReadActions()) && SidIsOurs(a, w, es)
    requires ReadOnly(w.spec) && forall i | 0 <= i < |es| && es[i].Respecified? :: ReadOnly(es[i].spec)
    ensures var b := Run(a, w, es).buckets;
      && Limited(b, SidOf(a), P.ReadActions())
      && forall n, s, x | n in b && s in b[n].policy.statements && s.sid == SidOf(a) && x in s.action :: !P.ChangesObjects(x)
  {
    hide SidIsOurs, Run, SidOf, P.ChangesObjects, P.ReadActions, ReadOnly, AsksWithin;
    ReadOnlyAsksToRead(w.spec);
    forall i | 0 <= i < |es| && es[i].Respecified?
      ensures AsksWithin(es[i].spec, P.ReadActions())
    {
      ReadOnlyAsksToRead(es[i].spec);
    }
    RunKeepsLimit(a, w, es, P.ReadActions());
    P.ReadActionsChangeNothing();
  }
}
