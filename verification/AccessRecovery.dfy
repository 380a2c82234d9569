/** Whole passes and whole runs in managed mode: the agreement is never lost, a rotation is one
    shot, and one pass without failures repairs whatever earlier passes left behind. */
module AccessRecovery {
  import opened Text
  import opened Faults
  import opened Policy
  import opened BucketUpdate
  import opened AccessModel
  import opened AccessSafety
  import opened AccessRuns
  import opened AccessAgreement
  import opened AccessGrants
  import C = Conditions
  import P = Permissions

  // ---------- One pass ----------

  /** The access is served: its credential is in place, and every referenced bucket grants its
      account exactly the wanted actions. */
  ghost predicate Served(a: Access, at: SecretRef, w: World, sid: string, wanted: P.Resolution) {
    && wanted.Granted? && Settled(a, at, w.ledger)
    && var g := Grant(sid, ServiceAccountArn(a.organisation, w.ledger.status.account.value), wanted.actions);
       forall i | 0 <= i < |w.spec.bucketRefs| ::
         w.spec.bucketRefs[i] in w.views && GrantedOn(w.buckets, w.views[w.spec.bucketRefs[i]].bucketName, g)
  }

  /** There is no Secret, and every referenced bucket grants the wanted actions to the empty principal. */
  ghost predicate Unserved(at: SecretRef, w: World, sid: string, wanted: P.Resolution) {
    && wanted.Granted? && at !in w.ledger.secrets
    && forall i | 0 <= i < |w.spec.bucketRefs| ::
         && w.spec.bucketRefs[i] in w.views
         && GrantedOn(w.buckets, w.views[w.spec.bucketRefs[i]].bucketName, Grant(sid, OtherArn(""), wanted.actions))
  }

  ghost predicate AllGranted(buckets: map<string, Record>, ts: seq<Target>, g: Grant) {
    forall j | 0 <= j < |ts| :: GrantedOn(buckets, ts[j].name, g)
  }

  lemma ConcludeFacts(w: World, obj: Status, ts: seq<Target>, rotated: bool, f: Fates)
    requires Tracks(obj, w.ledger.status)
    ensures var r := Conclude(w, obj, ts, rotated, f);
      && r.w == w.(rotate := r.w.rotate, ledger := w.ledger.(status := r.w.ledger.status))
      && Tracks(r.w.ledger.status, w.ledger.status)
      && (r.w.rotate != w.rotate ==> rotated && w.rotate)
      && (r.end.Completed? ==>
            && (rotated ==> !r.w.rotate)
            && r.w.ledger.status.granted == NamesOf(ts)
            && r.w.ledger.status.conditions == C.Call(C.Available, "Ready", ""))
  {
    hide NamesOf;
  }

  /** From the grants on: the dealings stay, and the rotation request is cleared only if the
      credential was rotated and everything is granted. */
  lemma GrantAllFacts(w: World, obj: Status, g: Grant, rotated: bool, ts: seq<Target>, f: Fates)
    requires Tracks(obj, w.ledger.status)
    ensures var r := GrantAll(w, obj, g, rotated, ts, f);
      && r.w == w.(buckets := r.w.buckets, rotate := r.w.rotate, ledger := w.ledger.(status := r.w.ledger.status))
      && Tracks(r.w.ledger.status, w.ledger.status)
      && OnlySid(w.buckets, r.w.buckets, g.sid)
      && (r.w.rotate != w.rotate ==> rotated && w.rotate && AllGranted(r.w.buckets, ts, g))
      && (r.end.Completed? ==>
            && AllGranted(r.w.buckets, ts, g) && (rotated ==> !r.w.rotate)
            && r.w.ledger.status.granted == NamesOf(ts)
            && r.w.ledger.status.conditions == C.Call(C.Available, "Ready", ""))
  {
    hide GrantFrom, OnlySid, GrantedOn, Conclude;
    GrantFromFacts(w.buckets, ts, g, f, 0);
    var w1 := w.(buckets := GrantFrom(w.buckets, ts, g, f, 0).0);
    ConcludeFacts(w1, obj, ts, rotated, f);
  }

  /** Managed mode, writing to the given Secret. */
  predicate Manages(a: Access, at: SecretRef, spec: Spec) {
    spec.principalRef.None? && SecretTarget(a, spec) == Some(at)
  }

  /** What one pass does, whatever its fates.  It serves the access when it completes exactly if the
      write of the Secret was not refused with "not found". */
  ghost predicate PassFacts(a: Access, at: SecretRef, w: World, r: Pass, sid: string, wanted: P.Resolution, f: Fates) {
    && Sound(a, at, r.w.rotate, r.w.ledger)
    && r.w == w.(buckets := r.w.buckets, rotate := r.w.rotate, ledger := r.w.ledger)
    && (!w.rotate && Material(w.ledger.secrets, at).Some? ==> r.w.ledger.iam == w.ledger.iam)
    && (r.w.rotate ==> w.rotate)
    && (w.rotate && !r.w.rotate ==> Served(a, at, r.w, sid, wanted) && r.w.ledger.status.cred.value !in w.ledger.iam.creds)
    && (r.end.Completed? ==>
          && r.w.ledger.status.conditions == C.Call(C.Available, "Ready", "")
          && (Served(a, at, r.w, sid, wanted) <==> !PutMissing(f))
          && (if PutMissing(f) then Unserved(at, r.w, sid, wanted) && r.w.rotate == w.rotate else !r.w.rotate))
  }

  lemma GrantsLapse(at: SecretRef, w: World, w': World, sid: string, wanted: P.Resolution, ts: seq<Target>)
    requires wanted.Granted? && at !in w.ledger.secrets
    requires w' == w.(buckets := w'.buckets, rotate := w'.rotate, ledger := w.ledger.(status := w'.ledger.status))
    requires TargetsOf(w.spec.bucketRefs, w.views, ts)
    requires AllGranted(w'.buckets, ts, Grant(sid, OtherArn(""), wanted.actions))
    ensures Unserved(at, w', sid, wanted)
  {
    hide GrantedOn;
  }

  lemma NotServed(a: Access, at: SecretRef, w: World, sid: string, wanted: P.Resolution)
    requires at !in w.ledger.secrets
    ensures !Served(a, at, w, sid, wanted)
  {
    hide OwnsId, GrantedOn;
  }

  lemma GrantsServe(a: Access, at: SecretRef, w: World, w': World, sid: string, wanted: P.Resolution, ts: seq<Target>)
    requires wanted.Granted? && Settled(a, at, w.ledger)
    requires w' == w.(buckets := w'.buckets, rotate := w'.rotate, ledger := w.ledger.(status := w'.ledger.status))
    requires Tracks(w'.ledger.status, w.ledger.status) && TargetsOf(w.spec.bucketRefs, w.views, ts)
    requires AllGranted(w'.buckets, ts,
               Grant(sid, ServiceAccountArn(a.organisation, w.ledger.status.account.value), wanted.actions))
    ensures Served(a, at, w', sid, wanted)
  {
    hide GrantedOn, OwnsId;
  }

  lemma BookkeepingKeepsSound(a: Access, at: SecretRef, w: World, w': World)
    requires Sound(a, at, w.rotate, w.ledger) && Bookkept(w, w')
    ensures Sound(a, at, w'.rotate, w'.ledger)
  {
    hide OwnsId, SecretOurs, OneOwned, WellFormed;
  }

  lemma PreparedFacts(a: Access, at: SecretRef, w: World, ts: seq<Target>, wanted: P.Resolution, f: Fates)
    requires Manages(a, at, w.spec) && wanted.Granted? && Faithful(at, w.ledger, f)
    requires Sound(a, at, w.rotate, w.ledger) && f.progress.Answered?
    ensures var r := Prepared(a, w, ts, wanted, f);
      && Sound(a, at, w.rotate, r.ledger)
      && (r.reply.Ok? ==> if PutMissing(f) then Lapsed(at, r) else
            && Settled(a, at, r.ledger) && Tracks(r.obj, r.ledger.status)
            && r.reply.value == Grantee(ServiceAccountArn(a.organisation, r.ledger.status.account.value), w.rotate)
            && (w.rotate ==> r.ledger.status.cred.value !in w.ledger.iam.creds))
      && (!w.rotate && Material(w.ledger.secrets, at).Some? ==> r.ledger.iam == w.ledger.iam)
  {
    hide EnsureManaged, OwnsId, SecretOurs, OneOwned, SecretTarget;
    var obj := Begun(w.ledger.status);
    var l := Persisted(w.ledger, obj, f.progress);
    BookkeepingKeepsSound(a, at, w, w.(ledger := l));
    EnsureManagedFacts(a, at, w.spec, w.rotate, l, obj.(permissions := wanted.actions), ts, f);
  }

  lemma StatusKeepsSound(a: Access, at: SecretRef, rotate: bool, l: Ledger, l': Ledger)
    requires Sound(a, at, rotate, l) && l' == l.(status := l'.status) && Tracks(l'.status, l.status)
    ensures Sound(a, at, rotate, l')
    ensures Settled(a, at, l) ==> forall r :: Sound(a, at, r, l')
  {
    hide OwnsId, SecretOurs, OneOwned, WellFormed;
  }

  /** From the resolved buckets on. */
  lemma WithTargetsFacts(a: Access, at: SecretRef, w: World, ts: seq<Target>, sid: string, wanted: P.Resolution, f: Fates)
    requires Manages(a, at, w.spec) && Faithful(at, w.ledger, f)
    requires Sound(a, at, w.rotate, w.ledger) && TargetsOf(w.spec.bucketRefs, w.views, ts)
    ensures PassFacts(a, at, w, WithTargets(a, w, ts, sid, wanted, f), sid, wanted, f)
  {
    hide WithTargets, Prepared, GrantAll, AllGranted, Served, OwnsId, SecretOurs, OneOwned, WellFormed, SecretTarget;
    hide TargetsOf, Faithful;
    WithTargetsShape(a, w, ts, sid, wanted, f);
    var r := WithTargets(a, w, ts, sid, wanted, f);
    if Bookkept(w, r.w) && !r.end.Completed? {
      BookkeepingKeepsSound(a, at, w, r.w);
    } else {
      PreparedFacts(a, at, w, ts, wanted, f);
      var s := Prepared(a, w, ts, wanted, f);
      if s.reply.Ok? {
        var w1 := w.(ledger := s.ledger);
        var g := Grant(sid, s.reply.value.arn, wanted.actions);
        GrantAllFacts(w1, s.obj, g, s.reply.value.rotated, ts, f);
        GrantAllLedger(w1, s.obj, g, s.reply.value.rotated, ts, f);
        StatusKeepsSound(a, at, w.rotate, s.ledger, r.w.ledger);
        if AllGranted(r.w.buckets, ts, g) {
          if PutMissing(f) {
            GrantsLapse(at, w1, r.w, sid, wanted, ts);
            NotServed(a, at, r.w, sid, wanted);
          } else {
            GrantsServe(a, at, w1, r.w, sid, wanted, ts);
          }
        }
      }
    }
  }

  /** One managed pass, whatever its fates: the agreement holds again; a settled access mints
      nothing; the rotation request goes away only when a credential that did not exist before is
      tracked, stored and granted everywhere; and a completed pass serves the access exactly if its
      write of the Secret was not refused with "not found". */
  lemma ManagedPass(a: Access, at: SecretRef, w: World, sid: string, wanted: P.Resolution, f: Fates)
    requires Manages(a, at, w.spec) && Faithful(at, w.ledger, f)
    requires Sound(a, at, w.rotate, w.ledger)
    ensures PassFacts(a, at, w, ReconcileAs(a, w, sid, wanted, f), sid, wanted, f)
  {
    hide ReconcileAs, WithTargets, ResolveFrom, Served, Settled, SecretOurs, OneOwned, WellFormed, SecretTarget, Faithful, Material;
    hide TargetsOf, Agreement;
    ReconcileShape(a, w, sid, wanted, f);
    var r := ReconcileAs(a, w, sid, wanted, f);
    if Bookkept(w, r.w) && !r.end.Completed? {
      BookkeepingKeepsSound(a, at, w, r.w);
    } else {
      var resolved := ResolveFrom(w.spec.bucketRefs, w.views, f, 0, []);
      NoTargetsYet(w.spec.bucketRefs, w.views);
      ResolveFromFacts(w.spec.bucketRefs, w.views, f, 0, []);
      WithTargetsFacts(a, at, w, resolved.ts, sid, wanted, f);
    }
  }

  // ---------- A pass without failures ----------

  ghost predicate AllAnswered(f: Fates) {
    && Unhindered(f) && f.progress.Answered? && f.clearRotation.Answered? && f.last.Answered?
    && (forall j :: At(f.views, j).Answered?)
    && (forall j :: At(f.getBucket, j).Answered? && At(f.putBucket, j).Answered?)
  }

  /** The same, but for a write of the Secret that finds nothing to write to. */
  ghost predicate AnsweredOrMissing(f: Fates) {
    AllAnswered(f) || (AllAnswered(f.(putSecret := Answered)) && PutMissing(f) && f.error.Answered?)
  }

  /** The referenced bucket is ready and its remote bucket exists. */
  predicate BucketReady(w: World, ref: string) {
    && ref != "" && ref in w.views
    && w.views[ref].bucketName != "" && w.views[ref].hasResourceId && w.views[ref].ready
    && w.views[ref].bucketName in w.buckets
  }

  /** What the resource and its surroundings must provide for it to be served. */
  predicate Provided(a: Access, w: World, wanted: P.Resolution) {
    && Trim(a.organisation) != "" && wanted.Granted?
    && (w.spec.writeSecretTo.Some? && w.spec.writeSecretTo.value.name != "")
    && (forall i | 0 <= i < |w.spec.bucketRefs| :: BucketReady(w, w.spec.bucketRefs[i]))
  }

  lemma ResolvesAll(w: World, f: Fates)
    requires forall i | 0 <= i < |w.spec.bucketRefs| :: BucketReady(w, w.spec.bucketRefs[i])
    requires forall j :: At(f.views, j).Answered?
    ensures var r := ResolveFrom(w.spec.bucketRefs, w.views, f, 0, []);
      r.Targets? && TargetsOf(w.spec.bucketRefs, w.views, r.ts) && forall j | 0 <= j < |r.ts| :: r.ts[j].name in w.buckets
  {
    hide ResolveFrom;
    NoTargetsYet(w.spec.bucketRefs, w.views);
    ResolveFromFacts(w.spec.bucketRefs, w.views, f, 0, []);
  }

  lemma GrantAllSucceeds(w: World, obj: Status, g: Grant, rotated: bool, ts: seq<Target>, f: Fates)
    requires f.clearRotation.Answered? && f.last.Answered? && forall j :: At(f.getBucket, j).Answered? && At(f.putBucket, j).Answered?
    requires forall j | 0 <= j < |ts| :: ts[j].name in w.buckets
    ensures GrantAll(w, obj, g, rotated, ts, f).end.Completed?
  {
    hide GrantFrom, FailPass, NamesOf;
    GrantFromSucceeds(w.buckets, ts, g, f, 0);
  }

  /** With what it needs provided, every call answered, and a Secret that nobody else owns, a pass
      completes, whatever the status and IAM look like; even if the Secret cannot be written because
      its namespace is not there. */
  lemma PassSucceeds(a: Access, at: SecretRef, w: World, sid: string, wanted: P.Resolution, f: Fates)
    requires Manages(a, at, w.spec) && SecretOurs(a, at, w.ledger.secrets)
    requires Provided(a, w, wanted) && AnsweredOrMissing(f)
    ensures ReconcileAs(a, w, sid, wanted, f).end.Completed?
  {
    hide GrantAll, EnsureManaged, ResolveFrom, Trim, FailPass, SecretOurs, SecretTarget, BucketReady;
    ResolvesAll(w, f);
    var ts := ResolveFrom(w.spec.bucketRefs, w.views, f, 0, []).ts;
    var obj := Begun(w.ledger.status);
    EnsureManagedAnswers(a, at, w.spec, w.rotate, Persisted(w.ledger, obj, f.progress), obj.(permissions := wanted.actions), ts, f);
    var s := Prepared(a, w, ts, wanted, f);
    GrantAllSucceeds(w.(ledger := s.ledger), s.obj, Grant(sid, s.reply.value.arn, wanted.actions), s.reply.value.rotated, ts, f);
  }

  /** Every list of conditions whose last call is the recorded one has Ready true. */
  ghost predicate ShowsReady(st: Status) {
    forall cs, calls | C.UniqueKinds(cs) && |calls| > 0 && calls[|calls| - 1] == st.conditions ::
      C.True(C.AfterCalls(cs, calls), "Ready")
  }

  lemma AvailableShowsReady(st: Status)
    requires st.conditions.state.Available?
    ensures ShowsReady(st)
  {
    hide C.AfterCalls;
    forall cs, calls | C.UniqueKinds(cs) && |calls| > 0 && calls[|calls| - 1] == st.conditions
      ensures C.True(C.AfterCalls(cs, calls), "Ready")
    {
      C.ConditionMachine(cs, calls);
    }
  }

  // ---------- Runs ----------

  /** Passes that never mistake a Secret that is there for a missing one, while users delete or
      strip Secrets and request rotations, buckets come and go, and others leave this access's
      account and credentials alone and write only other Secrets. */
  ghost predicate Benign(a: Access, at: SecretRef, w: World, e: Event) {
    match e
    case Reconciled(f) => Faithful(at, w.ledger, f)
    case AccountAdded(_, owner) => owner != OwnerLabel(a)
    case AccountRemoved(id) => !OwnsId(a, w.ledger.iam.accounts, id)
    case SecretsChanged(secrets) =>
      (at in secrets <==> at in w.ledger.secrets) && (at in secrets ==> secrets[at] == w.ledger.secrets[at])
    case CredentialRemoved(cred) => cred in w.ledger.iam.creds ==> !OwnsId(a, w.ledger.iam.accounts, w.ledger.iam.creds[cred])
    case TornDown(_) => false
    case RotationWithdrawn => false
    case Respecified(_) => false
    case StatusChanged(_) => false
    case _ => true
  }

  ghost predicate BenignRun(a: Access, at: SecretRef, w: World, es: seq<Event>) {
    |es| == 0 || (BenignRun(a, at, w, es[..|es| - 1]) && Benign(a, at, Run(a, w, es[..|es| - 1]), es[|es| - 1]))
  }

  function Wanted(spec: Spec): P.Resolution {
    P.Resolve(spec.preset, spec.permissions)
  }

  lemma OthersKeepSound(a: Access, at: SecretRef, w: World, e: Event)
    requires Sound(a, at, w.rotate, w.ledger) && Benign(a, at, w, e) && !e.Reconciled?
    ensures var r := After(a, w, e);
      Sound(a, at, r.rotate, r.ledger) && r.spec == w.spec
  {
    hide Reconcile, Terminate, SecretOwned, ControlledByOther, OneOwned, WellFormed, OwnsId, SecretsAfter;
    OthersKeepAccounts(a, w.ledger.iam, e);
    OthersKeepSecret(a, at, w.ledger.secrets, e);
    OthersKeepOwned(a, w.ledger.iam, e);
  }

  lemma OthersKeepSecret(a: Access, at: SecretRef, secrets: map<SecretRef, Secret>, e: Event)
    requires SecretOurs(a, at, secrets)
    requires e.SecretsChanged? ==>
        (at in e.secrets <==> at in secrets) && (at in e.secrets ==> e.secrets[at] == secrets[at])
    ensures var r := SecretsAfter(secrets, e);
      SecretOurs(a, at, r) && (Material(r, at).Some? ==> Material(r, at) == Material(secrets, at))
  {}

  /** An owned account and its credentials stay when others act elsewhere. */
  lemma OthersKeepOwned(a: Access, iam: Iam, e: Event)
    requires WellFormed(iam)
    requires e.CredentialRemoved? && e.cred in iam.creds ==> !OwnsId(a, iam.accounts, iam.creds[e.cred])
    requires e.AccountRemoved? ==> !OwnsId(a, iam.accounts, e.id)
    ensures var r := IamAfter(iam, e);
      forall x | OwnsId(a, iam.accounts, x) :: OwnsId(a, r.accounts, x) && forall c | LiveOn(iam, x, c) :: LiveOn(r, x, c)
  {
    forall x | OwnsId(a, iam.accounts, x)
      ensures OwnsId(a, IamAfter(iam, e).accounts, x)
    {
      if e.AccountAdded? {
        FoundStaysFound(iam.accounts, [Account(iam.nextId, e.name, e.owner)], x);
      } else if e.AccountRemoved? {
        OthersStayFound(iam.accounts, e.id, x);
      }
    }
  }

  lemma {:induction false} RunKeepsSound(a: Access, at: SecretRef, w: World, es: seq<Event>)
    requires Manages(a, at, w.spec) && Sound(a, at, w.rotate, w.ledger) && BenignRun(a, at, w, es)
    ensures var r := Run(a, w, es);
      Sound(a, at, r.rotate, r.ledger) && r.spec == w.spec
  {
    hide ReconcileAs, P.Resolve, Sound, Manages, Served, Faithful, Material;
    if |es| > 0 {
      var most, e := es[..|es| - 1], es[|es| - 1];
      RunKeepsSound(a, at, w, most);
      var now := Run(a, w, most);
      if e.Reconciled? {
        ManagedPass(a, at, now, SidOf(a), Wanted(now.spec), e.f);
      } else {
        OthersKeepSound(a, at, now, e);
      }
    }
  }

  /** Between passes of every managed run: if the Secret holds keys and no rotation is pending,
      they are those of the tracked credential, which is live on the owned account. */
  lemma AgreementEver(a: Access, at: SecretRef, w: World, es: seq<Event>)
    requires Manages(a, at, w.spec) && WellFormed(w.ledger.iam) && OneOwned(a, w.ledger.iam.accounts)
    requires at !in w.ledger.secrets && BenignRun(a, at, w, es)
    ensures var r := Run(a, w, es);
      !r.rotate && Material(r.ledger.secrets, at).Some? ==> Settled(a, at, r.ledger)
  {
    hide Run, BenignRun, WellFormed, OneOwned, Settled;
    RunKeepsSound(a, at, w, es);
  }

  lemma SoundIsOurs(a: Access, at: SecretRef, rotate: bool, l: Ledger)
    requires Sound(a, at, rotate, l)
    ensures SecretOurs(a, at, l.secrets)
  {}

  /** Whatever passes were cut or failed before, wherever: one pass in which every call is answered
      completes, and leaves an owned account, a live tracked credential, a Secret with exactly its
      keys, a grant on every referenced bucket, no rotation request, and Ready true. */
  lemma CrashRecovery(a: Access, at: SecretRef, w: World, es: seq<Event>, f: Fates)
    requires Manages(a, at, w.spec) && Sound(a, at, w.rotate, w.ledger) && BenignRun(a, at, w, es)
    requires Provided(a, Run(a, w, es), Wanted(w.spec)) && AllAnswered(f)
    ensures var r := Reconcile(a, Run(a, w, es), f);
      && r.end.Completed? && !r.w.rotate
      && Served(a, at, r.w, SidOf(a), Wanted(w.spec))
      && ShowsReady(r.w.ledger.status)
  {
    hide ReconcileAs, P.Resolve, Sound, Manages, Served, Provided, Run, BenignRun, Material, ShowsReady;
    RunKeepsSound(a, at, w, es);
    var now := Run(a, w, es);
    assert SecretOurs(a, at, now.ledger.secrets) by {
      SoundIsOurs(a, at, now.rotate, now.ledger);
    }
    PassSucceeds(a, at, now, SidOf(a), Wanted(now.spec), f);
    ManagedPass(a, at, now, SidOf(a), Wanted(now.spec), f);
    AvailableShowsReady(Reconcile(a, now, f).w.ledger.status);
  }

  /** A rotation request is answered once.  It goes away only in a pass that made a credential which
      did not exist before, recorded it, stored its keys and granted every referenced bucket.  A
      completed pass leaves it pending exactly if its write of the Secret was refused with "not
      found". */
  lemma OneShotRotation(a: Access, at: SecretRef, w: World, es: seq<Event>, f: Fates)
    requires Manages(a, at, w.spec) && Sound(a, at, w.rotate, w.ledger) && BenignRun(a, at, w, es)
    requires Run(a, w, es).rotate && Faithful(at, Run(a, w, es).ledger, f)
    ensures var now := Run(a, w, es);
      var r := Reconcile(a, now, f);
      && (!r.w.rotate ==>
            && Served(a, at, r.w, SidOf(a), Wanted(w.spec))
            && r.w.ledger.status.cred.value !in now.ledger.iam.creds)
      && (r.end.Completed? ==> (r.w.rotate <==> PutMissing(f)))
  {
    hide ReconcileAs, P.Resolve, Sound, Manages, Served, Run, BenignRun, Material;
    RunKeepsSound(a, at, w, es);
    var now := Run(a, w, es);
    ManagedPass(a, at, now, SidOf(a), Wanted(now.spec), f);
  }

  /** Without a rotation request, and while the Secret holds keys, no pass makes or deletes an
      account or a credential. */
  lemma SettledMintsNothing(a: Access, at: SecretRef, w: World, es: seq<Event>, f: Fates)
    requires Manages(a, at, w.spec) && Sound(a, at, w.rotate, w.ledger) && BenignRun(a, at, w, es)
    requires Faithful(at, Run(a, w, es).ledger, f)
    ensures var now := Run(a, w, es);
      !now.rotate && Material(now.ledger.secrets, at).Some? ==> Reconcile(a, now, f).w.ledger.iam == now.ledger.iam
  {
    hide ReconcileAs, P.Resolve, Sound, Manages, Served, Run, BenignRun, Material;
    RunKeepsSound(a, at, w, es);
    var now := Run(a, w, es);
    ManagedPass(a, at, now, SidOf(a), Wanted(now.spec), f);
  }
}
