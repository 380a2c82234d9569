/** What holds of every pass in every mode: whose accounts, credentials and Secrets a BucketAccess
    acts on, and that it never has two accounts. */
module AccessSafety {
  import opened Text
  import opened Faults
  import opened Policy
  import opened AccessModel
  import P = Permissions

  // ---------- Accounts ----------

  /** Identities are distinct, and none is ahead of the next fresh one. */
  ghost predicate WellFormed(iam: Iam) {
    && (forall i | 0 <= i < |iam.accounts| :: iam.accounts[i].id < iam.nextId)
    && (forall i, j | 0 <= i < j < |iam.accounts| :: iam.accounts[i].id != iam.accounts[j].id)
    && (forall c | c in iam.creds :: c < iam.nextId)
  }

  /** At most one account carries this access's ownership label. */
  ghost predicate OneOwned(a: Access, accounts: seq<Account>) {
    forall i, j | 0 <= i < j < |accounts| :: !(Owns(a, accounts[i]) && Owns(a, accounts[j]))
  }

  lemma {:induction false} FindAccountFacts(accounts: seq<Account>, id: Id)
    ensures FindAccount(accounts, id).Some? ==>
        exists i | 0 <= i < |accounts| :: accounts[i] == FindAccount(accounts, id).value && accounts[i].id == id
    ensures FindAccount(accounts, id).None? ==> forall i | 0 <= i < |accounts| :: accounts[i].id != id
  {
    if |accounts| > 0 && accounts[0].id != id {
      FindAccountFacts(accounts[1..], id);
      if FindAccount(accounts, id).Some? {
        var i :| 0 <= i < |accounts[1..]| && accounts[1..][i] == FindAccount(accounts, id).value && accounts[1..][i].id == id;
        assert accounts[i + 1] == FindAccount(accounts, id).value;
      } else {
        forall i | 0 <= i < |accounts|
          ensures accounts[i].id != id
        {
          assert i > 0 ==> accounts[1..][i - 1] == accounts[i];
        }
      }
    }
  }

  predicate Matches(a: Access, account: Account, name: Option<string>) {
    Owns(a, account) && (name.Some? ==> account.name == name.value)
  }

  lemma {:induction false} FirstOwnedFacts(a: Access, accounts: seq<Account>, name: Option<string>)
    ensures match FirstOwned(a, accounts, name)
      case Some(id) => exists i | 0 <= i < |accounts| :: Matches(a, accounts[i], name) && accounts[i].id == id
      case None => forall i | 0 <= i < |accounts| :: !Matches(a, accounts[i], name)
  {
    hide Owns;
    if |accounts| > 0 {
      FirstOwnedFacts(a, accounts[1..], name);
      match FirstOwned(a, accounts, name)
      case Some(id) =>
        if !(Matches(a, accounts[0], name) && accounts[0].id == id) {
          var i :| 0 <= i < |accounts[1..]| && Matches(a, accounts[1..][i], name) && accounts[1..][i].id == id;
          assert accounts[i + 1] == accounts[1..][i];
        }
      case None =>
        forall i | 0 <= i < |accounts|
          ensures !Matches(a, accounts[i], name)
        {
          assert i > 0 ==> accounts[1..][i - 1] == accounts[i];
        }
    }
  }

  /** With distinct identities, looking an owned account up finds it. */
  lemma OwnedIsFound(a: Access, iam: Iam, i: nat)
    requires WellFormed(iam) && i < |iam.accounts| && Owns(a, iam.accounts[i])
    ensures OwnsId(a, iam.accounts, iam.accounts[i].id) && FindAccount(iam.accounts, iam.accounts[i].id).value == iam.accounts[i]
  {
    FindAccountFacts(iam.accounts, iam.accounts[i].id);
  }

  /** With one owned account there is one owned identity. */
  lemma OneOwnedId(a: Access, accounts: seq<Account>, x: Id, y: Id)
    requires OneOwned(a, accounts) && OwnsId(a, accounts, x) && OwnsId(a, accounts, y)
    ensures x == y
  {
    FindAccountFacts(accounts, x);
    FindAccountFacts(accounts, y);
  }

  /** A match among the owned accounts is owned, and has the wanted name if an owned account has it;
      without a match there is no owned account. */
  lemma PickOwnedFacts(a: Access, iam: Iam, name: string)
    requires WellFormed(iam)
    ensures match PickOwned(a, iam.accounts, name)
      case Some(id) =>
        && OwnsId(a, iam.accounts, id)
        && ((exists i | 0 <= i < |iam.accounts| :: Matches(a, iam.accounts[i], Some(name))) ==>
              FindAccount(iam.accounts, id).value.name == name)
      case None => forall i | 0 <= i < |iam.accounts| :: !Owns(a, iam.accounts[i])
  {
    hide Owns;
    FirstOwnedFacts(a, iam.accounts, Some(name));
    FirstOwnedFacts(a, iam.accounts, None);
    var picked := PickOwned(a, iam.accounts, name);
    if FirstOwned(a, iam.accounts, Some(name)).Some? {
      var i :| 0 <= i < |iam.accounts| && Matches(a, iam.accounts[i], Some(name)) && iam.accounts[i].id == picked.value;
      OwnedIsFound(a, iam, i);
    } else if picked.Some? {
      var i :| 0 <= i < |iam.accounts| && Matches(a, iam.accounts[i], None) && iam.accounts[i].id == picked.value;
      OwnedIsFound(a, iam, i);
    } else {
      forall i | 0 <= i < |iam.accounts|
        ensures !Owns(a, iam.accounts[i])
      {
        assert !Matches(a, iam.accounts[i], None);
      }
    }
  }

  lemma NewAccountFacts(a: Access, iam: Iam, name: string)
    requires WellFormed(iam)
    ensures var r := WithNewAccount(a, iam, name);
      WellFormed(r) && OwnsId(a, r.accounts, iam.nextId) && OneMore(a, iam.accounts, r.accounts)
  {
    var r := WithNewAccount(a, iam, name);
    assert Owns(a, r.accounts[|iam.accounts|]);
    OwnedIsFound(a, r, |iam.accounts|);
  }

  /** One account more, at the end, carrying the label. */
  ghost predicate OneMore(a: Access, before: seq<Account>, after: seq<Account>) {
    |after| == |before| + 1 && after[..|before|] == before && Owns(a, after[|before|])
  }

  /** The account stage creates an account only if none carries the label, and whatever it answers
      with carries the label. */
  lemma EnsureAccountFacts(a: Access, iam: Iam, name: string, tracked: Option<Id>, f: Fates)
    requires WellFormed(iam)
    ensures var (iam1, r) := EnsureAccount(a, iam, name, tracked, f);
      && WellFormed(iam1)
      && iam1.creds == iam.creds && iam1.members == iam.members && iam.nextId <= iam1.nextId
      && (iam1 == iam || (OneMore(a, iam.accounts, iam1.accounts) && forall i | 0 <= i < |iam.accounts| :: !Owns(a, iam.accounts[i])))
      && (r.Ok? ==> OwnsId(a, iam1.accounts, r.value))
  {
    PickOwnedFacts(a, iam, name);
    NewAccountFacts(a, iam, name);
  }

  // ---------- Credentials ----------

  /** Only credentials of the given account come or go. */
  ghost predicate OnlyCredsOf(iam: Iam, iam': Iam, account: Id) {
    && iam'.accounts == iam.accounts && iam'.members == iam.members && iam.nextId <= iam'.nextId
    && (forall c | c in iam'.creds :: c < iam'.nextId)
    && (forall x, c | x != account :: LiveOn(iam, x, c) <==> LiveOn(iam', x, c))
  }

  lemma DropKeepsNext(iam: Iam, account: Id, cred: Id, f: Fate)
    ensures DropCred(iam, account, cred, f).nextId == iam.nextId
  {}

  lemma MintOnlyCredsOf(iam: Iam, account: Id, prior: Option<Id>, rotate: bool, f: Fates)
    requires WellFormed(iam)
    ensures OnlyCredsOf(iam, Mint(iam, account, prior, rotate, f).0, account)
  {}

  lemma EnsureCredentialOnlyCredsOf(iam: Iam, obj: Status, account: Id, stored: Option<(AccessKey, AccessSecret)>, rotate: bool, f: Fates)
    requires WellFormed(iam)
    ensures OnlyCredsOf(iam, EnsureCredential(iam, obj, account, stored, rotate, f).iam, account)
  {
    MintOnlyCredsOf(iam, account, obj.cred, rotate, f);
    if obj.cred.Some? {
      MintOnlyCredsOf(DropCred(iam, account, obj.cred.value, f.deleteLost), account, None, rotate, f);
    }
  }

  // ---------- Secrets ----------

  /** A Secret this access does not own is left as it is. */
  ghost predicate SecretsGuarded(a: Access, before: map<SecretRef, Secret>, after: map<SecretRef, Secret>) {
    forall at | at in before && !SecretOwned(a, before[at]) :: at in after && after[at] == before[at]
  }

  // ---------- The managed stage ----------

  lemma DeliverFrame(a: Access, at: SecretRef, l: Ledger, obj: Status, issue: Issue, arn: Arn, ts: seq<Target>, f: Fates)
    ensures var r := Deliver(a, at, l, obj, issue, arn, ts, f).ledger;
      r.iam == l.iam && SecretsGuarded(a, l.secrets, r.secrets)
  {
    hide Stamped, SecretOwned, NamesOf, FirstEndpoint;
  }

  lemma RecordFrame(a: Access, at: SecretRef, l: Ledger, obj: Status, prev: Option<Id>, account: Id, issue: Issue,
                    arn: Arn, ts: seq<Target>, f: Fates)
    ensures var r := RecordCredential(a, at, l, obj, prev, account, issue, arn, ts, f).ledger;
      (r.iam == l.iam || r.iam == DropCred(l.iam, account, issue.cred, f.rollback)) && SecretsGuarded(a, l.secrets, r.secrets)
  {
    var obj1 := obj.(cred := Some(issue.cred), accessKey := Some(issue.accessKey));
    DeliverFrame(a, at, Persisted(l, obj1, f.credStatus), obj1, issue, arn, ts, f);
  }

  lemma WithCredentialFrame(a: Access, at: SecretRef, rotate: bool, l: Ledger, obj: Status, account: Id, arn: Arn,
                            ts: seq<Target>, f: Fates)
    requires WellFormed(l.iam)
    ensures var r := WithCredential(a, at, rotate, l, obj, account, arn, ts, f).ledger;
      OnlyCredsOf(l.iam, r.iam, account) && SecretsGuarded(a, l.secrets, r.secrets)
  {
    var stored := Material(l.secrets, at);
    EnsureCredentialOnlyCredsOf(l.iam, obj, account, stored, rotate, f);
    var c := EnsureCredential(l.iam, obj, account, stored, rotate, f);
    if c.reply.Ok? {
      RecordFrame(a, at, l.(iam := c.iam), c.obj, obj.cred, account, c.reply.value, arn, ts, f);
    }
  }

  /** The accounts of others, their credentials and their Secrets are out of reach. */
  ghost predicate OthersSafe(a: Access, l: Ledger, l': Ledger) {
    && AccountsSafe(a, l.iam, l'.iam)
    && SecretsGuarded(a, l.secrets, l'.secrets)
  }

  ghost predicate AccountsSafe(a: Access, iam: Iam, iam': Iam) {
    && WellFormed(iam')
    && (iam'.accounts == iam.accounts || OneMore(a, iam.accounts, iam'.accounts))
    && (OneOwned(a, iam.accounts) ==> OneOwned(a, iam'.accounts))
    && (forall x, c | !OwnsId(a, iam'.accounts, x) :: LiveOn(iam, x, c) <==> LiveOn(iam', x, c))
  }

  lemma WithAccountSafe(a: Access, target: Option<SecretRef>, rotate: bool, l: Ledger, obj: Status, account: Id, ts: seq<Target>, f: Fates)
    requires WellFormed(l.iam)
    ensures var r := WithAccount(a, target, rotate, l, obj, account, ts, f).ledger;
      OnlyCredsOf(l.iam, r.iam, account) && SecretsGuarded(a, l.secrets, r.secrets)
  {
    var arn := ServiceAccountArn(a.organisation, account);
    var obj1 := obj.(account := Some(account), principal := Some(arn));
    if target.Some? {
      WithCredentialFrame(a, target.value, rotate, Persisted(l, obj1, f.accountStatus), obj1, account, arn, ts, f);
    }
  }

  /** Two stages in a row: find or create the account, then act on its credentials only. */
  lemma AccountThenCreds(a: Access, iam: Iam, iam1: Iam, iam2: Iam, account: Id)
    requires WellFormed(iam) && WellFormed(iam1) && iam1.creds == iam.creds
    requires iam1 == iam || (OneMore(a, iam.accounts, iam1.accounts) && forall i | 0 <= i < |iam.accounts| :: !Owns(a, iam.accounts[i]))
    requires OwnsId(a, iam1.accounts, account) && OnlyCredsOf(iam1, iam2, account)
    ensures AccountsSafe(a, iam, iam2)
  {
    NewAccountKeepsOne(a, iam, iam1);
    forall x, c | !OwnsId(a, iam2.accounts, x)
      ensures LiveOn(iam, x, c) <==> LiveOn(iam2, x, c)
    {
      assert LiveOn(iam, x, c) <==> LiveOn(iam1, x, c);
    }
  }

  lemma NewAccountKeepsOne(a: Access, iam: Iam, iam1: Iam)
    requires iam1 == iam || (OneMore(a, iam.accounts, iam1.accounts) && forall i | 0 <= i < |iam.accounts| :: !Owns(a, iam.accounts[i]))
    ensures OneOwned(a, iam.accounts) ==> OneOwned(a, iam1.accounts)
  {
    if iam1 != iam {
      forall i | 0 <= i < |iam.accounts|
        ensures !Owns(a, iam1.accounts[i])
      {
        assert iam1.accounts[..|iam.accounts|][i] == iam.accounts[i];
      }
    }
  }

  lemma EnsureManagedSafe(a: Access, spec: Spec, rotate: bool, l: Ledger, obj: Status, ts: seq<Target>, f: Fates)
    requires WellFormed(l.iam)
    ensures OthersSafe(a, l, EnsureManaged(a, spec, rotate, l, obj, ts, f).ledger)
  {
    hide WithAccount, EnsureAccount;
    if spec.writeSecretTo.Some? && spec.writeSecretTo.value.name != "" {
      var (iam, r) := EnsureAccount(a, l.iam, AccountName(a, spec), obj.account, f);
      AccountStageSafe(a, l.iam, AccountName(a, spec), obj.account, f);
      if r.Ok? {
        var l2 := WithAccount(a, SecretTarget(a, spec), rotate, l.(iam := iam), obj, r.value, ts, f).ledger;
        WithAccountSafe(a, SecretTarget(a, spec), rotate, l.(iam := iam), obj, r.value, ts, f);
        AccountThenCreds(a, l.iam, iam, l2.iam, r.value);
      }
    }
  }

  lemma AccountStageSafe(a: Access, iam: Iam, name: string, tracked: Option<Id>, f: Fates)
    requires WellFormed(iam)
    ensures var (iam1, r) := EnsureAccount(a, iam, name, tracked, f);
      && AccountsSafe(a, iam, iam1) && iam1.creds == iam.creds
      && (iam1 == iam || (OneMore(a, iam.accounts, iam1.accounts) && forall i | 0 <= i < |iam.accounts| :: !Owns(a, iam.accounts[i])))
      && (r.Ok? ==> OwnsId(a, iam1.accounts, r.value))
  {
    EnsureAccountFacts(a, iam, name, tracked, f);
    NewAccountKeepsOne(a, iam, EnsureAccount(a, iam, name, tracked, f).0);
  }

  // ---------- One pass ----------

  /** Two statuses that differ in what is reported only. */
  ghost predicate SameDealings(st: Status, st': Status) {
    && st'.account == st.account && st'.principal == st.principal && st'.cred == st.cred
    && st'.accessKey == st.accessKey && st'.granted == st.granted && st'.secret == st.secret
  }

  /** A step that at most reports something in the status. */
  ghost predicate Bookkept(w: World, w': World) {
    w' == w.(ledger := w.ledger.(status := w'.ledger.status)) && SameDealings(w.ledger.status, w'.ledger.status)
  }

  /** A pass either only reports, or goes on with the buckets it resolved. */
  lemma ReconcileShape(a: Access, w: World, sid: string, wanted: P.Resolution, f: Fates)
    ensures var r := ReconcileAs(a, w, sid, wanted, f);
      var resolved := ResolveFrom(w.spec.bucketRefs, w.views, f, 0, []);
      || (Bookkept(w, r.w) && !r.end.Completed?)
      || (resolved.Targets? && !(w.spec.principalRef.Some? && w.rotate) && r == WithTargets(a, w, resolved.ts, sid, wanted, f))
  {
    hide WithTargets, ResolveFrom, Trim;
  }

  /** What a pass has prepared when it starts granting. */
  ghost function Prepared(a: Access, w: World, ts: seq<Target>, wanted: P.Resolution, f: Fates): Stage
    requires wanted.Granted?
  {
    var obj := Begun(w.ledger.status);
    Prepare(a, w, Persisted(w.ledger, obj, f.progress), obj.(permissions := wanted.actions), ts, f)
  }

  /** Then it only reports, or stops after the preparation, or grants. */
  lemma WithTargetsShape(a: Access, w: World, ts: seq<Target>, sid: string, wanted: P.Resolution, f: Fates)
    ensures var r := WithTargets(a, w, ts, sid, wanted, f);
      || (Bookkept(w, r.w) && !r.end.Completed?)
      || (&& wanted.Granted? && f.progress.Answered?
          && var s := Prepared(a, w, ts, wanted, f);
          && var w1 := w.(ledger := s.ledger);
          && (if s.reply.Ok? then
                r == GrantAll(w1, s.obj, Grant(sid, s.reply.value.arn, wanted.actions), s.reply.value.rotated, ts, f)
              else r.w == w1 && !r.end.Completed?))
  {
    hide GrantAll, Prepare;
  }

  /** From the grants on, of the ledger only the status changes. */
  lemma GrantAllLedger(w: World, obj: Status, g: Grant, rotated: bool, ts: seq<Target>, f: Fates)
    ensures var r := GrantAll(w, obj, g, rotated, ts, f).w.ledger;
      r.iam == w.ledger.iam && r.secrets == w.ledger.secrets
  {
    hide GrantFrom;
  }

  lemma PreparedSafe(a: Access, w: World, ts: seq<Target>, wanted: P.Resolution, f: Fates)
    requires WellFormed(w.ledger.iam) && wanted.Granted?
    ensures OthersSafe(a, w.ledger, Prepared(a, w, ts, wanted, f).ledger)
  {
    hide EnsureManaged, ResolvePrincipal, OwnsId, SecretOwned, OneOwned;
    var obj := Begun(w.ledger.status);
    EnsureManagedSafe(a, w.spec, w.rotate, Persisted(w.ledger, obj, f.progress), obj.(permissions := wanted.actions), ts, f);
  }

  /** In every mode, with every fate of its calls, a pass keeps the accounts of others and their
      credentials as they are, overwrites no Secret it does not own, and adds at most one account,
      its own, which is then the only one. */
  lemma ReconcileSafe(a: Access, w: World, sid: string, wanted: P.Resolution, f: Fates)
    requires WellFormed(w.ledger.iam)
    ensures OthersSafe(a, w.ledger, ReconcileAs(a, w, sid, wanted, f).w.ledger)
  {
    hide ReconcileAs, WithTargets, Prepared, GrantAll, ResolveFrom, OwnsId, SecretOwned, OneOwned;
    ReconcileShape(a, w, sid, wanted, f);
    var resolved := ResolveFrom(w.spec.bucketRefs, w.views, f, 0, []);
    if resolved.Targets? {
      WithTargetsShape(a, w, resolved.ts, sid, wanted, f);
      if wanted.Granted? {
        PreparedSafe(a, w, resolved.ts, wanted, f);
        var s := Prepared(a, w, resolved.ts, wanted, f);
        if s.reply.Ok? {
          GrantAllLedger(w.(ledger := s.ledger), s.obj, Grant(sid, s.reply.value.arn, wanted.actions), s.reply.value.rotated, resolved.ts, f);
        }
      }
    }
  }
}
