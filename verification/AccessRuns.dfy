/** Runs: passes with any fates, interleaved with whatever users and other controllers do. */
module AccessRuns {
  import opened Text
  import opened BucketUpdate
  import opened AccessModel
  import opened AccessSafety
  import P = Permissions

  datatype Event =
    | Reconciled(f: Fates)
    | TornDown(t: TeardownFates)
    | SecretDeleted(at: SecretRef)
    | SecretStripped(at: SecretRef, keepKey: bool, keepSecret: bool)
    | SecretsChanged(secrets: map<SecretRef, Secret>)
    | RotationRequested
    | RotationWithdrawn
    | Respecified(spec: Spec)
    | BucketsChanged(buckets: map<string, Record>, views: map<string, BucketView>)
    | AccountAdded(name: string, owner: string)
    | AccountRemoved(id: Id)
    | CredentialAdded(account: Id)
    | CredentialRemoved(cred: Id)
    | StatusChanged(status: Status)

  function Stripped(s: Secret, keepKey: bool, keepSecret: bool): Secret {
    s.(accessKey := if keepKey then s.accessKey else None, accessSecret := if keepSecret then s.accessSecret else None)
  }

  function SecretsAfter(secrets: map<SecretRef, Secret>, e: Event): map<SecretRef, Secret> {
    match e
    case SecretDeleted(at) => secrets - {at}
    case SecretStripped(at, k, s) => if at in secrets then secrets[at := Stripped(secrets[at], k, s)] else secrets
    case SecretsChanged(secrets') => secrets'
    case _ => secrets
  }

  /** What others do to IAM. */
  function IamAfter(iam: Iam, e: Event): Iam {
    match e
    case AccountAdded(name, owner) =>
      iam.(accounts := iam.accounts + [Account(iam.nextId, name, owner)], nextId := iam.nextId + 1)
    case AccountRemoved(id) => iam.(accounts := WithoutAccount(iam.accounts, id))
    case CredentialAdded(account) => iam.(creds := iam.creds[iam.nextId := account], nextId := iam.nextId + 1)
    case CredentialRemoved(cred) => iam.(creds := iam.creds - {cred})
    case _ => iam
  }

  ghost function After(a: Access, w: World, e: Event): World {
    match e
    case Reconciled(f) => Reconcile(a, w, f).w
    case TornDown(t) => Terminate(a, w, t)
    case RotationRequested => w.(rotate := true)
    case RotationWithdrawn => w.(rotate := false)
    case Respecified(spec) => w.(spec := spec)
    case StatusChanged(status) => w.(ledger := w.ledger.(status := status))
    case BucketsChanged(buckets, views) => w.(buckets := buckets, views := views)
    case _ => w.(ledger := w.ledger.(iam := IamAfter(w.ledger.iam, e), secrets := SecretsAfter(w.ledger.secrets, e)))
  }

  ghost function Run(a: Access, w: World, es: seq<Event>): World {
    if |es| == 0 then w else After(a, Run(a, w, es[..|es| - 1]), es[|es| - 1])
  }

  // ---------- Deletion ----------

  lemma {:induction false} WithoutAccountMembers(accounts: seq<Account>, id: Id)
    ensures forall x :: x in WithoutAccount(accounts, id) <==> x in accounts && x.id != id
  {
    if |accounts| > 0 {
      WithoutAccountMembers(accounts[1..], id);
      assert accounts == [accounts[0]] + accounts[1..];
    }
  }

  ghost predicate DistinctIds(accounts: seq<Account>) {
    forall i, j | 0 <= i < j < |accounts| :: accounts[i].id != accounts[j].id
  }

  lemma {:induction false} WithoutAccountDistinct(accounts: seq<Account>, id: Id)
    ensures DistinctIds(accounts) ==> DistinctIds(WithoutAccount(accounts, id))
  {
    if |accounts| > 0 {
      var r := WithoutAccount(accounts[1..], id);
      WithoutAccountDistinct(accounts[1..], id);
      WithoutAccountMembers(accounts[1..], id);
      forall j | 0 <= j < |r|
        ensures r[j] in accounts[1..]
      {}
    }
  }

  lemma {:induction false} WithoutAccountOneOwned(a: Access, accounts: seq<Account>, id: Id)
    ensures OneOwned(a, accounts) ==> OneOwned(a, WithoutAccount(accounts, id))
  {
    hide Owns;
    if |accounts| > 0 {
      var r := WithoutAccount(accounts[1..], id);
      WithoutAccountOneOwned(a, accounts[1..], id);
      WithoutAccountMembers(accounts[1..], id);
      forall j | 0 <= j < |r|
        ensures r[j] in accounts[1..]
      {}
    }
  }

  /** The accounts and credentials of others survive a teardown, and so does every Secret. */
  ghost predicate TeardownSafe(a: Access, l: Ledger, l': Ledger) {
    && WellFormed(l'.iam)
    && (OneOwned(a, l.iam.accounts) ==> OneOwned(a, l'.iam.accounts))
    && ForeignKept(a, l.iam, l'.iam)
    && (forall x, c | !OwnsId(a, l.iam.accounts, x) :: LiveOn(l.iam, x, c) <==> LiveOn(l'.iam, x, c))
    && l'.secrets == l.secrets && l'.status == l.status
  }

  /** Any account may go, by whoever's hand. */
  lemma WithoutAccountKeeps(a: Access, iam: Iam, id: Id)
    requires WellFormed(iam)
    ensures var r := iam.(accounts := WithoutAccount(iam.accounts, id));
      WellFormed(r) && (OneOwned(a, iam.accounts) ==> OneOwned(a, r.accounts))
  {
    hide Owns;
    WithoutAccountMembers(iam.accounts, id);
    WithoutAccountDistinct(iam.accounts, id);
    WithoutAccountOneOwned(a, iam.accounts, id);
    var r := WithoutAccount(iam.accounts, id);
    forall i | 0 <= i < |r|
      ensures r[i].id < iam.nextId
    {
      assert r[i] in iam.accounts;
    }
  }

  lemma {:induction false} OthersStayFound(accounts: seq<Account>, gone: Id, id: Id)
    requires id != gone
    ensures FindAccount(WithoutAccount(accounts, gone), id) == FindAccount(accounts, id)
  {
    if |accounts| > 0 {
      OthersStayFound(accounts[1..], gone, id);
      if accounts[0].id != gone {
        assert WithoutAccount(accounts, gone)[1..] == WithoutAccount(accounts[1..], gone);
      }
    }
  }

  lemma WithoutOwnedSafe(a: Access, iam: Iam, id: Id)
    requires WellFormed(iam) && OwnsId(a, iam.accounts, id)
    ensures var r := iam.(accounts := WithoutAccount(iam.accounts, id));
      && WellFormed(r)
      && (OneOwned(a, iam.accounts) ==> OneOwned(a, r.accounts))
      && ForeignKept(a, iam, r)
  {
    WithoutAccountKeeps(a, iam, id);
    WithoutAccountMembers(iam.accounts, id);
    FindAccountFacts(iam.accounts, id);
    forall i | 0 <= i < |iam.accounts| && !Owns(a, iam.accounts[i])
      ensures iam.accounts[i].id != id
    {
      var k :| 0 <= k < |iam.accounts| && iam.accounts[k] == FindAccount(iam.accounts, id).value && iam.accounts[k].id == id;
    }
  }

  ghost predicate ForeignKept(a: Access, iam: Iam, iam': Iam) {
    forall i | 0 <= i < |iam.accounts| && !Owns(a, iam.accounts[i]) :: iam.accounts[i] in iam'.accounts
  }

  lemma DeleteIamSafe(a: Access, iam: Iam, managed: bool, st: Status, f: TeardownFates)
    requires WellFormed(iam)
    ensures var r := DeleteIam(a, iam, managed, st, f).0;
      && WellFormed(r)
      && (OneOwned(a, iam.accounts) ==> OneOwned(a, r.accounts))
      && ForeignKept(a, iam, r)
      && (forall x, c | !OwnsId(a, iam.accounts, x) :: LiveOn(iam, x, c) <==> LiveOn(r, x, c))
  {
    hide OneOwned, WithoutAccount, Owns;
    if st.account.Some? && OwnsId(a, iam.accounts, st.account.value) {
      var id := st.account.value;
      var iam1 := if st.cred.Some? then DropCred(iam, id, st.cred.value, f.deleteCred) else iam;
      assert iam1.accounts == iam.accounts && WellFormed(iam1);
      WithoutOwnedSafe(a, iam1, id);
    }
  }

  lemma TerminateSafe(a: Access, w: World, sid: string, f: TeardownFates)
    requires WellFormed(w.ledger.iam)
    ensures TeardownSafe(a, w.ledger, TerminateAs(a, w, sid, f).ledger)
  {
    hide RevokeGranted, RevokeRefs, DeleteIam, OwnsId, OneOwned, Owns, WellFormed;
    DeleteIamSafe(a, w.ledger.iam, w.spec.principalRef.None?, w.ledger.status, f);
  }

  // ---------- All runs ----------

  /** Nobody else puts this access's ownership label on an account. */
  ghost predicate LabelIsOurs(a: Access, es: seq<Event>) {
    forall i | 0 <= i < |es| :: es[i].AccountAdded? ==> es[i].owner != OwnerLabel(a)
  }

  lemma OthersKeepAccounts(a: Access, iam: Iam, e: Event)
    requires WellFormed(iam) && (e.AccountAdded? ==> e.owner != OwnerLabel(a))
    ensures WellFormed(IamAfter(iam, e))
    ensures OneOwned(a, iam.accounts) ==> OneOwned(a, IamAfter(iam, e).accounts)
  {
    if e.AccountRemoved? {
      WithoutAccountKeeps(a, iam, e.id);
    }
  }

  lemma {:induction false} RunKeepsAccounts(a: Access, w: World, es: seq<Event>)
    requires WellFormed(w.ledger.iam) && LabelIsOurs(a, es)
    ensures WellFormed(Run(a, w, es).ledger.iam)
    ensures OneOwned(a, w.ledger.iam.accounts) ==> OneOwned(a, Run(a, w, es).ledger.iam.accounts)
  {
    hide ReconcileAs, TerminateAs, OwnsId, OneOwned, WellFormed, P.Resolve, IamAfter;
    if |es| > 0 {
      var most, e := es[..|es| - 1], es[|es| - 1];
      RunKeepsAccounts(a, w, most);
      var now := Run(a, w, most);
      match e
      case Reconciled(f) => ReconcileSafe(a, now, SidOf(a), P.Resolve(now.spec.preset, now.spec.permissions), f);
      case TornDown(t) => TerminateSafe(a, now, SidOf(a), t);
      case _ => OthersKeepAccounts(a, now.ledger.iam, e);
    }
  }

  /** If at most one account carries the ownership label at first, at most one ever does: over any
      number of passes cut or failing anywhere, lost replies and statuses, mode switches, deletions by
      this controller and by others. */
  lemma OneAccountEver(a: Access, w: World, es: seq<Event>)
    requires WellFormed(w.ledger.iam) && LabelIsOurs(a, es)
    requires OneOwned(a, w.ledger.iam.accounts)
    ensures OneOwned(a, Run(a, w, es).ledger.iam.accounts)
  {
    RunKeepsAccounts(a, w, es);
  }

  /** Whatever happened before, even if the status names somebody else's account, the next pass and
      the next teardown act on this access's own account only, and on no Secret of others. */
  lemma OwnershipSafety(a: Access, w: World, es: seq<Event>, f: Fates, t: TeardownFates)
    requires WellFormed(w.ledger.iam) && LabelIsOurs(a, es)
    ensures var now := Run(a, w, es);
      && OthersSafe(a, now.ledger, Reconcile(a, now, f).w.ledger)
      && TeardownSafe(a, now.ledger, Terminate(a, now, t).ledger)
  {
    hide ReconcileAs, TerminateAs, OwnsId, OneOwned, P.Resolve, IamAfter;
    RunKeepsAccounts(a, w, es);
    var now := Run(a, w, es);
    ReconcileSafe(a, now, SidOf(a), P.Resolve(now.spec.preset, now.spec.permissions), f);
    TerminateSafe(a, now, SidOf(a), t);
  }

  // ---------- Two accesses ----------

  /** Namespaces hold no dots, so the label determines the resource. */
  lemma OwnerLabelInjective(a: Access, b: Access)
    requires '.' !in a.namespace && '.' !in b.namespace
    requires OwnerLabel(a) == OwnerLabel(b)
    ensures a.namespace == b.namespace && a.name == b.name
  {
    SplitOnePart(a.namespace, a.name, '.');
    SplitOnePart(b.namespace, b.name, '.');
    assert OwnerLabel(a) == a.namespace + ['.'] + a.name;
    assert OwnerLabel(b) == b.namespace + ['.'] + b.name;
    assert a.namespace == Split(OwnerLabel(a), '.')[0] == b.namespace;
    assert a.name == OwnerLabel(a)[|a.namespace| + 1..] == b.name;
  }

  lemma {:induction false} FoundStaysFound(accounts: seq<Account>, more: seq<Account>, id: Id)
    requires FindAccount(accounts, id).Some?
    ensures FindAccount(accounts + more, id) == FindAccount(accounts, id)
  {
    assert (accounts + more)[0] == accounts[0];
    if accounts[0].id != id {
      assert (accounts + more)[1..] == accounts[1..] + more;
      FoundStaysFound(accounts[1..], more, id);
    }
  }

  lemma LabelsDiffer(a: Access, b: Access, accounts: seq<Account>, x: Id)
    requires '.' !in a.namespace && '.' !in b.namespace && (a.namespace, a.name) != (b.namespace, b.name)
    requires OwnsId(b, accounts, x)
    ensures !OwnsId(a, accounts, x)
  {
    if OwnerLabel(a) == OwnerLabel(b) {
      OwnerLabelInjective(a, b);
    }
  }

  lemma TeardownSparesAccount(a: Access, iam: Iam, managed: bool, st: Status, t: TeardownFates, x: Id)
    requires !OwnsId(a, iam.accounts, x)
    ensures FindAccount(DeleteIam(a, iam, managed, st, t).0.accounts, x) == FindAccount(iam.accounts, x)
  {
    hide OwnsId;
    if st.account.Some? && st.account.value != x {
      OthersStayFound(iam.accounts, st.account.value, x);
    }
  }

  /** Neither a pass nor a teardown of one access, whatever fails, changes the account of another or
      its credentials. */
  lemma AccessesDoNotMeet(a: Access, b: Access, w: World, f: Fates, t: TeardownFates, x: Id)
    requires WellFormed(w.ledger.iam)
    requires '.' !in a.namespace && '.' !in b.namespace && (a.namespace, a.name) != (b.namespace, b.name)
    requires OwnsId(b, w.ledger.iam.accounts, x)
    ensures AccountKept(w.ledger.iam, Reconcile(a, w, f).w.ledger.iam, x)
    ensures AccountKept(w.ledger.iam, Terminate(a, w, t).ledger.iam, x)
  {
    hide ReconcileAs, OneOwned, OwnsId, P.Resolve, RevokeGranted, RevokeRefs, DeleteIam, SidOf;
    var before := w.ledger.iam;
    var r := Reconcile(a, w, f).w.ledger.iam;
    ReconcileSafe(a, w, SidOf(a), P.Resolve(w.spec.preset, w.spec.permissions), f);
    assert FindAccount(r.accounts, x) == FindAccount(before.accounts, x) by {
      assert r.accounts == before.accounts + r.accounts[|before.accounts|..];
      FoundIsSome(b, before.accounts, x);
      FoundStaysFound(before.accounts, r.accounts[|before.accounts|..], x);
    }
    StillOwned(b, before.accounts, r.accounts, x);
    LabelsDiffer(a, b, r.accounts, x);
    LabelsDiffer(a, b, before.accounts, x);
    TerminateSafe(a, w, SidOf(a), t);
    TeardownSparesAccount(a, before, w.spec.principalRef.None?, w.ledger.status, t, x);
  }

  lemma FoundIsSome(b: Access, accounts: seq<Account>, x: Id)
    requires OwnsId(b, accounts, x)
    ensures FindAccount(accounts, x).Some?
  {}

  lemma StillOwned(b: Access, accounts: seq<Account>, accounts': seq<Account>, x: Id)
    requires FindAccount(accounts', x) == FindAccount(accounts, x)
    ensures OwnsId(b, accounts', x) <==> OwnsId(b, accounts, x)
  {}

  ghost predicate AccountKept(iam: Iam, iam': Iam, x: Id) {
    && FindAccount(iam'.accounts, x) == FindAccount(iam.accounts, x)
    && forall c :: LiveOn(iam, x, c) <==> LiveOn(iam', x, c)
  }
}
