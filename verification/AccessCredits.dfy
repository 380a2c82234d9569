/** Credentials do not accumulate: each pass leaves behind at most one that nothing tracks, and
    only if one particular call failed at one particular place. */
module AccessCredits {
  import opened Text
  import opened Faults
  import opened Policy
  import opened AccessModel
  import opened AccessSafety
  import opened AccessRuns
  import AccessRevocation
  import C = Conditions
  import P = Permissions

  function Live(iam: Iam, account: Id): set<Id> {
    set c | c in iam.creds && iam.creds[c] == account
  }

  function Opt(cred: Option<Id>): set<Id> {
    match cred
    case Some(c) => {c}
    case None => {}
  }

  /** The live credentials of the account that the status does not track. */
  function Loose(iam: Iam, account: Id, tracked: Option<Id>): set<Id> {
    Live(iam, account) - Opt(tracked)
  }

  /** Whether a pass that mints goes on to delete the tracked credential: it read the keys of one. */
  predicate Supersedes(prior: Option<Id>, stored: Option<(AccessKey, AccessSecret)>, f: Fates) {
    prior.Some? && stored.Some? && f.readSecret.Answered?
  }

  /** How many credentials a pass that has minted leaves loose, by the fates of the calls it makes. */
  function Loss(f: Fates, supersedes: bool): nat {
    // The reply was lost, or the pass was cut before the credential could be recorded.
    if !f.createCred.Answered? || (supersedes && f.deleteOld.Cuts()) then 1
    // Recorded: the old one is left behind if its best-effort deletion failed.
    else if f.credStatus.Applied() then (if supersedes && !f.deleteOld.Applied() then 1 else 0)
    // Not recorded: cut, or taken back as far as the best-effort rollback works.
    else if f.credStatus.Cuts() then 1
    else if f.rollback.Applied() then 0 else 1
  }

  // ---------- The credential stage ----------

  lemma DropLive(iam: Iam, account: Id, cred: Id, f: Fate)
    ensures var r := DropCred(iam, account, cred, f);
      Live(r, account) == if f.Applied() then Live(iam, account) - {cred} else Live(iam, account)
  {}

  lemma MintLive(iam: Iam, account: Id, prior: Option<Id>, rotate: bool, f: Fates)
    ensures var (iam1, r) := Mint(iam, account, prior, rotate, f);
      && (iam1.nextId == iam.nextId || iam1.nextId == iam.nextId + 1)
      && Live(iam1, account) <= Live(iam, account) + (if iam1.nextId == iam.nextId then {} else {iam.nextId})
      && (!r.Ok? ==> !f.createCred.Answered? || (prior.Some? && f.deleteOld.Cuts()))
      && (r.Ok? ==>
            && r.value.cred == iam.nextId && f.createCred.Answered? && iam1.nextId == iam.nextId + 1
            && (prior.Some? && prior.value != iam.nextId ==>
                  !f.deleteOld.Cuts() && (f.deleteOld.Applied() ==> prior.value !in Live(iam1, account))))
  {
    hide Live;
    var iam1 := Minted(iam, account, f.createCred);
    assert Live(iam1, account) == if f.createCred.Applied() then Live(iam, account) + {iam.nextId} else Live(iam, account) by {
      MintedLive(iam, account, f.createCred);
    }
    if prior.Some? {
      DropLive(iam1, account, prior.value, f.deleteOld);
    }
  }

  lemma MintedLive(iam: Iam, account: Id, f: Fate)
    ensures Live(Minted(iam, account, f), account) == if f.Applied() then Live(iam, account) + {iam.nextId} else Live(iam, account)
  {}

  /** The credential a pass leaves loose, if it leaves one: the new one, or the one it replaced. */
  function Stray(f: Fates, supersedes: bool, prior: Option<Id>, iam: Iam, iam': Iam): (r: set<Id>)
    ensures |r| <= if iam'.nextId == iam.nextId then 0 else Loss(f, supersedes)
  {
    if iam'.nextId == iam.nextId || Loss(f, supersedes) == 0 then {}
    else if f.createCred.Answered? && !(supersedes && f.deleteOld.Cuts()) && f.credStatus.Applied() then Opt(prior)
    else {iam.nextId}
  }

  /** A credential in use already comes back and IAM stays as it is. */
  ghost predicate Reused(iam: Iam, account: Id, prior: Option<Id>, iam1: Iam, cred: Id) {
    iam1 == iam && (prior == Some(cred) || (prior.None? && cred in Live(iam, account)))
  }

  /** A new one comes back; the prior one is gone if its deletion took effect. */
  ghost predicate Fresh(iam: Iam, account: Id, prior: Option<Id>, iam1: Iam, cred: Id, supersedes: bool, f: Fates) {
    && cred == iam.nextId && f.createCred.Answered? && iam1.nextId == iam.nextId + 1
    && Live(iam1, account) <= Live(iam, account) + {cred}
    && (prior.Some? && prior.value != cred && prior.value in Live(iam1, account) ==>
          supersedes && !f.deleteOld.Cuts() && !f.deleteOld.Applied())
  }

  lemma MintLoose(iam: Iam, account: Id, prior: Option<Id>, rotate: bool, f: Fates)
    ensures var (iam1, r) := Mint(iam, account, prior, rotate, f);
      if r.Ok? then Fresh(iam, account, prior, iam1, r.value.cred, prior.Some?, f)
      else Loose(iam1, account, prior) <= Loose(iam, account, prior) + Stray(f, prior.Some?, prior, iam, iam1)
  {
    hide Mint, Live;
    MintLive(iam, account, prior, rotate, f);
  }

  /** The tracked credential is deleted first: nothing is superseded any more. */
  lemma MintAfterLoss(iam: Iam, iam0: Iam, account: Id, lost: Id, rotate: bool, f: Fates)
    requires iam0.nextId == iam.nextId && Live(iam0, account) == Live(iam, account) - {lost}
    ensures var (iam1, r) := Mint(iam0, account, None, rotate, f);
      if r.Ok? then Fresh(iam, account, Some(lost), iam1, r.value.cred, false, f)
      else Loose(iam1, account, None) <= Loose(iam, account, Some(lost)) + Stray(f, false, Some(lost), iam, iam1)
  {
    hide Mint, Live;
    MintLive(iam0, account, None, rotate, f);
  }

  lemma ReplaceLoose(iam: Iam, obj: Status, account: Id, secretOk: bool, rotate: bool, f: Fates)
    ensures var c, sup := Replace(iam, obj, account, secretOk, rotate, f), obj.cred.Some? && secretOk;
      var base := Loose(iam, account, obj.cred) + Stray(f, sup, obj.cred, iam, c.iam);
      if c.reply.Ok? then Fresh(iam, account, obj.cred, c.iam, c.reply.value.cred, sup, f)
      else Loose(c.iam, account, obj.cred) <= base && Loose(c.iam, account, c.obj.cred) <= base
  {
    hide Mint, Live, Fresh, DropCred, Stray;
    if obj.cred.Some? && !secretOk {
      var lost := obj.cred.value;
      var iam0 := DropCred(iam, account, lost, f.deleteLost);
      DropLive(iam, account, lost, f.deleteLost);
      DropKeepsNext(iam, account, lost, f.deleteLost);
      if f.deleteLost.Answered? {
        MintAfterLoss(iam, iam0, account, lost, rotate, f);
      }
    } else {
      MintLoose(iam, account, obj.cred, rotate, f);
    }
  }

  lemma EnsureCredentialLoose(iam: Iam, obj: Status, account: Id, stored: Option<(AccessKey, AccessSecret)>, rotate: bool, f: Fates)
    ensures var c, sup := EnsureCredential(iam, obj, account, stored, rotate, f), Supersedes(obj.cred, stored, f);
      var base := Loose(iam, account, obj.cred) + Stray(f, sup, obj.cred, iam, c.iam);
      if c.reply.Ok? then
        || Reused(iam, account, obj.cred, c.iam, c.reply.value.cred)
        || Fresh(iam, account, obj.cred, c.iam, c.reply.value.cred, sup, f)
      else Loose(c.iam, account, obj.cred) <= base && Loose(c.iam, account, c.obj.cred) <= base
  {
    hide Replace, Fresh, Stray;
    var seen := if f.readSecret.Answered? then stored else None;
    ReplaceLoose(iam, obj, account, seen.Some?, rotate, f);
    ReplaceLoose(iam, obj, account, true, rotate, f);
  }

  /** Delivery leaves credentials and their tracking alone. */
  lemma DeliverKeeps(a: Access, at: SecretRef, l: Ledger, obj: Status, issue: Issue, arn: Arn, ts: seq<Target>, f: Fates)
    requires obj.cred == l.status.cred
    ensures var r := Deliver(a, at, l, obj, issue, arn, ts, f);
      r.ledger.iam == l.iam && r.ledger.status.cred == l.status.cred == r.obj.cred
  {
    hide WriteSecret, NamesOf, FirstEndpoint;
  }

  lemma RecordLoose(a: Access, at: SecretRef, iam: Iam, l: Ledger, obj: Status, prev: Option<Id>, account: Id, issue: Issue,
                    arn: Arn, ts: seq<Target>, supersedes: bool, f: Fates)
    requires l.status.cred == prev
    requires Reused(iam, account, prev, l.iam, issue.cred) || Fresh(iam, account, prev, l.iam, issue.cred, supersedes, f)
    ensures var r := RecordCredential(a, at, l, obj, prev, account, issue, arn, ts, f);
      && Loose(r.ledger.iam, account, r.ledger.status.cred) <= Loose(iam, account, prev) + Stray(f, supersedes, prev, iam, r.ledger.iam)
      && (r.reply.Ok? ==> r.obj.cred == r.ledger.status.cred)
  {
    hide Deliver, Live, DropCred;
    var obj1 := obj.(cred := Some(issue.cred), accessKey := Some(issue.accessKey));
    var l1 := Persisted(l, obj1, f.credStatus);
    if f.credStatus.Answered? {
      DeliverKeeps(a, at, l1, obj1, issue, arn, ts, f);
    }
    DropLive(l.iam, account, issue.cred, f.rollback);
    DropKeepsNext(l.iam, account, issue.cred, f.rollback);
  }

  lemma WithCredentialLoose(a: Access, at: SecretRef, rotate: bool, l: Ledger, obj: Status, account: Id, arn: Arn,
                            ts: seq<Target>, f: Fates)
    requires obj.cred == l.status.cred
    ensures var r, sup := WithCredential(a, at, rotate, l, obj, account, arn, ts, f), Supersedes(l.status.cred, Material(l.secrets, at), f);
      && Loose(r.ledger.iam, account, r.ledger.status.cred) <= Loose(l.iam, account, l.status.cred) + Stray(f, sup, l.status.cred, l.iam, r.ledger.iam)
      && (r.reply.Ok? ==> r.obj.cred == r.ledger.status.cred)
  {
    hide EnsureCredential, RecordCredential, Live, Loose, Stray, Fresh, Reused, Material;
    EnsureCredentialLoose(l.iam, obj, account, Material(l.secrets, at), rotate, f);
    var c := EnsureCredential(l.iam, obj, account, Material(l.secrets, at), rotate, f);
    if c.reply.Ok? {
      RecordLoose(a, at, l.iam, l.(iam := c.iam), c.obj, obj.cred, account, c.reply.value, arn, ts,
                  Supersedes(obj.cred, Material(l.secrets, at), f), f);
    }
  }

  // ---------- The managed stage ----------

  /** The same, for the Secret a spec names, if it names one. */
  predicate SupersedesAt(l: Ledger, target: Option<SecretRef>, f: Fates) {
    target.Some? && Supersedes(l.status.cred, Material(l.secrets, target.value), f)
  }

  lemma WithAccountLoose(a: Access, target: Option<SecretRef>, rotate: bool, l: Ledger, obj: Status, account: Id, ts: seq<Target>, f: Fates)
    requires obj.cred == l.status.cred
    ensures var r := WithAccount(a, target, rotate, l, obj, account, ts, f);
      && Loose(r.ledger.iam, account, r.ledger.status.cred) <=
           Loose(l.iam, account, l.status.cred) + Stray(f, SupersedesAt(l, target, f), l.status.cred, l.iam, r.ledger.iam)
      && (r.reply.Ok? ==> r.obj.cred == r.ledger.status.cred)
  {
    hide WithCredential, Loose, Stray, Supersedes, Material;
    var arn := ServiceAccountArn(a.organisation, account);
    var obj1 := obj.(account := Some(account), principal := Some(arn));
    if target.Some? {
      WithCredentialLoose(a, target.value, rotate, Persisted(l, obj1, f.accountStatus), obj1, account, arn, ts, f);
    }
  }

  /** The live credentials of accounts that carry the ownership label. */
  ghost function OwnedLive(a: Access, iam: Iam): set<Id> {
    set c | c in iam.creds && OwnsId(a, iam.accounts, iam.creds[c])
  }

  ghost function Untracked(a: Access, l: Ledger): set<Id> {
    OwnedLive(a, l.iam) - Opt(l.status.cred)
  }

  /** No credential is ahead of its account. */
  ghost predicate Placed(iam: Iam) {
    forall c | c in iam.creds :: iam.creds[c] < iam.nextId
  }

  lemma OwnedIsLive(a: Access, iam: Iam, x: Id)
    requires OneOwned(a, iam.accounts) && OwnsId(a, iam.accounts, x)
    ensures OwnedLive(a, iam) == Live(iam, x)
  {
    hide OneOwned, OwnsId;
    forall c | c in OwnedLive(a, iam)
      ensures iam.creds[c] == x
    {
      OneOwnedId(a, iam.accounts, iam.creds[c], x);
    }
  }

  lemma OwnedBelow(a: Access, iam: Iam, x: Id)
    requires WellFormed(iam) && OwnsId(a, iam.accounts, x)
    ensures x < iam.nextId
  {
    FindAccountFacts(iam.accounts, x);
  }

  /** A new account has no credentials yet, and before it there was no owned account. */
  lemma NewAccountLive(a: Access, iam: Iam, name: string)
    requires WellFormed(iam) && Placed(iam) && forall i | 0 <= i < |iam.accounts| :: !Owns(a, iam.accounts[i])
    ensures OwnedLive(a, iam) == {} == OwnedLive(a, WithNewAccount(a, iam, name))
  {
    var r := WithNewAccount(a, iam, name);
    forall c | c in iam.creds
      ensures !OwnsId(a, iam.accounts, iam.creds[c]) && !OwnsId(a, r.accounts, iam.creds[c])
    {
      FindAccountFacts(iam.accounts, iam.creds[c]);
      FindAccountFacts(r.accounts, iam.creds[c]);
    }
  }

  lemma AccountStageLive(a: Access, iam: Iam, name: string, tracked: Option<Id>, f: Fates)
    requires WellFormed(iam) && Placed(iam)
    ensures var iam1 := EnsureAccount(a, iam, name, tracked, f).0;
      OwnedLive(a, iam1) == OwnedLive(a, iam) && Placed(iam1)
  {
    hide OwnsId, OwnedLive;
    PickOwnedFacts(a, iam, name);
    if PickOwned(a, iam.accounts, name).None? {
      NewAccountLive(a, iam, name);
    }
  }

  lemma OnlyCredsOfPlaced(iam: Iam, iam': Iam, account: Id)
    requires Placed(iam) && OnlyCredsOf(iam, iam', account) && account < iam.nextId
    ensures Placed(iam')
  {
    forall c | c in iam'.creds
      ensures iam'.creds[c] < iam'.nextId
    {
      assert LiveOn(iam', iam'.creds[c], c);
      assert iam'.creds[c] != account ==> LiveOn(iam, iam'.creds[c], c);
    }
  }

  lemma UnionSize(r: set<Id>, x: set<Id>, y: set<Id>)
    requires r <= x + y
    ensures |r| <= |x| + |y|
  {
    SubsetSize(r, x + y);
    assert x + y == x + (y - x);
    SubsetSize(y - x, y);
  }

  /** How many credentials came into being; every account takes one identity as well. */
  function Mints(iam: Iam, iam': Iam): int {
    (iam'.nextId - iam.nextId) - (|iam'.accounts| - |iam.accounts|)
  }

  /** What a stage or pass may leave loose: nothing, unless it minted. */
  function Charge(iam: Iam, iam': Iam, supersedes: bool, f: Fates): nat {
    if Mints(iam, iam') == 0 then 0 else Loss(f, supersedes)
  }

  /** What the bound is kept by. */
  ghost predicate Sane(a: Access, l: Ledger) {
    WellFormed(l.iam) && OneOwned(a, l.iam.accounts) && Placed(l.iam)
  }

  lemma CredsOfOneSane(a: Access, l: Ledger, l': Ledger, account: Id)
    requires Sane(a, l) && OwnsId(a, l.iam.accounts, account) && OnlyCredsOf(l.iam, l'.iam, account)
    ensures Sane(a, l')
    ensures OwnedLive(a, l.iam) == Live(l.iam, account) && OwnedLive(a, l'.iam) == Live(l'.iam, account)
  {
    hide OwnsId, Live, OwnedLive, OneOwned;
    AccountThenCreds(a, l.iam, l.iam, l'.iam, account);
    OwnedBelow(a, l.iam, account);
    OnlyCredsOfPlaced(l.iam, l'.iam, account);
    OwnedIsLive(a, l.iam, account);
    OwnedIsLive(a, l'.iam, account);
  }

  lemma AccountedLoose(a: Access, target: Option<SecretRef>, rotate: bool, l: Ledger, obj: Status, account: Id, ts: seq<Target>, f: Fates)
    requires Sane(a, l) && OwnsId(a, l.iam.accounts, account) && obj.cred == l.status.cred
    ensures var r := WithAccount(a, target, rotate, l, obj, account, ts, f);
      && Sane(a, r.ledger)
      && |Untracked(a, r.ledger)| <= |Untracked(a, l)| + Charge(l.iam, r.ledger.iam, SupersedesAt(l, target, f), f)
      && (r.reply.Ok? ==> r.obj.cred == r.ledger.status.cred)
  {
    hide WithAccount, OwnsId, OwnedLive, Live, Loss, Sane, SupersedesAt;
    var l' := WithAccount(a, target, rotate, l, obj, account, ts, f).ledger;
    WellFormedOf(a, l);
    WithAccountSafe(a, target, rotate, l, obj, account, ts, f);
    CredsOfOneSane(a, l, l', account);
    WithAccountLoose(a, target, rotate, l, obj, account, ts, f);
    UnionSize(Untracked(a, l'), Untracked(a, l), Stray(f, SupersedesAt(l, target, f), l.status.cred, l.iam, l'.iam));
  }

  lemma WellFormedOf(a: Access, l: Ledger)
    requires Sane(a, l)
    ensures WellFormed(l.iam) && Placed(l.iam)
  {}

  lemma AccountStageLoose(a: Access, l: Ledger, name: string, tracked: Option<Id>, f: Fates)
    requires Sane(a, l)
    ensures var (iam, r) := EnsureAccount(a, l.iam, name, tracked, f);
      && Sane(a, l.(iam := iam)) && Untracked(a, l.(iam := iam)) == Untracked(a, l) && Mints(l.iam, iam) == 0
      && (r.Ok? ==> OwnsId(a, iam.accounts, r.value))
  {
    hide EnsureAccount, OwnsId, OwnedLive, OneOwned, Placed, WellFormed;
    AccountStageSafe(a, l.iam, name, tracked, f);
    AccountStageLive(a, l.iam, name, tracked, f);
    AccountStageMints(a, l.iam, name, tracked, f);
  }

  lemma AccountStageMints(a: Access, iam: Iam, name: string, tracked: Option<Id>, f: Fates)
    ensures Mints(iam, EnsureAccount(a, iam, name, tracked, f).0) == 0
  {
    hide OwnsId, PickOwned, OwnerLabel;
  }

  lemma EnsureManagedLoose(a: Access, spec: Spec, rotate: bool, l: Ledger, obj: Status, ts: seq<Target>, f: Fates)
    requires Sane(a, l) && obj.cred == l.status.cred
    ensures var r := EnsureManaged(a, spec, rotate, l, obj, ts, f);
      && Sane(a, r.ledger)
      && |Untracked(a, r.ledger)| <= |Untracked(a, l)| + Charge(l.iam, r.ledger.iam, SupersedesAt(l, SecretTarget(a, spec), f), f)
      && (r.reply.Ok? ==> r.obj.cred == r.ledger.status.cred)
  {
    hide EnsureAccount, WithAccount, AccountName, SecretTarget, OwnsId, Untracked, Loss, Sane, Supersedes, Material;
    if spec.writeSecretTo.Some? && spec.writeSecretTo.value.name != "" {
      var name := AccountName(a, spec);
      var (iam, r) := EnsureAccount(a, l.iam, name, obj.account, f);
      AccountStageLoose(a, l, name, obj.account, f);
      var st := Standing(obj, C.Degraded, "Failed");
      StatusKeepsUntracked(a, l.(iam := iam), Persisted(l.(iam := iam), st, f.error));
      if r.Ok? {
        AccountedLoose(a, SecretTarget(a, spec), rotate, l.(iam := iam), obj, r.value, ts, f);
      }
    } else {
      StatusKeepsUntracked(a, l, Persisted(l, Standing(obj, C.Degraded, "Failed"), f.error));
    }
  }

  // ---------- A pass ----------

  lemma StatusKeepsUntracked(a: Access, l: Ledger, l': Ledger)
    requires l'.iam == l.iam && l'.status.cred == l.status.cred
    ensures Untracked(a, l') == Untracked(a, l) && (Sane(a, l) ==> Sane(a, l'))
  {}

  lemma PreparedLoose(a: Access, w: World, ts: seq<Target>, wanted: P.Resolution, f: Fates)
    requires w.spec.principalRef.None? && wanted.Granted? && Sane(a, w.ledger)
    ensures var r := Prepared(a, w, ts, wanted, f);
      && Sane(a, r.ledger)
      && |Untracked(a, r.ledger)| <= |Untracked(a, w.ledger)| + PassCharge(a, w, r.ledger.iam, f)
      && (r.reply.Ok? ==> r.obj.cred == r.ledger.status.cred)
  {
    hide EnsureManaged, Sane, Untracked, Loss, Mints, Supersedes, Material, SecretTarget;
    var obj := Begun(w.ledger.status);
    var l := Persisted(w.ledger, obj, f.progress);
    StatusKeepsUntracked(a, w.ledger, l);
    EnsureManagedLoose(a, w.spec, w.rotate, l, obj.(permissions := wanted.actions), ts, f);
  }

  lemma GrantAllKeepsCred(w: World, obj: Status, g: Grant, rotated: bool, ts: seq<Target>, f: Fates)
    requires obj.cred == w.ledger.status.cred
    ensures var r := GrantAll(w, obj, g, rotated, ts, f).w.ledger;
      r.iam == w.ledger.iam && r.status.cred == w.ledger.status.cred
  {
    hide GrantFrom, NamesOf;
  }

  /** What a pass that leaves this IAM behind may leave loose. */
  function PassCharge(a: Access, w: World, iam': Iam, f: Fates): nat {
    Charge(w.ledger.iam, iam', SupersedesAt(w.ledger, SecretTarget(a, w.spec), f), f)
  }

  lemma NothingMinted(a: Access, w: World, f: Fates)
    ensures PassCharge(a, w, w.ledger.iam, f) == 0
  {}

  /** A managed pass, whatever its fates, leaves at most one credential behind, and none unless it
      minted one and a call it made then failed as Loss says. */
  lemma PassLoose(a: Access, w: World, sid: string, wanted: P.Resolution, f: Fates)
    requires w.spec.principalRef.None? && Sane(a, w.ledger)
    ensures var r := ReconcileAs(a, w, sid, wanted, f).w;
      && Sane(a, r.ledger)
      && |Untracked(a, r.ledger)| <= |Untracked(a, w.ledger)| + PassCharge(a, w, r.ledger.iam, f)
  {
    hide ReconcileAs, WithTargets, ResolveFrom, Prepared, GrantAll, Sane, Untracked, PassCharge;
    NothingMinted(a, w, f);
    ReconcileShape(a, w, sid, wanted, f);
    var r := ReconcileAs(a, w, sid, wanted, f);
    if Bookkept(w, r.w) && !r.end.Completed? {
      StatusKeepsUntracked(a, w.ledger, r.w.ledger);
    } else {
      var ts := ResolveFrom(w.spec.bucketRefs, w.views, f, 0, []).ts;
      WithTargetsShape(a, w, ts, sid, wanted, f);
      if Bookkept(w, r.w) && !r.end.Completed? {
        StatusKeepsUntracked(a, w.ledger, r.w.ledger);
      } else {
        PreparedLoose(a, w, ts, wanted, f);
        var s := Prepared(a, w, ts, wanted, f);
        if s.reply.Ok? {
          GrantAllKeepsCred(w.(ledger := s.ledger), s.obj, Grant(sid, s.reply.value.arn, wanted.actions), s.reply.value.rotated, ts, f);
          StatusKeepsUntracked(a, s.ledger, r.w.ledger);
        }
      }
    }
  }

  // ---------- Runs ----------

  /** The resource stays in managed mode, and others put no label on accounts, no credentials on
      owned accounts, and none on accounts that do not exist.  Anything may happen to Secrets. */
  ghost predicate ManagedEvent(a: Access, w: World, e: Event) {
    match e
    case Respecified(spec) => spec.principalRef.None?
    case AccountAdded(_, owner) => owner != OwnerLabel(a)
    case CredentialAdded(account) => account < w.ledger.iam.nextId && !OwnsId(a, w.ledger.iam.accounts, account)
    case StatusChanged(_) => false
    case _ => true
  }

  ghost predicate ManagedRun(a: Access, w: World, es: seq<Event>) {
    |es| == 0 || (ManagedRun(a, w, es[..|es| - 1]) && ManagedEvent(a, Run(a, w, es[..|es| - 1]), es[|es| - 1]))
  }

  /** The charges of the passes of a run, each at the state the pass found. */
  ghost function TotalLoss(a: Access, w: World, es: seq<Event>): nat {
    if |es| == 0 then 0
    else
      var now, e := Run(a, w, es[..|es| - 1]), es[|es| - 1];
      TotalLoss(a, w, es[..|es| - 1]) +
      if e.Reconciled? then PassCharge(a, now, After(a, now, e).ledger.iam, e.f) else 0
  }

  lemma OthersKeepUntracked(a: Access, w: World, e: Event)
    requires Sane(a, w.ledger) && ManagedEvent(a, w, e) && !e.Reconciled? && !e.TornDown?
    ensures var r := After(a, w, e);
      Sane(a, r.ledger) && |Untracked(a, r.ledger)| <= |Untracked(a, w.ledger)|
  {
    hide After, OwnsId, OneOwned, WellFormed, Placed, OwnedLive, IamAfter;
    OthersKeepAccounts(a, w.ledger.iam, e);
    OthersKeepLive(a, w.ledger.iam, e);
    OthersIam(a, w, e);
    SubsetSize(Untracked(a, After(a, w, e).ledger), Untracked(a, w.ledger));
  }

  lemma OthersIam(a: Access, w: World, e: Event)
    requires !e.Reconciled? && !e.TornDown? && !e.StatusChanged?
    ensures After(a, w, e).ledger.iam == IamAfter(w.ledger.iam, e) && After(a, w, e).ledger.status == w.ledger.status
  {
    hide Reconcile, Terminate, SecretsAfter;
  }

  lemma OthersKeepLive(a: Access, iam: Iam, e: Event)
    requires WellFormed(iam) && Placed(iam) && (e.AccountAdded? ==> e.owner != OwnerLabel(a))
    requires e.CredentialAdded? ==> e.account < iam.nextId && !OwnsId(a, iam.accounts, e.account)
    ensures OwnedLive(a, IamAfter(iam, e)) <= OwnedLive(a, iam) && Placed(IamAfter(iam, e))
  {
    hide OwnsId;
    forall c | c in OwnedLive(a, IamAfter(iam, e))
      ensures c in OwnedLive(a, iam)
    {
      OthersAddNoOwned(a, iam, e, IamAfter(iam, e).creds[c]);
    }
  }

  lemma OthersAddNoOwned(a: Access, iam: Iam, e: Event, x: Id)
    requires WellFormed(iam) && (e.AccountAdded? ==> e.owner != OwnerLabel(a)) && x < iam.nextId
    ensures OwnsId(a, IamAfter(iam, e).accounts, x) ==> OwnsId(a, iam.accounts, x)
  {
    if e.AccountRemoved? {
      WithoutAccountMembers(iam.accounts, e.id);
      FindAccountFacts(IamAfter(iam, e).accounts, x);
      if x != e.id {
        OthersStayFound(iam.accounts, e.id, x);
      }
    } else if e.AccountAdded? {
      var more := [Account(iam.nextId, e.name, e.owner)];
      FindAccountFacts(iam.accounts, x);
      FindAccountFacts(iam.accounts + more, x);
      if FindAccount(iam.accounts, x).Some? {
        FoundStaysFound(iam.accounts, more, x);
      }
    }
  }

  /** A teardown, finished or not, deletes at most the tracked credential and owned accounts. */
  lemma TeardownKeepsUntracked(a: Access, w: World, sid: string, t: TeardownFates)
    requires Sane(a, w.ledger)
    ensures var r := TerminateAs(a, w, sid, t);
      Sane(a, r.ledger) && r.spec == w.spec && |Untracked(a, r.ledger)| <= |Untracked(a, w.ledger)|
  {
    hide RevokeGranted, RevokeRefs, DeleteIam, OwnedLive, OneOwned, WellFormed, Placed;
    DeleteIamSafe(a, w.ledger.iam, w.spec.principalRef.None?, w.ledger.status, t);
    DeleteIamLive(a, w.ledger.iam, w.spec.principalRef.None?, w.ledger.status, t);
    SubsetSize(Untracked(a, TerminateAs(a, w, sid, t).ledger), Untracked(a, w.ledger));
  }

  lemma DeleteIamLive(a: Access, iam: Iam, managed: bool, st: Status, t: TeardownFates)
    requires WellFormed(iam) && Placed(iam)
    ensures var r := DeleteIam(a, iam, managed, st, t).0;
      OwnedLive(a, r) <= OwnedLive(a, iam) && Placed(r)
  {
    hide OwnsId, WithoutAccount;
    var r := DeleteIam(a, iam, managed, st, t).0;
    forall c | c in OwnedLive(a, r)
      ensures c in OwnedLive(a, iam)
    {
      if r.accounts != iam.accounts {
        WithoutAccountMembers(iam.accounts, st.account.value);
        FindAccountFacts(r.accounts, r.creds[c]);
        if r.creds[c] != st.account.value {
          OthersStayFound(iam.accounts, st.account.value, r.creds[c]);
          StillOwned(a, iam.accounts, r.accounts, r.creds[c]);
        }
      }
    }
  }

  lemma {:induction false} RunLoose(a: Access, w: World, es: seq<Event>)
    requires w.spec.principalRef.None? && Sane(a, w.ledger) && ManagedRun(a, w, es)
    ensures var r := Run(a, w, es);
      && Sane(a, r.ledger) && r.spec.principalRef.None?
      && |Untracked(a, r.ledger)| <= |Untracked(a, w.ledger)| + TotalLoss(a, w, es)
  {
    hide ReconcileAs, TerminateAs, Sane, Untracked, PassCharge, P.Resolve, IamAfter, SecretsAfter, OwnsId;
    if |es| > 0 {
      var most, e := es[..|es| - 1], es[|es| - 1];
      RunLoose(a, w, most);
      var now := Run(a, w, most);
      if e.Reconciled? {
        PassLoose(a, now, SidOf(a), P.Resolve(now.spec.preset, now.spec.permissions), e.f);
        AccessRevocation.PassWrites(a, now, SidOf(a), P.Resolve(now.spec.preset, now.spec.permissions), e.f);
      } else if e.TornDown? {
        TeardownKeepsUntracked(a, now, SidOf(a), e.t);
      } else {
        OthersKeepUntracked(a, now, e);
      }
    }
  }

  /** However often Secrets vanish, reads fail and rotations are requested: the owned account has at
      most one live credential, plus those that were loose at first, plus one for each pass that minted
      and was cut or lost a reply before recording, or whose best-effort deletion then failed. */
  lemma CredentialsDoNotAccumulate(a: Access, w: World, es: seq<Event>)
    requires w.spec.principalRef.None? && Sane(a, w.ledger) && ManagedRun(a, w, es)
    ensures |OwnedLive(a, Run(a, w, es).ledger.iam)| <= 1 + |Untracked(a, w.ledger)| + TotalLoss(a, w, es)
  {
    hide OwnedLive, ManagedRun, Run, Sane;
    RunLoose(a, w, es);
    var l := Run(a, w, es).ledger;
    UnionSize(OwnedLive(a, l.iam), Untracked(a, l), Opt(l.status.cred));
  }
}
