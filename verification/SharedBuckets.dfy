/** The buckets of an access as its co-owners see them: the Bucket controller and other accesses
    put nothing under its Sid and keep what it granted. */
module SharedBuckets {
  import opened Policy
  import opened BucketUpdate
  import opened CoOwnership
  import M = AccessModel
  import G = AccessGrants
  import R = AccessRevocation
  import V = AccessRecovery
  import P = Permissions

  /** A step on a bucket by anybody but the access with this Sid. */
  ghost predicate ByOthers(d: Desired, s: Step, sid: string) {
    match s
    case BucketPass => FreeSid(d, sid) && (d.policy.Parsed? ==> d.policy.document.version != "")
    case Grant(stmt) => stmt.sid != sid
    case Revoke(other) => other != sid
  }

  lemma OthersAddNothing(d: Desired, r: Record, s: Step, sid: string, x: Statement)
    requires ByOthers(d, s, sid) && x in Next(d, r, s).policy.statements && x.sid == sid
    ensures x in r.policy.statements
  {
    hide IsManagedSid, WantedVersioning;
    match s
    case BucketPass =>
      if d.policy.Parsed? {
        PreservedMembers(d.policy.document.statements, r.policy.statements);
      }
    case Grant(stmt) =>
    case Revoke(other) => OthersDrops(r.policy.statements, other);
  }

  /** So what co-owners do is among the events that runs of an access allow. */
  lemma CoOwnersAddNothing(buckets: map<string, Record>, n: string, d: Desired, s: Step, sid: string)
    requires n in buckets && ByOthers(d, s, sid)
    ensures R.NothingNew(buckets, buckets[n := Next(d, buckets[n], s)], sid)
  {
    hide Next, ByOthers;
    forall x | x in Next(d, buckets[n], s).policy.statements && x.sid == sid
      ensures x in buckets[n].policy.statements
    {
      OthersAddNothing(d, buckets[n], s, sid, x);
    }
  }

  lemma OthersKeepGrant(d: Desired, r: Record, s: Step, stmt: Statement)
    requires ByOthers(d, s, stmt.sid) && IsManagedSid(stmt.sid) && G.GrantedIn(r.policy, stmt)
    ensures G.GrantedIn(Next(d, r, s).policy, stmt)
  {
    hide Others, IsManagedSid;
    match s
    case BucketPass =>
      UpsertFixpoint(r.policy, stmt);
      BucketPassKeepsGrantSettled(d, {stmt}, r, stmt);
      UpsertFixpoint(Next(d, r, s).policy, stmt);
    case Grant(other) =>
      UpsertGrants(r.policy, other);
      UpsertKeepsOtherGrant(r.policy, other, stmt);
    case Revoke(other) =>
      OthersDrops(r.policy.statements, other);
      RemoveKeepsOtherGrant(r.policy, other, stmt.sid);
  }

  /** An access that is served stays served, whatever its co-owners do to the buckets. */
  lemma CoOwnersKeepServed(a: M.Access, at: M.SecretRef, w: M.World, wanted: P.Resolution, n: string, d: Desired, s: Step)
    requires V.Served(a, at, w, M.SidOf(a), wanted) && n in w.buckets && ByOthers(d, s, M.SidOf(a))
    ensures V.Served(a, at, w.(buckets := w.buckets[n := Next(d, w.buckets[n], s)]), M.SidOf(a), wanted)
  {
    hide Next, ByOthers, IsManagedSid, ManagedSid, G.GrantedIn, GrantStatement;
    var g := M.Grant(M.SidOf(a), ServiceAccountArn(a.organisation, w.ledger.status.account.value), wanted.actions);
    ManagedSidIsManaged(a.namespace, a.name);
    G.GrantedExactly(w.buckets, n, g);
    G.GrantedExactly(w.buckets[n := Next(d, w.buckets[n], s)], n, g);
    if G.GrantedOn(w.buckets, n, g) {
      G.SidOfGrant(g, n);
      OthersKeepGrant(d, w.buckets[n], s, g.On(n));
    }
  }

  /** A step of some co-owner on one of the buckets; a bucket that is gone is left alone. */
  datatype SharedStep = SharedStep(name: string, desired: Desired, step: Step)

  ghost function AfterShared(buckets: map<string, Record>, x: SharedStep): map<string, Record> {
    if x.name in buckets then buckets[x.name := Next(x.desired, buckets[x.name], x.step)] else buckets
  }

  ghost function SharedRun(buckets: map<string, Record>, xs: seq<SharedStep>): map<string, Record> {
    if |xs| == 0 then buckets else AfterShared(SharedRun(buckets, xs[..|xs| - 1]), xs[|xs| - 1])
  }

  ghost predicate AllByOthers(xs: seq<SharedStep>, sid: string) {
    forall i | 0 <= i < |xs| :: ByOthers(xs[i].desired, xs[i].step, sid)
  }

  /** An access that is served stays served through any number of steps of its co-owners, on any
      buckets in any order. */
  lemma {:induction false} ServedThroughout(a: M.Access, at: M.SecretRef, w: M.World, wanted: P.Resolution, xs: seq<SharedStep>)
    requires V.Served(a, at, w, M.SidOf(a), wanted) && AllByOthers(xs, M.SidOf(a))
    ensures V.Served(a, at, w.(buckets := SharedRun(w.buckets, xs)), M.SidOf(a), wanted)
  {
    hide V.Served, Next, ByOthers, M.SidOf;
    if |xs| == 0 {
      assert w.(buckets := w.buckets) == w;
    } else {
      var most, x := xs[..|xs| - 1], xs[|xs| - 1];
      ServedThroughout(a, at, w, wanted, most);
      var now := w.(buckets := SharedRun(w.buckets, most));
      if x.name in now.buckets {
        CoOwnersKeepServed(a, at, now, wanted, x.name, x.desired, x.step);
      }
    }
  }

  /** Nor do they ever put anything under its Sid. */
  lemma {:induction false} NothingNewThroughout(buckets: map<string, Record>, xs: seq<SharedStep>, sid: string)
    requires AllByOthers(xs, sid)
    ensures R.NothingNew(buckets, SharedRun(buckets, xs), sid)
  {
    hide Next, ByOthers;
    if |xs| > 0 {
      var most, x := xs[..|xs| - 1], xs[|xs| - 1];
      NothingNewThroughout(buckets, most, sid);
      var now := SharedRun(buckets, most);
      if x.name in now {
        CoOwnersAddNothing(now, x.name, x.desired, x.step, sid);
      }
    }
  }
}
