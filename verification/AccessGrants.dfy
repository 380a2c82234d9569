/** Granting on, and revoking from, the buckets of an access: loops that can stop at any call. */
module AccessGrants {
  import opened Faults
  import opened Policy
  import opened BucketUpdate
  import opened AccessModel

  /** The policy grants exactly this statement under its Sid. */
  ghost predicate GrantedIn(p: Document, stmt: Statement) {
    p.version != "" && Carries(p.statements, stmt.sid) && OnlyAs(p.statements, stmt)
  }

  /** The bucket is there; its policy allows the principal the actions on this bucket and its objects,
      and says nothing else under the Sid. */
  ghost predicate GrantedOn(buckets: map<string, Record>, name: string, g: Grant) {
    && name in buckets && buckets[name].policy.version != ""
    && AllowsExactly(buckets[name].policy, g.sid, g.arn, name, g.actions)
  }

  lemma GrantedExactly(buckets: map<string, Record>, name: string, g: Grant)
    ensures GrantedOn(buckets, name, g) <==> name in buckets && GrantedIn(buckets[name].policy, g.On(name))
  {
    if name in buckets {
      GrantAllows(buckets[name].policy, g.sid, g.arn, name, g.actions);
    }
  }

  /** Only statements under one Sid were touched. */
  ghost predicate OnlySid(buckets: map<string, Record>, buckets': map<string, Record>, sid: string) {
    && (forall n :: n in buckets <==> n in buckets')
    && (forall n | n in buckets ::
          && buckets'[n] == buckets[n].(policy := buckets'[n].policy)
          && Others(buckets'[n].policy.statements, sid) == Others(buckets[n].policy.statements, sid))
  }

  lemma OnlySidTransitive(b: map<string, Record>, b': map<string, Record>, b'': map<string, Record>, sid: string)
    requires OnlySid(b, b', sid) && OnlySid(b', b'', sid)
    ensures OnlySid(b, b'', sid)
  {}

  // ---------- Granting ----------

  lemma GrantOnFacts(buckets: map<string, Record>, name: string, g: Grant, get: Fate, put: Fate)
    ensures var (b, r) := GrantOn(buckets, name, g.On(name), get, put);
      && OnlySid(buckets, b, g.sid)
      && (r.Ok? ==> GrantedOn(b, name, g))
      && (forall n | n != name && n in buckets :: b[n] == buckets[n])
      && (forall n | GrantedOn(buckets, n, g) :: GrantedOn(b, n, g))
      && (name in buckets ==> b[name] == buckets[name] || GrantedOn(b, name, g))
  {
    hide Others, Upserted, GrantStatement, GrantedOn;
    if name in buckets {
      UpsertGrants(buckets[name].policy, g.On(name));
      GrantedExactly(GrantOn(buckets, name, g.On(name), get, put).0, name, g);
      assert g.On(name).sid == g.sid by {
        SidOfGrant(g, name);
      }
    }
    GrantedElsewhere(buckets, GrantOn(buckets, name, g.On(name), get, put).0, name, g);
  }

  lemma GrantedElsewhere(b: map<string, Record>, b': map<string, Record>, name: string, g: Grant)
    requires (forall n | n in b :: n in b') && forall n | n != name && n in b :: b'[n] == b[n]
    ensures forall n | n != name && GrantedOn(b, n, g) :: GrantedOn(b', n, g)
    ensures name in b && name in b' && b'[name] == b[name] && GrantedOn(b, name, g) ==> GrantedOn(b', name, g)
  {}

  lemma SidOfGrant(g: Grant, name: string)
    ensures g.On(name).sid == g.sid
  {}

  /** The buckets before the first failure are granted, no other statement is changed, and a grant
      that was there stays. */
  lemma {:induction false} GrantFromFacts(buckets: map<string, Record>, ts: seq<Target>, g: Grant, f: Fates, i: nat)
    ensures var (b, r) := GrantFrom(buckets, ts, g, f, i);
      && OnlySid(buckets, b, g.sid)
      && (r.Ok? ==> forall j | i <= j < |ts| :: GrantedOn(b, ts[j].name, g))
      && (forall n | GrantedOn(buckets, n, g) :: GrantedOn(b, n, g))
      && (forall n | n in buckets && b[n] != buckets[n] :: GrantedOn(b, n, g) && exists j | i <= j < |ts| :: ts[j].name == n)
    decreases |ts| - i
  {
    hide OnlySid, GrantedOn, GrantOn;
    if i < |ts| {
      var name := ts[i].name;
      GrantOnFacts(buckets, name, g, At(f.getBucket, i), At(f.putBucket, i));
      var (b, r) := GrantOn(buckets, name, g.On(name), At(f.getBucket, i), At(f.putBucket, i));
      if r.Ok? {
        GrantFromFacts(b, ts, g, f, i + 1);
        var b' := GrantFrom(b, ts, g, f, i + 1).0;
        OnlySidTransitive(buckets, b, b', g.sid);
        OnlySidKeys(buckets, b, g.sid);
      } else {
        OnlySidKeys(buckets, b, g.sid);
      }
    } else {
      OnlySidRefl(buckets, g.sid);
    }
  }

  lemma OnlySidRefl(b: map<string, Record>, sid: string)
    ensures OnlySid(b, b, sid)
  {}

  lemma OnlySidKeys(b: map<string, Record>, b': map<string, Record>, sid: string)
    requires OnlySid(b, b', sid)
    ensures forall n :: n in b <==> n in b'
  {}

  /** Without failures, and with every bucket there, granting succeeds. */
  lemma {:induction false} GrantFromSucceeds(buckets: map<string, Record>, ts: seq<Target>, g: Grant, f: Fates, i: nat)
    requires forall j | i <= j < |ts| :: ts[j].name in buckets
    requires forall j :: At(f.getBucket, j).Answered? && At(f.putBucket, j).Answered?
    ensures GrantFrom(buckets, ts, g, f, i).1.Ok?
    decreases |ts| - i
  {
    hide Upsert;
    if i < |ts| {
      GrantFromSucceeds(GrantOn(buckets, ts[i].name, g.On(ts[i].name), At(f.getBucket, i), At(f.putBucket, i)).0, ts, g, f, i + 1);
    }
  }

  // ---------- Revoking ----------

  ghost predicate CarriedOn(buckets: map<string, Record>, name: string, sid: string) {
    name in buckets && Carries(buckets[name].policy.statements, sid)
  }

  /** Buckets lose the Sid or stay as they are, and only the given buckets may lose it. */
  ghost predicate Revoked(buckets: map<string, Record>, buckets': map<string, Record>, sid: string, names: set<string>) {
    && OnlySid(buckets, buckets', sid)
    && (forall n | n in buckets && buckets'[n] != buckets[n] :: n in names && !CarriedOn(buckets', n, sid))
  }

  lemma RevokedTransitive(b: map<string, Record>, b': map<string, Record>, b'': map<string, Record>, sid: string, names: set<string>)
    requires Revoked(b, b', sid, names) && Revoked(b', b'', sid, names)
    ensures Revoked(b, b'', sid, names)
    ensures forall n | CarriedOn(b'', n, sid) :: CarriedOn(b', n, sid)
  {
    hide Others;
  }

  lemma RevokedRefl(b: map<string, Record>, sid: string, names: set<string>)
    ensures Revoked(b, b, sid, names)
  {}

  lemma RevokeOnFacts(buckets: map<string, Record>, name: string, sid: string, get: Fate, put: Fate, names: set<string>)
    requires name in names
    ensures var (b, r) := RevokeOn(buckets, name, sid, get, put);
      && Revoked(buckets, b, sid, names)
      && (r.Ok? ==> !CarriedOn(b, name, sid))
      && (get.Answered? && put.Answered? ==> r.Ok?)
  {
    hide Others;
    if name in buckets {
      var ss := buckets[name].policy.statements;
      OthersDrops(ss, sid);
      OthersDrops(Others(ss, sid), sid);
    }
  }

  /** If revoking on the recorded buckets succeeds, none of them carries the Sid any more. */
  lemma {:induction false} RevokeGrantedFacts(buckets: map<string, Record>, names: seq<string>, sid: string, f: TeardownFates, i: nat, all: set<string>)
    requires forall n | n in names :: n in all
    ensures var (b, r) := RevokeGranted(buckets, names, sid, f, i);
      && Revoked(buckets, b, sid, all)
      && (r.Ok? ==> forall j | i <= j < |names| :: !CarriedOn(b, names[j], sid))
    decreases |names| - i
  {
    hide Revoked, CarriedOn, RevokeOn;
    if i < |names| {
      RevokeOnFacts(buckets, names[i], sid, At(f.getGranted, i), At(f.putGranted, i), all);
      var (b, r) := RevokeOn(buckets, names[i], sid, At(f.getGranted, i), At(f.putGranted, i));
      if r.Ok? {
        RevokeGrantedFacts(b, names, sid, f, i + 1, all);
        RevokedTransitive(buckets, b, RevokeGranted(b, names, sid, f, i + 1).0, sid, all);
      }
    } else {
      RevokedRefl(buckets, sid, all);
    }
  }

  lemma {:induction false} RevokeGrantedSucceeds(buckets: map<string, Record>, names: seq<string>, sid: string, f: TeardownFates, i: nat)
    requires forall j :: At(f.getGranted, j).Answered? && At(f.putGranted, j).Answered?
    ensures RevokeGranted(buckets, names, sid, f, i).1.Ok?
    decreases |names| - i
  {
    hide Remove;
    if i < |names| {
      RevokeGrantedSucceeds(RevokeOn(buckets, names[i], sid, At(f.getGranted, i), At(f.putGranted, i)).0, names, sid, f, i + 1);
    }
  }

  /** The bucket a reference leads to, once that is known. */
  predicate LeadsTo(views: map<string, BucketView>, ref: string, name: string) {
    ref in views && views[ref].bucketName == name != ""
  }

  ghost predicate Referenced(refs: seq<string>, views: map<string, BucketView>, name: string) {
    exists i | 0 <= i < |refs| :: LeadsTo(views, refs[i], name)
  }

  /** The second sweep only takes grants away; without failures it takes away those on every
      referenced bucket. */
  lemma {:induction false} RevokeRefsFacts(buckets: map<string, Record>, refs: seq<string>, views: map<string, BucketView>,
                                           sid: string, f: TeardownFates, i: nat, all: set<string>)
    requires forall j, n | 0 <= j < |refs| && LeadsTo(views, refs[j], n) :: n in all
    ensures var (b, r) := RevokeRefs(buckets, refs, views, sid, f, i);
      && Revoked(buckets, b, sid, all)
      && ((forall j :: At(f.views, j).Answered? && At(f.getRef, j).Answered? && At(f.putRef, j).Answered?) ==>
            r.Ok? && forall j, n | i <= j < |refs| && LeadsTo(views, refs[j], n) :: !CarriedOn(b, n, sid))
    decreases |refs| - i
  {
    hide Revoked, CarriedOn, RevokeOn;
    if i < |refs| {
      if At(f.views, i).Cuts() {
        RevokedRefl(buckets, sid, all);
      } else if !At(f.views, i).Answered? || refs[i] !in views || views[refs[i]].bucketName == "" {
        RevokeRefsFacts(buckets, refs, views, sid, f, i + 1, all);
      } else {
        var name := views[refs[i]].bucketName;
        assert LeadsTo(views, refs[i], name);
        RevokeOnFacts(buckets, name, sid, At(f.getRef, i), At(f.putRef, i), all);
        var b := RevokeOn(buckets, name, sid, At(f.getRef, i), At(f.putRef, i)).0;
        RevokeRefsFacts(b, refs, views, sid, f, i + 1, all);
        RevokedTransitive(buckets, b, RevokeRefs(b, refs, views, sid, f, i + 1).0, sid, all);
      }
    } else {
      RevokedRefl(buckets, sid, all);
    }
  }

  /** Errors on the referenced buckets do not stop the second sweep, only a cut does. */
  lemma {:induction false} RevokeRefsGoesOn(buckets: map<string, Record>, refs: seq<string>, views: map<string, BucketView>,
                                            sid: string, f: TeardownFates, i: nat)
    requires forall j :: !At(f.views, j).Cuts() && !At(f.getRef, j).Cuts() && !At(f.putRef, j).Cuts()
    ensures RevokeRefs(buckets, refs, views, sid, f, i).1.Ok?
    decreases |refs| - i
  {
    hide Remove;
    if i < |refs| {
      RevokeRefsGoesOn(buckets, refs, views, sid, f, i + 1);
      if At(f.views, i).Answered? && refs[i] in views {
        RevokeRefsGoesOn(RevokeOn(buckets, views[refs[i]].bucketName, sid, At(f.getRef, i), At(f.putRef, i)).0, refs, views, sid, f, i + 1);
      }
    }
  }

  // ---------- Resolving ----------

  /** Each target is the bucket of the reference at its place. */
  ghost predicate TargetsOf(refs: seq<string>, views: map<string, BucketView>, ts: seq<Target>) {
    |ts| == |refs| && forall j | 0 <= j < |refs| ::
      refs[j] in views && ts[j].name == views[refs[j]].bucketName != "" && ts[j].endpoint == views[refs[j]].endpoint
  }

  lemma NoTargetsYet(refs: seq<string>, views: map<string, BucketView>)
    ensures TargetsOf(refs[..0], views, [])
  {}

  lemma {:induction false} ResolveFromFacts(refs: seq<string>, views: map<string, BucketView>, f: Fates, i: nat, out: seq<Target>)
    requires i <= |refs| && TargetsOf(refs[..i], views, out)
    ensures var r := ResolveFrom(refs, views, f, i, out);
      && (r.Targets? ==> TargetsOf(refs, views, r.ts))
      && ((forall j | i <= j < |refs| :: At(f.views, j).Answered? && refs[j] != "" && refs[j] in views
             && views[refs[j]].bucketName != "" && views[refs[j]].hasResourceId && views[refs[j]].ready) ==> r.Targets?)
    decreases |refs| - i
  {
    if i < |refs| {
      if refs[i] in views {
        var v := views[refs[i]];
        if v.bucketName != "" {
          var out' := out + [Target(v.bucketName, v.endpoint)];
          forall j | 0 <= j < i + 1
            ensures
              && refs[..i + 1][j] in views && out'[j].name == views[refs[..i + 1][j]].bucketName != ""
              && out'[j].endpoint == views[refs[..i + 1][j]].endpoint
          {
            assert j < i ==> refs[..i][j] == refs[j];
          }
          ResolveFromFacts(refs, views, f, i + 1, out');
        }
      }
    } else {
      assert refs[..i] == refs;
    }
  }

  /** The lookup of the reference is answered, and finds a bucket that is named, created and ready. */
  predicate RefReady(refs: seq<string>, views: map<string, BucketView>, f: Fates, j: nat)
    requires j < |refs|
  {
    && refs[j] != "" && At(f.views, j).Answered? && refs[j] in views
    && views[refs[j]].bucketName != "" && views[refs[j]].hasResourceId && views[refs[j]].ready
  }

  /** The first reference that is not ready. */
  ghost predicate HoldsUp(refs: seq<string>, views: map<string, BucketView>, f: Fates, i: nat, k: nat) {
    i <= k < |refs| && !RefReady(refs, views, f, k) && forall j: nat | i <= j < k :: RefReady(refs, views, f, j)
  }

  /** Resolution succeeds exactly if every reference is ready; otherwise the first one that is not
      decides how it fails. */
  lemma {:induction false} ResolveExactly(refs: seq<string>, views: map<string, BucketView>, f: Fates, i: nat, out: seq<Target>)
    requires i <= |refs|
    ensures var r := ResolveFrom(refs, views, f, i, out);
      && (r.Targets? <==> forall j: nat | i <= j < |refs| :: RefReady(refs, views, f, j))
      && (!r.Targets? ==> exists k: nat :: HoldsUp(refs, views, f, i, k))
      && forall k: nat | HoldsUp(refs, views, f, i, k) ::
           && (r.BadRef? <==> refs[k] == "" || At(f.views, k).Refused? || At(f.views, k).Unheard?)
           && (r.ResolveCut? <==> refs[k] != "" && At(f.views, k).Cuts())
           && (r.MissingRef? <==> refs[k] != "" && At(f.views, k).Answered? && refs[k] !in views)
           && (r.NotReady? <==> refs[k] != "" && At(f.views, k).Answered? && refs[k] in views)
    decreases |refs| - i
  {
    if i < |refs| {
      if RefReady(refs, views, f, i) {
        var out' := out + [Target(views[refs[i]].bucketName, views[refs[i]].endpoint)];
        ResolveExactly(refs, views, f, i + 1, out');
        var next := i + 1;
        if k: nat :| HoldsUp(refs, views, f, next, k) {
          assert HoldsUp(refs, views, f, i, k);
        }
        forall k: nat | HoldsUp(refs, views, f, i, k)
          ensures HoldsUp(refs, views, f, next, k)
        {}
      } else {
        assert HoldsUp(refs, views, f, i, i);
      }
    }
  }
}
