/** One remote bucket, rewritten in turn by its Bucket controller and by any number of
    BucketAccess controllers.  Each read-modify-write is one atomic step. */
module CoOwnership {
  import opened Policy
  import opened BucketUpdate

  /** An access acts by granting its statement or by revoking its Sid. */
  datatype Step = BucketPass | Grant(stmt: Statement) | Revoke(sid: string)

  ghost function Next(d: Desired, r: Record, s: Step): Record {
    match s
    case BucketPass => Repaired(d, r)
    case Grant(stmt) => r.(policy := Upsert(r.policy, stmt))
    case Revoke(sid) => r.(policy := Remove(r.policy, sid))
  }

  ghost function Run(d: Desired, r: Record, steps: seq<Step>): Record {
    if |steps| == 0 then r else Next(d, Run(d, r, steps[..|steps| - 1]), steps[|steps| - 1])
  }

  lemma {:induction false} RunAppend(d: Desired, r: Record, a: seq<Step>, b: seq<Step>)
    ensures Run(d, r, a + b) == Run(d, Run(d, r, a), b)
  {
    if |b| == 0 {
      assert a + b == a;
    } else {
      assert (a + b)[..|a + b| - 1] == a + b[..|b| - 1];
      RunAppend(d, r, a, b[..|b| - 1]);
    }
  }

  // ---------- Confluence ----------

  /** The grants of the live accesses: managed Sids, one statement per Sid. */
  ghost predicate DistinctGrants(grants: set<Statement>) {
    && (forall g | g in grants :: IsManagedSid(g.sid))
    && (forall g, h | g in grants && h in grants && g.sid == h.sid :: g == h)
  }

  /** What spec.policy must satisfy for the controllers to agree: it names a version, and any
      statement it defines under the Sid of an access is the very grant that access writes. */
  ghost predicate Compatible(d: Desired, grants: set<Statement>) {
    d.policy.Parsed? && grants != {} ==>
      && d.policy.document.version != ""
      && forall g | g in grants :: OnlyAs(d.policy.document.statements, g)
  }

  ghost predicate JointFixpoint(d: Desired, grants: set<Statement>, r: Record) {
    && !RequiresUpdate(d, r)
    && forall g | g in grants :: Upsert(r.policy, g) == r.policy
  }

  ghost predicate ActorsOnly(grants: set<Statement>, steps: seq<Step>) {
    forall i | 0 <= i < |steps| :: steps[i].BucketPass? || (steps[i].Grant? && steps[i].stmt in grants)
  }

  /** A grant leaves the Bucket controller nothing to repair if there was nothing before. */
  lemma GrantKeepsBucketSettled(d: Desired, grants: set<Statement>, r: Record, g: Statement)
    requires DistinctGrants(grants) && Compatible(d, grants) && g in grants
    requires !RequiresUpdate(d, r)
    ensures !RequiresUpdate(d, Next(d, r, Grant(g)))
  {
    if d.policy.Parsed? {
      var doc := d.policy.document;
      MergeFixpoint(doc, r.policy);
      GrantKeepsShape(doc, r.policy, g);
      MergeFixpoint(doc, Upsert(r.policy, g));
    }
  }

  lemma GrantKeepsShape(doc: Document, p: Document, g: Statement)
    requires MergedShape(doc, p) && doc.version != "" && IsManagedSid(g.sid) && OnlyAs(doc.statements, g)
    ensures MergedShape(doc, Upsert(p, g))
  {
    var n := |doc.statements|;
    forall i | 0 <= i < n
      ensures p.statements[i] == doc.statements[i]
    {
      assert p.statements[..n][i] == doc.statements[i];
    }
    if Carries(doc.statements, g.sid) {
      assert OnlyAs(p.statements, g);
      assert Replaced(p.statements, g) == p.statements;
    } else {
      var q := Upserted(p.statements, g);
      forall i | 0 <= i < n
        ensures q[i] == doc.statements[i]
      {}
      assert q[..n] == doc.statements;
    }
  }

  lemma MergeKeepsGrant(ds: seq<Statement>, ss: seq<Statement>, g: Statement)
    requires IsManagedSid(g.sid) && OnlyAs(ds, g) && OnlyAs(ss, g) && Carries(ss, g.sid)
    ensures OnlyAs(ds + Preserved(ds, ss), g) && Carries(ds + Preserved(ds, ss), g.sid)
  {
    var kept := Preserved(ds, ss);
    PreservedMembers(ds, ss);
    hide IsManagedSid, Preserved;
    forall i | 0 <= i < |kept| && kept[i].sid == g.sid
      ensures kept[i] == g
    {
      assert kept[i] in ss;
    }
    if Carries(ds, g.sid) {
      var j :| 0 <= j < |ds| && ds[j].sid == g.sid;
      assert (ds + kept)[j].sid == g.sid;
    } else {
      var k :| 0 <= k < |ss| && ss[k].sid == g.sid;
      assert ss[k] in kept;
      var j :| 0 <= j < |kept| && kept[j] == ss[k];
      assert (ds + kept)[|ds| + j].sid == g.sid;
    }
  }

  /** A Bucket pass leaves a settled grant settled. */
  lemma BucketPassKeepsGrantSettled(d: Desired, grants: set<Statement>, r: Record, g: Statement)
    requires DistinctGrants(grants) && Compatible(d, grants) && g in grants
    requires Upsert(r.policy, g) == r.policy
    ensures var p := Next(d, r, BucketPass).policy; Upsert(p, g) == p
  {
    hide IsManagedSid, WantedVersioning, Upsert, Preserved, Carries, OnlyAs;
    var p := Next(d, r, BucketPass).policy;
    UpsertFixpoint(r.policy, g);
    UpsertFixpoint(p, g);
    if p != r.policy {
      MergeKeepsGrant(d.policy.document.statements, r.policy.statements, g);
    }
  }

  /** Whoever steps is settled afterwards, and whoever was settled stays so. */
  lemma StepSettles(d: Desired, grants: set<Statement>, r: Record, s: Step)
    requires !d.policy.Unparsable? && DistinctGrants(grants) && Compatible(d, grants)
    requires s.BucketPass? || (s.Grant? && s.stmt in grants)
    ensures !RequiresUpdate(d, r) || s.BucketPass? ==> !RequiresUpdate(d, Next(d, r, s))
    ensures forall g | g in grants && (Upsert(r.policy, g) == r.policy || s == Grant(g)) ::
        var p := Next(d, r, s).policy; Upsert(p, g) == p
  {
    var r' := Next(d, r, s);
    DriftIsExact(d, r);
    if s.Grant? && !RequiresUpdate(d, r) {
      GrantKeepsBucketSettled(d, grants, r, s.stmt);
    }
    forall g | g in grants && (Upsert(r.policy, g) == r.policy || s == Grant(g))
      ensures Upsert(r'.policy, g) == r'.policy
    {
      UpsertFixpoint(r.policy, g);
      UpsertFixpoint(r'.policy, g);
      if s.BucketPass? {
        BucketPassKeepsGrantSettled(d, grants, r, g);
      } else {
        UpsertGrants(r.policy, s.stmt);
        if s.stmt != g {
          UpsertKeepsOtherGrant(r.policy, s.stmt, g);
        }
      }
    }
  }

  lemma {:induction false} RunSettles(d: Desired, grants: set<Statement>, r: Record, steps: seq<Step>)
    requires !d.policy.Unparsable? && DistinctGrants(grants) && Compatible(d, grants)
    requires ActorsOnly(grants, steps)
    ensures BucketPass in steps ==> !RequiresUpdate(d, Run(d, r, steps))
    ensures forall g | g in grants && Grant(g) in steps :: var p := Run(d, r, steps).policy; Upsert(p, g) == p
  {
    if |steps| > 0 {
      var most, last := steps[..|steps| - 1], steps[|steps| - 1];
      assert steps == most + [last];
      RunSettles(d, grants, r, most);
      StepSettles(d, grants, Run(d, r, most), last);
    }
  }

  lemma {:induction false} FixpointStays(d: Desired, grants: set<Statement>, r: Record, steps: seq<Step>)
    requires JointFixpoint(d, grants, r) && ActorsOnly(grants, steps)
    ensures Run(d, r, steps) == r
  {
    if |steps| > 0 {
      FixpointStays(d, grants, r, steps[..|steps| - 1]);
    }
  }

  /** Confluence.  From any remote record, after any interleaving in which every controller has
      stepped at least once, the record is as desired, every grant is there and alone under its Sid,
      nobody wants to change anything, and nobody ever does again. */
  lemma Confluence(d: Desired, grants: set<Statement>, r: Record, steps: seq<Step>, more: seq<Step>)
    requires !d.policy.Unparsable? && DistinctGrants(grants) && Compatible(d, grants)
    requires ActorsOnly(grants, steps) && ActorsOnly(grants, more)
    requires BucketPass in steps && forall g | g in grants :: Grant(g) in steps
    ensures JointFixpoint(d, grants, Run(d, r, steps))
    ensures AsDesired(d, Run(d, r, steps))
    ensures forall g | g in grants :: var ss := Run(d, r, steps).policy.statements; Carries(ss, g.sid) && OnlyAs(ss, g)
    ensures Run(d, r, steps + more) == Run(d, r, steps)
  {
    DriftMeansNotAsDesired(d, Run(d, r, steps));
    forall g | g in grants
      ensures Upsert(Run(d, r, steps).policy, g) == Run(d, r, steps).policy ==>
          var ss := Run(d, r, steps).policy.statements; Carries(ss, g.sid) && OnlyAs(ss, g)
    {
      UpsertFixpoint(Run(d, r, steps).policy, g);
    }
    RunSettles(d, grants, r, steps);
    FixpointStays(d, grants, Run(d, r, steps), more);
    RunAppend(d, r, steps, more);
  }

  /** The condition is exact: where it fails, or where two grants share a Sid, no record satisfies all
      controllers, so some controller rewrites whatever the others leave, for ever. */
  lemma AgreementIffCompatible(d: Desired, grants: set<Statement>)
    requires !d.policy.Unparsable? && forall g | g in grants :: IsManagedSid(g.sid)
    ensures (exists r :: JointFixpoint(d, grants, r)) <==> DistinctGrants(grants) && Compatible(d, grants)
    ensures !(DistinctGrants(grants) && Compatible(d, grants)) ==>
        forall r :: Next(d, r, BucketPass) != r || exists g | g in grants :: Next(d, r, Grant(g)) != r
  {
    hide IsManagedSid;
    forall r | JointFixpoint(d, grants, r)
      ensures DistinctGrants(grants) && Compatible(d, grants)
    {
      FixpointNeedsDistinct(d, grants, r);
      FixpointNeedsCompatible(d, grants, r);
    }
    forall r | Next(d, r, BucketPass) == r && forall g | g in grants :: Next(d, r, Grant(g)) == r
      ensures JointFixpoint(d, grants, r)
    {
      DriftIsExact(d, r);
      forall g | g in grants
        ensures Upsert(r.policy, g) == r.policy
      {
        assert Next(d, r, Grant(g)) == r;
      }
    }
    if DistinctGrants(grants) && Compatible(d, grants) {
      var steps := OneRound(grants);
      var r := Record(false, "", false, map[], map[], Document("", []));
      Confluence(d, grants, r, steps, []);
      assert JointFixpoint(d, grants, Run(d, r, steps));
    }
  }

  /** Two grants under one Sid cannot both be settled. */
  lemma FixpointNeedsDistinct(d: Desired, grants: set<Statement>, r: Record)
    requires JointFixpoint(d, grants, r) && forall g | g in grants :: IsManagedSid(g.sid)
    ensures DistinctGrants(grants)
  {
    hide IsManagedSid, RequiresUpdate;
    forall g, h | g in grants && h in grants && g.sid == h.sid
      ensures g == h
    {
      UpsertFixpoint(r.policy, g);
      UpsertFixpoint(r.policy, h);
      var i :| 0 <= i < |r.policy.statements| && r.policy.statements[i].sid == g.sid;
      assert r.policy.statements[i] == g == h;
    }
  }

  lemma FixpointNeedsCompatible(d: Desired, grants: set<Statement>, r: Record)
    requires JointFixpoint(d, grants, r)
    ensures Compatible(d, grants)
  {
    if d.policy.Parsed? && grants != {} {
      var doc := d.policy.document;
      forall g | g in grants
        ensures doc.version != "" && OnlyAs(doc.statements, g)
      {
        UpsertFixpoint(r.policy, g);
        MergeFixpoint(doc, r.policy);
        forall i | 0 <= i < |doc.statements|
          ensures doc.statements[i] == r.policy.statements[i]
        {
          assert doc.statements[i] == r.policy.statements[..|doc.statements|][i];
        }
      }
      var g :| g in grants;
    }
  }

  lemma OneRound(grants: set<Statement>) returns (steps: seq<Step>)
    ensures ActorsOnly(grants, steps)
    ensures BucketPass in steps && forall g | g in grants :: Grant(g) in steps
  {
    if grants == {} {
      steps := [BucketPass];
    } else {
      var g :| g in grants;
      var rest := OneRound(grants - {g});
      steps := rest + [Grant(g)];
      forall h | h in grants
        ensures Grant(h) in steps
      {
        assert h == g || Grant(h) in rest;
      }
    }
  }

  // ---------- Grant tracking ----------

  /** Whether the access last granted or last revoked; if it has not stepped, how things were. */
  ghost function LastWord(sid: string, before: bool, steps: seq<Step>): bool {
    if |steps| == 0 then before
    else
      var s := steps[|steps| - 1];
      if s.Grant? && s.stmt.sid == sid then true
      else if s == Revoke(sid) then false
      else LastWord(sid, before, steps[..|steps| - 1])
  }

  /** A Sid that spec.policy does not define. */
  ghost predicate FreeSid(d: Desired, sid: string) {
    IsManagedSid(sid) && (d.policy.Parsed? ==> !Carries(d.policy.document.statements, sid))
  }

  /** Bucket passes and other accesses neither drop a live grant nor bring back a revoked one:
      the policy carries an access's Sid exactly when its own last step says so. */
  lemma {:induction false} GrantTracking(d: Desired, r: Record, sid: string, steps: seq<Step>)
    requires FreeSid(d, sid)
    ensures Carries(Run(d, r, steps).policy.statements, sid)
        <==> LastWord(sid, Carries(r.policy.statements, sid), steps)
  {
    if |steps| > 0 {
      var most, s := steps[..|steps| - 1], steps[|steps| - 1];
      GrantTracking(d, r, sid, most);
      var p := Run(d, r, most).policy;
      match s
      case BucketPass =>
        BucketPassKeepsCarried(d, Run(d, r, most), sid);
      case Grant(stmt) =>
        if stmt.sid == sid {
          UpsertGrants(p, stmt);
        } else {
          UpsertKeepsOtherGrant(p, stmt, stmt.(sid := sid));
        }
      case Revoke(other) =>
        OthersDrops(p.statements, other);
        if other != sid {
          RemoveKeepsOtherGrant(p, other, sid);
        }
    }
  }

  lemma BucketPassKeepsCarried(d: Desired, r: Record, sid: string)
    requires FreeSid(d, sid)
    ensures Carries(Repaired(d, r).policy.statements, sid) <==> Carries(r.policy.statements, sid)
  {
    if d.policy.Parsed? {
      var ds, ss := d.policy.document.statements, r.policy.statements;
      var kept := Preserved(ds, ss);
      PreservedMembers(ds, ss);
      if Carries(ss, sid) {
        var i :| 0 <= i < |ss| && ss[i].sid == sid;
        assert ss[i] in kept;
        var j :| 0 <= j < |kept| && kept[j] == ss[i];
        assert (ds + kept)[|ds| + j].sid == sid;
      }
      if Carries(ds + kept, sid) {
        var j :| 0 <= j < |ds + kept| && (ds + kept)[j].sid == sid;
        assert (ds + kept)[j] in kept;
        var i :| 0 <= i < |ss| && ss[i] == (ds + kept)[j];
      }
    }
  }

  /** An access changes nothing but the statements under its own Sid, and keeps the order of the rest. */
  lemma AccessTouchesOnlyItsOwn(d: Desired, r: Record, s: Step)
    requires !s.BucketPass?
    ensures var sid := if s.Grant? then s.stmt.sid else s.sid;
        Others(Next(d, r, s).policy.statements, sid) == Others(r.policy.statements, sid)
    ensures Next(d, r, s) == r.(policy := Next(d, r, s).policy)
  {
    if s.Grant? {
      UpsertGrants(r.policy, s.stmt);
    } else {
      OthersDrops(r.policy.statements, s.sid);
      OthersDrops(Others(r.policy.statements, s.sid), s.sid);
    }
  }

  /** A Bucket pass keeps every managed statement that spec.policy does not define, in order. */
  lemma BucketPassKeepsManaged(d: Desired, r: Record)
    ensures forall s | s in r.policy.statements && ("tosm-" <= s.sid || "thalassa-objectstorage-manager/" <= s.sid) ::
        s in Repaired(d, r).policy.statements || (d.policy.Parsed? && Carries(d.policy.document.statements, s.sid))
    ensures d.policy.Parsed? ==>
        var ds := d.policy.document.statements;
        Preserved(ds, Repaired(d, r).policy.statements) == Preserved(ds, r.policy.statements)
    ensures !d.policy.Parsed? ==> Repaired(d, r).policy == r.policy
  {
    if d.policy.Parsed? {
      PreservedMembers(d.policy.document.statements, r.policy.statements);
      MergeKeepsPreserved(d.policy.document.statements, r.policy.statements);
    }
  }

  lemma MergeKeepsPreserved(ds: seq<Statement>, ss: seq<Statement>)
    ensures Preserved(ds, ds + Preserved(ds, ss)) == Preserved(ds, ss)
  {
    PreservedMembers(ds, ss);
    PreservedAppend(ds, ds, Preserved(ds, ss));
    forall x | x in ds
      ensures Carries(ds, x.sid)
    {
      var i :| 0 <= i < |ds| && ds[i] == x;
      assert ds[i].sid == x.sid;
    }
    PreservedAll(ds, ds);
    PreservedAll(ds, Preserved(ds, ss));
  }
}
