/** Every complete interleaving of the co-owners of a bucket ends in the same record, but for the
    order of the policy statements. */
module Convergence {
  import opened Policy
  import opened BucketUpdate
  import opened CoOwnership

  /** The statements under one Sid, in order. */
  function Under(ss: seq<Statement>, sid: string): seq<Statement> {
    if |ss| == 0 then []
    else Under(ss[..|ss| - 1], sid) + (if ss[|ss| - 1].sid == sid then [ss[|ss| - 1]] else [])
  }

  lemma {:induction false} UnderAppend(a: seq<Statement>, b: seq<Statement>, sid: string)
    ensures Under(a + b, sid) == Under(a, sid) + Under(b, sid)
  {
    if |b| == 0 {
      assert a + b == a;
    } else {
      assert (a + b)[..|a + b| - 1] == a + b[..|b| - 1];
      UnderAppend(a, b[..|b| - 1], sid);
    }
  }

  lemma {:induction false} UnderMembers(ss: seq<Statement>, sid: string)
    ensures forall s :: s in Under(ss, sid) <==> s in ss && s.sid == sid
  {
    if |ss| > 0 {
      UnderMembers(ss[..|ss| - 1], sid);
      assert ss == ss[..|ss| - 1] + [ss[|ss| - 1]];
    }
  }

  /** A statement occurs as often as it occurs under its Sid. */
  lemma {:induction false} UnderCounts(ss: seq<Statement>, s: Statement)
    ensures multiset(ss)[s] == multiset(Under(ss, s.sid))[s]
  {
    if |ss| > 0 {
      var most, last := ss[..|ss| - 1], ss[|ss| - 1];
      UnderCounts(most, s);
      assert ss == most + [last];
      assert multiset(ss) == multiset(most) + multiset{last};
      if last.sid == s.sid {
        assert multiset(Under(ss, s.sid)) == multiset(Under(most, s.sid)) + multiset{last};
      }
    }
  }

  lemma {:induction false} UnderPreserved(ds: seq<Statement>, ss: seq<Statement>, sid: string)
    ensures Under(Preserved(ds, ss), sid) == if IsManagedSid(sid) && !Carries(ds, sid) then Under(ss, sid) else []
  {
    hide IsManagedSid, Carries;
    if |ss| > 0 {
      var s := ss[|ss| - 1];
      UnderPreserved(ds, ss[..|ss| - 1], sid);
      UnderAppend(Preserved(ds, ss[..|ss| - 1]), if IsManagedSid(s.sid) && !Carries(ds, s.sid) then [s] else [], sid);
      UnderOne(s, sid);
    }
  }

  lemma UnderOne(s: Statement, sid: string)
    ensures Under([s], sid) == if s.sid == sid then [s] else []
  {
    assert [s][..0] == [];
  }

  lemma {:induction false} UnderReplaced(ss: seq<Statement>, g: Statement, sid: string)
    ensures |Under(Replaced(ss, g), sid)| == |Under(ss, sid)|
    ensures sid != g.sid ==> Under(Replaced(ss, g), sid) == Under(ss, sid)
  {
    if |ss| > 0 {
      UnderReplaced(ss[..|ss| - 1], g, sid);
      assert Replaced(ss, g)[..|ss| - 1] == Replaced(ss[..|ss| - 1], g);
    }
  }

  // ---------- What no step changes ----------

  /** Bucket passes leave the statements under this Sid alone. */
  ghost predicate Kept(d: Desired, sid: string) {
    d.policy.Parsed? ==> IsManagedSid(sid) && !Carries(d.policy.document.statements, sid)
  }

  function AtLeastOne(n: nat): nat {
    if n == 0 then 1 else n
  }

  /** How many copies there are of a grant once it has been made. */
  function Copies(p: Document, sid: string): nat {
    AtLeastOne(|Under(p.statements, sid)|)
  }

  lemma RepairKeepsUnder(d: Desired, r: Record, sid: string)
    requires Kept(d, sid)
    ensures Under(Repaired(d, r).policy.statements, sid) == Under(r.policy.statements, sid)
  {
    hide IsManagedSid, WantedVersioning;
    if d.policy.Parsed? {
      var ds, ss := d.policy.document.statements, r.policy.statements;
      UnderPreserved(ds, ss, sid);
      UnderAppend(ds, Preserved(ds, ss), sid);
      NoneUnder(ds, sid);
    }
  }

  lemma NoneUnder(ds: seq<Statement>, sid: string)
    ensures Under(ds, sid) == [] <==> !Carries(ds, sid)
  {
    UnderMembers(ds, sid);
    if Carries(ds, sid) {
      var i :| 0 <= i < |ds| && ds[i].sid == sid;
      assert ds[i] in Under(ds, sid);
    }
    if Under(ds, sid) != [] {
      assert Under(ds, sid)[0] in ds;
    }
  }

  lemma UpsertKeepsUnder(p: Document, g: Statement, sid: string)
    ensures sid != g.sid ==> Under(Upsert(p, g).statements, sid) == Under(p.statements, sid)
    ensures Copies(Upsert(p, g), g.sid) == Copies(p, g.sid)
  {
    var ss := p.statements;
    UnderReplaced(ss, g, sid);
    UnderReplaced(ss, g, g.sid);
    UnderAppend(ss, [g], sid);
    UnderAppend(ss, [g], g.sid);
    UnderOne(g, sid);
    UnderOne(g, g.sid);
    NoneUnder(ss, g.sid);
  }

  ghost predicate Granted(grants: set<Statement>, sid: string) {
    exists g | g in grants :: g.sid == sid
  }

  lemma {:induction false} RunKeepsUnder(d: Desired, grants: set<Statement>, r: Record, steps: seq<Step>, sid: string)
    requires ActorsOnly(grants, steps) && Kept(d, sid)
    ensures Copies(Run(d, r, steps).policy, sid) == Copies(r.policy, sid)
    ensures !Granted(grants, sid) ==> Under(Run(d, r, steps).policy.statements, sid) == Under(r.policy.statements, sid)
  {
    hide Kept, Repaired, Upsert, Under;
    if |steps| > 0 {
      var most, last := steps[..|steps| - 1], steps[|steps| - 1];
      RunKeepsUnder(d, grants, r, most, sid);
      var now := Run(d, r, most);
      if last.BucketPass? {
        RepairKeepsUnder(d, now, sid);
      } else {
        UpsertKeepsUnder(now.policy, last.stmt, sid);
      }
    }
  }

  // ---------- The end of a run ----------

  /** In a joint fixpoint the statements under each Sid are determined by what no step changes. */
  lemma FixpointUnder(d: Desired, grants: set<Statement>, p: Record, q: Record, sid: string)
    requires JointFixpoint(d, grants, p) && JointFixpoint(d, grants, q)
    requires Kept(d, sid) ==> Copies(p.policy, sid) == Copies(q.policy, sid)
    requires Kept(d, sid) && !Granted(grants, sid) ==> Under(p.policy.statements, sid) == Under(q.policy.statements, sid)
    ensures Under(p.policy.statements, sid) == Under(q.policy.statements, sid)
  {
    hide IsManagedSid, Upsert, Preserved;
    if !Kept(d, sid) {
      UnderWanted(d, p, sid);
      UnderWanted(d, q, sid);
    } else if Granted(grants, sid) {
      var g :| g in grants && g.sid == sid;
      UnderGrant(p.policy, g);
      UnderGrant(q.policy, g);
    }
  }

  lemma UnderWanted(d: Desired, p: Record, sid: string)
    requires !RequiresUpdate(d, p) && !Kept(d, sid)
    ensures Under(p.policy.statements, sid) == Under(d.policy.document.statements, sid)
  {
    hide IsManagedSid;
    var ds := d.policy.document.statements;
    UnderPreserved(ds, p.policy.statements, sid);
    UnderAppend(ds, Preserved(ds, p.policy.statements), sid);
  }

  lemma UnderGrant(p: Document, g: Statement)
    requires Upsert(p, g) == p
    ensures Under(p.statements, g.sid) == seq(Copies(p, g.sid), _ => g)
  {
    UpsertFixpoint(p, g);
    UnderMembers(p.statements, g.sid);
    NoneUnder(p.statements, g.sid);
    var u := Under(p.statements, g.sid);
    forall i | 0 <= i < |u|
      ensures u[i] == g
    {
      assert u[i] in p.statements;
    }
  }

  lemma SameStatements(d: Desired, grants: set<Statement>, p: Record, q: Record)
    requires JointFixpoint(d, grants, p) && JointFixpoint(d, grants, q)
    requires forall sid | Kept(d, sid) :: Copies(p.policy, sid) == Copies(q.policy, sid)
    requires forall sid | Kept(d, sid) && !Granted(grants, sid) :: Under(p.policy.statements, sid) == Under(q.policy.statements, sid)
    ensures multiset(p.policy.statements) == multiset(q.policy.statements)
  {
    hide JointFixpoint, Kept, Under, Copies, Granted;
    forall s: Statement
      ensures multiset(p.policy.statements)[s] == multiset(q.policy.statements)[s]
    {
      FixpointUnder(d, grants, p, q, s.sid);
      UnderCounts(p.policy.statements, s);
      UnderCounts(q.policy.statements, s);
    }
  }

  /** The fields beside the statements. */
  ghost predicate SameBut(p: Record, q: Record) {
    p == q.(policy := q.policy.(statements := p.policy.statements))
  }

  lemma VersionOf(d: Desired, grants: set<Statement>, r: Record, steps: seq<Step>)
    requires d.policy.NoPolicy? && ActorsOnly(grants, steps) && grants != {} && JointFixpoint(d, grants, Run(d, r, steps))
    ensures Run(d, r, steps).policy.version == Versioned(r.policy).version
  {
    var g :| g in grants;
    UpsertFixpoint(Run(d, r, steps).policy, g);
    VersionSteps(d, grants, r, steps);
  }

  lemma {:induction false} VersionSteps(d: Desired, grants: set<Statement>, r: Record, steps: seq<Step>)
    requires d.policy.NoPolicy? && ActorsOnly(grants, steps)
    ensures var v := Run(d, r, steps).policy.version;
      v == r.policy.version || v == Versioned(r.policy).version
    ensures grants == {} ==> Run(d, r, steps).policy == r.policy
  {
    if |steps| > 0 {
      VersionSteps(d, grants, r, steps[..|steps| - 1]);
    }
  }

  /** Confluence to one result: any two complete interleavings from one record agree in every field
      and in the statements with their multiplicities.  Only the order of grants can differ. */
  lemma OneResult(d: Desired, grants: set<Statement>, r: Record, steps: seq<Step>, steps': seq<Step>)
    requires !d.policy.Unparsable? && DistinctGrants(grants) && Compatible(d, grants)
    requires ActorsOnly(grants, steps) && ActorsOnly(grants, steps')
    requires BucketPass in steps && BucketPass in steps'
    requires forall g | g in grants :: Grant(g) in steps && Grant(g) in steps'
    ensures var p, q := Run(d, r, steps), Run(d, r, steps');
      SameBut(p, q) && multiset(p.policy.statements) == multiset(q.policy.statements)
  {
    hide Run, Kept, Copies, Under, Granted, DistinctGrants, Compatible;
    var p, q := Run(d, r, steps), Run(d, r, steps');
    Confluence(d, grants, r, steps, []);
    Confluence(d, grants, r, steps', []);
    forall sid | Kept(d, sid)
      ensures Copies(p.policy, sid) == Copies(q.policy, sid)
      ensures !Granted(grants, sid) ==> Under(p.policy.statements, sid) == Under(q.policy.statements, sid)
    {
      RunKeepsUnder(d, grants, r, steps, sid);
      RunKeepsUnder(d, grants, r, steps', sid);
    }
    SameStatements(d, grants, p, q);
    SameFields(d, grants, r, steps, steps');
  }

  lemma SameFields(d: Desired, grants: set<Statement>, r: Record, steps: seq<Step>, steps': seq<Step>)
    requires !d.policy.Unparsable? && ActorsOnly(grants, steps) && ActorsOnly(grants, steps')
    requires JointFixpoint(d, grants, Run(d, r, steps)) && JointFixpoint(d, grants, Run(d, r, steps'))
    ensures SameBut(Run(d, r, steps), Run(d, r, steps'))
  {
    hide Run, Preserved, Upsert, WantedVersioning;
    if d.policy.NoPolicy? {
      VersionSteps(d, grants, r, steps);
      VersionSteps(d, grants, r, steps');
      if grants != {} {
        VersionOf(d, grants, r, steps);
        VersionOf(d, grants, r, steps');
      }
    }
  }
}
