/** How the Bucket controller compares a remote bucket with its spec and repairs it. */
module BucketUpdate {
  import opened Text
  import opened Policy

  /** The mutable part of a remote bucket.  A missing label or annotation map is an empty one. */
  datatype Record = Record(
    public: bool, versioning: string, objectLock: bool,
    labels: map<string, string>, annotations: map<string, string>, policy: Document)

  /** spec.policy is a JSON text; only the outcome of parsing it is modelled. */
  datatype PolicyText = NoPolicy | Unparsable | Parsed(document: Document)

  datatype Desired = Desired(
    public: bool, versioning: string, objectLock: bool,
    labels: map<string, string>, annotations: map<string, string>, policy: PolicyText)

  /** A request without a policy document leaves the stored policy as it is. */
  datatype UpdateRequest = UpdateRequest(
    public: bool, versioning: string, objectLock: bool,
    labels: map<string, string>, annotations: map<string, string>, policy: Option<Document>)

  function Applied(r: Record, u: UpdateRequest): Record {
    Record(u.public, u.versioning, u.objectLock, u.labels, u.annotations,
           if u.policy.Some? then u.policy.value else r.policy)
  }

  const VERSIONING_DISABLED := "Disabled"

  function WantedVersioning(d: Desired): string {
    if d.versioning == "" then VERSIONING_DISABLED else d.versioning
  }

  // ---------- Merging ----------

  /** The managed statements of current that desired does not define itself, in order. */
  ghost function Preserved(desired: seq<Statement>, current: seq<Statement>): seq<Statement> {
    if |current| == 0 then []
    else
      var s := current[|current| - 1];
      Preserved(desired, current[..|current| - 1]) +
      (if IsManagedSid(s.sid) && !Carries(desired, s.sid) then [s] else [])
  }

  ghost function Merged(desired: Document, current: Document): Document {
    desired.(statements := desired.statements + Preserved(desired.statements, current.statements))
  }

  method MergePreservingManagedStatements(desired: Document, current: Document) returns (r: Document)
    ensures r == Merged(desired, current)
  {
    var have: set<string> := {};
    for i := 0 to |desired.statements|
      invariant forall sid :: sid in have <==> exists j | 0 <= j < i :: desired.statements[j].sid == sid
    {
      have := have + {desired.statements[i].sid};
    }
    assert forall sid :: sid in have <==> Carries(desired.statements, sid);
    var out := desired.statements;
    for i := 0 to |current.statements|
      invariant out == desired.statements + Preserved(desired.statements, current.statements[..i])
    {
      var s := current.statements[i];
      assert current.statements[..i + 1][..i] == current.statements[..i];
      if !IsManagedSid(s.sid) {
        continue;
      }
      if s.sid in have {
        continue;
      }
      out := out + [s];
    }
    assert current.statements[..|current.statements|] == current.statements;
    r := desired.(statements := out);
  }

  lemma {:induction false} PreservedAppend(desired: seq<Statement>, a: seq<Statement>, b: seq<Statement>)
    ensures Preserved(desired, a + b) == Preserved(desired, a) + Preserved(desired, b)
  {
    if |b| == 0 {
      assert a + b == a;
    } else {
      assert (a + b)[..|a + b| - 1] == a + b[..|b| - 1];
      PreservedAppend(desired, a, b[..|b| - 1]);
    }
  }

  lemma {:induction false} PreservedMembers(desired: seq<Statement>, current: seq<Statement>)
    ensures forall s :: s in Preserved(desired, current) <==>
        s in current && IsManagedSid(s.sid) && !Carries(desired, s.sid)
  {
    if |current| > 0 {
      PreservedMembers(desired, current[..|current| - 1]);
      assert current == current[..|current| - 1] + [current[|current| - 1]];
    }
  }

  /** Everything, or nothing, is preserved when every statement, or none, qualifies. */
  lemma {:induction false} PreservedAll(desired: seq<Statement>, current: seq<Statement>)
    ensures (forall s | s in current :: IsManagedSid(s.sid) && !Carries(desired, s.sid)) ==> Preserved(desired, current) == current
    ensures (forall s | s in current :: Carries(desired, s.sid)) ==> Preserved(desired, current) == []
  {
    if |current| > 0 {
      PreservedAll(desired, current[..|current| - 1]);
      assert current == current[..|current| - 1] + [current[|current| - 1]];
    }
  }

  /** A document of the shape a Bucket pass leaves behind: the user's statements, then managed
      statements under Sids the user does not define. */
  ghost predicate MergedShape(desired: Document, p: Document) {
    && p.version == desired.version
    && |desired.statements| <= |p.statements|
    && p.statements[..|desired.statements|] == desired.statements
    && forall i | |desired.statements| <= i < |p.statements| ::
         && ("tosm-" <= p.statements[i].sid || "thalassa-objectstorage-manager/" <= p.statements[i].sid)
         && !Carries(desired.statements, p.statements[i].sid)
  }

  lemma MergedHasShape(desired: Document, current: Document)
    ensures MergedShape(desired, Merged(desired, current))
  {
    var d, k := desired.statements, Preserved(desired.statements, current.statements);
    PreservedMembers(d, current.statements);
    assert (d + k)[..|d|] == d;
    forall i | |d| <= i < |d + k|
      ensures (d + k)[i] in k
    {}
  }

  /** Merging is the identity exactly on documents of that shape. */
  lemma MergeFixpoint(desired: Document, p: Document)
    ensures Merged(desired, p) == p <==> MergedShape(desired, p)
  {
    hide Preserved;
    if Merged(desired, p) == p {
      MergedHasShape(desired, p);
    }
    if MergedShape(desired, p) {
      var d := desired.statements;
      var tail := p.statements[|d|..];
      assert p.statements == d + tail;
      PreservedAppend(d, d, tail);
      forall s | s in d
        ensures Carries(d, s.sid)
      {
        var i :| 0 <= i < |d| && d[i] == s;
        assert d[i].sid == s.sid;
      }
      PreservedAll(d, d);
      PreservedAll(d, tail);
    }
  }

  /** Merging twice is merging once. */
  lemma MergeIdempotent(desired: Document, current: Document)
    ensures Merged(desired, Merged(desired, current)) == Merged(desired, current)
  {
    MergedHasShape(desired, current);
    MergeFixpoint(desired, Merged(desired, current));
  }

  // ---------- Comparing and repairing ----------

  ghost predicate RequiresUpdate(d: Desired, r: Record) {
    || d.public != r.public
    || WantedVersioning(d) != r.versioning
    || d.objectLock != r.objectLock
    || d.labels != r.labels
    || d.annotations != r.annotations
    || (d.policy.Parsed? && Merged(d.policy.document, r.policy) != r.policy)
  }

  /** The record says what the spec says: versioning is off unless asked for, and the user's
      statements come first, followed by grants under Sids the user does not define. */
  ghost predicate AsDesired(d: Desired, r: Record) {
    && r.public == d.public
    && r.versioning == (if d.versioning == "" then "Disabled" else d.versioning)
    && r.objectLock == d.objectLock
    && r.labels == d.labels
    && r.annotations == d.annotations
    && (d.policy.Parsed? ==> MergedShape(d.policy.document, r.policy))
  }

  /** Drift is reported exactly on records that are not as desired. */
  lemma DriftMeansNotAsDesired(d: Desired, r: Record)
    ensures RequiresUpdate(d, r) <==> !AsDesired(d, r)
  {
    if d.policy.Parsed? {
      MergeFixpoint(d.policy.document, r.policy);
    }
  }

  /** What an update sends makes every record as desired, and does not touch the policy of a bucket
      whose spec has none. */
  lemma UpdateMakesAsDesired(d: Desired, r: Record)
    ensures UpdateFor(d, r).None? <==> d.policy.Unparsable?
    ensures UpdateFor(d, r).Some? ==> AsDesired(d, Applied(r, UpdateFor(d, r).value))
    ensures d.policy.NoPolicy? ==> Applied(r, UpdateFor(d, r).value).policy == r.policy
  {
    DriftIsExact(d, r);
    if !d.policy.Unparsable? {
      DriftMeansNotAsDesired(d, Applied(r, UpdateFor(d, r).value));
    }
  }

  method BucketRequiresUpdate(d: Desired, r: Record) returns (drift: bool)
    ensures drift <==> RequiresUpdate(d, r)
    ensures drift <==> !AsDesired(d, r)
  {
    DriftMeansNotAsDesired(d, r);
    if d.public != r.public {
      return true;
    }
    var wanted := d.versioning;
    if wanted == "" {
      wanted := VERSIONING_DISABLED;
    }
    if wanted != r.versioning || d.objectLock != r.objectLock {
      return true;
    }
    if d.labels != r.labels || d.annotations != r.annotations {
      return true;
    }
    if d.policy.Parsed? {
      var merged := MergePreservingManagedStatements(d.policy.document, r.policy);
      if merged != r.policy {
        return true;
      }
    }
    return false;
  }

  ghost function UpdateFor(d: Desired, r: Record): Option<UpdateRequest> {
    match d.policy
    case Unparsable => None
    case NoPolicy =>
      Some(UpdateRequest(d.public, WantedVersioning(d), d.objectLock, d.labels, d.annotations, None))
    case Parsed(doc) =>
      Some(UpdateRequest(d.public, WantedVersioning(d), d.objectLock, d.labels, d.annotations, Some(Merged(doc, r.policy))))
  }

  method BuildUpdateRequest(d: Desired, r: Record) returns (u: Option<UpdateRequest>)
    ensures u == UpdateFor(d, r)
    ensures u.None? <==> d.policy.Unparsable?
    ensures u.Some? ==> AsDesired(d, Applied(r, u.value))
  {
    UpdateMakesAsDesired(d, r);
    var versioning := d.versioning;
    if versioning == "" {
      versioning := VERSIONING_DISABLED;
    }
    var upd := UpdateRequest(d.public, versioning, d.objectLock, d.labels, d.annotations, None);
    match d.policy
    case Unparsable => return None;
    case NoPolicy => return Some(upd);
    case Parsed(doc) =>
      var merged := MergePreservingManagedStatements(doc, r.policy);
      return Some(upd.(policy := Some(merged)));
  }

  /** One atomic read-compare-update of the remote record. */
  ghost function Repaired(d: Desired, r: Record): Record {
    if RequiresUpdate(d, r) && UpdateFor(d, r).Some? then Applied(r, UpdateFor(d, r).value) else r
  }

  /** Drift is reported exactly when the update would change the record, and one update ends it.
      With a policy text that does not parse, drift elsewhere is reported but never repaired. */
  lemma DriftIsExact(d: Desired, r: Record)
    ensures UpdateFor(d, r).Some? <==> !d.policy.Unparsable?
    ensures UpdateFor(d, r).Some? ==> (RequiresUpdate(d, r) <==> Applied(r, UpdateFor(d, r).value) != r)
    ensures UpdateFor(d, r).Some? ==> !RequiresUpdate(d, Applied(r, UpdateFor(d, r).value))
    ensures d.policy.Unparsable? ==> Repaired(d, r) == r
  {
    if d.policy.Parsed? {
      MergeIdempotent(d.policy.document, r.policy);
    }
  }
}
