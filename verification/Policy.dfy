/** Bucket policy documents and the statement each BucketAccess owns in them. */
module Policy {

  /** A principal.  ARNs are compared by their parts: the organisation and the identity. */
  datatype Arn =
    | ServiceAccountArn(organisation: string, account: nat)
    | UserArn(organisation: string, subject: string)
    | OtherArn(text: string)

  datatype Statement = Statement(
    sid: string, effect: string, principal: seq<Arn>, action: seq<string>, resource: seq<string>)

  datatype Document = Document(version: string, statements: seq<Statement>)

  const MANAGED_SID_PREFIX := "tosm-"
  const LEGACY_SID_PREFIX := "thalassa-objectstorage-manager/"
  const POLICY_VERSION := "2012-10-17"
  const EFFECT_ALLOW := "Allow"

  predicate IsManagedSid(sid: string) {
    MANAGED_SID_PREFIX <= sid || LEGACY_SID_PREFIX <= sid
  }

  // ---------- Sids ----------

  predicate IsSidChar(c: char) {
    'a' <= c <= 'z' || 'A' <= c <= 'Z' || '0' <= c <= '9' || c == '-'
  }

  /** The code keeps every letter and digit of every script; letters holds those beyond ASCII. */
  function SanitizeChar(c: char, letters: set<char>): char {
    if IsSidChar(c) || c in letters then c else '-'
  }

  function Sanitized(s: string, letters: set<char>): string {
    if s == "" then "x" else seq(|s|, i requires 0 <= i < |s| => SanitizeChar(s[i], letters))
  }

  method BuildSidPart(s: string, letters: set<char>) returns (r: string)
    ensures r == Sanitized(s, letters)
    ensures s == "" ==> r == "x"
    ensures s != "" ==> |r| == |s| && forall i | 0 <= i < |s| ::
        r[i] == if s[i] == '-' || 'a' <= s[i] <= 'z' || 'A' <= s[i] <= 'Z' || '0' <= s[i] <= '9' || s[i] in letters
                then s[i] else '-'
  {
    if s == "" {
      return "x";
    }
    r := "";
    for i := 0 to |s|
      invariant |r| == i
      invariant forall j | 0 <= j < i :: r[j] == SanitizeChar(s[j], letters)
    {
      if IsSidChar(s[i]) || s[i] in letters {
        r := r + [s[i]];
      } else {
        r := r + ['-'];
      }
    }
  }

  /** The part holds nothing but ASCII letters, digits and dashes exactly if no other letter occurs. */
  lemma SanitizedIsPlain(s: string, letters: set<char>)
    ensures (forall c | c in Sanitized(s, letters) :: IsSidChar(c)) <==> forall c | c in s && c in letters :: IsSidChar(c)
  {
    var r := Sanitized(s, letters);
    if forall c | c in r :: IsSidChar(c) {
      forall c | c in s && c in letters
        ensures IsSidChar(c)
      {
        var i :| 0 <= i < |s| && s[i] == c;
        assert r[i] in r;
      }
    } else {
      var i :| 0 <= i < |r| && !IsSidChar(r[i]);
      assert s[i] in s;
    }
  }

  /** Resource names are ASCII, and other letters do not matter to them. */
  function SanitizeSidPart(s: string): string {
    Sanitized(s, {})
  }

  lemma LettersDoNotMatter(s: string, letters: set<char>)
    requires forall c | c in s && c in letters :: IsSidChar(c)
    ensures Sanitized(s, letters) == SanitizeSidPart(s)
  {
    forall i | 0 <= i < |s|
      ensures SanitizeChar(s[i], letters) == SanitizeChar(s[i], {})
    {
      assert s[i] in s;
    }
  }

  function ManagedSid(namespace: string, name: string): string {
    MANAGED_SID_PREFIX + SanitizeSidPart(namespace) + "-" + SanitizeSidPart(name)
  }

  /** Names made of letters, digits and dashes are written out. */
  lemma ManagedSidIsManaged(namespace: string, name: string)
    ensures IsManagedSid(ManagedSid(namespace, name))
    ensures PlainPart(namespace) && PlainPart(name) ==> ManagedSid(namespace, name) == "tosm-" + namespace + "-" + name
  {
    if PlainPart(namespace) && PlainPart(name) {
      PlainPartKept(namespace);
      PlainPartKept(name);
    }
    assert ManagedSid(namespace, name) == MANAGED_SID_PREFIX + (SanitizeSidPart(namespace) + "-" + SanitizeSidPart(name));
  }

  /** One of the parts ends in what the other starts with, across the separator. */
  ghost predicate Overlap(ns: string, name: string, ns': string, name': string) {
    exists r: string :: ns' == ns + "-" + r && name == r + "-" + name'
  }

  /** Two accesses share a Sid exactly if their rewritten parts are the same, or overlap. */
  lemma SidsEqualExactly(ns: string, name: string, ns': string, name': string)
    ensures ManagedSid(ns, name) == ManagedSid(ns', name') <==>
      var n, m, n', m' := SanitizeSidPart(ns), SanitizeSidPart(name), SanitizeSidPart(ns'), SanitizeSidPart(name');
      (n == n' && m == m') || Overlap(n, m, n', m') || Overlap(n', m', n, m)
  {
    var n, m, n', m' := SanitizeSidPart(ns), SanitizeSidPart(name), SanitizeSidPart(ns'), SanitizeSidPart(name');
    SidTail(ns, name);
    SidTail(ns', name');
    JoinedEqual(n, m, n', m');
  }

  lemma SidTail(ns: string, name: string)
    ensures ManagedSid(ns, name)[5..] == SanitizeSidPart(ns) + "-" + SanitizeSidPart(name)
    ensures ManagedSid(ns, name) == MANAGED_SID_PREFIX + ManagedSid(ns, name)[5..]
  {
    hide SanitizeSidPart;
    assert |MANAGED_SID_PREFIX| == 5;
    assert ManagedSid(ns, name) == MANAGED_SID_PREFIX + (SanitizeSidPart(ns) + "-" + SanitizeSidPart(name));
  }

  lemma JoinedEqual(n: string, m: string, n': string, m': string)
    ensures n + "-" + m == n' + "-" + m' <==> (n == n' && m == m') || Overlap(n, m, n', m') || Overlap(n', m', n, m)
  {
    if Overlap(n, m, n', m') {
      OverlapJoins(n, m, n', m');
    }
    if Overlap(n', m', n, m) {
      OverlapJoins(n', m', n, m);
    }
    if n + "-" + m == n' + "-" + m' {
      if |n| < |n'| {
        JoinedOverlap(n, m, n', m');
      } else if |n'| < |n| {
        JoinedOverlap(n', m', n, m);
      } else {
        assert n == (n + "-" + m)[..|n|] == n';
        assert m == (n + "-" + m)[|n| + 1..] == m';
      }
    }
  }

  lemma OverlapJoins(n: string, m: string, n': string, m': string)
    requires Overlap(n, m, n', m')
    ensures n + "-" + m == n' + "-" + m'
  {
    var r: string :| n' == n + "-" + r && m == r + "-" + m';
    assert n + "-" + (r + "-" + m') == n + "-" + r + "-" + m';
  }

  lemma JoinedOverlap(n: string, m: string, n': string, m': string)
    requires n + "-" + m == n' + "-" + m' && |n| < |n'|
    ensures Overlap(n, m, n', m')
  {
    var all := n + "-" + m;
    var r := n'[|n| + 1..];
    assert n' == all[..|n'|] && n == all[..|n|] && all[|n|] == '-';
    assert n' == n + "-" + r;
    assert m == all[|n| + 1..];
    assert m == r + "-" + m';
  }

  /** A part that is written into the Sid unchanged. */
  predicate PlainPart(s: string) {
    s != "" && forall c | c in s :: IsSidChar(c)
  }

  /** So distinct accesses get distinct Sids when no part is rewritten and no namespace holds a dash. */
  lemma ManagedSidInjective(ns: string, name: string, ns': string, name': string)
    requires PlainPart(ns) && PlainPart(ns') && PlainPart(name) && PlainPart(name') && '-' !in ns && '-' !in ns'
    requires ManagedSid(ns, name) == ManagedSid(ns', name')
    ensures ns == ns' && name == name'
  {
    PlainPartKept(ns);
    PlainPartKept(ns');
    PlainPartKept(name);
    PlainPartKept(name');
    SidsEqualExactly(ns, name, ns', name');
    OverlapNeedsDash(ns, name, ns', name');
    OverlapNeedsDash(ns', name', ns, name);
  }

  lemma OverlapNeedsDash(n: string, m: string, n': string, m': string)
    ensures Overlap(n, m, n', m') ==> '-' in n'
  {
    if Overlap(n, m, n', m') {
      var r: string :| n' == n + "-" + r && m == r + "-" + m';
      assert n'[|n|] == '-';
    }
  }

  lemma PlainPartKept(s: string)
    requires PlainPart(s)
    ensures SanitizeSidPart(s) == s
  {
    forall i | 0 <= i < |s|
      ensures SanitizeChar(s[i], {}) == s[i]
    {
      assert s[i] in s;
    }
  }

  /** Both ways of colliding occur: across namespaces, and by a dot in a name within one namespace. */
  lemma ManagedSidCollides()
    ensures ManagedSid("a-b", "c") == ManagedSid("a", "b-c")
    ensures ManagedSid("a", "b.c") == ManagedSid("a", "b-c")
  {
    assert SanitizeSidPart("a-b") == "a-b" && SanitizeSidPart("c") == "c" && SanitizeSidPart("a") == "a";
    assert SanitizeSidPart("b-c") == "b-c" == SanitizeSidPart("b.c");
  }

  // ---------- Statement lists ----------

  ghost predicate Carries(ss: seq<Statement>, sid: string) {
    exists i | 0 <= i < |ss| :: ss[i].sid == sid
  }

  /** Every statement under this Sid is exactly stmt. */
  ghost predicate OnlyAs(ss: seq<Statement>, stmt: Statement) {
    forall i | 0 <= i < |ss| :: ss[i].sid == stmt.sid ==> ss[i] == stmt
  }

  /** The statements under other Sids, in order. */
  function Others(ss: seq<Statement>, sid: string): seq<Statement> {
    if |ss| == 0 then []
    else Others(ss[..|ss| - 1], sid) + (if ss[|ss| - 1].sid == sid then [] else [ss[|ss| - 1]])
  }

  /** Each statement under the Sid of stmt becomes stmt. */
  function Replaced(ss: seq<Statement>, stmt: Statement): seq<Statement> {
    seq(|ss|, i requires 0 <= i < |ss| => if ss[i].sid == stmt.sid then stmt else ss[i])
  }

  ghost function Upserted(ss: seq<Statement>, stmt: Statement): seq<Statement> {
    if Carries(ss, stmt.sid) then Replaced(ss, stmt) else ss + [stmt]
  }

  function BucketResources(bucket: string): seq<string> {
    ["arn:thalassa:s3:::" + bucket, "arn:thalassa:s3:::" + bucket + "/*"]
  }

  function GrantStatement(sid: string, principal: Arn, bucket: string, actions: seq<string>): Statement {
    Statement(sid, EFFECT_ALLOW, [principal], actions, BucketResources(bucket))
  }

  function Versioned(p: Document): Document {
    if p.version == "" then p.(version := POLICY_VERSION) else p
  }

  ghost function Upsert(p: Document, stmt: Statement): Document {
    Versioned(p).(statements := Upserted(p.statements, stmt))
  }

  ghost function Remove(p: Document, sid: string): Document {
    p.(statements := Others(p.statements, sid))
  }

  // ---------- The two loops ----------

  method UpsertManagedStatement(p: Document, sid: string, principal: Arn, bucket: string, actions: seq<string>)
    returns (r: Document)
    ensures r == Upsert(p, GrantStatement(sid, principal, bucket, actions))
    ensures r.version == if p.version == "" then "2012-10-17" else p.version
    ensures Carries(r.statements, sid) && Others(r.statements, sid) == Others(p.statements, sid)
    ensures forall s | s in r.statements && s.sid == sid ::
        && s.effect == "Allow" && s.principal == [principal] && s.action == actions
        && s.resource == ["arn:thalassa:s3:::" + bucket, "arn:thalassa:s3:::" + bucket + "/*"]
  {
    var version := p.version;
    if version == "" {
      version := POLICY_VERSION;
    }
    var stmt := GrantStatement(sid, principal, bucket, actions);
    var replaced := false;
    var out := [];
    for i := 0 to |p.statements|
      invariant |out| == i
      invariant forall j | 0 <= j < i :: out[j] == if p.statements[j].sid == sid then stmt else p.statements[j]
      invariant replaced <==> exists j | 0 <= j < i :: p.statements[j].sid == sid
    {
      if p.statements[i].sid == sid {
        out := out + [stmt];
        replaced := true;
      } else {
        out := out + [p.statements[i]];
      }
    }
    assert out == Replaced(p.statements, stmt);
    if !replaced {
      assert out == p.statements;
      out := out + [stmt];
    }
    r := Document(version, out);
    UpsertAllows(p, sid, principal, bucket, actions);
  }

  method RemoveManagedStatement(p: Document, sid: string) returns (r: Document)
    ensures r == Remove(p, sid)
  {
    var out := [];
    for i := 0 to |p.statements|
      invariant out == Others(p.statements[..i], sid)
    {
      assert p.statements[..i + 1][..i] == p.statements[..i];
      if p.statements[i].sid == sid {
        continue;
      }
      out := out + [p.statements[i]];
    }
    assert p.statements[..|p.statements|] == p.statements;
    r := p.(statements := out);
  }

  // ---------- What they mean ----------

  lemma {:induction false} OthersAppend(a: seq<Statement>, b: seq<Statement>, sid: string)
    ensures Others(a + b, sid) == Others(a, sid) + Others(b, sid)
  {
    if |b| == 0 {
      assert a + b == a;
    } else {
      assert (a + b)[..|a + b| - 1] == a + b[..|b| - 1];
      OthersAppend(a, b[..|b| - 1], sid);
    }
  }

  lemma {:induction false} OthersMembers(ss: seq<Statement>, sid: string)
    ensures forall s :: s in Others(ss, sid) <==> s in ss && s.sid != sid
  {
    if |ss| > 0 {
      OthersMembers(ss[..|ss| - 1], sid);
      assert ss == ss[..|ss| - 1] + [ss[|ss| - 1]];
    }
  }

  lemma {:induction false} OthersAll(ss: seq<Statement>, sid: string)
    requires !Carries(ss, sid)
    ensures Others(ss, sid) == ss
  {
    if |ss| > 0 {
      assert ss[|ss| - 1].sid != sid;
      assert forall i | 0 <= i < |ss| - 1 :: ss[..|ss| - 1][i] == ss[i];
      OthersAll(ss[..|ss| - 1], sid);
    }
  }

  /** Exactly the statements under other Sids survive, and nothing is under the Sid any more. */
  lemma OthersDrops(ss: seq<Statement>, sid: string)
    ensures forall s :: s in Others(ss, sid) <==> s in ss && s.sid != sid
    ensures !Carries(Others(ss, sid), sid)
    ensures !Carries(ss, sid) ==> Others(ss, sid) == ss
  {
    hide Others;
    OthersMembers(ss, sid);
    if !Carries(ss, sid) {
      OthersAll(ss, sid);
    }
  }

  lemma {:induction false} OthersIgnoresReplaced(ss: seq<Statement>, stmt: Statement)
    ensures Others(Replaced(ss, stmt), stmt.sid) == Others(ss, stmt.sid)
  {
    if |ss| > 0 {
      OthersIgnoresReplaced(ss[..|ss| - 1], stmt);
      assert Replaced(ss, stmt)[..|ss| - 1] == Replaced(ss[..|ss| - 1], stmt);
    }
  }

  /** After an upsert the grant is there, nothing else is under its Sid, and the statements of
      everybody else are as they were, in the same order. */
  lemma UpsertGrants(p: Document, stmt: Statement)
    ensures var r := Upsert(p, stmt);
      && r.version != ""
      && Carries(r.statements, stmt.sid)
      && OnlyAs(r.statements, stmt)
      && Others(r.statements, stmt.sid) == Others(p.statements, stmt.sid)
  {
    var ss := p.statements;
    if Carries(ss, stmt.sid) {
      var i :| 0 <= i < |ss| && ss[i].sid == stmt.sid;
      assert Upserted(ss, stmt)[i].sid == stmt.sid;
      OthersIgnoresReplaced(ss, stmt);
    } else {
      assert (ss + [stmt])[|ss|].sid == stmt.sid;
      OthersAppend(ss, [stmt], stmt.sid);
      assert Others([stmt], stmt.sid) == [];
    }
  }

  /** The document allows this principal these actions on this bucket and its objects, and says
      nothing else under the Sid. */
  ghost predicate AllowsExactly(p: Document, sid: string, principal: Arn, bucket: string, actions: seq<string>) {
    && Carries(p.statements, sid)
    && forall s | s in p.statements && s.sid == sid ::
         && s.effect == "Allow" && s.principal == [principal] && s.action == actions
         && s.resource == ["arn:thalassa:s3:::" + bucket, "arn:thalassa:s3:::" + bucket + "/*"]
  }

  /** A document that holds the grant and nothing else under its Sid is one that allows just that. */
  lemma GrantAllows(p: Document, sid: string, principal: Arn, bucket: string, actions: seq<string>)
    ensures Carries(p.statements, sid) && OnlyAs(p.statements, GrantStatement(sid, principal, bucket, actions)) <==>
        AllowsExactly(p, sid, principal, bucket, actions)
  {
    var ss := p.statements;
    if AllowsExactly(p, sid, principal, bucket, actions) {
      forall i | 0 <= i < |ss| && ss[i].sid == sid
        ensures ss[i] == GrantStatement(sid, principal, bucket, actions)
      {
        assert ss[i] in ss;
      }
    }
  }

  /** What an upsert leaves behind, in the words of the policy language. */
  lemma UpsertAllows(p: Document, sid: string, principal: Arn, bucket: string, actions: seq<string>)
    ensures var r := Upsert(p, GrantStatement(sid, principal, bucket, actions));
      && AllowsExactly(r, sid, principal, bucket, actions)
      && r.version == (if p.version == "" then "2012-10-17" else p.version)
      && Others(r.statements, sid) == Others(p.statements, sid)
      && |r.statements| == |p.statements| + if Carries(p.statements, sid) then 0 else 1
  {
    UpsertGrants(p, GrantStatement(sid, principal, bucket, actions));
    GrantAllows(Upsert(p, GrantStatement(sid, principal, bucket, actions)), sid, principal, bucket, actions);
  }

  /** An upsert is the identity exactly on documents that already hold the grant and nothing
      else under its Sid. */
  lemma UpsertFixpoint(p: Document, stmt: Statement)
    ensures Upsert(p, stmt) == p <==> p.version != "" && Carries(p.statements, stmt.sid) && OnlyAs(p.statements, stmt)
  {
    if Upsert(p, stmt) == p {
      UpsertGrants(p, stmt);
    }
    if p.version != "" && Carries(p.statements, stmt.sid) && OnlyAs(p.statements, stmt) {
      assert Replaced(p.statements, stmt) == p.statements;
    }
  }

  /** Revoking takes back everything a grant put under the Sid: the statements are those that
      revoking alone would have left. */
  lemma RemoveUndoesUpsert(p: Document, stmt: Statement)
    ensures Remove(Upsert(p, stmt), stmt.sid).statements == Remove(p, stmt.sid).statements
  {
    UpsertGrants(p, stmt);
  }

  /** Grants under different Sids commute as far as anybody can tell by asking who is granted. */
  lemma UpsertKeepsOtherGrant(p: Document, stmt: Statement, other: Statement)
    requires stmt.sid != other.sid
    ensures var r := Upsert(p, stmt);
      && (Carries(r.statements, other.sid) <==> Carries(p.statements, other.sid))
      && (OnlyAs(p.statements, other) ==> OnlyAs(r.statements, other))
  {
    var ss := p.statements;
    var r := Upserted(ss, stmt);
    forall i | 0 <= i < |ss| && ss[i].sid == other.sid
      ensures r[i] == ss[i]
    {}
    forall i | 0 <= i < |r| && r[i].sid == other.sid
      ensures i < |ss| && r[i] == ss[i]
    {}
  }

  lemma RemoveKeepsOtherGrant(p: Document, sid: string, other: string)
    requires sid != other
    ensures Carries(Remove(p, sid).statements, other) <==> Carries(p.statements, other)
  {
    OthersDrops(p.statements, sid);
    var r := Others(p.statements, sid);
    if Carries(p.statements, other) {
      var i :| 0 <= i < |p.statements| && p.statements[i].sid == other;
      assert p.statements[i] in r;
    }
    if Carries(r, other) {
      var i :| 0 <= i < |r| && r[i].sid == other;
      assert r[i] in p.statements;
    }
  }
}
