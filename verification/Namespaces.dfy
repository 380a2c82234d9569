/** The comma-separated list of namespaces whose Secrets the manager watches. */
module Namespaces {
  import opened Text

  // ---------- Order ----------

  /** The order of Go strings. */
  predicate Less(a: string, b: string) {
    if b == "" then false
    else if a == "" then true
    else a[0] < b[0] || (a[0] == b[0] && Less(a[1..], b[1..]))
  }

  /** A string comes before another if it is cut short of it, or is smaller where they first differ. */
  lemma {:induction false} LessExactly(a: string, b: string)
    ensures Less(a, b) <==> a < b || exists i | 0 <= i < |a| && i < |b| :: a[..i] == b[..i] && a[i] < b[i]
  {
    if a != "" && b != "" {
      LessExactly(a[1..], b[1..]);
      if a[0] == b[0] {
        if i :| 0 <= i < |a| - 1 && i < |b| - 1 && a[1..][..i] == b[1..][..i] && a[1..][i] < b[1..][i] {
          assert a[..i + 1] == [a[0]] + a[1..][..i] == b[..i + 1];
        }
        if i :| 0 <= i < |a| && i < |b| && a[..i] == b[..i] && a[i] < b[i] {
          assert i > 0;
          assert a[1..][..i - 1] == a[..i][1..] == b[..i][1..] == b[1..][..i - 1];
          assert a[1..][i - 1] < b[1..][i - 1];
        }
        assert a < b <==> a[1..] < b[1..];
      } else {
        forall i | 0 < i < |a| && i < |b|
          ensures a[..i] != b[..i]
        {
          assert a[..i][0] == a[0] != b[0] == b[..i][0];
        }
        assert a[0] < b[0] ==> a[..0] == b[..0];
      }
    }
  }

  lemma {:induction false} LessTotal(a: string, b: string)
    ensures Less(a, b) || a == b || Less(b, a)
    ensures !(Less(a, b) && Less(b, a))
    ensures !Less(a, a)
  {
    if a != "" && b != "" {
      LessTotal(a[1..], b[1..]);
      assert a == [a[0]] + a[1..] && b == [b[0]] + b[1..];
    }
    if a != "" {
      LessTotal(a[1..], a[1..]);
    }
  }

  lemma {:induction false} LessTransitive(a: string, b: string, c: string)
    requires Less(a, b) && Less(b, c)
    ensures Less(a, c)
  {
    if a != "" && a[0] == b[0] == c[0] {
      LessTransitive(a[1..], b[1..], c[1..]);
    }
  }

  ghost predicate Increasing(s: seq<string>) {
    forall i, j | 0 <= i < j < |s| :: Less(s[i], s[j])
  }

  /** A strictly increasing list is determined by its elements. */
  lemma {:induction false} IncreasingUnique(s: seq<string>, t: seq<string>)
    requires Increasing(s) && Increasing(t)
    requires forall x :: x in s <==> x in t
    ensures s == t
  {
    SomeElement(t);
    if s != [] {
      assert s[0] in t;
      SameHead(s, t);
      forall x
        ensures x in s[1..] <==> x in t[1..]
      {
        TailElements(s, x);
        TailElements(t, x);
      }
      IncreasingUnique(s[1..], t[1..]);
      assert s == [s[0]] + s[1..] && t == [t[0]] + t[1..];
    }
  }

  lemma SomeElement(s: seq<string>)
    ensures s == [] || exists x :: x in s
  {
    if s != [] {
      assert s[0] in s;
    }
  }

  lemma SameHead(s: seq<string>, t: seq<string>)
    requires Increasing(s) && Increasing(t) && s != [] && t != []
    requires s[0] in t && t[0] in s
    ensures s[0] == t[0]
  {
    var i :| 0 <= i < |t| && t[i] == s[0];
    var j :| 0 <= j < |s| && s[j] == t[0];
    LessTotal(s[0], t[0]);
  }

  lemma TailElements(s: seq<string>, x: string)
    requires Increasing(s) && s != []
    ensures x in s[1..] <==> x in s && x != s[0]
  {
    LessTotal(s[0], s[0]);
    if x in s && x != s[0] {
      var i :| 0 <= i < |s| && s[i] == x;
      assert s[1..][i - 1] == x;
    }
  }

  // ---------- Sorting ----------

  function Insert(s: seq<string>, x: string): seq<string> {
    if s == [] || !Less(s[0], x) then [x] + s else [s[0]] + Insert(s[1..], x)
  }

  /** What slices.Sort leaves behind. */
  function Sort(s: seq<string>): seq<string> {
    if s == [] then [] else Insert(Sort(s[1..]), s[0])
  }

  lemma {:induction false} InsertIncreasing(s: seq<string>, x: string)
    requires Increasing(s) && x !in s
    ensures Increasing(Insert(s, x))
    ensures forall y :: y in Insert(s, x) <==> y in s || y == x
  {
    if s == [] {
    } else if !Less(s[0], x) {
      forall j | 0 <= j < |s|
        ensures Less(x, s[j])
      {
        LessTotal(x, s[0]);
        if j > 0 {
          LessTransitive(x, s[0], s[j]);
        }
      }
    } else {
      InsertIncreasing(s[1..], x);
      var rest := Insert(s[1..], x);
      forall j | 0 <= j < |rest|
        ensures Less(s[0], rest[j])
      {
        assert rest[j] in s[1..] || rest[j] == x;
      }
    }
  }

  lemma {:induction false} SortIncreasing(s: seq<string>)
    requires forall i, j | 0 <= i < j < |s| :: s[i] != s[j]
    ensures Increasing(Sort(s))
    ensures forall x :: x in Sort(s) <==> x in s
  {
    if s != [] {
      SortIncreasing(s[1..]);
      assert s == [s[0]] + s[1..];
      InsertIncreasing(Sort(s[1..]), s[0]);
    }
  }

  // ---------- Parsing ----------

  predicate IsLowerAlphanumeric(c: char) {
    'a' <= c <= 'z' || '0' <= c <= '9'
  }

  /** Section 2.1 of RFC 1123, as Kubernetes reads it: at most 63 characters. */
  predicate IsDnsLabel(s: string): (ok: bool)
    ensures ok <==>
        && 0 < |s| < 64 && s[0] != '-' && s[|s| - 1] != '-'
        && forall i | 0 <= i < |s| :: s[i] == '-' || 48 <= s[i] as int <= 57 || 97 <= s[i] as int <= 122
  {
    && 1 <= |s| <= 63
    && IsLowerAlphanumeric(s[0]) && IsLowerAlphanumeric(s[|s| - 1])
    && forall i | 0 <= i < |s| :: IsLowerAlphanumeric(s[i]) || s[i] == '-'
  }

  /** The names a raw list mentions. */
  function Names(raw: string): seq<string> {
    CleanParts(Split(raw, ','))
  }

  function Parsed(raw: string): Option<seq<string>> {
    if exists n | n in Names(raw) :: !IsDnsLabel(n) then None else Some(Sort(Distinct(Names(raw))))
  }

  method ParseNamespaces(raw: string) returns (r: Option<seq<string>>)
    ensures r == Parsed(raw)
  {
    var parts := Split(raw, ',');
    var seen: set<string> := {};
    var out: seq<string> := [];
    for i := 0 to |parts|
      invariant forall n | n in CleanParts(parts[..i]) :: IsDnsLabel(n)
      invariant out == Distinct(CleanParts(parts[..i]))
      invariant forall n :: n in seen <==> n in out
    {
      ghost var before := CleanParts(parts[..i]);
      var ns := Trim(parts[i]);
      CleanPartsStep(parts, i);
      if ns == "" {
        assert before + [] == before;
        continue;
      }
      assert (before + [ns])[..|before|] == before;
      assert (before + [ns])[|before|] == ns;
      if !IsDnsLabel(ns) {
        CleanPartsOf(parts);
        assert ns in Names(raw);
        return None;
      }
      if ns in seen {
        continue;
      }
      seen := seen + {ns};
      out := out + [ns];
    }
    assert parts[..|parts|] == parts;
    return Some(Sort(out));
  }

  /** Parsing fails exactly on a name that is no label; otherwise the result is the strictly
      increasing list of exactly the names mentioned. */
  lemma ParsedIsCanonical(raw: string)
    ensures Parsed(raw).None? <==> exists n | n in Names(raw) :: !IsDnsLabel(n)
    ensures Parsed(raw).Some? ==>
        Increasing(Parsed(raw).value) && forall n :: n in Parsed(raw).value <==> n in Names(raw)
  {
    SortIncreasing(Distinct(Names(raw)));
  }

  /** Only the set of names matters: not their order, repetitions, blanks or empty entries. */
  lemma SameNamesSameList(raw: string, raw': string)
    requires forall n :: n in Names(raw) <==> n in Names(raw')
    ensures Parsed(raw) == Parsed(raw')
  {
    ParsedIsCanonical(raw);
    ParsedIsCanonical(raw');
    if Parsed(raw).Some? {
      IncreasingUnique(Parsed(raw).value, Parsed(raw').value);
    }
  }

  lemma NamesOfJoin(list: seq<string>)
    ensures forall n :: n in Names(Join(list, ',')) <==> exists t | t in list :: n in Names(t)
  {
    if list == [] {
      assert Split("", ',') == [""];
      assert CleanParts([""]) == [];
    } else {
      SplitOfJoin(list, ',');
      SplitAllMembers(list, ',');
    }
  }

  lemma NamesOfOne(n: string)
    requires n != "" && Trimmed(n) && ',' !in n
    ensures Names(n) == [n]
  {
    SplitOnePart(n, "", ',');
    CleanPartsKeeps([n]);
  }

  /** Printing the parsed list and parsing it again changes nothing. */
  lemma ParsePrintParse(raw: string)
    requires Parsed(raw).Some?
    ensures Parsed(Join(Parsed(raw).value, ',')) == Parsed(raw)
  {
    var list := Parsed(raw).value;
    ParsedIsCanonical(raw);
    CleanPartsOf(Split(raw, ','));
    forall p | p in list
      ensures ',' !in p && p != "" && Trimmed(p)
    {
      assert p in Names(raw);
      assert IsDnsLabel(p);
    }
    NamesOfJoin(list);
    forall p | p in list
      ensures Names(p) == [p]
    {
      NamesOfOne(p);
    }
    SameNamesSameList(raw, Join(list, ','));
  }

  /** The Helm chart prints the release namespace and the configured ones, without empty entries
      and repetitions, in the order given. */
  function HelmPrinted(release: string, configured: seq<string>): string {
    Join(Distinct(Compact([release] + configured)), ',')
  }

  function Compact(list: seq<string>): (r: seq<string>)
    ensures forall p :: p in r <==> p in list && p != ""
  {
    if list == [] then []
    else
      assert list == [list[0]] + list[1..];
      (if list[0] == "" then [] else [list[0]]) + Compact(list[1..])
  }

  /** Each configured value may itself be a list.  What the chart prints is refused exactly if some
      value mentions a name that is no label; otherwise it parses to the canonical list of exactly the
      names that the values mention, and that list parses to itself. */
  lemma HelmListParses(release: string, configured: seq<string>)
    ensures var r, given := Parsed(HelmPrinted(release, configured)), [release] + configured;
      && (r.None? <==> exists t, n | t in given && n in Names(t) :: !IsDnsLabel(n))
      && (r.Some? ==>
            && Increasing(r.value)
            && (forall n :: n in r.value <==> exists t | t in given :: n in Names(t))
            && Parsed(Join(r.value, ',')) == r)
  {
    var raw := HelmPrinted(release, configured);
    var given := [release] + configured;
    hide Names;
    NamesOfHelm(release, configured);
    ParsedIsCanonical(raw);
    if Parsed(raw).Some? {
      ParsePrintParse(raw);
    }
  }

  lemma NamesOfHelm(release: string, configured: seq<string>)
    ensures forall n :: n in Names(HelmPrinted(release, configured)) <==> exists t | t in [release] + configured :: n in Names(t)
  {
    var given := [release] + configured;
    var list := Distinct(Compact(given));
    NamesOfJoin(list);
    assert Names("") == [] by {
      assert Split("", ',') == [""];
      assert CleanParts([""]) == [];
    }
    forall n
      ensures n in Names(Join(list, ',')) <==> exists t | t in given :: n in Names(t)
    {
      if t :| t in given && n in Names(t) {
        assert t != "";
        assert t in list;
      }
    }
  }
}
