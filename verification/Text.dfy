/** Options, and the few string operations the controllers rely on.  Strings are sequences of
    ASCII characters, so a Go byte index and a position in the sequence are the same thing. */
module Text {

  datatype Option<+T> = None | Some(value: T)

  predicate IsSpace(c: char) {
    c == ' ' || '\t' <= c <= '\r'
  }

  /** What strings.TrimSpace leaves alone. */
  predicate Trimmed(s: string) {
    s == "" || (!IsSpace(s[0]) && !IsSpace(s[|s| - 1]))
  }

  function TrimLeft(s: string): string {
    if s != "" && IsSpace(s[0]) then TrimLeft(s[1..]) else s
  }

  function TrimRight(s: string): string {
    if s != "" && IsSpace(s[|s| - 1]) then TrimRight(s[..|s| - 1]) else s
  }

  function Trim(s: string): (r: string)
    ensures Trimmed(r)
    ensures |r| <= |s|
    ensures forall c | c in r :: c in s
    ensures Trimmed(s) ==> r == s
  {
    TrimLeftFacts(s);
    TrimRightFacts(TrimLeft(s));
    TrimRight(TrimLeft(s))
  }

  lemma {:induction false} TrimLeftFacts(s: string)
    ensures var r := TrimLeft(s); |r| <= |s| && (r == "" || !IsSpace(r[0])) && forall c | c in r :: c in s
  {
    if s != "" && IsSpace(s[0]) {
      TrimLeftFacts(s[1..]);
    }
  }

  lemma {:induction false} TrimRightFacts(s: string)
    ensures var r := TrimRight(s); r <= s && (r == "" || !IsSpace(r[|r| - 1]))
  {
    if s != "" && IsSpace(s[|s| - 1]) {
      TrimRightFacts(s[..|s| - 1]);
    }
  }

  ghost predicate Blank(s: string) {
    forall c | c in s :: c as int in {9, 10, 11, 12, 13, 32}
  }

  /** Trimming takes away blanks at both ends and nothing else. */
  lemma TrimTakesBlanks(s: string) returns (before: string, after: string)
    ensures s == before + Trim(s) + after && Blank(before) && Blank(after)
  {
    before := LeftBlanks(s);
    after := RightBlanks(TrimLeft(s));
    assert s == before + (Trim(s) + after) == before + Trim(s) + after;
  }

  lemma {:induction false} LeftBlanks(s: string) returns (before: string)
    ensures s == before + TrimLeft(s) && Blank(before)
  {
    before := "";
    if s != "" && IsSpace(s[0]) {
      var rest := LeftBlanks(s[1..]);
      before := [s[0]] + rest;
      assert s == [s[0]] + s[1..];
    }
  }

  lemma {:induction false} RightBlanks(s: string) returns (after: string)
    ensures s == TrimRight(s) + after && Blank(after)
  {
    after := "";
    if s != "" && IsSpace(s[|s| - 1]) {
      var rest := RightBlanks(s[..|s| - 1]);
      after := rest + [s[|s| - 1]];
      assert s == s[..|s| - 1] + [s[|s| - 1]];
    }
  }

  /** strings.Split on a single separator character: always at least one part. */
  function Split(s: string, sep: char): (parts: seq<string>)
    ensures |parts| >= 1
    ensures forall p | p in parts :: sep !in p
  {
    if s == "" then [""]
    else
      var rest := Split(s[1..], sep);
      if s[0] == sep then [""] + rest else [[s[0]] + rest[0]] + rest[1..]
  }

  /** strings.Join, and the Helm template function of the same name. */
  function Join(parts: seq<string>, sep: char): string {
    if |parts| == 0 then ""
    else if |parts| == 1 then parts[0]
    else parts[0] + [sep] + Join(parts[1..], sep)
  }

  lemma {:induction false} SplitOnePart(p: string, rest: string, sep: char)
    requires sep !in p
    ensures Split(p, sep) == [p]
    ensures Split(p + [sep] + rest, sep) == [p] + Split(rest, sep)
  {
    if p == "" {
      assert p + [sep] + rest == [sep] + rest;
    } else {
      SplitOnePart(p[1..], rest, sep);
      assert (p + [sep] + rest)[1..] == p[1..] + [sep] + rest;
      assert [p[0]] + p[1..] == p;
    }
  }

  /** Splitting undoes joining, as long as no part contains the separator. */
  lemma {:induction false} SplitUndoesJoin(parts: seq<string>, sep: char)
    requires |parts| > 0
    requires forall p | p in parts :: sep !in p
    ensures Split(Join(parts, sep), sep) == parts
  {
    if |parts| == 1 {
      SplitOnePart(parts[0], "", sep);
    } else {
      SplitUndoesJoin(parts[1..], sep);
      SplitOnePart(parts[0], Join(parts[1..], sep), sep);
    }
  }

  lemma {:induction false} SplitAtSeparator(a: string, b: string, sep: char)
    ensures Split(a + [sep] + b, sep) == Split(a, sep) + Split(b, sep)
  {
    var s := a + [sep] + b;
    if a == "" {
      assert s[0] == sep && s[1..] == b;
    } else {
      SplitAtSeparator(a[1..], b, sep);
      assert s[0] == a[0] && s[1..] == a[1..] + [sep] + b;
    }
  }

  /** The parts of all the texts, in order. */
  function SplitAll(texts: seq<string>, sep: char): seq<string> {
    if |texts| == 0 then [] else Split(texts[0], sep) + SplitAll(texts[1..], sep)
  }

  /** Splitting what was joined splits each part. */
  lemma {:induction false} SplitOfJoin(texts: seq<string>, sep: char)
    requires |texts| > 0
    ensures Split(Join(texts, sep), sep) == SplitAll(texts, sep)
  {
    if |texts| == 1 {
      assert SplitAll(texts[1..], sep) == [];
    } else {
      SplitOfJoin(texts[1..], sep);
      SplitAtSeparator(texts[0], Join(texts[1..], sep), sep);
    }
  }

  lemma {:induction false} SplitAllMembers(texts: seq<string>, sep: char)
    ensures forall p :: p in CleanParts(SplitAll(texts, sep)) <==> exists t | t in texts :: p in CleanParts(Split(t, sep))
  {
    hide Trim, Split;
    if |texts| > 0 {
      SplitAllMembers(texts[1..], sep);
      CleanPartsAppend(Split(texts[0], sep), SplitAll(texts[1..], sep));
      forall p
        ensures p in CleanParts(SplitAll(texts, sep)) <==> exists t | t in texts :: p in CleanParts(Split(t, sep))
      {
        if t :| t in texts[1..] && p in CleanParts(Split(t, sep)) {
          assert t in texts;
        }
        if t :| t in texts && p in CleanParts(Split(t, sep)) {
          assert t == texts[0] || t in texts[1..];
        }
      }
    }
  }

  /** The parts of s, trimmed, without the empty ones. */
  function CleanParts(parts: seq<string>): (r: seq<string>)
    ensures forall p | p in r :: p != "" && Trimmed(p)
  {
    if |parts| == 0 then []
    else
      var p := Trim(parts[0]);
      (if p == "" then [] else [p]) + CleanParts(parts[1..])
  }

  lemma {:induction false} CleanPartsOf(parts: seq<string>)
    ensures forall p :: p in CleanParts(parts) <==> p != "" && exists i | 0 <= i < |parts| :: p == Trim(parts[i])
  {
    if |parts| > 0 {
      CleanPartsOf(parts[1..]);
      forall p | p != "" && exists i | 0 <= i < |parts| :: p == Trim(parts[i])
        ensures p in CleanParts(parts)
      {
        var i :| 0 <= i < |parts| && p == Trim(parts[i]);
        if i > 0 {
          assert parts[1..][i - 1] == parts[i];
        }
      }
    }
  }

  lemma {:induction false} CleanPartsKeeps(parts: seq<string>)
    requires forall p | p in parts :: p != "" && Trimmed(p)
    ensures CleanParts(parts) == parts
  {
    if |parts| > 0 {
      assert forall p | p in parts[1..] :: p in parts;
      CleanPartsKeeps(parts[1..]);
    }
  }

  lemma Associative<T>(a: seq<T>, b: seq<T>, c: seq<T>)
    ensures a + (b + c) == (a + b) + c
  {}

  lemma {:induction false} CleanPartsAppend(a: seq<string>, b: seq<string>)
    ensures CleanParts(a + b) == CleanParts(a) + CleanParts(b)
  {
    hide Trim, Trimmed;
    if |a| == 0 {
      assert a + b == b;
    } else {
      CleanPartsAppend(a[1..], b);
      assert (a + b)[1..] == a[1..] + b;
      Associative(if Trim(a[0]) == "" then [] else [Trim(a[0])], CleanParts(a[1..]), CleanParts(b));
    }
  }

  lemma CleanPartsStep(parts: seq<string>, i: nat)
    requires i < |parts|
    ensures CleanParts(parts[..i + 1]) ==
        CleanParts(parts[..i]) + (if Trim(parts[i]) == "" then [] else [Trim(parts[i])])
  {
    assert parts[..i + 1] == parts[..i] + [parts[i]];
    CleanPartsAppend(parts[..i], [parts[i]]);
  }

  ghost predicate NoRepetition<T>(list: seq<T>) {
    forall i, j | 0 <= i < j < |list| :: list[i] != list[j]
  }

  /** The list without repetitions, each element at its first occurrence. */
  function Distinct(s: seq<string>): (r: seq<string>)
    ensures forall x :: x in r <==> x in s
    ensures NoRepetition(r)
  {
    if |s| == 0 then []
    else
      var most := Distinct(s[..|s| - 1]);
      assert s == s[..|s| - 1] + [s[|s| - 1]];
      if s[|s| - 1] in most then most else most + [s[|s| - 1]]
  }

  lemma {:induction false} SubsetSize<T>(x: set<T>, y: set<T>)
    requires x <= y
    ensures |x| <= |y|
  {
    if x != {} {
      var e :| e in x;
      SubsetSize(x - {e}, y - {e});
    }
  }
}
