/** Which pre-existing remote bucket a Bucket resource may take over. */
module Adoption {
  import opened Text

  const ADOPTABLE_LABEL_KEY := "objectstorage.controllers.thalassa.cloud/adoptable"
  const ADOPTABLE_LABEL_VALUE := "true"

  function DefaultRequiredLabels(): map<string, string> {
    map[ADOPTABLE_LABEL_KEY := ADOPTABLE_LABEL_VALUE]
  }

  /** The labels a bucket must carry; an empty configuration means the default ones. */
  function RequiredLabels(configured: map<string, string>): map<string, string> {
    if |configured| == 0 then DefaultRequiredLabels() else configured
  }

  /** Adoption is enabled and the bucket carries every required label with its required value. */
  ghost predicate Eligible(labels: map<string, string>, enabled: bool, configured: map<string, string>) {
    enabled && forall k | k in RequiredLabels(configured) :: k in labels && labels[k] == RequiredLabels(configured)[k]
  }

  /** Every configured label is among those of the bucket; without a configuration the documented one
      is. */
  predicate Agreed(labels: map<string, string>, enabled: bool, configured: map<string, string>) {
    && enabled
    && if configured != map[] then configured.Items <= labels.Items
       else ("objectstorage.controllers.thalassa.cloud/adoptable", "true") in labels.Items
  }

  lemma EligibleExactly(labels: map<string, string>, enabled: bool, configured: map<string, string>)
    ensures Eligible(labels, enabled, configured) <==> Agreed(labels, enabled, configured)
  {
    var required := RequiredLabels(configured);
    assert (ADOPTABLE_LABEL_KEY, ADOPTABLE_LABEL_VALUE) in DefaultRequiredLabels().Items;
    if required.Items <= labels.Items {
      forall k | k in required
        ensures k in labels && labels[k] == required[k]
      {
        assert (k, required[k]) in required.Items;
      }
    }
  }

  method CheckAdoptionEligibility(labels: map<string, string>, enabled: bool, configured: map<string, string>)
    returns (ok: bool)
    ensures ok <==> Eligible(labels, enabled, configured)
    ensures ok <==> Agreed(labels, enabled, configured)
  {
    EligibleExactly(labels, enabled, configured);
    if !enabled {
      return false;
    }
    var required := configured;
    if |required| == 0 {
      required := DefaultRequiredLabels();
    }
    var missing: seq<string> := [];
    var rest := required.Keys;
    while rest != {}
      invariant rest <= required.Keys
      invariant missing == [] <==> forall k | k in required.Keys - rest :: k in labels && labels[k] == required[k]
    {
      var k :| k in rest;
      if k !in labels || labels[k] != required[k] {
        missing := missing + [k];
      }
      rest := rest - {k};
    }
    ok := missing == [];
  }

  // ---------- The flag that configures the labels ----------

  /** strings.SplitN(part, "=", 2), as the key and the value if there is a separator. */
  function KeyValue(part: string): Option<(string, string)> {
    if part == "" then None
    else if part[0] == '=' then Some(("", part[1..]))
    else
      match KeyValue(part[1..])
      case None => None
      case Some(kv) => Some(([part[0]] + kv.0, kv.1))
  }

  /** One entry of the list, trimmed; None if it is no key=value pair. */
  function Pair(part: string): Option<(string, string)> {
    match KeyValue(part)
    case None => None
    case Some(kv) => if Trim(kv.0) == "" then None else Some((Trim(kv.0), Trim(kv.1)))
  }

  /** The pairs in order, later ones winning. */
  function Collected(parts: seq<string>): Option<map<string, string>> {
    if |parts| == 0 then Some(map[])
    else
      match (Collected(parts[..|parts| - 1]), Pair(parts[|parts| - 1]))
      case (Some(m), Some(kv)) => Some(m[kv.0 := kv.1])
      case _ => None
  }

  function ParsedLabels(raw: string): Option<map<string, string>> {
    match Collected(CleanParts(Split(Trim(raw), ',')))
    case None => None
    case Some(m) => Some(RequiredLabels(m))
  }

  method ParseLabelPairs(raw: string) returns (r: Option<map<string, string>>)
    ensures r == ParsedLabels(raw)
  {
    hide Pair;
    var text := Trim(raw);
    if text == "" {
      assert Split("", ',') == [""];
      assert CleanParts([""]) == [];
      return Some(DefaultRequiredLabels());
    }
    var parts := Split(text, ',');
    var out: map<string, string> := map[];
    for i := 0 to |parts|
      invariant Collected(CleanParts(parts[..i])) == Some(out)
    {
      var part := Trim(parts[i]);
      CollectStep(parts, i);
      if part == "" {
        continue;
      }
      var kv := Pair(part);
      if kv.None? {
        CollectedFailsEarly(parts, i + 1);
        return None;
      }
      out := out[kv.value.0 := kv.value.1];
    }
    assert parts[..|parts|] == parts;
    if |out| == 0 {
      return Some(DefaultRequiredLabels());
    }
    return Some(out);
  }

  lemma CollectStep(parts: seq<string>, i: nat)
    requires i < |parts| && Collected(CleanParts(parts[..i])).Some?
    ensures var part, m := Trim(parts[i]), Collected(CleanParts(parts[..i])).value;
      Collected(CleanParts(parts[..i + 1])) ==
        if part == "" then Some(m)
        else if Pair(part).None? then None
        else Some(m[Pair(part).value.0 := Pair(part).value.1])
  {
    hide Pair;
    CleanPartsStep(parts, i);
    var before, part := CleanParts(parts[..i]), Trim(parts[i]);
    if part == "" {
      assert before + [] == before;
    } else {
      assert (before + [part])[..|before|] == before;
      assert (before + [part])[|before|] == part;
    }
  }

  lemma CollectedFailsEarly(parts: seq<string>, i: nat)
    requires i <= |parts| && Collected(CleanParts(parts[..i])).None?
    ensures Collected(CleanParts(parts)).None?
  {
    assert parts == parts[..i] + parts[i..];
    CleanPartsAppend(parts[..i], parts[i..]);
    CollectedPrefixFails(CleanParts(parts[..i]), CleanParts(parts[i..]));
  }

  lemma {:induction false} CollectedPrefixFails(a: seq<string>, b: seq<string>)
    requires Collected(a).None?
    ensures Collected(a + b).None?
  {
    if |b| == 0 {
      assert a + b == a;
    } else {
      assert (a + b)[..|a + b| - 1] == a + b[..|b| - 1];
      CollectedPrefixFails(a, b[..|b| - 1]);
    }
  }

  // ---------- Reading back what was printed ----------

  /** A pair that the list syntax can hold: trimmed, no comma, and no equals sign in the key. */
  predicate Printable(kv: (string, string)) {
    Trimmed(kv.0) && Trimmed(kv.1) && ',' !in kv.0 && ',' !in kv.1 && '=' !in kv.0
  }

  function Printed(pairs: seq<(string, string)>): seq<string> {
    seq(|pairs|, i requires 0 <= i < |pairs| => pairs[i].0 + "=" + pairs[i].1)
  }

  function AsMap(pairs: seq<(string, string)>): map<string, string> {
    if |pairs| == 0 then map[]
    else AsMap(pairs[..|pairs| - 1])[pairs[|pairs| - 1].0 := pairs[|pairs| - 1].1]
  }

  lemma {:induction false} KeyValueOf(k: string, v: string)
    requires '=' !in k
    ensures KeyValue(k + "=" + v) == Some((k, v))
  {
    if k == "" {
      assert "=" + v == ['='] + v;
    } else {
      KeyValueOf(k[1..], v);
      assert (k + "=" + v)[1..] == k[1..] + "=" + v;
      assert k == [k[0]] + k[1..];
    }
  }

  lemma {:induction false} NoKeyValue(part: string)
    ensures KeyValue(part).Some? <==> '=' in part
  {
    if part != "" {
      NoKeyValue(part[1..]);
      assert part == [part[0]] + part[1..];
    }
  }

  /** An entry is read at its first equals sign, both sides trimmed; it is no pair exactly without an
      equals sign or without a key. */
  lemma PairExactly(k: string, v: string)
    requires '=' !in k
    ensures Pair(k + "=" + v) == if Trim(k) == "" then None else Some((Trim(k), Trim(v)))
    ensures Pair(k).None?
  {
    KeyValueOf(k, v);
    NoKeyValue(k);
  }

  lemma {:induction false} CollectedOf(pairs: seq<(string, string)>)
    requires forall i | 0 <= i < |pairs| :: Printable(pairs[i])
    ensures Collected(Printed(pairs)) ==
        if forall i | 0 <= i < |pairs| :: pairs[i].0 != "" then Some(AsMap(pairs)) else None
  {
    hide Pair;
    if |pairs| > 0 {
      var most, last := pairs[..|pairs| - 1], pairs[|pairs| - 1];
      CollectedOf(most);
      assert Printed(pairs)[..|pairs| - 1] == Printed(most);
      PairExactly(last.0, last.1);
      if forall i | 0 <= i < |most| :: most[i].0 != "" {
        assert forall i | 0 <= i < |most| :: pairs[i].0 != "";
      } else {
        var i :| 0 <= i < |most| && most[i].0 == "";
        assert pairs[i].0 == "";
      }
    }
  }

  lemma RequiredOf(pairs: seq<(string, string)>)
    ensures RequiredLabels(AsMap(pairs)) ==
        if pairs == [] then map["objectstorage.controllers.thalassa.cloud/adoptable" := "true"] else AsMap(pairs)
  {
    hide DefaultRequiredLabels;
    DefaultIsAdoptable();
    if pairs != [] {
      assert pairs[|pairs| - 1].0 in AsMap(pairs);
    }
  }

  lemma DefaultIsAdoptable()
    ensures DefaultRequiredLabels() == map["objectstorage.controllers.thalassa.cloud/adoptable" := "true"]
  {}

  /** A printed list of pairs reads back as the map it denotes, empty values and values with equals
      signs included; an empty list reads as the default; it is refused exactly if a key is empty. */
  lemma LabelsRoundTrip(pairs: seq<(string, string)>)
    requires forall i | 0 <= i < |pairs| :: Printable(pairs[i])
    ensures ParsedLabels(Join(Printed(pairs), ',')) ==
        if exists i | 0 <= i < |pairs| :: pairs[i].0 == "" then None
        else if pairs == [] then Some(map["objectstorage.controllers.thalassa.cloud/adoptable" := "true"])
        else Some(AsMap(pairs))
  {
    hide Printable, Collected, RequiredLabels, AsMap;
    CollectedOf(pairs);
    PartsComeBack(pairs);
    RequiredOf(pairs);
  }

  lemma PartsComeBack(pairs: seq<(string, string)>)
    requires forall i | 0 <= i < |pairs| :: Printable(pairs[i])
    ensures CleanParts(Split(Trim(Join(Printed(pairs), ',')), ',')) == Printed(pairs)
  {
    hide Printable;
    var parts := Printed(pairs);
    if parts == [] {
      assert Trim("") == "" && Split("", ',') == [""] && CleanParts([""]) == [];
    } else {
      forall i | 0 <= i < |parts|
        ensures parts[i] != "" && Trimmed(parts[i]) && ',' !in parts[i]
      {
        PlainPair(pairs[i]);
      }
      JoinTrimmed(parts);
      SplitUndoesJoin(parts, ',');
      CleanPartsKeeps(parts);
    }
  }

  lemma PlainPair(kv: (string, string))
    requires Printable(kv)
    ensures var p := kv.0 + "=" + kv.1; p != "" && Trimmed(p) && ',' !in p
  {
    var p := kv.0 + "=" + kv.1;
    assert p[0] == if kv.0 == "" then '=' else kv.0[0];
    assert p[|p| - 1] == if kv.1 == "" then '=' else kv.1[|kv.1| - 1];
  }

  lemma {:induction false} JoinTrimmed(parts: seq<string>)
    requires |parts| > 0 && forall i | 0 <= i < |parts| :: parts[i] != "" && Trimmed(parts[i])
    ensures var j := Join(parts, ',');
      j != "" && Trimmed(j) && j[0] == parts[0][0] && !IsSpace(j[|j| - 1])
  {
    if |parts| > 1 {
      JoinTrimmed(parts[1..]);
    }
  }
}
