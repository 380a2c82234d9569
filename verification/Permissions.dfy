/** Which S3 actions a BucketAccess may grant. */
module Permissions {
  import opened Text

  const PRESET_READ_ONLY := "ReadOnly"
  const PRESET_READ_WRITE := "ReadWrite"

  const READ_ONLY_PERMISSIONS: seq<string> := [
    "s3:GetObject",
    "s3:GetObjectVersion",
    "s3:ListBucket",
    "s3:ListBucketVersions",
    "s3:GetObjectTagging",
    "s3:GetObjectVersionTagging",
    "s3:GetBucketVersioning"
  ]

  const READ_WRITE_PERMISSIONS: seq<string> := [
    "s3:GetObject",
    "s3:GetObjectVersion",
    "s3:PutObject",
    "s3:DeleteObject",
    "s3:DeleteObjectVersion",
    "s3:ListMultipartUploadParts",
    "s3:AbortMultipartUpload",
    "s3:ListBucket",
    "s3:ListBucketVersions",
    "s3:ListBucketMultipartUploads",
    "s3:GetBucketAcl",
    "s3:GetBucketVersioning",
    "s3:GetLifecycleConfiguration",
    "s3:GetObjectTagging",
    "s3:PutObjectTagging",
    "s3:DeleteObjectTagging",
    "s3:GetObjectVersionTagging",
    "s3:PutObjectVersionTagging",
    "s3:DeleteObjectVersionTagging"
  ]

  const EXTRA_ACTIONS: seq<string> := [
    "s3:GetObjectVersionTagging",
    "s3:GetBucketLocation",
    "s3:GetBucketPolicyStatus"
  ]

  function SetOf(list: seq<string>): set<string> {
    set a | a in list
  }

  function AllowedActions(): set<string> {
    SetOf(READ_WRITE_PERMISSIONS) + SetOf(EXTRA_ACTIONS)
  }

  method CollectAllowed(defaults: seq<string>, extra: seq<string>) returns (m: set<string>)
    ensures m == SetOf(defaults) + SetOf(extra)
  {
    m := {};
    for i := 0 to |defaults|
      invariant m == SetOf(defaults[..i])
    {
      m := m + {defaults[i]};
    }
    assert defaults[..|defaults|] == defaults;
    for i := 0 to |extra|
      invariant m == SetOf(defaults) + SetOf(extra[..i])
    {
      m := m + {extra[i]};
    }
    assert extra[..|extra|] == extra;
  }

  datatype Resolution =
    | Granted(actions: seq<string>)
    | Disallowed
    | NothingLeft
    | UnknownPreset

  /** The answer for an explicit list of actions. */
  function ResolveCustom(allowed: set<string>, custom: seq<string>): Resolution {
    var wanted := CleanParts(custom);
    if exists a | a in wanted :: a !in allowed then Disallowed
    else if wanted == [] then NothingLeft
    else Granted(Distinct(wanted))
  }

  function Resolve(preset: string, custom: seq<string>): Resolution {
    if |custom| > 0 then ResolveCustom(AllowedActions(), custom)
    else
      var p := Trim(preset);
      if p == "" || p == PRESET_READ_WRITE then Granted(READ_WRITE_PERMISSIONS)
      else if p == PRESET_READ_ONLY then Granted(READ_ONLY_PERMISSIONS)
      else UnknownPreset
  }

  method FilterCustom(allowed: set<string>, custom: seq<string>) returns (r: Resolution)
    ensures r == ResolveCustom(allowed, custom)
  {
    var seen: set<string> := {};
    var out: seq<string> := [];
    var invalid: seq<string> := [];
    for i := 0 to |custom|
      invariant invalid == [] <==> forall a | a in CleanParts(custom[..i]) :: a in allowed
      invariant invalid == [] ==> out == Distinct(CleanParts(custom[..i]))
      invariant forall a :: a in seen <==> a in out
    {
      var a := Trim(custom[i]);
      ghost var before := CleanParts(custom[..i]);
      CleanPartsStep(custom, i);
      if a == "" {
        assert before + [] == before;
        continue;
      }
      assert (before + [a])[..|before|] == before;
      assert (before + [a])[|before|] == a;
      if a !in allowed {
        invalid := invalid + [a];
        continue;
      }
      if a in seen {
        continue;
      }
      seen := seen + {a};
      out := out + [a];
    }
    assert custom[..|custom|] == custom;
    if |invalid| > 0 {
      return Disallowed;
    }
    if |out| == 0 {
      assert forall a :: a in CleanParts(custom) <==> a in out;
      return NothingLeft;
    }
    return Granted(out);
  }

  method ResolvePermissions(preset: string, custom: seq<string>) returns (r: Resolution)
    ensures r == Resolve(preset, custom)
    ensures custom == [] && Trim(preset) == "ReadOnly" ==> r.Granted? && SetOf(r.actions) == ReadActions()
    ensures custom == [] && Trim(preset) in {"", "ReadWrite"} ==> r.Granted? && SetOf(r.actions) == ReadWriteActions()
  {
    hide ReadActions, ReadWriteActions, Trim;
    PresetsGrant(preset);
    if |custom| > 0 {
      var allowed := CollectAllowed(READ_WRITE_PERMISSIONS, EXTRA_ACTIONS);
      r := FilterCustom(allowed, custom);
      return;
    }
    var p := Trim(preset);
    if p == "" || p == PRESET_READ_WRITE {
      return Granted(READ_WRITE_PERMISSIONS);
    } else if p == PRESET_READ_ONLY {
      return Granted(READ_ONLY_PERMISSIONS);
    } else {
      return UnknownPreset;
    }
  }

  // ---------- The documented permissions ----------

  /** What reading a bucket takes. */
  function ReadActions(): set<string> {
    {"s3:GetObject", "s3:GetObjectVersion", "s3:ListBucket", "s3:ListBucketVersions",
     "s3:GetObjectTagging", "s3:GetObjectVersionTagging", "s3:GetBucketVersioning"}
  }

  /** What writing takes as well. */
  function ReadWriteActions(): set<string> {
    {"s3:GetObject", "s3:GetObjectVersion", "s3:PutObject", "s3:DeleteObject",
     "s3:DeleteObjectVersion", "s3:ListMultipartUploadParts", "s3:AbortMultipartUpload", "s3:ListBucket",
     "s3:ListBucketVersions", "s3:ListBucketMultipartUploads", "s3:GetBucketAcl", "s3:GetBucketVersioning",
     "s3:GetLifecycleConfiguration", "s3:GetObjectTagging", "s3:PutObjectTagging", "s3:DeleteObjectTagging",
     "s3:GetObjectVersionTagging", "s3:PutObjectVersionTagging", "s3:DeleteObjectVersionTagging"}
  }

  predicate ChangesObjects(action: string) {
    "s3:Put" <= action || "s3:Delete" <= action || "s3:Abort" <= action
  }

  lemma ListOfSeven(s: seq<string>)
    requires |s| == 7
    ensures SetOf(s) == {s[0], s[1], s[2], s[3], s[4], s[5], s[6]}
  {}

  lemma ListOfNineteen(s: seq<string>)
    requires |s| == 19
    ensures SetOf(s) == {s[0], s[1], s[2], s[3], s[4], s[5], s[6], s[7], s[8], s[9],
                         s[10], s[11], s[12], s[13], s[14], s[15], s[16], s[17], s[18]}
  {}

  lemma ListOfThree(s: seq<string>)
    requires |s| == 3
    ensures SetOf(s) == {s[0], s[1], s[2]}
  {}

  lemma AddedOnce(all: set<string>, x: string, y: string, z: string)
    requires x in all
    ensures all + {x, y, z} == all + {y, z}
  {}

  lemma PresetLists()
    ensures SetOf(READ_ONLY_PERMISSIONS) == ReadActions()
    ensures SetOf(READ_WRITE_PERMISSIONS) == ReadWriteActions()
    ensures AllowedActions() == ReadWriteActions() + {"s3:GetBucketLocation", "s3:GetBucketPolicyStatus"}
  {
    hide SetOf;
    ListOfSeven(READ_ONLY_PERMISSIONS);
    ListOfNineteen(READ_WRITE_PERMISSIONS);
    ListOfThree(EXTRA_ACTIONS);
    AddedOnce(ReadWriteActions(), "s3:GetObjectVersionTagging", "s3:GetBucketLocation", "s3:GetBucketPolicyStatus");
  }

  lemma FourthLetter(action: string)
    requires |action| > 3 && action[3] != 'P' && action[3] != 'D' && action[3] != 'A'
    ensures !ChangesObjects(action)
  {
    assert "s3:Put"[3] == 'P' && "s3:Delete"[3] == 'D' && "s3:Abort"[3] == 'A';
  }

  lemma ReadingChangesNothing(x: string)
    requires x in READ_ONLY_PERMISSIONS
    ensures !ChangesObjects(x)
  {
    hide ChangesObjects;
    var i :| 0 <= i < |READ_ONLY_PERMISSIONS| && READ_ONLY_PERMISSIONS[i] == x;
    FourthLetter(READ_ONLY_PERMISSIONS[i]);
  }

  lemma ReadActionsChangeNothing()
    ensures forall x | x in ReadActions() :: !ChangesObjects(x)
  {
    hide ReadActions, ReadWriteActions, ChangesObjects;
    PresetLists();
    forall x | x in ReadActions()
      ensures !ChangesObjects(x)
    {
      assert x in SetOf(READ_ONLY_PERMISSIONS);
      ReadingChangesNothing(x);
    }
  }

  /** Without a list of its own, a read-only access is granted exactly what reading takes, and can
      change nothing; the default and the read-write preset grant exactly the documented actions. */
  lemma PresetsGrant(preset: string)
    ensures var r := Resolve(preset, []);
      && (Trim(preset) == "ReadOnly" ==>
            r.Granted? && SetOf(r.actions) == ReadActions() && forall x | x in r.actions :: !ChangesObjects(x))
      && (Trim(preset) in {"", "ReadWrite"} ==> r.Granted? && SetOf(r.actions) == ReadWriteActions())
  {
    hide SetOf, ReadActions, ReadWriteActions, ChangesObjects, Trim;
    PresetLists();
    forall x | x in READ_ONLY_PERMISSIONS
      ensures !ChangesObjects(x)
    {
      ReadingChangesNothing(x);
    }
  }

  /** Position of the first occurrence; the length if there is none. */
  function FirstIndex(s: seq<string>, x: string): nat {
    if |s| == 0 || s[0] == x then 0 else 1 + FirstIndex(s[1..], x)
  }

  lemma {:induction false} FirstIndexAppend(s: seq<string>, y: string, x: string)
    ensures x in s ==> FirstIndex(s + [y], x) == FirstIndex(s, x) < |s|
    ensures x !in s && x == y ==> FirstIndex(s + [y], x) == |s|
  {
    if |s| > 0 {
      assert (s + [y])[1..] == s[1..] + [y];
      FirstIndexAppend(s[1..], y, x);
    }
  }

  lemma {:induction false} DistinctOrder(s: seq<string>)
    ensures forall i, j | 0 <= i < j < |Distinct(s)| :: FirstIndex(s, Distinct(s)[i]) < FirstIndex(s, Distinct(s)[j])
  {
    if |s| > 0 {
      var most, last := s[..|s| - 1], s[|s| - 1];
      assert s == most + [last];
      DistinctOrder(most);
      forall x
        ensures x in most ==> FirstIndex(s, x) == FirstIndex(most, x) < |most|
        ensures x !in most && x == last ==> FirstIndex(s, x) == |most|
      {
        FirstIndexAppend(most, last, x);
      }
    }
  }

  /** The place of a listed action, from its length and up to two characters. */
  function Place(s: string): nat {
    match |s|
    case 12 => if s[3] == 'G' then 0 else 2
    case 13 => 7
    case 15 => if s[3] == 'D' then 3 else 10
    case 19 => if s[3] == 'P' then 14 else if s[18] == 'n' then 1 else 13
    case 21 => 8
    case 22 => if s[3] == 'G' then 11 else if s[21] == 'n' then 4 else 15
    case 23 => 6
    case 26 => if s[3] == 'G' then 16 else 17
    case 27 => 5
    case 28 => 12
    case 29 => if s[3] == 'L' then 9 else 18
    case _ => 0
  }

  lemma ReadWriteDistinct()
    ensures NoRepetition(READ_WRITE_PERMISSIONS)
  {
    assert forall i | 0 <= i < |READ_WRITE_PERMISSIONS| :: Place(READ_WRITE_PERMISSIONS[i]) == i;
  }

  lemma ReadOnlyIsPartOfReadWrite()
    ensures NoRepetition(READ_ONLY_PERMISSIONS)
    ensures forall a | a in READ_ONLY_PERMISSIONS :: a in READ_WRITE_PERMISSIONS
  {
    ReadWriteDistinct();
    var at := [0, 1, 7, 8, 13, 16, 11];
    assert forall i | 0 <= i < |at| :: READ_ONLY_PERMISSIONS[i] == READ_WRITE_PERMISSIONS[at[i]];
  }

  /** Every action that resolution grants is allowlisted, and none is granted twice. */
  lemma GrantedActionsAreAllowed(preset: string, custom: seq<string>)
    requires Resolve(preset, custom).Granted?
    ensures var r := Resolve(preset, custom).actions;
      |r| > 0 && NoRepetition(r) && forall a | a in r :: a in AllowedActions()
  {
    if |custom| > 0 {
      var wanted := CleanParts(custom);
      assert wanted[0] in Distinct(wanted);
    } else {
      ReadWriteDistinct();
      ReadOnlyIsPartOfReadWrite();
    }
  }

  /** A custom list is granted as its distinct entries in the order of first occurrence. */
  lemma CustomListOrder(allowed: set<string>, custom: seq<string>)
    requires ResolveCustom(allowed, custom).Granted?
    ensures var r, wanted := ResolveCustom(allowed, custom).actions, CleanParts(custom);
      && (forall a :: a in r <==> a in wanted)
      && (forall i, j | 0 <= i < j < |r| :: FirstIndex(wanted, r[i]) < FirstIndex(wanted, r[j]))
  {
    DistinctOrder(CleanParts(custom));
  }

  /** Resolution fails exactly when an entry is not allowed, when nothing but blanks is left, or
      when there is no list and the preset is unknown. */
  lemma ResolutionFailsExactly(preset: string, custom: seq<string>)
    ensures Resolve(preset, custom).Disallowed? <==>
        exists i | 0 <= i < |custom| :: Trim(custom[i]) != "" && Trim(custom[i]) !in AllowedActions()
    ensures Resolve(preset, custom).NothingLeft? <==>
        |custom| > 0 && forall i | 0 <= i < |custom| :: Trim(custom[i]) == ""
    ensures Resolve(preset, custom).UnknownPreset? <==>
        custom == [] && Trim(preset) !in {"", "ReadOnly", "ReadWrite"}
  {
    if |custom| > 0 {
      CustomFailsExactly(AllowedActions(), custom);
    }
  }

  lemma CustomFailsExactly(allowed: set<string>, custom: seq<string>)
    ensures ResolveCustom(allowed, custom).Disallowed? <==>
        exists i | 0 <= i < |custom| :: Trim(custom[i]) != "" && Trim(custom[i]) !in allowed
    ensures ResolveCustom(allowed, custom).NothingLeft? <==>
        forall i | 0 <= i < |custom| :: Trim(custom[i]) == ""
  {
    var wanted := CleanParts(custom);
    CleanPartsOf(custom);
    if wanted != [] {
      assert wanted[0] in wanted;
    }
    forall i | 0 <= i < |custom| && Trim(custom[i]) != ""
      ensures Trim(custom[i]) in wanted
    {}
  }
}
