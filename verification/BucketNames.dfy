/** Bucket names: a base, a random suffix, and at most 63 characters. */
module BucketNames {
  import opened Text

  const MAX_BUCKET_NAME_LEN := 63

  function Truncate(name: string): string {
    if |name| <= MAX_BUCKET_NAME_LEN then name else name[..MAX_BUCKET_NAME_LEN]
  }

  function TrimDash(s: string): string {
    if s != "" && s[|s| - 1] == '-' then s[..|s| - 1] else s
  }

  /** That this function is well-formed says that the slice never runs past the base.  The length
      limit is kept unless the base is blank and the suffix alone is too long. */
  function JoinBucketName(base: string, suffix: string): (r: string)
    ensures |r| <= 63 <==> |Trim(suffix)| <= 63 || Trim(base) != ""
  {
    var base, suffix := Trim(base), Trim(suffix);
    if base == "" then suffix
    else if suffix == "" then Truncate(base)
    else
      var joined := base + "-" + suffix;
      if |joined| <= MAX_BUCKET_NAME_LEN then joined
      else
        var keep := MAX_BUCKET_NAME_LEN - |suffix| - 1;
        if keep < 1 then Truncate(suffix)
        else TrimDash(base[..keep]) + "-" + suffix
  }

  predicate HasSuffix(s: string, suffix: string) {
    |suffix| <= |s| && s[|s| - |suffix|..] == suffix
  }

  /** As much of the base as the limit allows, but for a dash where it is cut. */
  predicate FitsBefore(head: string, base: string, suffix: string) {
    && head <= base
    && if |base| + 1 + |suffix| <= 63 then head == base
       else if |head| + 1 + |suffix| == 63 then head != "" && head[|head| - 1] != '-'
       else |head| + 2 + |suffix| == 63 && base[|head|] == '-'
  }

  /** A suffix that leaves room for one character of the base and the dash is kept in full, and
      what stands before it is as much of the base as fits. */
  lemma JoinedNameKeepsSuffix(base: string, suffix: string)
    requires 0 < |Trim(suffix)| <= 61
    ensures HasSuffix(JoinBucketName(base, suffix), Trim(suffix))
    ensures Trim(base) != "" ==>
        exists head :: FitsBefore(head, Trim(base), Trim(suffix)) && JoinBucketName(base, suffix) == head + "-" + Trim(suffix)
  {
    var b, s := Trim(base), Trim(suffix);
    if b != "" {
      var keep := 62 - |s|;
      var head := if |b + "-" + s| <= 63 then b else TrimDash(b[..keep]);
      assert FitsBefore(head, b, s);
      assert JoinBucketName(base, suffix) == head + "-" + s;
      assert HasSuffix(head + "-" + s, s);
    }
  }

  /** Otherwise one of the two makes the name: the base without a suffix, the suffix without a base or
      if it leaves no room; cut at the limit unless the base is blank. */
  lemma JoinedNameOfOne(base: string, suffix: string)
    ensures Trim(base) == "" ==> JoinBucketName(base, suffix) == Trim(suffix)
    ensures Trim(base) != "" && (Trim(suffix) == "" || |Trim(suffix)| > 61) ==>
        var r, all := JoinBucketName(base, suffix), if Trim(suffix) == "" then Trim(base) else Trim(suffix);
        r <= all && (r == all || |r| == 63) && |r| <= 63
  {}

  /** For one base, different suffixes of one length give different names. */
  lemma JoinedNamesDiffer(base: string, suffix: string, suffix': string)
    requires 0 < |Trim(suffix)| == |Trim(suffix')| <= 61
    requires Trim(suffix) != Trim(suffix')
    ensures JoinBucketName(base, suffix) != JoinBucketName(base, suffix')
  {
    JoinedNameKeepsSuffix(base, suffix);
    JoinedNameKeepsSuffix(base, suffix');
  }
}
