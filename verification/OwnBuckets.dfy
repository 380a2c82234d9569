/** Buckets do not pile up: a resource has at most one bucket, but for those whose creation it never
    got to record. */
module OwnBuckets {
  import opened Text
  import opened BucketLifecycle
  import opened BucketSafety

  /** The buckets this resource created that are still there. */
  function Own(w: World): set<string> {
    set n | n in w.store && w.store[n].maker.ThisResource?
  }

  function OnRecord(st: Status): set<string> {
    if st.bucketName == "" then {} else {st.bucketName}
  }

  function OffRecord(w: World): set<string> {
    Own(w) - OnRecord(w.status)
  }

  /** How many buckets a pass creates without recording them: by a lost reply, a cut, or a lost status
      write after the create call took effect. */
  ghost function Charge(c: Config, w: World, f: Fates): nat {
    if w.status.bucketName == "" && w.status.resourceId.None? then |Unrecorded(w, f, CreateBucket(c, w, f).tries)| else 0
  }

  lemma {:induction false} ImageSize(turns: set<nat>, names: set<string>, w: World, f: Fates)
    requires forall n | n in names :: exists i | i in turns :: n == TurnName(w.spec, f.TurnAt(i))
    ensures |names| <= |turns|
  {
    hide TurnName;
    if names != {} {
      var n :| n in names;
      var i :| i in turns && n == TurnName(w.spec, f.TurnAt(i));
      ImageSize(turns - {i}, names - {n}, w, f);
    }
  }

  /** Every created name comes from a turn whose create took effect. */
  lemma {:induction false} CreatedFrom(w: World, f: Fates, turns: nat, n: string)
    requires n in CreatedBy(w, f, turns)
    ensures exists i: nat | i < turns :: TookEffect(w, f, i) && n == TurnName(w.spec, f.TurnAt(i))
  {
    hide TurnName;
    if n in CreatedBy(w, f, turns - 1) {
      CreatedFrom(w, f, turns - 1, n);
    } else {
      assert TookEffect(w, f, turns - 1);
    }
  }

  lemma CreatingPassStrays(c: Config, w: World, f: Fates)
    requires w.status.bucketName == ""
    ensures |OffRecord(CreateBucket(c, w, f).w)| <= |OffRecord(w)| + |Unrecorded(w, f, CreateBucket(c, w, f).tries)|
  {
    hide CreateBucket, TurnName, Unrecorded, TookEffect;
    var p := CreateBucket(c, w, f);
    AllocationBounds(c, w, f);
    AllocationExact(c, w, f);
    var more := OffRecord(p.w) - Own(w);
    forall n | n in more
      ensures exists i | i in Unrecorded(w, f, p.tries) :: n == TurnName(w.spec, f.TurnAt(i))
    {
      CreatedFrom(w, f, p.tries, n);
      var i: nat :| i < p.tries && TookEffect(w, f, i) && n == TurnName(w.spec, f.TurnAt(i));
      RecordedOrNot(w, f, p, i);
    }
    ImageSize(Unrecorded(w, f, p.tries), more, w, f);
    SubsetSize(OffRecord(p.w), Own(w) + more);
  }

  lemma RecordedOrNot(w: World, f: Fates, p: Pass, i: nat)
    requires i < p.tries && TookEffect(w, f, i)
    requires i !in Unrecorded(w, f, p.tries) ==> p.w.status.bucketName == TurnName(w.spec, f.TurnAt(i))
    ensures i in Unrecorded(w, f, p.tries) || TurnName(w.spec, f.TurnAt(i)) in OnRecord(p.w.status)
  {
    hide TookEffect, TurnName;
  }

  lemma RepairStrays(w: World, name: string, f: Fates)
    requires w.status.bucketName != "" ==> name == w.status.bucketName
    ensures |OffRecord(RepairBucket(w, name, f).w)| <= |OffRecord(w)|
  {
    hide RepairBucket;
    RepairStaysPut(w, name, f);
    SubsetSize(OffRecord(RepairBucket(w, name, f).w), OffRecord(w));
  }

  lemma SameStrays(w: World, w': World)
    requires w'.store == w.store && w'.status.bucketName == w.status.bucketName
    ensures OffRecord(w') == OffRecord(w)
  {}

  /** A pass strays at most the buckets it created without recording them. */
  lemma PassStrays(c: Config, w: World, f: Fates)
    ensures |OffRecord(Reconcile(c, w, f).w)| <= |OffRecord(w)| + Charge(c, w, f)
  {
    hide CreateBucket, RepairBucket, OffRecord, Unrecorded, BaseName;
    if w.status.bucketName == "" && w.status.resourceId.None? {
      CreatingPassStrays(c, w, f);
    } else {
      match ProvisionedName(w.spec, w.status)
      case None =>
        SameStrays(w, Fail(w, w.status, "BucketNameUnknown", f.error, 0, []).w);
      case Some(name) => RepairStrays(w, name, f);
    }
  }

  // ---------- Runs ----------

  /** The buckets of others are made by others. */
  ghost predicate MadeByOthers(es: seq<Event>) {
    forall i | 0 <= i < |es| && es[i].OthersCreate? :: es[i].remote.maker.SomebodyElse?
  }

  ghost function TotalCharge(c: Config, w: World, es: seq<Event>): nat {
    if |es| == 0 then 0
    else
      TotalCharge(c, w, es[..|es| - 1]) +
      if es[|es| - 1].Reconciled? then Charge(c, Run(c, w, es[..|es| - 1]), es[|es| - 1].f) else 0
  }

  lemma TeardownOffRecord(w: World, t: TeardownFates)
    ensures |OffRecord(Terminate(w, t))| <= |OffRecord(w)|
  {
    hide BaseName, OnRecord;
    SubsetSize(OffRecord(Terminate(w, t)), OffRecord(w));
  }

  lemma EventStrays(c: Config, w: World, e: Event)
    requires !e.Reconciled? && (e.OthersCreate? ==> e.remote.maker.SomebodyElse?)
    ensures |OffRecord(After(c, w, e))| <= |OffRecord(w)|
  {
    hide Reconcile, Terminate, BaseName, OnRecord;
    match e
    case TornDown(t) => TeardownOffRecord(w, t);
    case _ => SubsetSize(OffRecord(After(c, w, e)), OffRecord(w));
  }

  lemma {:induction false} RunStrays(c: Config, w: World, es: seq<Event>)
    requires MadeByOthers(es)
    ensures |OffRecord(Run(c, w, es))| <= |OffRecord(w)| + TotalCharge(c, w, es)
  {
    hide Reconcile, Terminate, OffRecord, Charge;
    if |es| > 0 {
      var most, e := es[..|es| - 1], es[|es| - 1];
      RunStrays(c, w, most);
      if e.Reconciled? {
        PassStrays(c, Run(c, w, most), e.f);
      } else {
        EventStrays(c, Run(c, w, most), e);
      }
    }
  }

  /** In every run, whatever users and others do and in whatever mode: the resource has at most one
      bucket, plus those that were off the record at first, plus one for each create call that took
      effect although its reply was lost, the pass was cut, or the status could not be written. */
  lemma BucketsDoNotPileUp(c: Config, w: World, es: seq<Event>)
    requires MadeByOthers(es)
    ensures |Own(Run(c, w, es))| <= 1 + |OffRecord(w)| + TotalCharge(c, w, es)
  {
    hide Run, MadeByOthers, TotalCharge, Own;
    RunStrays(c, w, es);
    var now := Run(c, w, es);
    SubsetSize(Own(now), OffRecord(now) + OnRecord(now.status));
  }
}
