/** Bucket resources with a fixed name: when they recover, and which buckets they record. */
module FixedNames {
  import opened BucketUpdate
  import opened Adoption
  import opened BucketLifecycle
  import opened BucketSafety
  import opened BucketProgress

  /** A fixed name that is not blank, and no identity on record without a name. */
  predicate Fixed(w: World) {
    !SuffixOn(w.spec) && BaseName(w.spec) != "" && (w.status.resourceId.Some? ==> w.status.bucketName != "")
  }

  ghost predicate MayAdopt(c: Config, w: World, name: string) {
    name in w.store && Eligible(w.store[name].record.labels, c.adoption, c.adoptionLabels)
  }

  // ---------- One creating pass ----------

  /** What a creating pass makes of the world: the name was free, or may be adopted, or is refused. */
  ghost predicate CreatedOrNot(c: Config, w: World, r: World, base: string) {
    && r.spec == w.spec && r.finalizer == w.finalizer && (r.status.resourceId.Some? ==> r.status.bucketName == base)
    && (r.status.bucketName == "" || (r.status.bucketName == base && base in r.store && (base in w.store ==> MayAdopt(c, w, base))))
    && (base in w.store ==> r.store == w.store)
    && (base !in w.store ==> r.store == w.store || (base in r.store && r.store[base].maker.ThisResource? &&
                                                     r.store == w.store[base := r.store[base]]))
  }

  lemma OneCreate(c: Config, w: World, st: Status, f: Fates, base: string)
    requires !SuffixOn(w.spec) && w.status.bucketName == "" == st.bucketName && w.status.resourceId.None? && st.resourceId.None?
    requires base !in w.store
    ensures var o := TryCreate(w, st, base, f, 0, []);
      o.Over? && CreatedOrNot(c, w, o.pass.w, base)
  {
    hide Eligible, NewRecord;
  }

  lemma OneTurn(c: Config, w: World, st: Status, f: Fates, base: string)
    requires !SuffixOn(w.spec) && w.status.bucketName == "" == st.bucketName && w.status.resourceId.None? && st.resourceId.None?
    ensures var o := TakeTurn(c, w, st, base, f, 0, []);
      o.Over? && CreatedOrNot(c, w, o.pass.w, base)
  {
    hide Eligible, TryCreate;
    if base !in w.store {
      OneCreate(c, w, st, f, base);
    }
  }

  lemma CreatingPass(c: Config, w: World, f: Fates)
    requires Fixed(w) && w.status.bucketName == ""
    ensures CreatedOrNot(c, w, Reconcile(c, w, f).w, BaseName(w.spec))
  {
    hide BaseName, TakeTurn, MayAdopt;
    var st := With(w.status, BucketLifecycle.C.Progressing, "Creating");
    var w' := Persisted(w, st, f.start);
    if (w.spec.region != "" || c.defaultRegion != "") && f.start.Answered? {
      OneTurn(c, w', st, f, BaseName(w.spec));
      assert Allocate(c, w', st, f, 0, []) == TakeTurn(c, w', st, BaseName(w.spec), f, 0, []).pass;
      assert MayAdopt(c, w', BaseName(w.spec)) == MayAdopt(c, w, BaseName(w.spec)) by {
        SameStoreSameAdoption(c, w, w', BaseName(w.spec));
      }
    }
  }

  lemma SameStoreSameAdoption(c: Config, w: World, w': World, name: string)
    requires w'.store == w.store
    ensures MayAdopt(c, w', name) == MayAdopt(c, w, name)
  {}

  predicate AllAnswered(f: Fates) {
    && f.start.Answered? && f.get.Answered? && f.update.Answered? && f.status.Answered?
    && f.TurnAt(0).get.Answered? && f.TurnAt(0).create.Answered?
  }

  lemma AnsweredCreatingPass(c: Config, w: World, f: Fates)
    requires Fixed(w) && w.status.bucketName == "" && Wanted(c, w) && AllAnswered(f)
    requires BaseName(w.spec) in w.store ==> MayAdopt(c, w, BaseName(w.spec))
    ensures var r := Reconcile(c, w, f).w;
      r.status.bucketName == BaseName(w.spec) && Recorded(r) && r.spec == w.spec
  {
    hide Eligible, BaseName, NewRecord;
    var st := With(w.status, BucketLifecycle.C.Progressing, "Creating");
    var w' := Persisted(w, st, f.start);
    assert Reconcile(c, w, f) == Allocate(c, w', st, f, 0, []);
    assert Attempts(w'.spec) == 1;
  }

  // ---------- Recovery ----------

  /** No bucket is on record, or none that is there, and the fixed name leads to one that may not be
      adopted; be it somebody else's, or an own one whose creation was never recorded. */
  ghost predicate Stuck(c: Config, w: World) {
    && (w.status.bucketName == "" || w.status.bucketName !in w.store)
    && BaseName(w.spec) in w.store && !MayAdopt(c, w, BaseName(w.spec))
  }

  /** Then no pass gets anywhere, whatever its fates. */
  lemma StuckStays(c: Config, w: World, f: Fates)
    requires Fixed(w) && Stuck(c, w)
    ensures var r := Reconcile(c, w, f).w;
      Fixed(r) && Stuck(c, r) && r.store == w.store
  {
    hide CreateBucket, BaseName, Eligible;
    if w.status.bucketName == "" {
      CreatingPass(c, w, f);
    }
  }

  lemma StaysInSync(c: Config, w: World, f: Fates)
    requires Wanted(c, w) && InSync(w) && AllAnswered(f)
    ensures var r := Reconcile(c, w, f).w;
      InSync(r) && ReportsReadiness(r) && Wanted(c, r)
  {
    hide Reconcile, AsDesired;
    RecordedPass(c, w, f);
  }

  /** A bucket is on record and there: two answered passes bring it in sync and report on it. */
  lemma TwoPasses(c: Config, w: World, f1: Fates, f2: Fates)
    requires Wanted(c, w) && w.status.bucketName != "" && w.status.bucketName in w.store && AllAnswered(f1) && AllAnswered(f2)
    ensures var r := Reconcile(c, Reconcile(c, w, f1).w, f2).w;
      InSync(r) && ReportsReadiness(r) && Wanted(c, r)
  {
    hide Reconcile, AsDesired;
    RecordedPass(c, w, f1);
    StaysInSync(c, Reconcile(c, w, f1).w, f2);
  }

  lemma ThreePasses(c: Config, w: World, f1: Fates, f2: Fates, f3: Fates)
    requires Fixed(w) && Wanted(c, w) && w.status.bucketName == "" && !Stuck(c, w)
    requires AllAnswered(f1) && AllAnswered(f2) && AllAnswered(f3)
    ensures var r := Reconcile(c, Reconcile(c, Reconcile(c, w, f1).w, f2).w, f3).w;
      InSync(r) && ReportsReadiness(r) && Wanted(c, r)
  {
    hide Reconcile, BaseName, Eligible, AllAnswered;
    AnsweredCreatingPass(c, w, f1);
    TwoPasses(c, Reconcile(c, w, f1).w, f2, f3);
  }

  ghost function FourPasses(c: Config, w: World, f1: Fates, f2: Fates, f3: Fates, f4: Fates): World {
    Reconcile(c, Reconcile(c, Reconcile(c, Reconcile(c, w, f1).w, f2).w, f3).w, f4).w
  }

  /** Four answered passes end with a recorded bucket that is there, as desired, and available exactly
      if the provider calls it ready: exactly if the resource is not stuck. */
  lemma FourPassesSuffice(c: Config, w: World, f1: Fates, f2: Fates, f3: Fates, f4: Fates)
    requires Fixed(w) && Wanted(c, w) && AllAnswered(f1) && AllAnswered(f2) && AllAnswered(f3) && AllAnswered(f4)
    ensures var r := FourPasses(c, w, f1, f2, f3, f4);
      InSync(r) && ReportsReadiness(r) <==> !Stuck(c, w)
  {
    hide Reconcile, Eligible, AllAnswered, BaseName;
    var w1 := Reconcile(c, w, f1).w;
    var w2 := Reconcile(c, w1, f2).w;
    var w3 := Reconcile(c, w2, f3).w;
    if Stuck(c, w) {
      StuckStays(c, w, f1);
      StuckStays(c, w1, f2);
      StuckStays(c, w2, f3);
      StuckStays(c, w3, f4);
    } else if w.status.bucketName == "" {
      ThreePasses(c, w, f1, f2, f3);
      StaysInSync(c, w3, f4);
    } else if w.status.bucketName in w.store {
      TwoPasses(c, w, f1, f2);
      StaysInSync(c, w2, f3);
      StaysInSync(c, w3, f4);
    } else {
      AnswersBasics(f1);
      ForgettingPass(c, w, f1);
      ThreePasses(c, w1, f2, f3, f4);
    }
  }

  lemma AnswersBasics(f: Fates)
    requires AllAnswered(f)
    ensures f.get.Answered? && f.status.Answered?
  {}

  // ---------- Runs ----------

  /** The name stays fixed and not blank.  Others may do what they like with any bucket; the store
      refuses names that are taken. */
  ghost predicate FixedEvent(w: World, e: Event) {
    match e
    case Respecified(spec) => !SuffixOn(spec) && BaseName(spec) != ""
    case OthersCreate(name, remote) => name !in w.store && remote.maker.SomebodyElse?
    case _ => true
  }

  ghost predicate FixedRun(c: Config, w: World, es: seq<Event>) {
    |es| == 0 || (FixedRun(c, w, es[..|es| - 1]) && FixedEvent(Run(c, w, es[..|es| - 1]), es[|es| - 1]))
  }

  lemma RecordedPassKeeps(c: Config, w: World, f: Fates)
    requires w.status.bucketName != ""
    ensures var r := Reconcile(c, w, f).w;
      && r.spec == w.spec && (r.status.resourceId.Some? ==> r.status.bucketName != "")
      && (r.status.bucketName == "" || r.status.bucketName == w.status.bucketName)
      && (forall n :: n in r.store <==> n in w.store)
      && (forall n | n in w.store :: r.store[n].maker == w.store[n].maker)
  {
    hide RequiresUpdate, UpdateFor, BaseName;
    RepairStaysPut(w, w.status.bucketName, f);
  }

  lemma PassKeepsFixed(c: Config, w: World, f: Fates)
    requires Fixed(w)
    ensures Fixed(Reconcile(c, w, f).w)
  {
    hide Reconcile, BaseName, MayAdopt;
    if w.status.bucketName == "" {
      CreatingPass(c, w, f);
    } else {
      RecordedPassKeeps(c, w, f);
    }
  }

  lemma {:induction false} RunKeepsFixed(c: Config, w: World, es: seq<Event>)
    requires Fixed(w) && FixedRun(c, w, es)
    ensures Fixed(Run(c, w, es))
  {
    hide Reconcile, BaseName;
    if |es| > 0 {
      var most, e := es[..|es| - 1], es[|es| - 1];
      RunKeepsFixed(c, w, most);
      if e.Reconciled? {
        PassKeepsFixed(c, Run(c, w, most), e.f);
      }
    }
  }

  /** After any run with a fixed name, lost creates, lost statuses and lost buckets included: four
      answered passes suffice exactly if the resource is not stuck. */
  lemma FixedNameRecovery(c: Config, w: World, es: seq<Event>, f1: Fates, f2: Fates, f3: Fates, f4: Fates)
    requires Fixed(w) && FixedRun(c, w, es) && Wanted(c, Run(c, w, es))
    requires AllAnswered(f1) && AllAnswered(f2) && AllAnswered(f3) && AllAnswered(f4)
    ensures var r := FourPasses(c, Run(c, w, es), f1, f2, f3, f4);
      InSync(r) && ReportsReadiness(r) <==> !Stuck(c, Run(c, w, es))
  {
    hide Run, FixedRun, FourPasses, Fixed, Stuck, InSync, ReportsReadiness;
    RunKeepsFixed(c, w, es);
    FourPassesSuffice(c, Run(c, w, es), f1, f2, f3, f4);
  }

  /** With adoption off, one lost reply gets there: the bucket is made but not recorded, and the
      resource is stuck on its own bucket. */
  lemma LostReplyGetsStuck(c: Config, w: World, f: Fates)
    requires Fixed(w) && w.status.bucketName == "" && Wanted(c, w) && BaseName(w.spec) !in w.store && !c.adoption
    requires f.start.Answered? && f.TurnAt(0).get.Answered? && f.TurnAt(0).create.Unheard?
    ensures var r := Reconcile(c, w, f).w;
      BaseName(w.spec) in r.store && r.store[BaseName(w.spec)].maker.ThisResource? && Stuck(c, r)
  {
    hide BaseName, NewRecord;
    var st := With(w.status, BucketLifecycle.C.Progressing, "Creating");
    var w' := Persisted(w, st, f.start);
    assert Reconcile(c, w, f) == Allocate(c, w', st, f, 0, []);
    assert Attempts(w'.spec) == 1;
  }

  // ---------- Which buckets are recorded ----------

  /** The k-th event is a pass that recorded this name, and the bucket could be adopted then. */
  ghost predicate AdoptedAt(c: Config, w: World, es: seq<Event>, k: nat, n: string) {
    && k < |es| && es[k].Reconciled?
    && (var before := Run(c, w, es[..k]);
        before.status.bucketName == "" && BaseName(before.spec) == n && MayAdopt(c, before, n))
    && Run(c, w, es[..k + 1]).status.bucketName == n
  }

  ghost predicate Adopted(c: Config, w: World, es: seq<Event>, n: string) {
    exists k: nat :: AdoptedAt(c, w, es, k, n)
  }

  lemma AdoptedBefore(c: Config, w: World, es: seq<Event>, n: string)
    requires |es| > 0 && Adopted(c, w, es[..|es| - 1], n)
    ensures Adopted(c, w, es, n)
  {
    hide Run, MayAdopt, BaseName;
    var most := es[..|es| - 1];
    var k: nat :| AdoptedAt(c, w, most, k, n);
    assert most[..k] == es[..k] && most[..k + 1] == es[..k + 1];
    assert AdoptedAt(c, w, es, k, n);
  }

  /** The bucket on record was made by this resource, or could be adopted when it was recorded. */
  ghost predicate Legitimate(c: Config, w: World, es: seq<Event>) {
    var now := Run(c, w, es);
    var n := now.status.bucketName;
    n != "" && n in now.store ==> now.store[n].maker.ThisResource? || Adopted(c, w, es, n)
  }

  /** With a fixed name, over all runs: every bucket on record was made by this resource, or carried
      the required labels with adoption enabled when it was recorded, unless somebody has since
      created a bucket under the name on record. */
  lemma {:induction false} RecordsAreLegitimate(c: Config, w: World, es: seq<Event>)
    requires Fixed(w) && w.status.bucketName == "" && FixedRun(c, w, es) && !NameTaken(c, w, es)
    ensures Legitimate(c, w, es)
  {
    hide Reconcile, BaseName, Eligible, Adopted;
    if |es| > 0 {
      var most, e := es[..|es| - 1], es[|es| - 1];
      RecordsAreLegitimate(c, w, most);
      RunKeepsFixed(c, w, most);
      var before, now := Run(c, w, most), Run(c, w, es);
      var n := now.status.bucketName;
      if n != "" && n in now.store && !now.store[n].maker.ThisResource? {
        if e.Reconciled? && before.status.bucketName == "" {
          CreatingPass(c, before, e.f);
          assert es[..|es|] == es;
          assert AdoptedAt(c, w, es, |es| - 1, n);
          AdoptedNow(c, w, es, n);
        } else {
          if e.Reconciled? {
            RecordedPassKeeps(c, before, e.f);
          }
          AdoptedBefore(c, w, es, n);
        }
      }
    }
  }

  lemma AdoptedNow(c: Config, w: World, es: seq<Event>, n: string)
    requires |es| > 0 && AdoptedAt(c, w, es, |es| - 1, n)
    ensures Adopted(c, w, es, n)
  {}
}
