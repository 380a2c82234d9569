/** What the Bucket controller's passes can and cannot do to the object store. */
module BucketSafety {
  import opened Text
  import opened Faults
  import opened BucketUpdate
  import opened BucketNames
  import opened Adoption
  import opened BucketLifecycle

  // ---------- The allocation loop ----------

  /** Create calls of the given turns that took effect although an error came back. */
  function LostReplies(f: Fates, turns: nat): nat {
    if turns == 0 then 0
    else LostReplies(f, turns - 1) + (if f.TurnAt(turns - 1).create.Unheard? then 1 else 0)
  }

  /** The loop so far: the created names, and one at most beyond the lost replies of the turns taken. */
  ghost predicate Tracked(w0: World, w: World, created: seq<string>, allowed: nat) {
    && w.spec == w0.spec
    && (forall n :: n in w.store <==> n in w0.store || n in created)
    && (forall n | n in w0.store :: w.store[n] == w0.store[n])
    && (forall n | n in created :: n !in w0.store && w.store[n].maker.ThisResource?)
    && NoRepetition(created)
    && |created| <= allowed
  }

  lemma {:induction false} AllocateTracked(c: Config, w0: World, w: World, st: Status, f: Fates, turn: nat, created: seq<string>)
    requires turn <= Attempts(w.spec)
    requires Tracked(w0, w, created, LostReplies(f, turn))
    ensures var p := Allocate(c, w, st, f, turn, created);
      turn <= p.tries <= Attempts(w0.spec) && Tracked(w0, p.w, p.created, LostReplies(f, p.tries) + 1)
    decreases Attempts(w.spec) - turn
  {
    if turn < Attempts(w.spec) {
      var name := TurnName(w.spec, f.TurnAt(turn));
      TurnTracked(c, w0, w, st, name, f, turn, created);
      var o := TakeTurn(c, w, st, name, f, turn, created);
      if o.Again? {
        AllocateTracked(c, w0, o.w, st, f, turn + 1, o.created);
      }
    }
  }

  lemma TurnTracked(c: Config, w0: World, w: World, st: Status, name: string, f: Fates, turn: nat, created: seq<string>)
    requires Tracked(w0, w, created, LostReplies(f, turn))
    ensures match TakeTurn(c, w, st, name, f, turn, created)
      case Again(w', created') => Tracked(w0, w', created', LostReplies(f, turn + 1))
      case Over(p) => p.tries == turn + 1 && Tracked(w0, p.w, p.created, LostReplies(f, turn + 1) + 1)
  {
    TurnEffect(c, w, st, name, f, turn, created);
    if name !in w.store && f.TurnAt(turn).create.Applied() {
      CreateTracked(w0, w, name, f.TurnAt(turn), created, LostReplies(f, turn));
    }
  }

  /** How a turn may change the world: it creates the one bucket it tried, or none; it goes on
      after creating one only if the reply was lost. */
  ghost predicate Effect(w: World, name: string, made: Turn, created: seq<string>, o: Outcome) {
    var w' := if o.Again? then o.w else o.pass.w;
    var created' := if o.Again? then o.created else o.pass.created;
    && w'.spec == w.spec
    && (if created' == created then w'.store == w.store
        else
          && name !in w.store && made.create.Applied() && (o.Again? ==> made.create.Unheard?)
          && w'.store == Created(w, name, made).store && created' == created + [name])
  }

  lemma TurnEffect(c: Config, w: World, st: Status, name: string, f: Fates, turn: nat, created: seq<string>)
    ensures var o := TakeTurn(c, w, st, name, f, turn, created);
      Effect(w, name, f.TurnAt(turn), created, o) && (o.Over? ==> o.pass.tries == turn + 1)
  {
    hide TryCreate, Eligible, Created;
    if name !in w.store {
      TryEffect(w, st, name, f, turn, created);
    }
  }

  lemma TryEffect(w: World, st: Status, name: string, f: Fates, turn: nat, created: seq<string>)
    requires name !in w.store
    ensures var o := TryCreate(w, st, name, f, turn, created);
      Effect(w, name, f.TurnAt(turn), created, o) && (o.Over? ==> o.pass.tries == turn + 1)
  {
    assert created + [name] != created;
  }

  lemma CreateTracked(w0: World, w: World, name: string, t: Turn, created: seq<string>, allowed: nat)
    requires Tracked(w0, w, created, allowed) && name !in w.store && t.create.Applied()
    ensures Tracked(w0, Created(w, name, t), created + [name], allowed + 1)
  {
    forall n | n in created
      ensures n != name
    {
      assert n in w.store;
    }
  }

  /** A creating pass tries at most five names, one without suffixes.  It creates buckets only
      under names that were free, never the same twice, and no more than one beyond those whose
      creation went unheard; buckets that existed before are left as they were. */
  lemma AllocationBounds(c: Config, w: World, f: Fates)
    ensures var p := CreateBucket(c, w, f);
      && p.tries <= (if SuffixOn(w.spec) then 5 else 1)
      && Tracked(w, p.w, p.created, LostReplies(f, p.tries) + 1)
  {
    if (w.spec.region != "" || c.defaultRegion != "") && f.start.Answered? {
      var st := With(w.status, BucketLifecycle.C.Progressing, "Creating");
      var w' := Persisted(w, st, f.start);
      AllocateTracked(c, w, w', st, f, 0, []);
    }
  }

  // ---------- Exactly which buckets a pass creates ----------

  /** The create call of the i-th turn is made, on a name that is free, and takes effect. */
  predicate Takes(w: World, f: Fates, i: nat, before: seq<string>) {
    var t := f.TurnAt(i);
    && (SuffixOn(w.spec) ==> t.suffix.Some?) && !w.spec.desired.policy.Unparsable? && t.get.Answered?
    && TurnName(w.spec, t) !in w.store && TurnName(w.spec, t) !in before && t.create.Applied()
  }

  function CreatedBy(w: World, f: Fates, turns: nat): seq<string> {
    if turns == 0 then []
    else
      var before := CreatedBy(w, f, turns - 1);
      if Takes(w, f, turns - 1, before) then before + [TurnName(w.spec, f.TurnAt(turns - 1))] else before
  }

  predicate TookEffect(w: World, f: Fates, i: nat) {
    Takes(w, f, i, CreatedBy(w, f, i))
  }

  /** The name of the turn is taken by then. */
  predicate Taken(w: World, f: Fates, i: nat) {
    TurnName(w.spec, f.TurnAt(i)) in w.store || TurnName(w.spec, f.TurnAt(i)) in CreatedBy(w, f, i)
  }

  /** The turn does not end the pass by itself: its name is taken, or its create call seems to fail. */
  predicate GoesOn(w: World, f: Fates, i: nat) {
    var t := f.TurnAt(i);
    && SuffixOn(w.spec) && t.suffix.Some? && !w.spec.desired.policy.Unparsable? && t.get.Answered?
    && (Taken(w, f, i) || t.create.Refused? || t.create.Unheard?)
  }

  predicate Begins(c: Config, w: World, f: Fates) {
    (w.spec.region != "" || c.defaultRegion != "") && f.start.Answered?
  }

  /** The pass gets to the j-th turn. */
  predicate Reached(c: Config, w: World, f: Fates, j: nat) {
    Begins(c, w, f) && j < (if SuffixOn(w.spec) then 5 else 1) && forall i: nat | i < j :: GoesOn(w, f, i)
  }

  ghost predicate StoreIs(w0: World, w: World, created: seq<string>) {
    w.spec == w0.spec && forall n :: n in w.store <==> n in w0.store || n in created
  }

  lemma TurnExact(c: Config, w0: World, w: World, st: Status, f: Fates, turn: nat)
    requires StoreIs(w0, w, CreatedBy(w0, f, turn))
    ensures match TakeTurn(c, w, st, TurnName(w.spec, f.TurnAt(turn)), f, turn, CreatedBy(w0, f, turn))
      case Again(w', created') =>
        && created' == CreatedBy(w0, f, turn + 1) && StoreIs(w0, w', created')
        && (TookEffect(w0, f, turn) ==> f.TurnAt(turn).create.Unheard?)
      case Over(p) =>
        && p.tries == turn + 1 && p.created == CreatedBy(w0, f, turn + 1)
        && (TookEffect(w0, f, turn) && f.TurnAt(turn).create.Answered? && f.status.Applied() ==>
              p.w.status.bucketName == TurnName(w0.spec, f.TurnAt(turn)))
  {
    hide TurnName, NewRecord, Eligible;
  }

  lemma TurnFlow(c: Config, w0: World, w: World, st: Status, f: Fates, turn: nat)
    requires StoreIs(w0, w, CreatedBy(w0, f, turn))
    ensures var o := TakeTurn(c, w, st, TurnName(w.spec, f.TurnAt(turn)), f, turn, CreatedBy(w0, f, turn));
      && (o.Again? <==> GoesOn(w0, f, turn) && (Taken(w0, f, turn) || turn + 1 < Attempts(w0.spec)))
      && (o.Over? ==> o.pass.tries == turn + 1)
  {
    hide TurnName, NewRecord, Eligible;
  }

  lemma {:induction false} AllocateTries(c: Config, w0: World, w: World, st: Status, f: Fates, turn: nat, j: nat)
    requires turn <= Attempts(w.spec) && turn <= j && StoreIs(w0, w, CreatedBy(w0, f, turn))
    ensures j < Allocate(c, w, st, f, turn, CreatedBy(w0, f, turn)).tries <==>
        j < Attempts(w0.spec) && forall i: nat | turn <= i < j :: GoesOn(w0, f, i)
    decreases Attempts(w.spec) - turn
  {
    hide TurnName, TakeTurn, GoesOn, Taken, CreatedBy, SuffixOn;
    if turn < Attempts(w.spec) {
      TurnFlow(c, w0, w, st, f, turn);
      TurnExact(c, w0, w, st, f, turn);
      var o := TakeTurn(c, w, st, TurnName(w.spec, f.TurnAt(turn)), f, turn, CreatedBy(w0, f, turn));
      if o.Again? {
        TriesAtLeast(c, o.w, st, f, turn + 1, CreatedBy(w0, f, turn + 1));
        if turn < j {
          AllocateTries(c, w0, o.w, st, f, turn + 1, j);
        }
      }
    }
  }

  lemma {:induction false} TriesAtLeast(c: Config, w: World, st: Status, f: Fates, turn: nat, created: seq<string>)
    ensures Allocate(c, w, st, f, turn, created).tries >= turn
    decreases Attempts(w.spec) - turn
  {
    hide TurnName, TakeTurn;
    if turn < Attempts(w.spec) {
      var o := TakeTurn(c, w, st, TurnName(w.spec, f.TurnAt(turn)), f, turn, created);
      TurnEffect(c, w, st, TurnName(w.spec, f.TurnAt(turn)), f, turn, created);
      if o.Again? {
        TriesAtLeast(c, o.w, st, f, turn + 1, o.created);
      }
    }
  }

  lemma {:induction false} AllocateExact(c: Config, w0: World, w: World, st: Status, f: Fates, turn: nat)
    requires turn <= Attempts(w.spec) && StoreIs(w0, w, CreatedBy(w0, f, turn))
    ensures var p := Allocate(c, w, st, f, turn, CreatedBy(w0, f, turn));
      && turn <= p.tries && p.created == CreatedBy(w0, f, p.tries)
      && (forall i | turn <= i < p.tries - 1 && TookEffect(w0, f, i) :: f.TurnAt(i).create.Unheard?)
      && (forall i | turn <= i < p.tries && TookEffect(w0, f, i) && f.TurnAt(i).create.Answered? && f.status.Applied() ::
            p.w.status.bucketName == TurnName(w0.spec, f.TurnAt(i)))
    decreases Attempts(w.spec) - turn
  {
    hide TurnName, TakeTurn, TookEffect;
    if turn < Attempts(w.spec) {
      TurnExact(c, w0, w, st, f, turn);
      var o := TakeTurn(c, w, st, TurnName(w.spec, f.TurnAt(turn)), f, turn, CreatedBy(w0, f, turn));
      if o.Again? {
        AllocateExact(c, w0, o.w, st, f, turn + 1);
      }
    }
  }

  /** The turns among the first ones whose create took effect. */
  function EffectTurns(w: World, f: Fates, turns: nat): set<nat> {
    set i: nat | i < turns && TookEffect(w, f, i)
  }

  lemma CreatedStep(w: World, f: Fates, turns: nat)
    requires turns > 0
    ensures |CreatedBy(w, f, turns)| == |CreatedBy(w, f, turns - 1)| + if TookEffect(w, f, turns - 1) then 1 else 0
  {
    hide Takes;
  }

  lemma EffectStep(w: World, f: Fates, turns: nat)
    requires turns > 0
    ensures EffectTurns(w, f, turns) ==
        EffectTurns(w, f, turns - 1) + if TookEffect(w, f, turns - 1) then {turns - 1} else {}
    ensures turns - 1 !in EffectTurns(w, f, turns - 1)
  {
    hide TookEffect;
  }

  lemma {:induction false} CreatedCount(w: World, f: Fates, turns: nat)
    ensures |CreatedBy(w, f, turns)| == |EffectTurns(w, f, turns)|
  {
    hide Takes, TookEffect;
    if turns == 0 {
      assert EffectTurns(w, f, turns) == {};
    } else {
      hide EffectTurns, CreatedBy;
      CreatedCount(w, f, turns - 1);
      CreatedStep(w, f, turns);
      EffectStep(w, f, turns);
    }
  }

  lemma {:induction false} CreatedSome(w: World, f: Fates, turns: nat)
    ensures |CreatedBy(w, f, turns)| > 0 <==> exists i | 0 <= i < turns :: TookEffect(w, f, i)
  {
    hide Takes, TookEffect;
    if turns > 0 {
      CreatedSome(w, f, turns - 1);
      CreatedStep(w, f, turns);
    }
  }

  lemma {:induction false} CreatedTwo(w: World, f: Fates, turns: nat)
    ensures |CreatedBy(w, f, turns)| > 1 <==> exists i, j | 0 <= i < j < turns :: TookEffect(w, f, i) && TookEffect(w, f, j)
  {
    hide Takes, TookEffect;
    if turns > 0 {
      CreatedStep(w, f, turns);
      CreatedTwo(w, f, turns - 1);
      CreatedSome(w, f, turns - 1);
      if TookEffect(w, f, turns - 1) && |CreatedBy(w, f, turns - 1)| > 0 {
        var i :| 0 <= i < turns - 1 && TookEffect(w, f, i);
        assert TookEffect(w, f, i) && TookEffect(w, f, turns - 1);
      }
    }
  }

  /** The turns whose create took effect, but whose bucket the pass did not get to record. */
  function Unrecorded(w: World, f: Fates, tries: nat): set<nat> {
    set i | i in EffectTurns(w, f, tries) &&
            !(f.TurnAt(i).create.Answered? && f.status.Applied() && TurnName(w.spec, f.TurnAt(i)) != "")
  }

  lemma TriesExact(c: Config, w: World, f: Fates)
    ensures forall j: nat :: j < CreateBucket(c, w, f).tries <==> Reached(c, w, f, j)
  {
    hide Allocate, GoesOn;
    if Begins(c, w, f) {
      var st := With(w.status, BucketLifecycle.C.Progressing, "Creating");
      forall j: nat
        ensures j < CreateBucket(c, w, f).tries <==> Reached(c, w, f, j)
      {
        AllocateTries(c, w, Persisted(w, st, f.start), st, f, 0, j);
      }
    }
  }

  /** A creating pass gets to a turn exactly if it begins and every turn before goes on.  It creates
      exactly one bucket for each turn it gets to whose name is free and whose create call takes
      effect; more than one exactly if the reply to such a call is lost and the call of a later turn
      it gets to takes effect too. */
  lemma AllocationExact(c: Config, w: World, f: Fates)
    ensures var p := CreateBucket(c, w, f);
      && (forall j: nat :: j < p.tries <==> Reached(c, w, f, j))
      && p.created == CreatedBy(w, f, p.tries)
      && |p.created| == |EffectTurns(w, f, p.tries)|
      && (|p.created| > 1 <==>
            exists i: nat, j: nat | i < j ::
              Reached(c, w, f, j) && TookEffect(w, f, i) && f.TurnAt(i).create.Unheard? && TookEffect(w, f, j))
      && (forall i: nat | i < p.tries && TookEffect(w, f, i) && i !in Unrecorded(w, f, p.tries) ::
            p.w.status.bucketName == TurnName(w.spec, f.TurnAt(i)))
  {
    hide Allocate, TurnName, Takes, TookEffect, Reached, Unrecorded;
    var p := CreateBucket(c, w, f);
    TriesExact(c, w, f);
    CreatedExactly(c, w, f);
    CreatedCount(w, f, p.tries);
    CreatedTwo(w, f, p.tries);
  }

  lemma CreatedExactly(c: Config, w: World, f: Fates)
    ensures var p := CreateBucket(c, w, f);
      && p.created == CreatedBy(w, f, p.tries)
      && (forall i | 0 <= i < p.tries - 1 && TookEffect(w, f, i) :: f.TurnAt(i).create.Unheard?)
      && (forall i: nat | i < p.tries && TookEffect(w, f, i) && i !in Unrecorded(w, f, p.tries) ::
            p.w.status.bucketName == TurnName(w.spec, f.TurnAt(i)))
  {
    hide Allocate, TurnName, Takes, TookEffect;
    if (w.spec.region != "" || c.defaultRegion != "") && f.start.Answered? {
      var st := With(w.status, BucketLifecycle.C.Progressing, "Creating");
      AllocateExact(c, w, Persisted(w, st, f.start), st, f, 0);
    }
  }

  /** One pass that creates two buckets: the reply to the first create call is lost. */
  lemma LostReplyMakesTwo(c: Config, w: World, f: Fates)
    requires SuffixOn(w.spec) && !w.spec.desired.policy.Unparsable? && (w.spec.region != "" || c.defaultRegion != "")
    requires f.start.Answered? && f.TurnAt(0).create.Unheard? && f.TurnAt(1).create.Answered?
    requires forall i | 0 <= i < 2 :: f.TurnAt(i).suffix.Some? && f.TurnAt(i).get.Answered?
    requires forall i | 0 <= i < 2 :: TurnName(w.spec, f.TurnAt(i)) !in w.store
    requires TurnName(w.spec, f.TurnAt(0)) != TurnName(w.spec, f.TurnAt(1))
    ensures CreateBucket(c, w, f).created == [TurnName(w.spec, f.TurnAt(0)), TurnName(w.spec, f.TurnAt(1))]
  {
    hide TurnName, NewRecord;
    var st := With(w.status, BucketLifecycle.C.Progressing, "Creating");
    var w' := Persisted(w, st, f.start);
    var o := TakeTurn(c, w', st, TurnName(w.spec, f.TurnAt(0)), f, 0, []);
    assert o.Again? && o.created == [TurnName(w.spec, f.TurnAt(0))];
    assert Allocate(c, w', st, f, 0, []) == Allocate(c, o.w, st, f, 1, o.created);
    assert Allocate(c, o.w, st, f, 1, o.created).created == o.created + [TurnName(w.spec, f.TurnAt(1))];
  }

  // ---------- Runs ----------

  datatype Event =
    | Reconciled(f: Fates)
    | TornDown(t: TeardownFates)
    | Respecified(spec: Spec)
    | OthersCreate(name: string, remote: Remote)
    | OthersModify(name: string, record: Record)
    | OthersDelete(name: string)

  /** Suffixes stay on.  Others may do what they like with any bucket; the store refuses names that
      are taken. */
  ghost predicate Permitted(w: World, e: Event) {
    match e
    case Respecified(spec) => SuffixOn(spec)
    case OthersCreate(name, remote) => name !in w.store && remote.maker.SomebodyElse?
    case OthersModify(name, _) => name in w.store
    case _ => true
  }

  ghost function After(c: Config, w: World, e: Event): World {
    match e
    case Reconciled(f) => Reconcile(c, w, f).w
    case TornDown(t) => Terminate(w, t)
    case Respecified(spec) => w.(spec := spec)
    case OthersCreate(name, remote) => w.(store := w.store[name := remote])
    case OthersModify(name, record) =>
      if name in w.store then w.(store := w.store[name := w.store[name].(record := record)]) else w
    case OthersDelete(name) => w.(store := w.store - {name})
  }

  ghost function Run(c: Config, w: World, es: seq<Event>): World {
    if |es| == 0 then w else After(c, Run(c, w, es[..|es| - 1]), es[|es| - 1])
  }

  ghost predicate PermittedRun(c: Config, w: World, es: seq<Event>) {
    |es| > 0 ==> PermittedRun(c, w, es[..|es| - 1]) && Permitted(Run(c, w, es[..|es| - 1]), es[|es| - 1])
  }

  /** The recorded name, if it leads anywhere, leads to a bucket this resource created. */
  ghost predicate OwnNameOnly(w: World) {
    && SuffixOn(w.spec)
    && (w.status.bucketName != "" && w.status.bucketName in w.store ==> w.store[w.status.bucketName].maker.ThisResource?)
  }

  /** Every bucket made by somebody else is still there, unchanged. */
  ghost predicate ForeignUntouched(w: World, w': World) {
    forall n | n in w.store && w.store[n].maker.SomebodyElse? :: n in w'.store && w'.store[n] == w.store[n]
  }

  lemma {:induction false} AllocateOwnName(c: Config, w: World, st: Status, f: Fates, turn: nat, created: seq<string>)
    requires OwnNameOnly(w) && w.status.bucketName == "" == st.bucketName && turn <= Attempts(w.spec)
    ensures OwnNameOnly(Allocate(c, w, st, f, turn, created).w)
    decreases Attempts(w.spec) - turn
  {
    if turn < Attempts(w.spec) {
      var name := TurnName(w.spec, f.TurnAt(turn));
      TurnOwnName(c, w, st, name, f, turn, created);
      var o := TakeTurn(c, w, st, name, f, turn, created);
      if o.Again? {
        AllocateOwnName(c, o.w, st, f, turn + 1, o.created);
      }
    }
  }

  lemma TurnOwnName(c: Config, w: World, st: Status, name: string, f: Fates, turn: nat, created: seq<string>)
    requires OwnNameOnly(w) && w.status.bucketName == "" == st.bucketName
    ensures match TakeTurn(c, w, st, name, f, turn, created)
      case Again(w', _) => OwnNameOnly(w') && w'.status == w.status && w'.spec == w.spec
      case Over(p) => OwnNameOnly(p.w)
  {}

  lemma CreatingPassIsSafe(c: Config, w: World, f: Fates)
    requires OwnNameOnly(w) && w.status.bucketName == ""
    ensures OwnNameOnly(CreateBucket(c, w, f).w) && ForeignUntouched(w, CreateBucket(c, w, f).w)
  {
    hide Allocate, LostReplies, NoRepetition;
    AllocationBounds(c, w, f);
    if (w.spec.region != "" || c.defaultRegion != "") && f.start.Answered? {
      var st := With(w.status, BucketLifecycle.C.Progressing, "Creating");
      AllocateOwnName(c, Persisted(w, st, f.start), st, f, 0, []);
    }
  }

  lemma RepairStore(w: World, name: string, f: Fates)
    ensures var r := RepairBucket(w, name, f).w;
      && r == w.(store := r.store, status := r.status)
      && (r.store == w.store ||
            (name in w.store && r.store == w.store[name := w.store[name].(record := r.store[name].record)]))
  {
    hide RequiresUpdate, UpdateFor, WithProviderStatus;
  }

  lemma RepairName(w: World, name: string, f: Fates)
    ensures var r := RepairBucket(w, name, f).w;
      r.status.bucketName == w.status.bucketName || r.status.bucketName == (if name in w.store then name else "")
  {
    hide RequiresUpdate, UpdateFor;
  }

  /** A repair touches the named bucket only, and leaves its maker and the recorded name alone,
      unless the bucket is gone. */
  lemma RepairStaysPut(w: World, name: string, f: Fates)
    ensures var r := RepairBucket(w, name, f).w;
      && r.spec == w.spec
      && (r.status.bucketName == w.status.bucketName || r.status.bucketName == (if name in w.store then name else ""))
      && (forall n :: n in r.store <==> n in w.store)
      && (forall n | n in w.store :: if n == name then r.store[n] == w.store[n].(record := r.store[n].record) else r.store[n] == w.store[n])
  {
    hide RepairBucket;
    RepairStore(w, name, f);
    RepairName(w, name, f);
  }

  /** Without drift it touches no bucket at all. */
  lemma NoDriftNoRepair(w: World, name: string, f: Fates)
    requires name in w.store && AsDesired(w.spec.desired, w.store[name].record)
    ensures RepairBucket(w, name, f).w.store == w.store
  {
    hide RequiresUpdate, UpdateFor, AsDesired;
    DriftMeansNotAsDesired(w.spec.desired, w.store[name].record);
  }

  lemma PassIsSafe(c: Config, w: World, f: Fates)
    requires OwnNameOnly(w)
    ensures OwnNameOnly(Reconcile(c, w, f).w)
    ensures ForeignUntouched(w, Reconcile(c, w, f).w)
  {
    hide CreateBucket, RepairBucket, BaseName;
    if w.status.bucketName == "" {
      CreatingPassIsSafe(c, w, f);
    } else {
      RepairStaysPut(w, w.status.bucketName, f);
    }
  }

  /** At some point somebody else created a bucket under the very name on record. */
  ghost predicate NameTaken(c: Config, w: World, es: seq<Event>) {
    |es| > 0 &&
    (|| NameTaken(c, w, es[..|es| - 1])
     || (es[|es| - 1].OthersCreate? && es[|es| - 1].name == Run(c, w, es[..|es| - 1]).status.bucketName))
  }

  lemma {:induction false} RunKeepsOwnName(c: Config, w: World, es: seq<Event>)
    requires OwnNameOnly(w) && PermittedRun(c, w, es) && !NameTaken(c, w, es)
    ensures OwnNameOnly(Run(c, w, es))
  {
    hide Reconcile;
    if |es| > 0 {
      var most, e := es[..|es| - 1], es[|es| - 1];
      RunKeepsOwnName(c, w, most);
      if e.Reconciled? {
        PassIsSafe(c, Run(c, w, most), e.f);
      }
    }
  }

  /** With suffixes on for the whole life of the resource, no pass and no teardown, however its
      calls fail and whatever was lost or recreated before, changes a bucket it did not create,
      unless somebody has created one under the name on record. */
  lemma SuffixModeSafety(c: Config, w: World, es: seq<Event>, f: Fates, t: TeardownFates)
    requires SuffixOn(w.spec) && w.status.bucketName == ""
    requires PermittedRun(c, w, es)
    ensures var now := Run(c, w, es);
      NameTaken(c, w, es) || (ForeignUntouched(now, Reconcile(c, now, f).w) && ForeignUntouched(now, Terminate(now, t)))
  {
    hide Reconcile;
    if !NameTaken(c, w, es) {
      RunKeepsOwnName(c, w, es);
      PassIsSafe(c, Run(c, w, es), f);
    }
  }

  /** The recorded name leads to a bucket of somebody else that does not look as desired. */
  ghost predicate Usurped(w: World) {
    var n := w.status.bucketName;
    && n != "" && n in w.store && w.store[n].maker.SomebodyElse?
    && RequiresUpdate(w.spec.desired, w.store[n].record) && !w.spec.desired.policy.Unparsable?
  }

  lemma RepairSpares(w: World, f: Fates)
    requires w.status.bucketName != "" && !Usurped(w)
    ensures ForeignUntouched(w, RepairBucket(w, w.status.bucketName, f).w)
  {
    hide RequiresUpdate;
    RepairStaysPut(w, w.status.bucketName, f);
  }

  lemma RepairUsurps(w: World, f: Fates)
    requires Usurped(w) && f.get.Answered? && f.update.Applied()
    ensures !ForeignUntouched(w, RepairBucket(w, w.status.bucketName, f).w)
  {
    hide RequiresUpdate, UpdateFor;
    DriftIsExact(w.spec.desired, w.store[w.status.bucketName].record);
  }

  /** In any state with suffixes on, every pass spares the buckets of others, whatever its fates,
      exactly if the name on record does not lead to a foreign bucket with drift to repair. */
  lemma PassSparesExactly(c: Config, w: World)
    requires SuffixOn(w.spec)
    ensures (forall f :: ForeignUntouched(w, Reconcile(c, w, f).w)) <==> !Usurped(w)
  {
    hide CreateBucket, RepairBucket, BaseName, Usurped;
    if Usurped(w) {
      var f := Fates(Answered, [], Answered, Answered, Answered, Answered);
      UsurpedHasName(w);
      RepairUsurps(w, f);
      assert !ForeignUntouched(w, Reconcile(c, w, f).w);
    } else {
      forall f
        ensures ForeignUntouched(w, Reconcile(c, w, f).w)
      {
        if w.status.bucketName != "" {
          RepairSpares(w, f);
        } else {
          CreatingPassSpares(c, w, f);
        }
      }
    }
  }

  lemma UsurpedHasName(w: World)
    requires Usurped(w)
    ensures w.status.bucketName != ""
  {}

  lemma CreatingPassSpares(c: Config, w: World, f: Fates)
    ensures ForeignUntouched(w, CreateBucket(c, w, f).w)
  {
    hide CreateBucket;
    AllocationBounds(c, w, f);
  }

  /** Two events get there from any state with a recorded bucket: it is deleted, and somebody creates
      another one of that name that does not look as desired. */
  lemma NameReuseUsurps(c: Config, w: World, remote: Remote)
    requires SuffixOn(w.spec) && w.status.bucketName != "" && w.status.bucketName in w.store
    requires remote.maker.SomebodyElse? && RequiresUpdate(w.spec.desired, remote.record) && !w.spec.desired.policy.Unparsable?
    ensures var es := [OthersDelete(w.status.bucketName), OthersCreate(w.status.bucketName, remote)];
      PermittedRun(c, w, es) && exists f :: !ForeignUntouched(Run(c, w, es), Reconcile(c, Run(c, w, es), f).w)
  {
    hide Reconcile, RequiresUpdate;
    var n := w.status.bucketName;
    var es := [OthersDelete(n), OthersCreate(n, remote)];
    assert es[..1] == [OthersDelete(n)] && es[..1][..0] == [];
    assert Run(c, w, es[..1]) == w.(store := w.store - {n});
    assert PermittedRun(c, w, es[..1]);
    PassSparesExactly(c, Run(c, w, es));
  }

  // ---------- Fixed names ----------

  /** With a fixed name, a bucket that already exists enters the status only if adoption is
      enabled and it carries every required label; otherwise the recorded bucket was created by
      this very pass. */
  lemma AdoptionGate(c: Config, w: World, f: Fates)
    requires !SuffixOn(w.spec) && w.status.bucketName == "" && w.status.resourceId.None?
    ensures var p, base := Reconcile(c, w, f), BaseName(w.spec);
      p.w.status.bucketName != "" ==>
        && p.w.status.bucketName == base
        && (if base in w.store then
              Eligible(w.store[base].record.labels, c.adoption, c.adoptionLabels) && p.w.store == w.store
            else
              p.created == [base] && p.w.store[base].maker.ThisResource?)
  {
    hide Eligible, NewRecord, JoinBucketName;
    if (w.spec.region != "" || c.defaultRegion != "") && f.start.Answered? {
      var st := With(w.status, BucketLifecycle.C.Progressing, "Creating");
      var w' := Persisted(w, st, f.start);
      assert Reconcile(c, w, f) == Allocate(c, w', st, f, 0, []);
      assert Attempts(w'.spec) == 1;
    }
  }

  /** Teardown trusts the recorded name, and without one a fixed base name: it spares the buckets of
      others exactly when that name leads to none of them, or the delete call has no effect. */
  lemma TeardownSpares(w: World, t: TeardownFates)
    requires w.finalizer
    ensures ForeignUntouched(w, Terminate(w, t)) <==>
      || !t.delete.Applied()
      || ProvisionedName(w.spec, w.status).None?
      || (var n := ProvisionedName(w.spec, w.status).value; n in w.store ==> w.store[n].maker.ThisResource?)
  {
    var n := ProvisionedName(w.spec, w.status);
    if t.delete.Applied() && n.Some? {
      assert Terminate(w, t).store == w.store - {n.value};
    }
  }

  /** So a bucket whose adoption was refused is deleted all the same when the resource goes. */
  lemma RefusedAdoptionStillDeleted(c: Config, w: World, f: Fates)
    requires !SuffixOn(w.spec) && w.status.bucketName == "" && w.status.resourceId.None? && w.finalizer
    requires BaseName(w.spec) != "" && BaseName(w.spec) in w.store && w.store[BaseName(w.spec)].maker.SomebodyElse?
    requires !Eligible(w.store[BaseName(w.spec)].record.labels, c.adoption, c.adoptionLabels)
    ensures var p := Reconcile(c, w, f);
      && p.w.store == w.store && !p.end.Completed? && p.w.status.bucketName == ""
      && BaseName(w.spec) !in Terminate(p.w, TeardownFates(Answered, Answered)).store
  {
    if (w.spec.region != "" || c.defaultRegion != "") && f.start.Answered? {
      var st := With(w.status, BucketLifecycle.C.Progressing, "Creating");
      var w' := Persisted(w, st, f.start);
      assert Reconcile(c, w, f) == Allocate(c, w', st, f, 0, []);
      assert Attempts(w'.spec) == 1;
    }
  }
}
