/** The Bucket controller's passes over the object store: allocating a name, adopting, repairing,
    recreating after loss, deleting. */
module BucketLifecycle {
  import opened Text
  import opened Faults
  import opened Policy
  import opened BucketUpdate
  import opened BucketNames
  import opened Adoption
  import C = Conditions

  /** Who created a remote bucket: the Bucket resource under consideration, or anybody else. */
  datatype Maker = ThisResource | SomebodyElse

  datatype Remote = Remote(identity: nat, maker: Maker, ready: bool, record: Record)

  datatype Config = Config(defaultRegion: string, adoption: bool, adoptionLabels: map<string, string>)

  datatype Spec = Spec(
    name: string, metadataName: string, objectName: string,
    generateNameSuffix: Option<bool>, region: string, desired: Desired)

  /** The standard conditions are determined by the last call that set them (ConditionMachine in
      Conditions), so the status keeps that call. */
  datatype Status = Status(bucketName: string, resourceId: Option<nat>, conditions: C.Call)

  /** The remote buckets by name, and the persisted custom resource. */
  datatype World = World(store: map<string, Remote>, nextId: nat, spec: Spec, status: Status, finalizer: bool)

  const MAX_CREATE_NAME_ATTEMPTS := 5

  // ---------- Names ----------

  /** The first of the three that is given. */
  function BaseName(spec: Spec): (base: string)
    ensures spec.name != "" ==> base == spec.name
    ensures spec.name == "" != spec.metadataName ==> base == spec.metadataName
    ensures spec.name == "" == spec.metadataName ==> base == spec.objectName
  {
    if spec.name != "" then spec.name
    else if spec.metadataName != "" then spec.metadataName
    else spec.objectName
  }

  predicate SuffixOn(spec: Spec): (on: bool)
    ensures on <==> spec.generateNameSuffix != Some(false)
  {
    spec.generateNameSuffix.None? || spec.generateNameSuffix.value
  }

  /** The name known to belong to this resource.  With suffixes on it is never the base name. */
  function ProvisionedName(spec: Spec, status: Status): Option<string> {
    if status.bucketName != "" then Some(status.bucketName)
    else if SuffixOn(spec) then None
    else if BaseName(spec) == "" then None
    else Some(BaseName(spec))
  }

  function Attempts(spec: Spec): nat {
    if SuffixOn(spec) then MAX_CREATE_NAME_ATTEMPTS else 1
  }

  // ---------- One pass ----------

  /** One turn of the allocation loop: the random suffix, if one could be generated, the fates of the
      two calls, and whether the provider calls a bucket ready that this turn creates. */
  datatype Turn = Turn(suffix: Option<string>, get: Fate, create: Fate, ready: bool)

  datatype Fates = Fates(start: Fate, turns: seq<Turn>, get: Fate, update: Fate, status: Fate, error: Fate) {
    function TurnAt(i: nat): Turn {
      if i < |turns| then turns[i] else Turn(Some("000000"), Answered, Answered, false)
    }
  }

  /** Where a pass leaves the world; how many names it tried and which buckets it created. */
  datatype Pass = Pass(w: World, end: Ending, tries: nat, created: seq<string>)

  function Persisted(w: World, st: Status, f: Fate): World {
    if f.Applied() then w.(status := st) else w
  }

  function Stopped(f: Fate): Ending {
    if f.Cuts() then Interrupted else Errored
  }

  function With(st: Status, state: C.State, reason: string): Status {
    st.(conditions := C.Call(state, reason, ""))
  }

  /** The status write that ends a pass well. */
  function Finish(w: World, st: Status, f: Fate, tries: nat, created: seq<string>): Pass {
    Pass(Persisted(w, st, f), if f.Answered? then Completed else Stopped(f), tries, created)
  }

  /** setErrorCondition: record the failure and give up. */
  function Fail(w: World, st: Status, reason: string, f: Fate, tries: nat, created: seq<string>): Pass {
    Pass(Persisted(w, With(st, C.Degraded, reason), f), Stopped(f), tries, created)
  }

  function Observed(st: Status, name: string, remote: Remote): Status {
    st.(bucketName := name, resourceId := Some(remote.identity))
  }

  function WithProviderStatus(st: Status, remote: Remote): Status {
    if remote.ready then With(st, C.Available, "Ready") else With(st, C.Progressing, "Provisioning")
  }

  function NewRecord(d: Desired): Record {
    Record(d.public, WantedVersioning(d), d.objectLock, d.labels, d.annotations,
           if d.policy.Parsed? then d.policy.document else Document("", []))
  }

  /** The store's create call; a name that is taken is refused. */
  function Created(w: World, name: string, t: Turn): World {
    if t.create.Applied() && name !in w.store then
      w.(store := w.store[name := Remote(w.nextId, ThisResource, t.ready, NewRecord(w.spec.desired))], nextId := w.nextId + 1)
    else w
  }

  /** What a turn of the allocation loop leads to: another turn, or the end of the pass. */
  datatype Outcome = Again(w: World, created: seq<string>) | Over(pass: Pass)

  function TurnName(spec: Spec, t: Turn): string {
    if SuffixOn(spec) && t.suffix.Some? then JoinBucketName(BaseName(spec), t.suffix.value) else BaseName(spec)
  }

  ghost function TakeTurn(c: Config, w: World, st: Status, name: string, f: Fates, turn: nat, created: seq<string>): Outcome {
    var t := f.TurnAt(turn);
    if SuffixOn(w.spec) && t.suffix.None? then Over(Fail(w, st, "NameSuffixFailed", f.error, turn + 1, created))
    else if w.spec.desired.policy.Unparsable? then Over(Fail(w, st, "InvalidPolicy", f.error, turn + 1, created))
    else if t.get.Cuts() then Over(Pass(w, Interrupted, turn + 1, created))
    else if !t.get.Answered? then Over(Fail(w, st, "GetFailed", f.error, turn + 1, created))
    else if name !in w.store then TryCreate(w, st, name, f, turn, created)
    else if SuffixOn(w.spec) then Again(w, created)
    else Over(Adopt(c, w, st, name, w.store[name], f, turn + 1, created))
  }

  /** A fixed name that is taken. */
  ghost function Adopt(c: Config, w: World, st: Status, name: string, remote: Remote, f: Fates, tries: nat, created: seq<string>): Pass {
    if !Eligible(remote.record.labels, c.adoption, c.adoptionLabels) then Fail(w, st, "AdoptionDenied", f.error, tries, created)
    else Finish(w, WithProviderStatus(Observed(st, name, remote), remote), f.status, tries, created)
  }

  /** The create call of a turn whose name is free. */
  ghost function TryCreate(w: World, st: Status, name: string, f: Fates, turn: nat, created: seq<string>): Outcome
    requires name !in w.store
  {
    var fate := f.TurnAt(turn).create;
    var w' := Created(w, name, f.TurnAt(turn));
    var created' := if fate.Applied() then created + [name] else created;
    if fate.Cuts() then Over(Pass(w', Interrupted, turn + 1, created'))
    else if fate.Answered? then
      Over(Finish(w', WithProviderStatus(Observed(st, name, w'.store[name]), w'.store[name]), f.status, turn + 1, created'))
    else if SuffixOn(w.spec) && turn + 1 < Attempts(w.spec) then Again(w', created')
    else Over(Fail(w', st, "FailedCreate", f.error, turn + 1, created'))
  }

  /** The allocation loop, from the given turn on. */
  ghost function Allocate(c: Config, w: World, st: Status, f: Fates, turn: nat, created: seq<string>): Pass
    decreases Attempts(w.spec) - turn
  {
    if turn >= Attempts(w.spec) then Fail(w, st, "FailedCreate", f.error, turn, created)
    else
      match TakeTurn(c, w, st, TurnName(w.spec, f.TurnAt(turn)), f, turn, created)
      case Over(pass) => pass
      case Again(w', created') => Allocate(c, w', st, f, turn + 1, created')
  }

  ghost function CreateBucket(c: Config, w: World, f: Fates): Pass {
    if w.spec.region == "" && c.defaultRegion == "" then Fail(w, w.status, "RegionNotResolved", f.error, 0, [])
    else
      var st := With(w.status, C.Progressing, "Creating");
      var w' := Persisted(w, st, f.start);
      if !f.start.Answered? then Pass(w', Stopped(f.start), 0, []) else Allocate(c, w', st, f, 0, [])
  }

  ghost function RepairBucket(w: World, name: string, f: Fates): Pass {
    if f.get.Cuts() then Pass(w, Interrupted, 0, [])
    else if !f.get.Answered? then Fail(w, w.status, "GetFailed", f.error, 0, [])
    else if name !in w.store then Finish(w, w.status.(bucketName := "", resourceId := None), f.status, 0, [])
    else
      var st := Observed(w.status, name, w.store[name]);
      var d, r := w.spec.desired, w.store[name].record;
      if !RequiresUpdate(d, r) then Finish(w, WithProviderStatus(st, w.store[name]), f.status, 0, [])
      else if UpdateFor(d, r).None? then Fail(w, st, "InvalidPolicy", f.error, 0, [])
      else
        var w' := if f.update.Applied() then
            w.(store := w.store[name := w.store[name].(record := Applied(r, UpdateFor(d, r).value))])
          else w;
        if f.update.Cuts() then Pass(w', Interrupted, 0, [])
        else if !f.update.Answered? then Fail(w', st, "FailedUpdate", f.error, 0, [])
        else Finish(w', With(st, C.Progressing, "Updating"), f.status, 0, [])
  }

  ghost function Reconcile(c: Config, w: World, f: Fates): Pass {
    if w.status.bucketName == "" && w.status.resourceId.None? then CreateBucket(c, w, f)
    else
      match ProvisionedName(w.spec, w.status)
      case None => Fail(w, w.status, "BucketNameUnknown", f.error, 0, [])
      case Some(name) => RepairBucket(w, name, f)
  }

  datatype TeardownFates = TeardownFates(delete: Fate, finalizer: Fate)

  ghost function Terminate(w: World, f: TeardownFates): World {
    if !w.finalizer then w
    else
      var name := ProvisionedName(w.spec, w.status);
      var w' := if name.Some? && f.delete.Applied() then w.(store := w.store - {name.value}) else w;
      if name.Some? && !f.delete.Answered? then w'
      else if f.finalizer.Applied() then w'.(finalizer := false)
      else w'
  }
}
