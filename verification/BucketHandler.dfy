/** The Bucket handler as the program runs it: fields updated call by call. */
module BucketHandler {
  import opened Text
  import opened Faults
  import opened BucketUpdate
  import opened BucketNames
  import opened Adoption
  import opened BucketLifecycle
  import opened BucketProgress
  import opened BucketReport
  import C = Conditions

  class Handler {
    const config: Config

    // The object store and the API server.
    var store: map<string, Remote>
    var nextId: nat
    var spec: Spec
    var status: Status
    var finalizer: bool

    // The copy of the status this pass works on.
    var obj: Status

    constructor (config: Config, w: World)
      ensures this.config == config && Now() == w && obj == w.status
    {
      this.config := config;
      store, nextId, spec, status, finalizer := w.store, w.nextId, w.spec, w.status, w.finalizer;
      obj := w.status;
    }

    ghost function Now(): World
      reads this
    {
      World(store, nextId, spec, status, finalizer)
    }

    // ---------- API calls ----------

    method UpdateStatus(f: Fate) returns (r: Reply<()>)
      modifies this`status
      ensures Now() == Persisted(old(Now()), obj, f)
      ensures r == if f.Answered? then Ok(()) else f.Failure()
    {
      if f.Applied() {
        status := obj;
      }
      r := if f.Answered? then Ok(()) else f.Failure();
    }

    method GetBucket(name: string, f: Fate) returns (r: Reply<Option<Remote>>)
      ensures r == if f.Answered? then Ok(if name in store then Some(store[name]) else None) else f.Failure()
    {
      r := if f.Answered? then Ok(if name in store then Some(store[name]) else None) else f.Failure();
    }

    method CreateRemote(name: string, t: Turn) returns (r: Reply<Remote>)
      requires name !in store
      modifies this`store, this`nextId
      ensures Now() == Created(old(Now()), name, t)
      ensures r == if t.create.Answered? then Ok(store[name]) else t.create.Failure()
    {
      if t.create.Applied() {
        store := store[name := Remote(nextId, ThisResource, t.ready, NewRecord(spec.desired))];
        nextId := nextId + 1;
      }
      r := if t.create.Answered? then Ok(store[name]) else t.create.Failure();
    }

    method UpdateRemote(name: string, u: UpdateRequest, f: Fate) returns (r: Reply<()>)
      requires name in store
      modifies this`store
      ensures store == if f.Applied() then
          old(store)[name := old(store)[name].(record := Applied(old(store)[name].record, u))] else old(store)
      ensures r == if f.Answered? then Ok(()) else f.Failure()
    {
      if f.Applied() {
        store := store[name := store[name].(record := Applied(store[name].record, u))];
      }
      r := if f.Answered? then Ok(()) else f.Failure();
    }

    // ---------- Ways to end a pass ----------

    method SetErrorCondition(reason: string, f: Fate) returns (end: Ending)
      modifies this`status, this`obj
      ensures Now() == Fail(old(Now()), old(obj), reason, f, 0, []).w
      ensures end == Stopped(f)
    {
      obj := With(obj, C.Degraded, reason);
      var r := UpdateStatus(f);
      end := if r.Cut? then Interrupted else Errored;
    }

    method FinishWith(f: Fate) returns (end: Ending)
      modifies this`status
      ensures Now() == Finish(old(Now()), obj, f, 0, []).w
      ensures end == Finish(old(Now()), obj, f, 0, []).end
    {
      var r := UpdateStatus(f);
      end := if r.Ok? then Completed else if r.Cut? then Interrupted else Errored;
    }

    method ApplyObservedStatus(name: string, remote: Remote)
      modifies this`obj
      ensures obj == Observed(old(obj), name, remote)
    {
      obj := obj.(bucketName := name, resourceId := Some(remote.identity));
    }

    method SetConditionFromProviderStatus(remote: Remote)
      modifies this`obj
      ensures obj == WithProviderStatus(old(obj), remote)
    {
      if remote.ready {
        obj := With(obj, C.Available, "Ready");
      } else {
        obj := With(obj, C.Progressing, "Provisioning");
      }
    }

    // ---------- Passes ----------

    method AdoptExisting(name: string, remote: Remote, f: Fates) returns (end: Ending)
      modifies this`status, this`obj
      ensures var p := Adopt(config, old(Now()), old(obj), name, remote, f, 0, []);
        Now() == p.w && end == p.end
    {
      hide Eligible;
      var eligible := CheckAdoptionEligibility(remote.record.labels, config.adoption, config.adoptionLabels);
      if !eligible {
        end := SetErrorCondition("AdoptionDenied", f.error);
        return;
      }
      ApplyObservedStatus(name, remote);
      SetConditionFromProviderStatus(remote);
      end := FinishWith(f.status);
    }

    /** One name of the allocation loop: look it up, and create the bucket if the name is free. */
    method TryName(name: string, turn: nat, f: Fates, had: seq<string>) returns (again: bool, end: Ending, created: seq<string>)
      requires !spec.desired.policy.Unparsable? && (SuffixOn(spec) ==> f.TurnAt(turn).suffix.Some?)
      modifies this`store, this`nextId, this`status, this`obj
      ensures var o := TakeTurn(config, old(Now()), old(obj), name, f, turn, had);
        if again then o == Again(Now(), created) && obj == old(obj) else o == Over(Pass(Now(), end, turn + 1, created))
      ensures !again && end.Completed? ==> ReportsReadiness(Now())
    {
      CompletedTurn(config, Now(), obj, name, f, turn, had);
      hide Eligible, NewRecord, BaseName, ReportsReadiness;
      created, again, end := had, false, Interrupted;
      var existing := GetBucket(name, f.TurnAt(turn).get);
      if existing.Cut? {
        return;
      }
      if existing.Err? {
        end := SetErrorCondition("GetFailed", f.error);
        return;
      }
      if existing.value.Some? {
        again := SuffixOn(spec);
        if !again {
          end := AdoptExisting(name, existing.value.value, f);
        }
        return;
      }
      var made := CreateRemote(name, f.TurnAt(turn));
      if f.TurnAt(turn).create.Applied() {
        created := created + [name];
      }
      if made.Cut? {
        return;
      }
      if made.Err? {
        again := SuffixOn(spec) && turn + 1 < Attempts(spec);
        if !again {
          end := SetErrorCondition("FailedCreate", f.error);
        }
        return;
      }
      ApplyObservedStatus(name, made.value);
      SetConditionFromProviderStatus(made.value);
      end := FinishWith(f.status);
    }

    method Create(f: Fates) returns (end: Ending, tries: nat, created: seq<string>)
      requires obj == status
      modifies this
      ensures Pass(Now(), end, tries, created) == CreateBucket(config, old(Now()), f)
    {
      hide JoinBucketName, BaseName, TryCreate, Adopt, ReportsReadiness;
      tries, created := 0, [];
      if spec.region == "" && config.defaultRegion == "" {
        end := SetErrorCondition("RegionNotResolved", f.error);
        return;
      }
      obj := With(obj, C.Progressing, "Creating");
      var started := UpdateStatus(f.start);
      if !started.Ok? {
        end := if started.Cut? then Interrupted else Errored;
        return;
      }

      var baseName := BaseName(spec);
      var withSuffix := SuffixOn(spec);
      var attempts := if withSuffix then MAX_CREATE_NAME_ATTEMPTS else 1;
      var lastErr := false;
      while tries < attempts
        invariant tries <= attempts == Attempts(spec)
        invariant spec == old(spec) && withSuffix == SuffixOn(spec)
        invariant Allocate(config, Now(), obj, f, tries, created) == CreateBucket(config, old(Now()), f)
        invariant tries > 0 ==> lastErr
      {
        var turn := f.TurnAt(tries);
        tries := tries + 1;
        var bucketName := baseName;
        if withSuffix {
          if turn.suffix.None? {
            end := SetErrorCondition("NameSuffixFailed", f.error);
            return;
          }
          bucketName := JoinBucketName(baseName, turn.suffix.value);
        }
        if spec.desired.policy.Unparsable? {
          end := SetErrorCondition("InvalidPolicy", f.error);
          return;
        }
        var again;
        again, end, created := TryName(bucketName, tries - 1, f, created);
        if !again {
          return;
        }
        lastErr := true;
      }
      if !lastErr {
        assert false;
      }
      end := SetErrorCondition("FailedCreate", f.error);
    }

    method Repair(name: string, f: Fates) returns (end: Ending)
      requires obj == status
      modifies this
      ensures Pass(Now(), end, 0, []) == RepairBucket(old(Now()), name, f)
    {
      var fetched := GetBucket(name, f.get);
      if fetched.Cut? {
        return Interrupted;
      }
      if fetched.Err? {
        end := SetErrorCondition("GetFailed", f.error);
        return;
      }
      if fetched.value.None? {
        obj := obj.(resourceId := None);
        obj := obj.(bucketName := "");
        end := FinishWith(f.status);
        return;
      }
      var remote := fetched.value.value;
      ApplyObservedStatus(name, remote);
      var drift := BucketRequiresUpdate(spec.desired, remote.record);
      if drift {
        var upd := BuildUpdateRequest(spec.desired, remote.record);
        if upd.None? {
          end := SetErrorCondition("InvalidPolicy", f.error);
          return;
        }
        var r := UpdateRemote(name, upd.value, f.update);
        if r.Cut? {
          return Interrupted;
        }
        if r.Err? {
          end := SetErrorCondition("FailedUpdate", f.error);
          return;
        }
        obj := With(obj, C.Progressing, "Updating");
        end := FinishWith(f.status);
        return;
      }
      SetConditionFromProviderStatus(remote);
      end := FinishWith(f.status);
    }

    /** One pass: read the resource, then create or repair. */
    method ReconcileOnce(f: Fates) returns (end: Ending)
      modifies this
      ensures Now() == Reconcile(config, old(Now()), f).w && end == Reconcile(config, old(Now()), f).end
      ensures status != old(status) && status.conditions.state.Available? && !Lost(old(Now())) ==>
          Grown(old(Now()), Now()) && Recorded(Now()) && store[status.bucketName].ready
    {
      AvailableIsEarned(config, Now(), f);
      obj := status;
      if obj.bucketName == "" && obj.resourceId.None? {
        var tries, created;
        end, tries, created := Create(f);
        return;
      }
      var name := ProvisionedName(spec, obj);
      if name.None? {
        end := SetErrorCondition("BucketNameUnknown", f.error);
        return;
      }
      end := Repair(name.value, f);
    }

    method Teardown(f: TeardownFates)
      modifies this
      ensures Now() == Terminate(old(Now()), f)
      ensures old(finalizer) && !finalizer ==> forall n | Trusted(old(Now()), n) :: n !in store
    {
      if finalizer && !Terminate(Now(), f).finalizer {
        FinalizerGuardsBucket(Now(), f);
      }
      obj := status;
      if !finalizer {
        return;
      }
      var name := ProvisionedName(spec, obj);
      if name.Some? {
        if f.delete.Applied() {
          store := store - {name.value};
        }
        if !f.delete.Answered? {
          return;
        }
      }
      if f.finalizer.Applied() {
        finalizer := false;
      }
    }
  }
}
