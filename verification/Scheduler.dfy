/** Which worker gets a request. */
module Scheduler {
  import opened Wrappers
  import opened Text

  datatype Acceleration = Metal | Cuda | Cpu

  datatype ModelStatus = Loaded | Loading | Unavailable

  datatype ModelCapability = ModelCapability(id: string, status: ModelStatus)

  datatype WorkerState = Available | Busy | Draining | Offline

  datatype WorkerRecord = WorkerRecord(id: string, address: string, models: seq<ModelCapability>, active: nat, max: nat,
                                       lastHeartbeat: nat, state: WorkerState, acceleration: Acceleration)

  type Workers = map<string, WorkerRecord>

  function AccelerationRank(a: Acceleration): nat { if a.Cpu? then 1 else 0 }

  predicate Serves(w: WorkerRecord, model: string) {
    exists i | 0 <= i < |w.models| :: w.models[i].id == model && w.models[i].status.Loaded?
  }

  predicate Eligible(w: WorkerRecord, model: string) {
    w.state.Available? && w.active < w.max && Serves(w, model)
  }

  /** Faster hardware first, then fewer active requests, then the smaller id. */
  predicate Precedes(a: WorkerRecord, b: WorkerRecord) {
    var ra, rb := AccelerationRank(a.acceleration), AccelerationRank(b.acceleration);
    ra < rb || (ra == rb && (a.active < b.active || (a.active == b.active && Less(a.id, b.id))))
  }

  /** Hardware that runs models fast. */
  predicate Accelerated(w: WorkerRecord) { w.acceleration == Metal || w.acceleration == Cuda }

  /** What the choice of `r` means against another candidate: accelerated hardware comes
      before plain, then fewer active requests, then the id that is not greater. */
  ghost predicate NotBetter(w: WorkerRecord, r: WorkerRecord) {
    && (Accelerated(w) ==> Accelerated(r))
    && ((Accelerated(w) <==> Accelerated(r)) ==>
          && r.active <= w.active
          && (r.active == w.active ==> r.id == w.id || exists k: nat :: Differs(r.id, w.id, k)))
  }

  lemma NotPreceding(w: WorkerRecord, r: WorkerRecord)
    requires !Precedes(w, r)
    ensures NotBetter(w, r)
  {
    LessTotal(r.id, w.id);
    LessExact(r.id, w.id);
  }

  /** A worker is eligible exactly if it is available, below its limit and has the model
      loaded under that very id. */
  lemma EligibleExact(w: WorkerRecord, model: string)
    ensures Eligible(w, model) <==>
              && w.state == Available && w.active < w.max
              && exists i :: 0 <= i < |w.models| && w.models[i].id == model && w.models[i].status == Loaded
  {
  }

  lemma PrecedesIsOrder(a: WorkerRecord, b: WorkerRecord)
    ensures Precedes(a, b) ==> !Precedes(b, a)
    ensures a.id != b.id ==> Precedes(a, b) || Precedes(b, a)
  {
    LessTotal(a.id, b.id);
    if Less(a.id, b.id) { LessAsymmetric(a.id, b.id); }
    if Less(b.id, a.id) { LessAsymmetric(b.id, a.id); }
  }

  lemma PrecedesTransitive(a: WorkerRecord, b: WorkerRecord, c: WorkerRecord)
    requires Precedes(a, b) && Precedes(b, c)
    ensures Precedes(a, c)
  {
    if Less(a.id, b.id) && Less(b.id, c.id) { LessTransitive(a.id, b.id, c.id); }
  }

  /** Filters the eligible workers and takes the least of them, whatever the order they
      come in; the earliest of equals. */
  method SelectWorker(workers: seq<WorkerRecord>, model: string) returns (r: Option<WorkerRecord>)
    ensures r.None? <==> forall i | 0 <= i < |workers| :: !Eligible(workers[i], model)
    ensures r.Some? ==> r.value in workers && Eligible(r.value, model)
    ensures r.Some? ==> forall i | 0 <= i < |workers| && Eligible(workers[i], model) :: !Precedes(workers[i], r.value)
    ensures r.Some? ==> forall i | 0 <= i < |workers| && Eligible(workers[i], model) :: NotBetter(workers[i], r.value)
  {
    hide Precedes, NotBetter, Eligible;
    r := None;
    for i := 0 to |workers|
      invariant r.None? <==> forall k | 0 <= k < i :: !Eligible(workers[k], model)
      invariant r.Some? ==> r.value in workers && Eligible(r.value, model)
      invariant r.Some? ==> forall k | 0 <= k < i && Eligible(workers[k], model) :: !Precedes(workers[k], r.value)
    {
      var w := workers[i];
      if Eligible(w, model) && (r.None? || Precedes(w, r.value)) {
        forall k | 0 <= k < i && Eligible(workers[k], model) ensures !Precedes(workers[k], w) {
          if Precedes(workers[k], w) { PrecedesTransitive(workers[k], w, r.value); }
        }
        PrecedesIsOrder(w, w);
        r := Some(w);
      }
    }
    if r.Some? {
      forall i | 0 <= i < |workers| && Eligible(workers[i], model) ensures NotBetter(workers[i], r.value) {
        NotPreceding(workers[i], r.value);
      }
    }
  }

  // ----------------------------------------- the choice as a specification

  predicate Keyed(workers: Workers) {
    forall id | id in workers :: workers[id].id == id
  }

  /** The eligible worker that precedes every other eligible one. */
  ghost predicate IsBest(workers: Workers, model: string, id: string) {
    && id in workers && Eligible(workers[id], model)
    && forall other | other in workers && other != id && Eligible(workers[other], model) :: Precedes(workers[id], workers[other])
  }

  lemma BestIsUnique(workers: Workers, model: string, a: string, b: string)
    requires IsBest(workers, model, a) && IsBest(workers, model, b)
    ensures a == b
  {
    if a != b { PrecedesIsOrder(workers[a], workers[b]); }
  }

  lemma {:induction false} BestExists(workers: Workers, model: string) returns (best: string)
    requires Keyed(workers) && exists id :: id in workers && Eligible(workers[id], model)
    ensures IsBest(workers, model, best)
    decreases |workers|
  {
    hide Precedes, Eligible;
    var id :| id in workers && Eligible(workers[id], model);
    var rest := workers - {id};
    assert rest.Keys == workers.Keys - {id} && |rest.Keys| == |rest| && |workers.Keys| == |workers|;
    if other :| other in rest && Eligible(rest[other], model) {
      var next := BestExists(rest, model);
      if Precedes(workers[id], workers[next]) {
        forall o | o in workers && o != id && Eligible(workers[o], model) ensures Precedes(workers[id], workers[o]) {
          assert o in rest && rest[o] == workers[o];
          if o != next { PrecedesTransitive(workers[id], workers[next], workers[o]); }
        }
        best := id;
      } else {
        PrecedesIsOrder(workers[id], workers[next]);
        forall o | o in workers && o != next && Eligible(workers[o], model) ensures Precedes(workers[next], workers[o]) {
          assert o == id || (o in rest && rest[o] == workers[o]);
        }
        best := next;
      }
    } else {
      forall o | o in workers && o != id ensures !Eligible(workers[o], model) { assert o in rest && rest[o] == workers[o]; }
      best := id;
    }
  }

  /** No eligible worker is better than the best. */
  lemma BestIsNotBeaten(workers: Workers, model: string, id: string)
    requires Keyed(workers) && IsBest(workers, model, id)
    ensures forall other | other in workers && Eligible(workers[other], model) :: NotBetter(workers[other], workers[id])
  {
    hide Precedes, NotBetter, Eligible;
    forall other | other in workers && Eligible(workers[other], model) ensures NotBetter(workers[other], workers[id]) {
      PrecedesIsOrder(workers[id], workers[other]);
      NotPreceding(workers[other], workers[id]);
    }
  }

  ghost function Best(workers: Workers, model: string): Option<string> {
    if exists id :: IsBest(workers, model, id) then
      var id :| IsBest(workers, model, id);
      Some(id)
    else None
  }

  /** There is a best worker exactly when some worker is eligible, and it is unique, so
      the choice does not depend on the order in which workers are looked at. */
  lemma BestExact(workers: Workers, model: string)
    requires Keyed(workers)
    ensures Best(workers, model).Some? <==> exists id :: id in workers && Eligible(workers[id], model)
    ensures forall id :: Best(workers, model) == Some(id) <==> IsBest(workers, model, id)
  {
    hide Eligible, Precedes;
    if exists id :: id in workers && Eligible(workers[id], model) {
      var best := BestExists(workers, model);
      forall id | IsBest(workers, model, id) ensures Best(workers, model) == Some(id) {
        BestIsUnique(workers, model, id, Best(workers, model).value);
      }
    }
  }

  /** The records of a table, in any order. */
  method Values(workers: Workers) returns (records: seq<WorkerRecord>)
    requires Keyed(workers)
    ensures forall i | 0 <= i < |records| :: records[i].id in workers && workers[records[i].id] == records[i]
    ensures forall id | id in workers :: workers[id] in records
  {
    records := [];
    var todo := workers.Keys;
    while todo != {}
      invariant todo <= workers.Keys
      invariant forall i | 0 <= i < |records| :: records[i].id in workers && workers[records[i].id] == records[i]
      invariant forall id | id in workers && id !in todo :: workers[id] in records
      decreases |todo|
    {
      var id :| id in todo;
      records := records + [workers[id]];
      todo := todo - {id};
    }
  }

  /** Selection over a table finds the best worker. */
  method SelectFrom(workers: Workers, model: string) returns (id: Option<string>)
    requires Keyed(workers)
    ensures id == Best(workers, model)
  {
    hide Eligible, Precedes, Best;
    BestExact(workers, model);
    var records := Values(workers);
    var r := SelectWorker(records, model);
    if r.None? {
      forall k | k in workers ensures !Eligible(workers[k], model) { assert workers[k] in records; }
      return None;
    }
    var chosen := r.value.id;
    forall other | other in workers && other != chosen && Eligible(workers[other], model)
      ensures Precedes(workers[chosen], workers[other])
    {
      assert workers[other] in records;
      PrecedesIsOrder(workers[chosen], workers[other]);
    }
    assert IsBest(workers, model, chosen);
    return Some(chosen);
  }
}
