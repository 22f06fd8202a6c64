/**
 * The shape both load paths share: records are handled one after another in source
 * order, and the first record whose handling throws ends the loop.
 */
module Batches {
  import opened Schema

  /** The state after one record: all its statements ran, or one of its steps threw
      and `db` is what the statements before that step left. */
  datatype StepResult = StepOk(db: Db) | StepFailed(db: Db)

  /** The state after the loop: every record went through, or record `at` threw. */
  datatype Batch = Done(db: Db) | Failed(at: nat, db: Db)

  /** The loop over `data`, record `i` handled by `step(state, data[i], i)`. */
  function RunBatch<R>(db: Db, data: seq<R>, step: (Db, R, nat) -> StepResult): (b: Batch)
    ensures b.Failed? ==> b.at < |data|
    decreases |data|
  {
    if data == [] then Done(db)
    else
      var n := |data| - 1;
      match RunBatch(db, data[..n], step)
      case Failed(k, d) => Failed(k, d)
      case Done(d) =>
        match step(d, data[n], n)
        case StepOk(d') => Done(d')
        case StepFailed(d') => Failed(n, d')
  }

  /** While every record so far went through, the next one is handled by `step`. */
  lemma RunBatchNext<R>(db: Db, data: seq<R>, step: (Db, R, nat) -> StepResult, i: nat)
    requires i < |data| && RunBatch(db, data[..i], step).Done?
    ensures RunBatch(db, data[..i + 1], step) ==
      match step(RunBatch(db, data[..i], step).db, data[i], i)
      case StepOk(d) => Done(d)
      case StepFailed(d) => Failed(i, d)
  {
    assert data[..i + 1][..i] == data[..i];
  }

  /** Once a record has thrown, the records after it are never looked at. */
  lemma {:induction false} FailureIsFinal<R>(db: Db, data: seq<R>, step: (Db, R, nat) -> StepResult, n: nat)
    requires n <= |data| && RunBatch(db, data[..n], step).Failed?
    ensures RunBatch(db, data, step) == RunBatch(db, data[..n], step)
    decreases |data|
  {
    if n == |data| {
      assert data[..n] == data;
    } else {
      var m := |data| - 1;
      assert data[..m][..n] == data[..n];
      FailureIsFinal(db, data[..m], step, n);
    }
  }

  /** The loop fails at `k` exactly when the records before `k` all went through and
      record `k` threw; the state is then what record `k`'s own statements left. */
  lemma {:induction false} FailedAtFirstFailingStep<R>(db: Db, data: seq<R>, step: (Db, R, nat) -> StepResult)
    requires RunBatch(db, data, step).Failed?
    ensures var b := RunBatch(db, data, step);
      && RunBatch(db, data[..b.at], step).Done?
      && step(RunBatch(db, data[..b.at], step).db, data[b.at], b.at) == StepFailed(b.db)
    decreases |data|
  {
    var m := |data| - 1;
    if RunBatch(db, data[..m], step).Failed? {
      FailedAtFirstFailingStep(db, data[..m], step);
      var k := RunBatch(db, data[..m], step).at;
      assert data[..m][..k] == data[..k];
    } else {
      assert data[..m] == data[..RunBatch(db, data, step).at];
    }
  }

  /** `P` holds of every state a step leaves behind a state where it holds. */
  ghost predicate Keeps<R(!new)>(step: (Db, R, nat) -> StepResult, P: Db -> bool) {
    forall d: Db, r: R, i: nat {:trigger step(d, r, i)} :: P(d) ==> P(step(d, r, i).db)
  }

  /** When, from every state where the invariant `P` holds, a step throws on exactly the
      records `fails` picks out, a loop started where `P` holds stops at the first such
      record and completes when there is none. */
  lemma {:induction false} RunStopsAtFirstFailing<R(!new)>(db: Db, data: seq<R>, step: (Db, R, nat) -> StepResult,
                                                          fails: R -> bool, P: Db -> bool)
    requires P(db) && Keeps(step, P)
    requires forall d: Db, r: R, i: nat {:trigger step(d, r, i)} :: P(d) ==> (step(d, r, i).StepFailed? <==> fails(r))
    ensures P(RunBatch(db, data, step).db)
    ensures RunBatch(db, data, step).Done? <==> forall i :: 0 <= i < |data| ==> !fails(data[i])
    ensures RunBatch(db, data, step).Failed? ==>
      var k := RunBatch(db, data, step).at;
      fails(data[k]) && forall j :: 0 <= j < k ==> !fails(data[j])
    decreases |data|
  {
    if data != [] {
      var n := |data| - 1;
      RunStopsAtFirstFailing(db, data[..n], step, fails, P);
      assert forall i :: 0 <= i < n ==> data[..n][i] == data[i];
      var b := RunBatch(db, data[..n], step);
      if b.Done? {
        assert step(b.db, data[n], n).StepFailed? <==> fails(data[n]);
        assert P(step(b.db, data[n], n).db);
      }
    }
  }

  /** When a step throws on every record `fails` picks out, whatever the state, the loop
      completes only if there is no such record and otherwise stops at the first one or
      earlier. */
  lemma {:induction false} RunStopsNoLaterThan<R>(db: Db, data: seq<R>, step: (Db, R, nat) -> StepResult, fails: R -> bool)
    requires forall d: Db, r: R, i: nat {:trigger step(d, r, i)} :: fails(r) ==> step(d, r, i).StepFailed?
    ensures RunBatch(db, data, step).Done? ==> forall i :: 0 <= i < |data| ==> !fails(data[i])
    ensures RunBatch(db, data, step).Failed? ==>
      forall j :: 0 <= j < |data| && fails(data[j]) ==> RunBatch(db, data, step).at <= j
    decreases |data|
  {
    if data != [] {
      var n := |data| - 1;
      RunStopsNoLaterThan(db, data[..n], step, fails);
      assert forall i :: 0 <= i < n ==> data[..n][i] == data[i];
      var b := RunBatch(db, data[..n], step);
      if b.Done? {
        assert fails(data[n]) ==> step(b.db, data[n], n).StepFailed?;
      }
    }
  }

  /** Every step keeps the schema's integrity, never takes a row away and never winds a
      sequence back. */
  ghost predicate StepKeepsValid<R(!new)>(step: (Db, R, nat) -> StepResult) {
    forall d: Db, r: R, i: nat {:trigger step(d, r, i)} :: Grows(d, step(d, r, i).db)
  }

  lemma {:induction false} RunBatchKeepsValid<R(!new)>(db: Db, data: seq<R>, step: (Db, R, nat) -> StepResult)
    requires StepKeepsValid(step)
    ensures Grows(db, RunBatch(db, data, step).db)
    decreases |data|
  {
    if data == [] {
      ExtendsReflexive(db.tables);
    } else {
      var n := |data| - 1;
      RunBatchKeepsValid(db, data[..n], step);
      var b := RunBatch(db, data[..n], step);
      if b.Done? {
        GrowsTransitive(db, b.db, step(b.db, data[n], n).db);
      }
    }
  }

  /** From every state where `P` holds, a step that goes through adds exactly one cost
      row, and a step that throws adds none. */
  ghost predicate StepAppendsOne<R(!new)>(step: (Db, R, nat) -> StepResult, P: Db -> bool) {
    forall d: Db, r: R, i: nat {:trigger step(d, r, i)} :: P(d) ==>
      var d' := step(d, r, i).db;
      if step(d, r, i).StepOk? then |d'.tables.costs| == |d.tables.costs| + 1 else d'.tables.costs == d.tables.costs
  }

  /** With such a step, a loop started where `P` holds adds one cost row per record
      before the one that threw. */
  lemma {:induction false} RunBatchCountsCosts<R(!new)>(db: Db, data: seq<R>, step: (Db, R, nat) -> StepResult, P: Db -> bool)
    requires P(db) && Keeps(step, P) && StepAppendsOne(step, P)
    ensures P(RunBatch(db, data, step).db)
    ensures var b := RunBatch(db, data, step);
      |b.db.tables.costs| == |db.tables.costs| + (if b.Failed? then b.at else |data|)
    decreases |data|
  {
    if data != [] {
      var n := |data| - 1;
      RunBatchCountsCosts(db, data[..n], step, P);
      var b := RunBatch(db, data[..n], step);
      if b.Done? {
        assert P(step(b.db, data[n], n).db);
        assert |step(b.db, data[n], n).db.tables.costs| == |b.db.tables.costs| + (if step(b.db, data[n], n).StepOk? then 1 else 0);
      }
    }
  }
}
