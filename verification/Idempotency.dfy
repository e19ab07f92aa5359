/** Exactly-once execution of infrastructure/adapters/django_vendor_idempotency.py.

    `transaction.atomic` is a snapshot that is restored when an exception leaves the block.  The record
    row is locked from `_reserve` to the end of the block, so calls on one key run one after the other. */
module Idempotency {
  import opened Common

  datatype Key = Key(scope: string, actor: nat, key: string)
  datatype Status = InProgress | Completed | Failed
  datatype Record<J> = Record(fingerprint: string, status: Status, result: Option<J>)

  /** What the caller's operation does to the rest of the database: it returns a value, or raises
      after having changed some of it. */
  datatype Effect<Db, V> = Returns(value: V, db: Db) | Raises(db: Db)

  /** `_serialize_result` (which may raise) and `_deserialize_result`. */
  datatype Codec<!V, !J> = Codec(serialize: V -> Option<J>, deserialize: (string, Option<J>) -> V)

  datatype Call<!Db, !V> = Call(key: Key, fingerprint: string, operation: Db -> Effect<Db, V>)

  datatype Outcome<V> =
    | Done(value: V)
    | Replayed(value: V)
    | FingerprintConflict
    | AlreadyInProgress
    | OperationRaised
    | SerializationRaised

  /** `executed` is a history variable: the calls whose effects are committed, in order. */
  datatype State<!Db, !V, J> = State(records: map<Key, Record<J>>, db: Db, executed: seq<Call<Db, V>>)

  /** One call as a whole: a call that raises leaves no trace. */
  ghost function Execute<Db, V, J>(codec: Codec<V, J>, s: State<Db, V, J>, call: Call<Db, V>): (State<Db, V, J>, Outcome<V>) {
    if call.key in s.records && s.records[call.key].fingerprint != call.fingerprint then
      (s, FingerprintConflict)
    else if call.key in s.records && s.records[call.key].status == Completed then
      (s, Replayed(codec.deserialize(call.key.scope, s.records[call.key].result)))
    else if call.key in s.records && s.records[call.key].status == InProgress then
      (s, AlreadyInProgress)
    else
      match call.operation(s.db)
      case Raises(_) => (s, OperationRaised)
      case Returns(value, db) =>
        match codec.serialize(value)
        case None => (s, SerializationRaised)
        case Some(json) =>
          (State(s.records[call.key := Record(call.fingerprint, Completed, Some(json))], db, s.executed + [call]), Done(value))
  }

  ghost function Run<Db, V, J>(codec: Codec<V, J>, db: Db, calls: seq<Call<Db, V>>): State<Db, V, J> {
    if calls == [] then State(map[], db, [])
    else Execute(codec, Run(codec, db, calls[..|calls| - 1]), calls[|calls| - 1]).0
  }

  // ---------------------------------------------------------------- exactly once

  /** The calls with a key among those whose effects are committed. */
  ghost function ForKey<Db, V>(executed: seq<Call<Db, V>>, key: Key): seq<Call<Db, V>> {
    if executed == [] then []
    else
      var last := executed[|executed| - 1];
      ForKey(executed[..|executed| - 1], key) + if last.key == key then [last] else []
  }

  /** The database after performing the calls' operations one after the other; none if one raises. */
  ghost function Perform<Db, V>(executed: seq<Call<Db, V>>, from: Db): Option<Db> {
    if executed == [] then Some(from)
    else
      var before := Perform(executed[..|executed| - 1], from);
      if before.None? then None
      else
        var effect := executed[|executed| - 1].operation(before.value);
        if effect.Returns? then Some(effect.db) else None
  }

  /** Record and effect stand or fall together: a key has a record exactly when one call with that key
      has committed its effect, and then the record is completed and holds that call's fingerprint. */
  ghost predicate KeyOk<Db, V, J>(s: State<Db, V, J>, key: Key) {
    if key in s.records then
      && s.records[key].status == Completed && s.records[key].result.Some?
      && |ForKey(s.executed, key)| == 1
      && ForKey(s.executed, key)[0].fingerprint == s.records[key].fingerprint
    else
      ForKey(s.executed, key) == []
  }

  ghost predicate Inv<Db, V, J>(db: Db, s: State<Db, V, J>) {
    Perform(s.executed, db) == Some(s.db) && forall key :: KeyOk(s, key)
  }

  lemma ExecuteKeepsInv<Db, V, J>(codec: Codec<V, J>, db: Db, s: State<Db, V, J>, call: Call<Db, V>)
    requires Inv(db, s)
    ensures Inv(db, Execute(codec, s, call).0)
    ensures Execute(codec, s, call).1 != AlreadyInProgress
  {
    assert KeyOk(s, call.key);
    var (s', outcome) := Execute(codec, s, call);
    if outcome.Done? {
      assert s'.executed[..|s'.executed| - 1] == s.executed;
      forall key
        ensures KeyOk(s', key)
      {
        assert KeyOk(s, key);
      }
    }
  }

  /** In every run of calls, whatever their operations do: the committed effects for a key are those of
      at most one call, every committed record is completed, and the database is what performing only
      the committed calls gives. */
  lemma {:induction false} EffectsCommitOnce<Db, V, J>(codec: Codec<V, J>, db: Db, calls: seq<Call<Db, V>>)
    ensures Inv(db, Run(codec, db, calls))
    decreases |calls|
  {
    if calls != [] {
      EffectsCommitOnce(codec, db, calls[..|calls| - 1]);
      ExecuteKeepsInv(codec, db, Run(codec, db, calls[..|calls| - 1]), calls[|calls| - 1]);
    } else {
      var s: State<Db, V, J> := Run(codec, db, calls);
      assert forall key :: KeyOk(s, key);
    }
  }

  /** A call that does not commit leaves the state untouched. */
  lemma OnlyDoneChangesState<Db, V, J>(codec: Codec<V, J>, s: State<Db, V, J>, call: Call<Db, V>)
    ensures !Execute(codec, s, call).1.Done? <==> Execute(codec, s, call).0 == s
  {
    var (s', outcome) := Execute(codec, s, call);
    if outcome.Done? {
      assert |s'.executed| == |s.executed| + 1;
    }
  }

  lemma {:induction false} RecordNeverChanges<Db, V, J>(codec: Codec<V, J>, db: Db, calls: seq<Call<Db, V>>, n: nat, key: Key)
    requires n <= |calls| && key in Run(codec, db, calls[..n]).records
    ensures key in Run(codec, db, calls).records
    ensures Run(codec, db, calls).records[key] == Run(codec, db, calls[..n]).records[key]
    decreases |calls|
  {
    if n == |calls| {
      assert calls[..n] == calls;
    } else {
      var rest := calls[..|calls| - 1];
      assert rest[..n] == calls[..n];
      RecordNeverChanges(codec, db, rest, n, key);
      EffectsCommitOnce(codec, db, rest);
      assert KeyOk(Run(codec, db, rest), key);
    }
  }

  /** Once a call has succeeded, every later call with its key leaves the state alone: with the same
      fingerprint it answers with the stored result, decoded, and with another it is a conflict. */
  lemma {:induction false} LaterCallsReplay<Db, V, J>(codec: Codec<V, J>, db: Db, calls: seq<Call<Db, V>>, n: nat, value: V, again: Call<Db, V>)
    requires n < |calls| && again.key == calls[n].key
    requires Execute(codec, Run(codec, db, calls[..n]), calls[n]).1 == Done(value)
    ensures var (s', outcome) := Execute(codec, Run(codec, db, calls), again);
            && s' == Run(codec, db, calls)
            && outcome == if again.fingerprint == calls[n].fingerprint
                          then Replayed(codec.deserialize(again.key.scope, codec.serialize(value)))
                          else FingerprintConflict
  {
    assert calls[..n + 1][..n] == calls[..n];
    assert Run(codec, db, calls[..n + 1]) == Execute(codec, Run(codec, db, calls[..n]), calls[n]).0;
    RecordNeverChanges(codec, db, calls, n + 1, again.key);
  }

  // ---------------------------------------------------------------- the adapter

  class Adapter<!Db, !V, J> {
    const codec: Codec<V, J>
    var records: map<Key, Record<J>>
    var db: Db
    ghost var executed: seq<Call<Db, V>>

    constructor (codec: Codec<V, J>, db: Db)
      ensures this.codec == codec && Abstract() == State(map[], db, [])
    {
      this.codec, this.db := codec, db;
      records, executed := map[], [];
    }

    ghost function Abstract(): State<Db, V, J>
      reads this
    {
      State(records, db, executed)
    }

    /** `_reserve`: none stands for the raised fingerprint conflict. */
    method Reserve(key: Key, fingerprint: string) returns (created: Option<bool>)
      modifies this`records
      ensures created.None? <==> key in old(records) && old(records)[key].fingerprint != fingerprint
      ensures created.None? ==> records == old(records)
      ensures created.Some? ==>
                && created.value == (key !in old(records) || old(records)[key].status == Failed)
                && records == if created.value
                              then old(records)[key := Record(fingerprint, InProgress,
                                                 if key in old(records) then old(records)[key].result else None)]
                              else old(records)
    {
      if key !in records {
        records := records[key := Record(fingerprint, InProgress, None)];
        return Some(true);
      }
      if records[key].fingerprint != fingerprint {
        return None;
      }
      if records[key].status == Failed {
        records := records[key := records[key].(status := InProgress)];
        return Some(true);
      }
      return Some(false);
    }

    /** `execute_once`, with its atomic block: an exception puts records and database back. */
    method ExecuteOnce(call: Call<Db, V>) returns (outcome: Outcome<V>)
      modifies this
      ensures Abstract() == Execute(codec, old(Abstract()), call).0
      ensures outcome == Execute(codec, old(Abstract()), call).1
    {
      var savedRecords, savedDb := records, db;
      var created := Reserve(call.key, call.fingerprint);
      if created.None? {
        return FingerprintConflict;
      }
      var record := records[call.key];
      if record.status == Completed {
        return Replayed(codec.deserialize(call.key.scope, record.result));
      }
      if !created.value && record.status == InProgress {
        return AlreadyInProgress;
      }
      var effect := call.operation(db);
      db := effect.db;
      if effect.Raises? {
        records := records[call.key := record.(status := Failed)];
        records, db := savedRecords, savedDb;
        return OperationRaised;
      }
      var json := codec.serialize(effect.value);
      if json.None? {
        records, db := savedRecords, savedDb;
        return SerializationRaised;
      }
      records := records[call.key := record.(status := Completed, result := json)];
      executed := executed + [call];
      return Done(effect.value);
    }
  }
}
