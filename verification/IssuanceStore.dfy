/**
 The issuance repository and enqueueRewardIssuance in their own form: rows inserted and
 updated in place, and a queue. Running alone, the call does what Issuance's steps do.
 */
module IssuanceStore {
  import opened Options
  import opened CanonicalJson
  import opened Issuance

  /** The answer to a caller. */
  datatype Answer = QueuedAs(id: nat) | DuplicateOf(seen: Seen)

  /** What enqueueRewardIssuance does for a key when nobody interferes. */
  datatype Enqueued = Enqueued(rows: seq<Row>, queue: seq<string>, nextId: nat, answer: Answer)

  function Enqueue(rows: seq<Row>, queue: seq<string>, nextId: nat, key: string): Enqueued {
    match See(rows, key)
    case Some(seen) => Enqueued(rows, queue, nextId, DuplicateOf(seen))
    case None =>
      Enqueued(rows + [Row(nextId, key, Pending, 0)], if key in queue then queue else queue + [key],
               nextId + 1, QueuedAs(nextId))
  }

  class RewardIssuances {
    var rows: seq<Row>
    var queue: seq<string>
    var nextId: nat

    constructor ()
      ensures rows == [] && queue == [] && nextId == 1
    {
      rows, queue, nextId := [], [], 1;
    }

    method GetIssuanceByKey(key: string) returns (at: Option<nat>)
      ensures at == FindKey(rows, key)
    {
      var i := |rows|;
      assert rows[..i] == rows;
      while i > 0
        invariant 0 <= i <= |rows|
        invariant FindKey(rows, key) == FindKey(rows[..i], key)
      {
        if rows[i - 1].key == key {
          return Some(i - 1);
        }
        assert rows[..i][..i - 1] == rows[..i - 1];
        i := i - 1;
      }
      at := None;
    }

    /** INSERT; the serial is used up even when the unique key refuses the row. */
    method CreateIssuance(key: string) returns (id: Option<nat>)
      modifies this`rows, this`nextId
      ensures nextId == old(nextId) + 1
      ensures if FindKey(old(rows), key).Some? then id == None && rows == old(rows)
              else id == Some(old(nextId)) && rows == old(rows) + [Row(old(nextId), key, Pending, 0)]
    {
      var next := nextId;
      nextId := nextId + 1;
      var existing := GetIssuanceByKey(key);
      if existing.Some? {
        return None;
      }
      rows := rows + [Row(next, key, Pending, 0)];
      id := Some(next);
    }

    /** UPDATE ... WHERE id = id. */
    method UpdateStatus(id: nat, status: Status)
      modifies this`rows
      ensures |rows| == |old(rows)|
      ensures forall i :: 0 <= i < |rows| ==>
                rows[i] == if old(rows)[i].id == id then old(rows)[i].(status := status) else old(rows)[i]
    {
      var i := 0;
      while i < |rows|
        invariant 0 <= i <= |rows| == |old(rows)|
        invariant forall k :: 0 <= k < i ==>
                    rows[k] == if old(rows)[k].id == id then old(rows)[k].(status := status) else old(rows)[k]
        invariant forall k :: i <= k < |rows| ==> rows[k] == old(rows)[k]
      {
        if rows[i].id == id {
          rows := rows[i := rows[i].(status := status)];
        }
        i := i + 1;
      }
    }

    method EnqueueRewardIssuance(hmac: Text -> string, p: Payload) returns (answer: Answer)
      modifies this
      ensures Enqueued(rows, queue, nextId, answer) ==
              Enqueue(old(rows), old(queue), old(nextId), IdempotencyKey(hmac, p))
    {
      var key := IdempotencyKey(hmac, p);
      var existing := GetIssuanceByKey(key);
      if existing.Some? {
        return DuplicateOf(Seen(rows[existing.value].id, rows[existing.value].status));
      }
      var id := CreateIssuance(key);
      if key !in queue {
        queue := queue + [key];
      }
      answer := QueuedAs(id.value);
    }
  }

  function AnswerOf(stage: Stage): Option<Answer> {
    match stage
    case Queued(id) => Some(QueuedAs(id))
    case Duplicate(Some(seen)) => Some(DuplicateOf(seen))
    case _ => None
  }

  /** A caller whose statements run without interference leaves, and is told, what the call alone would. */
  lemma StatementsAreEnqueue(s: State, c: nat)
    requires c < |s.callers| && s.callers[c].stage.Arrived?
    ensures var e := Enqueue(s.rows, s.queue, s.nextId, s.callers[c].key);
            var s1 := AdvanceCaller(s, c);
            var s' := if s1.callers[c].stage.Missed?
                      then AdvanceCaller(AdvanceCaller(AdvanceCaller(s1, c), c), c)
                      else s1;
            && s'.rows == e.rows && s'.queue == e.queue && s'.nextId == e.nextId
            && AnswerOf(s'.callers[c].stage) == Some(e.answer)
  {
    var s1 := AdvanceCaller(s, c);
    if s1.callers[c].stage.Missed? {
      var s2 := AdvanceCaller(s1, c);
      assert s2.callers[c] == Caller(s.callers[c].key, Created(s.nextId));
    }
  }

  /** The same request twice: the second call changes nothing and is told of the first one's row. */
  lemma RepeatedRequest(hmac: Text -> string, p: Payload, q: Payload, rows: seq<Row>, queue: seq<string>, nextId: nat)
    requires CollisionFree(hmac) && See(rows, IdempotencyKey(hmac, p)).None?
    ensures var e := Enqueue(rows, queue, nextId, IdempotencyKey(hmac, p));
            var f := Enqueue(e.rows, e.queue, e.nextId, IdempotencyKey(hmac, q));
            && e.answer == QueuedAs(nextId)
            && (p == q ==> f == Enqueued(e.rows, e.queue, e.nextId, DuplicateOf(Seen(nextId, Pending))))
            && (p != q && See(rows, IdempotencyKey(hmac, q)).None? ==> f.answer == QueuedAs(nextId + 1))
  {
    SameKeyIffSameRequest(hmac, p, q);
    var e := Enqueue(rows, queue, nextId, IdempotencyKey(hmac, p));
    assert e.rows[..|rows|] == rows;
  }
}
