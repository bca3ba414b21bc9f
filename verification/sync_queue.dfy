/** The offline mutation queue of `useSync` and its coalescing enqueue
    (`addToQueue`). The queue is the ordered list persisted under one storage
    key; here it is a plain value, and the storage read and write around each
    call are left to the caller. */
module SyncQueue {
  import opened Common

  datatype Operation = Insert | Update | Delete

  /** A JSON value inside a payload; the queue never looks into it. */
  datatype FieldValue = Text(text: string) | Number(number: int) | Flag(flag: bool) | Null

  type Payload = map<string, FieldValue>

  /** `matchValue` is a string (a real or temporary id) or a number. */
  datatype MatchValue = MatchText(text: string) | MatchNumber(number: int)

  datatype SyncItem = SyncItem(
    id: string,
    table: string,
    op: Operation,
    payload: Payload,
    matchField: Option<string>,
    matchValue: Option<MatchValue>)

  /** What `addToQueue` receives: a `SyncItem` without its queue id. */
  datatype Mutation = Mutation(
    table: string,
    op: Operation,
    payload: Payload,
    matchField: Option<string>,
    matchValue: Option<MatchValue>)

  /** JavaScript truthiness of an optional `matchValue`: absent, `""` and `0`
      are falsy. */
  predicate Truthy(v: Option<MatchValue>) {
    match v
    case None => false
    case Some(MatchText(t)) => t != ""
    case Some(MatchNumber(n)) => n != 0
  }

  /** The `findIndex` test: a queued INSERT on the same table with a strictly
      equal `matchValue`. */
  predicate PendingInsertFor(q: SyncItem, table: string, value: Option<MatchValue>) {
    q.op == Insert && q.table == table && q.matchValue == value
  }

  /** `queue.findIndex(...)` from position `from` on: the first pending INSERT
      for (table, value), or `None` when there is none. */
  function FindPendingInsert(queue: seq<SyncItem>, table: string, value: Option<MatchValue>, from: nat := 0): (r: Option<nat>)
    requires from <= |queue|
    ensures r.Some? ==> from <= r.value < |queue| && PendingInsertFor(queue[r.value], table, value)
    ensures r.Some? ==> forall j :: from <= j < r.value ==> !PendingInsertFor(queue[j], table, value)
    ensures r.None? ==> forall j :: from <= j < |queue| ==> !PendingInsertFor(queue[j], table, value)
    decreases |queue| - from
  {
    if from == |queue| then None
    else if PendingInsertFor(queue[from], table, value) then Some(from)
    else FindPendingInsert(queue, table, value, from + 1)
  }

  /** `{ ...old, ...patch }`: every key of either map, the patch winning on a
      collision. */
  function MergePayload(base: Payload, patch: Payload): (r: Payload)
    ensures r.Keys == base.Keys + patch.Keys
    ensures forall k :: k in patch ==> r[k] == patch[k]
    ensures forall k :: k in base && k !in patch ==> r[k] == base[k]
  {
    base + patch
  }

  /** `{ ...item, id }`. */
  function WithId(m: Mutation, id: string): SyncItem {
    SyncItem(id, m.table, m.op, m.payload, m.matchField, m.matchValue)
  }

  /** `splice(i, 1)`: drop position `i`, keep the rest in order. */
  function RemoveAt<T>(s: seq<T>, i: nat): (r: seq<T>)
    requires i < |s|
    ensures |r| == |s| - 1
    ensures forall j :: 0 <= j < i ==> r[j] == s[j]
    ensures forall j :: i <= j < |r| ==> r[j] == s[j + 1]
  {
    s[..i] + s[i + 1..]
  }

  /** When `m` coalesces into a pending INSERT, the position of that INSERT:
      the first one that matches, as `findIndex` returns. */
  function CoalesceTarget(queue: seq<SyncItem>, m: Mutation): (r: Option<nat>)
    ensures r.Some? ==> (m.op == Update || m.op == Delete) && Truthy(m.matchValue)
    ensures r.Some? ==> r.value < |queue| && PendingInsertFor(queue[r.value], m.table, m.matchValue)
    ensures r.Some? ==> forall j :: 0 <= j < r.value ==> !PendingInsertFor(queue[j], m.table, m.matchValue)
    ensures r.None? && (m.op == Update || m.op == Delete) && Truthy(m.matchValue) ==>
              forall j :: 0 <= j < |queue| ==> !PendingInsertFor(queue[j], m.table, m.matchValue)
  {
    if (m.op == Update || m.op == Delete) && Truthy(m.matchValue)
    then FindPendingInsert(queue, m.table, m.matchValue)
    else None
  }

  /** `addToQueue(item)` with `freshId` standing for the generated queue id:
      an UPDATE is merged into the first pending INSERT for its record, a
      DELETE cancels that INSERT, and anything else is appended. */
  function AddToQueue(queue: seq<SyncItem>, m: Mutation, freshId: string): (r: seq<SyncItem>)
    // Merge: same length, only the target's payload changes.
    ensures CoalesceTarget(queue, m).Some? && m.op == Update ==>
              var i := CoalesceTarget(queue, m).value;
              && |r| == |queue|
              && r[i] == queue[i].(payload := MergePayload(queue[i].payload, m.payload))
              && forall j :: 0 <= j < |queue| && j != i ==> r[j] == queue[j]
    // Cancel: the INSERT is gone, the others keep their order, nothing is appended.
    ensures CoalesceTarget(queue, m).Some? && m.op == Delete ==>
              var i := CoalesceTarget(queue, m).value;
              && |r| == |queue| - 1
              && multiset(r) == multiset(queue) - multiset{queue[i]}
              && r == queue[..i] + queue[i + 1..]
    // Append: every old entry stays where it was and one new entry ends the queue.
    ensures CoalesceTarget(queue, m).None? ==> r == queue + [WithId(m, freshId)]
  {
    match CoalesceTarget(queue, m)
    case Some(i) =>
      if m.op == Update then
        queue[i := queue[i].(payload := MergePayload(queue[i].payload, m.payload))]
      else
        assert queue == queue[..i] + [queue[i]] + queue[i + 1..];
        RemoveAt(queue, i)
    case None => queue + [WithId(m, freshId)]
  }

  /** The queue changes length by at most one per enqueue, and only a DELETE
      can shrink it. */
  lemma AddToQueueLength(queue: seq<SyncItem>, m: Mutation, freshId: string)
    ensures var r := AddToQueue(queue, m, freshId);
      && |queue| - 1 <= |r| <= |queue| + 1
      && (|r| < |queue| ==> m.op == Delete)
      && (|r| > |queue| ==> r[|queue|] == WithId(m, freshId))
  {
  }

  /** An INSERT never coalesces: it is always appended. */
  lemma InsertAlwaysAppends(queue: seq<SyncItem>, m: Mutation, freshId: string)
    requires m.op == Insert
    ensures AddToQueue(queue, m, freshId) == queue + [WithId(m, freshId)]
  {
  }

  /** An UPDATE or DELETE whose `matchValue` is absent or falsy never coalesces. */
  lemma FalsyMatchAppends(queue: seq<SyncItem>, m: Mutation, freshId: string)
    requires !Truthy(m.matchValue)
    ensures AddToQueue(queue, m, freshId) == queue + [WithId(m, freshId)]
  {
  }

  /** An INSERT for a fresh temporary id followed by a DELETE of the same id
      leaves the queue as it was before the INSERT. */
  lemma InsertThenDeleteCancels(queue: seq<SyncItem>, table: string, tempId: MatchValue,
                                payload: Payload, field: Option<string>, id1: string, id2: string)
    requires Truthy(Some(tempId))
    requires forall j :: 0 <= j < |queue| ==> !PendingInsertFor(queue[j], table, Some(tempId))
    ensures var ins := Mutation(table, Insert, payload, None, Some(tempId));
            var del := Mutation(table, Delete, map[], field, Some(tempId));
            AddToQueue(AddToQueue(queue, ins, id1), del, id2) == queue
  {
    var ins := Mutation(table, Insert, payload, None, Some(tempId));
    var del := Mutation(table, Delete, map[], field, Some(tempId));
    var q1 := AddToQueue(queue, ins, id1);
    assert q1 == queue + [WithId(ins, id1)];
    assert CoalesceTarget(q1, del) == Some(|queue|) by {
      assert PendingInsertFor(q1[|queue|], table, Some(tempId));
      assert forall j :: 0 <= j < |queue| ==> q1[j] == queue[j];
    }
    assert q1[..|queue|] == queue;
  }

  /** An INSERT for a fresh temporary id followed by an UPDATE of the same id
      leaves a single new entry: the INSERT, carrying the merged payload. */
  lemma InsertThenUpdateMerges(queue: seq<SyncItem>, table: string, tempId: MatchValue,
                               payload: Payload, patch: Payload, field: Option<string>, id1: string, id2: string)
    requires Truthy(Some(tempId))
    requires forall j :: 0 <= j < |queue| ==> !PendingInsertFor(queue[j], table, Some(tempId))
    ensures var ins := Mutation(table, Insert, payload, None, Some(tempId));
            var upd := Mutation(table, Update, patch, field, Some(tempId));
            AddToQueue(AddToQueue(queue, ins, id1), upd, id2)
              == queue + [SyncItem(id1, table, Insert, MergePayload(payload, patch), None, Some(tempId))]
  {
    var ins := Mutation(table, Insert, payload, None, Some(tempId));
    var upd := Mutation(table, Update, patch, field, Some(tempId));
    var q1 := AddToQueue(queue, ins, id1);
    assert q1 == queue + [WithId(ins, id1)];
    assert CoalesceTarget(q1, upd) == Some(|queue|) by {
      assert PendingInsertFor(q1[|queue|], table, Some(tempId));
      assert forall j :: 0 <= j < |queue| ==> q1[j] == queue[j];
    }
  }

  /** No queued UPDATE or DELETE refers, through a truthy `matchValue`, to an
      INSERT queued before it: such a reference would name a temporary id the
      backend has never seen. */
  ghost predicate NoReferenceToPendingInsert(queue: seq<SyncItem>) {
    forall i, j :: 0 <= i < j < |queue| && queue[j].op != Insert && Truthy(queue[j].matchValue) ==>
      !PendingInsertFor(queue[i], queue[j].table, queue[j].matchValue)
  }

  /** Coalescing keeps that property: enqueueing never creates a reference to a
      pending temporary id. */
  lemma AddToQueueKeepsNoReference(queue: seq<SyncItem>, m: Mutation, freshId: string)
    requires NoReferenceToPendingInsert(queue)
    ensures NoReferenceToPendingInsert(AddToQueue(queue, m, freshId))
  {
    var r := AddToQueue(queue, m, freshId);
    match CoalesceTarget(queue, m)
    case Some(i) =>
      if m.op == Update {
        forall a, b | 0 <= a < b < |r| && r[b].op != Insert && Truthy(r[b].matchValue)
          ensures !PendingInsertFor(r[a], r[b].table, r[b].matchValue)
        {
          if b == i {
            assert false;
          }
          assert r[b] == queue[b];
          assert PendingInsertFor(r[a], r[b].table, r[b].matchValue)
             <==> PendingInsertFor(queue[a], r[b].table, r[b].matchValue);
        }
      } else {
        forall a, b | 0 <= a < b < |r| && r[b].op != Insert && Truthy(r[b].matchValue)
          ensures !PendingInsertFor(r[a], r[b].table, r[b].matchValue)
        {
          var a', b' := if a < i then a else a + 1, if b < i then b else b + 1;
          assert r[a] == queue[a'] && r[b] == queue[b'];
        }
      }
    case None =>
      forall a, b | 0 <= a < b < |r| && r[b].op != Insert && Truthy(r[b].matchValue)
        ensures !PendingInsertFor(r[a], r[b].table, r[b].matchValue)
      {
        if b == |queue| {
          assert r[b] == WithId(m, freshId);
          assert r[a] == queue[a];
        } else {
          assert r[a] == queue[a] && r[b] == queue[b];
        }
      }
  }
}
