/** The queue drain of `useSync` (`processQueue`): try the head item against
    the backend; success removes it, failure moves it to the tail; stop after
    `initialLength + 2` counted attempts or when the queue is empty. The backend
    is an outcome oracle: `ok(k, item)` says whether the k-th attempt, made on
    `item`, succeeded. */
module SyncProcess {
  import opened Common
  import opened SyncQueue

  /** Extra attempts granted beyond the initial queue length. */
  const AttemptBuffer: nat := 2

  /** One loop turn on the head item: `postQueue.shift()` on success,
      `postQueue.push(postQueue.shift())` on failure. */
  function Step(queue: seq<SyncItem>, success: bool): seq<SyncItem>
    requires |queue| > 0
  {
    if success then queue[1..] else queue[1..] + [queue[0]]
  }

  /** A success drops exactly the head; a failure loses nothing. */
  lemma {:induction false} StepMultiset(queue: seq<SyncItem>, success: bool)
    requires |queue| > 0
    ensures success ==> multiset(Step(queue, success)) == multiset(queue) - multiset{queue[0]}
    ensures !success ==> multiset(Step(queue, success)) == multiset(queue)
  {
    assert queue == [queue[0]] + queue[1..];
  }

  /** The final queue of a run and the number of backend calls it made. */
  datatype Run = Run(queue: seq<SyncItem>, calls: nat)

  /** The `while (attempts < maxAttempts)` loop from `attempts` on. The
      `postQueue.length === 0` exit happens before `attempts++`, so the call
      that empties the queue is counted in `calls` but not in `attempts`. */
  function Drain(queue: seq<SyncItem>, attempts: nat, maxAttempts: nat, ok: (nat, SyncItem) -> bool): Run
    decreases maxAttempts - attempts
  {
    if attempts >= maxAttempts || |queue| == 0 then Run(queue, 0)
    else
      var next := Step(queue, ok(attempts, queue[0]));
      if |next| == 0 then Run(next, 1)
      else
        var rest := Drain(next, attempts + 1, maxAttempts, ok);
        Run(rest.queue, rest.calls + 1)
  }

  /** A drain makes at most one backend call per remaining attempt, makes none
      once the attempts are used up, removes at most one item per call, and
      stops before using up its attempts only on an empty queue. */
  lemma {:induction false} DrainBounds(queue: seq<SyncItem>, attempts: nat, maxAttempts: nat, ok: (nat, SyncItem) -> bool)
    ensures var r := Drain(queue, attempts, maxAttempts, ok);
            && (attempts <= maxAttempts ==> r.calls <= maxAttempts - attempts)
            && (attempts >= maxAttempts ==> r == Run(queue, 0))
            && |r.queue| <= |queue|
            && |queue| - |r.queue| <= r.calls
            && (attempts <= maxAttempts && r.calls < maxAttempts - attempts ==> |r.queue| == 0)
    decreases maxAttempts - attempts
  {
    if attempts < maxAttempts && |queue| > 0 {
      var next := Step(queue, ok(attempts, queue[0]));
      if |next| > 0 {
        DrainBounds(next, attempts + 1, maxAttempts, ok);
      }
    }
  }

  /** A drain only removes items: nothing new appears and nothing is duplicated. */
  lemma {:induction false} DrainMultiset(queue: seq<SyncItem>, attempts: nat, maxAttempts: nat, ok: (nat, SyncItem) -> bool)
    ensures multiset(Drain(queue, attempts, maxAttempts, ok).queue) <= multiset(queue)
    decreases maxAttempts - attempts
  {
    if attempts < maxAttempts && |queue| > 0 {
      StepMultiset(queue, ok(attempts, queue[0]));
      var next := Step(queue, ok(attempts, queue[0]));
      if |next| > 0 {
        DrainMultiset(next, attempts + 1, maxAttempts, ok);
      }
    }
  }

  /** What one `processQueue` call does, seen from outside. */
  datatype SyncRun =
    | Skipped
      // `stored` is the persisted queue afterwards; `None` once it was removed.
    | Ran(stored: Option<seq<SyncItem>>, calls: nat, refetched: bool)

  /** `processQueue`: nothing happens without a user, during a sync, or when
      the stored queue is missing or empty; otherwise the loop runs, an empty
      final queue is removed from storage and the data refetched, and a
      non-empty one stays stored for the next attempt. */
  function ProcessQueue(hasUser: bool, isSyncing: bool, stored: Option<seq<SyncItem>>,
                        ok: (nat, SyncItem) -> bool): (r: SyncRun)
    ensures r.Skipped? <==> !hasUser || isSyncing || stored.None? || |stored.value| == 0
    ensures r.Ran? ==> r.calls <= |stored.value| + AttemptBuffer
    ensures r.Ran? ==> (r.stored.None? <==> r.refetched)
    ensures r.Ran? && r.stored.Some? ==> 0 < |r.stored.value| <= |stored.value|
  {
    if !hasUser || isSyncing then Skipped
    else match stored
      case None => Skipped
      case Some(initial) =>
        if |initial| == 0 then Skipped
        else
          DrainBounds(initial, 0, |initial| + AttemptBuffer, ok);
          var run := Drain(initial, 0, |initial| + AttemptBuffer, ok);
          if |run.queue| == 0 then Ran(None, run.calls, true)
          else Ran(Some(run.queue), run.calls, false)
  }

  /** What stays stored after a run is a sub-multiset of what was stored:
      the loop never invents or duplicates a mutation. */
  lemma {:induction false} ProcessQueueKeepsItems(hasUser: bool, isSyncing: bool, stored: Option<seq<SyncItem>>,
                                                  ok: (nat, SyncItem) -> bool)
    ensures var r := ProcessQueue(hasUser, isSyncing, stored, ok);
            r.Ran? && r.stored.Some? ==> multiset(r.stored.value) <= multiset(stored.value)
  {
    if stored.Some? {
      DrainMultiset(stored.value, 0, |stored.value| + AttemptBuffer, ok);
    }
  }

  /** The loop of `processQueue` as the source writes it, over a queue value. */
  method RunQueue(initial: seq<SyncItem>, ok: (nat, SyncItem) -> bool) returns (final: seq<SyncItem>, calls: nat)
    ensures Run(final, calls) == Drain(initial, 0, |initial| + AttemptBuffer, ok)
    ensures calls <= |initial| + AttemptBuffer
    ensures |final| <= |initial|
  {
    var maxAttempts := |initial| + AttemptBuffer;
    var attempts := 0;
    var queue := initial;
    calls := 0;
    while attempts < maxAttempts
      invariant attempts <= maxAttempts
      invariant calls == attempts
      invariant Drain(initial, 0, maxAttempts, ok)
                  == var rest := Drain(queue, attempts, maxAttempts, ok); Run(rest.queue, rest.calls + calls)
      decreases maxAttempts - attempts
    {
      if |queue| == 0 {
        break;
      }
      var item := queue[0];
      var success := ok(attempts, item);
      calls := calls + 1;
      queue := Step(queue, success);
      if |queue| == 0 {
        break;
      }
      attempts := attempts + 1;
    }
    final := queue;
    DrainBounds(initial, 0, maxAttempts, ok);
  }

  /** Moving the head to the tail. */
  function Rotate(s: seq<SyncItem>): (r: seq<SyncItem>)
    ensures |r| == |s|
  {
    if |s| == 0 then s else Step(s, false)
  }

  function RotateTimes(s: seq<SyncItem>, n: nat): (r: seq<SyncItem>)
    ensures |r| == |s|
    decreases n
  {
    if n == 0 then s else RotateTimes(Rotate(s), n - 1)
  }

  /** Rotating twice moves the first two items to the tail. */
  lemma {:induction false} RotateTwice(s: seq<SyncItem>)
    ensures |s| >= 2 ==> RotateTimes(s, 2) == s[2..] + s[..2]
    ensures |s| <= 1 ==> RotateTimes(s, 2) == s
  {
    var r1 := Rotate(s);
    var r2 := Rotate(r1);
    assert RotateTimes(s, 2) == RotateTimes(r1, 1) == RotateTimes(r2, 0) == r2;
    if |s| >= 2 {
      assert r1 == s[1..] + [s[0]];
      assert r2 == r1[1..] + [r1[0]];
      assert r1[1..] == s[2..] + [s[0]];
      assert r2 == s[2..] + s[..2];
    } else if |s| == 1 {
      assert r1 == s[1..] + [s[0]] == s;
    }
  }

  /** Each item has a fixed outcome, whatever attempt it is tried on. */
  function Fixed(fails: SyncItem -> bool): (nat, SyncItem) -> bool {
    (k: nat, x: SyncItem) => !fails(x)
  }

  /** With fixed outcomes, one pass over `todo` (queued ahead of the already
      rotated `failed`) removes the passing items of `todo` and rotates its
      failing ones, in order, behind `failed`. */
  lemma {:induction false} OnePass(todo: seq<SyncItem>, failed: seq<SyncItem>, queue: seq<SyncItem>, target: seq<SyncItem>,
                                   attempts: nat, maxAttempts: nat, fails: SyncItem -> bool)
    requires queue == todo + failed && target == failed + Filter(todo, fails)
    requires attempts + |todo| <= maxAttempts
    ensures Drain(queue, attempts, maxAttempts, Fixed(fails)).queue
         == Drain(target, attempts + |todo|, maxAttempts, Fixed(fails)).queue
    decreases |todo|
  {
    if |todo| == 0 {
      assert queue == target;
    } else {
      var x := todo[0];
      var rest := if fails(x) then failed + [x] else failed;
      var tail := Filter(todo[1..], fails);
      var next := todo[1..] + rest;
      FixedStep(todo, failed, queue, next, attempts, maxAttempts, fails);
      TargetShift(todo, failed, fails);
      OnePass(todo[1..], rest, next, target, attempts + 1, maxAttempts, fails);
    }
  }

  /** Moving the head of `todo` behind `failed` when it fails, or dropping it
      when it passes, does not change what the pass leaves. */
  lemma {:induction false} TargetShift(todo: seq<SyncItem>, failed: seq<SyncItem>, fails: SyncItem -> bool)
    requires |todo| > 0
    ensures failed + Filter(todo, fails)
         == (if fails(todo[0]) then failed + [todo[0]] else failed) + Filter(todo[1..], fails)
  {
    var x, tail := todo[0], Filter(todo[1..], fails);
    if fails(x) {
      assert Filter(todo, fails) == [x] + tail;
      assert (failed + [x]) + tail == failed + ([x] + tail);
    } else {
      assert Filter(todo, fails) == [] + tail == tail;
    }
  }

  /** With fixed outcomes, one turn on the head of `todo + failed` either drops
      it or moves it behind `failed`. */
  lemma {:induction false} FixedStep(todo: seq<SyncItem>, failed: seq<SyncItem>, queue: seq<SyncItem>, next: seq<SyncItem>,
                  attempts: nat, maxAttempts: nat, fails: SyncItem -> bool)
    requires attempts < maxAttempts && |todo| > 0 && queue == todo + failed
    requires next == todo[1..] + (if fails(todo[0]) then failed + [todo[0]] else failed)
    ensures Drain(queue, attempts, maxAttempts, Fixed(fails)).queue
         == Drain(next, attempts + 1, maxAttempts, Fixed(fails)).queue
  {
    assert queue[0] == todo[0];
    assert Fixed(fails)(attempts, todo[0]) == !fails(todo[0]);
    DrainStep(queue, attempts, maxAttempts, Fixed(fails));
    if !fails(todo[0]) {
      assert Step(queue, true) == next;
    } else {
      assert Step(queue, false) == next;
    }
  }

  /** One unfolding of the drain loop. */
  lemma {:induction false} DrainStep(queue: seq<SyncItem>, attempts: nat, maxAttempts: nat, ok: (nat, SyncItem) -> bool)
    requires attempts < maxAttempts && |queue| > 0
    ensures var next := Step(queue, ok(attempts, queue[0]));
            Drain(queue, attempts, maxAttempts, ok).queue
              == (if |next| == 0 then next else Drain(next, attempts + 1, maxAttempts, ok).queue)
  {
  }

  /** With fixed outcomes, a queue of failing items only rotates once per
      remaining attempt. */
  lemma {:induction false} OnlyFailuresRotate(failed: seq<SyncItem>, attempts: nat, maxAttempts: nat,
                                              fails: SyncItem -> bool)
    requires attempts <= maxAttempts
    requires forall i :: 0 <= i < |failed| ==> fails(failed[i])
    ensures Drain(failed, attempts, maxAttempts, Fixed(fails)).queue == RotateTimes(failed, maxAttempts - attempts)
    decreases maxAttempts - attempts
  {
    if attempts < maxAttempts && |failed| > 0 {
      var r := Rotate(failed);
      assert !Fixed(fails)(attempts, failed[0]);
      assert forall i :: 0 <= i < |r| ==> fails(r[i]) by {
        forall i | 0 <= i < |r|
          ensures fails(r[i])
        {
          if i < |r| - 1 {
            assert r[i] == failed[i + 1];
          }
        }
      }
      OnlyFailuresRotate(r, attempts + 1, maxAttempts, fails);
    } else if |failed| == 0 {
      EmptyRotates(maxAttempts - attempts);
    }
  }

  lemma {:induction false} EmptyRotates(n: nat)
    ensures RotateTimes([], n) == []
  {
    if n > 0 {
      EmptyRotates(n - 1);
    }
  }

  /** With a fixed outcome per item, a drain leaves exactly the failing items:
      one pass keeps them in their original order, and the two buffered
      attempts then rotate them twice more. */
  lemma {:induction false} FixedOutcomeDrain(initial: seq<SyncItem>, fails: SyncItem -> bool)
    ensures Drain(initial, 0, |initial| + AttemptBuffer, Fixed(fails)).queue
         == RotateTimes(Filter(initial, fails), AttemptBuffer)
  {
    FirstPass(initial, fails);
    OnlyFailuresRotate(Filter(initial, fails), |initial|, |initial| + AttemptBuffer, fails);
  }

  /** The first `|initial|` attempts of a drain with fixed outcomes leave the
      failing items in their original order. */
  lemma {:induction false} FirstPass(initial: seq<SyncItem>, fails: SyncItem -> bool)
    ensures Drain(initial, 0, |initial| + AttemptBuffer, Fixed(fails)).queue
         == Drain(Filter(initial, fails), |initial|, |initial| + AttemptBuffer, Fixed(fails)).queue
  {
    var none: seq<SyncItem> := [];
    assert initial + none == initial;
    assert none + Filter(initial, fails) == Filter(initial, fails);
    OnePass(initial, none, initial, Filter(initial, fails), 0, |initial| + AttemptBuffer, fails);
  }

  /** With fixed outcomes, `processQueue` clears storage and refetches exactly
      when every queued item succeeds; otherwise the failing items stay stored,
      rotated by the two buffered attempts. */
  lemma {:induction false} FixedOutcomeProcess(initial: seq<SyncItem>, fails: SyncItem -> bool)
    requires |initial| > 0
    ensures var r := ProcessQueue(true, false, Some(initial), Fixed(fails));
            var failing := Filter(initial, fails);
            && r.Ran?
            && (r.refetched <==> forall i :: 0 <= i < |initial| ==> !fails(initial[i]))
            && (!r.refetched ==> r.stored == Some(RotateTimes(failing, AttemptBuffer)))
  {
    var d := Drain(initial, 0, |initial| + AttemptBuffer, Fixed(fails));
    assert ProcessQueue(true, false, Some(initial), Fixed(fails))
        == if |d.queue| == 0 then Ran(None, d.calls, true) else Ran(Some(d.queue), d.calls, false);
    FixedOutcomeDrain(initial, fails);
    FilterEmptyIff(initial, fails);
  }

  /** The scenario the bound was written for: one permanently failing item
      among items that all succeed ends as the only stored item. */
  lemma {:induction false} OneBadItemRemains(initial: seq<SyncItem>, bad: nat, fails: SyncItem -> bool)
    requires bad < |initial| && fails(initial[bad])
    requires forall i :: 0 <= i < |initial| && i != bad ==> !fails(initial[i])
    ensures ProcessQueue(true, false, Some(initial), Fixed(fails)) == Ran(Some([initial[bad]]), |initial| + AttemptBuffer, false)
  {
    FixedOutcomeProcess(initial, fails);
    FilterSingle(initial, bad, fails);
    RotateTwice([initial[bad]]);
    CallsUsed(initial, fails, bad);
  }

  /** When an item is left over, every allowed attempt was spent. */
  lemma {:induction false} CallsUsed(initial: seq<SyncItem>, fails: SyncItem -> bool, bad: nat)
    requires bad < |initial| && fails(initial[bad])
    ensures Drain(initial, 0, |initial| + AttemptBuffer, Fixed(fails)).calls == |initial| + AttemptBuffer
  {
    NeverEmpties(initial, 0, |initial| + AttemptBuffer, Fixed(fails), initial[bad]);
  }

  /** A queue holding an item that fails on every attempt never empties, so
      the loop spends every remaining attempt. */
  lemma {:induction false} NeverEmpties(queue: seq<SyncItem>, attempts: nat, maxAttempts: nat,
                                        ok: (nat, SyncItem) -> bool, bad: SyncItem)
    requires bad in queue && forall k: nat :: !ok(k, bad)
    requires attempts <= maxAttempts
    ensures Drain(queue, attempts, maxAttempts, ok).calls == maxAttempts - attempts
    decreases maxAttempts - attempts
  {
    if attempts < maxAttempts {
      var next := Step(queue, ok(attempts, queue[0]));
      assert bad in next by {
        var i :| 0 <= i < |queue| && queue[i] == bad;
        if i == 0 {
          assert !ok(attempts, queue[0]);
          assert next[|next| - 1] == bad;
        } else {
          assert next[i - 1] == bad;
        }
      }
      NeverEmpties(next, attempts + 1, maxAttempts, ok, bad);
    }
  }
}
