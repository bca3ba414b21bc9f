/** The toast notifications (`ToastProvider`): a short list of messages on
    screen, at most five, newest last. Showing one drops the oldest when five
    are already shown; dismissing one removes it by id. The id (`Date.now()`
    plus a random suffix) is a parameter, and the timers that dismiss a toast
    after its duration are left to the caller. */
module Toasts {
  import opened Common

  datatype ToastType = Success | Error | Info | Cloud | Delete | Update

  datatype Toast = Toast(id: string, message: string, kind: ToastType, duration: int)

  /** How many toasts are on screen at most. */
  const MaxToasts: nat := 5

  /** The last `n` elements of `s` (all of them when there are fewer). */
  function Last<T>(s: seq<T>, n: nat): (r: seq<T>)
    ensures |r| == if |s| <= n then |s| else n
    ensures r == s[|s| - |r|..]
  {
    if |s| <= n then s else s[|s| - n..]
  }

  /** `showToast(message, type = 'success', duration = 2500)` with the id it
      draws: the last four toasts already shown, then the new one. */
  function ShowToast(prev: seq<Toast>, id: string, message: string,
                     kind: ToastType := Success, duration: int := 2500): (r: seq<Toast>)
    ensures 1 <= |r| <= MaxToasts
    ensures r[|r| - 1] == Toast(id, message, kind, duration)
    ensures |prev| < MaxToasts ==> r == prev + [Toast(id, message, kind, duration)]
    ensures |prev| >= MaxToasts - 1 ==> |r| == MaxToasts && r[..MaxToasts - 1] == prev[|prev| - (MaxToasts - 1)..]
  {
    Slice(prev, -4, |prev|) + [Toast(id, message, kind, duration)]
  }

  /** Showing a toast that is already built. */
  function Push(prev: seq<Toast>, t: Toast): seq<Toast> {
    ShowToast(prev, t.id, t.message, t.kind, t.duration)
  }

  /** The list after a toast is shown is the last five of the list with the
      toast appended. */
  lemma PushIsLastFive(prev: seq<Toast>, t: Toast)
    ensures Push(prev, t) == Last(prev + [t], MaxToasts)
  {
    var r := Push(prev, t);
    var full := prev + [t];
    var l := Last(full, MaxToasts);
    assert |r| == |l|;
    forall i | 0 <= i < |r|
      ensures r[i] == l[i]
    {
    }
  }

  /** Keeping the last `n` of a list and appending more keeps the same last
      `n` as appending to the whole list. */
  lemma {:induction false} LastOfLast<T>(a: seq<T>, b: seq<T>, n: nat)
    ensures Last(Last(a, n) + b, n) == Last(a + b, n)
  {
    var x := Last(Last(a, n) + b, n);
    var y := Last(a + b, n);
    assert |x| == |y|;
    forall i | 0 <= i < |x|
      ensures x[i] == y[i]
    {
      var la := Last(a, n);
      var j := |la + b| - |x| + i;
      var k := |a + b| - |y| + i;
      if j < |la| {
        assert x[i] == la[j] == a[|a| - |la| + j];
        assert k == |a| - |la| + j;
      } else {
        assert x[i] == b[j - |la|];
        assert k - |a| == j - |la|;
      }
    }
  }

  /** Showing the toasts `ts` one after another. */
  function ShowAll(prev: seq<Toast>, ts: seq<Toast>): seq<Toast>
    decreases |ts|
  {
    if |ts| == 0 then prev else ShowAll(Push(prev, ts[0]), ts[1..])
  }

  /** One step of `ShowAll`: the first toast leaves the last five of the
      list with it appended. */
  lemma ShowAllStep(prev: seq<Toast>, ts: seq<Toast>)
    requires |ts| > 0
    ensures ShowAll(prev, ts) == ShowAll(Last(prev + [ts[0]], MaxToasts), ts[1..])
  {
    PushIsLastFive(prev, ts[0]);
  }

  /** However many toasts are shown, the screen holds the last five of all
      of them, newest last: the older ones are gone for good. */
  lemma {:induction false} ShowAllIsLastFive(prev: seq<Toast>, ts: seq<Toast>)
    requires |ts| > 0
    ensures ShowAll(prev, ts) == Last(prev + ts, MaxToasts)
    ensures |ShowAll(prev, ts)| <= MaxToasts
    decreases |ts|
  {
    var first := prev + [ts[0]];
    var shown := Last(first, MaxToasts);
    ShowAllStep(prev, ts);
    assert first + ts[1..] == prev + ts;
    if |ts| == 1 {
      assert ts[1..] == [];
      assert first == prev + ts;
    } else {
      ShowAllIsLastFive(shown, ts[1..]);
      LastOfLast(first, ts[1..], MaxToasts);
    }
  }

  /** `dismissToast(id)`: every toast with that id goes, the rest stay in
      order. */
  function DismissToast(toasts: seq<Toast>, id: string): (r: seq<Toast>)
    ensures |r| <= |toasts|
    ensures forall i :: 0 <= i < |r| ==> r[i].id != id
  {
    Filter(toasts, (t: Toast) => t.id != id)
  }

  /** A dismissed toast is gone and nothing else is; an id not on screen
      (a toast the list already dropped) changes nothing. */
  lemma {:induction false} DismissExact(toasts: seq<Toast>, id: string)
    ensures forall t :: t in DismissToast(toasts, id) <==> t in toasts && t.id != id
    ensures (forall i :: 0 <= i < |toasts| ==> toasts[i].id != id) ==> DismissToast(toasts, id) == toasts
  {
    FilterContents(toasts, (t: Toast) => t.id != id);
    if forall i :: 0 <= i < |toasts| ==> toasts[i].id != id {
      FilterKeepsAll(toasts, (t: Toast) => t.id != id);
    }
  }

  /** Showing a toast under a fresh id and dismissing it leaves the last four
      toasts that were there before. */
  lemma {:induction false} ShowThenDismiss(prev: seq<Toast>, t: Toast)
    requires forall i :: 0 <= i < |prev| ==> prev[i].id != t.id
    ensures DismissToast(Push(prev, t), t.id) == Last(prev, MaxToasts - 1)
  {
    var kept := Last(prev, MaxToasts - 1);
    var p := (x: Toast) => x.id != t.id;
    PushIsLastFive(prev, t);
    LastOfLast(prev, [t], MaxToasts - 1);
    assert Push(prev, t) == kept + [t] by {
      assert |Push(prev, t)| == |kept + [t]|;
    }
    FilterAppend(kept, [t], p);
    assert Filter([t], p) == [];
    FilterKeepsAll(kept, p);
  }
}
