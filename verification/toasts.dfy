/**
 * The toast notifications of the site (src/context/ToastContext.jsx).
 *
 * `showToast` appends a toast `{id, message, type}` to the list on screen and
 * schedules its removal: when the timer fires, every toast carrying that id
 * is filtered out. Ids come from the clock, so two toasts may share one.
 */
module Toasts {

  /** A toast on screen; `kind` is the `type` string of the source. */
  datatype Toast = Toast(id: int, message: string, kind: string)

  /** A scheduled removal: the id to filter out, after `duration` milliseconds. */
  datatype Timer = Timer(id: int, duration: int)

  /** The two colours a toast can be drawn in. */
  datatype Style = SuccessStyle | ErrorStyle

  /** The default `type` of `showToast`. */
  const DefaultKind: string := "success"

  /** The default display time of `showToast`, in milliseconds. */
  const DefaultDuration: int := 4000

  /** The colour a toast of type `kind` is drawn in. */
  function StyleOf(kind: string): Style
  {
    if kind == "success" then SuccessStyle else ErrorStyle
  }

  /**
   * `toasts.filter(t => t.id !== id)`: every toast with that id is gone, every
   * other toast stays, and nothing changes when no toast has that id.
   */
  function WithoutId(toasts: seq<Toast>, id: int): (r: seq<Toast>)
    ensures forall t :: t in r <==> t in toasts && t.id != id
    ensures |r| <= |toasts|
    ensures (forall t :: t in toasts ==> t.id != id) ==> r == toasts
    decreases |toasts|
  {
    if toasts == [] then []
    else if toasts[0].id == id then WithoutId(toasts[1..], id)
    else [toasts[0]] + WithoutId(toasts[1..], id)
  }

  /**
   * Filtering distributes over concatenation; with the one-element case this
   * says the survivors keep their original relative order.
   */
  lemma {:induction false} WithoutIdAppend(a: seq<Toast>, b: seq<Toast>, id: int)
    ensures WithoutId(a + b, id) == WithoutId(a, id) + WithoutId(b, id)
    decreases |a|
  {
    if a != [] {
      assert (a + b)[1..] == a[1..] + b;
      WithoutIdAppend(a[1..], b, id);
    } else {
      assert a + b == b;
    }
  }

  /** A second expiry of the same id changes nothing. */
  lemma WithoutIdIdempotent(toasts: seq<Toast>, id: int)
    ensures WithoutId(WithoutId(toasts, id), id) == WithoutId(toasts, id)
  {
  }

  /** Expiries of two ids may fire in either order with the same result. */
  lemma {:induction false} ExpiriesCommute(toasts: seq<Toast>, a: int, b: int)
    ensures WithoutId(WithoutId(toasts, a), b) == WithoutId(WithoutId(toasts, b), a)
    decreases |toasts|
  {
    if toasts != [] {
      ExpiriesCommute(toasts[1..], a, b);
    }
  }

  /**
   * The expiry of a new toast's id removes the new toast together with any
   * earlier toast sharing its id, and leaves the other earlier toasts in order.
   */
  lemma ExpiryOfNewToast(toasts: seq<Toast>, t: Toast)
    ensures WithoutId(toasts + [t], t.id) == WithoutId(toasts, t.id)
    ensures (forall u :: u in toasts ==> u.id != t.id) ==> WithoutId(toasts + [t], t.id) == toasts
  {
    WithoutIdAppend(toasts, [t], t.id);
    assert WithoutId([t], t.id) == [];
  }

  /** The ids of the scheduled removals. */
  function TimerIds(timers: seq<Timer>): set<int>
  {
    set t | t in timers :: t.id
  }

  /** The toast provider: the toasts on screen and the removals still scheduled. */
  class ToastCenter {
    var toasts: seq<Toast>
    var pending: seq<Timer>

    /** Every toast on screen has a removal scheduled for its id. */
    ghost predicate Valid()
      reads this
    {
      forall t :: t in toasts ==> t.id in TimerIds(pending)
    }

    constructor ()
      ensures toasts == [] && pending == []
      ensures Valid()
    {
      toasts := [];
      pending := [];
    }

    /**
     * `showToast(message, type = "success", duration = 4000)` with the clock
     * reading `id`: one toast appended at the end, one removal scheduled.
     */
    method ShowToast(id: int, message: string, kind: string := DefaultKind, duration: int := DefaultDuration)
      requires Valid()
      modifies this
      ensures Valid()
      ensures toasts == old(toasts) + [Toast(id, message, kind)]
      ensures pending == old(pending) + [Timer(id, duration)]
      ensures kind == DefaultKind ==> StyleOf(toasts[|toasts| - 1].kind) == SuccessStyle
    {
      toasts := toasts + [Toast(id, message, kind)];
      pending := pending + [Timer(id, duration)];
    }

    /**
     * The `k`-th scheduled removal fires (timers may fire in any order, since
     * durations differ): the toasts with its id are filtered out.
     */
    method Expire(k: nat)
      requires Valid() && k < |pending|
      modifies this
      ensures Valid()
      ensures toasts == WithoutId(old(toasts), old(pending)[k].id)
      ensures forall t :: t in toasts ==> t.id != old(pending)[k].id
      ensures pending == old(pending)[..k] + old(pending)[k + 1..]
    {
      var id := pending[k].id;
      ghost var before := pending;
      toasts := WithoutId(toasts, id);
      pending := pending[..k] + pending[k + 1..];
      forall t | t in toasts
        ensures t.id in TimerIds(pending)
      {
        var j :| 0 <= j < |before| && before[j].id == t.id;
        assert j != k;
        if j < k {
          assert pending[j] == before[j];
        } else {
          assert pending[j - 1] == before[j];
        }
      }
    }

    /**
     * A toast on screen always has a removal still to come; equivalently,
     * once every scheduled removal has fired no toast is left.
     */
    lemma ToastsAwaitRemoval()
      requires Valid()
      ensures toasts != [] ==> pending != []
      ensures pending == [] ==> toasts == []
    {
      if toasts != [] {
        assert toasts[0].id in TimerIds(pending);
      }
    }
  }
}
