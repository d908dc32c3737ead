/**
 * The toast queue: the module-level id counter and the store's list of
 * toasts, the actions that add and remove a toast, and the `toast.*`
 * shortcuts with their default durations.
 */
module Toasts {
  import opened JsBuiltins

  datatype ToastType = InfoToast | SuccessToast | WarningToast | ErrorToast

  datatype Toast = Toast(id: int, message: string, kind: ToastType, duration: int)

  /** The duration `addToast` uses when none is given. */
  const DefaultDuration := 5000
  /** The duration `toast.error` uses when none is given. */
  const ErrorDuration := 8000

  /** Ids strictly increase along the list. */
  ghost predicate Increasing(toasts: seq<Toast>) {
    forall i, j :: 0 <= i < j < |toasts| ==> toasts[i].id < toasts[j].id
  }

  /** `toasts.filter(t => t.id !== id)`. */
  function Without(toasts: seq<Toast>, id: int): seq<Toast> {
    Filter(toasts, (t: Toast) => t.id != id)
  }

  /** Removing an id no toast has leaves the list as it was. */
  lemma WithoutAbsent(toasts: seq<Toast>, id: int)
    requires forall k :: 0 <= k < |toasts| ==> toasts[k].id != id
    ensures Without(toasts, id) == toasts
  {
    FilterKeepsAll(toasts, (t: Toast) => t.id != id);
  }

  /** A toast whose id is below every id of an increasing list can go in front of it. */
  lemma ConsIncreasing(t: Toast, rest: seq<Toast>)
    requires Increasing(rest)
    requires forall k :: 0 <= k < |rest| ==> t.id < rest[k].id
    ensures Increasing([t] + rest)
  {
    var r := [t] + rest;
    forall i, j | 0 <= i < j < |r| ensures r[i].id < r[j].id {
      assert r[j] == rest[j - 1];
      if i > 0 {
        assert r[i] == rest[i - 1];
      }
    }
  }

  /** Removing keeps the other toasts in their order, so increasing ids stay increasing. */
  lemma {:induction false} WithoutIncreasing(toasts: seq<Toast>, id: int)
    requires Increasing(toasts)
    ensures Increasing(Without(toasts, id))
    decreases |toasts|
  {
    if toasts != [] {
      var tail := toasts[1..];
      assert Increasing(tail) by {
        forall i, j | 0 <= i < j < |tail| ensures tail[i].id < tail[j].id {
          assert tail[i] == toasts[i + 1] && tail[j] == toasts[j + 1];
        }
      }
      WithoutIncreasing(tail, id);
      if toasts[0].id != id {
        var rest := Without(tail, id);
        forall k | 0 <= k < |rest| ensures toasts[0].id < rest[k].id {
          assert rest[k] in tail;
          var m :| 0 <= m < |tail| && tail[m] == rest[k];
          assert tail[m] == toasts[m + 1];
        }
        ConsIncreasing(toasts[0], rest);
      }
    }
  }

  /** Removing a toast that was just added restores the list, provided its id was new. */
  lemma AddThenRemove(toasts: seq<Toast>, t: Toast)
    requires forall k :: 0 <= k < |toasts| ==> toasts[k].id != t.id
    ensures Without(toasts + [t], t.id) == toasts
  {
    FilterAppend(toasts, [t], (x: Toast) => x.id != t.id);
    FilterSingle(t, (x: Toast) => x.id != t.id);
    WithoutAbsent(toasts, t.id);
  }

  /** The toast queue: the module's counter and the store's list. */
  class ToastStore {
    /** The last id handed out (`toastId`). */
    var toastId: nat
    var toasts: seq<Toast>

    /** Ids increase along the list and none exceeds the counter. */
    ghost predicate Valid()
      reads this
    {
      Increasing(toasts) && forall t :: t in toasts ==> 0 < t.id <= toastId
    }

    constructor ()
      ensures Valid() && toastId == 0 && toasts == []
    {
      toastId := 0;
      toasts := [];
    }

    /**
     * `addToast`: the counter is incremented first and its new value is the
     * toast's id; the toast goes last, type `info` and duration 5000 unless
     * given.
     */
    method AddToast(message: string, kind: Option<ToastType>, duration: Option<int>)
      requires Valid()
      modifies this
      ensures Valid()
      ensures toastId == old(toastId) + 1
      ensures toasts == old(toasts) + [Toast(toastId, message, kind.GetOr(InfoToast), duration.GetOr(DefaultDuration))]
      ensures forall k :: 0 <= k < |old(toasts)| ==> toasts[k].id < toastId
    {
      ghost var earlier := toasts;
      assert forall k :: 0 <= k < |earlier| ==> earlier[k] in earlier;
      toastId := toastId + 1;
      var id := toastId;
      toasts := toasts + [Toast(id, message, kind.GetOr(InfoToast), duration.GetOr(DefaultDuration))];
    }

    /** `removeToast`: only the toasts with this id go; the others keep their order. */
    method RemoveToast(id: int)
      requires Valid()
      modifies this
      ensures Valid()
      ensures toasts == Without(old(toasts), id) && toastId == old(toastId)
    {
      WithoutIncreasing(toasts, id);
      toasts := Without(toasts, id);
    }

    /** `toast.info`. */
    method Info(message: string, duration: Option<int>)
      requires Valid()
      modifies this
      ensures Valid() && toastId == old(toastId) + 1
      ensures toasts == old(toasts) + [Toast(toastId, message, InfoToast, duration.GetOr(DefaultDuration))]
    {
      AddToast(message, Some(InfoToast), duration);
    }

    /** `toast.success`. */
    method Success(message: string, duration: Option<int>)
      requires Valid()
      modifies this
      ensures Valid() && toastId == old(toastId) + 1
      ensures toasts == old(toasts) + [Toast(toastId, message, SuccessToast, duration.GetOr(DefaultDuration))]
    {
      AddToast(message, Some(SuccessToast), duration);
    }

    /** `toast.warning`. */
    method Warning(message: string, duration: Option<int>)
      requires Valid()
      modifies this
      ensures Valid() && toastId == old(toastId) + 1
      ensures toasts == old(toasts) + [Toast(toastId, message, WarningToast, duration.GetOr(DefaultDuration))]
    {
      AddToast(message, Some(WarningToast), duration);
    }

    /** `toast.error`: the duration defaults to 8000 before `addToast` sees it. */
    method Error(message: string, duration: Option<int>)
      requires Valid()
      modifies this
      ensures Valid() && toastId == old(toastId) + 1
      ensures toasts == old(toasts) + [Toast(toastId, message, ErrorToast, duration.GetOr(ErrorDuration))]
    {
      AddToast(message, Some(ErrorToast), Some(duration.GetOr(ErrorDuration)));
    }
  }
}
