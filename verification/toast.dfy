/**
 * The toast list of the toast context: `addToast` appends a toast and, for a
 * positive duration, schedules its removal; `removeToast` drops a toast by
 * id. The clock is not modelled: a scheduled removal is returned as a value.
 */
module Toast {
  import opened Wrappers
  import opened Lists

  datatype ToastKind = Success | Error | Warning | Info

  datatype Toast = Toast(id: string, message: string, kind: ToastKind, duration: int)

  /** A removal of toast `id` scheduled `delay` milliseconds ahead. */
  datatype Timer = Timer(id: string, delay: int)

  datatype Added = Added(toasts: seq<Toast>, timer: Option<Timer>)

  const DefaultDuration: int := 5000

  predicate HasId(toasts: seq<Toast>, id: string) {
    exists i :: 0 <= i < |toasts| && toasts[i].id == id
  }

  /**
   * `addToast(message, type, duration)`: a toast with the given id (the
   * caller's random string) is appended; an omitted duration is 5000 ms,
   * and a removal is scheduled exactly when the duration is positive.
   */
  function AddToast(toasts: seq<Toast>, id: string, message: string, kind: ToastKind, duration: Option<int>)
    : (r: Added)
    ensures |r.toasts| == |toasts| + 1 && r.toasts[..|toasts|] == toasts
    ensures r.toasts[|toasts|] == Toast(id, message, kind, duration.GetOr(DefaultDuration))
    ensures r.timer.Some? <==> duration.GetOr(DefaultDuration) > 0
    ensures r.timer.Some? ==> r.timer.value == Timer(id, duration.GetOr(DefaultDuration))
    ensures duration.None? ==> r.timer == Some(Timer(id, 5000))
  {
    var d := duration.GetOr(DefaultDuration);
    Added(toasts + [Toast(id, message, kind, d)], if d > 0 then Some(Timer(id, d)) else None)
  }

  /** `removeToast(id)`: every toast with that id is dropped, the rest keep their order. */
  function RemoveToast(toasts: seq<Toast>, id: string): (r: seq<Toast>)
    ensures forall i :: 0 <= i < |r| ==> r[i].id != id
  {
    Filter(toasts, (t: Toast) => t.id != id)
  }

  /** Removal keeps exactly the toasts of other ids. */
  lemma RemoveMember(toasts: seq<Toast>, id: string, x: Toast)
    ensures x in RemoveToast(toasts, id) <==> x in toasts && x.id != id
  {
    FilterMember(toasts, (t: Toast) => t.id != id, x);
  }

  /**
   * Removal keeps the order of the remaining toasts: it works piece by piece
   * on a split list, and a single toast stays exactly when its id differs.
   */
  lemma RemoveOrder(a: seq<Toast>, b: seq<Toast>, id: string, x: Toast)
    ensures RemoveToast(a + b, id) == RemoveToast(a, id) + RemoveToast(b, id)
    ensures RemoveToast([x], id) == if x.id != id then [x] else []
  {
    FilterAppend(a, b, (t: Toast) => t.id != id);
    assert [x][1..] == [];
  }

  /** Removing an id that no toast has changes nothing. */
  lemma RemoveAbsent(toasts: seq<Toast>, id: string)
    requires !HasId(toasts, id)
    ensures RemoveToast(toasts, id) == toasts
  {
  }

  /** Removing twice is removing once, as when the timer fires after the close button. */
  lemma RemoveIdempotent(toasts: seq<Toast>, id: string)
    ensures RemoveToast(RemoveToast(toasts, id), id) == RemoveToast(toasts, id)
  {
    FilterIdempotent(toasts, (t: Toast) => t.id != id);
  }

  /**
   * When a toast's timer fires, it removes that toast and nothing else, even
   * after more toasts with other ids were added.
   */
  lemma ExpiryRemovesOnlyItself(toasts: seq<Toast>, id: string, message: string, kind: ToastKind,
                                duration: Option<int>, later: seq<Toast>)
    requires !HasId(toasts, id) && !HasId(later, id)
    ensures var added := AddToast(toasts, id, message, kind, duration);
      RemoveToast(added.toasts + later, id) == toasts + later
  {
    var toast := Toast(id, message, kind, duration.GetOr(DefaultDuration));
    FilterDropsOne(toasts, toast, later, (t: Toast) => t.id != id);
  }
}
