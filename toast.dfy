/**
 * The toast queue of lib/toast.tsx: `addToast` appends a toast with a fresh
 * identifier, `removeToast` drops every toast carrying an identifier, and
 * `success`, `error` and `info` add a toast of that kind. The identifier
 * (drawn from `Math.random` in the source) is a parameter, and the
 * five-second auto-dismiss timer is an explicit `RemoveToast` call.
 */
module Toast {
  import opened Wrappers
  import Lists

  datatype Kind = Success | Error | Info

  datatype Toast = Toast(id: string, message: string, kind: Kind)

  /** `prev.filter(t => t.id !== id)`. */
  function WithoutId(toasts: seq<Toast>, id: string): seq<Toast>
  {
    Lists.Filter((t: Toast) => t.id != id, toasts)
  }

  /** No toast with the identifier remains, every other toast keeps its
      multiplicity, and the survivors keep their order. */
  lemma WithoutIdRemovesExactly(toasts: seq<Toast>, id: string)
    ensures forall i | 0 <= i < |WithoutId(toasts, id)| :: WithoutId(toasts, id)[i].id != id
    ensures forall t: Toast :: (multiset(WithoutId(toasts, id))[t]
                             == if t.id != id then multiset(toasts)[t] else 0)
    ensures Lists.IsSubsequence(WithoutId(toasts, id), toasts)
  {
    forall t: Toast
      ensures multiset(WithoutId(toasts, id))[t] == if t.id != id then multiset(toasts)[t] else 0
    {
      Lists.FilterCount((t: Toast) => t.id != id, toasts, t);
    }
    Lists.FilterIsSubsequence((t: Toast) => t.id != id, toasts);
  }

  /** Removing an identifier that no toast carries leaves the queue as it is. */
  lemma WithoutAbsentId(toasts: seq<Toast>, id: string)
    requires forall i | 0 <= i < |toasts| :: toasts[i].id != id
    ensures WithoutId(toasts, id) == toasts
  {
    Lists.FilterAllPass((t: Toast) => t.id != id, toasts);
  }

  class ToastQueue {
    var toasts: seq<Toast>

    constructor ()
      ensures toasts == []
    {
      toasts := [];
    }

    /** `addToast(message, type = "info")`. */
    method AddToast(message: string, kind: Option<Kind>, id: string)
      modifies this
      ensures toasts == old(toasts) + [Toast(id, message, kind.GetOr(Kind.Info))]
    {
      toasts := toasts + [Toast(id, message, kind.GetOr(Kind.Info))];
    }

    /** `removeToast(id)`. */
    method RemoveToast(id: string)
      modifies this
      ensures toasts == WithoutId(old(toasts), id)
    {
      toasts := WithoutId(toasts, id);
    }

    /** `success(msg)`. */
    method Success(message: string, id: string)
      modifies this
      ensures toasts == old(toasts) + [Toast(id, message, Kind.Success)]
    {
      AddToast(message, Some(Kind.Success), id);
    }

    /** `error(msg)`. */
    method Error(message: string, id: string)
      modifies this
      ensures toasts == old(toasts) + [Toast(id, message, Kind.Error)]
    {
      AddToast(message, Some(Kind.Error), id);
    }

    /** `info(msg)`. */
    method Info(message: string, id: string)
      modifies this
      ensures toasts == old(toasts) + [Toast(id, message, Kind.Info)]
    {
      AddToast(message, Some(Kind.Info), id);
    }
  }
}
