/** The toast queue of the React client (ToastContext.jsx).  The random id
    a toast draws and the timer that removes it are explicit: `ShowToast`
    takes the id and returns the timer it sets, and `Expire` is that timer
    firing. */
module Toasts {
  import opened Common

  datatype Toast = Toast(id: string, message: string, kind: string)

  /** A pending `setTimeout`: remove toast `id` after `delay` ms. */
  datatype Timer = Timer(id: string, delay: int)

  /** `prev.filter(t => t.id !== id)`. */
  function Without(s: seq<Toast>, id: string): (r: seq<Toast>)
    ensures |r| <= |s|
    ensures forall t :: t in r <==> t in s && t.id != id
  {
    if s == [] then []
    else if s[0].id == id then Without(s[1..], id)
    else [s[0]] + Without(s[1..], id)
  }

  /** Removing an id that no toast carries changes nothing. */
  lemma {:induction false} WithoutAbsent(s: seq<Toast>, id: string)
    requires forall i :: 0 <= i < |s| ==> s[i].id != id
    ensures Without(s, id) == s
  {
    if s != [] {
      WithoutAbsent(s[1..], id);
    }
  }

  /** Removal keeps the other toasts in their order: it distributes over
      concatenation. */
  lemma {:induction false} WithoutAppend(a: seq<Toast>, b: seq<Toast>, id: string)
    ensures Without(a + b, id) == Without(a, id) + Without(b, id)
  {
    if a == [] {
      assert a + b == b;
    } else {
      assert (a + b)[0] == a[0];
      assert (a + b)[1..] == a[1..] + b;
      WithoutAppend(a[1..], b, id);
    }
  }

  /** Removing twice is removing once. */
  lemma {:induction false} WithoutIdempotent(s: seq<Toast>, id: string)
    ensures Without(Without(s, id), id) == Without(s, id)
  {
    var r := Without(s, id);
    forall i | 0 <= i < |r|
      ensures r[i].id != id
    {
      assert r[i] in r;
    }
    WithoutAbsent(r, id);
  }

  /** `useToast`: the context, or the error it throws outside a provider. */
  function UseToast<C>(context: Option<C>): (r: Outcome<C>)
    ensures context.Some? <==> r.Ok?
    ensures r.Ok? ==> r.value == context.value
    ensures r.Failed? ==> r.message == "useToast must be used within a ToastProvider"
  {
    if context.Some? then Ok(context.value) else Failed("useToast must be used within a ToastProvider")
  }

  class Provider {
    var toasts: seq<Toast>

    constructor ()
      ensures toasts == []
    {
      toasts := [];
    }

    /** `showToast(message, type = 'info', duration = 5000)`: append one
        toast and set its timer. */
    method ShowToast(message: string, kind: Option<string>, duration: Option<int>, id: string) returns (timer: Timer)
      modifies this
      ensures toasts == old(toasts) + [Toast(id, message, if kind.Some? then kind.value else "info")]
      ensures timer == Timer(id, if duration.Some? then duration.value else 5000)
    {
      toasts := toasts + [Toast(id, message, if kind.Some? then kind.value else "info")];
      timer := Timer(id, if duration.Some? then duration.value else 5000);
    }

    /** The timer of a toast firing. */
    method Expire(timer: Timer)
      modifies this
      ensures toasts == Without(old(toasts), timer.id)
    {
      toasts := Without(toasts, timer.id);
    }

    /** The close button. */
    method RemoveToast(id: string)
      modifies this
      ensures toasts == Without(old(toasts), id)
    {
      toasts := Without(toasts, id);
    }
  }

  /** A toast shown with a fresh id, once its timer fires, leaves exactly
      the toasts there were before minus those of that id. */
  lemma ShowThenExpire(before: seq<Toast>, message: string, kind: string, id: string)
    requires forall i :: 0 <= i < |before| ==> before[i].id != id
    ensures Without(before + [Toast(id, message, kind)], id) == before
  {
    WithoutAppend(before, [Toast(id, message, kind)], id);
    WithoutAbsent(before, id);
    assert Without([Toast(id, message, kind)], id) == [];
  }
}
