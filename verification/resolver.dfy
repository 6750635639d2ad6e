/** The exact-then-fuzzy lookup the detail views share, and the terminal
    states a view can reach. */
module Resolver {
  import opened Store
  import opened Query

  /** An exception a view lets escape to the server (an error response). */
  datatype Exc = DoesNotExist | MultipleObjectsReturned

  /** What a view produces: a rendered page with its context, a 404, or
      an exception nobody caught. */
  datatype Response<C> = Render(context: C) | Http404 | Raises(exc: Exc)

  /** The object a detail view found and the `push_state_url` it set: a
      client-side address correction, `None` when the request already
      named the object exactly. */
  datatype Resolved<T> = Resolved(obj: T, pushStateUrl: Option<Url>)

  /** `get_object` of the detail views: try the precise lookup; only when
      it raises `DoesNotExist` try the fuzzy one, and when that succeeds
      push the found object's own address. A fuzzy `DoesNotExist` is a
      404; `MultipleObjectsReturned` from either step is not caught. */
  function TwoStep<T>(precise: Get<T>, fuzzy: Get<T>, url: T -> Url): (r: Response<Resolved<T>>)
    ensures (r.Render? && r.context.pushStateUrl.None?) <==> precise.One?
    ensures r.Render? && r.context.pushStateUrl.None? ==> precise == One(r.context.obj)
    ensures r.Render? && r.context.pushStateUrl.Some? ==>
              && precise.Zero?
              && fuzzy == One(r.context.obj)
              && r.context.pushStateUrl == Some(url(r.context.obj))
    ensures r == Http404 <==> precise.Zero? && fuzzy.Zero?
    ensures r.Raises? <==> precise.Multiple? || (precise.Zero? && fuzzy.Multiple?)
    ensures r.Raises? ==> r.exc == MultipleObjectsReturned
  {
    match precise
    case One(o) => Render(Resolved(o, None))
    case Multiple => Raises(MultipleObjectsReturned)
    case Zero =>
      match fuzzy
      case One(o) => Render(Resolved(o, Some(url(o))))
      case Zero => Http404
      case Multiple => Raises(MultipleObjectsReturned)
  }
}
