/** The slot-update primitive of src/shared.rs, used by `LazyArc`. */
module Shared {
  import opened Wrappers
  import opened Cells
  import SlotSpec

  /**
   * Returns the handle in `inner`, or, if `inner` is empty, runs `initFn`
   * once: its value is stored behind a new handle and returned, its error is
   * returned unchanged and `inner` is left empty. Its contract is that of
   * `Utils.OrTryInitWith`.
   */
  method OrInitWith<T, E>(inner: Cell<T>, initFn: () -> Result<T, E>) returns (r: Result<Handle<T>, E>)
    modifies inner
    ensures var s := SlotSpec.TryInit(old(inner.contents), r);
      inner.contents == s.slot && r == s.result &&
      inner.runs == old(inner.runs) + (if s.ran then 1 else 0)
    ensures old(inner.contents).None? ==> Wraps(initFn(), r) && (r.Ok? ==> fresh(r.value))
  {
    match inner.contents
    case Some(existing) =>
      r := Ok(existing);
    case None =>
      inner.runs := inner.runs + 1;
      match initFn()
      case Ok(value) =>
        var h := new Handle(value);
        inner.contents := Some(h);
        r := Ok(h);
      case Err(error) =>
        r := Err(error);
  }
}
