/** The slot-update primitives and the small sum types of src/utils.rs. */
module Utils {
  import opened Wrappers
  import opened Cells
  import SlotSpec

  /** The default initialiser a `LazyRc` may carry: none, one that cannot fail, or one that can. */
  datatype DefaultInit<T, E> =
    | None
    | Infailable(init: () -> T)
    | Failable(tryInit: () -> Result<T, E>)

  /** Why `or_try_init` produced no value: there is no default initialiser, or it failed with `error`. */
  datatype InitError<E> = NoDefaultInitializer | Failed(error: E)

  /**
   * Returns the handle in `inner`, or, if `inner` is empty, runs `initFn`
   * once, stores a new handle to its value and returns that handle.
   */
  method OrInitWith<T>(inner: Cell<T>, initFn: () -> T) returns (h: Handle<T>)
    modifies inner
    // the slot moves as `Init` says, `h` being the handle made if the constructor runs
    ensures var s := SlotSpec.Init(old(inner.contents), h);
      inner.contents == s.slot && h == s.value &&
      inner.runs == old(inner.runs) + (if s.ran then 1 else 0)
    // a constructor that runs yields a new allocation holding its value
    ensures old(inner.contents).None? ==> fresh(h) && h.value == initFn()
  {
    match inner.contents
    case Some(existing) =>
      h := existing;
    case None =>
      inner.runs := inner.runs + 1;
      h := new Handle(initFn());
      inner.contents := Some(h);
  }

  /**
   * Returns the handle in `inner`, or, if `inner` is empty, runs `initFn`
   * once: its value is stored behind a new handle and returned, its error is
   * returned unchanged and `inner` is left empty.
   */
  method OrTryInitWith<T, E>(inner: Cell<T>, initFn: () -> Result<T, E>) returns (r: Result<Handle<T>, E>)
    modifies inner
    // the slot moves as `TryInit` says, `r` being the constructor's outcome if it runs
    ensures var s := SlotSpec.TryInit(old(inner.contents), r);
      inner.contents == s.slot && r == s.result &&
      inner.runs == old(inner.runs) + (if s.ran then 1 else 0)
    // a constructor that runs yields a new allocation holding its value, or its error
    ensures old(inner.contents).None? ==> Wraps(initFn(), r) && (r.Ok? ==> fresh(r.value))
  {
    match inner.contents
    case Some(existing) =>
      r := Ok(existing);
    case None =>
      inner.runs := inner.runs + 1;
      match initFn()
      case Ok(value) =>
        var h := new Handle(value);
        inner.contents := Some(h);
        r := Ok(h);
      case Err(error) =>
        r := Err(error);
  }
}
