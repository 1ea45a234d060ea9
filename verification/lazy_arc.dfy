/** `LazyArc<T>`: the reference-counted pointer with lazy initialisation built on `Arc<T>` (src/lazy_arc.rs). */
module LazyArcs {
  import opened Wrappers
  import opened Cells
  import Shared
  import SlotSpec

  /** The slot `inner` belongs to this pointer alone: every constructor allocates a new one. */
  class LazyArc<T> {
    const inner: Cell<T>

    /** `empty()`: uninitialised. */
    constructor Empty()
      ensures fresh(inner) && inner.runs == 0 && inner.contents == None
    {
      inner := new Cell(None);
    }

    /** `from_value(value)`: initialised with a new handle to `value`. */
    constructor FromValue(value: T)
      ensures fresh(inner) && inner.runs == 0
      ensures inner.contents.Some? && fresh(inner.contents.value) && inner.contents.value.value == value
    {
      var h := new Handle(value);
      inner := new Cell(Some(h));
    }

    /** `from_pointer(pointer)`: initialised with exactly the handle `pointer`. */
    constructor FromPointer(pointer: Handle<T>)
      ensures fresh(inner) && inner.runs == 0
      ensures inner.contents == Some(pointer)
    {
      inner := new Cell(Some(pointer));
    }

    /**
     * `or_init_with(init_fn)`: get-or-try-init with the constructor that wraps
     * `initFn` in `Ok` and has the unit error type, whose result is then
     * unwrapped; the unwrap cannot fail.
     */
    method OrInitWith(initFn: () -> T) returns (h: Handle<T>)
      modifies inner
      ensures inner.contents == Some(h)
      ensures var s := SlotSpec.Init(old(inner.contents), h);
        inner.contents == s.slot && h == s.value &&
        inner.runs == old(inner.runs) + (if s.ran then 1 else 0)
      ensures old(inner.contents).None? ==> fresh(h) && h.value == initFn()
    {
      var r := OrTryInitWith<()>(() => Ok(initFn()));
      h := r.value;
    }

    /** `or_try_init_with(init_fn)`: get-or-try-init with `initFn`, whose error is passed through. */
    method OrTryInitWith<E>(initFn: () -> Result<T, E>) returns (r: Result<Handle<T>, E>)
      modifies inner
      ensures var s := SlotSpec.TryInit(old(inner.contents), r);
        inner.contents == s.slot && r == s.result &&
        inner.runs == old(inner.runs) + (if s.ran then 1 else 0)
      ensures old(inner.contents).None? ==> Wraps(initFn(), r) && (r.Ok? ==> fresh(r.value))
    {
      r := Shared.OrInitWith(inner, initFn);
    }

    /** `map(map_fn)`: `mapFn` applied to the handle if initialised, otherwise nothing. */
    function Map<U>(mapFn: Handle<T> -> U): (r: Option<U>)
      reads inner
      ensures r.Some? <==> inner.contents.Some?
      ensures r.Some? ==> r.value == mapFn(inner.contents.value)
    {
      match inner.contents
      case Some(existing) => Some(mapFn(existing))
      case None => None
    }

    /** `value()`: the handle if initialised, otherwise nothing. */
    function Value(): (v: Option<Handle<T>>)
      reads inner
      ensures v.Some? <==> inner.contents.Some?
      ensures v.Some? ==> inner.contents == Some(v.value)
    {
      inner.contents
    }

    /** `take()`: hands out the slot's content and leaves the pointer uninitialised. */
    method Take() returns (r: Option<Handle<T>>)
      modifies inner
      ensures r == old(inner.contents) && inner.contents == None
      ensures inner.runs == old(inner.runs)
    {
      r := inner.contents;
      inner.contents := None;
    }

    /** `clone()`: a new pointer sharing this one's handle if there is one, and empty otherwise. */
    method Clone() returns (c: LazyArc<T>)
      ensures fresh(c) && fresh(c.inner) && c.inner.runs == 0
      ensures c.inner.contents == inner.contents
    {
      if inner.contents.Some? {
        c := new LazyArc<T>.FromPointer(inner.contents.value);
      } else {
        c := new LazyArc<T>.Empty();
      }
    }
  }

  /** Once a pointer is initialised, its clones hand out the very same handle. */
  method CloneSharesHandle<T>(value: T) returns (original: Option<Handle<T>>, cloned: Option<Handle<T>>)
    ensures original.Some? && original == cloned && original.value.value == value
  {
    var p := new LazyArc<T>.FromValue(value);
    var c := p.Clone();
    original := p.Value();
    cloned := c.Value();
  }

  /**
   * A failing constructor leaves the pointer empty and its error is passed
   * through; a later call with a succeeding constructor initialises it, and a
   * third call runs nothing and returns the same handle.
   */
  method RetryAfterFailure<T, E>(error: E, f: () -> T, g: () -> T)
    returns (failed: Result<Handle<T>, E>, emptyAfterFailure: bool, second: Handle<T>, third: Handle<T>, ghost runs: nat)
    ensures failed == Err(error) && emptyAfterFailure
    ensures second == third && second.value == f()
    ensures runs == 2
  {
    var p := new LazyArc<T>.Empty();
    failed := p.OrTryInitWith(() => Err(error));
    emptyAfterFailure := p.Value() == None;
    second := p.OrInitWith(f);
    third := p.OrInitWith(g);
    runs := p.inner.runs;
  }
}
