/** `LazyRc<T>`: a single-threaded reference-counted pointer with lazy initialisation (src/lazy_rc.rs). */
module LazyRcs {
  import opened Wrappers
  import opened Cells
  import opened Utils
  import SlotSpec

  /**
   * `E` is the error type of a failable default initialiser (`std::io::Error`
   * in the crate). The slot `inner` belongs to this pointer alone: every
   * constructor allocates a new one.
   */
  class LazyRc<T, E> {
    const inner: Cell<T>
    const defaultInit: DefaultInit<T, E>

    /** `empty()`: uninitialised, without a default initialiser. */
    constructor Empty()
      ensures fresh(inner) && inner.runs == 0
      ensures !IsInitialized() && defaultInit.None?
    {
      inner := new Cell(Option.None);
      defaultInit := DefaultInit.None;
    }

    /** `with_default_init(init)`: uninitialised, with the infallible default initialiser `init`. */
    constructor WithDefaultInit(init: () -> T)
      ensures fresh(inner) && inner.runs == 0
      ensures !IsInitialized() && defaultInit == Infailable(init)
    {
      inner := new Cell(Option.None);
      defaultInit := Infailable(init);
    }

    /** `with_failable_default_init(init)`: uninitialised, with the failable default initialiser `init`. */
    constructor WithFailableDefaultInit(init: () -> Result<T, E>)
      ensures fresh(inner) && inner.runs == 0
      ensures !IsInitialized() && defaultInit == Failable(init)
    {
      inner := new Cell(Option.None);
      defaultInit := Failable(init);
    }

    /** `From<T>`: initialised with a new handle to `value`, without a default initialiser. */
    constructor FromValue(value: T)
      ensures fresh(inner) && inner.runs == 0 && defaultInit.None?
      ensures inner.contents.Some? && fresh(inner.contents.value) && inner.contents.value.value == value
    {
      var h := new Handle(value);
      inner := new Cell(Some(h));
      defaultInit := DefaultInit.None;
    }

    /** `From<Rc<T>>`: initialised with exactly the handle `value`, without a default initialiser. */
    constructor FromRc(value: Handle<T>)
      ensures fresh(inner) && inner.runs == 0 && defaultInit.None?
      ensures inner.contents == Some(value)
    {
      inner := new Cell(Some(value));
      defaultInit := DefaultInit.None;
    }

    /** `default()`: the same as `empty()`. */
    static method Default() returns (p: LazyRc<T, E>)
      ensures fresh(p) && fresh(p.inner) && p.inner.runs == 0
      ensures !p.IsInitialized() && p.defaultInit.None?
    {
      p := new LazyRc<T, E>.Empty();
    }

    /** `From<&T>`: initialised with a new handle to a clone of `value` (a clone of a value is that value here). */
    static method FromRef(value: T) returns (p: LazyRc<T, E>)
      ensures fresh(p) && fresh(p.inner) && p.inner.runs == 0 && p.defaultInit.None?
      ensures p.inner.contents.Some? && fresh(p.inner.contents.value) && p.inner.contents.value.value == value
    {
      p := new LazyRc<T, E>.FromValue(value);
    }

    /** `From<&Rc<T>>`: initialised with a clone of the handle `value`, which is `value` itself. */
    static method FromRcRef(value: Handle<T>) returns (p: LazyRc<T, E>)
      ensures fresh(p) && fresh(p.inner) && p.inner.runs == 0 && p.defaultInit.None?
      ensures p.inner.contents == Some(value)
    {
      p := new LazyRc<T, E>.FromRc(value);
    }

    /** `is_initialized()`: whether the slot holds a value. */
    function IsInitialized(): (b: bool)
      reads inner
      ensures b <==> inner.contents != Option.None
    {
      inner.contents.Some?
    }

    /**
     * `or_init()`: get-or-init with the default initialiser, which must be the
     * infallible kind (the crate panics otherwise).
     */
    method OrInit() returns (h: Handle<T>)
      requires defaultInit.Infailable?
      modifies inner
      ensures IsInitialized()
      ensures var s := SlotSpec.Init(old(inner.contents), h);
        inner.contents == s.slot && h == s.value &&
        inner.runs == old(inner.runs) + (if s.ran then 1 else 0)
      ensures old(inner.contents).None? ==> fresh(h) && h.value == defaultInit.init()
    {
      h := Utils.OrInitWith(inner, defaultInit.init);
    }

    /**
     * `or_try_init()`: get-or-init with whatever default initialiser there is;
     * `NoDefaultInitializer` if there is none, `Failed(e)` if it fails with `e`.
     */
    method OrTryInit() returns (r: Result<Handle<T>, InitError<E>>)
      modifies inner
      ensures defaultInit.None? ==>
        r == Err(NoDefaultInitializer) &&
        inner.contents == old(inner.contents) && inner.runs == old(inner.runs)
      ensures defaultInit.Infailable? ==>
        r.Ok? &&
        (var s := SlotSpec.Init(old(inner.contents), r.value);
         inner.contents == s.slot && r.value == s.value &&
         inner.runs == old(inner.runs) + (if s.ran then 1 else 0)) &&
        (old(inner.contents).None? ==> fresh(r.value) && r.value.value == defaultInit.init())
      ensures defaultInit.Failable? && old(inner.contents).Some? ==>
        r == Ok(old(inner.contents).value) &&
        inner.contents == old(inner.contents) && inner.runs == old(inner.runs)
      ensures defaultInit.Failable? && old(inner.contents).None? ==>
        inner.runs == old(inner.runs) + 1 &&
        match defaultInit.tryInit()
        case Ok(v) => r.Ok? && fresh(r.value) && r.value.value == v && inner.contents == Some(r.value)
        case Err(e) => r == Err(Failed(e)) && inner.contents == Option.None
    {
      match defaultInit
      case Infailable(init) =>
        var h := Utils.OrInitWith(inner, init);
        r := Ok(h);
      case Failable(tryInit) =>
        var res := Utils.OrTryInitWith(inner, tryInit);
        match res {
          case Ok(value) => r := Ok(value);
          case Err(error) => r := Err(Failed(error));
        }
      case None =>
        r := Err(NoDefaultInitializer);
    }

    /** `or_init_with(init_fn)`: get-or-init with `initFn`, which cannot fail. */
    method OrInitWith(initFn: () -> T) returns (h: Handle<T>)
      modifies inner
      ensures IsInitialized()
      ensures var s := SlotSpec.Init(old(inner.contents), h);
        inner.contents == s.slot && h == s.value &&
        inner.runs == old(inner.runs) + (if s.ran then 1 else 0)
      ensures old(inner.contents).None? ==> fresh(h) && h.value == initFn()
    {
      h := Utils.OrInitWith(inner, initFn);
    }

    /** `or_try_init_with(init_fn)`: get-or-try-init with `initFn`, whose error is passed through. */
    method OrTryInitWith<E2>(initFn: () -> Result<T, E2>) returns (r: Result<Handle<T>, E2>)
      modifies inner
      ensures var s := SlotSpec.TryInit(old(inner.contents), r);
        inner.contents == s.slot && r == s.result &&
        inner.runs == old(inner.runs) + (if s.ran then 1 else 0)
      ensures old(inner.contents).None? ==> Wraps(initFn(), r) && (r.Ok? ==> fresh(r.value))
    {
      r := Utils.OrTryInitWith(inner, initFn);
    }

    /** `unwrap()`: another name for `or_init()`. */
    method Unwrap() returns (h: Handle<T>)
      requires defaultInit.Infailable?
      modifies inner
      ensures IsInitialized()
      ensures var s := SlotSpec.Init(old(inner.contents), h);
        inner.contents == s.slot && h == s.value &&
        inner.runs == old(inner.runs) + (if s.ran then 1 else 0)
      ensures old(inner.contents).None? ==> fresh(h) && h.value == defaultInit.init()
    {
      h := OrInit();
    }

    /** `map(map_fn)`: `mapFn` applied to the handle if initialised, otherwise nothing. */
    function Map<U>(mapFn: Handle<T> -> U): (r: Option<U>)
      reads inner
      ensures r.Some? <==> IsInitialized()
      ensures r.Some? ==> r.value == mapFn(inner.contents.value)
    {
      match inner.contents
      case Some(existing) => Some(mapFn(existing))
      case None => Option.None
    }

    /** `value()`: the handle if initialised, otherwise nothing. */
    function Value(): (v: Option<Handle<T>>)
      reads inner
      ensures v.Some? <==> IsInitialized()
      ensures v.Some? ==> inner.contents == Some(v.value)
    {
      inner.contents
    }

    /** `take()`: hands out the slot's content and leaves the pointer uninitialised. */
    method Take() returns (r: Option<Handle<T>>)
      modifies inner
      ensures r == old(inner.contents) && !IsInitialized()
      ensures inner.runs == old(inner.runs)
    {
      r := inner.contents;
      inner.contents := Option.None;
    }

    /**
     * `clone()`: a new pointer sharing this one's handle if there is one, and
     * empty otherwise; either way without a default initialiser.
     */
    method Clone() returns (c: LazyRc<T, E>)
      ensures fresh(c) && fresh(c.inner) && c.inner.runs == 0
      ensures c.inner.contents == inner.contents && c.defaultInit.None?
    {
      if inner.contents.Some? {
        c := FromRcRef(inner.contents.value);
      } else {
        c := new LazyRc<T, E>.Empty();
      }
    }
  }

  /**
   * Initialise with `f` twice, take the value, initialise with `g`: `f` runs
   * once and both calls get its handle, `take` returns that handle, and `g`
   * then makes a new one.
   */
  method InitTwiceTakeReinit<T>(f: () -> T, g: () -> T)
    returns (first: Handle<T>, second: Handle<T>, taken: Option<Handle<T>>, third: Handle<T>, ghost runs: nat)
    ensures first == second && first.value == f()
    ensures taken == Some(first)
    ensures third != first && third.value == g()
    ensures runs == 2
  {
    var p := new LazyRc<T, ()>.Empty();
    first := p.OrInitWith(f);
    second := p.OrInitWith(g);
    taken := p.Take();
    third := p.OrInitWith(g);
    runs := p.inner.runs;
  }

  /** A clone of an uninitialised pointer is initialised independently of the original. */
  method CloneOfEmptyIsIndependent<T>(f: () -> T) returns (originalInitialized: bool, cloneInitialized: bool)
    ensures !originalInitialized && cloneInitialized
  {
    var p := new LazyRc<T, ()>.Empty();
    var c := p.Clone();
    var _ := c.OrInitWith(f);
    originalInitialized := p.IsInitialized();
    cloneInitialized := c.IsInitialized();
  }

  /** `or_try_init()` on a pointer built by `empty()` reports `NoDefaultInitializer` and runs nothing. */
  method NoDefaultInitializerReported<T, E>() returns (r: Result<Handle<T>, InitError<E>>, initialized: bool)
    ensures r == Err(NoDefaultInitializer) && !initialized
  {
    var p := new LazyRc<T, E>.Empty();
    r := p.OrTryInit();
    initialized := p.IsInitialized();
  }
}
