/**
 * The standard-library objects the lazy pointers are built from: the shared
 * handle (`Rc<T>` or `Arc<T>`) and the `RefCell<Option<..>>` slot that holds it.
 */
module Cells {
  import opened Wrappers

  /**
   * A reference-counted pointer, `Rc<T>` or `Arc<T>`. Two handles denote the
   * same allocation exactly when they are the same reference; cloning a handle
   * yields the same reference, and the value it points to never changes.
   */
  class Handle<T> {
    const value: T

    /** `Rc::new(value)` / `Arc::new(value)`: a new allocation holding `value`. */
    constructor (value: T)
      ensures this.value == value
    {
      this.value := value;
    }
  }

  /**
   * The `RefCell<Option<Rc<T>>>` inside a lazy pointer. `runs` counts how many
   * times a constructor has been invoked to fill it.
   */
  class Cell<T> {
    var contents: Option<Handle<T>>
    ghost var runs: nat

    constructor (contents: Option<Handle<T>>)
      ensures this.contents == contents && runs == 0
    {
      this.contents := contents;
      runs := 0;
    }
  }

  /**
   * `r` is what `init_fn().map(Rc::new)` returns when `init_fn()` returns
   * `out`: a handle to its value, or its error unchanged.
   */
  ghost predicate Wraps<T, E>(out: Result<T, E>, r: Result<Handle<T>, E>) {
    match out
    case Ok(v) => r.Ok? && r.value.value == v
    case Err(e) => r == Err(e)
  }
}
