# lazy_rc in Dafny

A model of the `lazy_rc` crate: `LazyRc<T>` and `LazyArc<T>`, reference-counted
pointers whose value is built on first access and then shared by every caller
and every clone. Both keep an `Option` slot that is either empty
(uninitialised) or holds one shared handle. Get-or-init fills an empty slot by
running a constructor once and then hands out the same handle on every later
call. A failing constructor leaves the slot empty and retryable. `take`
empties the slot, and the read-only queries never change it.

Layout, one module per file:

- `wrappers.dfy` (`Wrappers`): Rust's `Option` and `Result`.
- `slot_spec.dfy` (`SlotSpec`): the slot as a state machine on values.
  `TryInit` and `Init` are one get-or-init call each. The constructor is given
  by the outcome it returns if run, and each step records whether it ran.
  `Exec` runs a sequence of calls and `take`s. The lemmas cover idempotence,
  retry after failure, stability until `take`, and which constructor's value
  ends up stored.
- `cells.dfy` (`Cells`): `Handle<T>` stands for `Rc<T>`/`Arc<T>`, with
  identity as reference equality and an immutable pointee. `Cell<T>` stands
  for the `RefCell<Option<Rc<T>>>` slot. Its ghost counter `runs` counts
  constructor invocations.
- `utils.dfy` (`Utils`): `DefaultInit`, `InitError` and the two slot
  primitives of src/utils.rs.
- `shared.dfy` (`Shared`): the primitive of src/shared.rs used by `LazyArc`.
- `lazy_rc.dfy` (`LazyRcs`): class `LazyRc<T, E>`. `E` is the error type of a
  failable default initialiser, which the crate fixes to `std::io::Error`.
- `lazy_arc.dfy` (`LazyArcs`): class `LazyArc<T>`.

Each primitive and each initialising method states its effect through
`SlotSpec.TryInit` or `SlotSpec.Init`, with one exception.
`LazyRcs.LazyRc.OrTryInit` states its no-initialiser and `Failable`
branches directly, because its errors are wrapped in `InitError`. It also says that a constructor that
runs yields a new allocation (`fresh`) holding its value, or its error
unchanged, and that `runs` grows by one exactly when the slot was empty.

Facts of the source that shape the model:

- `LazyArc` keeps its slot in a `RefCell` (src/lazy_arc.rs:14). It is
  therefore the same sequential state machine as `LazyRc`.
- `LazyArc` has a single field, the slot (src/lazy_arc.rs:13-15). It carries
  no default initialiser and offers no `is_initialized`.
- `LazyArc` is built by `empty`, `from_value` and `from_pointer`
  (src/lazy_arc.rs:20-39) and has no `From` conversions.
- src/lazy_arc.rs:8 imports `crate::shared::or_init_with`, and src/lib.rs
  declares no `shared` module (src/lib.rs:60-63). `shared::or_init_with`
  (src/shared.rs:7-19) is modelled as `LazyArc`'s primitive.

## Model

| member | source | states |
|---|---|---|
| `SlotSpec.TryInit` | src/utils.rs:42-57 | The constructor runs iff the slot is empty. A full slot is returned as `Ok` and left unchanged. On an empty slot the caller gets the constructor's outcome, with errors unchanged. Success leaves the slot holding the returned value; failure leaves it empty. |
| `SlotSpec.Init` | src/utils.rs:31-40 | Afterwards the slot is always `Some` of the returned value. The constructor runs iff the slot was empty. A full slot's value is returned. |
| `SlotSpec.InitIsTryInitOk` | src/lazy_arc.rs:48-53 | Infallible init equals fallible init whose constructor returns `Ok`. It always succeeds with the same slot, value and ran flag. |
| `SlotSpec.TryInitIdempotent` | src/utils.rs:50-53 | After a successful call, a second call returns the same value. It leaves the slot alone and runs no constructor. |
| `SlotSpec.InitIdempotent` | src/utils.rs:36-38 | A second infallible call returns the first call's value and runs no constructor. |
| `SlotSpec.Exec` | src/lazy_rc.rs:114-174 | Running calls in sequence gives one reply per call and at most `|ops|` constructor runs in all. The reply is `Taken` exactly for `take` calls. |
| `SlotSpec.ExecAppend` | src/lazy_rc.rs:114-174 | Running two call sequences one after the other equals running their concatenation: replies are appended and runs are added. |
| `SlotSpec.InitializedIsStable` | src/lazy_rc.rs:121-135 | An initialised slot keeps its handle under any `take`-free calls. Every call returns that handle and no constructor runs. |
| `SlotSpec.FirstSuccessIsKept` | src/lazy_rc.rs:121-135 | Without `take`, an empty slot ends up holding the first successful constructor's value, or stays empty if none succeeds. Constructors run for every call up to and including that one, and never after. Each call up to that one returns its own constructor's outcome, so each failure returns its own error; each later call returns the stored value. |
| `SlotSpec.ReplyAroundFirstSuccess` | src/lazy_rc.rs:121-135 | Without `take`, on an initially empty slot, call `i` returns its own constructor's outcome if it comes before or at the first success, and the first success's value if it comes after it. |
| `SlotSpec.RepeatedSuccessRunsOnce` | src/lazy_rc.rs:107-119 | N >= 1 calls whose constructors all succeed run exactly one constructor, the first. Every call returns its value. |
| `SlotSpec.FailuresLeaveSlotEmpty` | src/utils.rs:52-54 | Failed attempts leave the slot empty. Each attempt runs its constructor, and each error is returned unchanged. |
| `SlotSpec.RetryAfterFailure` | src/lazy_arc.rs:55-69 | After a failure, the following calls behave exactly as on a fresh empty slot. The failure adds one run and its own error reply. |
| `SlotSpec.TakeResets` | src/lazy_rc.rs:165-174 | `take` replies with the slot's previous content, and the calls after it start from an empty slot. |
| `SlotSpec.InitTakeReinit` | src/lazy_rc.rs:107-174 | Three inits, then `take`, then init: the first three replies are the first value and `take` returns it. The last init stores and returns the new value. Exactly two constructors run. |
| `Utils.OrInitWith` | src/utils.rs:31-40 | The slot moves as `Init` says, and `runs` grows by one iff the slot was empty. A run yields a fresh handle to `init_fn()`'s value. |
| `Utils.OrTryInitWith` | src/utils.rs:42-57 | The slot moves as `TryInit` says, and `runs` grows by one iff the slot was empty. A run yields a fresh handle to the value, or the error unchanged with the slot left empty. |
| `Shared.OrInitWith` | src/shared.rs:7-19 | Same contract as `Utils.OrTryInitWith`: existing handle without a run, otherwise one run that stores and returns a fresh handle or passes the error through. |
| `LazyRcs.LazyRc.Empty` | src/lazy_rc.rs:21-31 | A new private slot, uninitialised, with no default initialiser. |
| `LazyRcs.LazyRc.WithDefaultInit` | src/lazy_rc.rs:33-46 | Uninitialised, and the default initialiser is `Infailable(init)`. |
| `LazyRcs.LazyRc.WithFailableDefaultInit` | src/lazy_rc.rs:48-61 | Uninitialised, and the default initialiser is `Failable(init)`. |
| `LazyRcs.LazyRc.FromValue` | src/lazy_rc.rs:184-192 | Initialised with a fresh handle to `value`, with no default initialiser. |
| `LazyRcs.LazyRc.FromRef` | src/lazy_rc.rs:194-205 | Initialised with a fresh handle to a clone of `value`, with no default initialiser. |
| `LazyRcs.LazyRc.FromRc` | src/lazy_rc.rs:207-215 | Initialised with exactly the given handle, with no default initialiser. |
| `LazyRcs.LazyRc.FromRcRef` | src/lazy_rc.rs:217-225 | Initialised with the same handle (its clone is that reference), with no default initialiser. |
| `LazyRcs.LazyRc.Default` | src/lazy_rc.rs:177-182 | Same as `empty()`: uninitialised, with no default initialiser. |
| `LazyRcs.LazyRc.IsInitialized` | src/lazy_rc.rs:63-66 | True iff the slot holds a handle. As a function it changes nothing. |
| `LazyRcs.LazyRc.OrInit` | src/lazy_rc.rs:68-84 | Requires an `Infailable` default initialiser, where the crate panics otherwise. Moves the slot as `Init` says and leaves it initialised. |
| `LazyRcs.LazyRc.OrTryInit` | src/lazy_rc.rs:86-105 | No default initialiser gives `Err(NoDefaultInitializer)` with nothing changed or run. `Infailable` always gives `Ok` per `Init`. `Failable` on a full slot returns its handle; on an empty slot it runs once, giving a fresh stored handle or `Err(Failed(e))` with the slot left empty. |
| `LazyRcs.LazyRc.OrInitWith` | src/lazy_rc.rs:107-119 | Moves the slot as `Init` says and leaves it initialised. `init_fn` runs only on an empty slot, and then the result is a fresh handle to its value. |
| `LazyRcs.LazyRc.OrTryInitWith` | src/lazy_rc.rs:121-135 | Moves the slot as `TryInit` says. `init_fn` runs only on an empty slot. Its error passes through and leaves the slot uninitialised. |
| `LazyRcs.LazyRc.Unwrap` | src/lazy_rc.rs:137-140 | Same contract as `or_init`. |
| `LazyRcs.LazyRc.Map` | src/lazy_rc.rs:142-153 | `Some(map_fn(handle))` iff initialised, otherwise `None`. Changes nothing. |
| `LazyRcs.LazyRc.Value` | src/lazy_rc.rs:155-163 | The stored handle iff initialised, otherwise `None`. Changes nothing. |
| `LazyRcs.LazyRc.Take` | src/lazy_rc.rs:165-174 | Returns the previous content and leaves the pointer uninitialised. No constructor runs, and the default initialiser is a constant. |
| `LazyRcs.LazyRc.Clone` | src/lazy_rc.rs:227-239 | A fresh pointer with its own fresh slot, holding the same handle or nothing. It has no default initialiser. |
| `LazyRcs.InitTwiceTakeReinit` | src/lazy_rc.rs:107-174 | Two `or_init_with` calls return the same handle to `f()`, and `take` returns that handle. A later `or_init_with(g)` makes a different handle to `g()`. Exactly two constructors run. |
| `LazyRcs.CloneOfEmptyIsIndependent` | src/lazy_rc.rs:227-239 | Initialising the clone of an empty pointer leaves the original uninitialised. |
| `LazyRcs.NoDefaultInitializerReported` | src/lazy_rc.rs:86-105 | `or_try_init` on `empty()` gives `Err(NoDefaultInitializer)` and the pointer stays uninitialised. |
| `LazyArcs.LazyArc.Empty` | src/lazy_arc.rs:18-24 | A new private slot, uninitialised. |
| `LazyArcs.LazyArc.FromValue` | src/lazy_arc.rs:26-31 | Initialised with a fresh handle to `value`. |
| `LazyArcs.LazyArc.FromPointer` | src/lazy_arc.rs:33-39 | Initialised with exactly `pointer`. |
| `LazyArcs.LazyArc.OrInitWith` | src/lazy_arc.rs:41-53 | Implemented through `or_try_init_with` with an `Ok`-wrapping constructor, and it never fails. Moves the slot as `Init` says, and a run yields a fresh handle to `init_fn()`. |
| `LazyArcs.LazyArc.OrTryInitWith` | src/lazy_arc.rs:55-69 | Moves the slot as `TryInit` says. `init_fn` runs only on an empty slot. Its error passes through and leaves the slot uninitialised. |
| `LazyArcs.LazyArc.Map` | src/lazy_arc.rs:71-82 | `Some(map_fn(handle))` iff initialised, otherwise `None`. Changes nothing. |
| `LazyArcs.LazyArc.Value` | src/lazy_arc.rs:84-92 | The stored handle iff initialised, otherwise `None`. Changes nothing. |
| `LazyArcs.LazyArc.Take` | src/lazy_arc.rs:94-103 | Returns the previous content and leaves the pointer uninitialised. No constructor runs. |
| `LazyArcs.LazyArc.Clone` | src/lazy_arc.rs:106-119 | A fresh pointer with its own fresh slot, holding the same handle or nothing. |
| `LazyArcs.CloneSharesHandle` | src/lazy_arc.rs:106-119 | The clone of an initialised pointer returns the very same handle from `value()`. |
| `LazyArcs.RetryAfterFailure` | src/lazy_arc.rs:55-69 | A failing constructor's error is returned and the pointer stays empty. The next `or_init_with(f)` initialises it, and a third call returns the same handle without running. Two constructors run in all. |

`DefaultInit` (src/utils.rs:14-19) and `InitError` (src/utils.rs:21-29) are
the datatypes `Utils.DefaultInit` and `Utils.InitError`.

## Left out

- LazyRcs.LazyRc.OrInit: the panic when the default initialiser is not `Infailable` (src/lazy_rc.rs:82) becomes `requires defaultInit.Infailable?`. The panic also happens on an already initialised pointer, and the model states no behaviour for that call. The same holds for `LazyRcs.LazyRc.Unwrap`.

- Concurrency and thread safety (`Sync`, `static` placement) are not modelled. The slot of both pointers is a `RefCell`, so every operation is one sequential step.
- `RefCell` borrow panics are not modelled. Re-entrant use of a slot from inside its own constructor cannot be expressed, because constructors are pure function values.
- Reference counts and deallocation of `Rc`/`Arc` are not modelled. A handle is an object reference, and only identity and sharing are stated.
- Constructors and default initialisers are pure Dafny function values. An initialiser whose result depends on a clock, randomness or hidden state is not captured. A stored default initialiser returns the same outcome on every retry after `take` or after a failure.
- The `Rc::new` / `map(Rc::new)` wrapping that the pointers put around `init_fn` is folded into the slot primitives, which allocate the handle themselves.
- `Clone` of a `T` value (`From<&T>`) is the value itself. `LazyRcs.LazyRc.FromRef` therefore delegates to `FromValue`.
- `Shared.OrInitWith`: its agreement with `Utils.OrTryInitWith` is stated by the two having the same contract in terms of `SlotSpec.TryInit`. No lemma relates two runs on two slots.
- `Debug`/`Display` formatting (src/utils.rs:59-76, src/lazy_rc.rs:242-248) is left out as string output.
- The concrete `std::io::Error` type is an abstract type parameter.
- The crate's example programs and src/lib.rs are left out. They hold threads, sleeps, printing, module declarations and documentation only.
