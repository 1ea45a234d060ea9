/**
 * The lazy slot as a state machine on values. A slot is `None` (uninitialised)
 * or `Some(h)` (initialised with the handle `h`). A constructor is represented
 * by the outcome it returns when it is run, so that whether it ran at all is
 * part of each step's result.
 */
module SlotSpec {
  import opened Wrappers

  /** What one get-or-init call does: the slot afterwards, what it returned, and whether the constructor ran. */
  datatype Step<H, E> = Step(slot: Option<H>, result: Result<H, E>, ran: bool)

  /** The same for the infallible variant, which always returns a value. */
  datatype InitStep<H> = InitStep(slot: Option<H>, value: H, ran: bool)

  /**
   * Get-or-try-init (`or_try_init_with` in src/utils.rs, `or_init_with` in
   * src/shared.rs); `made` is what the constructor returns if it is run.
   */
  function TryInit<H, E>(slot: Option<H>, made: Result<H, E>): (s: Step<H, E>)
    // the constructor runs exactly when the slot is empty
    ensures s.ran <==> slot.None?
    // a full slot is handed out as it is and stays as it is
    ensures slot.Some? ==> s.slot == slot && s.result == Ok(slot.value)
    // on an empty slot the caller gets the constructor's outcome, errors unchanged
    ensures slot.None? ==> s.result == made
    // a success leaves the slot holding what was returned; a failure leaves it empty
    ensures s.result.Ok? ==> s.slot == Some(s.result.value)
    ensures s.result.Err? ==> s.slot.None?
  {
    match slot
    case Some(existing) => Step(slot, Ok(existing), false)
    case None =>
      match made
      case Ok(value) => Step(Some(value), Ok(value), true)
      case Err(error) => Step(None, Err(error), true)
  }

  /** Get-or-init with a constructor that cannot fail (`or_init_with` in src/utils.rs). */
  function Init<H>(slot: Option<H>, made: H): (s: InitStep<H>)
    // afterwards the slot is always initialised, and holds what was returned
    ensures s.slot == Some(s.value)
    ensures s.ran <==> slot.None?
    ensures slot.Some? ==> s.value == slot.value
    ensures slot.None? ==> s.value == made
  {
    match slot
    case Some(existing) => InitStep(slot, existing, false)
    case None => InitStep(Some(made), made, true)
  }

  /** Infallible initialisation is fallible initialisation whose constructor always succeeds. */
  lemma InitIsTryInitOk<H, E>(slot: Option<H>, made: H)
    ensures var s := TryInit<H, E>(slot, Ok(made));
      s.result.Ok? && Init(slot, made) == InitStep(s.slot, s.result.value, s.ran)
  {
  }

  /** A second call after a successful one returns the same value, leaves the slot alone and runs nothing. */
  lemma TryInitIdempotent<H, E>(slot: Option<H>, first: Result<H, E>, second: Result<H, E>)
    requires TryInit(slot, first).result.Ok?
    ensures var s1 := TryInit(slot, first);
      TryInit(s1.slot, second) == Step(s1.slot, s1.result, false)
  {
  }

  /** The same for the infallible variant: it always succeeds, so a second call never runs its constructor. */
  lemma InitIdempotent<H>(slot: Option<H>, first: H, second: H)
    ensures var s1 := Init(slot, first);
      Init(s1.slot, second) == InitStep(s1.slot, s1.value, false)
  {
  }

  /** A call on a lazy pointer: get-or-try-init with a given constructor outcome, or `take`. */
  datatype Op<H, E> = TryInitOp(made: Result<H, E>) | TakeOp

  /** What a call returned. */
  datatype Reply<H, E> = Returned(result: Result<H, E>) | Taken(taken: Option<H>)

  /** The end state after a sequence of calls, their replies, and how many constructors ran. */
  datatype Trace<H, E> = Trace(slot: Option<H>, replies: seq<Reply<H, E>>, runs: nat)

  /** Runs `ops` one after the other on `slot`. */
  function Exec<H, E>(slot: Option<H>, ops: seq<Op<H, E>>): (t: Trace<H, E>)
    ensures |t.replies| == |ops|
    // each call runs at most one constructor, and `take` runs none
    ensures t.runs <= |ops|
    ensures forall i :: 0 <= i < |ops| ==> (t.replies[i].Taken? <==> ops[i].TakeOp?)
    decreases |ops|
  {
    if ops == [] then Trace(slot, [], 0)
    else
      match ops[0]
      case TakeOp =>
        var rest := Exec(None, ops[1..]);
        Trace(rest.slot, [Taken(slot)] + rest.replies, rest.runs)
      case TryInitOp(made) =>
        var s := TryInit(slot, made);
        var rest := Exec(s.slot, ops[1..]);
        Trace(rest.slot, [Returned(s.result)] + rest.replies, rest.runs + if s.ran then 1 else 0)
  }

  /** Running two sequences of calls one after the other is running their concatenation. */
  lemma {:induction false} ExecAppend<H, E>(slot: Option<H>, xs: seq<Op<H, E>>, ys: seq<Op<H, E>>)
    ensures var a := Exec(slot, xs); var b := Exec(a.slot, ys);
      Exec(slot, xs + ys) == Trace(b.slot, a.replies + b.replies, a.runs + b.runs)
    decreases |xs|
  {
    if xs == [] {
      assert xs + ys == ys;
    } else {
      var zs := xs + ys;
      assert zs[0] == xs[0];
      assert zs[1..] == xs[1..] + ys;
      var next := match xs[0] case TakeOp => None case TryInitOp(made) => TryInit(slot, made).slot;
      ExecAppend(next, xs[1..], ys);
      var a' := Exec(next, xs[1..]);
      var b := Exec(a'.slot, ys);
      var r := match xs[0] case TakeOp => Taken(slot) case TryInitOp(made) => Returned(TryInit(slot, made).result);
      assert ([r] + a'.replies) + b.replies == [r] + (a'.replies + b.replies);
    }
  }

  /** No call in `ops` is a `take`. */
  ghost predicate TakeFree<H, E>(ops: seq<Op<H, E>>) {
    forall i :: 0 <= i < |ops| ==> ops[i].TryInitOp?
  }

  /** The value of the first successful constructor outcome among `ops`, if there is one. */
  function FirstSuccess<H, E>(ops: seq<Op<H, E>>): Option<H>
    requires TakeFree(ops)
  {
    if ops == [] then None
    else if ops[0].made.Ok? then Some(ops[0].made.value)
    else FirstSuccess(ops[1..])
  }

  /** How many of `ops` come before the first successful one, that one included. */
  function AttemptsUntilSuccess<H, E>(ops: seq<Op<H, E>>): nat
    requires TakeFree(ops)
  {
    if ops == [] then 0
    else if ops[0].made.Ok? then 1
    else 1 + AttemptsUntilSuccess(ops[1..])
  }

  /**
   * Once initialised, a slot stays initialised with the same handle until it
   * is taken: every further call returns that handle and runs no constructor.
   */
  lemma {:induction false} InitializedIsStable<H, E>(x: H, ops: seq<Op<H, E>>)
    requires TakeFree(ops)
    ensures var t := Exec(Some(x), ops);
      t.slot == Some(x) && t.runs == 0 &&
      forall i :: 0 <= i < |ops| ==> t.replies[i] == Returned(Ok(x))
    decreases |ops|
  {
    if ops != [] {
      assert TakeFree(ops[1..]) by {
        forall i | 0 <= i < |ops[1..]| ensures ops[1..][i].TryInitOp? {
          assert ops[1..][i] == ops[i + 1];
        }
      }
      InitializedIsStable(x, ops[1..]);
    }
  }

  /**
   * Without `take`, the call at index `i` on an initially empty slot gets its
   * own constructor's outcome if it comes before the first success or is that
   * one, and the value of the first success if it comes after it.
   */
  lemma {:induction false} ReplyAroundFirstSuccess<H, E>(ops: seq<Op<H, E>>, i: nat)
    requires TakeFree(ops) && i < |ops|
    ensures i < AttemptsUntilSuccess(ops) ==> Exec(None, ops).replies[i] == Returned(ops[i].made)
    ensures AttemptsUntilSuccess(ops) <= i ==>
      FirstSuccess(ops).Some? && Exec(None, ops).replies[i] == Returned(Ok(FirstSuccess(ops).value))
    decreases |ops|
  {
    var tail := ops[1..];
    assert TakeFree(tail) by {
      forall j | 0 <= j < |tail| ensures tail[j].TryInitOp? {
        assert tail[j] == ops[j + 1];
      }
    }
    var s := TryInit(None, ops[0].made);
    var rest := Exec(s.slot, tail);
    assert Exec(None, ops).replies == [Returned(ops[0].made)] + rest.replies;
    if i > 0 {
      assert Exec(None, ops).replies[i] == rest.replies[i - 1];
      assert tail[i - 1] == ops[i];
      if ops[0].made.Ok? {
        InitializedIsStable(ops[0].made.value, tail);
      } else {
        ReplyAroundFirstSuccess(tail, i - 1);
      }
    }
  }

  /**
   * Without `take`, an empty slot ends up holding the value of the first
   * constructor that succeeds, and constructors run for every call up to and
   * including that one and for none after it. Each call up to that one gets
   * its own constructor's outcome (every failure its own error); each call
   * after it gets the stored value.
   */
  lemma {:induction false} FirstSuccessIsKept<H, E>(ops: seq<Op<H, E>>)
    requires TakeFree(ops)
    ensures Exec(None, ops).slot == FirstSuccess(ops)
    ensures Exec(None, ops).runs == AttemptsUntilSuccess(ops)
    ensures forall i :: 0 <= i < |ops| && i < AttemptsUntilSuccess(ops) ==>
      Exec(None, ops).replies[i] == Returned(ops[i].made)
    ensures AttemptsUntilSuccess(ops) < |ops| ==> FirstSuccess(ops).Some?
    ensures forall i :: AttemptsUntilSuccess(ops) <= i < |ops| ==>
      Exec(None, ops).replies[i] == Returned(Ok(FirstSuccess(ops).value))
    decreases |ops|
  {
    if ops != [] {
      assert TakeFree(ops[1..]) by {
        forall i | 0 <= i < |ops[1..]| ensures ops[1..][i].TryInitOp? {
          assert ops[1..][i] == ops[i + 1];
        }
      }
      if ops[0].made.Ok? {
        InitializedIsStable(ops[0].made.value, ops[1..]);
      } else {
        FirstSuccessIsKept(ops[1..]);
      }
    }
    forall i | 0 <= i < |ops| && i < AttemptsUntilSuccess(ops)
      ensures Exec(None, ops).replies[i] == Returned(ops[i].made)
    {
      ReplyAroundFirstSuccess(ops, i);
    }
    if AttemptsUntilSuccess(ops) < |ops| {
      ReplyAroundFirstSuccess(ops, AttemptsUntilSuccess(ops));
    }
    forall i | AttemptsUntilSuccess(ops) <= i < |ops|
      ensures Exec(None, ops).replies[i] == Returned(Ok(FirstSuccess(ops).value))
    {
      ReplyAroundFirstSuccess(ops, i);
    }
  }

  /**
   * Calling the initialiser N >= 1 times with constructors that all succeed
   * runs exactly one constructor, the first, and every call returns its value.
   */
  lemma RepeatedSuccessRunsOnce<H, E>(ops: seq<Op<H, E>>)
    requires |ops| > 0
    requires forall i :: 0 <= i < |ops| ==> ops[i].TryInitOp? && ops[i].made.Ok?
    ensures var t := Exec(None, ops); var v := ops[0].made.value;
      t.slot == Some(v) && t.runs == 1 &&
      forall i :: 0 <= i < |ops| ==> t.replies[i] == Returned(Ok(v))
  {
    assert TakeFree(ops[1..]) by {
      forall i | 0 <= i < |ops[1..]| ensures ops[1..][i].TryInitOp? {
        assert ops[1..][i] == ops[i + 1];
      }
    }
    InitializedIsStable(ops[0].made.value, ops[1..]);
  }

  /** Failed attempts leave the slot empty, each runs its constructor, and each error is passed through unchanged. */
  lemma {:induction false} FailuresLeaveSlotEmpty<H, E>(ops: seq<Op<H, E>>)
    requires forall i :: 0 <= i < |ops| ==> ops[i].TryInitOp? && ops[i].made.Err?
    ensures var t := Exec(None, ops);
      t.slot.None? && t.runs == |ops| &&
      forall i :: 0 <= i < |ops| ==> t.replies[i] == Returned(ops[i].made)
    decreases |ops|
  {
    if ops != [] {
      FailuresLeaveSlotEmpty(ops[1..]);
    }
  }

  /** A failure leaves the slot retryable: what follows it behaves exactly as if it had not happened. */
  lemma RetryAfterFailure<H, E>(error: E, ops: seq<Op<H, E>>)
    ensures var t := Exec(None, [TryInitOp(Err(error))] + ops); var u := Exec(None, ops);
      t == Trace(u.slot, [Returned(Err(error))] + u.replies, u.runs + 1)
  {
  }

  /** `take` hands out the slot's content, and what follows it starts from an empty slot. */
  lemma TakeResets<H, E>(slot: Option<H>, ops: seq<Op<H, E>>)
    ensures var t := Exec(slot, [TakeOp] + ops); var u := Exec(None, ops);
      t == Trace(u.slot, [Taken(slot)] + u.replies, u.runs)
  {
  }

  /**
   * Initialise three times (only the first constructor runs, every call gets
   * its value), take that value, then initialise again with a new constructor.
   */
  lemma InitTakeReinit<H, E>(a1: H, a2: H, a3: H, b: H)
    ensures Exec<H, E>(None, [TryInitOp(Ok(a1)), TryInitOp(Ok(a2)), TryInitOp(Ok(a3)), TakeOp, TryInitOp(Ok(b))])
      == Trace(Some(b), [Returned(Ok(a1)), Returned(Ok(a1)), Returned(Ok(a1)), Taken(Some(a1)), Returned(Ok(b))], 2)
  {
    var inits: seq<Op<H, E>> := [TryInitOp(Ok(a1)), TryInitOp(Ok(a2)), TryInitOp(Ok(a3))];
    var rest: seq<Op<H, E>> := [TakeOp, TryInitOp(Ok(b))];
    assert inits + rest == [TryInitOp(Ok(a1)), TryInitOp(Ok(a2)), TryInitOp(Ok(a3)), TakeOp, TryInitOp(Ok(b))];
    RepeatedSuccessRunsOnce(inits);
    ExecAppend(None, inits, rest);
    TakeResets<H, E>(Some(a1), [TryInitOp(Ok(b))]);
  }
}
