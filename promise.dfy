/** `src/promise.rs`: promise combinators as routing over the outcome of the coroutine behind a
    promise's join handle.

    The scheduler is abstracted: a promise is identified with the `thread::Result` that joining
    its coroutine yields. Each combinator spawns a coroutine that first does
    `join_handle.join().unwrap()` on its predecessor (re-raising a captured panic) and then runs
    the user's closure; the spawn boundary captures any panic of that coroutine as its own
    outcome. User closures may panic, so they return a `ThreadResult`. That a closure is not
    called is stated as: the result does not depend on it. */
module Promises {
  import opened RustTypes

  /** `Promise<T, E>`: the outcome of the coroutine behind its join handle. */
  datatype Promise<T, E> = Promise(outcome: ThreadResult<Result<T, E>>)

  /** The body of a combinator's coroutine: `join().unwrap()` on the predecessor's outcome,
      then `body` on the joined value. A panic of the predecessor panics this coroutine too. */
  function JoinThen<R, S>(joined: ThreadResult<R>, body: R -> ThreadResult<S>): ThreadResult<S> {
    match joined
    case Panicked => Panicked
    case Done(r) => body(r)
  }

  /** `Promise::sync`: the caller's own fate. It gets the `Result` unchanged when the coroutine
      completed normally; a captured panic is re-raised in the caller, never turned into `Err`. */
  function Sync<T, E>(p: Promise<T, E>): (r: ThreadResult<Result<T, E>>)
    ensures r.Panicked? <==> p.outcome.Panicked?
    ensures p.outcome.Done? ==> r == Done(p.outcome.value)
  {
    JoinThen(p.outcome, (res: Result<T, E>) => Done(res))
  }

  /** `Promise::then`: `ft` on `Ok(t)`, `fe` on `Err(e)`. */
  function Then<T, E, TT, EE>(p: Promise<T, E>,
                             ft: T -> ThreadResult<Result<TT, EE>>,
                             fe: E -> ThreadResult<Result<TT, EE>>): (q: Promise<TT, EE>)
    ensures p.outcome.Panicked? ==> q.outcome.Panicked?
    ensures p.outcome.Done? && p.outcome.value.Ok? ==> q.outcome == ft(p.outcome.value.value)
    ensures p.outcome.Done? && p.outcome.value.Err? ==> q.outcome == fe(p.outcome.value.error)
  {
    Promise(JoinThen(p.outcome, (res: Result<T, E>) =>
      match res
      case Ok(t) => ft(t)
      case Err(e) => fe(e)))
  }

  /** `Promise::chain`: `f` on the whole joined `Result`, whichever variant it is. */
  function Chain<T, E, TT, EE>(p: Promise<T, E>,
                              f: Result<T, E> -> ThreadResult<Result<TT, EE>>): (q: Promise<TT, EE>)
    ensures p.outcome.Panicked? ==> q.outcome.Panicked?
    ensures p.outcome.Done? ==> q.outcome == f(p.outcome.value)
  {
    Promise(JoinThen(p.outcome, f))
  }

  /** `Promise::success`: `f` runs on `Ok(t)`; `Err(e)` passes through untouched. */
  function Success<T, E, TT>(p: Promise<T, E>, f: T -> ThreadResult<Result<TT, E>>): (q: Promise<TT, E>)
    ensures p.outcome.Panicked? ==> q.outcome.Panicked?
    ensures p.outcome.Done? && p.outcome.value.Ok? ==> q.outcome == f(p.outcome.value.value)
    ensures p.outcome.Done? && p.outcome.value.Err? ==> q.outcome == Done(Err(p.outcome.value.error))
  {
    Promise(JoinThen(p.outcome, (res: Result<T, E>) =>
      match res
      case Ok(t) => f(t)
      case Err(e) => Done(Err(e))))
  }

  /** `Promise::fail`: `f` runs on `Err(e)`; `Ok(t)` passes through untouched. */
  function Fail<T, E>(p: Promise<T, E>, f: E -> ThreadResult<Result<T, E>>): (q: Promise<T, E>)
    ensures p.outcome.Panicked? ==> q.outcome.Panicked?
    ensures p.outcome.Done? && p.outcome.value.Ok? ==> q.outcome == p.outcome
    ensures p.outcome.Done? && p.outcome.value.Err? ==> q.outcome == f(p.outcome.value.error)
  {
    Promise(JoinThen(p.outcome, (res: Result<T, E>) =>
      match res
      case Ok(t) => Done(Ok(t))
      case Err(e) => f(e)))
  }

  /** `Promise::finally`: the outcome of the coroutine that applies `f` to the joined result.
      Its handle is discarded at once, so what `f` does is all there is to observe; `U` stands for
      that effect. */
  function Finally<T, E, U>(p: Promise<T, E>, f: Result<T, E> -> ThreadResult<U>): (effect: ThreadResult<U>)
    ensures p.outcome.Panicked? ==> effect.Panicked?
    ensures p.outcome.Done? ==> effect == f(p.outcome.value)
  {
    JoinThen(p.outcome, f)
  }

  /** `Promise::finally_sync`: `f(self.sync())` in the caller's own context. */
  function FinallySync<T, E, U>(p: Promise<T, E>, f: Result<T, E> -> ThreadResult<U>): (effect: ThreadResult<U>)
    ensures p.outcome.Panicked? ==> effect.Panicked?
    ensures p.outcome.Done? ==> effect == f(p.outcome.value)
  {
    JoinThen(Sync(p), f)
  }

  /** `then` applies exactly one of its closures: on `Ok` the result does not depend on `fe`,
      on `Err` it does not depend on `ft`. */
  lemma ThenCallsOneBranch<T, E, TT, EE>(p: Promise<T, E>,
                                         ft1: T -> ThreadResult<Result<TT, EE>>,
                                         ft2: T -> ThreadResult<Result<TT, EE>>,
                                         fe1: E -> ThreadResult<Result<TT, EE>>,
                                         fe2: E -> ThreadResult<Result<TT, EE>>)
    ensures p.outcome.Done? && p.outcome.value.Ok? ==> Then(p, ft1, fe1) == Then(p, ft1, fe2)
    ensures p.outcome.Done? && p.outcome.value.Err? ==> Then(p, ft1, fe1) == Then(p, ft2, fe1)
  {
  }

  /** `success` never calls `f` on `Err`, and `fail` never calls `f` on `Ok`. */
  lemma PassThroughIgnoresClosure<T, E, TT>(p: Promise<T, E>,
                                            s1: T -> ThreadResult<Result<TT, E>>,
                                            s2: T -> ThreadResult<Result<TT, E>>,
                                            f1: E -> ThreadResult<Result<T, E>>,
                                            f2: E -> ThreadResult<Result<T, E>>)
    ensures p.outcome.Done? && p.outcome.value.Err? ==> Success(p, s1) == Success(p, s2)
    ensures p.outcome.Done? && p.outcome.value.Ok? ==> Fail(p, f1) == Fail(p, f2)
  {
  }

  /** `success(f)` is `then(f, e => Err(e))`. */
  lemma SuccessIsThen<T, E, TT>(p: Promise<T, E>, f: T -> ThreadResult<Result<TT, E>>)
    ensures Success(p, f) == Then(p, f, (e: E) => Done(Err(e)))
  {
  }

  /** `fail(f)` is `then(t => Ok(t), f)`. */
  lemma FailIsThen<T, E>(p: Promise<T, E>, f: E -> ThreadResult<Result<T, E>>)
    ensures Fail(p, f) == Then(p, (t: T) => Done(Ok(t)), f)
  {
  }

  /** `then(ft, fe)` is `chain` with a closure that matches on the result. */
  lemma ThenIsChain<T, E, TT, EE>(p: Promise<T, E>,
                                  ft: T -> ThreadResult<Result<TT, EE>>,
                                  fe: E -> ThreadResult<Result<TT, EE>>)
    ensures Then(p, ft, fe) == Chain(p, (res: Result<T, E>) => match res case Ok(t) => ft(t) case Err(e) => fe(e))
  {
  }

  /** `finally(f)` applies `f` to the same joined result as `finally_sync(f)`, with the same
      outcome. The two sides differ in whose outcome that is: for `finally` it is the outcome of
      the spawned coroutine, whose handle is thrown away, so a panic there (including one
      re-raised from a panicked predecessor) does not reach the caller when the dropped handle
      only waits; for `finally_sync` it is the caller's own, so the caller panics. */
  lemma FinallyAgreesWithFinallySync<T, E, U>(p: Promise<T, E>, f: Result<T, E> -> ThreadResult<U>)
    ensures Finally(p, f) == FinallySync(p, f)
  {
  }

  /** A pipeline of `chain` steps that keep the result type. */
  function ChainAll<T, E>(p: Promise<T, E>, stages: seq<Result<T, E> -> ThreadResult<Result<T, E>>>): Promise<T, E>
    decreases |stages|
  {
    if stages == [] then p else ChainAll(Chain(p, stages[0]), stages[1..])
  }

  /** Running two pipelines one after the other is running their concatenation. */
  lemma {:induction false} ChainAllAppend<T, E>(p: Promise<T, E>,
                                                a: seq<Result<T, E> -> ThreadResult<Result<T, E>>>,
                                                b: seq<Result<T, E> -> ThreadResult<Result<T, E>>>)
    ensures ChainAll(p, a + b) == ChainAll(ChainAll(p, a), b)
    decreases |a|
  {
    if a != [] {
      assert (a + b)[1..] == a[1..] + b;
      ChainAllAppend(Chain(p, a[0]), a[1..], b);
    } else {
      assert a + b == b;
    }
  }

  /** A panicked promise stays panicked through any pipeline. */
  lemma {:induction false} PanicPropagates<T, E>(p: Promise<T, E>, stages: seq<Result<T, E> -> ThreadResult<Result<T, E>>>)
    requires p.outcome.Panicked?
    ensures ChainAll(p, stages).outcome.Panicked?
    decreases |stages|
  {
    if stages != [] {
      PanicPropagates(Chain(p, stages[0]), stages[1..]);
    }
  }

  /** Fatal propagation: if some step of a pipeline panics, syncing the last promise panics
      the caller rather than yielding a `Result`. */
  lemma PanicReachesSync<T, E>(p: Promise<T, E>, stages: seq<Result<T, E> -> ThreadResult<Result<T, E>>>, k: nat)
    requires k <= |stages| && ChainAll(p, stages[..k]).outcome.Panicked?
    ensures Sync(ChainAll(p, stages)).Panicked?
  {
    assert stages == stages[..k] + stages[k..];
    ChainAllAppend(p, stages[..k], stages[k..]);
    PanicPropagates(ChainAll(p, stages[..k]), stages[k..]);
  }
}
