# coio: one-shot result hand-off and promise combinators, in Dafny

This project models the result hand-off and composition layer of the coio coroutine runtime.

- **Join-handle pair** (`src/join_handle.rs`). A spawned coroutine delivers exactly one
  `thread::Result<T>` to exactly one waiter. `handle_pair` creates a shared cell holding a
  one-shot barrier (`MonoBarrier`) and an empty slot. `JoinHandleSender::push` writes the slot
  and then notifies the barrier. `JoinHandleReceiver::pop` waits on the barrier, marks the
  receiver received and takes the slot. Dropping a receiver that never popped still waits on the
  barrier. This is what stops a scoped handle from letting its scope end while the producer is
  still writing.
- **Promises** (`src/promise.rs`). `sync`, `then`, `chain`, `success`, `fail`, `finally` and
  `finally_sync` join the previous coroutine with `join().unwrap()`, which re-raises a captured
  panic. They then route `Ok`/`Err` to the user's closures.
- **Crate-root helpers** (`src/lib.rs`). These are `duration_to_ms`, the `Duration::from_millis`
  step of `sleep_ms`, and the `Builder` setters.

Files:

- `rust_types.dfy` (module `RustTypes`): `Option`, `Result`, and `thread::Result` as
  `ThreadResult` (`Done(v)` or `Panicked`). It also holds the integer widths.
- `join_protocol.dfy` (module `JoinProtocol`): the hand-off as a pure state machine. The state
  records whether the sender was used, whether the barrier was notified, what the slot holds and
  whether the receiver received. The module has the steps `Push`, `Pop` and `Drop`, the protocol
  invariant `Inv`, and `Run`, which runs any sequence of events on one pair. Its lemmas cover
  every order of events.
- `join_handle.dfy` (module `JoinHandle`): the same cell as a class, `JoinHandleInner`. Its
  methods update the fields in place. Each method is specified by the matching `JoinProtocol`
  step. The module also models the source's tests with ten independent pairs.
- `promise.dfy` (module `Promises`): a promise is the outcome of the coroutine behind its
  handle. Each combinator is a function that routes that outcome.
- `coio.dfy` (module `Coio`): `Duration`, `duration_to_ms`, `from_millis`, `Options` and
  `Builder`.

The spawned work, the scheduler and the barrier's blocking are not modelled. `wait()` becomes a
requirement that the barrier has been notified. In `Run` it becomes the rule that a pop or a drop
can only happen once that is true. The pair is single-use because Rust moves the sender into
`push` and the receiver into `pop`. The model records this with the ghost flag `senderUsed` and
with `received`.

The slot is not written once and kept: `pop` takes the value out with `Option::take`
(`src/join_handle.rs:57`), so after a pop the slot is `None` again. What happens once per pair is
the push (`RunKeepsProtocol`, `PoppedWasPushed`).

## Model

| member | source | states |
|---|---|---|
| JoinProtocol.Fresh | src/join_handle.rs:26-32 | A new pair satisfies the protocol invariant. The slot is empty, the barrier is not notified, the sender is unused and the receiver has received nothing. |
| JoinProtocol.Notify | src/join_handle.rs:43 | Notifying is allowed only on a barrier not yet notified. It fires the barrier and leaves the slot, the receiver flag and the sender flag alone. |
| JoinProtocol.Push | src/join_handle.rs:40-44 | Push needs an unused sender and a barrier not yet notified. It stores the result, notifies, consumes the sender and keeps the invariant. |
| JoinProtocol.Pop | src/join_handle.rs:53-58 | Pop needs a notified barrier and an unreceived receiver. It returns exactly the stored value and leaves the slot empty and the receiver received. Its `unwrap` fails exactly when the slot is empty, which the invariant rules out. |
| JoinProtocol.Drop | src/join_handle.rs:61-68 | Dropping an unreceived receiver needs a notified barrier and marks it received. Dropping a received one changes nothing. The slot is never touched and the invariant is kept. |
| JoinProtocol.RunKeepsProtocol | src/join_handle.rs:40-68 | Every run of events keeps the invariant and contains at most one push, and none once the sender is used. The values popped are a prefix of the pending value followed by the pushed ones. |
| JoinProtocol.PoppedWasPushed | src/join_handle.rs:40-80 | From a fresh pair, in any order of events: at most one push, the pop returns exactly the pushed value or nothing, and the invariant holds at the end. |
| JoinProtocol.ReceiverWaitsForPush | src/join_handle.rs:53-68 | In any run, a pop or a drop of the receiver comes after the sender's push. |
| JoinProtocol.PushThenPop | src/join_handle.rs:89-104 | Pushing `r` into a fresh pair and then popping returns exactly `[r]`. The final state has the slot empty and both ends consumed. |
| JoinHandle.JoinHandleInner.constructor | src/join_handle.rs:26-32 | The new cell is valid and in the fresh protocol state. |
| JoinHandle.JoinHandleInner.Push | src/join_handle.rs:40-44 | With the sender unused, the in-place update keeps the cell valid. The new state is `JoinProtocol.Push` of the old one. |
| JoinHandle.JoinHandleInner.Pop | src/join_handle.rs:53-58 | Once notified and not yet received, the in-place pop returns the value `JoinProtocol.Pop` gives. It leaves the state `JoinProtocol.Pop` gives, and the receiver's trailing drop is a no-op. |
| JoinHandle.JoinHandleInner.Drop | src/join_handle.rs:61-68 | The in-place drop leaves the cell in the state `JoinProtocol.Drop` gives and keeps it valid. |
| JoinHandle.HandlePair | src/join_handle.rs:70-80 | Returns a freshly allocated valid cell in the fresh protocol state. |
| JoinHandle.PushAllThenPopAll | src/join_handle.rs:107-147 | Creates one pair per result, pushes each result, collects the receivers and pops them in order. The popped values equal the results, so each receiver gets its own sender's value. |
| JoinHandle.JoinHandleBasic2 | src/join_handle.rs:107-125 | Ten pairs, each pushed `Ok(1)`, are popped in order. Exactly ten values come back, and every one of them is `Ok(1)`, so each `pop().unwrap()` is 1. |
| Promises.Sync | src/promise.rs:42-44 | The caller gets the `Result` unchanged when the coroutine completed normally. It panics exactly when the coroutine panicked, and a panic is never turned into `Err`. |
| Promises.Then | src/promise.rs:47-61 | A panicked predecessor gives a panicked promise. Otherwise the result is `ft(t)` on `Ok(t)` and `fe(e)` on `Err(e)`. |
| Promises.Chain | src/promise.rs:64-72 | A panicked predecessor gives a panicked promise. Otherwise the result is `f` of the whole `Result`. |
| Promises.Success | src/promise.rs:75-87 | A panic propagates. `Ok(t)` gives `f(t)`. `Err(e)` passes through unchanged. |
| Promises.Fail | src/promise.rs:90-101 | A panic propagates. `Ok(t)` passes through unchanged. `Err(e)` gives `f(e)`. |
| Promises.Finally | src/promise.rs:104-108 | The discarded coroutine panics when the predecessor panicked. Otherwise its outcome is `f` of the joined result. |
| Promises.FinallySync | src/promise.rs:111-115 | The caller panics when the promise panicked. Otherwise the outcome is `f` of the synced result. |
| Promises.ThenCallsOneBranch | src/promise.rs:47-61 | On `Ok` the result of `then` does not depend on `fe`. On `Err` it does not depend on `ft`. |
| Promises.PassThroughIgnoresClosure | src/promise.rs:75-101 | `success` does not depend on its closure on `Err`. `fail` does not depend on its closure on `Ok`. |
| Promises.SuccessIsThen | src/promise.rs:47-87 | `success(f)` equals `then(f, e => Err(e))`. |
| Promises.FailIsThen | src/promise.rs:47-101 | `fail(f)` equals `then(t => Ok(t), f)`. |
| Promises.ThenIsChain | src/promise.rs:47-72 | `then(ft, fe)` equals `chain` with a closure that matches on the result. |
| Promises.FinallyAgreesWithFinallySync | src/promise.rs:104-115 | `finally(f)` and `finally_sync(f)` apply `f` to the same joined result. |
| Promises.ChainAllAppend | src/promise.rs:64-72 | Running two chains of `chain` steps one after the other is the same as running their concatenation. |
| Promises.PanicPropagates | src/promise.rs:64-72 | A panicked promise stays panicked through any chain of `chain` steps. |
| Promises.PanicReachesSync | src/promise.rs:42-72 | If any intermediate step of a chain panics, `sync` on the last promise panics instead of yielding a `Result`. |
| Coio.DurationToMs | src/lib.rs:165-167 | The result is defined exactly when the millisecond count fits in `u64`. It is the duration truncated to whole milliseconds: `ms * 10^6 <= total nanoseconds < (ms + 1) * 10^6`. |
| Coio.DurationToMsDefined | src/lib.rs:166 | There is no overflow exactly when `secs < U64_MAX / 1000`, or when `secs` equals it and fewer than 616 whole milliseconds are in the sub-second part. |
| Coio.DurationToMsMonotone | src/lib.rs:166 | A shorter duration converts without overflow whenever a longer one does, and never to more milliseconds. |
| Coio.FromMillis | src/lib.rs:81-83 | The `Duration` that `sleep_ms(ms)` sleeps for is exactly `ms` milliseconds, and `duration_to_ms` of it gives back `ms`. |
| Coio.Builder.StackSize | src/lib.rs:110-113 | Sets the stack size and leaves the name unchanged. |
| Coio.Builder.Name | src/lib.rs:118-121 | Sets the name to `Some(name)` and leaves the stack size unchanged. |
| Coio.NewBuilder | src/lib.rs:104-106 | The new builder holds the default options. |
| Coio.SettersCommute | src/lib.rs:110-121 | The two setters commute, and applying a setter twice keeps the last value. |
| Coio.ConfiguredBuilder | src/lib.rs:104-121 | After both setters the options are exactly `(stackSize, Some(name))`, whatever the defaults. |

## Left out

- Real concurrency is not modelled, and the protocol is sequential. This covers the happens-before ordering between the slot write and `notify`, the `UnsafeCell`, the `unsafe impl Send/Sync`, the `Arc` reference count and the `'scope`/`PhantomData` binding. `JoinProtocol.Run` covers every order of events on one pair instead.
- `MonoBarrier` is not part of this model. A wait that blocks is modelled as a requirement that the barrier has been notified. What `wait()` does when the sender is dropped without pushing depends on `MonoBarrier`. In the model a pop or a drop is then never enabled (`JoinProtocol.Run` gives `None`), and there is no event for a broken barrier.
- JoinHandle.JoinHandleInner: the sender and receiver ends act on one object rather than on two objects sharing an `Arc`. `received` sits beside the cell's fields.
- JoinHandle.PushAllThenPopAll: runs the pushes of the spawned coroutines before all the pops. That is one interleaving; the others are covered for one pair by `JoinProtocol.Run`.
- The scheduler is not part of this model: `Scheduler::spawn`/`spawn_opts`, `spawn`, `spawn_opts`, `sched`, `sleep`, `Builder::spawn`, `Promise::spawn` and `Promise::spawn_opts`. A promise is given directly by the outcome its coroutine produces.
- Promises.Finally: the scheduler's `JoinHandle` is not part of this model. So the blocking of the call site until the discarded handle's coroutine has finished is not modelled. The model assumes it behaves like the receiver's drop. Under that assumption the caller of `finally` does not panic when the predecessor panicked, while the caller of `finally_sync` does. `Promises.FinallyAgreesWithFinallySync` compares only what `f` is applied to and the outcome of that application, not what happens to the caller.
- Panic payloads (`Box<Any>`) are not modelled. A captured panic is just `Panicked`.
- Promises.ChainAll: the pipeline lemmas are stated for `chain` steps that keep the `Result` type. Steps that change the type are covered one at a time by the combinators' own contracts.
- Coio.DurationToMs: models the overflow panic of a debug build. A release build wraps modulo 2^64, which is not modelled.
- `Options::new` is not part of this model, so `Coio.NewBuilder` takes the default options as a parameter.
- The global work counters (`GLOBAL_WORK_COUNT` and its helpers) are debug-only atomic instrumentation. They are not modelled.
- The `net`, `sync`, `runtime`, `coroutine` and `options` modules are not part of this model.
