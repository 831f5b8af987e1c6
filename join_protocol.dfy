/** The one-shot hand-off of `src/join_handle.rs` as a sequential state machine.

    One handle pair shares a cell holding a `MonoBarrier` and a slot for one
    `thread::Result<T>`; the receiver end carries a `received` flag. The barrier is modelled by
    the single fact the protocol relies on, whether it has been notified, and `wait()` by the
    requirement that it has. That the sender is consumed by `push` (a move in Rust, so there is no
    runtime flag) is recorded in `senderUsed`. */
module JoinProtocol {
  import opened RustTypes

  datatype HandleState<T> = HandleState(
    senderUsed: bool,                  // the sender end has been consumed by `push`
    notified: bool,                    // the barrier has been notified
    slot: Option<ThreadResult<T>>,     // `JoinHandleInner::data`
    received: bool)                    // `JoinHandleReceiver::received`

  /** The protocol invariant: the barrier fires exactly when the sender has pushed; before that
      nothing is stored and nothing is received; once notified and until the receiver takes it,
      the slot holds the pushed value (so `take().unwrap()` in `pop` cannot fail). */
  predicate Inv<T>(s: HandleState<T>) {
    && (s.notified <==> s.senderUsed)
    && (!s.notified ==> s.slot.None? && !s.received)
    && (s.notified && !s.received ==> s.slot.Some?)
  }

  /** `JoinHandleInner::new` together with `handle_pair`: empty slot, un-notified barrier, an
      unused sender and a receiver that has received nothing. */
  function Fresh<T>(): (s: HandleState<T>)
    ensures Inv(s)
    ensures s.slot.None? && !s.notified && !s.received && !s.senderUsed
  {
    HandleState(false, false, None, false)
  }

  /** `MonoBarrier::notify`, which may be called at most once per barrier. */
  function Notify<T>(s: HandleState<T>): (t: HandleState<T>)
    requires !s.notified
    ensures t.notified && t.slot == s.slot && t.received == s.received
    ensures t.senderUsed == s.senderUsed
  {
    s.(notified := true)
  }

  /** `JoinHandleSender::push`: write the slot, then notify, consuming the sender. The sender is
      unused and, since only `push` notifies, the barrier has not fired yet. */
  function Push<T>(s: HandleState<T>, result: ThreadResult<T>): (t: HandleState<T>)
    requires !s.senderUsed && !s.notified
    ensures Inv(s) ==> Inv(t)
    ensures t.slot == Some(result) && t.notified && t.senderUsed
    ensures t.received == s.received
  {
    Notify(s.(slot := Some(result))).(senderUsed := true)
  }

  /** `Drop for JoinHandleReceiver`. An unreceived receiver first waits on the barrier (so the
      barrier must have fired) and then marks itself received; a receiver that has already
      received does nothing more. The slot is left as it is either way. */
  function Drop<T>(s: HandleState<T>): (t: HandleState<T>)
    requires s.received || s.notified
    ensures t.received
    ensures t.slot == s.slot && t.notified == s.notified && t.senderUsed == s.senderUsed
    ensures s.received ==> t == s
    ensures Inv(s) ==> Inv(t)
  {
    if !s.received then s.(received := true) else s
  }

  /** `JoinHandleReceiver::pop` once `wait()` has returned: mark the receiver received, `take()`
      the slot and unwrap it, then run the receiver's drop (a no-op now). `None` stands for the
      panic of `unwrap()` on an empty slot. */
  function Pop<T>(s: HandleState<T>): (o: Option<(ThreadResult<T>, HandleState<T>)>)
    requires s.notified && !s.received
    ensures o.Some? <==> s.slot.Some?
    ensures Inv(s) ==> o.Some?
    ensures o.Some? ==> o.value.0 == s.slot.value
    ensures o.Some? ==> o.value.1.slot.None? && o.value.1.received
    ensures o.Some? ==> o.value.1.notified && o.value.1.senderUsed == s.senderUsed
    ensures o.Some? && Inv(s) ==> Inv(o.value.1)
  {
    var marked := s.(received := true);
    match marked.slot
    case None => None
    case Some(v) => Some((v, Drop(marked.(slot := None))))
  }

  /** What can happen to one pair: the sender pushes, or the receiver is popped or dropped. */
  datatype Event<T> = PushEvent(result: ThreadResult<T>) | PopEvent | DropEvent

  /** Whether an event can take place in state `s`. The sender and the receiver are each
      consumed at most once (Rust's move semantics); the receiver's `pop` and drop both wait on
      the barrier, so they can complete only once it has fired. */
  predicate Enabled<T>(s: HandleState<T>, e: Event<T>) {
    match e
    case PushEvent(_) => !s.senderUsed
    case PopEvent => !s.received && s.notified
    case DropEvent => !s.received && s.notified
  }

  /** Runs a sequence of events from `s`; `None` if some event cannot take place (or a pop
      panics), otherwise the final state and the values the pops returned, in order. */
  function Run<T>(s: HandleState<T>, evs: seq<Event<T>>): Option<(HandleState<T>, seq<ThreadResult<T>>)>
    requires Inv(s)
    decreases |evs|
  {
    if evs == [] then Some((s, []))
    else if !Enabled(s, evs[0]) then None
    else match evs[0]
      case PushEvent(r) => Run(Push(s, r), evs[1..])
      case DropEvent => Run(Drop(s), evs[1..])
      case PopEvent =>
        match Pop(s)
        case None => None
        case Some((v, t)) =>
          match Run(t, evs[1..])
          case None => None
          case Some((u, vs)) => Some((u, [v] + vs))
  }

  /** The values pushed by a sequence of events, in order. */
  function Pushed<T>(evs: seq<Event<T>>): seq<ThreadResult<T>> {
    if evs == [] then []
    else (if evs[0].PushEvent? then [evs[0].result] else []) + Pushed(evs[1..])
  }

  /** The value stored in the slot and not yet taken by the receiver, if any. */
  function Pending<T>(s: HandleState<T>): seq<ThreadResult<T>> {
    if s.slot.Some? && !s.received then [s.slot.value] else []
  }

  /** Any run from a state satisfying the invariant keeps it; pushes happen only while the sender
      is unused, so at most one of them; and every value a pop returns is the value pending in
      the slot or one the run pushed, in that order. */
  lemma {:induction false} RunKeepsProtocol<T>(s: HandleState<T>, evs: seq<Event<T>>)
    requires Inv(s) && Run(s, evs).Some?
    ensures Inv(Run(s, evs).value.0)
    ensures s.senderUsed ==> Pushed(evs) == []
    ensures |Pushed(evs)| <= 1
    ensures Run(s, evs).value.1 <= Pending(s) + Pushed(evs)
    decreases |evs|
  {
    if evs != [] {
      match evs[0]
      case PushEvent(r) =>
        RunKeepsProtocol(Push(s, r), evs[1..]);
      case DropEvent =>
        RunKeepsProtocol(Drop(s), evs[1..]);
      case PopEvent =>
        var t := Pop(s).value.1;
        RunKeepsProtocol(t, evs[1..]);
    }
  }

  /** From a fresh pair: whatever the order of events, the sender pushes at most once, the
      receiver gets back exactly what was pushed (or nothing), and the invariant holds at the
      end. */
  lemma PoppedWasPushed<T>(evs: seq<Event<T>>)
    requires Run(Fresh(), evs).Some?
    ensures Inv(Run(Fresh(), evs).value.0)
    ensures |Pushed(evs)| <= 1
    ensures Run(Fresh(), evs).value.1 <= Pushed(evs)
  {
    RunKeepsProtocol(Fresh(), evs);
  }

  /** Scope safety: in any run, neither `pop` nor the drop of the receiver completes before the
      sender has pushed (or had already pushed before the run started). Both wait on the barrier,
      which only the push notifies, so a run whose first event is not the push starts from a
      state where the sender is already used. */
  lemma ReceiverWaitsForPush<T>(s: HandleState<T>, evs: seq<Event<T>>, j: nat)
    requires Inv(s) && Run(s, evs).Some?
    requires j < |evs| && !evs[j].PushEvent?
    ensures s.senderUsed || Pushed(evs[..j]) != []
  {
  }

  /** The round trip the tests exercise: push a result into a fresh pair, pop it, and get back
      exactly that result, with the slot emptied and the receiver marked received. */
  lemma PushThenPop<T>(r: ThreadResult<T>)
    ensures Run(Fresh(), [PushEvent(r), PopEvent]) == Some((HandleState(true, true, None, true), [r]))
  {
    var evs: seq<Event<T>> := [PushEvent(r), PopEvent];
    var pushed := Push(Fresh(), r);
    var popped := HandleState(true, true, None, true);
    var empty: seq<Event<T>> := [];
    assert pushed == HandleState(true, true, Some(r), false);
    assert Pop(pushed) == Some((r, popped));
    assert Run(popped, empty) == Some((popped, []));
    assert [PopEvent][1..] == empty;
    assert [r] + [] == [r];
    assert Run(pushed, [PopEvent]) == Some((popped, [r]));
    assert evs[1..] == [PopEvent];
  }
}
