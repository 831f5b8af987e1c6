/** `src/join_handle.rs` in its own imperative form: the cell a handle pair shares, updated in
    place by the sender's `push`, the receiver's `pop` and the receiver's drop.

    The sender and the receiver end each hold a reference to one `JoinHandleInner`; here the two
    ends act on that one object. `received` is the receiver's own field in the source and is kept
    beside the cell's; `senderUsed` is ghost, since Rust enforces a single `push` by moving the
    sender rather than with a runtime flag. Each method is specified by the matching step of
    `JoinProtocol`, whose properties are proved there. */
module JoinHandle {
  import opened RustTypes
  import JoinProtocol

  class JoinHandleInner<T> {
    var notified: bool                    // the `MonoBarrier` has been notified
    var data: Option<ThreadResult<T>>     // the `UnsafeCell` slot
    var received: bool                    // `JoinHandleReceiver::received`
    ghost var senderUsed: bool            // `JoinHandleSender` has been consumed

    /** The abstract protocol state of the pair this cell belongs to. */
    ghost function State(): JoinProtocol.HandleState<T>
      reads this
    {
      JoinProtocol.HandleState(senderUsed, notified, data, received)
    }

    ghost predicate Valid()
      reads this
    {
      JoinProtocol.Inv(State())
    }

    /** `JoinHandleInner::new`, with both ends of `handle_pair` still unused. */
    constructor ()
      ensures Valid() && State() == JoinProtocol.Fresh()
    {
      notified := false;
      data := None;
      received := false;
      senderUsed := false;
    }

    /** `JoinHandleSender::push`: write the slot, then notify the barrier. */
    method Push(result: ThreadResult<T>)
      requires Valid() && !senderUsed
      modifies this
      ensures Valid() && State() == JoinProtocol.Push(old(State()), result)
    {
      data := Some(result);
      notified := true;
      senderUsed := true;
    }

    /** `JoinHandleReceiver::pop`. The wait on the barrier is the requirement that it has been
        notified; then the receiver is marked received, the slot is taken (left empty) and
        unwrapped, and the receiver's drop runs on the way out. */
    method Pop() returns (result: ThreadResult<T>)
      requires Valid() && notified && !received
      modifies this
      ensures Valid() && JoinProtocol.Pop(old(State())) == Some((result, State()))
    {
      received := true;
      var taken := data;
      data := None;
      result := taken.value;
      Drop();
    }

    /** `Drop for JoinHandleReceiver`: a receiver that never received waits on the barrier (it
        must have been notified) and marks itself received; otherwise nothing happens. */
    method Drop()
      requires Valid() && (received || notified)
      modifies this
      ensures Valid() && State() == JoinProtocol.Drop(old(State()))
    {
      if !received {
        received := true;
      }
    }
  }

  /** `handle_pair`: one fresh cell shared by a new sender and a new receiver. */
  method HandlePair<T>() returns (inner: JoinHandleInner<T>)
    ensures fresh(inner) && inner.Valid() && inner.State() == JoinProtocol.Fresh()
  {
    inner := new JoinHandleInner();
  }

  /** The shape of the tests `test_join_handle_basic2` and `test_join_handle_basic3`: create one
      pair per result, push each result through its own sender, collect the receivers, then pop
      them in order. Each pop returns its own sender's value: distinct pairs do not interfere. */
  method PushAllThenPopAll<T>(results: seq<ThreadResult<T>>) returns (popped: seq<ThreadResult<T>>)
    ensures popped == results
  {
    var handles: seq<JoinHandleInner<T>> := [];
    for i := 0 to |results|
      invariant |handles| == i
      invariant forall j :: 0 <= j < i ==> fresh(handles[j])
      invariant forall j, k :: 0 <= j < k < i ==> handles[j] != handles[k]
      invariant forall j :: 0 <= j < i ==>
        handles[j].Valid() && handles[j].notified && !handles[j].received && handles[j].data == Some(results[j])
    {
      var h := HandlePair<T>();
      h.Push(results[i]);
      handles := handles + [h];
    }
    popped := [];
    for i := 0 to |handles|
      invariant popped == results[..i]
      invariant forall j :: 0 <= j < |handles| ==> fresh(handles[j])
      invariant forall j, k :: 0 <= j < k < |handles| ==> handles[j] != handles[k]
      invariant forall j :: i <= j < |handles| ==>
        handles[j].Valid() && handles[j].notified && !handles[j].received && handles[j].data == Some(results[j])
    {
      var v := handles[i].Pop();
      popped := popped + [v];
    }
  }

  /** `test_join_handle_basic2`: ten pairs, each sender pushing `Ok(1)`; popping the receivers
      in order, every one of them returns `Ok(1)`, so `pop().unwrap()` is 1 each time. */
  method JoinHandleBasic2() returns (popped: seq<ThreadResult<int>>)
    ensures |popped| == 10
    ensures forall i | 0 <= i < 10 :: popped[i] == Done(1)
  {
    popped := PushAllThenPopAll(seq(10, _ => Done(1)));
  }
}
