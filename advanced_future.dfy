/**
 * AdvancedFuture: a future that is already known (Constant), wraps a future
 * from the executor (FutureDecorator), or is completed by a caller (Manual),
 * with completion callbacks that run at once when the future is done and are
 * queued otherwise.
 *
 * Callbacks are foreign code: each is identified by a number, and running it
 * appends a Delivery to the future's `delivered` trace.
 */
module AdvancedFutures {
  import opened Wrappers

  /** Identity of a Consumer passed to onComplete. */
  type Callback = nat

  /** One invocation `action.accept(value)`. */
  datatype Delivery<T> = Delivery(action: Callback, value: T)

  /** Manual's `val` field: the FUTURE_NOT_COMPLETED sentinel or a real value. */
  datatype Slot<T> = NotCompleted | Value(value: T)

  /** The exceptions this core raises or lets through. */
  datatype Failure =
    | IllegalState | IllegalArgument | NullPointer | UnsupportedOperation
    | Execution | Cancellation | Timeout

  /** How a call ends: it returns, it throws, or it blocks and never returns. */
  datatype Call<R> = Returns(value: R) | Throws(failure: Failure) | Hangs

  /** The life cycle of a task the executor runs. */
  datatype TaskState<T> = Running | Succeeded(value: T) | Failed | Cancelled

  /**
   * A java.util.concurrent.Future handed out by the executor, reduced to the
   * behaviour its documentation promises.
   */
  class Task<T> {
    var state: TaskState<T>

    constructor ()
      ensures state == Running
    {
      state := Running;
    }

    predicate IsDone()
      reads this
    {
      !state.Running?
    }

    /** get(): blocks while running, rethrows a failure wrapped, refuses a cancelled task. */
    function Get(): Call<T>
      reads this
    {
      match state
      case Running => Hangs
      case Succeeded(v) => Returns(v)
      case Failed => Throws(Execution)
      case Cancelled => Throws(Cancellation)
    }

    /** get(timeout): like get(), but a task still running times out. */
    function GetTimed(): Call<T>
      reads this
    {
      if state.Running? then Throws(Timeout) else Get()
    }

    /** cancel: succeeds only on a task that has not finished. */
    method Cancel() returns (cancelled: bool)
      modifies this
      ensures cancelled == old(state).Running?
      ensures state == if old(state).Running? then Cancelled else old(state)
    {
      cancelled := state.Running?;
      if cancelled {
        state := Cancelled;
      }
    }

  }

  /** Which of the three subclasses a future is; a decorator knows the future it wraps. */
  datatype Variant<T> = ConstantVariant | DecoratorVariant(base: Task<T>) | ManualVariant
  {
    function Footprint(): set<object>
    {
      if DecoratorVariant? then {base} else {}
    }
  }

  /** The callbacks of a trace, in the order they were run. */
  function Actions<T>(ds: seq<Delivery<T>>): (r: seq<Callback>)
    ensures |r| == |ds|
    ensures forall i :: 0 <= i < |ds| ==> r[i] == ds[i].action
  {
    seq(|ds|, i requires 0 <= i < |ds| => ds[i].action)
  }

  /** `actions.forEach(c -> c.accept(v))` as a trace. */
  function Deliveries<T>(actions: seq<Callback>, v: T): (r: seq<Delivery<T>>)
    ensures |r| == |actions|
    ensures forall i :: 0 <= i < |actions| ==> r[i] == Delivery(actions[i], v)
  {
    seq(|actions|, i requires 0 <= i < |actions| => Delivery(actions[i], v))
  }

  class AdvancedFuture<T> {
    const variant: Variant<T>
    /** Constant's and Manual's value; NotCompleted is FUTURE_NOT_COMPLETED. */
    var val: Slot<T>
    /** Manual's CountDownLatch has reached zero. */
    var released: bool
    /** onCompleteActions; None is the null the field starts as. */
    var onCompleteActions: Option<seq<Callback>>
    /** Every callback invocation made so far, in order. */
    var delivered: seq<Delivery<T>>
    /** Every callback whose onComplete returned normally, in order. */
    ghost var registered: seq<Callback>

    /**
     * Shape of each variant, and for Constant and Manual the delivery
     * invariant: the callbacks run so far followed by those still queued are
     * exactly the callbacks registered, in registration order, and each ran
     * with the future's value.
     */
    ghost predicate Valid()
      reads this
    {
      && (match variant
          case ConstantVariant => val.Value? && released && onCompleteActions.None?
          case DecoratorVariant(_) => val.NotCompleted? && !released
          case ManualVariant =>
            && (released ==> val.Value? && onCompleteActions.None?)
            && (val.NotCompleted? ==> !released)
            && (val.Value? && !released ==> onCompleteActions.None?))
      && (!variant.DecoratorVariant? ==>
            && Actions(delivered) + onCompleteActions.GetOr([]) == registered
            && (forall i :: 0 <= i < |delivered| ==> val == Value(delivered[i].value)))
    }

    /** constant(v): done from the start. */
    constructor Constant(v: T)
      ensures variant == ConstantVariant && Valid()
      ensures IsDone() && Get() == Returns(v) && GetTimed() == Returns(Value(v))
      ensures delivered == [] && registered == []
    {
      variant := ConstantVariant;
      val := Value(v);
      released := true;
      onCompleteActions := None;
      delivered := [];
      registered := [];
    }

    /** new FutureDecorator(base); the watcher it starts is WatcherRun. */
    constructor Decorator(base: Task<T>)
      ensures variant == DecoratorVariant(base) && Valid()
      ensures onCompleteActions == None && delivered == [] && registered == []
    {
      variant := DecoratorVariant(base);
      val := NotCompleted;
      released := false;
      onCompleteActions := None;
      delivered := [];
      registered := [];
    }

    /** manual(): pending, with nothing queued; Complete is the consumer handed out with it. */
    constructor Manual()
      ensures variant == ManualVariant && Valid()
      ensures !IsDone() && val == NotCompleted && !released
      ensures onCompleteActions == None && delivered == [] && registered == []
    {
      variant := ManualVariant;
      val := NotCompleted;
      released := false;
      onCompleteActions := None;
      delivered := [];
      registered := [];
    }

    /** isDone(): a constant or manual future is done exactly when it holds a value. */
    predicate IsDone()
      reads this, variant.Footprint()
      ensures Valid() && !variant.DecoratorVariant? ==> (IsDone() <==> val.Value?)
    {
      match variant
      case ConstantVariant => true
      case DecoratorVariant(base) => base.IsDone()
      case ManualVariant => val.Value?
    }

    /**
     * get(): a Manual future waits for its latch. A value comes back only
     * from a done future, and only a decorator's get() can throw.
     */
    function Get(): (r: Call<T>)
      requires Valid()
      reads this, variant.Footprint()
      ensures r.Returns? ==> IsDone()
      ensures !variant.DecoratorVariant? ==>
                && !r.Throws?
                && (r.Returns? <==> released)
                && (r.Returns? ==> val == Value(r.value))
    {
      match variant
      case ConstantVariant => Returns(val.value)
      case DecoratorVariant(base) => base.Get()
      case ManualVariant => if released then Returns(val.value) else Hangs
    }

    /**
     * get(timeout): a Manual future whose latch is still closed gives up
     * after the timeout and returns its `val` field as it stands, which is
     * the sentinel unless a value was stored.
     */
    function GetTimed(): (r: Call<Slot<T>>)
      requires Valid()
      reads this, variant.Footprint()
      ensures r.Returns? || r.Throws?
      ensures Get().Returns? ==> r == Returns(Value(Get().value))
    {
      match variant
      case ConstantVariant => Returns(val)
      case DecoratorVariant(base) =>
        (match base.GetTimed()
         case Returns(v) => Returns(Value(v))
         case Throws(e) => Throws(e)
         case Hangs => Hangs)
      case ManualVariant => Returns(val)
    }

    /** isCancelled(): only a decorator asks the future it wraps. */
    predicate IsCancelled()
      reads this, variant.Footprint()
      ensures IsCancelled() ==> CanCancel() && IsDone()
    {
      variant.DecoratorVariant? && variant.base.state.Cancelled?
    }

    /** canCancel(). */
    predicate CanCancel()
    {
      variant.DecoratorVariant?
    }

    /** cancel(mayInterruptIfRunning): forwarded by a decorator, refused by the others. */
    method Cancel(mayInterruptIfRunning: bool) returns (r: Call<bool>)
      modifies variant.Footprint()
      ensures r.Throws? <==> !CanCancel()
      ensures !variant.DecoratorVariant? ==> r == Throws(UnsupportedOperation)
      ensures variant.DecoratorVariant? ==>
                && r == Returns(old(variant.base.state).Running?)
                && variant.base.state == if old(variant.base.state).Running? then Cancelled else old(variant.base.state)
    {
      if variant.DecoratorVariant? {
        var b := variant.base.Cancel();
        r := Returns(b);
      } else {
        r := Throws(UnsupportedOperation);
      }
    }

    /** `actions.forEach(c -> c.accept(v))`: run each callback once, in list order. */
    method Fire(actions: seq<Callback>, v: T)
      modifies this`delivered
      ensures delivered == old(delivered) + Deliveries(actions, v)
    {
      var i := 0;
      while i < |actions|
        invariant 0 <= i <= |actions|
        invariant delivered == old(delivered) + Deliveries(actions[..i], v)
      {
        assert Deliveries(actions[..i + 1], v) == Deliveries(actions[..i], v) + [Delivery(actions[i], v)];
        delivered := delivered + [Delivery(actions[i], v)];
        i := i + 1;
      }
      assert actions[..i] == actions;
    }

    /**
     * onComplete(action): a done future runs the action at once with get()'s
     * value; an ExecutionException from get() is printed and swallowed, any
     * other exception escapes, and a get() that blocks blocks the caller.
     * A pending future appends the action to its list, creating the list if
     * it is null.
     */
    method OnComplete(action: Callback) returns (r: Call<()>)
      requires Valid()
      modifies this
      ensures Valid()
      ensures old(IsDone()) && old(Get()).Returns? ==>
                && r == Returns(())
                && delivered == old(delivered) + [Delivery(action, old(Get()).value)]
                && onCompleteActions == old(onCompleteActions)
                && registered == old(registered) + [action]
      ensures old(IsDone()) && old(Get()) == Throws(Execution) ==>
                r == Returns(()) && delivered == old(delivered) && onCompleteActions == old(onCompleteActions)
      ensures old(IsDone()) && old(Get()).Throws? && old(Get()) != Throws(Execution) ==>
                r == Throws(old(Get()).failure) && unchanged(this)
      ensures old(IsDone()) && old(Get()).Hangs? ==> r == Hangs && unchanged(this)
      ensures !old(IsDone()) ==>
                && r == Returns(())
                && onCompleteActions == Some(old(onCompleteActions).GetOr([]) + [action])
                && delivered == old(delivered)
                && registered == old(registered) + [action]
      ensures val == old(val) && released == old(released)
    {
      if IsDone() {
        var g := Get();
        match g
        case Returns(v) =>
          Fire([action], v);
          registered := registered + [action];
          r := Returns(());
        case Throws(e) =>
          r := if e == Execution then Returns(()) else Throws(e);
          if e == Execution {
            registered := registered + [action];
          }
        case Hangs =>
          r := Hangs;
      } else {
        var list := if onCompleteActions.None? then [] else onCompleteActions.value;
        onCompleteActions := Some(list + [action]);
        registered := registered + [action];
        r := Returns(());
      }
    }

    /**
     * Manual.complete(v) as written: refuse a second completion, then the
     * sentinel; store the value; run the queued callbacks, which throws a
     * NullPointerException when none was ever queued, leaving the latch
     * closed; otherwise drop the list and open the latch.
     */
    method Complete(v: Slot<T>) returns (r: Call<()>)
      requires Valid() && variant.ManualVariant?
      modifies this
      ensures Valid()
      ensures old(val).Value? ==> r == Throws(IllegalState) && unchanged(this)
      ensures old(val).NotCompleted? && v.NotCompleted? ==> r == Throws(IllegalArgument) && unchanged(this)
      ensures old(val).NotCompleted? && v.Value? && old(onCompleteActions).None? ==>
                && r == Throws(NullPointer)
                && val == v && !released && onCompleteActions == None
                && delivered == old(delivered) && registered == old(registered)
      ensures old(val).NotCompleted? && v.Value? && old(onCompleteActions).Some? ==>
                && r == Returns(())
                && val == v && released && onCompleteActions == None
                && delivered == old(delivered) + Deliveries(old(onCompleteActions).value, v.value)
                && registered == old(registered)
    {
      if val.Value? {
        return Throws(IllegalState);
      }
      if v.NotCompleted? {
        return Throws(IllegalArgument);
      }
      val := v;
      if onCompleteActions.None? {
        return Throws(NullPointer);
      }
      ghost var before := delivered;
      Fire(onCompleteActions.value, v.value);
      ActionsAppend(before, Deliveries(onCompleteActions.value, v.value));
      onCompleteActions := None;
      released := true;
      r := Returns(());
    }

    /**
     * Manual.complete(v) as evidently intended: a null callback list counts
     * as empty, so every successful completion opens the latch.
     */
    method CompleteSafely(v: Slot<T>) returns (r: Call<()>)
      requires Valid() && variant.ManualVariant?
      modifies this
      ensures Valid()
      ensures old(val).Value? ==> r == Throws(IllegalState) && unchanged(this)
      ensures old(val).NotCompleted? && v.NotCompleted? ==> r == Throws(IllegalArgument) && unchanged(this)
      ensures old(val).NotCompleted? && v.Value? ==>
                && r == Returns(())
                && val == v && released && onCompleteActions == None
                && delivered == old(delivered) + Deliveries(old(onCompleteActions).GetOr([]), v.value)
                && registered == old(registered)
                && Get() == Returns(v.value)
    {
      if val.Value? {
        return Throws(IllegalState);
      }
      if v.NotCompleted? {
        return Throws(IllegalArgument);
      }
      val := v;
      ghost var before := delivered;
      var list := if onCompleteActions.None? then [] else onCompleteActions.value;
      Fire(list, v.value);
      ActionsAppend(before, Deliveries(list, v.value));
      onCompleteActions := None;
      released := true;
      r := Returns(());
    }

    /**
     * The watcher a decorator submits: wait for the wrapped future, then run
     * the queued callbacks once and drop the list. A wrapped future that
     * failed or was cancelled makes get() throw, and nothing is run.
     */
    method WatcherRun() returns (r: Call<()>)
      requires Valid() && variant.DecoratorVariant?
      modifies this
      ensures Valid()
      ensures old(variant.base.Get()).Returns? ==>
                && r == Returns(())
                && onCompleteActions == None
                && delivered == old(delivered) + Deliveries(old(onCompleteActions).GetOr([]), variant.base.state.value)
      ensures old(variant.base.Get()).Throws? ==> r == Throws(variant.base.Get().failure) && unchanged(this)
      ensures old(variant.base.Get()).Hangs? ==> r == Hangs && unchanged(this)
    {
      var g := variant.base.Get();
      match g
      case Returns(v) =>
        if onCompleteActions.Some? {
          Fire(onCompleteActions.value, v);
          onCompleteActions := None;
        }
        r := Returns(());
      case Throws(e) =>
        r := Throws(e);
      case Hangs =>
        r := Hangs;
    }
  }

  lemma ActionsAppend<T>(a: seq<Delivery<T>>, b: seq<Delivery<T>>)
    ensures Actions(a + b) == Actions(a) + Actions(b)
  {
  }

  /** A future of either kind that `decorator` may be given. */
  datatype AnyFuture<T> = Advanced(future: AdvancedFuture<T>) | Plain(task: Task<T>)

  /** decorator(f): an AdvancedFuture is returned as it is; any other future is wrapped. */
  method Decorate<T>(f: AnyFuture<T>) returns (a: AdvancedFuture<T>)
    ensures f.Advanced? ==> a == f.future
    ensures f.Plain? ==> fresh(a) && a.variant == DecoratorVariant(f.task) && a.Valid()
    ensures f.Plain? ==> a.onCompleteActions == None && a.delivered == []
  {
    if f.Advanced? {
      a := f.future;
    } else {
      a := new AdvancedFuture.Decorator(f.task);
    }
  }

  /** decorator(decorator(f)) is decorator(f). */
  method DecorateIdempotent<T>(f: AnyFuture<T>) returns (once: AdvancedFuture<T>, twice: AdvancedFuture<T>)
    ensures twice == once
  {
    once := Decorate(f);
    twice := Decorate(Advanced(once));
  }

  /**
   * The common use of manual(): complete a future nobody has subscribed to.
   * The value is stored, so the future reports done, but complete throws
   * before opening the latch: get() then blocks for ever, while get(timeout)
   * returns the value once the timeout expires.
   */
  method CompleteUnsubscribedManual<T>(v: T) returns (done: bool, r: Call<()>, g: Call<T>, t: Call<Slot<T>>)
    ensures r == Throws(NullPointer)
    ensures done && g == Hangs && t == Returns(Value(v))
  {
    var m := new AdvancedFuture<T>.Manual();
    r := m.Complete(Value(v));
    done := m.IsDone();
    g := m.Get();
    t := m.GetTimed();
  }

  /** With the corrected completion the same use opens the latch and get() returns the value. */
  method CompleteUnsubscribedManualSafely<T>(v: T) returns (done: bool, r: Call<()>, g: Call<T>)
    ensures r == Returns(())
    ensures done && g == Returns(v)
  {
    var m := new AdvancedFuture<T>.Manual();
    r := m.CompleteSafely(Value(v));
    done := m.IsDone();
    g := m.Get();
  }

  /** A callback registered on a pending Manual future runs once, after completion, with the value. */
  method SubscribeThenComplete<T>(action: Callback, v: T) returns (delivered: seq<Delivery<T>>)
    ensures delivered == [Delivery(action, v)]
  {
    var m := new AdvancedFuture<T>.Manual();
    var r1 := m.OnComplete(action);
    var r2 := m.Complete(Value(v));
    delivered := m.delivered;
  }

  /** A callback registered on a constant future runs at once, with the value. */
  method SubscribeToConstant<T>(action: Callback, v: T) returns (r: Call<()>, delivered: seq<Delivery<T>>)
    ensures r == Returns(())
    ensures delivered == [Delivery(action, v)]
  {
    var c := new AdvancedFuture<T>.Constant(v);
    r := c.OnComplete(action);
    delivered := c.delivered;
  }
}
