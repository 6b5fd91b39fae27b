/**
 InterruptableRPC and the one-shot signal handler: any number of calls, each with a caller and a goroutine that
 performs the RPC, share one stop channel. The RPC's reply, the operating system's signals and the cancellation of a
 parent context may come at any time.
 */
module Interrupt {
  import opened Wrappers

  /** The global stop channel; a new one may take the place of an old one. */
  datatype StopChannel = Unset | Open | Closed

  /** The goroutine started by SetupInterruptSignalHandler, before and after it is started. */
  datatype HandlerPc = Unstarted | FirstWait | Closing | SecondWait | Exiting

  /** A handler with the buffer of its own signal channel; `taken` counts the signals it received. */
  datatype Handler = Handler(pc: HandlerPc, pending: nat, taken: nat)

  /** Why a context is cancelled; the first cause stays. */
  datatype Cause = Parent | Own

  datatype Outcome<T, E> = Replied(reply: Result<T, E>) | Interrupted(cause: Cause)

  datatype Worker<T, E> = Calling | Sending(reply: Result<T, E>) | Stopped(reply: Result<T, E>)

  /**
   A caller goes through sync.Once first: it looks at the flag, takes the lock, looks again, makes the stop channel,
   registers a signal channel, starts the handler, sets the flag, and unlocks.
   */
  datatype Caller<T, E> =
    | Launching
    | AtOnceLock
    | InOnce
    | Making
    | Registering
    | Starting
    | Flagging
    | Unlocking
    | Selecting
    | Cancelling
    | Leaving(outcome: Outcome<T, E>)
    | Returned(outcome: Outcome<T, E>)

  /** One call. `entered` counts the messages that ever entered its two channels, each of capacity 1. */
  datatype Call<T, E> = Call(
    resCh: seq<T>,
    errCh: seq<E>,
    cancelled: Option<Cause>,
    worker: Worker<T, E>,
    caller: Caller<T, E>,
    entered: nat)

  /** `closes` counts how often a stop channel was closed, `made` how many were made. */
  datatype State<T, E> = State(
    stop: StopChannel,
    made: nat,
    closes: nat,
    handlers: seq<Handler>,
    once: Option<nat>,
    onceDone: bool,
    exited: bool,
    calls: seq<Call<T, E>>)

  datatype Action<T, E> =
    | Begin
    | Signal
    | HandlerTake(h: nat)
    | HandlerClose(h: nat)
    | HandlerExit(h: nat)
    | OnceLook(i: nat)
    | OnceLock(i: nat)
    | OnceCheck(i: nat)
    | MakeStop(i: nat)
    | Register(i: nat)
    | StartHandler(i: nat)
    | OnceDone(i: nat)
    | OnceUnlock(i: nat)
    | ParentCancel(i: nat)
    | WorkerReply(i: nat, reply: Result<T, E>)
    | WorkerSend(i: nat)
    | SelectStop(i: nat)
    | SelectErr(i: nat)
    | SelectRes(i: nat)
    | CancelNow(i: nat)
    | Return(i: nat)

  function Init<T, E>(): State<T, E> {
    State(Unset, 0, 0, [], None, false, false, [])
  }

  /** The actions of a call that concern only the call itself. */
  predicate Local<T, E>(a: Action<T, E>) {
    a.ParentCancel? || a.WorkerReply? || a.WorkerSend? || a.SelectStop? || a.SelectErr? || a.SelectRes? || a.CancelNow?
    || a.Return?
  }

  predicate OfHandler<T, E>(a: Action<T, E>) {
    a.HandlerTake? || a.HandlerClose? || a.HandlerExit?
  }

  predicate OfOnce<T, E>(a: Action<T, E>) {
    !(a.Begin? || a.Signal? || OfHandler(a) || Local(a))
  }

  predicate CallEnabled<T, E>(stop: StopChannel, c: Call<T, E>, a: Action<T, E>) {
    match a
    case ParentCancel(_) => true
    case WorkerReply(_, _) => c.worker.Calling?
    case WorkerSend(_) => c.worker.Sending? && (if c.worker.reply.Ok? then |c.resCh| < 1 else |c.errCh| < 1)
    case SelectStop(_) => c.caller.Selecting? && stop.Closed?
    case SelectErr(_) => c.caller.Selecting? && c.errCh != []
    case SelectRes(_) => c.caller.Selecting? && c.resCh != []
    case CancelNow(_) => c.caller.Cancelling?
    case Return(_) => c.caller.Leaving?
    case _ => false
  }

  predicate OnceEnabled<T, E>(once: Option<nat>, caller: Caller<T, E>, a: Action<T, E>) {
    match a
    case OnceLook(_) => caller.Launching?
    case OnceLock(_) => caller.AtOnceLock? && once.None?
    case OnceCheck(_) => caller.InOnce?
    case MakeStop(_) => caller.Making?
    case Register(_) => caller.Registering?
    case StartHandler(_) => caller.Starting?
    case OnceDone(_) => caller.Flagging?
    case OnceUnlock(_) => caller.Unlocking?
    case _ => false
  }

  predicate HandlerEnabled<T, E>(h: Handler, a: Action<T, E>) {
    match a
    case HandlerTake(_) => h.pc in {FirstWait, SecondWait} && h.pending > 0
    case HandlerClose(_) => h.pc == Closing
    case HandlerExit(_) => h.pc == Exiting
    case _ => false
  }

  predicate Enabled<T, E>(s: State<T, E>, a: Action<T, E>) {
    && !s.exited
    && if a.Begin? || a.Signal? then true
       else if OfHandler(a) then a.h < |s.handlers| && HandlerEnabled(s.handlers[a.h], a)
       else
         && a.i < |s.calls|
         && if Local(a) then CallEnabled(s.stop, s.calls[a.i], a) else OnceEnabled(s.once, s.calls[a.i].caller, a)
  }

  function Cancel<T, E>(c: Call<T, E>, cause: Cause): Call<T, E> {
    if c.cancelled.None? then c.(cancelled := Some(cause)) else c
  }

  function CallApply<T, E>(stop: StopChannel, c: Call<T, E>, a: Action<T, E>): Call<T, E>
    requires Local(a) && CallEnabled(stop, c, a)
  {
    match a
    case ParentCancel(_) => Cancel(c, Parent)
    case WorkerReply(_, reply) => c.(worker := Sending(reply))
    case WorkerSend(_) =>
      var sent := c.(worker := Stopped(c.worker.reply), entered := c.entered + 1);
      match c.worker.reply {
        case Ok(v) => sent.(resCh := c.resCh + [v])
        case Err(e) => sent.(errCh := c.errCh + [e])
      }
    case SelectStop(_) => c.(caller := Cancelling)
    case SelectErr(_) => c.(errCh := c.errCh[1..], caller := Leaving(Replied(Err(c.errCh[0]))))
    case SelectRes(_) => c.(resCh := c.resCh[1..], caller := Leaving(Replied(Ok(c.resCh[0]))))
    case CancelNow(_) =>
      var c' := Cancel(c, Own);
      c'.(caller := Leaving(Interrupted(c'.cancelled.value)))
    case Return(_) => Cancel(c, Own).(caller := Returned(c.caller.outcome))
  }

  function Goto<T, E>(s: State<T, E>, i: nat, caller: Caller<T, E>): State<T, E>
    requires i < |s.calls|
  {
    s.(calls := s.calls[i := s.calls[i].(caller := caller)])
  }

  function Started(handlers: seq<Handler>): seq<Handler> {
    if handlers == [] then []
    else handlers[..|handlers| - 1] + [handlers[|handlers| - 1].(pc := FirstWait)]
  }

  /** The steps of SetupInterruptSignalHandler. */
  function OnceApply<T, E>(s: State<T, E>, a: Action<T, E>): State<T, E>
    requires OfOnce(a) && Enabled(s, a)
  {
    match a
    case OnceLook(i) => Goto(s, i, if s.onceDone then Selecting else AtOnceLock)
    case OnceLock(i) => Goto(s, i, InOnce).(once := Some(i))
    case OnceCheck(i) => Goto(s, i, if s.onceDone then Unlocking else Making)
    case MakeStop(i) => Goto(s, i, Registering).(stop := Open, made := s.made + 1)
    case Register(i) => Goto(s, i, Starting).(handlers := s.handlers + [Handler(Unstarted, 0, 0)])
    case StartHandler(i) => Goto(s, i, Flagging).(handlers := Started(s.handlers))
    case OnceDone(i) => Goto(s, i, Unlocking).(onceDone := true)
    case OnceUnlock(i) => Goto(s, i, Selecting).(once := None)
  }

  function HandlerApply<T, E>(s: State<T, E>, a: Action<T, E>): State<T, E>
    requires OfHandler(a) && Enabled(s, a)
  {
    var h := s.handlers[a.h];
    match a
    case HandlerTake(k) =>
      var next := if h.pc == FirstWait then Closing else Exiting;
      s.(handlers := s.handlers[k := Handler(next, h.pending - 1, h.taken + 1)])
    case HandlerClose(k) =>
      s.(stop := Closed, closes := s.closes + 1, handlers := s.handlers[k := h.(pc := SecondWait)])
    case HandlerExit(_) => s.(exited := true)
  }

  /** Each registered channel buffers two signals and drops more. */
  function Signalled(handlers: seq<Handler>): (r: seq<Handler>)
    ensures |r| == |handlers|
  {
    seq(|handlers|, k requires 0 <= k < |handlers| =>
      handlers[k].(pending := if handlers[k].pending < 2 then handlers[k].pending + 1 else 2))
  }

  /** Before a channel is registered, a signal ends the process. */
  function Apply<T, E>(s: State<T, E>, a: Action<T, E>): State<T, E>
    requires Enabled(s, a)
  {
    if a.Begin? then s.(calls := s.calls + [Call([], [], None, Calling, Launching, 0)])
    else if a.Signal? then
      if s.handlers == [] then s.(exited := true) else s.(handlers := Signalled(s.handlers))
    else if OfHandler(a) then HandlerApply(s, a)
    else if Local(a) then s.(calls := s.calls[a.i := CallApply(s.stop, s.calls[a.i], a)])
    else OnceApply(s, a)
  }

  predicate Runs<T, E>(s: State<T, E>, acts: seq<Action<T, E>>)
    decreases |acts|
  {
    acts == [] || (Enabled(s, acts[0]) && Runs(Apply(s, acts[0]), acts[1..]))
  }

  function After<T, E>(s: State<T, E>, acts: seq<Action<T, E>>): State<T, E>
    requires Runs(s, acts)
    decreases |acts|
  {
    if acts == [] then s else After(Apply(s, acts[0]), acts[1..])
  }

  predicate Left<T, E>(caller: Caller<T, E>) {
    caller.Leaving? || caller.Returned?
  }

  /** The reply that is in a channel or was received by the caller. */
  ghost predicate Delivered<T, E>(c: Call<T, E>, reply: Result<T, E>) {
    || (match reply { case Ok(v) => c.resCh == [v] && c.errCh == [] case Err(e) => c.errCh == [e] && c.resCh == [] })
    || (c.resCh == [] && c.errCh == [] && Left(c.caller) && c.caller.outcome == Replied(reply))
  }

  /** The caller has the stop channel. */
  predicate HasStop<T, E>(caller: Caller<T, E>) {
    caller.Selecting? || caller.Cancelling? || Left(caller)
  }

  ghost predicate CallInv<T, E>(stop: StopChannel, c: Call<T, E>) {
    && (!c.worker.Stopped? ==>
          && c.entered == 0 && c.resCh == [] && c.errCh == []
          && (Left(c.caller) ==> c.caller.outcome.Interrupted?))
    && (c.worker.Stopped? ==>
          && c.entered == 1
          && Delivered(c, c.worker.reply)
          && (Left(c.caller) && c.caller.outcome.Replied? ==> c.resCh == [] && c.errCh == []))
    && (HasStop(c.caller) ==> !stop.Unset?)
    && (c.caller.Cancelling? ==> stop.Closed?)
    && (Left(c.caller) && c.caller.outcome.Interrupted? ==> stop.Closed? && c.cancelled == Some(c.caller.outcome.cause))
    && (c.caller.Returned? ==> c.cancelled.Some?)
  }

  ghost predicate CallsInv<T, E>(s: State<T, E>) {
    forall i :: 0 <= i < |s.calls| ==> CallInv(s.stop, s.calls[i])
  }

  predicate HoldsOnce<T, E>(caller: Caller<T, E>) {
    caller.InOnce? || caller.Making? || caller.Registering? || caller.Starting? || caller.Flagging? || caller.Unlocking?
  }

  /** Nothing is set up yet. */
  predicate Bare<T, E>(s: State<T, E>) {
    s.stop.Unset? && s.made == 0 && s.closes == 0 && s.handlers == []
  }

  /** There is one channel and one handler, which is running and has taken as many signals as its place says. */
  predicate Watched<T, E>(s: State<T, E>) {
    && s.made == 1 && |s.handlers| == 1
    && match s.handlers[0].pc
       case Unstarted => false
       case FirstWait => s.handlers[0].taken == 0 && s.stop.Open? && s.closes == 0
       case Closing => s.handlers[0].taken == 1 && s.stop.Open? && s.closes == 0
       case SecondWait => s.handlers[0].taken == 1 && s.stop.Closed? && s.closes == 1
       case Exiting => s.handlers[0].taken == 2 && s.stop.Closed? && s.closes == 1
  }

  /** How far the setup is while `caller` holds the lock of the Once. */
  predicate Setup<T, E>(s: State<T, E>, caller: Caller<T, E>) {
    match caller
    case InOnce => if s.onceDone then Watched(s) else Bare(s)
    case Making => !s.onceDone && Bare(s)
    case Registering => !s.onceDone && s.stop.Open? && s.made == 1 && s.closes == 0 && s.handlers == []
    case Starting =>
      && !s.onceDone && s.stop.Open? && s.made == 1 && s.closes == 0
      && |s.handlers| == 1 && s.handlers[0].pc == Unstarted && s.handlers[0].taken == 0
    case Flagging => !s.onceDone && Watched(s)
    case Unlocking => s.onceDone && Watched(s)
    case _ => false
  }

  ghost predicate OnceInv<T, E>(s: State<T, E>) {
    && (forall i :: 0 <= i < |s.calls| ==> (HoldsOnce(s.calls[i].caller) <==> s.once == Some(i)))
    && (match s.once
        case Some(i) => i < |s.calls| && Setup(s, s.calls[i].caller)
        case None => if s.onceDone then Watched(s) else Bare(s))
  }

  /** The process ended before a handler was registered, or by a handler. */
  ghost predicate ExitInv<T, E>(s: State<T, E>) {
    && (s.exited ==> s.handlers == [] || s.handlers[|s.handlers| - 1].pc == Exiting)
    && forall h :: 0 <= h < |s.handlers| ==> s.handlers[h].pending <= 2
  }

  ghost predicate Inv<T, E>(s: State<T, E>) {
    CallsInv(s) && OnceInv(s) && ExitInv(s)
  }

  lemma CallInvApply<T, E>(stop: StopChannel, c: Call<T, E>, a: Action<T, E>)
    requires CallInv(stop, c) && Local(a) && CallEnabled(stop, c, a)
    ensures CallInv(stop, CallApply(stop, c, a))
    ensures HoldsOnce(CallApply(stop, c, a).caller) <==> HoldsOnce(c.caller)
    ensures HoldsOnce(c.caller) ==> CallApply(stop, c, a).caller == c.caller
  {
  }

  /** Call `i` goes from one state to another, and the stop channel stays or is made. */
  lemma CallsStep<T, E>(s: State<T, E>, s': State<T, E>, i: nat)
    requires CallsInv(s) && i < |s.calls| && |s'.calls| == |s.calls| && s'.calls == s.calls[i := s'.calls[i]]
    requires s'.stop == s.stop || (s.stop.Unset? && s'.stop.Open?)
    requires CallInv(s'.stop, s'.calls[i])
    ensures CallsInv(s')
  {
    forall j | 0 <= j < |s'.calls| && j != i ensures CallInv(s'.stop, s'.calls[j]) {
      assert s'.calls[j] == s.calls[j] && CallInv(s.stop, s.calls[j]);
    }
  }

  /** Who holds the lock of the Once, when call `i` goes from one state to another. */
  predicate LockFits<T, E>(s: State<T, E>, s': State<T, E>, i: nat)
    requires i < |s.calls| == |s'.calls|
  {
    s'.once ==
      if HoldsOnce(s'.calls[i].caller) then Some(i) else if HoldsOnce(s.calls[i].caller) then None else s.once
  }

  lemma LockStep<T, E>(s: State<T, E>, s': State<T, E>, i: nat)
    requires forall j :: 0 <= j < |s.calls| ==> (HoldsOnce(s.calls[j].caller) <==> s.once == Some(j))
    requires i < |s.calls| == |s'.calls| && s'.calls == s.calls[i := s'.calls[i]] && LockFits(s, s', i)
    requires HoldsOnce(s'.calls[i].caller) ==> HoldsOnce(s.calls[i].caller) || s.once.None?
    ensures forall j :: 0 <= j < |s'.calls| ==> (HoldsOnce(s'.calls[j].caller) <==> s'.once == Some(j))
  {
    forall j | 0 <= j < |s'.calls| && j != i ensures HoldsOnce(s'.calls[j].caller) <==> s'.once == Some(j) {
      assert s'.calls[j] == s.calls[j];
    }
  }

  lemma OnceLocal<T, E>(s: State<T, E>, s': State<T, E>, i: nat)
    requires OnceInv(s) && i < |s.calls| == |s'.calls| && s' == s.(calls := s.calls[i := s'.calls[i]])
    requires HoldsOnce(s'.calls[i].caller) <==> HoldsOnce(s.calls[i].caller)
    requires HoldsOnce(s.calls[i].caller) ==> s'.calls[i].caller == s.calls[i].caller
    ensures OnceInv(s')
  {
    LockStep(s, s', i);
  }

  lemma InvLocal<T, E>(s: State<T, E>, a: Action<T, E>)
    requires Inv(s) && Enabled(s, a) && Local(a)
    ensures Inv(Apply(s, a))
  {
    var s' := Apply(s, a);
    assert CallInv(s.stop, s.calls[a.i]);
    CallInvApply(s.stop, s.calls[a.i], a);
    CallsStep(s, s', a.i);
    OnceLocal(s, s', a.i);
  }

  /** On its way through the setup a call has no outcome yet, and so nothing to keep. */
  lemma CallInvSetup<T, E>(stop: StopChannel, c: Call<T, E>, stop': StopChannel, caller': Caller<T, E>)
    requires CallInv(stop, c) && !HasStop(c.caller)
    requires !HasStop(caller') || (caller'.Selecting? && !stop'.Unset?)
    ensures CallInv(stop', c.(caller := caller'))
  {
  }

  lemma CallsOnce<T, E>(s: State<T, E>, a: Action<T, E>)
    requires Inv(s) && Enabled(s, a) && OfOnce(a)
    ensures CallsInv(OnceApply(s, a))
  {
    var s' := OnceApply(s, a);
    assert CallInv(s.stop, s.calls[a.i]);
    assert HoldsOnce(s.calls[a.i].caller) <==> s.once == Some(a.i);
    CallInvSetup(s.stop, s.calls[a.i], s'.stop, s'.calls[a.i].caller);
    CallsStep(s, s', a.i);
  }

  /** Until the flag is set only the holder of the lock changes the setup. */
  lemma SetupOnce<T, E>(s: State<T, E>, a: Action<T, E>)
    requires OnceInv(s) && Enabled(s, a) && OfOnce(a)
    ensures OnceInv(OnceApply(s, a))
  {
    assert HoldsOnce(s.calls[a.i].caller) <==> s.once == Some(a.i);
    LockStep(s, OnceApply(s, a), a.i);
  }

  lemma InvHandler<T, E>(s: State<T, E>, a: Action<T, E>)
    requires Inv(s) && Enabled(s, a) && OfHandler(a)
    ensures Inv(Apply(s, a))
  {
  }

  lemma InvApply<T, E>(s: State<T, E>, a: Action<T, E>)
    requires Inv(s) && Enabled(s, a)
    ensures Inv(Apply(s, a))
  {
    if a.Begin? || a.Signal? {
    } else if OfHandler(a) {
      InvHandler(s, a);
    } else if Local(a) {
      InvLocal(s, a);
    } else {
      CallsOnce(s, a);
      SetupOnce(s, a);
    }
  }

  lemma {:induction false} InvRuns<T, E>(s: State<T, E>, acts: seq<Action<T, E>>)
    requires Inv(s) && Runs(s, acts)
    ensures Inv(After(s, acts))
    decreases |acts|
  {
    if acts != [] {
      InvApply(s, acts[0]);
      InvRuns(Apply(s, acts[0]), acts[1..]);
    }
  }

  /** The signals that the handlers took so far. */
  function Taken<T, E>(s: State<T, E>): nat {
    if s.handlers == [] then 0 else s.handlers[|s.handlers| - 1].taken
  }

  /**
   However many calls race through the setup, at most one stop channel is made and one handler started; a caller waits
   on the channel only when it is there; and it is closed at most once, after a first signal.
   */
  lemma StopClosedAtMostOnce<T, E>(acts: seq<Action<T, E>>)
    requires Runs(Init<T, E>(), acts)
    ensures var s := After(Init<T, E>(), acts);
            && s.made <= 1 && |s.handlers| <= 1 && s.closes <= 1
            && (forall i :: 0 <= i < |s.calls| && s.calls[i].caller.Selecting? ==> s.made == 1 && !s.stop.Unset?)
            && (s.stop.Closed? <==> s.closes == 1)
            && (s.stop.Closed? ==> Taken(s) >= 1)
            && forall h: nat :: Enabled(s, HandlerClose(h)) ==> s.stop.Open?
  {
    InvRuns(Init<T, E>(), acts);
    var s := After(Init<T, E>(), acts);
    forall i | 0 <= i < |s.calls| && s.calls[i].caller.Selecting? ensures s.made == 1 && !s.stop.Unset? {
      assert CallInv(s.stop, s.calls[i]);
    }
  }

  /** The process exits by the handler only after it took two signals. */
  lemma ExitNeedsTwoSignals<T, E>(acts: seq<Action<T, E>>, h: nat)
    requires Runs(Init<T, E>(), acts)
    requires Enabled(After(Init<T, E>(), acts), HandlerExit(h))
    ensures var s := After(Init<T, E>(), acts);
            s.handlers[h].taken == 2 && s.closes == 1
  {
    InvRuns(Init<T, E>(), acts);
  }

  /** The process ends by a signal before anything is registered, or by the handler after two signals; not otherwise. */
  lemma ProcessExits<T, E>(acts: seq<Action<T, E>>)
    requires Runs(Init<T, E>(), acts)
    ensures var s := After(Init<T, E>(), acts);
            && (s.exited ==> s.handlers == [] || (Taken(s) == 2 && s.closes == 1))
            && (!s.exited ==> (Apply(s, Signal).exited <==> s.handlers == []))
  {
    InvRuns(Init<T, E>(), acts);
  }

  lemma Step<T, E>(s: State<T, E>, a: Action<T, E>, rest: seq<Action<T, E>>)
    requires Enabled(s, a) && Runs(Apply(s, a), rest)
    ensures Runs(s, [a] + rest) && After(s, [a] + rest) == After(Apply(s, a), rest)
  {
    assert ([a] + rest)[1..] == rest;
  }

  lemma ThreeSteps<T, E>(s: State<T, E>, s1: State<T, E>, s2: State<T, E>, a: Action<T, E>, b: Action<T, E>,
      c: Action<T, E>)
    requires Enabled(s, a) && s1 == Apply(s, a) && Enabled(s1, b) && s2 == Apply(s1, b) && Enabled(s2, c)
    ensures Runs(s, [a, b, c]) && After(s, [a, b, c]) == Apply(s2, c)
  {
    Step(s2, c, []);
    Step(s1, b, [c] + []);
    Step(s, a, [b] + ([c] + []));
    assert [a] + ([b] + ([c] + [])) == [a, b, c];
  }

  /** A first signal is taken, the handler closes the channel, and then every waiting caller can leave. */
  lemma FirstSignalCloses<T, E>(acts: seq<Action<T, E>>, i: nat)
    requires Runs(Init<T, E>(), acts) && !After(Init<T, E>(), acts).exited
    requires var s := After(Init<T, E>(), acts); s.handlers != [] && s.handlers[0].pc == FirstWait
    ensures var s := After(Init<T, E>(), acts);
            var steps := [Signal, HandlerTake(0), HandlerClose(0)];
            && Runs(s, steps) && After(s, steps).stop.Closed? && !After(s, steps).exited
            && (i < |s.calls| && s.calls[i].caller.Selecting? ==> Enabled(After(s, steps), SelectStop(i)))
  {
    InvRuns(Init<T, E>(), acts);
    var s := After(Init<T, E>(), acts);
    var s1 := Apply(s, Signal);
    var s2 := Apply(s1, HandlerTake(0));
    ThreeSteps(s, s1, s2, Signal, HandlerTake(0), HandlerClose(0));
  }

  /** A second signal is taken, and the handler ends the process. */
  lemma SecondSignalExits<T, E>(acts: seq<Action<T, E>>)
    requires Runs(Init<T, E>(), acts) && !After(Init<T, E>(), acts).exited
    requires var s := After(Init<T, E>(), acts); s.handlers != [] && s.handlers[0].pc == SecondWait
    ensures var s := After(Init<T, E>(), acts);
            var steps := [Signal, HandlerTake(0), HandlerExit(0)];
            Runs(s, steps) && After(s, steps).exited
  {
    InvRuns(Init<T, E>(), acts);
    var s := After(Init<T, E>(), acts);
    var s1 := Apply(s, Signal);
    var s2 := Apply(s1, HandlerTake(0));
    ThreeSteps(s, s1, s2, Signal, HandlerTake(0), HandlerExit(0));
  }

  /** A registered channel keeps up to two signals that were not taken yet. */
  lemma SignalsAreBuffered<T, E>(acts: seq<Action<T, E>>, h: nat)
    requires Runs(Init<T, E>(), acts) && !After(Init<T, E>(), acts).exited
    requires h < |After(Init<T, E>(), acts).handlers|
    ensures var s := After(Init<T, E>(), acts);
            var pending := s.handlers[h].pending;
            && Apply(s, Signal).handlers[h].pending == (if pending == 0 then 1 else 2)
            && (pending > 0 && s.handlers[h].pc in {FirstWait, SecondWait} ==>
                  && Enabled(s, HandlerTake(h))
                  && Apply(s, HandlerTake(h)).handlers[h].pending == pending - 1
                  && Apply(s, HandlerTake(h)).handlers[h].taken == s.handlers[h].taken + 1)
  {
    InvRuns(Init<T, E>(), acts);
  }

  /** Someone can always move while a call is in the setup: the Once never deadlocks. */
  lemma SetupNeverStuck<T, E>(acts: seq<Action<T, E>>, i: nat)
    requires Runs(Init<T, E>(), acts) && i < |After(Init<T, E>(), acts).calls|
    requires !After(Init<T, E>(), acts).exited && !HasStop(After(Init<T, E>(), acts).calls[i].caller)
    ensures exists a :: Enabled(After(Init<T, E>(), acts), a) && OfOnce(a)
  {
    InvRuns(Init<T, E>(), acts);
    var s := After(Init<T, E>(), acts);
    var j := if s.calls[i].caller.AtOnceLock? && s.once.Some? then s.once.value else i;
    var caller := s.calls[j].caller;
    var a: Action<T, E> :=
      if caller.Launching? then OnceLook(j)
      else if caller.AtOnceLock? then OnceLock(j)
      else if caller.InOnce? then OnceCheck(j)
      else if caller.Making? then MakeStop(j)
      else if caller.Registering? then Register(j)
      else if caller.Starting? then StartHandler(j)
      else if caller.Flagging? then OnceDone(j)
      else OnceUnlock(j);
    assert Enabled(s, a);
  }

  /** At most one message ever enters the two result channels of a call. */
  lemma AtMostOneMessage<T, E>(acts: seq<Action<T, E>>, i: nat)
    requires Runs(Init<T, E>(), acts) && i < |After(Init<T, E>(), acts).calls|
    ensures var c := After(Init<T, E>(), acts).calls[i]; c.entered <= 1 && |c.resCh| + |c.errCh| <= c.entered
  {
    InvRuns(Init<T, E>(), acts);
    assert CallInv(After(Init<T, E>(), acts).stop, After(Init<T, E>(), acts).calls[i]);
  }

  /** The goroutine of a call is never stuck on its send, whether or not the caller is still there. */
  lemma WorkerNeverBlocks<T, E>(acts: seq<Action<T, E>>, i: nat)
    requires Runs(Init<T, E>(), acts) && i < |After(Init<T, E>(), acts).calls|
    requires !After(Init<T, E>(), acts).exited
    requires After(Init<T, E>(), acts).calls[i].worker.Sending?
    ensures Enabled(After(Init<T, E>(), acts), WorkerSend(i))
  {
    InvRuns(Init<T, E>(), acts);
    assert CallInv(After(Init<T, E>(), acts).stop, After(Init<T, E>(), acts).calls[i]);
  }

  /** Once the RPC has replied or the stop channel is closed, the waiting caller can leave its select. */
  lemma CallerNeverStuck<T, E>(acts: seq<Action<T, E>>, i: nat)
    requires Runs(Init<T, E>(), acts) && i < |After(Init<T, E>(), acts).calls|
    requires !After(Init<T, E>(), acts).exited
    requires After(Init<T, E>(), acts).calls[i].caller.Selecting?
    ensures var s := After(Init<T, E>(), acts);
            (s.calls[i].worker.Stopped? || s.stop.Closed?) <==>
            (Enabled(s, SelectStop(i)) || Enabled(s, SelectErr(i)) || Enabled(s, SelectRes(i)))
  {
    InvRuns(Init<T, E>(), acts);
    assert CallInv(After(Init<T, E>(), acts).stop, After(Init<T, E>(), acts).calls[i]);
  }

  /**
   What a call may return: the very reply of its RPC, or an interruption, and that only after a signal closed the stop
   channel. Its context is cancelled on every return.
   */
  lemma ReturnedFaithfully<T, E>(acts: seq<Action<T, E>>, i: nat)
    requires Runs(Init<T, E>(), acts) && i < |After(Init<T, E>(), acts).calls|
    requires After(Init<T, E>(), acts).calls[i].caller.Returned?
    ensures var s := After(Init<T, E>(), acts);
            var c := s.calls[i];
            && c.cancelled.Some?
            && match c.caller.outcome
               case Replied(reply) => c.worker == Stopped(reply)
               case Interrupted(cause) => s.stop.Closed? && Taken(s) >= 1 && c.cancelled == Some(cause)
  {
    InvRuns(Init<T, E>(), acts);
    assert CallInv(After(Init<T, E>(), acts).stop, After(Init<T, E>(), acts).calls[i]);
  }

  lemma {:induction false} CauseStays<T, E>(s: State<T, E>, acts: seq<Action<T, E>>, i: nat)
    requires Runs(s, acts) && i < |s.calls| && s.calls[i].cancelled.Some?
    ensures i < |After(s, acts).calls| && After(s, acts).calls[i].cancelled == s.calls[i].cancelled
    decreases |acts|
  {
    if acts != [] {
      CauseStays(Apply(s, acts[0]), acts[1..], i);
    }
  }

  /** If the parent is cancelled first, that is the cause that any later interruption reports. */
  lemma ParentCancelShows<T, E>(acts: seq<Action<T, E>>, i: nat, more: seq<Action<T, E>>)
    requires Runs(Init<T, E>(), acts) && Enabled(After(Init<T, E>(), acts), ParentCancel(i))
    requires After(Init<T, E>(), acts).calls[i].cancelled.None?
    requires Runs(Apply(After(Init<T, E>(), acts), ParentCancel(i)), more)
    ensures var s := After(Apply(After(Init<T, E>(), acts), ParentCancel(i)), more);
            && i < |s.calls| && s.calls[i].cancelled == Some(Parent)
            && (s.calls[i].caller.Returned? && s.calls[i].caller.outcome.Interrupted? ==>
                  s.calls[i].caller.outcome.cause == Parent)
  {
    InvRuns(Init<T, E>(), acts);
    var s := Apply(After(Init<T, E>(), acts), ParentCancel(i));
    InvApply(After(Init<T, E>(), acts), ParentCancel(i));
    InvRuns(s, more);
    CauseStays(s, more, i);
    assert CallInv(After(s, more).stop, After(s, more).calls[i]);
  }
}
