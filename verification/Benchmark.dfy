/**
 The benchmark results manager: any number of sending goroutines hand datapoints to one consumer over an unbuffered
 channel, a final nil ends the stream, and a waiter learns of the end by a second channel or by a shared flag.
 */
module Benchmark {
  datatype Consumer<D> =
    | NotStarted
    | Receiving
    | Holding(d: D)
    | GotEnd        // received the nil, flag still set
    | Announcing    // cleared the flag, blocked on the second channel
    | Finished

  /** AwaitAllResults: `Clearing` has received from the second channel and is about to clear the flag. */
  datatype Waiter = Idle | Selecting | Clearing | Returned(timedOut: bool)

  /** `sent` is the history of what went over the channel. */
  datatype State<D> = State(
    running: bool,
    datapoints: seq<D>,
    consumer: Consumer<D>,
    senders: seq<seq<D>>,
    endSent: bool,
    sent: seq<D>,
    waiter: Waiter)

  datatype Action =
    | Start
    | SendItem(i: nat)
    | SendEnd
    | Register
    | ClearFlag
    | AwaitCall
    | AwaitReceive
    | AwaitClear
    | AwaitTimeout
    | AwaitAgain

  function Init<D>(initial: seq<D>, senders: seq<seq<D>>): State<D> {
    State(false, initial, NotStarted, senders, false, [], Idle)
  }

  predicate AllSent<D>(senders: seq<seq<D>>) {
    forall i :: 0 <= i < |senders| ==> |senders[i]| == 0
  }

  /** A send and its receive are one step. The nil is sent after all results, as the manager asks of its callers. */
  predicate Enabled<D>(s: State<D>, a: Action) {
    match a
    case Start => s.consumer.NotStarted? && !s.running
    case SendItem(i) => s.consumer.Receiving? && i < |s.senders| && |s.senders[i]| > 0
    case SendEnd => s.consumer.Receiving? && AllSent(s.senders) && !s.endSent
    case Register => s.consumer.Holding?
    case ClearFlag => s.consumer.GotEnd?
    case AwaitCall => s.waiter.Idle?
    case AwaitReceive => s.waiter.Selecting? && s.consumer.Announcing?
    case AwaitClear => s.waiter.Clearing?
    case AwaitTimeout => s.waiter.Selecting?
    case AwaitAgain => s.waiter.Returned?
  }

  function Apply<D>(s: State<D>, a: Action): State<D>
    requires Enabled(s, a)
  {
    match a
    case Start => s.(running := true, consumer := Receiving)
    case SendItem(i) =>
      var d := s.senders[i][0];
      s.(senders := s.senders[i := s.senders[i][1..]], consumer := Holding(d), sent := s.sent + [d])
    case SendEnd => s.(consumer := GotEnd, endSent := true)
    case Register => s.(datapoints := s.datapoints + [s.consumer.d], consumer := Receiving)
    case ClearFlag => s.(running := false, consumer := Announcing)
    case AwaitCall => s.(waiter := if s.running then Selecting else Returned(false))
    case AwaitReceive => s.(waiter := Clearing, consumer := Finished)
    case AwaitClear => s.(running := false, waiter := Returned(false))
    case AwaitTimeout => s.(waiter := Returned(true))
    case AwaitAgain => s.(waiter := Idle)
  }

  predicate Runs<D>(s: State<D>, acts: seq<Action>)
    decreases |acts|
  {
    acts == [] || (Enabled(s, acts[0]) && Runs(Apply(s, acts[0]), acts[1..]))
  }

  function After<D>(s: State<D>, acts: seq<Action>): State<D>
    requires Runs(s, acts)
    decreases |acts|
  {
    if acts == [] then s else After(Apply(s, acts[0]), acts[1..])
  }

  /** The guard of WriteResultsFile. */
  predicate WriteAllowed<D>(s: State<D>) {
    !s.running
  }

  function Held<D>(c: Consumer<D>): seq<D> {
    if c.Holding? then [c.d] else []
  }

  /** Everything the senders still have to send. */
  ghost function Pending<D>(senders: seq<seq<D>>): multiset<D> {
    if senders == [] then multiset{} else multiset(senders[0]) + Pending(senders[1..])
  }

  lemma {:induction false} PendingTake<D>(senders: seq<seq<D>>, i: nat)
    requires i < |senders| && senders[i] != []
    ensures Pending(senders) == Pending(senders[i := senders[i][1..]]) + multiset{senders[i][0]}
  {
    assert senders[i] == [senders[i][0]] + senders[i][1..];
    if i == 0 {
      assert senders[0 := senders[0][1..]][1..] == senders[1..];
    } else {
      assert senders[i := senders[i][1..]][1..] == senders[1..][i - 1 := senders[i][1..]];
      PendingTake(senders[1..], i - 1);
    }
  }

  lemma {:induction false} PendingNone<D>(senders: seq<seq<D>>)
    requires AllSent(senders)
    ensures Pending(senders) == multiset{}
  {
    if senders != [] {
      PendingNone(senders[1..]);
    }
  }

  ghost predicate Inv<D>(initial: seq<D>, items: multiset<D>, s: State<D>) {
    && s.datapoints + Held(s.consumer) == initial + s.sent
    && multiset(s.sent) + Pending(s.senders) == items
    && (s.running <==> s.consumer.Receiving? || s.consumer.Holding? || s.consumer.GotEnd?)
    && (s.endSent <==> s.consumer.GotEnd? || s.consumer.Announcing? || s.consumer.Finished?)
    && (s.endSent ==> AllSent(s.senders))
    && (s.consumer.NotStarted? ==> s.sent == [])
    && (s.waiter.Selecting? ==> !s.consumer.NotStarted? && !s.consumer.Finished?)
    && (s.waiter.Clearing? ==> s.consumer.Finished?)
  }

  lemma InvApply<D>(initial: seq<D>, items: multiset<D>, s: State<D>, a: Action)
    requires Inv(initial, items, s) && Enabled(s, a)
    ensures Inv(initial, items, Apply(s, a))
  {
    if a.SendItem? {
      PendingTake(s.senders, a.i);
      assert s.datapoints + [s.senders[a.i][0]] == initial + (s.sent + [s.senders[a.i][0]]) by {
        assert s.datapoints + [] == s.datapoints;
      }
    }
    if a.Register? {
      assert s.datapoints + [s.consumer.d] + [] == s.datapoints + [s.consumer.d];
    }
  }

  lemma {:induction false} InvRuns<D>(initial: seq<D>, items: multiset<D>, s: State<D>, acts: seq<Action>)
    requires Inv(initial, items, s) && Runs(s, acts)
    ensures Inv(initial, items, After(s, acts))
    decreases |acts|
  {
    if acts != [] {
      InvApply(initial, items, s, acts[0]);
      InvRuns(initial, items, Apply(s, acts[0]), acts[1..]);
    }
  }

  lemma Reachable<D>(initial: seq<D>, senders: seq<seq<D>>, acts: seq<Action>)
    requires Runs(Init(initial, senders), acts)
    ensures Inv(initial, Pending(senders), After(Init(initial, senders), acts))
  {
    InvRuns(initial, Pending(senders), Init(initial, senders), acts);
  }

  /** At every step: registered plus in hand is what was sent, in order; sent plus still to send is everything. */
  lemma NothingLost<D>(initial: seq<D>, senders: seq<seq<D>>, acts: seq<Action>)
    requires Runs(Init(initial, senders), acts)
    ensures var s := After(Init(initial, senders), acts);
            && s.datapoints + Held(s.consumer) == initial + s.sent
            && multiset(s.sent) + Pending(s.senders) == Pending(senders)
  {
    Reachable(initial, senders, acts);
  }

  /** `Datapoints` holds what it held at the start and then every datapoint of every sender exactly once. */
  ghost predicate HoldsAll<D>(initial: seq<D>, senders: seq<seq<D>>, s: State<D>) {
    && s.datapoints == initial + s.sent
    && multiset(s.sent) == Pending(senders)
  }

  /** A file can be written exactly before the consumer is started and after it has seen the nil. */
  lemma WriteAllowedExactly<D>(initial: seq<D>, senders: seq<seq<D>>, acts: seq<Action>)
    requires Runs(Init(initial, senders), acts)
    ensures var s := After(Init(initial, senders), acts);
            WriteAllowed(s) <==> s.consumer.NotStarted? || s.consumer.Announcing? || s.consumer.Finished?
  {
    Reachable(initial, senders, acts);
  }

  /** Once the consumer was started, a file is written only with all the datapoints; before, with those of the start. */
  lemma WrittenFileIsComplete<D>(initial: seq<D>, senders: seq<seq<D>>, acts: seq<Action>)
    requires Runs(Init(initial, senders), acts)
    ensures var s := After(Init(initial, senders), acts);
            && (s.consumer.NotStarted? ==> s.datapoints == initial && s.sent == [])
            && (!s.consumer.NotStarted? && WriteAllowed(s) ==> s.endSent && HoldsAll(initial, senders, s))
            && (s.endSent && WriteAllowed(s) ==> HoldsAll(initial, senders, s))
  {
    Reachable(initial, senders, acts);
    var s := After(Init(initial, senders), acts);
    if s.endSent {
      PendingNone(s.senders);
    }
    assert s.datapoints + [] == s.datapoints && initial + [] == initial;
  }

  /** Once the consumer was started, whenever AwaitAllResults returns without error the datapoints are complete. */
  lemma AwaitedResultsAreComplete<D>(initial: seq<D>, senders: seq<seq<D>>, acts: seq<Action>, a: Action)
    requires Runs(Init(initial, senders), acts)
    requires Enabled(After(Init(initial, senders), acts), a) && (a.AwaitCall? || a.AwaitClear?)
    requires !After(Init(initial, senders), acts).consumer.NotStarted?
    requires Apply(After(Init(initial, senders), acts), a).waiter == Returned(false)
    ensures HoldsAll(initial, senders, Apply(After(Init(initial, senders), acts), a))
  {
    Reachable(initial, senders, acts);
    WrittenFileIsComplete(initial, senders, acts);
  }

  /** A wait reports an error exactly if it timed out. */
  lemma TimeoutIsReported<D>(s: State<D>, a: Action)
    requires Enabled(s, a) && !s.waiter.Returned? && Apply(s, a).waiter.Returned?
    ensures Apply(s, a).waiter.timedOut <==> a == AwaitTimeout
    ensures a == AwaitTimeout || (a == AwaitCall && !s.running) || a == AwaitClear
  {
  }

  /** Complete datapoints stay as they are. */
  lemma {:induction false} CompleteStays<D>(s: State<D>, acts: seq<Action>)
    requires s.consumer.Announcing? || s.consumer.Finished?
    requires Runs(s, acts)
    ensures After(s, acts).datapoints == s.datapoints
    decreases |acts|
  {
    if acts != [] {
      CompleteStays(Apply(s, acts[0]), acts[1..]);
    }
  }

  /** From the start of the consumer to its announcement of the end, some goroutine other than the waiter can move. */
  lemma StreamNeverStuck<D>(initial: seq<D>, senders: seq<seq<D>>, acts: seq<Action>)
    requires Runs(Init(initial, senders), acts)
    ensures var s := After(Init(initial, senders), acts);
            s.running ==> exists a :: Enabled(s, a) && (a.SendItem? || a.SendEnd? || a.Register? || a.ClearFlag?)
  {
    Reachable(initial, senders, acts);
    var s := After(Init(initial, senders), acts);
    if s.running {
      if s.consumer.Receiving? {
        if i :| 0 <= i < |s.senders| && |s.senders[i]| > 0 {
          assert Enabled(s, SendItem(i));
        } else {
          assert Enabled(s, SendEnd);
        }
      } else if s.consumer.Holding? {
        assert Enabled(s, Register);
      } else {
        assert Enabled(s, ClearFlag);
      }
    }
  }

  /** A waiter that comes after the flag was cleared returns at once, so nobody ever receives the announcement. */
  lemma {:induction false} UnheardAnnouncement<D>(s: State<D>, acts: seq<Action>)
    requires s.consumer.Announcing? && !s.running && !s.waiter.Selecting? && !s.waiter.Clearing?
    requires Runs(s, acts)
    ensures After(s, acts).consumer.Announcing?
    decreases |acts|
  {
    if acts != [] {
      UnheardAnnouncement(Apply(s, acts[0]), acts[1..]);
    }
  }

  /** A run after which the consumer goroutine has ended. */
  ghost predicate Finishes<D>(s: State<D>, more: seq<Action>) {
    Runs(s, more) && After(s, more).consumer.Finished?
  }

  /**
   While the consumer announces the end it can still finish exactly if a waiter is in its select: that waiter may
   receive the announcement, but once it has timed out, or if there was none, the consumer stays blocked for ever.
   */
  lemma AnnouncementHeardExactly<D>(initial: seq<D>, senders: seq<seq<D>>, acts: seq<Action>)
    requires Runs(Init(initial, senders), acts)
    requires After(Init(initial, senders), acts).consumer.Announcing?
    ensures var s := After(Init(initial, senders), acts);
            s.waiter.Selecting? <==> exists more :: Finishes(s, more)
  {
    Reachable(initial, senders, acts);
    var s := After(Init(initial, senders), acts);
    if s.waiter.Selecting? {
      var more: seq<Action> := [AwaitReceive];
      assert more[1..] == [];
      assert Finishes(s, more);
    } else {
      forall more ensures !Finishes(s, more) {
        if Runs(s, more) {
          UnheardAnnouncement(s, more);
        }
      }
    }
  }

  /** The blocked state is reachable: a waiter calls right after the flag was cleared and is told that all is well. */
  lemma AnnouncementCanGoUnheard<D>(initial: seq<D>)
    ensures var acts := [Start, SendEnd, ClearFlag, AwaitCall];
            && Runs(Init(initial, []), acts)
            && var s := After(Init(initial, []), acts);
               s.waiter == Returned(false) && s.consumer.Announcing? && !s.running
  {
  }
}
