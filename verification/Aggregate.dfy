/**
 AggregateGoroutines: one goroutine per function, a channel whose capacity is the number of functions,
 and a collector that receives that many results. The functions themselves are arbitrary programs of
 atomic actions, and every interleaving of all goroutines is a run.
 */
module Aggregate {
  import opened Wrappers

  /**
   The body of one function: `step` relates a local state, the call the action makes (if any) and the next local
   state; `result` is what the body returned, once it has (a nil error is `Some(None)`); `rank` bounds what is left.
   */
  datatype Program<!W, !Ev, !E> = Program(
    step: (W, Option<Ev>, W) -> bool,
    result: W -> Option<Option<E>>,
    rank: W -> nat)

  /** Every body returns: each action lowers the rank, and a body that has not returned has a next action. */
  ghost predicate Terminates<W(!new), Ev(!new), E(!new)>(p: Program<W, Ev, E>) {
    && (forall w, ev, w' :: p.step(w, ev, w') ==> p.rank(w') < p.rank(w))
    && (forall w :: p.result(w).None? ==> exists ev, w' :: p.step(w, ev, w'))
  }

  datatype Worker<W, E> =
    | Unborn(start: W)
    | Running(local: W)
    | Sending(outcome: Option<E>)
    | Exited(outcome: Option<E>)

  /** The calling goroutine. `received` is the history of what the collecting loop took from the channel. */
  datatype Caller<E> =
    | Spawning(next: nat)
    | Collecting(received: seq<Option<E>>, errs: seq<E>)
    | Returned(received: seq<Option<E>>, joined: Option<seq<E>>)

  datatype State<W, Ev, E> = State(
    workers: seq<Worker<W, E>>,
    chan: seq<Option<E>>,
    caller: Caller<E>,
    log: seq<(nat, Ev)>)

  datatype Action<W, Ev> =
    | Spawn
    | StartCollecting
    | Work(i: nat, ev: Option<Ev>, w': W)
    | Finish(i: nat)
    | Send(i: nat)
    | Receive
    | JoinErrors

  function Init<W, Ev, E>(starts: seq<W>): State<W, Ev, E> {
    State(seq(|starts|, i requires 0 <= i < |starts| => Unborn(starts[i])), [], Spawning(0), [])
  }

  /** The buffered channel has one slot per function, so a send is possible while the buffer is shorter than that. */
  predicate Enabled<W, Ev, E>(p: Program<W, Ev, E>, s: State<W, Ev, E>, a: Action<W, Ev>) {
    match a
    case Spawn => s.caller.Spawning? && s.caller.next < |s.workers| && s.workers[s.caller.next].Unborn?
    case StartCollecting => s.caller.Spawning? && s.caller.next == |s.workers|
    case Work(i, ev, w') => i < |s.workers| && s.workers[i].Running? && p.step(s.workers[i].local, ev, w')
    case Finish(i) => i < |s.workers| && s.workers[i].Running? && p.result(s.workers[i].local).Some?
    case Send(i) => i < |s.workers| && s.workers[i].Sending? && |s.chan| < |s.workers|
    case Receive => s.caller.Collecting? && |s.caller.received| < |s.workers| && s.chan != []
    case JoinErrors => s.caller.Collecting? && |s.caller.received| == |s.workers|
  }

  function Apply<W, Ev, E>(p: Program<W, Ev, E>, s: State<W, Ev, E>, a: Action<W, Ev>): State<W, Ev, E>
    requires Enabled(p, s, a)
  {
    match a
    case Spawn =>
      var i := s.caller.next;
      s.(workers := s.workers[i := Running(s.workers[i].start)], caller := Spawning(i + 1))
    case StartCollecting => s.(caller := Collecting([], []))
    case Work(i, ev, w') =>
      s.(workers := s.workers[i := Running(w')],
         log := if ev.Some? then s.log + [(i, ev.value)] else s.log)
    case Finish(i) => s.(workers := s.workers[i := Sending(p.result(s.workers[i].local).value)])
    case Send(i) =>
      var r := s.workers[i].outcome;
      s.(workers := s.workers[i := Exited(r)], chan := s.chan + [r])
    case Receive =>
      var r := s.chan[0];
      s.(chan := s.chan[1..],
         caller := Collecting(s.caller.received + [r], if r.Some? then s.caller.errs + [r.value] else s.caller.errs))
    case JoinErrors =>
      var errs := s.caller.errs;
      s.(caller := Returned(s.caller.received, if errs == [] then None else Some(errs)))
  }

  /** `acts` is a schedule that can be followed from `s`. */
  predicate Runs<W, Ev, E>(p: Program<W, Ev, E>, s: State<W, Ev, E>, acts: seq<Action<W, Ev>>)
    decreases |acts|
  {
    acts == [] || (Enabled(p, s, acts[0]) && Runs(p, Apply(p, s, acts[0]), acts[1..]))
  }

  function After<W, Ev, E>(p: Program<W, Ev, E>, s: State<W, Ev, E>, acts: seq<Action<W, Ev>>): State<W, Ev, E>
    requires Runs(p, s, acts)
    decreases |acts|
  {
    if acts == [] then s else After(p, Apply(p, s, acts[0]), acts[1..])
  }

  // ---------- conservation of results

  /** The results of the goroutines that have sent. */
  ghost function SentResults<W, E>(ws: seq<Worker<W, E>>): multiset<Option<E>> {
    if ws == [] then multiset{}
    else (if ws[0].Exited? then multiset{ws[0].outcome} else multiset{}) + SentResults(ws[1..])
  }

  function NonNil<E>(rs: seq<Option<E>>): seq<E> {
    if rs == [] then []
    else NonNil(rs[..|rs| - 1]) + (if rs[|rs| - 1].Some? then [rs[|rs| - 1].value] else [])
  }

  lemma {:induction false} SentResultsUpdate<W, E>(ws: seq<Worker<W, E>>, i: nat, w: Worker<W, E>)
    requires i < |ws| && !ws[i].Exited?
    ensures SentResults(ws[i := w]) == SentResults(ws) + (if w.Exited? then multiset{w.outcome} else multiset{})
  {
    if i == 0 {
      assert ws[0 := w][1..] == ws[1..];
    } else {
      assert ws[i := w][1..] == ws[1..][i - 1 := w];
      SentResultsUpdate(ws[1..], i - 1, w);
    }
  }

  lemma {:induction false} SentResultsSize<W, E>(ws: seq<Worker<W, E>>)
    ensures |SentResults(ws)| <= |ws|
    ensures forall i :: 0 <= i < |ws| && !ws[i].Exited? ==> |SentResults(ws)| < |ws|
  {
    if ws != [] {
      SentResultsSize(ws[1..]);
      assert forall i :: 0 < i < |ws| ==> ws[i] == ws[1..][i - 1];
    }
  }

  lemma {:induction false} NoneSent<W, E>(ws: seq<Worker<W, E>>)
    requires forall i :: 0 <= i < |ws| ==> !ws[i].Exited?
    ensures SentResults(ws) == multiset{}
  {
    if ws != [] {
      NoneSent(ws[1..]);
    }
  }

  /** What every action keeps. */
  ghost predicate Inv<W, Ev, E>(s: State<W, Ev, E>) {
    var n := |s.workers|;
    && (forall i :: 0 <= i < n ==> (s.workers[i].Unborn? <==> s.caller.Spawning? && s.caller.next <= i))
    && (s.caller.Spawning? ==> s.caller.next <= n && multiset(s.chan) == SentResults(s.workers))
    && (s.caller.Collecting? ==>
          && |s.caller.received| <= n
          && s.caller.errs == NonNil(s.caller.received)
          && multiset(s.caller.received) + multiset(s.chan) == SentResults(s.workers))
    && (s.caller.Returned? ==>
          && s.chan == []
          && (forall i :: 0 <= i < n ==> s.workers[i].Exited?)
          && multiset(s.caller.received) == SentResults(s.workers)
          && s.caller.joined == (if NonNil(s.caller.received) == [] then None else Some(NonNil(s.caller.received))))
  }

  lemma MoveFirst<T>(to: seq<T>, from: seq<T>)
    requires from != []
    ensures multiset(to + [from[0]]) + multiset(from[1..]) == multiset(to) + multiset(from)
  {
    assert from == [from[0]] + from[1..];
  }

  lemma InvReceive<W, Ev, E>(p: Program<W, Ev, E>, s: State<W, Ev, E>)
    requires Inv(s) && Enabled(p, s, Receive)
    ensures Inv(Apply(p, s, Receive))
  {
    var r, received := s.chan[0], s.caller.received;
    assert (received + [r])[..|received|] == received;
    MoveFirst(received, s.chan);
  }

  lemma InvJoin<W, Ev, E>(p: Program<W, Ev, E>, s: State<W, Ev, E>)
    requires Inv(s) && Enabled(p, s, JoinErrors)
    ensures Inv(Apply(p, s, JoinErrors))
  {
    SentResultsSize(s.workers);
    assert |multiset(s.caller.received)| == |s.workers|;
    assert |SentResults(s.workers)| == |s.caller.received| + |s.chan|;
    assert s.chan == [];
    assert multiset(s.caller.received) == SentResults(s.workers);
  }

  lemma InvSend<W, Ev, E>(p: Program<W, Ev, E>, s: State<W, Ev, E>, i: nat)
    requires Inv(s) && Enabled(p, s, Send(i))
    ensures Inv(Apply(p, s, Send(i)))
  {
    SentResultsUpdate(s.workers, i, Exited(s.workers[i].outcome));
  }

  /** A goroutine that does not send changes nothing of what was sent. */
  lemma InvUnsent<W, Ev, E>(s: State<W, Ev, E>, s': State<W, Ev, E>, i: nat)
    requires Inv(s) && i < |s.workers| && !s.workers[i].Unborn? && !s.workers[i].Exited?
    requires |s'.workers| == |s.workers| && s'.workers == s.workers[i := s'.workers[i]]
    requires !s'.workers[i].Unborn? && !s'.workers[i].Exited?
    requires s'.caller == s.caller && s'.chan == s.chan
    ensures Inv(s')
  {
    SentResultsUpdate(s.workers, i, s'.workers[i]);
  }

  lemma InvApply<W, Ev, E>(p: Program<W, Ev, E>, s: State<W, Ev, E>, a: Action<W, Ev>)
    requires Inv(s) && Enabled(p, s, a)
    ensures Inv(Apply(p, s, a))
  {
    match a
    case Spawn => SentResultsUpdate(s.workers, s.caller.next, Running(s.workers[s.caller.next].start));
    case StartCollecting =>
    case Receive => InvReceive(p, s);
    case JoinErrors => InvJoin(p, s);
    case Send(i) => InvSend(p, s, i);
    case Work(i, _, _) => InvUnsent(s, Apply(p, s, a), i);
    case Finish(i) => InvUnsent(s, Apply(p, s, a), i);
  }

  lemma {:induction false} InvRuns<W, Ev, E>(p: Program<W, Ev, E>, s: State<W, Ev, E>, acts: seq<Action<W, Ev>>)
    requires Inv(s) && Runs(p, s, acts)
    ensures Inv(After(p, s, acts)) && |After(p, s, acts).workers| == |s.workers|
    decreases |acts|
  {
    if acts != [] {
      InvApply(p, s, acts[0]);
      InvRuns(p, Apply(p, s, acts[0]), acts[1..]);
    }
  }

  lemma InvInit<W, Ev, E>(starts: seq<W>)
    ensures Inv<W, Ev, E>(Init(starts))
  {
    NoneSent(Init<W, Ev, E>(starts).workers);
  }

  // ---------- no goroutine ever waits for a free slot

  /** In every reachable state a goroutine that is about to send can send: the buffer never fills up. */
  lemma SendNeverBlocks<W, Ev, E>(p: Program<W, Ev, E>, starts: seq<W>, acts: seq<Action<W, Ev>>, i: nat)
    requires Runs(p, Init<W, Ev, E>(starts), acts)
    requires i < |After(p, Init<W, Ev, E>(starts), acts).workers|
    requires After(p, Init<W, Ev, E>(starts), acts).workers[i].Sending?
    ensures Enabled(p, After(p, Init<W, Ev, E>(starts), acts), Send(i))
  {
    InvInit<W, Ev, E>(starts);
    InvRuns(p, Init<W, Ev, E>(starts), acts);
    SentResultsSize(After(p, Init<W, Ev, E>(starts), acts).workers);
  }

  ghost function Outcomes<W, E>(ws: seq<Worker<W, E>>): seq<Option<E>>
    requires forall i :: 0 <= i < |ws| ==> ws[i].Exited?
  {
    seq(|ws|, i requires 0 <= i < |ws| => ws[i].outcome)
  }

  lemma {:induction false} AllSent<W, E>(ws: seq<Worker<W, E>>)
    requires forall i :: 0 <= i < |ws| ==> ws[i].Exited?
    ensures SentResults(ws) == multiset(Outcomes(ws))
    ensures |SentResults(ws)| == |ws|
  {
    if ws != [] {
      AllSent(ws[1..]);
      assert Outcomes(ws) == [ws[0].outcome] + Outcomes(ws[1..]);
    }
  }

  /** Until the caller returns, some goroutine can always take a step. */
  lemma NeverStuck<W(!new), Ev(!new), E(!new)>(p: Program<W, Ev, E>, starts: seq<W>, acts: seq<Action<W, Ev>>)
    requires Terminates(p)
    requires Runs(p, Init<W, Ev, E>(starts), acts)
    requires !After(p, Init<W, Ev, E>(starts), acts).caller.Returned?
    ensures exists next :: Enabled(p, After(p, Init<W, Ev, E>(starts), acts), next)
  {
    var next: Action<W, Ev>;
    InvInit<W, Ev, E>(starts);
    InvRuns(p, Init<W, Ev, E>(starts), acts);
    var s := After(p, Init<W, Ev, E>(starts), acts);
    if s.caller.Spawning? {
      next := if s.caller.next < |s.workers| then Spawn else StartCollecting;
    } else if |s.caller.received| == |s.workers| {
      next := JoinErrors;
    } else if s.chan != [] {
      next := Receive;
    } else {
      SentResultsSize(s.workers);
      assert |multiset(s.caller.received)| < |s.workers|;
      if i :| 0 <= i < |s.workers| && !s.workers[i].Exited? {
        if s.workers[i].Sending? {
          next := Send(i);
        } else if p.result(s.workers[i].local).Some? {
          next := Finish(i);
        } else {
          var ev, w' :| p.step(s.workers[i].local, ev, w');
          next := Work(i, ev, w');
        }
      } else {
        AllSent(s.workers);
        assert false;
      }
    }
    assert Enabled(p, s, next);
  }

  // ---------- termination

  function Weight<W, Ev, E>(p: Program<W, Ev, E>, w: Worker<W, E>): nat {
    match w
    case Unborn(local) => p.rank(local) + 3
    case Running(local) => p.rank(local) + 2
    case Sending(_) => 1
    case Exited(_) => 0
  }

  function TotalWeight<W, Ev, E>(p: Program<W, Ev, E>, ws: seq<Worker<W, E>>): nat {
    if ws == [] then 0 else Weight(p, ws[0]) + TotalWeight(p, ws[1..])
  }

  function Measure<W, Ev, E>(p: Program<W, Ev, E>, s: State<W, Ev, E>): int {
    TotalWeight(p, s.workers) +
    match s.caller
    case Spawning(_) => |s.workers| + 2
    case Collecting(received, _) => |s.workers| - |received| + 1
    case Returned(_, _) => 0
  }

  lemma {:induction false} TotalWeightUpdate<W, Ev, E>(p: Program<W, Ev, E>, ws: seq<Worker<W, E>>, i: nat,
      w: Worker<W, E>)
    requires i < |ws|
    ensures TotalWeight(p, ws[i := w]) == TotalWeight(p, ws) - Weight(p, ws[i]) + Weight(p, w)
  {
    if i == 0 {
      assert ws[0 := w][1..] == ws[1..];
    } else {
      assert ws[i := w][1..] == ws[1..][i - 1 := w];
      TotalWeightUpdate(p, ws[1..], i - 1, w);
    }
  }

  lemma {:induction false} MeasureApply<W(!new), Ev(!new), E(!new)>(p: Program<W, Ev, E>, s: State<W, Ev, E>,
      a: Action<W, Ev>)
    requires Terminates(p) && Inv(s) && Enabled(p, s, a)
    ensures Measure(p, Apply(p, s, a)) < Measure(p, s)
  {
    match a
    case Spawn => TotalWeightUpdate(p, s.workers, s.caller.next, Running(s.workers[s.caller.next].start));
    case StartCollecting =>
    case Work(i, ev, w') => TotalWeightUpdate(p, s.workers, i, Running(w'));
    case Finish(i) => TotalWeightUpdate(p, s.workers, i, Sending(p.result(s.workers[i].local).value));
    case Send(i) => TotalWeightUpdate(p, s.workers, i, Exited(s.workers[i].outcome));
    case Receive =>
    case JoinErrors =>
  }

  lemma {:induction false} MeasureRuns<W(!new), Ev(!new), E(!new)>(p: Program<W, Ev, E>, s: State<W, Ev, E>,
      acts: seq<Action<W, Ev>>)
    requires Terminates(p) && Inv(s) && Runs(p, s, acts)
    ensures |acts| + Measure(p, After(p, s, acts)) <= Measure(p, s)
    decreases |acts|
  {
    if acts != [] {
      InvApply(p, s, acts[0]);
      MeasureApply(p, s, acts[0]);
      MeasureRuns(p, Apply(p, s, acts[0]), acts[1..]);
    }
  }

  /** No schedule is longer than the bound fixed at the start, so every run ends. */
  lemma EveryRunEnds<W(!new), Ev(!new), E(!new)>(p: Program<W, Ev, E>, starts: seq<W>, acts: seq<Action<W, Ev>>)
    requires Terminates(p) && Runs(p, Init<W, Ev, E>(starts), acts)
    ensures |acts| <= Measure(p, Init<W, Ev, E>(starts))
  {
    InvInit<W, Ev, E>(starts);
    InvRuns(p, Init<W, Ev, E>(starts), acts);
    MeasureRuns(p, Init<W, Ev, E>(starts), acts);
  }

  // ---------- what the caller gets

  lemma {:induction false} NonNilCounts<E>(rs: seq<Option<E>>, e: E)
    ensures multiset(NonNil(rs))[e] == multiset(rs)[Some(e)]
  {
    if rs != [] {
      var front, last := rs[..|rs| - 1], rs[|rs| - 1];
      NonNilCounts(front, e);
      assert rs == front + [last];
      assert NonNil(rs) == NonNil(front) + (if last.Some? then [last.value] else []);
    }
  }

  lemma NonNilPermutation<E(!new)>(a: seq<Option<E>>, b: seq<Option<E>>)
    requires multiset(a) == multiset(b)
    ensures multiset(NonNil(a)) == multiset(NonNil(b))
  {
    forall e ensures multiset(NonNil(a))[e] == multiset(NonNil(b))[e] {
      NonNilCounts(a, e);
      NonNilCounts(b, e);
    }
  }

  lemma {:induction false} NonNilEmpty<E>(rs: seq<Option<E>>)
    ensures NonNil(rs) == [] <==> forall i :: 0 <= i < |rs| ==> rs[i].None?
  {
    if rs != [] {
      var front, last := rs[..|rs| - 1], rs[|rs| - 1];
      NonNilEmpty(front);
      assert rs == front + [last];
      assert NonNil(rs) == [] <==> NonNil(front) == [] && last.None?;
    }
  }

  /**
   When the call has returned, every goroutine has exited and nothing is left in the channel; the joined errors are
   exactly the non-nil results, each as often as it was returned; and the error is nil exactly if all succeeded.
   */
  lemma JoinedErrors<W, Ev, E(!new)>(p: Program<W, Ev, E>, starts: seq<W>, acts: seq<Action<W, Ev>>)
    requires Runs(p, Init<W, Ev, E>(starts), acts)
    requires After(p, Init<W, Ev, E>(starts), acts).caller.Returned?
    ensures var s := After(p, Init<W, Ev, E>(starts), acts);
            && |s.workers| == |starts|
            && s.chan == []
            && (forall i :: 0 <= i < |starts| ==> s.workers[i].Exited?)
            && multiset(if s.caller.joined.Some? then s.caller.joined.value else []) ==
                 multiset(NonNil(Outcomes(s.workers)))
            && (s.caller.joined.None? <==> forall i :: 0 <= i < |starts| ==> s.workers[i].outcome.None?)
  {
    InvInit<W, Ev, E>(starts);
    InvRuns(p, Init<W, Ev, E>(starts), acts);
    var s := After(p, Init<W, Ev, E>(starts), acts);
    var received := s.caller.received;
    AllSent(s.workers);
    NonNilPermutation(received, Outcomes(s.workers));
    NonNilEmpty(Outcomes(s.workers));
    assert NonNil(received) == [] <==> NonNil(Outcomes(s.workers)) == [] by {
      assert |multiset(NonNil(received))| == |NonNil(received)|;
      assert |multiset(NonNil(Outcomes(s.workers)))| == |NonNil(Outcomes(s.workers))|;
    }
    assert forall i :: 0 <= i < |starts| ==> Outcomes(s.workers)[i] == s.workers[i].outcome;
  }

  // ---------- each goroutine sees its own calls in its own order

  /** The calls goroutine `i` made, in order, out of the interleaved log. */
  function CallsOf<Ev>(log: seq<(nat, Ev)>, i: nat): seq<Ev> {
    if log == [] then []
    else CallsOf(log[..|log| - 1], i) + (if log[|log| - 1].0 == i then [log[|log| - 1].1] else [])
  }

  function Appended<Ev>(calls: seq<Ev>, ev: Option<Ev>): seq<Ev> {
    if ev.Some? then calls + [ev.value] else calls
  }

  /** `during` relates a body's start, its local state and its calls so far; `after` its start, result and all calls. */
  ghost predicate Follows<W(!new), Ev(!new), E(!new)>(p: Program<W, Ev, E>, during: (W, W, seq<Ev>) -> bool,
      after: (W, Option<E>, seq<Ev>) -> bool, start: W) {
    && during(start, start, [])
    && (forall w, ev, w', calls ::
          during(start, w, calls) && p.step(w, ev, w') ==> during(start, w', Appended(calls, ev)))
    && (forall w, calls :: during(start, w, calls) && p.result(w).Some? ==> after(start, p.result(w).value, calls))
  }

  ghost predicate WorkerTrace<W, Ev, E>(during: (W, W, seq<Ev>) -> bool, after: (W, Option<E>, seq<Ev>) -> bool,
      start: W, w: Worker<W, E>, calls: seq<Ev>) {
    match w
    case Unborn(local) => local == start && calls == []
    case Running(local) => during(start, local, calls)
    case Sending(r) => after(start, r, calls)
    case Exited(r) => after(start, r, calls)
  }

  ghost predicate Traced<W, Ev, E>(during: (W, W, seq<Ev>) -> bool, after: (W, Option<E>, seq<Ev>) -> bool,
      starts: seq<W>, s: State<W, Ev, E>) {
    && |s.workers| == |starts|
    && forall i :: 0 <= i < |starts| ==> WorkerTrace(during, after, starts[i], s.workers[i], CallsOf(s.log, i))
  }

  lemma {:induction false} TracedRuns<W(!new), Ev(!new), E(!new)>(p: Program<W, Ev, E>, during: (W, W, seq<Ev>) -> bool,
      after: (W, Option<E>, seq<Ev>) -> bool, starts: seq<W>, s: State<W, Ev, E>, acts: seq<Action<W, Ev>>)
    requires forall i :: 0 <= i < |starts| ==> Follows(p, during, after, starts[i])
    requires Traced(during, after, starts, s) && Runs(p, s, acts)
    ensures Traced(during, after, starts, After(p, s, acts))
    decreases |acts|
  {
    if acts != [] {
      var s' := Apply(p, s, acts[0]);
      assert forall i :: 0 <= i < |starts| ==> Follows(p, during, after, starts[i]);
      forall i: nat | i < |starts|
        ensures WorkerTrace(during, after, starts[i], s'.workers[i], CallsOf(s'.log, i))
      {
        assert WorkerTrace(during, after, starts[i], s.workers[i], CallsOf(s.log, i));
        if acts[0].Work? && acts[0].ev.Some? {
          assert s'.log[..|s'.log| - 1] == s.log;
        }
        if acts[0].Work? && acts[0].i == i {
          assert CallsOf(s'.log, i) == Appended(CallsOf(s.log, i), acts[0].ev);
        } else {
          assert CallsOf(s'.log, i) == CallsOf(s.log, i);
        }
      }
      TracedRuns(p, during, after, starts, s', acts[1..]);
    }
  }

  /** A property of a body's own calls that each of its actions keeps holds under every interleaving. */
  lemma EveryInterleaving<W(!new), Ev(!new), E(!new)>(p: Program<W, Ev, E>, during: (W, W, seq<Ev>) -> bool,
      after: (W, Option<E>, seq<Ev>) -> bool, starts: seq<W>, acts: seq<Action<W, Ev>>)
    requires forall i :: 0 <= i < |starts| ==> Follows(p, during, after, starts[i])
    requires Runs(p, Init<W, Ev, E>(starts), acts)
    ensures Traced(during, after, starts, After(p, Init<W, Ev, E>(starts), acts))
  {
    TracedRuns(p, during, after, starts, Init<W, Ev, E>(starts), acts);
  }
}
