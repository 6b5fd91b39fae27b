/**
 The workers of `crictl rm` and `crictl rmp`, run by AggregateGoroutines. Replies of the container runtime and of
 the file system are arbitrary and are fixed in advance for each worker.
 */
module Removal {
  import opened Wrappers
  import opened Aggregate

  datatype Status = Status(running: bool, logPath: string)

  /** The flags of the command. `rmp` has no logs to delete and behaves like `keepLogs`. */
  datatype Options = Options(force: bool, keepLogs: bool)

  /** What the runtime and the file system will answer to one worker; `rotations` is None when the glob fails. */
  datatype Replies = Replies(status: Option<Status>, stopped: bool, removed: bool, rotations: Option<seq<string>>)

  datatype Event =
    | StatusCall(reply: Option<Status>)
    | StopCall(ok: bool)
    | RemoveCall(ok: bool)
    | DeleteFile(path: string)

  datatype Error = StatusFailed(id: string) | StopFailed(id: string) | NotStopped(id: string) | RemoveFailed(id: string)

  datatype Pc =
    | AtStatus
    | AtStop(st: Status)
    | AtRemove(st: Status)
    | AtLogs(files: seq<string>)
    | Done(err: Option<Error>)

  datatype Worker = Worker(id: string, replies: Replies, pc: Pc)

  /** The files to delete after a removal: the rotations that were found, then the log itself. */
  function LogFiles(o: Options, r: Replies, st: Status): seq<string> {
    if o.keepLogs || st.logPath == "" then []
    else (if r.rotations.Some? then r.rotations.value else []) + [st.logPath]
  }

  /** One action: the call it makes and where the worker continues. An empty id fails without calling the runtime. */
  function Next(o: Options, w: Worker): (Option<Event>, Pc)
    requires !w.pc.Done?
  {
    match w.pc
    case AtStatus =>
      var reply := w.replies.status;
      (Some(StatusCall(reply)),
       if reply.None? then Done(Some(StatusFailed(w.id)))
       else if !reply.value.running then AtRemove(reply.value)
       else if o.force then AtStop(reply.value)
       else Done(Some(NotStopped(w.id))))
    case AtStop(st) =>
      if w.id == "" then (None, Done(Some(StopFailed(w.id))))
      else (Some(StopCall(w.replies.stopped)),
            if w.replies.stopped then AtRemove(st) else Done(Some(StopFailed(w.id))))
    case AtRemove(st) =>
      if w.id == "" then (None, Done(Some(RemoveFailed(w.id))))
      else (Some(RemoveCall(w.replies.removed)),
            if !w.replies.removed then Done(Some(RemoveFailed(w.id))) else AtLogs(LogFiles(o, w.replies, st)))
    case AtLogs(files) =>
      if files == [] then (None, Done(None))
      else (Some(DeleteFile(files[0])), AtLogs(files[1..]))
  }

  function Rank(o: Options, w: Worker): nat {
    var logs := if w.replies.rotations.Some? then |w.replies.rotations.value| + 1 else 1;
    match w.pc
    case AtStatus => logs + 4
    case AtStop(_) => logs + 3
    case AtRemove(_) => logs + 2
    case AtLogs(files) => |files| + 1
    case Done(_) => 0
  }

  function Body(o: Options): Program<Worker, Event, Error> {
    Program(
      (w: Worker, ev: Option<Event>, w': Worker) => !w.pc.Done? && w' == w.(pc := Next(o, w).1) && ev == Next(o, w).0,
      (w: Worker) => if w.pc.Done? then Some(w.pc.err) else None,
      (w: Worker) => Rank(o, w))
  }

  lemma RankDecreases(o: Options, w: Worker)
    requires !w.pc.Done?
    ensures Rank(o, w.(pc := Next(o, w).1)) < Rank(o, w)
  {
  }

  lemma BodyTerminates(o: Options)
    ensures Terminates(Body(o))
  {
    forall w, ev, w' | Body(o).step(w, ev, w') ensures Body(o).rank(w') < Body(o).rank(w) {
      RankDecreases(o, w);
    }
    forall w | Body(o).result(w).None? ensures exists ev, w' :: Body(o).step(w, ev, w') {
      assert Body(o).step(w, Next(o, w).0, w.(pc := Next(o, w).1));
    }
  }

  /** One worker per id, each with its own replies. */
  function Starts(ids: seq<string>, replies: seq<Replies>): seq<Worker>
    requires |ids| == |replies|
  {
    seq(|ids|, i requires 0 <= i < |ids| => Worker(ids[i], replies[i], AtStatus))
  }

  ghost predicate Running(calls: seq<Event>) {
    calls != [] && calls[0].StatusCall? && calls[0].reply.Some? && calls[0].reply.value.running
  }

  ghost predicate Stopped(calls: seq<Event>) {
    calls != [] && calls[0].StatusCall? && calls[0].reply.Some? && !calls[0].reply.value.running
  }

  /**
   The calls of one worker are in order: the status first; a stop only as the second call, only of something running
   and only with `force`; a removal only of what was not running, or right after a successful stop; and files are
   deleted only after a successful removal, without `keepLogs`, each being the reported log or a found rotation.
   */
  ghost predicate Orderly(o: Options, r: Replies, calls: seq<Event>) {
    && (forall k :: 0 <= k < |calls| && calls[k].StatusCall? ==> k == 0)
    && (calls != [] ==> calls[0] == StatusCall(r.status))
    && (forall k :: 0 <= k < |calls| && calls[k].StopCall? ==> k == 1 && o.force && Running(calls))
    && (forall k :: 0 <= k < |calls| && calls[k].RemoveCall? ==>
          || (k == 1 && Stopped(calls))
          || (k == 2 && calls[1] == StopCall(true)))
    && (forall k :: 0 <= k < |calls| && calls[k].DeleteFile? ==>
          && !o.keepLogs
          && (exists j :: 0 <= j < k && calls[j] == RemoveCall(true))
          && calls[0].StatusCall? && calls[0].reply.Some?
          && (calls[k].path == calls[0].reply.value.logPath
              || (r.rotations.Some? && calls[k].path in r.rotations.value)))
  }

  ghost predicate Removed(calls: seq<Event>) {
    exists k :: 0 <= k < |calls| && calls[k] == RemoveCall(true)
  }

  /** The worker can do its work: it has an id, and every reply it needs is a good one. */
  predicate CanRemove(o: Options, id: string, r: Replies) {
    && id != ""
    && r.status.Some?
    && (r.status.value.running ==> o.force && r.stopped)
    && r.removed
  }

  function Deletions(files: seq<string>): (evs: seq<Event>)
    ensures |evs| == |files|
    ensures forall k :: 0 <= k < |files| ==> evs[k] == DeleteFile(files[k])
  {
    seq(|files|, k requires 0 <= k < |files| => DeleteFile(files[k]))
  }

  /** Every found rotation is deleted, in order, and then the log; nothing is without a log, or with `keepLogs`. */
  ghost predicate LogsDeleted(o: Options, r: Replies, st: Status, calls: seq<Event>) {
    if o.keepLogs || st.logPath == "" then calls == []
    else match r.rotations
         case None => calls == [DeleteFile(st.logPath)]
         case Some(files) =>
           && |calls| == |files| + 1
           && (forall k :: 0 <= k < |files| ==> calls[k] == DeleteFile(files[k]))
           && calls[|files|] == DeleteFile(st.logPath)
  }

  /** What a worker returned and all the calls it made, for each way the replies can go. */
  ghost predicate Traced(o: Options, id: string, r: Replies, err: Option<Error>, calls: seq<Event>) {
    match r.status
    case None => err == Some(StatusFailed(id)) && calls == [StatusCall(None)]
    case Some(st) =>
      var asked := [StatusCall(Some(st))];
      if st.running && !o.force then err == Some(NotStopped(id)) && calls == asked
      else if st.running && id == "" then err == Some(StopFailed(id)) && calls == asked
      else if st.running && !r.stopped then err == Some(StopFailed(id)) && calls == asked + [StopCall(false)]
      else
        var ready := if st.running then asked + [StopCall(true)] else asked;
        if id == "" then err == Some(RemoveFailed(id)) && calls == ready
        else if !r.removed then err == Some(RemoveFailed(id)) && calls == ready + [RemoveCall(false)]
        else
          var n := |ready| + 1;
          err == None && |calls| >= n && calls[..n] == ready + [RemoveCall(true)] && LogsDeleted(o, r, st, calls[n..])
  }

  /** A worker that has returned: no error exactly if it could remove its target, and exactly if it did. */
  ghost predicate Complete(o: Options, id: string, r: Replies, err: Option<Error>, calls: seq<Event>) {
    && Orderly(o, r, calls)
    && (err.None? <==> Removed(calls))
    && (err.None? <==> CanRemove(o, id, r))
    && Traced(o, id, r, err, calls)
  }

  // The calls so far, at each point of the worker.

  ghost predicate BeforeRemove(o: Options, r: Replies, st: Status, calls: seq<Event>) {
    && r.status == Some(st)
    && calls == (if st.running then [StatusCall(Some(st)), StopCall(true)] else [StatusCall(Some(st))])
    && (st.running ==> o.force && r.stopped)
  }

  ghost predicate Deleting(o: Options, r: Replies, files: seq<string>, calls: seq<Event>) {
    exists st, before, deleted: seq<string> ::
      && BeforeRemove(o, r, st, before)
      && LogFiles(o, r, st) == deleted + files
      && calls == before + [RemoveCall(true)] + Deletions(deleted)
  }

  ghost predicate SoFar(o: Options, start: Worker, w: Worker, calls: seq<Event>) {
    && w.id == start.id && w.replies == start.replies
    && match w.pc
       case AtStatus => calls == []
       case AtStop(st) => o.force && st.running && w.replies.status == Some(st) && calls == [StatusCall(Some(st))]
       case AtRemove(st) => BeforeRemove(o, w.replies, st, calls) && (st.running ==> w.id != "")
       case AtLogs(files) => CanRemove(o, start.id, start.replies) && Deleting(o, w.replies, files, calls)
       case Done(err) => Complete(o, start.id, start.replies, err, calls)
  }

  lemma DeletionsOrderly(o: Options, r: Replies, st: Status, before: seq<Event>, deleted: seq<string>)
    requires BeforeRemove(o, r, st, before) && deleted <= LogFiles(o, r, st)
    ensures Orderly(o, r, before + [RemoveCall(true)] + Deletions(deleted))
  {
    var calls := before + [RemoveCall(true)] + Deletions(deleted);
    var n := |before|;
    assert calls[..n] == before && calls[n] == RemoveCall(true);
    forall k | n < k < |calls| ensures calls[k].DeleteFile? && calls[k].path in LogFiles(o, r, st) && !o.keepLogs {
      assert calls[k] == DeleteFile(deleted[k - n - 1]);
      assert deleted[k - n - 1] == LogFiles(o, r, st)[k - n - 1];
    }
  }

  lemma DeletingOrderly(o: Options, r: Replies, files: seq<string>, calls: seq<Event>)
    requires Deleting(o, r, files, calls)
    ensures Orderly(o, r, calls)
  {
    var st, before, deleted: seq<string> :|
      && BeforeRemove(o, r, st, before)
      && LogFiles(o, r, st) == deleted + files
      && calls == before + [RemoveCall(true)] + Deletions(deleted);
    DeletionsOrderly(o, r, st, before, deleted);
  }

  lemma DeletionsOfLogs(o: Options, r: Replies, st: Status)
    ensures LogsDeleted(o, r, st, Deletions(LogFiles(o, r, st)))
  {
  }

  lemma TracedAllDeleted(o: Options, id: string, r: Replies, st: Status, before: seq<Event>, deleted: seq<string>)
    requires CanRemove(o, id, r) && BeforeRemove(o, r, st, before) && LogFiles(o, r, st) == deleted
    ensures Traced(o, id, r, None, before + [RemoveCall(true)] + Deletions(deleted))
  {
    DeletionsOfLogs(o, r, st);
    var done := before + [RemoveCall(true)];
    var calls := done + Deletions(deleted);
    assert calls[..|done|] == done && calls[|done|..] == Deletions(deleted);
  }

  lemma AllDeleted(o: Options, id: string, r: Replies, calls: seq<Event>)
    requires CanRemove(o, id, r) && Deleting(o, r, [], calls)
    ensures Complete(o, id, r, None, calls)
  {
    DeletingOrderly(o, r, [], calls);
    var st, before, deleted: seq<string> :|
      && BeforeRemove(o, r, st, before)
      && LogFiles(o, r, st) == deleted + []
      && calls == before + [RemoveCall(true)] + Deletions(deleted);
    assert deleted + [] == deleted;
    TracedAllDeleted(o, id, r, st, before, deleted);
    assert Removed(calls) by { assert calls[|before|] == RemoveCall(true); }
  }

  lemma DeleteNext(o: Options, r: Replies, files: seq<string>, calls: seq<Event>)
    requires Deleting(o, r, files, calls) && files != []
    ensures Deleting(o, r, files[1..], calls + [DeleteFile(files[0])])
  {
    var st, before, deleted: seq<string> :|
      && BeforeRemove(o, r, st, before)
      && LogFiles(o, r, st) == deleted + files
      && calls == before + [RemoveCall(true)] + Deletions(deleted);
    var deleted' := deleted + [files[0]];
    assert deleted + files == deleted' + files[1..];
    assert calls + [DeleteFile(files[0])] == before + [RemoveCall(true)] + Deletions(deleted');
  }

  lemma RemoveNext(o: Options, r: Replies, st: Status, calls: seq<Event>)
    requires BeforeRemove(o, r, st, calls)
    ensures Deleting(o, r, LogFiles(o, r, st), calls + [RemoveCall(true)])
  {
    assert LogFiles(o, r, st) == [] + LogFiles(o, r, st);
    assert calls + [RemoveCall(true)] == calls + [RemoveCall(true)] + Deletions([]);
  }

  lemma BeforeRemoveStep(o: Options, start: Worker, w: Worker, calls: seq<Event>)
    requires SoFar(o, start, w, calls) && (w.pc.AtStatus? || w.pc.AtStop?)
    ensures SoFar(o, start, w.(pc := Next(o, w).1), Appended(calls, Next(o, w).0))
  {
  }

  lemma RemoveStep(o: Options, start: Worker, w: Worker, calls: seq<Event>)
    requires SoFar(o, start, w, calls) && w.pc.AtRemove?
    ensures SoFar(o, start, w.(pc := Next(o, w).1), Appended(calls, Next(o, w).0))
  {
    if w.id != "" && w.replies.removed {
      RemoveNext(o, w.replies, w.pc.st, calls);
    }
  }

  lemma LogsStep(o: Options, start: Worker, w: Worker, calls: seq<Event>)
    requires SoFar(o, start, w, calls) && w.pc.AtLogs?
    ensures SoFar(o, start, w.(pc := Next(o, w).1), Appended(calls, Next(o, w).0))
  {
    if w.pc.files == [] {
      AllDeleted(o, start.id, start.replies, calls);
    } else {
      DeleteNext(o, w.replies, w.pc.files, calls);
    }
  }

  lemma SoFarStep(o: Options, start: Worker, w: Worker, calls: seq<Event>)
    requires SoFar(o, start, w, calls) && !w.pc.Done?
    ensures SoFar(o, start, w.(pc := Next(o, w).1), Appended(calls, Next(o, w).0))
  {
    match w.pc
    case AtStatus => BeforeRemoveStep(o, start, w, calls);
    case AtStop(_) => BeforeRemoveStep(o, start, w, calls);
    case AtRemove(_) => RemoveStep(o, start, w, calls);
    case AtLogs(_) => LogsStep(o, start, w, calls);
  }

  lemma SoFarOrderly(o: Options, start: Worker, w: Worker, calls: seq<Event>)
    requires SoFar(o, start, w, calls)
    ensures Orderly(o, start.replies, calls)
  {
    if w.pc.AtLogs? {
      DeletingOrderly(o, w.replies, w.pc.files, calls);
    }
  }

  lemma TraceSteps(o: Options, starts: seq<Worker>, during: (Worker, Worker, seq<Event>) -> bool,
      after: (Worker, Option<Error>, seq<Event>) -> bool)
    requires forall start, w, calls :: during(start, w, calls) == SoFar(o, start, w, calls)
    requires forall w, e, calls :: after(w, e, calls) == Complete(o, w.id, w.replies, e, calls)
    requires forall i :: 0 <= i < |starts| ==> starts[i].pc.AtStatus?
    ensures forall i :: 0 <= i < |starts| ==> Follows(Body(o), during, after, starts[i])
  {
    forall start, w, ev, w', calls | during(start, w, calls) && Body(o).step(w, ev, w')
      ensures during(start, w', Appended(calls, ev))
    {
      SoFarStep(o, start, w, calls);
    }
  }

  /**
   In every interleaving of the workers, at every moment, the calls of each worker are in order; and once it has
   returned, its result and all its calls are those that its flags, id and replies call for.
   */
  lemma CallsAlwaysOrderly(o: Options, ids: seq<string>, replies: seq<Replies>,
      acts: seq<Action<Worker, Event>>, i: nat)
    requires |ids| == |replies| && i < |ids|
    requires Runs(Body(o), Init<Worker, Event, Error>(Starts(ids, replies)), acts)
    ensures var s := After(Body(o), Init<Worker, Event, Error>(Starts(ids, replies)), acts);
            && |s.workers| == |ids|
            && Orderly(o, replies[i], CallsOf(s.log, i))
            && (s.workers[i].Exited? ==>
                  Complete(o, ids[i], replies[i], s.workers[i].outcome, CallsOf(s.log, i)))
  {
    var starts := Starts(ids, replies);
    var s := After(Body(o), Init<Worker, Event, Error>(starts), acts);
    var during := (start: Worker, w: Worker, calls: seq<Event>) => SoFar(o, start, w, calls);
    var after := (start: Worker, err: Option<Error>, calls: seq<Event>) =>
      Complete(o, start.id, start.replies, err, calls);
    TraceSteps(o, starts, during, after);
    EveryInterleaving(Body(o), during, after, starts, acts);
    assert WorkerTrace(during, after, starts[i], s.workers[i], CallsOf(s.log, i));
    if s.workers[i].Running? {
      SoFarOrderly(o, starts[i], s.workers[i].local, CallsOf(s.log, i));
    }
  }

  /** An ended worker reports no error exactly if it removed its target, and exactly if the replies allow that. */
  lemma WorkerOutcome(o: Options, ids: seq<string>, replies: seq<Replies>, acts: seq<Action<Worker, Event>>, i: nat)
    requires |ids| == |replies| && i < |ids|
    requires Runs(Body(o), Init<Worker, Event, Error>(Starts(ids, replies)), acts)
    ensures var s := After(Body(o), Init<Worker, Event, Error>(Starts(ids, replies)), acts);
            && |s.workers| == |ids|
            && (s.workers[i].Exited? ==>
                  && (s.workers[i].outcome.None? <==> Removed(CallsOf(s.log, i)))
                  && (s.workers[i].outcome.None? <==> CanRemove(o, ids[i], replies[i])))
  {
    CallsAlwaysOrderly(o, ids, replies, acts, i);
  }

  /**
   The command reports success exactly if every worker got a good reply to its removal. Since the replies are fixed
   before the run, the schedule has no say in it. A removal whose RPC is abandoned on an interrupt counts as a bad
   reply, even if the runtime carries it out later.
   */
  lemma SucceedsIffAllRemoved(o: Options, ids: seq<string>, replies: seq<Replies>, acts: seq<Action<Worker, Event>>)
    requires |ids| == |replies|
    requires Runs(Body(o), Init<Worker, Event, Error>(Starts(ids, replies)), acts)
    requires After(Body(o), Init<Worker, Event, Error>(Starts(ids, replies)), acts).caller.Returned?
    ensures var s := After(Body(o), Init<Worker, Event, Error>(Starts(ids, replies)), acts);
            && (s.caller.joined.None? <==> forall i: nat :: i < |ids| ==> Removed(CallsOf(s.log, i)))
            && (s.caller.joined.None? <==> forall i: nat :: i < |ids| ==> CanRemove(o, ids[i], replies[i]))
  {
    JoinedErrors(Body(o), Starts(ids, replies), acts);
    var s := After(Body(o), Init<Worker, Event, Error>(Starts(ids, replies)), acts);
    if s.caller.joined.None? {
      forall i: nat | i < |ids| ensures Removed(CallsOf(s.log, i)) && CanRemove(o, ids[i], replies[i]) {
        WorkerOutcome(o, ids, replies, acts, i);
      }
    } else {
      var i: nat :| i < |ids| && s.workers[i].outcome.Some?;
      WorkerOutcome(o, ids, replies, acts, i);
      assert !Removed(CallsOf(s.log, i)) && !CanRemove(o, ids[i], replies[i]);
    }
  }

  /** With these workers every run of the command ends, and until it does some goroutine can move. */
  lemma CommandReturns(o: Options, ids: seq<string>, replies: seq<Replies>, acts: seq<Action<Worker, Event>>)
    requires |ids| == |replies|
    requires Runs(Body(o), Init<Worker, Event, Error>(Starts(ids, replies)), acts)
    ensures |acts| <= Measure(Body(o), Init<Worker, Event, Error>(Starts(ids, replies)))
    ensures var s := After(Body(o), Init<Worker, Event, Error>(Starts(ids, replies)), acts);
            !s.caller.Returned? ==> exists next :: Enabled(Body(o), s, next)
  {
    BodyTerminates(o);
    EveryRunEnds(Body(o), Starts(ids, replies), acts);
    if !After(Body(o), Init<Worker, Event, Error>(Starts(ids, replies)), acts).caller.Returned? {
      NeverStuck(Body(o), Starts(ids, replies), acts);
    }
  }

  /** What is deleted once a target is gone: every rotation that was found, in order, then the log; or nothing. */
  lemma LogsGone(o: Options, ids: seq<string>, replies: seq<Replies>, acts: seq<Action<Worker, Event>>, i: nat)
    requires |ids| == |replies| && i < |ids|
    requires Runs(Body(o), Init<Worker, Event, Error>(Starts(ids, replies)), acts)
    ensures var s := After(Body(o), Init<Worker, Event, Error>(Starts(ids, replies)), acts);
            && |s.workers| == |ids|
            && (s.workers[i] == Exited(None) ==>
                  && replies[i].status.Some?
                  && var calls, st := CallsOf(s.log, i), replies[i].status.value;
                     var n := if st.running then 3 else 2;
                     |calls| >= n && calls[n - 1] == RemoveCall(true) && LogsDeleted(o, replies[i], st, calls[n..]))
  {
    CallsAlwaysOrderly(o, ids, replies, acts, i);
  }
}
