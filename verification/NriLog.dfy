/** The event log of the NRI test plugin: the guarded object with its slices, and the interleavings of its users. */
module NriLog {
  import opened Wrappers

  datatype EventType =
    | RunPodSandbox | StopPodSandbox | RemovePodSandbox
    | CreateContainer | StartContainer | StopContainer | RemoveContainer

  datatype Pod = Pod(id: string, name: string, namespace: string, uid: string)

  datatype Container = Container(id: string, name: string)

  datatype Event = Event(kind: EventType, pod: Pod, container: Container, timestamp: int)

  const NO_CONTAINER: Container := Container("", "")

  // ---------- what is under the mutex, and what the operations mean

  datatype Content = Content(events: seq<Event>, syncPods: seq<string>, syncContainers: seq<string>)

  const EMPTY: Content := Content([], [], [])

  /** What a goroutine does while it holds the mutex; `Poll` is one round of WaitForEventCount. */
  datatype Operation =
    | Record(kind: EventType, pod: Pod, container: Container)
    | Snapshot
    | Poll(count: int)
    | Clear
    | Capture(pods: seq<Pod>, containers: seq<Container>)

  /** An operation and the time it saw. */
  datatype Entry = Entry(op: Operation, now: int)

  function PodIds(pods: seq<Pod>): seq<string> {
    seq(|pods|, i requires 0 <= i < |pods| => pods[i].id)
  }

  function ContainerIds(containers: seq<Container>): seq<string> {
    seq(|containers|, i requires 0 <= i < |containers| => containers[i].id)
  }

  function Effect(c: Content, e: Entry): Content {
    match e.op
    case Record(kind, pod, container) => c.(events := c.events + [Event(kind, pod, container, e.now)])
    case Clear => EMPTY
    case Capture(pods, containers) => c.(syncPods := PodIds(pods), syncContainers := ContainerIds(containers))
    case _ => c
  }

  /** One operation after the other. */
  function Played(c: Content, es: seq<Entry>): Content {
    if es == [] then c else Effect(Played(c, es[..|es| - 1]), es[|es| - 1])
  }

  /** The content after the first `k` sleeps, during which others played what `sleeps` says. */
  function Slept(c: Content, sleeps: seq<seq<Entry>>, k: nat): Content
    requires k <= |sleeps|
  {
    if k == 0 then c else Played(Slept(c, sleeps, k - 1), sleeps[k - 1])
  }

  /** Sleep `k` is the first before which there are enough events. */
  ghost predicate EnoughFirst(c: Content, sleeps: seq<seq<Entry>>, count: int, k: nat) {
    && k < |sleeps|
    && |Slept(c, sleeps, k).events| >= count
    && forall j: nat :: j < k ==> |Slept(c, sleeps, j).events| < count
  }

  /** The pod of the latest RunPodSandbox event, or the empty text. */
  function LastRun(events: seq<Event>): string {
    if events == [] then ""
    else if events[|events| - 1].kind == RunPodSandbox then events[|events| - 1].pod.id
    else LastRun(events[..|events| - 1])
  }

  function ForPod(events: seq<Event>, podID: string): seq<Event> {
    if events == [] then []
    else
      var e := events[|events| - 1];
      ForPod(events[..|events| - 1], podID) + (if e.pod.id == podID then [e] else [])
  }

  // ---------- the plugin; each method but WaitForEventCount and Synchronize runs under the mutex

  class NRITestPlugin {
    // The slice of events: the first `len` elements of an array that may have room for more.
    var log: array<Event>
    var len: nat
    var syncPods: seq<string>
    var syncContainers: seq<string>
    var onceDone: bool
    var readyClosed: bool

    ghost predicate Valid()
      reads this
    {
      len <= log.Length && readyClosed == onceDone
    }

    function Contents(): Content
      requires Valid()
      reads this, log
    {
      Content(log[..len], syncPods, syncContainers)
    }

    constructor ()
      ensures Valid() && fresh(log) && Contents() == EMPTY && !readyClosed
    {
      log, len, syncPods, syncContainers := new Event[0], 0, [], [];
      onceDone, readyClosed := false, false;
    }

    /** append: in place if there is room, and else on a larger copy. */
    method Append(e: Event)
      requires Valid()
      modifies `log, `len, log
      ensures Valid() && (log == old(log) || fresh(log))
      ensures log[..len] == old(log[..len]) + [e]
    {
      if len == log.Length {
        var larger := new Event[2 * len + 1];
        forall i | 0 <= i < len {
          larger[i] := log[i];
        }
        log := larger;
      }
      log[len] := e;
      len := len + 1;
    }

    method RecordPodEvent(kind: EventType, pod: Pod, now: int)
      requires Valid()
      modifies `log, `len, log
      ensures Valid() && (log == old(log) || fresh(log))
      ensures Contents() == Effect(old(Contents()), Entry(Record(kind, pod, NO_CONTAINER), now))
      ensures log[..len] == old(log[..len]) + [Event(kind, pod, Container("", ""), now)]
    {
      Append(Event(kind, pod, NO_CONTAINER, now));
    }

    method RecordContainerEvent(kind: EventType, pod: Pod, container: Container, now: int)
      requires Valid()
      modifies `log, `len, log
      ensures Valid() && (log == old(log) || fresh(log))
      ensures Contents() == Effect(old(Contents()), Entry(Record(kind, pod, container), now))
      ensures log[..len] == old(log[..len]) + [Event(kind, pod, container, now)]
    {
      Append(Event(kind, pod, container, now));
    }

    /** make and copy: the elements move to an array of their own. */
    method Events() returns (result: array<Event>)
      requires Valid()
      ensures fresh(result) && result[..] == Contents().events
    {
      result := new Event[len];
      forall i | 0 <= i < len {
        result[i] := log[i];
      }
    }

    /** The slices become nil; their old arrays are left as they are. */
    method Reset()
      requires Valid()
      modifies `log, `len, `syncPods, `syncContainers
      ensures Valid() && fresh(log) && Contents() == Effect(old(Contents()), Entry(Clear, 0))
      ensures log[..len] == [] && syncPods == [] && syncContainers == []
    {
      log, len, syncPods, syncContainers := new Event[0], 0, [], [];
    }

    method LastRunPodSandboxID() returns (id: string)
      requires Valid()
      ensures id == LastRun(Contents().events)
    {
      var i := len;
      while i > 0
        invariant 0 <= i <= len
        invariant LastRun(log[..len]) == LastRun(log[..i])
      {
        i := i - 1;
        assert log[..i + 1][..i] == log[..i];
        if log[i].kind == RunPodSandbox {
          return log[i].pod.id;
        }
      }
      return "";
    }

    /** The part of Synchronize under the mutex. */
    method CaptureIds(pods: seq<Pod>, containers: seq<Container>)
      requires Valid()
      modifies `syncPods, `syncContainers
      ensures Valid() && Contents() == Effect(old(Contents()), Entry(Capture(pods, containers), 0))
      ensures |syncPods| == |pods| && forall i :: 0 <= i < |pods| ==> syncPods[i] == pods[i].id
      ensures |syncContainers| == |containers|
      ensures forall i :: 0 <= i < |containers| ==> syncContainers[i] == containers[i].id
    {
      syncPods := [];
      for i := 0 to |pods|
        invariant Valid() && syncPods == PodIds(pods)[..i]
      {
        syncPods := syncPods + [pods[i].id];
      }
      syncContainers := [];
      for i := 0 to |containers|
        invariant Valid() && syncPods == PodIds(pods) && syncContainers == ContainerIds(containers)[..i]
      {
        syncContainers := syncContainers + [containers[i].id];
      }
    }

    /** The hook may fail, and then the plugin does not become ready. A second close of the channel would panic. */
    method Synchronize(pods: seq<Pod>, containers: seq<Container>, hookFails: bool) returns (ok: bool)
      requires Valid()
      modifies `syncPods, `syncContainers, `onceDone, `readyClosed
      ensures Valid() && ok == !hookFails && readyClosed == (old(readyClosed) || ok)
      ensures Contents() == Effect(old(Contents()), Entry(Capture(pods, containers), 0))
      ensures |syncPods| == |pods| && forall i :: 0 <= i < |pods| ==> syncPods[i] == pods[i].id
      ensures |syncContainers| == |containers|
      ensures forall i :: 0 <= i < |containers| ==> syncContainers[i] == containers[i].id
    {
      CaptureIds(pods, containers);
      if hookFails {
        return false;
      }
      if !onceDone {
        assert !readyClosed;
        readyClosed := true;
        onceDone := true;
      }
      return true;
    }

    /** One round of WaitForEventCount. */
    method PollEventCount(count: int) returns (result: Option<array<Event>>)
      requires Valid()
      ensures result.Some? <==> |Contents().events| >= count
      ensures result.Some? ==> fresh(result.value) && result.value[..] == Contents().events
    {
      if len >= count {
        var copied := Events();
        return Some(copied);
      }
      return None;
    }

    /** What another goroutine does while this one sleeps. */
    method Perform(e: Entry)
      requires Valid()
      modifies this, log
      ensures Valid() && (log == old(log) || fresh(log)) && readyClosed == old(readyClosed)
      ensures Contents() == Effect(old(Contents()), e)
    {
      match e.op {
        case Record(kind, pod, container) => RecordContainerEvent(kind, pod, container, e.now);
        case Snapshot => var taken := Events();
        case Poll(count) => var taken := PollEventCount(count);
        case Clear => Reset();
        case Capture(pods, containers) => CaptureIds(pods, containers);
      }
    }

    method PerformAll(es: seq<Entry>)
      requires Valid()
      modifies this, log
      ensures Valid() && (log == old(log) || fresh(log)) && readyClosed == old(readyClosed)
      ensures Contents() == Played(old(Contents()), es)
    {
      for i := 0 to |es|
        invariant Valid() && (log == old(log) || fresh(log)) && readyClosed == old(readyClosed)
        invariant Contents() == Played(old(Contents()), es[..i])
      {
        assert es[..i + 1][..i] == es[..i];
        Perform(es[i]);
      }
      assert es[..|es|] == es;
    }

    /**
     There is time for one poll per element of `sleeps`, and for the sleep that follows it. The result is a copy of the
     log at the first poll that finds enough, or, with the number of events at the end, nothing if none does.
     */
    method WaitForEventCount(count: int, sleeps: seq<seq<Entry>>) returns (result: Option<array<Event>>, got: nat)
      requires Valid()
      modifies this, log
      ensures Valid() && (log == old(log) || fresh(log))
      ensures match result
              case Some(a) =>
                && fresh(a) && a != log && a[..] == Contents().events
                && exists k: nat ::
                     EnoughFirst(old(Contents()), sleeps, count, k) && Contents() == Slept(old(Contents()), sleeps, k)
              case None =>
                && (forall k: nat :: k < |sleeps| ==> |Slept(old(Contents()), sleeps, k).events| < count)
                && Contents() == Slept(old(Contents()), sleeps, |sleeps|) && got == |Contents().events|
    {
      for i := 0 to |sleeps|
        invariant Valid() && (log == old(log) || fresh(log))
        invariant Contents() == Slept(old(Contents()), sleeps, i)
        invariant forall k: nat :: k < i ==> |Slept(old(Contents()), sleeps, k).events| < count
      {
        var enough := PollEventCount(count);
        if enough.Some? {
          assert EnoughFirst(old(Contents()), sleeps, count, i);
          return enough, 0;
        }
        PerformAll(sleeps[i]);
      }
      return None, len;
    }
  }

  /**
   A snapshot is not shared: whatever is done to the plugin later, the snapshot stays, and overwriting one of its
   elements changes nothing in the plugin.
   */
  method IsolateSnapshot(plugin: NRITestPlugin, es: seq<Entry>, i: nat, e: Event) returns (snapshot: array<Event>)
    requires plugin.Valid()
    modifies plugin, plugin.log
    ensures plugin.Valid() && plugin.Contents() == Played(old(plugin.Contents()), es)
    ensures var events := old(plugin.Contents()).events;
            snapshot[..] == if i < |events| then events[i := e] else events
  {
    snapshot := plugin.Events();
    plugin.PerformAll(es);
    if i < snapshot.Length {
      snapshot[i] := e;
    }
  }

  method FilterEventsByPodID(events: seq<Event>, podID: string) returns (filtered: seq<Event>)
    ensures filtered == ForPod(events, podID)
  {
    filtered := [];
    for i := 0 to |events|
      invariant filtered == ForPod(events[..i], podID)
    {
      assert events[..i + 1][..i] == events[..i];
      if events[i].pod.id == podID {
        filtered := filtered + [events[i]];
      }
    }
    assert events[..|events|] == events;
  }

  ghost predicate LatestRunAt(events: seq<Event>, k: nat)
    requires k < |events|
  {
    && events[k].kind == RunPodSandbox
    && forall i :: k < i < |events| ==> events[i].kind != RunPodSandbox
  }

  /** The id is that of the last run event, wherever it is; it is empty without one. */
  lemma {:induction false} LastRunIsLatest(events: seq<Event>, k: nat)
    requires k < |events| && LatestRunAt(events, k)
    ensures LastRun(events) == events[k].pod.id
  {
    if k < |events| - 1 {
      LastRunIsLatest(events[..|events| - 1], k);
    }
  }

  lemma {:induction false} LastRunOfNone(events: seq<Event>)
    requires forall i :: 0 <= i < |events| ==> events[i].kind != RunPodSandbox
    ensures LastRun(events) == ""
  {
    if events != [] {
      LastRunOfNone(events[..|events| - 1]);
    }
  }

  /** Filtering keeps the order: it distributes over the log, and keeps exactly the events of the pod. */
  lemma {:induction false} ForPodConcat(a: seq<Event>, b: seq<Event>, podID: string)
    ensures ForPod(a + b, podID) == ForPod(a, podID) + ForPod(b, podID)
  {
    if b == [] {
      assert a + b == a;
    } else {
      assert (a + b)[..|a + b| - 1] == a + b[..|b| - 1];
      ForPodConcat(a, b[..|b| - 1], podID);
    }
  }

  lemma {:induction false} ForPodMembers(events: seq<Event>, podID: string, e: Event)
    ensures multiset(ForPod(events, podID))[e] == if e.pod.id == podID then multiset(events)[e] else 0
  {
    if events != [] {
      assert events == events[..|events| - 1] + [events[|events| - 1]];
      ForPodMembers(events[..|events| - 1], podID, e);
    }
  }

  // ---------- interleavings

  /**
   Under the mutex, operations take several steps. `Stamped` has read the slice and the clock, and will store the slice
   it read with the new event; `Copying` has read the length and copies element by element; `HalfCleared` and
   `HalfCaptured` have written the first of their fields. The rest is Synchronize after it released the mutex: the hook,
   and then sync.Once, which looks at its flag, takes its own lock, looks again, closes the channel, and sets the flag.
   */
  datatype Pc =
    | Outside
    | Holding(op: Operation)
    | Stamped(e: Event, seen: seq<Event>)
    | Copying(op: Operation, len: nat, copied: seq<Event>)
    | HalfCleared
    | HalfCaptured(pods: seq<Pod>, containers: seq<Container>)
    | InHook
    | AtOnce
    | AtOnceLock
    | InOnce
    | Closing
    | Closed
    | LeavingOnce

  /** A snapshot, the operation that took it, and how many operations and resets came before it. */
  datatype Taken = Taken(at: nat, epoch: nat, op: Operation, events: seq<Event>)

  /** `history` lists the operations as they released the mutex; `synced` counts calls of Synchronize that went well. */
  datatype State = State(
    content: Content,
    owner: Option<nat>,
    clock: int,
    pcs: seq<Pc>,
    epoch: nat,
    history: seq<Entry>,
    snapshots: seq<Taken>,
    once: Option<nat>,
    onceDone: bool,
    closes: nat,
    hooksPassed: nat,
    synced: nat)

  datatype Action =
    | Tick(d: nat)
    | Lock(p: nat, op: Operation)
    | ReadLog(p: nat)
    | StoreLog(p: nat)
    | MakeCopy(p: nat)
    | CopyNext(p: nat)
    | Publish(p: nat)
    | GiveUp(p: nat)
    | WipeEvents(p: nat)
    | WipeIds(p: nat)
    | StorePods(p: nat)
    | StoreContainers(p: nat)
    | HookReturns(p: nat, fails: bool)
    | OnceLook(p: nat)
    | OnceLock(p: nat)
    | OnceCheck(p: nat)
    | CloseReady(p: nat)
    | OnceDone(p: nat)
    | OnceUnlock(p: nat)

  function Init(n: nat, clock: int): State {
    State(EMPTY, None, clock, seq(n, _ => Outside), 0, [], [], None, false, 0, 0, 0)
  }

  predicate Asks(op: Operation) {
    op.Snapshot? || op.Poll?
  }

  function Wanted(op: Operation): int {
    if op.Poll? then op.count else 0
  }

  predicate Enabled(s: State, a: Action) {
    a.Tick? ||
    (a.p < |s.pcs| &&
     var pc := s.pcs[a.p];
     match a
     case Lock(_, _) => pc.Outside? && s.owner.None?
     case ReadLog(_) => pc.Holding? && pc.op.Record?
     case StoreLog(_) => pc.Stamped?
     case MakeCopy(_) => pc.Holding? && Asks(pc.op) && |s.content.events| >= Wanted(pc.op)
     case CopyNext(_) => pc.Copying? && |pc.copied| < pc.len && |pc.copied| < |s.content.events|
     case Publish(_) => pc.Copying? && |pc.copied| == pc.len
     case GiveUp(_) => pc.Holding? && Asks(pc.op) && |s.content.events| < Wanted(pc.op)
     case WipeEvents(_) => pc.Holding? && pc.op.Clear?
     case WipeIds(_) => pc.HalfCleared?
     case StorePods(_) => pc.Holding? && pc.op.Capture?
     case StoreContainers(_) => pc.HalfCaptured?
     case HookReturns(_, _) => pc.InHook?
     case OnceLook(_) => pc.AtOnce?
     case OnceLock(_) => pc.AtOnceLock? && s.once.None?
     case OnceCheck(_) => pc.InOnce?
     case CloseReady(_) => pc.Closing?
     case OnceDone(_) => pc.Closed?
     case OnceUnlock(_) => pc.LeavingOnce?)
  }

  function Goto(s: State, p: nat, pc: Pc): State
    requires p < |s.pcs|
  {
    s.(pcs := s.pcs[p := pc])
  }

  /** The end of an operation: the mutex is free again. */
  function Release(s: State, p: nat, e: Entry, pc: Pc): State
    requires p < |s.pcs|
  {
    Goto(s, p, pc).(owner := None, history := s.history + [e])
  }

  /** The actions that take, hold or release the mutex. */
  predicate Guarded(a: Action) {
    !(a.Tick? || a.HookReturns? || a.OnceLook? || a.OnceLock? || a.OnceCheck? || a.CloseReady? || a.OnceDone?
      || a.OnceUnlock?)
  }

  /** The actions under the mutex. A poll that finds too few events gives up without a snapshot. */
  function ApplyGuarded(s: State, a: Action): State
    requires Enabled(s, a) && Guarded(a)
  {
    var pc := s.pcs[a.p];
    match a
    case Lock(p, op) => Goto(s, p, Holding(op)).(owner := Some(p))
    case ReadLog(p) =>
      Goto(s, p, Stamped(Event(pc.op.kind, pc.op.pod, pc.op.container, s.clock), s.content.events))
    case StoreLog(p) =>
      var entry := Entry(Record(pc.e.kind, pc.e.pod, pc.e.container), pc.e.timestamp);
      Release(s, p, entry, Outside).(content := s.content.(events := pc.seen + [pc.e]))
    case MakeCopy(p) => Goto(s, p, Copying(pc.op, |s.content.events|, []))
    case CopyNext(p) => Goto(s, p, pc.(copied := pc.copied + [s.content.events[|pc.copied|]]))
    case Publish(p) =>
      var taken := Taken(|s.history|, s.epoch, pc.op, pc.copied);
      Release(s, p, Entry(pc.op, s.clock), Outside).(snapshots := s.snapshots + [taken])
    case GiveUp(p) => Release(s, p, Entry(pc.op, s.clock), Outside)
    case WipeEvents(p) => Goto(s, p, HalfCleared).(content := s.content.(events := []), epoch := s.epoch + 1)
    case WipeIds(p) =>
      Release(s, p, Entry(Clear, s.clock), Outside).(
        content := s.content.(syncPods := [], syncContainers := []))
    case StorePods(p) =>
      Goto(s, p, HalfCaptured(pc.op.pods, pc.op.containers)).(
        content := s.content.(syncPods := PodIds(pc.op.pods)))
    case StoreContainers(p) =>
      Release(s, p, Entry(Capture(pc.pods, pc.containers), s.clock), InHook).(
        content := s.content.(syncContainers := ContainerIds(pc.containers)))
  }

  function Apply(s: State, a: Action): State
    requires Enabled(s, a)
  {
    match a
    case Tick(d) => s.(clock := s.clock + d)
    case HookReturns(p, fails) =>
      Goto(s, p, if fails then Outside else AtOnce).(hooksPassed := s.hooksPassed + if fails then 0 else 1)
    case OnceLook(p) => if s.onceDone then Goto(s, p, Outside).(synced := s.synced + 1) else Goto(s, p, AtOnceLock)
    case OnceLock(p) => Goto(s, p, InOnce).(once := Some(p))
    case OnceCheck(p) => Goto(s, p, if s.onceDone then LeavingOnce else Closing)
    case CloseReady(p) => Goto(s, p, Closed).(closes := s.closes + 1)
    case OnceDone(p) => Goto(s, p, LeavingOnce).(onceDone := true)
    case OnceUnlock(p) => Goto(s, p, Outside).(once := None, synced := s.synced + 1)
    case _ => ApplyGuarded(s, a)
  }

  predicate Runs(s: State, acts: seq<Action>)
    decreases |acts|
  {
    acts == [] || (Enabled(s, acts[0]) && Runs(Apply(s, acts[0]), acts[1..]))
  }

  function After(s: State, acts: seq<Action>): State
    requires Runs(s, acts)
    decreases |acts|
  {
    if acts == [] then s else After(Apply(s, acts[0]), acts[1..])
  }

  // What every action keeps: the order of the log, its history, and the Once.

  ghost predicate InOrder(events: seq<Event>, bound: int) {
    && (forall i, j :: 0 <= i < j < |events| ==> events[i].timestamp <= events[j].timestamp)
    && (forall i :: 0 <= i < |events| ==> events[i].timestamp <= bound)
  }

  predicate Inside(pc: Pc) {
    pc.Holding? || pc.Stamped? || pc.Copying? || pc.HalfCleared? || pc.HalfCaptured?
  }

  /** What a goroutine inside has read is still so. */
  ghost predicate UpToDate(events: seq<Event>, clock: int, pc: Pc) {
    && (pc.Stamped? ==>
          pc.seen == events && InOrder(events, pc.e.timestamp) && pc.e.timestamp <= clock)
    && (pc.Copying? ==>
          Asks(pc.op) && pc.len == |events| && pc.copied <= events && |events| >= Wanted(pc.op))
  }

  ghost predicate LogInv(s: State) {
    && (forall p :: 0 <= p < |s.pcs| ==> (Inside(s.pcs[p]) <==> s.owner == Some(p)))
    && InOrder(s.content.events, s.clock)
    && (forall p :: 0 <= p < |s.pcs| ==> UpToDate(s.content.events, s.clock, s.pcs[p]))
  }

  /** A wait that returns has at least the events that it waited for. */
  predicate Enough(taken: Taken) {
    taken.op.Poll? ==> |taken.events| >= taken.op.count
  }

  ghost predicate SnapshotInv(s: State) {
    var events, taken := s.content.events, s.snapshots;
    && (forall k :: 0 <= k < |taken| ==> taken[k].epoch <= s.epoch && Enough(taken[k]))
    && (forall k :: 0 <= k < |taken| && taken[k].epoch == s.epoch ==> taken[k].events <= events)
    && (forall k, l :: 0 <= k < l < |taken| && taken[k].epoch == taken[l].epoch ==> taken[k].events <= taken[l].events)
  }

  /** The content while an operation is under way, if `c` is what its predecessors left. */
  function InProgress(c: Content, pc: Pc): Content {
    match pc
    case HalfCleared => c.(events := [])
    case HalfCaptured(pods, _) => c.(syncPods := PodIds(pods))
    case _ => c
  }

  function OwnerPc(s: State): Pc {
    if s.owner.Some? && s.owner.value < |s.pcs| then s.pcs[s.owner.value] else Outside
  }

  /** Operation `k` got its snapshot, or it was a poll and there were too few events. */
  ghost predicate Answered(s: State, k: nat)
    requires k < |s.history|
  {
    || (exists j :: 0 <= j < |s.snapshots| && s.snapshots[j].at == k && s.snapshots[j].op == s.history[k].op)
    || (s.history[k].op.Poll? && |Played(EMPTY, s.history[..k]).events| < s.history[k].op.count)
  }

  ghost predicate AnswerInv(s: State) {
    forall k :: 0 <= k < |s.history| && (s.history[k].op.Snapshot? || s.history[k].op.Poll?) ==> Answered(s, k)
  }

  ghost predicate HistoryInv(s: State) {
    && s.content == InProgress(Played(EMPTY, s.history), OwnerPc(s))
    && forall k :: 0 <= k < |s.snapshots| ==>
         && s.snapshots[k].at <= |s.history|
         && s.snapshots[k].events == Played(EMPTY, s.history[..s.snapshots[k].at]).events
  }

  predicate HoldsOnce(pc: Pc) {
    pc.InOnce? || pc.Closing? || pc.Closed? || pc.LeavingOnce?
  }

  /** A goroutine comes here only after its hook has passed. */
  predicate PastHook(pc: Pc) {
    pc.AtOnce? || pc.AtOnceLock? || HoldsOnce(pc)
  }

  ghost predicate OnceInv(s: State) {
    && (forall p :: 0 <= p < |s.pcs| ==> (HoldsOnce(s.pcs[p]) <==> s.once == Some(p)))
    && (forall p :: 0 <= p < |s.pcs| ==>
          && (s.pcs[p].Closing? ==> s.closes == 0)
          && (s.pcs[p].Closed? ==> s.closes == 1 && !s.onceDone)
          && (s.pcs[p].LeavingOnce? ==> s.onceDone))
    && (s.onceDone ==> s.closes == 1)
    && (!s.onceDone && s.closes > 0 ==> s.once.Some? && s.once.value < |s.pcs| && s.pcs[s.once.value].Closed?)
    && (s.synced > 0 ==> s.onceDone)
    && (s.closes > 0 ==> s.hooksPassed > 0)
    && (forall p :: 0 <= p < |s.pcs| && PastHook(s.pcs[p]) ==> s.hooksPassed > 0)
  }

  ghost predicate Inv(s: State) {
    LogInv(s) && SnapshotInv(s) && HistoryInv(s) && AnswerInv(s) && OnceInv(s)
  }

  /** A step of one goroutine keeps LogInv if it fits what that goroutine has read, and writes only from the inside. */
  lemma LogStep(s: State, s': State, p: nat)
    requires LogInv(s) && p < |s.pcs| && |s'.pcs| == |s.pcs| && s'.pcs == s.pcs[p := s'.pcs[p]]
    requires s'.owner == if Inside(s'.pcs[p]) then Some(p) else if Inside(s.pcs[p]) then None else s.owner
    requires Inside(s'.pcs[p]) ==> Inside(s.pcs[p]) || s.owner.None?
    requires s'.clock == s.clock && (Inside(s.pcs[p]) || s'.content.events == s.content.events)
    requires InOrder(s'.content.events, s'.clock) && UpToDate(s'.content.events, s'.clock, s'.pcs[p])
    ensures LogInv(s')
  {
    forall q | 0 <= q < |s'.pcs| && q != p
      ensures Inside(s'.pcs[q]) <==> s'.owner == Some(q)
      ensures UpToDate(s'.content.events, s'.clock, s'.pcs[q])
    {
      assert s'.pcs[q] == s.pcs[q];
    }
  }

  lemma LogGuarded(s: State, a: Action)
    requires LogInv(s) && Enabled(s, a) && Guarded(a)
    ensures LogInv(ApplyGuarded(s, a))
  {
    assert UpToDate(s.content.events, s.clock, s.pcs[a.p]);
    LogStep(s, ApplyGuarded(s, a), a.p);
  }

  lemma LogApply(s: State, a: Action)
    requires LogInv(s) && Enabled(s, a)
    ensures LogInv(Apply(s, a))
  {
    if Guarded(a) {
      LogGuarded(s, a);
    } else if !a.Tick? {
      LogStep(s, Apply(s, a), a.p);
    }
  }

  lemma SnapshotPublish(s: State, p: nat)
    requires LogInv(s) && SnapshotInv(s) && Enabled(s, Publish(p))
    ensures SnapshotInv(Apply(s, Publish(p)))
  {
    assert UpToDate(s.content.events, s.clock, s.pcs[p]);
  }

  lemma SnapshotUnpublished(s: State, s': State)
    requires SnapshotInv(s) && s'.snapshots == s.snapshots
    requires s'.epoch > s.epoch || (s'.epoch == s.epoch && s.content.events <= s'.content.events)
    ensures SnapshotInv(s')
  {
  }

  /** Whoever stores or publishes has read the present log, since nobody else was inside. */
  lemma SnapshotApply(s: State, a: Action)
    requires LogInv(s) && SnapshotInv(s) && Enabled(s, a)
    ensures SnapshotInv(Apply(s, a))
  {
    if a.Publish? {
      SnapshotPublish(s, a.p);
    } else {
      if a.StoreLog? {
        assert UpToDate(s.content.events, s.clock, s.pcs[a.p]);
      }
      SnapshotUnpublished(s, Apply(s, a));
    }
  }

  /** The last entry of a history is played last. */
  lemma PlayedNext(c: Content, es: seq<Entry>, e: Entry)
    ensures Played(c, es + [e]) == Effect(Played(c, es), e)
  {
    assert (es + [e])[..|es|] == es;
  }

  /** The operation under way goes one step further; `c` is what its predecessors left. */
  ghost predicate Continues(s: State, s': State, c: Content) {
    s'.history == s.history && s'.snapshots == s.snapshots && s'.content == InProgress(c, OwnerPc(s'))
  }

  /** The operation ends, with the content that it makes of `c`, and perhaps with a snapshot of `c`. */
  ghost predicate Ends(s: State, s': State, c: Content) {
    var n, k := |s.history|, |s.snapshots|;
    && |s'.history| == n + 1 && s'.history == s.history + [s'.history[n]]
    && s'.owner.None? && s'.content == Effect(c, s'.history[n])
    && (s'.snapshots == s.snapshots
        || (|s'.snapshots| == k + 1 && s'.snapshots == s.snapshots + [s'.snapshots[k]]
            && s'.snapshots[k].at == n && s'.snapshots[k].events == c.events
            && s'.snapshots[k].op == s'.history[n].op))
    && (Asks(s'.history[n].op) && s'.snapshots == s.snapshots ==>
          s'.history[n].op.Poll? && |c.events| < s'.history[n].op.count)
  }

  lemma OutsideContinues(s: State, a: Action, c: Content)
    requires LogInv(s) && Enabled(s, a) && !Guarded(a) && s.content == InProgress(c, OwnerPc(s))
    ensures Continues(s, Apply(s, a), c)
  {
    if !a.Tick? {
      assert s.owner != Some(a.p);
    }
  }

  lemma EndsOperation(s: State, a: Action, c: Content)
    requires LogInv(s) && Enabled(s, a) && s.content == InProgress(c, OwnerPc(s))
    requires a.StoreLog? || a.Publish? || a.GiveUp? || a.WipeIds? || a.StoreContainers?
    ensures Ends(s, ApplyGuarded(s, a), c)
  {
    assert UpToDate(s.content.events, s.clock, s.pcs[a.p]);
    assert s.owner == Some(a.p);
    if a.Publish? {
      assert s.pcs[a.p].copied == s.content.events;
    }
  }

  lemma ContinuesOperation(s: State, a: Action, c: Content)
    requires LogInv(s) && Enabled(s, a) && s.content == InProgress(c, OwnerPc(s))
    requires a.Lock? || a.ReadLog? || a.MakeCopy? || a.CopyNext? || a.WipeEvents? || a.StorePods?
    ensures Continues(s, ApplyGuarded(s, a), c)
  {
    assert Inside(s.pcs[a.p]) <==> s.owner == Some(a.p);
  }

  lemma ContinuesOrEnds(s: State, a: Action, c: Content)
    requires LogInv(s) && Enabled(s, a) && s.content == InProgress(c, OwnerPc(s))
    ensures Continues(s, Apply(s, a), c) || Ends(s, Apply(s, a), c)
  {
    if !Guarded(a) {
      OutsideContinues(s, a, c);
    } else if a.StoreLog? || a.Publish? || a.GiveUp? || a.WipeIds? || a.StoreContainers? {
      EndsOperation(s, a, c);
    } else {
      ContinuesOperation(s, a, c);
    }
  }

  lemma HistoryStep(s: State, s': State)
    requires HistoryInv(s)
    requires Continues(s, s', Played(EMPTY, s.history)) || Ends(s, s', Played(EMPTY, s.history))
    ensures HistoryInv(s')
  {
    if Ends(s, s', Played(EMPTY, s.history)) {
      PlayedNext(EMPTY, s.history, s'.history[|s.history|]);
      assert forall at: nat :: at <= |s.history| ==> s'.history[..at] == s.history[..at];
      assert s.history[..|s.history|] == s.history;
    }
  }

  lemma StillAnswered(s: State, s': State, k: nat)
    requires k < |s.history| <= |s'.history| && s'.history[..|s.history|] == s.history && s.snapshots <= s'.snapshots
    requires Answered(s, k)
    ensures Answered(s', k)
  {
    assert s'.history[k] == s'.history[..|s.history|][k] == s.history[k];
    assert s'.history[..k] == s'.history[..|s.history|][..k] == s.history[..k];
    if j :| 0 <= j < |s.snapshots| && s.snapshots[j].at == k && s.snapshots[j].op == s.history[k].op {
      assert s'.snapshots[j] == s.snapshots[j];
    }
  }

  lemma NowAnswered(s: State, s': State)
    requires HistoryInv(s) && Ends(s, s', Played(EMPTY, s.history)) && Asks(s'.history[|s.history|].op)
    ensures Answered(s', |s.history|)
  {
    var n := |s.history|;
    assert s'.history[..n] == s.history;
    if s'.snapshots != s.snapshots {
      assert s'.snapshots[|s.snapshots|].at == n;
    }
  }

  lemma AnswerStep(s: State, s': State)
    requires AnswerInv(s) && HistoryInv(s)
    requires Continues(s, s', Played(EMPTY, s.history)) || Ends(s, s', Played(EMPTY, s.history))
    ensures AnswerInv(s')
  {
    assert s'.history[..|s.history|] == s.history;
    forall k: nat | k < |s'.history| && Asks(s'.history[k].op) ensures Answered(s', k) {
      if k < |s.history| {
        StillAnswered(s, s', k);
      } else {
        NowAnswered(s, s');
      }
    }
  }

  lemma HistoryApply(s: State, a: Action)
    requires LogInv(s) && HistoryInv(s) && AnswerInv(s) && Enabled(s, a)
    ensures HistoryInv(Apply(s, a)) && AnswerInv(Apply(s, a))
  {
    ContinuesOrEnds(s, a, Played(EMPTY, s.history));
    HistoryStep(s, Apply(s, a));
    AnswerStep(s, Apply(s, a));
  }

  lemma OnceElsewhere(s: State, s': State, p: nat)
    requires OnceInv(s) && p < |s.pcs| && |s'.pcs| == |s.pcs| && s'.pcs == s.pcs[p := s'.pcs[p]]
    requires !HoldsOnce(s.pcs[p]) && !HoldsOnce(s'.pcs[p])
    requires s'.once == s.once && s'.onceDone == s.onceDone && s'.closes == s.closes && s'.synced == s.synced
    requires s'.hooksPassed >= s.hooksPassed && (PastHook(s'.pcs[p]) ==> s'.hooksPassed > 0)
    ensures OnceInv(s')
  {
  }

  /** What happens under the mutex leaves the Once alone. */
  lemma GuardedAway(s: State, a: Action)
    requires Enabled(s, a) && Guarded(a)
    ensures var s' := ApplyGuarded(s, a);
            && |s'.pcs| == |s.pcs| && s'.pcs == s.pcs[a.p := s'.pcs[a.p]]
            && !HoldsOnce(s.pcs[a.p]) && !HoldsOnce(s'.pcs[a.p])
            && s'.once == s.once && s'.onceDone == s.onceDone && s'.closes == s.closes && s'.synced == s.synced
            && s'.hooksPassed == s.hooksPassed && !PastHook(s'.pcs[a.p])
  {
  }

  lemma OnceGuarded(s: State, s': State, a: Action)
    requires OnceInv(s) && Enabled(s, a) && Guarded(a) && s' == ApplyGuarded(s, a)
    ensures OnceInv(s')
  {
    GuardedAway(s, a);
    OnceElsewhere(s, s', a.p);
  }

  lemma OnceEnter(s: State, a: Action)
    requires OnceInv(s) && Enabled(s, a) && (a.OnceLook? || a.OnceLock? || a.OnceCheck?)
    ensures OnceInv(Apply(s, a))
  {
  }

  lemma OnceLeave(s: State, a: Action)
    requires OnceInv(s) && Enabled(s, a) && (a.CloseReady? || a.OnceDone? || a.OnceUnlock?)
    ensures OnceInv(Apply(s, a))
  {
  }

  lemma OnceApply(s: State, a: Action)
    requires OnceInv(s) && Enabled(s, a)
    ensures OnceInv(Apply(s, a))
  {
    match a
    case Tick(_) =>
    case HookReturns(p, _) => OnceElsewhere(s, Apply(s, a), p);
    case OnceLook(_) => OnceEnter(s, a);
    case OnceLock(_) => OnceEnter(s, a);
    case OnceCheck(_) => OnceEnter(s, a);
    case CloseReady(_) => OnceLeave(s, a);
    case OnceDone(_) => OnceLeave(s, a);
    case OnceUnlock(_) => OnceLeave(s, a);
    case _ => OnceGuarded(s, ApplyGuarded(s, a), a);
  }

  lemma {:induction false} InvRuns(s: State, acts: seq<Action>)
    requires Inv(s) && Runs(s, acts)
    ensures Inv(After(s, acts))
    decreases |acts|
  {
    if acts != [] {
      var a := acts[0];
      LogApply(s, a);
      SnapshotApply(s, a);
      HistoryApply(s, a);
      OnceApply(s, a);
      InvRuns(Apply(s, a), acts[1..]);
    }
  }

  lemma Reachable(n: nat, clock: int, acts: seq<Action>)
    requires Runs(Init(n, clock), acts)
    ensures Inv(After(Init(n, clock), acts))
  {
    InvRuns(Init(n, clock), acts);
  }

  /** Under every interleaving the timestamps never decrease along the log: the clock is read under the mutex. */
  lemma TimestampsInOrder(n: nat, clock: int, acts: seq<Action>)
    requires Runs(Init(n, clock), acts)
    ensures var s := After(Init(n, clock), acts); InOrder(s.content.events, s.clock)
  {
    Reachable(n, clock, acts);
  }

  /** At most one goroutine is inside, so each operation sees and leaves a whole log. */
  lemma MutualExclusion(n: nat, clock: int, acts: seq<Action>, p: nat, q: nat)
    requires Runs(Init(n, clock), acts) && p < q < |After(Init(n, clock), acts).pcs|
    ensures var s := After(Init(n, clock), acts); !(Inside(s.pcs[p]) && Inside(s.pcs[q]))
  {
    Reachable(n, clock, acts);
  }

  /**
   Although operations read and write in several steps, every interleaving has the effect of the same operations done
   one after the other, in the order in which they released the mutex: whenever the mutex is free, the content is what
   they leave. And a snapshot shows the log as the operations before it left it.
   */
  lemma Serializable(n: nat, clock: int, acts: seq<Action>)
    requires Runs(Init(n, clock), acts)
    ensures var s := After(Init(n, clock), acts);
            && (s.owner.None? ==> s.content == Played(EMPTY, s.history))
            && forall k :: 0 <= k < |s.snapshots| ==>
                 && s.snapshots[k].at <= |s.history|
                 && s.snapshots[k].events == Played(EMPTY, s.history[..s.snapshots[k].at]).events
  {
    Reachable(n, clock, acts);
  }

  /** Every completed call of Events got its snapshot, and a poll got none only if there were too few events. */
  lemma EveryPollAnswered(n: nat, clock: int, acts: seq<Action>, k: nat)
    requires Runs(Init(n, clock), acts) && k < |After(Init(n, clock), acts).history|
    ensures var s := After(Init(n, clock), acts);
            var op := s.history[k].op;
            op.Snapshot? || op.Poll? ==>
              || (exists j :: 0 <= j < |s.snapshots| && s.snapshots[j].at == k && s.snapshots[j].op == op)
              || (op.Poll? && |Played(EMPTY, s.history[..k]).events| < op.count)
  {
    Reachable(n, clock, acts);
    var s := After(Init(n, clock), acts);
    assert s.history[k].op.Snapshot? || s.history[k].op.Poll? ==> Answered(s, k);
  }

  /** Whatever time passes, a recorder appends its arguments with the time at which it read the clock. */
  lemma RecordsNow(s: State, p: nat, d: nat)
    requires LogInv(s) && p < |s.pcs| && s.pcs[p].Holding? && s.pcs[p].op.Record?
    ensures var acts := [ReadLog(p), Tick(d), StoreLog(p)];
            var op := s.pcs[p].op;
            && Runs(s, acts)
            && After(s, acts).content.events == s.content.events + [Event(op.kind, op.pod, op.container, s.clock)]
  {
    var s1 := Apply(s, ReadLog(p));
    var s2 := Apply(s1, Tick(d));
    var last: seq<Action> := [StoreLog(p)];
    var rest: seq<Action> := [Tick(d)] + last;
    var acts: seq<Action> := [ReadLog(p)] + rest;
    assert last[1..] == [] && rest[1..] == last && acts[1..] == rest;
    assert Runs(s2, last) && After(s2, last) == Apply(s2, StoreLog(p));
    assert Runs(s1, rest) && After(s1, rest) == After(s2, last);
    assert Runs(s, acts) && After(s, acts) == After(s1, rest);
    assert acts == [ReadLog(p), Tick(d), StoreLog(p)];
  }

  /** The object, taken through the operations of any interleaving in that order, ends with the same content. */
  method Replay(n: nat, clock: int, acts: seq<Action>) returns (plugin: NRITestPlugin)
    requires Runs(Init(n, clock), acts) && After(Init(n, clock), acts).owner.None?
    ensures plugin.Valid() && plugin.Contents() == After(Init(n, clock), acts).content
  {
    plugin := new NRITestPlugin();
    plugin.PerformAll(After(Init(n, clock), acts).history);
    Serializable(n, clock, acts);
  }

  /**
   Until the next reset every snapshot is a prefix of the log and of the snapshots taken after it; and a wait that
   returns has at least the events it asked for.
   */
  lemma SnapshotsArePrefixes(n: nat, clock: int, acts: seq<Action>, k: nat)
    requires Runs(Init(n, clock), acts) && k < |After(Init(n, clock), acts).snapshots|
    ensures var s := After(Init(n, clock), acts);
            && (s.snapshots[k].op.Poll? ==> |s.snapshots[k].events| >= s.snapshots[k].op.count)
            && (s.snapshots[k].epoch == s.epoch ==> s.snapshots[k].events <= s.content.events)
            && forall l :: k < l < |s.snapshots| && s.snapshots[l].epoch == s.snapshots[k].epoch ==>
                 s.snapshots[k].events <= s.snapshots[l].events
  {
    Reachable(n, clock, acts);
  }

  /**
   However many calls of Synchronize run at once, the ready channel is closed at most once, it is closed before any of
   them returns without error, and it is not closed unless some hook has passed.
   */
  lemma ReadyClosedOnce(n: nat, clock: int, acts: seq<Action>)
    requires Runs(Init(n, clock), acts)
    ensures var s := After(Init(n, clock), acts);
            && s.closes <= 1
            && (s.synced > 0 ==> s.closes == 1)
            && (s.closes > 0 ==> s.hooksPassed > 0)
            && forall p: nat :: Enabled(s, CloseReady(p)) ==> s.closes == 0
  {
    Reachable(n, clock, acts);
  }

  lemma {:induction false} GrowsFrom(s: State, acts: seq<Action>)
    requires LogInv(s) && Runs(s, acts)
    ensures After(s, acts).epoch >= s.epoch
    ensures After(s, acts).epoch == s.epoch ==> s.content.events <= After(s, acts).content.events
    decreases |acts|
  {
    if acts != [] {
      LogApply(s, acts[0]);
      GrowsFrom(Apply(s, acts[0]), acts[1..]);
    }
  }

  /** From any reachable state on, until the next reset the log only grows: no recorded event is lost. */
  lemma GrowsBetweenResets(n: nat, clock: int, acts: seq<Action>, more: seq<Action>)
    requires Runs(Init(n, clock), acts) && Runs(After(Init(n, clock), acts), more)
    ensures var s := After(Init(n, clock), acts);
            After(s, more).epoch == s.epoch ==> s.content.events <= After(s, more).content.events
  {
    Reachable(n, clock, acts);
    GrowsFrom(After(Init(n, clock), acts), more);
  }

  /** A snapshot filtered by pod is a prefix of the filtered log as long as nobody resets. */
  lemma SnapshotStaysPrefix(n: nat, clock: int, acts: seq<Action>, k: nat, podID: string)
    requires Runs(Init(n, clock), acts) && k < |After(Init(n, clock), acts).snapshots|
    requires After(Init(n, clock), acts).snapshots[k].epoch == After(Init(n, clock), acts).epoch
    ensures var s := After(Init(n, clock), acts);
            ForPod(s.snapshots[k].events, podID) <= ForPod(s.content.events, podID)
  {
    var s := After(Init(n, clock), acts);
    SnapshotsArePrefixes(n, clock, acts, k);
    var before, now := s.snapshots[k].events, s.content.events;
    assert now == before + now[|before|..];
    ForPodConcat(before, now[|before|..], podID);
  }
}
