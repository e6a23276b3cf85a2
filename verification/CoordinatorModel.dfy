/**
 * The coordinator as a machine: one event is the code between two awaits.
 *
 * The asyncio lock has at most one holder; everything else (callbacks, pushes, timers, queued
 * publishes, lost links, cancellation) may happen between any two of the holder's steps.
 * A client, its auth object and its session are built for one connection attempt and carry its number.
 */
module CoordinatorModel {
  import opened Bytes
  import opened Properties

  type Id = nat

  datatype Kind = SessionObject | AuthObject | ClientObject

  datatype Resource = Resource(kind: Kind, id: Id)

  datatype Job = Poll | Write | Idle(timer: Id) | Cleanup | Shutdown

  // What a connection attempt has built so far.
  datatype Stage = Bare | WithAuth | WithSession

  // What the lock holder does once `_disconnect` returns.
  datatype After = Dial | Raise | Finish

  datatype Holder =
    | Nobody
    | Dialing(job: Job, setupGeneration: nat)
    | SettingUp(job: Job, stage: Stage, connection: Id, setupGeneration: nat)
    | Abandoning(job: Job, left: seq<Resource>, shielded: bool, cancelled: bool)
    | Requesting(job: Job, session: Id, client: Id, generation: nat)
    | Releasing(job: Job, left: seq<Resource>, after: After)

  datatype Phase = Sleeping | Waiting | Inside | Cancelled | Done

  datatype Timer = Timer(client: Id, phase: Phase)

  // The observable past. `Good` and `Bad` are what entities see; a `Good` entry also names the
  // entries at which the poll behind it began and completed.
  datatype Entry =
    | Began
    | Completed(response: Props)
    | Pushed(entries: seq<PropertyValue>)
    | Invalidated
    | Good(props: Props, began: nat, completed: nat)
    | Bad

  // The fields of the coordinator, by what they are for.
  datatype Link = Link(
    client: Option<Id>, auth: Option<Id>, session: Option<Id>, connecting: Option<Id>, generation: nat)

  // `queue` holds the publish callbacks the event loop still has to run.
  datatype Cache = Cache(
    values: Props, pending: Props, baseline: Option<Id>, publishPending: bool, queue: multiset<Id>)

  // `released` is history: the locked part of a shutdown has run to its end.
  datatype Tasks = Tasks(
    idle: Option<Id>, timers: map<Id, Timer>, cleanup: Option<Id>, shutdown: bool, released: bool)

  datatype Radio = Radio(connected: set<Id>, exhausted: set<Id>)

  datatype Past = Past(log: seq<Entry>, beganAt: nat, basisAt: nat, completedAt: nat)

  // Every resource ever created, handed to clean-up, released, or left behind by a cancelled
  // clean-up, and the connections whose loss was noticed while they were being set up.
  datatype Ledger = Ledger(
    created: multiset<Resource>, handed: multiset<Resource>,
    attempted: multiset<Resource>, abandoned: multiset<Resource>, dropped: set<Id>)

  datatype State = State(
    link: Link, cache: Cache, tasks: Tasks, radio: Radio, holder: Holder,
    past: Past, ledger: Ledger, nextId: Id, lease: bool)

  function Initial(lease: bool): State
  {
    State(Link(None, None, None, None, 0), Cache(map[], map[], None, false, multiset{}),
          Tasks(None, map[], None, false, false), Radio({}, {}), Nobody,
          Past([], 0, 0, 0), Ledger(multiset{}, multiset{}, multiset{}, multiset{}, {}), 0, lease)
  }

  function Logged(past: Past, entries: seq<Entry>): Past
  {
    past.(log := past.log + entries)
  }

  // ---------------------------------------------------------------- resources

  function One(kind: Kind, id: Option<Id>): seq<Resource>
  {
    if id.Some? then [Resource(kind, id.value)] else []
  }

  // The order in which `_cleanup_resources` walks them.
  function Attached(link: Link): seq<Resource>
  {
    One(SessionObject, link.session) + One(AuthObject, link.auth) + One(ClientObject, link.client)
  }

  function Built(stage: Stage, c: Id): seq<Resource>
  {
    (if stage == WithSession then [Resource(SessionObject, c)] else [])
    + (if stage != Bare then [Resource(AuthObject, c)] else [])
    + [Resource(ClientObject, c)]
  }

  // -------------------------------------------------------- callbacks and pushes

  // Shared tail of `_handle_disconnect` and `_handle_session_error`.
  function Invalidate(s: State, c: Id): State
  {
    s.(link := s.link.(generation := s.link.generation + 1),
       cache := s.cache.(baseline := None, publishPending := false),
       past := Logged(s.past, [Invalidated, Bad]),
       tasks := s.tasks.(cleanup := if s.tasks.cleanup.Some? then s.tasks.cleanup else Some(c)))
  }

  function HandleDisconnect(s: State, c: Id): State
  {
    if s.link.connecting == Some(c)
    then s.(link := s.link.(generation := s.link.generation + 1),
        ledger := s.ledger.(dropped := s.ledger.dropped + {c}))
    else if s.link.client != Some(c) then s
    else Invalidate(s, c)
  }

  function HandleSessionError(s: State, session: Id): State
  {
    if s.link.session != Some(session) || s.link.client.None? then s else Invalidate(s, s.link.client.value)
  }

  function Kept(entries: seq<PropertyValue>): seq<PropertyValue>
  {
    if entries == [] then []
    else Kept(entries[..|entries| - 1])
         + (if entries[|entries| - 1].status == 0 then [entries[|entries| - 1]] else [])
  }

  // Whether applying the entries one by one changes the table at some point.
  function Changes(props: Props, entries: seq<PropertyValue>): bool
  {
    if entries == [] then false else
    var before, last := Overlay(props, entries[..|entries| - 1]), entries[|entries| - 1];
    Changes(props, entries[..|entries| - 1]) || last.Key() !in before || before[last.Key()] != last
  }

  function Merge(cache: Cache, session: Id, entries: seq<PropertyValue>): Cache
  {
    var merged := cache.(pending := Overlay(cache.pending, entries), values := Overlay(cache.values, entries));
    if !Changes(cache.values, entries) || cache.baseline != Some(session) || cache.publishPending then merged
    else merged.(publishPending := true, queue := cache.queue + multiset{session})
  }

  function HandleNotification(s: State, session: Id, plaintext: bytes): State
  {
    if s.link.session != Some(session) then s else
    match ParseNotification(plaintext)
    case Err(_) => s
    case Ok(entries) =>
      s.(cache := Merge(s.cache, session, Kept(entries)), past := Logged(s.past, [Pushed(Kept(entries))]))
  }

  function PublishNotificationUpdate(s: State, session: Id): State
  {
    var ran := s.(cache := s.cache.(publishPending := false, queue := s.cache.queue - multiset{session}));
    if s.link.session != Some(session) || s.cache.baseline != Some(session) then ran
    else ran.(past := Logged(s.past, [Good(s.cache.values, s.past.basisAt, s.past.completedAt)]))
  }

  // ------------------------------------------------------------------ idle lease

  function Cancel(timers: map<Id, Timer>, t: Option<Id>): map<Id, Timer>
  {
    if t.Some? && t.value in timers && timers[t.value].phase !in {Done, Cancelled}
    then timers[t.value := timers[t.value].(phase := Cancelled)] else timers
  }

  function ArmIdleRelease(s: State, c: Id): State
  {
    var cancelled := Cancel(s.tasks.timers, s.tasks.idle);
    if !s.lease then s.(tasks := s.tasks.(timers := cancelled, idle := None))
    else s.(tasks := s.tasks.(timers := cancelled[s.nextId := Timer(c, Sleeping)], idle := Some(s.nextId)),
            nextId := s.nextId + 1)
  }

  function SetPhase(tasks: Tasks, t: Id, phase: Phase): Tasks
    requires t in tasks.timers
  {
    tasks.(timers := tasks.timers[t := tasks.timers[t].(phase := phase)])
  }

  // The `finally` block of the timer task.
  function TimerEnds(tasks: Tasks, t: Id): Tasks
    requires t in tasks.timers
  {
    SetPhase(tasks, t, Done).(idle := if tasks.idle == Some(t) then None else tasks.idle)
  }

  // ------------------------------------------------------------------ lock holder

  // What the end of a background job leaves behind. A shutdown cut short has not released anything.
  function JobEnds(tasks: Tasks, job: Job, completed: bool): Tasks
  {
    match job
    case Idle(t) => if t in tasks.timers then TimerEnds(tasks, t) else tasks
    case Cleanup => tasks.(cleanup := None)
    case Shutdown => tasks.(released := tasks.released || completed)
    case _ => tasks
  }

  function Continue(s: State, job: Job, after: After): State
  {
    match after
    case Dial => s.(holder := Dialing(job, s.link.generation))
    case Raise => s.(holder := Nobody, past := if job == Poll then Logged(s.past, [Bad]) else s.past)
    case Finish => s.(holder := Nobody, tasks := JobEnds(s.tasks, job, true))
  }

  function Detached(link: Link): Link
  {
    Link(None, None, None, link.connecting, if Attached(link) != [] then link.generation + 1 else link.generation)
  }

  function Disconnect(s: State, job: Job, after: After): State
  {
    var left := Attached(s.link);
    var cleared := s.(
      link := Detached(s.link),
      cache := Cache(map[], map[], None, false, s.cache.queue),
      ledger := s.ledger.(handed := s.ledger.handed + multiset(left)));
    if left == [] then Continue(cleared, job, after)
    else cleared.(holder := Releasing(job, left, after))
  }

  // A poll forgets the pushes of earlier polls; a write does not.
  function StartRequest(s: State, job: Job, session: Id, client: Id): State
  {
    var requesting := s.(holder := Requesting(job, session, client, s.link.generation));
    if job == Poll
    then requesting.(cache := s.cache.(pending := map[]),
                     past := Logged(s.past, [Began]).(beganAt := |s.past.log|))
    else requesting
  }

  predicate Usable(s: State)
  {
    && s.link.session.Some? && s.link.client.Some?
    && s.link.client.value in s.radio.connected && s.link.session.value !in s.radio.exhausted
  }

  // `_ensure_connected` up to its first await, for a job that just took the lock.
  function EnsureConnected(s: State, job: Job): State
  {
    if s.tasks.shutdown then Disconnect(s, job, Raise)
    else if Usable(s) then StartRequest(s, job, s.link.session.value, s.link.client.value)
    else Disconnect(s, job, Dial)
  }

  function Create(ledger: Ledger, kind: Kind, id: Id): Ledger
  {
    ledger.(created := ledger.created + multiset{Resource(kind, id)})
  }

  function ConnectionDialed(s: State, up: bool): State
    requires s.holder.Dialing?
  {
    var c := s.nextId;
    s.(link := s.link.(connecting := Some(c)), nextId := c + 1,
       radio := if up then s.radio.(connected := s.radio.connected + {c}) else s.radio,
       ledger := Create(s.ledger, ClientObject, c),
       holder := SettingUp(s.holder.job, Bare, c, s.holder.setupGeneration))
  }

  function NextStage(s: State): State
    requires s.holder.SettingUp?
  {
    match s.holder.stage
    case Bare => s.(holder := s.holder.(stage := WithAuth), ledger := Create(s.ledger, AuthObject, s.holder.connection))
    case WithAuth =>
      s.(holder := s.holder.(stage := WithSession), ledger := Create(s.ledger, SessionObject, s.holder.connection))
    case WithSession => s
  }

  function AbandonSetup(s: State, cancelled: bool): State
    requires s.holder.SettingUp?
  {
    var left := Built(s.holder.stage, s.holder.connection);
    s.(link := if s.link.connecting == Some(s.holder.connection) then s.link.(connecting := None) else s.link,
       ledger := s.ledger.(handed := s.ledger.handed + multiset(left)),
       holder := Abandoning(s.holder.job, left, true, cancelled))
  }

  function Install(s: State): State
    requires s.holder.SettingUp?
  {
    var c := s.holder.connection;
    var installed := s.(link := Link(Some(c), Some(c), Some(c), None, s.link.generation + 1));
    StartRequest(ArmIdleRelease(installed, c), s.holder.job, c, c)
  }

  function FinishSetup(s: State): State
    requires s.holder.SettingUp?
  {
    if s.tasks.shutdown || s.holder.setupGeneration != s.link.generation || s.holder.connection !in s.radio.connected
    then AbandonSetup(s, false)
    else Install(s)
  }

  // One resource was released, or its release failed or timed out.
  function ReleaseNext(s: State): State
    requires (s.holder.Abandoning? || s.holder.Releasing?) && s.holder.left != []
  {
    var rest := s.holder.left[1..];
    var done := s.(ledger := s.ledger.(attempted := s.ledger.attempted + multiset{s.holder.left[0]}));
    if rest != [] then done.(holder := s.holder.(left := rest))
    else match s.holder
         case Abandoning(job, _, _, cancelled) =>
           if cancelled then done.(holder := Nobody) else Disconnect(done, job, Raise)
         case Releasing(job, _, after) => Continue(done, job, after)
  }

  // The first cancellation of a failed setup's clean-up is absorbed, the second one is not;
  // nothing shields the clean-up inside `_disconnect`.
  function CancelRelease(s: State): State
    requires s.holder.Abandoning? || s.holder.Releasing?
  {
    var stranded := s.ledger.(abandoned := s.ledger.abandoned + multiset(s.holder.left));
    match s.holder
    case Abandoning(_, _, shielded, _) =>
      if shielded then s.(holder := s.holder.(shielded := false))
      else s.(ledger := stranded, holder := Nobody)
    case Releasing(job, _, _) =>
      s.(ledger := stranded, holder := Nobody, tasks := JobEnds(s.tasks, job, false))
  }

  predicate StillCurrent(s: State)
    requires s.holder.Requesting?
  {
    && s.link.generation == s.holder.generation
    && s.link.session == Some(s.holder.session)
    && s.link.client == Some(s.holder.client)
    && s.holder.client in s.radio.connected
  }

  function CompletePoll(s: State, plaintext: bytes): State
    requires s.holder.Requesting?
  {
    match ParseResponse(plaintext)
    case Err(_) => Disconnect(s, Poll, Raise)
    case Ok(entries) =>
      if !StillCurrent(s) then Disconnect(s, Poll, Raise) else
      var response := Overlay(map[], entries);
      var values := response + s.cache.pending;
      var began, now := s.past.beganAt, |s.past.log|;
      s.(cache := s.cache.(values := values, pending := map[], baseline := Some(s.holder.session)),
         past := Past(s.past.log + [Completed(response), Good(values, began, now)], began, began, now),
         holder := Nobody)
  }

  function CompleteWrite(s: State): State
    requires s.holder.Requesting?
  {
    if !StillCurrent(s) then Disconnect(s, Write, Raise)
    else ArmIdleRelease(s.(holder := Nobody), s.holder.client)
  }

  function TimerTakesLock(s: State, t: Id): State
    requires t in s.tasks.timers
  {
    if s.link.client == Some(s.tasks.timers[t].client)
    then Disconnect(s.(tasks := SetPhase(s.tasks, t, Inside)), Idle(t), Finish)
    else s.(tasks := TimerEnds(s.tasks, t))
  }

  function CleanupTakesLock(s: State): State
  {
    if s.link.client == s.tasks.cleanup then Disconnect(s, Cleanup, Finish)
    else s.(tasks := s.tasks.(cleanup := None))
  }

  function ShutdownTakesLock(s: State): State
  {
    Disconnect(s.(tasks := s.tasks.(timers := Cancel(s.tasks.timers, s.tasks.idle), idle := None)), Shutdown, Finish)
  }

  // ---------------------------------------------------------------------- events

  // While a connection is being set up.
  datatype SetupEvent = DialFails(cancelled: bool) | DialDone(up: bool) | Advance | Fails(cancelled: bool) | Ready

  // The other steps of a poll or write, and of whoever is cleaning up.
  datatype WorkEvent =
    | TakeLock(job: Job) | PollAnswered(plaintext: bytes) | WriteAccepted
    | RequestFails | RequestCancelled | CleanNext | CleanCancelled

  datatype TaskEvent =
    | TimerFires(t: Id) | TimerLock(t: Id) | TimerStops(t: Id)
    | CleanupLock | ShutdownRequested | ShutdownLock

  datatype LoopEvent =
    | LinkLost(c: Id) | DisconnectCallback(c: Id) | SessionError(session: Id) | CountersExhausted(session: Id)
    | Push(session: Id, plaintext: bytes) | RunPublish(session: Id)

  datatype Event = Setup(s: SetupEvent) | Work(w: WorkEvent) | Task(t: TaskEvent) | Loop(l: LoopEvent)

  // In all four, an event that cannot happen now changes nothing: every event list is a run.
  function SetupStep(s: State, e: SetupEvent): State
  {
    match e
    case DialFails(cancelled) =>
      if !s.holder.Dialing? then s
      else if cancelled then s.(holder := Nobody)
      else Disconnect(s, s.holder.job, Raise)
    case DialDone(up) => if s.holder.Dialing? then ConnectionDialed(s, up) else s
    case Advance => if s.holder.SettingUp? then NextStage(s) else s
    case Fails(cancelled) => if s.holder.SettingUp? then AbandonSetup(s, cancelled) else s
    case Ready => if s.holder.SettingUp? && s.holder.stage == WithSession then FinishSetup(s) else s
  }

  function WorkStep(s: State, e: WorkEvent): State
  {
    match e
    case TakeLock(job) => if s.holder == Nobody && job in {Poll, Write} then EnsureConnected(s, job) else s
    case PollAnswered(plaintext) =>
      if s.holder.Requesting? && s.holder.job == Poll then CompletePoll(s, plaintext) else s
    case WriteAccepted => if s.holder.Requesting? && s.holder.job == Write then CompleteWrite(s) else s
    case RequestFails => if s.holder.Requesting? then Disconnect(s, s.holder.job, Raise) else s
    case RequestCancelled => if s.holder.Requesting? then s.(holder := Nobody) else s
    case CleanNext => if (s.holder.Abandoning? || s.holder.Releasing?) && s.holder.left != [] then ReleaseNext(s) else s
    case CleanCancelled => if s.holder.Abandoning? || s.holder.Releasing? then CancelRelease(s) else s
  }

  predicate Timed(s: State, t: Id, phase: Phase)
  {
    t in s.tasks.timers && s.tasks.timers[t].phase == phase
  }

  function TaskStep(s: State, e: TaskEvent): State
  {
    match e
    case TimerFires(t) => if Timed(s, t, Sleeping) then s.(tasks := SetPhase(s.tasks, t, Waiting)) else s
    case TimerLock(t) => if s.holder == Nobody && Timed(s, t, Waiting) then TimerTakesLock(s, t) else s
    case TimerStops(t) => if Timed(s, t, Cancelled) then s.(tasks := TimerEnds(s.tasks, t)) else s
    case CleanupLock => if s.holder == Nobody && s.tasks.cleanup.Some? then CleanupTakesLock(s) else s
    case ShutdownRequested => s.(tasks := s.tasks.(shutdown := true))
    case ShutdownLock => if s.holder == Nobody && s.tasks.shutdown then ShutdownTakesLock(s) else s
  }

  function LoopStep(s: State, e: LoopEvent): State
  {
    match e
    case LinkLost(c) => s.(radio := s.radio.(connected := s.radio.connected - {c}))
    case DisconnectCallback(c) => HandleDisconnect(s, c)
    case SessionError(session) => HandleSessionError(s, session)
    case CountersExhausted(session) => s.(radio := s.radio.(exhausted := s.radio.exhausted + {session}))
    case Push(session, plaintext) => HandleNotification(s, session, plaintext)
    case RunPublish(session) => if session in s.cache.queue then PublishNotificationUpdate(s, session) else s
  }

  function Apply(s: State, e: Event): State
  {
    match e
    case Setup(x) => SetupStep(s, x)
    case Work(x) => WorkStep(s, x)
    case Task(x) => TaskStep(s, x)
    case Loop(x) => LoopStep(s, x)
  }

  function Run(s: State, events: seq<Event>): State
    decreases |events|
  {
    if events == [] then s else Apply(Run(s, events[..|events| - 1]), events[|events| - 1])
  }
}
