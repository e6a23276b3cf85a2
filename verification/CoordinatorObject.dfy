/**
 * The coordinator as the object it is: its methods update its fields between two awaits, and each does
 * to the fields exactly what the step function of the machine says. `Happen` is the way in from outside;
 * it records the event, and `Valid` says that the fields are those of the recorded run. What the machine
 * promises over runs is then promised of the fields.
 */
module CoordinatorObject {
  import opened Bytes
  import opened Properties
  import opened CoordinatorModel
  import History = CoordinatorHistory
  import Invariants = CoordinatorInvariants
  import Theorems = CoordinatorTheorems

  lemma KeptNext(items: seq<PropertyValue>, i: nat)
    requires i < |items|
    ensures Kept(items[..i + 1]) == if items[i].status == 0 then Kept(items[..i]) + [items[i]] else Kept(items[..i])
  {
    assert items[..i + 1][..i] == items[..i];
  }

  lemma OverlayNext(props: Props, entries: seq<PropertyValue>, item: PropertyValue)
    ensures Overlay(props, entries + [item]) == Overlay(props, entries)[item.Key() := item]
    ensures Changes(props, entries + [item])
      == (|| Changes(props, entries)
          || item.Key() !in Overlay(props, entries)
          || Overlay(props, entries)[item.Key()] != item)
  {
    assert (entries + [item])[..|entries|] == entries;
  }

  lemma DisconnectIs(s: State, t: State, left: seq<Resource>, job: Job, after: After)
    requires left == Attached(s.link)
    requires t == s.(link := Detached(s.link), cache := Cache(map[], map[], None, false, s.cache.queue),
                     ledger := s.ledger.(handed := s.ledger.handed + multiset(left)))
    ensures Disconnect(s, job, after)
      == if left == [] then CoordinatorModel.Continue(t, job, after) else t.(holder := Releasing(job, left, after))
  {
  }

  lemma PushStep(s: State, sender: Id, plaintext: bytes)
    requires s.link.session == Some(sender) && ParseNotification(plaintext).Ok?
    ensures var entries := Kept(ParseNotification(plaintext).value);
            LoopStep(s, Push(sender, plaintext))
            == s.(cache := Merge(s.cache, sender, entries), past := Logged(s.past, [Pushed(entries)]))
  {
  }

  class Coordinator {
    // the fields of the integration's coordinator
    var client: Option<Id>
    var auth: Option<Id>
    var session: Option<Id>
    var connectingClient: Option<Id>
    var connectionGeneration: nat
    var propertyValues: Props
    var pendingNotificationValues: Props
    var baselineSession: Option<Id>
    var notificationPublishPending: bool
    var idleTask: Option<Id>
    var disconnectTask: Option<Id>
    var shutdownRequested: bool
    const positiveLease: bool

    // the event loop and the radio around it
    var holder: Holder
    var callSoon: multiset<Id>
    var timers: map<Id, Timer>
    var connected: set<Id>
    var exhausted: set<Id>
    var nextId: Id

    // history
    ghost var past: Past
    ghost var ledger: Ledger
    ghost var released: bool
    ghost var trace: seq<Event>

    ghost function LinkNow(): Link
      reads this`client, this`auth, this`session, this`connectingClient, this`connectionGeneration
    {
      Link(client, auth, session, connectingClient, connectionGeneration)
    }

    ghost function CacheNow(): Cache
      reads this`propertyValues, this`pendingNotificationValues, this`baselineSession,
            this`notificationPublishPending, this`callSoon
    {
      Cache(propertyValues, pendingNotificationValues, baselineSession, notificationPublishPending, callSoon)
    }

    ghost function TasksNow(): Tasks
      reads this`idleTask, this`timers, this`disconnectTask, this`shutdownRequested, this`released
    {
      Tasks(idleTask, timers, disconnectTask, shutdownRequested, released)
    }

    ghost function Machine(): State
      reads this
    {
      State(LinkNow(), CacheNow(), TasksNow(), Radio(connected, exhausted), holder, past, ledger, nextId, positiveLease)
    }

    // The fields are what the events so far made of them.
    ghost predicate Valid()
      reads this
    {
      Machine() == Run(Initial(positiveLease), trace)
    }

    constructor (positiveLease: bool)
      ensures this.positiveLease == positiveLease
      ensures Valid() && trace == [] && Machine() == Initial(positiveLease)
    {
      client, auth, session, connectingClient := None, None, None, None;
      connectionGeneration := 0;
      propertyValues, pendingNotificationValues := map[], map[];
      baselineSession, notificationPublishPending := None, false;
      idleTask, disconnectTask, shutdownRequested := None, None, false;
      this.positiveLease := positiveLease;
      holder, callSoon, timers, connected, exhausted, nextId := Nobody, multiset{}, map[], {}, {}, 0;
      past := Past([], 0, 0, 0);
      ledger := Ledger(multiset{}, multiset{}, multiset{}, multiset{}, {});
      released := false;
      trace := [];
    }

    ghost method Log(entries: seq<Entry>)
      modifies this`past
      ensures past == Logged(old(past), entries)
    {
      past := Logged(past, entries);
    }

    ghost method NoteCreated(kind: Kind, id: Id)
      modifies this`ledger
      ensures ledger == Create(old(ledger), kind, id)
    {
      ledger := Create(ledger, kind, id);
    }

    ghost method NoteAbandoned(left: seq<Resource>)
      modifies this`ledger
      ensures ledger == old(ledger).(abandoned := old(ledger).abandoned + multiset(left))
    {
      ledger := ledger.(abandoned := ledger.abandoned + multiset(left));
    }

    // ------------------------------------------------------------- callbacks

    method FailAndCleanUp(c: Id)
      modifies this`connectionGeneration, this`baselineSession, this`notificationPublishPending, this`past,
          this`disconnectTask
      ensures Machine() == Invalidate(old(Machine()), c)
    {
      connectionGeneration := connectionGeneration + 1;
      baselineSession := None;
      notificationPublishPending := false;
      Log([Invalidated, Bad]);
      if disconnectTask.Some? {
        return;
      }
      disconnectTask := Some(c);
    }

    method HandleDisconnect(c: Id)
      modifies this
      ensures Machine() == LoopStep(old(Machine()), DisconnectCallback(c))
    {
      if connectingClient == Some(c) {
        connectionGeneration := connectionGeneration + 1;
        ledger := ledger.(dropped := ledger.dropped + {c});
        return;
      }
      if client != Some(c) {
        return;
      }
      FailAndCleanUp(c);
    }

    method HandleSessionError(failed: Id)
      modifies this
      ensures Machine() == LoopStep(old(Machine()), SessionError(failed))
    {
      if session != Some(failed) {
        return;
      }
      if client.None? {
        return;
      }
      FailAndCleanUp(client.value);
    }

    // The loop of `_handle_notification`.
    method MergeItems(items: seq<PropertyValue>) returns (changed: bool)
      modifies this`propertyValues, this`pendingNotificationValues
      ensures propertyValues == Overlay(old(propertyValues), Kept(items))
      ensures pendingNotificationValues == Overlay(old(pendingNotificationValues), Kept(items))
      ensures changed == Changes(old(propertyValues), Kept(items))
    {
      changed := false;
      for i := 0 to |items|
        invariant pendingNotificationValues == Overlay(old(pendingNotificationValues), Kept(items[..i]))
        invariant propertyValues == Overlay(old(propertyValues), Kept(items[..i]))
        invariant changed == Changes(old(propertyValues), Kept(items[..i]))
      {
        var item := items[i];
        KeptNext(items, i);
        if item.status == 0 {
          OverlayNext(old(pendingNotificationValues), Kept(items[..i]), item);
          OverlayNext(old(propertyValues), Kept(items[..i]), item);
          pendingNotificationValues := pendingNotificationValues[item.Key() := item];
          if item.Key() !in propertyValues || propertyValues[item.Key()] != item {
            propertyValues := propertyValues[item.Key() := item];
            changed := true;
          } else {
            assert propertyValues == propertyValues[item.Key() := item];
          }
        }
      }
      assert items[..|items|] == items;
    }

    // Everything `_handle_notification` does to the cache once the event is decoded.
    method MergeAndQueue(sender: Id, items: seq<PropertyValue>)
      modifies this`propertyValues, this`pendingNotificationValues, this`notificationPublishPending, this`callSoon
      ensures CacheNow() == Merge(old(CacheNow()), sender, Kept(items))
    {
      var changed := MergeItems(items);
      if !changed || baselineSession != Some(sender) || notificationPublishPending {
        return;
      }
      notificationPublishPending := true;
      callSoon := callSoon + multiset{sender};
    }

    method HandleNotification(sender: Id, plaintext: bytes)
      modifies this`propertyValues, this`pendingNotificationValues, this`notificationPublishPending, this`callSoon,
          this`past
      ensures Machine() == LoopStep(old(Machine()), Push(sender, plaintext))
    {
      if session != Some(sender) {
        return;
      }
      var parsed := ParseNotification(plaintext);
      if parsed.Err? {
        return;
      }
      PushStep(Machine(), sender, plaintext);
      MergeAndQueue(sender, parsed.value);
      Log([Pushed(Kept(parsed.value))]);
    }

    method PublishNotificationUpdate(queued: Id)
      requires queued in callSoon
      modifies this
      ensures Machine() == LoopStep(old(Machine()), RunPublish(queued))
    {
      callSoon := callSoon - multiset{queued};
      notificationPublishPending := false;
      if session != Some(queued) || baselineSession != Some(queued) {
        return;
      }
      Log([Good(propertyValues, past.basisAt, past.completedAt)]);
    }

    // ------------------------------------------------------------ idle lease

    method CancelTimer(t: Id)
      requires t in timers
      modifies this`timers
      ensures timers == Cancel(old(timers), Some(t))
    {
      if timers[t].phase !in {Done, Cancelled} {
        timers := timers[t := timers[t].(phase := Cancelled)];
      }
    }

    method ArmIdleRelease(c: Id)
      modifies this
      ensures Machine() == CoordinatorModel.ArmIdleRelease(old(Machine()), c)
    {
      if idleTask.Some? && idleTask.value in timers {
        CancelTimer(idleTask.value);
      }
      idleTask := None;
      if !positiveLease {
        return;
      }
      timers := timers[nextId := Timer(c, Sleeping)];
      idleTask := Some(nextId);
      nextId := nextId + 1;
    }

    method EndTimer(t: Id)
      requires t in timers
      modifies this`timers, this`idleTask
      ensures timers == old(timers)[t := old(timers)[t].(phase := Done)]
      ensures idleTask == if old(idleTask) == Some(t) then None else old(idleTask)
    {
      timers := timers[t := timers[t].(phase := Done)];
      if idleTask == Some(t) {
        idleTask := None;
      }
    }

    method IdleReleaseAfter(t: Id)
      requires holder == Nobody && t in timers && timers[t].phase == Waiting
      modifies this
      ensures Machine() == TaskStep(old(Machine()), TimerLock(t))
    {
      if client == Some(timers[t].client) {
        timers := timers[t := timers[t].(phase := Inside)];
        Disconnect(Idle(t), Finish);
      } else {
        EndTimer(t);
      }
    }

    // ----------------------------------------------------------- lock holder

    method EndJob(job: Job, ghost completed: bool)
      modifies this`timers, this`idleTask, this`disconnectTask, this`released
      ensures TasksNow() == JobEnds(old(TasksNow()), job, completed)
    {
      match job
      case Idle(t) =>
        if t in timers {
          EndTimer(t);
        }
      case Cleanup => disconnectTask := None;
      case Shutdown => released := released || completed;
      case _ =>
    }

    method Continue(job: Job, after: After)
      modifies this
      ensures Machine() == CoordinatorModel.Continue(old(Machine()), job, after)
    {
      match after
      case Dial =>
        holder := Dialing(job, connectionGeneration);
      case Raise =>
        holder := Nobody;
        if job == Poll {
          Log([Bad]);
        }
      case Finish =>
        holder := Nobody;
        EndJob(job, true);
    }

    method Detach() returns (left: seq<Resource>)
      modifies this`client, this`auth, this`session, this`connectionGeneration, this`propertyValues,
               this`pendingNotificationValues, this`baselineSession, this`notificationPublishPending, this`ledger
      ensures left == Attached(old(LinkNow()))
      ensures LinkNow() == Detached(old(LinkNow()))
      ensures CacheNow() == Cache(map[], map[], None, false, callSoon)
      ensures ledger == old(ledger).(handed := old(ledger).handed + multiset(left))
    {
      left := One(SessionObject, session) + One(AuthObject, auth) + One(ClientObject, client);
      if left != [] {
        connectionGeneration := connectionGeneration + 1;
      }
      session, auth, client := None, None, None;
      propertyValues, pendingNotificationValues := map[], map[];
      baselineSession, notificationPublishPending := None, false;
      ledger := ledger.(handed := ledger.handed + multiset(left));
    }

    // `_disconnect` up to its first await; with nothing attached there is none.
    method Disconnect(job: Job, after: After)
      modifies this
      ensures Machine() == CoordinatorModel.Disconnect(old(Machine()), job, after)
    {
      ghost var s := Machine();
      var left := Detach();
      DisconnectIs(s, Machine(), left, job, after);
      if left == [] {
        Continue(job, after);
      } else {
        holder := Releasing(job, left, after);
      }
    }

    method StartRequest(job: Job, s: Id, c: Id)
      modifies this
      ensures Machine() == CoordinatorModel.StartRequest(old(Machine()), job, s, c)
    {
      if job == Poll {
        pendingNotificationValues := map[];
        past := Logged(past, [Began]).(beganAt := |past.log|);
      }
      holder := Requesting(job, s, c, connectionGeneration);
    }

    method EnsureConnected(job: Job)
      requires holder == Nobody && job in {Poll, Write}
      modifies this
      ensures Machine() == WorkStep(old(Machine()), TakeLock(job))
    {
      if shutdownRequested {
        Disconnect(job, Raise);
        return;
      }
      if session.Some? && client.Some? && client.value in connected && session.value !in exhausted {
        StartRequest(job, session.value, client.value);
        return;
      }
      Disconnect(job, Dial);
    }

    method FinishDialing(up: bool)
      requires holder.Dialing?
      modifies this`connectingClient, this`connected, this`ledger, this`holder, this`nextId
      ensures Machine() == SetupStep(old(Machine()), DialDone(up))
    {
      var c := nextId;
      connectingClient := Some(c);
      connected := if up then connected + {c} else connected;
      NoteCreated(ClientObject, c);
      holder := SettingUp(holder.job, Bare, c, holder.setupGeneration);
      nextId := c + 1;
    }

    method AbandonSetup(cancelled: bool)
      requires holder.SettingUp?
      modifies this
      ensures Machine() == SetupStep(old(Machine()), Fails(cancelled))
    {
      var left := Built(holder.stage, holder.connection);
      if connectingClient == Some(holder.connection) {
        connectingClient := None;
      }
      ledger := ledger.(handed := ledger.handed + multiset(left));
      holder := Abandoning(holder.job, left, true, cancelled);
    }

    method TakeOver(c: Id)
      modifies this`client, this`auth, this`session, this`connectingClient, this`connectionGeneration
      ensures LinkNow() == Link(Some(c), Some(c), Some(c), None, old(connectionGeneration) + 1)
    {
      connectingClient := None;
      connectionGeneration := connectionGeneration + 1;
      client, auth, session := Some(c), Some(c), Some(c);
    }

    method Install()
      requires holder.SettingUp?
      modifies this
      ensures Machine() == CoordinatorModel.Install(old(Machine()))
    {
      var job, c := holder.job, holder.connection;
      TakeOver(c);
      ArmIdleRelease(c);
      StartRequest(job, c, c);
    }

    method FinishSetup()
      requires holder.SettingUp? && holder.stage == WithSession
      modifies this
      ensures Machine() == SetupStep(old(Machine()), Ready)
    {
      if shutdownRequested || holder.setupGeneration != connectionGeneration || holder.connection !in connected {
        AbandonSetup(false);
        return;
      }
      Install();
    }

    method ReleaseNext()
      requires (holder.Abandoning? || holder.Releasing?) && holder.left != []
      modifies this
      ensures Machine() == WorkStep(old(Machine()), CleanNext)
    {
      var rest := holder.left[1..];
      ledger := ledger.(attempted := ledger.attempted + multiset{holder.left[0]});
      if rest != [] {
        holder := holder.(left := rest);
        return;
      }
      match holder
      case Abandoning(job, _, _, cancelled) =>
        if cancelled {
          holder := Nobody;
        } else {
          Disconnect(job, Raise);
        }
      case Releasing(job, _, after) => Continue(job, after);
    }

    predicate StillCurrent()
      requires holder.Requesting?
      reads this
    {
      && connectionGeneration == holder.generation
      && session == Some(holder.session) && client == Some(holder.client) && holder.client in connected
    }

    method FinishPoll(plaintext: bytes)
      requires holder.Requesting? && holder.job == Poll
      modifies this
      ensures Machine() == WorkStep(old(Machine()), PollAnswered(plaintext))
    {
      var parsed := ParseResponse(plaintext);
      if parsed.Err? || !StillCurrent() {
        Disconnect(Poll, Raise);
        return;
      }
      var response := Overlay(map[], parsed.value);
      propertyValues := response + pendingNotificationValues;
      pendingNotificationValues := map[];
      baselineSession := Some(holder.session);
      holder := Nobody;
      ghost var began, now := past.beganAt, |past.log|;
      past := Past(past.log + [Completed(response), Good(propertyValues, began, now)], began, began, now);
    }

    method FinishWrite()
      requires holder.Requesting? && holder.job == Write
      modifies this
      ensures Machine() == WorkStep(old(Machine()), WriteAccepted)
    {
      if !StillCurrent() {
        Disconnect(Write, Raise);
        return;
      }
      var c := holder.client;
      holder := Nobody;
      ArmIdleRelease(c);
    }

    // `_cleanup_disconnected_client` with the lock.
    method CleanUpDisconnectedClient()
      requires holder == Nobody && disconnectTask.Some?
      modifies this
      ensures Machine() == TaskStep(old(Machine()), CleanupLock)
    {
      if client == disconnectTask {
        Disconnect(Cleanup, Finish);
      } else {
        disconnectTask := None;
      }
    }

    // `async_shutdown` with the lock.
    method ShutDown()
      requires holder == Nobody && shutdownRequested
      modifies this
      ensures Machine() == TaskStep(old(Machine()), ShutdownLock)
    {
      ghost var s := Machine();
      if idleTask.Some? && idleTask.value in timers {
        CancelTimer(idleTask.value);
      }
      idleTask := None;
      assert Machine() == s.(tasks := s.tasks.(timers := Cancel(s.tasks.timers, s.tasks.idle), idle := None));
      Disconnect(Shutdown, Finish);
    }

    // ------------------------------------------- what the scheduler may do to it

    // The clean-up of a failed setup absorbs the first cancellation.
    method CancelAbandoning()
      requires holder.Abandoning?
      modifies this`holder, this`ledger
      ensures Machine() == WorkStep(old(Machine()), CleanCancelled)
    {
      if holder.shielded {
        holder := holder.(shielded := false);
        return;
      }
      NoteAbandoned(holder.left);
      holder := Nobody;
    }

    method CancelReleasing()
      requires holder.Releasing?
      modifies this`holder, this`ledger, this`timers, this`idleTask, this`disconnectTask, this`released
      ensures Machine() == WorkStep(old(Machine()), CleanCancelled)
    {
      NoteAbandoned(holder.left);
      EndJob(holder.job, false);
      holder := Nobody;
    }

    method OnSetup(e: SetupEvent)
      modifies this
      ensures Machine() == SetupStep(old(Machine()), e)
    {
      match e
      case DialFails(cancelled) =>
        if holder.Dialing? {
          if cancelled { holder := Nobody; } else { Disconnect(holder.job, Raise); }
        }
      case DialDone(up) => if holder.Dialing? { FinishDialing(up); }
      case Advance => if holder.SettingUp? { BuildNext(); }
      case Fails(cancelled) => if holder.SettingUp? { AbandonSetup(cancelled); }
      case Ready => if holder.SettingUp? && holder.stage == WithSession { FinishSetup(); }
    }

    method BuildNext()
      requires holder.SettingUp?
      modifies this
      ensures Machine() == NextStage(old(Machine()))
    {
      match holder.stage
      case Bare =>
        NoteCreated(AuthObject, holder.connection);
        holder := holder.(stage := WithAuth);
      case WithAuth =>
        NoteCreated(SessionObject, holder.connection);
        holder := holder.(stage := WithSession);
      case WithSession =>
    }

    method OnWork(e: WorkEvent)
      modifies this
      ensures Machine() == WorkStep(old(Machine()), e)
    {
      match e
      case TakeLock(job) => if holder == Nobody && job in {Poll, Write} { EnsureConnected(job); }
      case PollAnswered(plaintext) => if holder.Requesting? && holder.job == Poll { FinishPoll(plaintext); }
      case WriteAccepted => if holder.Requesting? && holder.job == Write { FinishWrite(); }
      case RequestFails => if holder.Requesting? { Disconnect(holder.job, Raise); }
      case RequestCancelled => if holder.Requesting? { holder := Nobody; }
      case CleanNext => if (holder.Abandoning? || holder.Releasing?) && holder.left != [] { ReleaseNext(); }
      case CleanCancelled =>
        if holder.Abandoning? {
          CancelAbandoning();
        } else if holder.Releasing? {
          CancelReleasing();
        }
    }

    method OnTask(e: TaskEvent)
      modifies this
      ensures Machine() == TaskStep(old(Machine()), e)
    {
      match e
      case TimerFires(t) =>
        if t in timers && timers[t].phase == Sleeping {
          timers := timers[t := timers[t].(phase := Waiting)];
        }
      case TimerLock(t) => if holder == Nobody && t in timers && timers[t].phase == Waiting { IdleReleaseAfter(t); }
      case TimerStops(t) => if t in timers && timers[t].phase == Cancelled { EndTimer(t); }
      case CleanupLock => if holder == Nobody && disconnectTask.Some? { CleanUpDisconnectedClient(); }
      case ShutdownRequested => shutdownRequested := true;
      case ShutdownLock => if holder == Nobody && shutdownRequested { ShutDown(); }
    }

    method OnLoop(e: LoopEvent)
      modifies this
      ensures Machine() == LoopStep(old(Machine()), e)
    {
      match e
      case LinkLost(c) => connected := connected - {c};
      case DisconnectCallback(c) => HandleDisconnect(c);
      case SessionError(failed) => HandleSessionError(failed);
      case CountersExhausted(s) => exhausted := exhausted + {s};
      case Push(sender, plaintext) => HandleNotification(sender, plaintext);
      case RunPublish(queued) => if queued in callSoon { PublishNotificationUpdate(queued); }
    }

    // Whatever happens next, the object does what the machine does.
    method Dispatch(e: Event)
      modifies this
      ensures Machine() == Apply(old(Machine()), e)
    {
      match e
      case Setup(x) => OnSetup(x);
      case Work(x) => OnWork(x);
      case Task(x) => OnTask(x);
      case Loop(x) => OnLoop(x);
    }

    method Happen(e: Event)
      requires Valid()
      modifies this
      ensures Valid() && trace == old(trace) + [e]
      ensures Machine() == Apply(old(Machine()), e)
    {
      ghost var before := trace;
      Dispatch(e);
      trace := before + [e];
      Theorems.RunMore(Initial(positiveLease), before, e);
    }

    // Any run at all, on the object.
    method Live(events: seq<Event>)
      requires Valid()
      modifies this
      ensures Valid() && trace == old(trace) + events
    {
      ghost var before := trace;
      for i := 0 to |events|
        invariant Valid()
        invariant trace == before + events[..i]
      {
        OneMore(before, events, i);
        Happen(events[i]);
      }
      assert events[..|events|] == events;
    }

    static lemma OneMore(before: seq<Event>, events: seq<Event>, i: nat)
      requires i < |events|
      ensures (before + events[..i]) + [events[i]] == before + events[..i + 1]
    {
      assert events[..i + 1] == events[..i] + [events[i]];
    }

    // --------------------------------------------- what holds of the fields

    // The property map is the last completed poll overlaid with every push handled since it began.
    lemma PropertyValuesAreReplay()
      requires Valid()
      ensures baselineSession.Some? ==> baselineSession == session
      ensures session.None? ==> propertyValues == map[] && pendingNotificationValues == map[]
      ensures baselineSession.Some? ==>
                exists b, k :: History.LastPoll(past.log, b, k) && propertyValues == History.Replay(past.log, b, k)
    {
      Theorems.CacheEqualsReplay(positiveLease, trace);
    }

    // What entities see is the property map, or a publish for the current session is on its way.
    lemma NoUpdateIsLost()
      requires Valid()
      ensures baselineSession.Some? ==>
                History.LastShown(past.log) == History.Data(propertyValues) || baselineSession.value in callSoon
      ensures notificationPublishPending ==>
                session.Some? && baselineSession == session && session.value in callSoon
    {
      Theorems.NoLostUpdate(positiveLease, trace);
    }

    // The three fields belong together, and every client, auth object and session ever created is being set
    // up, installed in its field, or was handed to clean-up.
    lemma EveryResourceHasOnePlace(r: Resource)
      requires Valid()
      ensures auth == client && session == client
      ensures var installed :=
                match r.kind case ClientObject => client case AuthObject => auth case SessionObject => session;
              ledger.created[r] <= 1
              && ledger.created[r] == Invariants.Times(Invariants.InSetup(holder, r))
                                      + Invariants.Times(installed == Some(r.id)) + ledger.handed[r]
      ensures forall c <- ledger.dropped :: client != Some(c)
    {
      Theorems.ConnectionConservation(positiveLease, trace, r);
    }

    // The registered timer is the installed client's own.
    lemma IdleTaskBelongsToClient()
      requires Valid() && positiveLease && client.Some?
      ensures idleTask.Some? && idleTask.value in timers
      ensures timers[idleTask.value].client == client.value && timers[idleTask.value].phase in {Sleeping, Waiting}
    {
      Theorems.LeaseBelongsToConnection(positiveLease, trace);
    }

    // After a loss nothing is shown as good until a whole poll began and completed.
    lemma GoodOnlyAfterWholePoll(i: nat, j: nat)
      requires Valid() && i < j < |past.log| && past.log[i].Invalidated? && past.log[j].Good?
      ensures exists b, k :: i < b < k < j && past.log[b].Began? && past.log[k].Completed?
    {
      Theorems.NoStaleSuccess(positiveLease, trace, i, j);
    }
  }
}
