/** How a connection comes up, when it is reused, and what every way of failing leaves behind. */
module CoordinatorConnects {
  import opened Bytes
  import opened Properties
  import opened CoordinatorModel
  import opened CoordinatorInvariants
  import opened CoordinatorHistory
  import opened CoordinatorLease
  import opened CoordinatorTheorems
  import opened CoordinatorEffects

  // ------------------------------------------------------------ taking the lock

  function BadFor(job: Job): seq<Entry>
  {
    if job == Poll then [Bad] else []
  }

  function BeganFor(job: Job): seq<Entry>
  {
    if job == Poll then [Began] else []
  }

  // After shutdown was requested nobody connects: what is installed is released, and the caller fails.
  lemma RefusedInShutdown(s: State, job: Job)
    requires Shape(s) && s.holder == Nobody && job in {Poll, Write} && s.tasks.shutdown
    ensures var t := Apply(s, Work(TakeLock(job)));
            && Empty(t) && t.tasks == s.tasks && t.ledger.created == s.ledger.created
            && if s.link.client.Some?
               then t.holder == Releasing(job, ThreeOf(s.link.client.value), Raise) && t.past == s.past
               else t.holder == Nobody && t.past.log == s.past.log + BadFor(job)
  {
    if s.link.client.Some? {
      DetachesAll(s, job, Raise);
    }
  }

  // A connection is kept if and only if its client is connected and its session can still send. The request
  // then goes out on it, nothing is released, and no timer changes; a poll forgets the pushes of earlier polls.
  // Otherwise what is installed is released before the next attempt, or the attempt starts at once.
  lemma ReusedIff(s: State, job: Job)
    requires Shape(s) && s.holder == Nobody && job in {Poll, Write} && !s.tasks.shutdown
    ensures var t := Apply(s, Work(TakeLock(job)));
            && t.tasks == s.tasks && t.ledger.created == s.ledger.created && t.radio == s.radio
            && if s.link.client.None? then
                 Empty(t) && t.holder == Dialing(job, s.link.generation) && t.ledger == s.ledger && t.past == s.past
               else
                 var c := s.link.client.value;
                 if c in s.radio.connected && c !in s.radio.exhausted then
                   && t.holder == Requesting(job, c, c, s.link.generation) && t.link == s.link && t.ledger == s.ledger
                   && t.past.log == s.past.log + BeganFor(job) && (job == Poll ==> PollBegan(t.past.log, |s.past.log|))
                   && t.cache == (if job == Poll then s.cache.(pending := map[]) else s.cache)
                 else Empty(t) && t.holder == Releasing(job, ThreeOf(c), Dial) && t.past == s.past
  {
    if s.link.client.Some? {
      DetachesAll(s, job, Dial);
    }
  }

  // Releasing the old connection leads to a new attempt that knows the generation it starts from.
  lemma ReplacedAfterRelease(s: State, job: Job)
    requires Shape(s) && s.holder == Nobody && job in {Poll, Write} && !s.tasks.shutdown && s.link.client.Some?
    requires s.link.client.value !in s.radio.connected || s.link.client.value in s.radio.exhausted
    ensures var c := s.link.client.value;
            var t := Run(Apply(s, Work(TakeLock(job))), CleanNexts(3));
            && Empty(t) && t.holder == Dialing(job, t.link.generation) && t.past == s.past && t.tasks == s.tasks
            && t.ledger.attempted == s.ledger.attempted + multiset(ThreeOf(c))
  {
    DetachesAll(s, job, Dial);
    ReleaseRunsToItsEnd(Apply(s, Work(TakeLock(job))));
  }

  // ------------------------------------------------------------------ setting up

  // What has been built for a connection, in the order in which it is released.
  function BuiltSoFar(stage: Stage, c: Id): seq<Resource>
  {
    match stage
    case Bare => [Resource(ClientObject, c)]
    case WithAuth => [Resource(AuthObject, c), Resource(ClientObject, c)]
    case WithSession => ThreeOf(c)
  }

  lemma DialedBuildsAClient(s: State, up: bool)
    requires s.holder.Dialing?
    ensures var t := Apply(s, Setup(DialDone(up)));
            && t.holder == SettingUp(s.holder.job, Bare, s.nextId, s.holder.setupGeneration)
            && t.link == s.link.(connecting := Some(s.nextId)) && t.nextId == s.nextId + 1
            && t.radio.connected == s.radio.connected + (if up then {s.nextId} else {})
            && t.radio.exhausted == s.radio.exhausted
            && t.ledger == s.ledger.(created := s.ledger.created + multiset{Resource(ClientObject, s.nextId)})
            && t.cache == s.cache && t.tasks == s.tasks && t.past == s.past && t.lease == s.lease
  {
  }

  lemma TwoMoreAreBuilt(s: State)
    requires s.holder.SettingUp? && s.holder.stage == Bare
    ensures var c := s.holder.connection;
            var t := Apply(Apply(s, Setup(Advance)), Setup(Advance));
            && t.holder == s.holder.(stage := WithSession)
            && t.ledger == s.ledger.(created := s.ledger.created
                                                + multiset{Resource(AuthObject, c), Resource(SessionObject, c)})
            && t.link == s.link && t.cache == s.cache && t.tasks == s.tasks && t.past == s.past && t.radio == s.radio
            && t.nextId == s.nextId && t.lease == s.lease
  {
    var c, created := s.holder.connection, s.ledger.created;
    assert created + multiset{Resource(AuthObject, c)} + multiset{Resource(SessionObject, c)}
           == created + multiset{Resource(AuthObject, c), Resource(SessionObject, c)};
  }

  // The request goes out on the new connection, and with a positive lease a new timer of its own sleeps.
  ghost predicate InstalledAs(s: State, t: State, job: Job, c: Id)
  {
    && t.link == Link(Some(c), Some(c), Some(c), None, s.link.generation + 1)
    && t.holder == Requesting(job, c, c, s.link.generation + 1) && SleepsFor(t, c)
    && t.past.log == s.past.log + BeganFor(job) && (job == Poll ==> PollBegan(t.past.log, |s.past.log|))
    && t.cache == (if job == Poll then s.cache.(pending := map[]) else s.cache)
    && t.ledger == s.ledger && t.radio == s.radio
    && t.tasks.cleanup == s.tasks.cleanup && t.tasks.shutdown == s.tasks.shutdown && t.lease == s.lease
  }

  lemma Installed(s: State)
    requires s.holder.SettingUp? && s.holder.stage == WithSession
    requires !s.tasks.shutdown && s.holder.setupGeneration == s.link.generation
    requires s.holder.connection in s.radio.connected
    ensures InstalledAs(s, Apply(s, Setup(Ready)), s.holder.job, s.holder.connection)
  {
  }

  lemma NotInstalled(s: State)
    requires Shape(s) && s.holder.SettingUp? && s.holder.stage == WithSession
    requires s.tasks.shutdown || s.holder.setupGeneration != s.link.generation
             || s.holder.connection !in s.radio.connected
    ensures var c := s.holder.connection;
            Apply(s, Setup(Ready))
            == s.(link := s.link.(connecting := None), holder := Abandoning(s.holder.job, ThreeOf(c), true, false),
                  ledger := s.ledger.(handed := s.ledger.handed + multiset(ThreeOf(c))))
  {
    var c := s.holder.connection;
    assert Built(WithSession, c) == ThreeOf(c);
    assert Apply(s, Setup(Ready)) == AbandonSetup(s, false);
  }

  // A finished setup is installed if and only if no shutdown was requested, no loss was noticed since it began,
  // and its client is connected. Otherwise all it built is handed over to be released and nothing is installed.
  lemma InstalledIff(s: State)
    requires Shape(s) && s.holder.SettingUp? && s.holder.stage == WithSession
    ensures var c := s.holder.connection;
            var t := Apply(s, Setup(Ready));
            if !s.tasks.shutdown && s.holder.setupGeneration == s.link.generation && c in s.radio.connected
            then InstalledAs(s, t, s.holder.job, c)
            else t == s.(link := s.link.(connecting := None),
                         holder := Abandoning(s.holder.job, ThreeOf(c), true, false),
                         ledger := s.ledger.(handed := s.ledger.handed + multiset(ThreeOf(c))))
  {
    if !s.tasks.shutdown && s.holder.setupGeneration == s.link.generation
       && s.holder.connection in s.radio.connected {
      Installed(s);
    } else {
      NotInstalled(s);
    }
  }

  // With a positive lease the registered timer is new and sleeps for the client; without one there is none.
  predicate SleepsFor(s: State, c: Id)
  {
    if s.lease then
      s.tasks.idle.Some? && s.tasks.idle.value in s.tasks.timers
      && s.tasks.timers[s.tasks.idle.value] == Timer(c, Sleeping)
    else s.tasks.idle.None?
  }

  // An undisturbed attempt: the four steps install one connection of three new resources and send the request.
  lemma ConnectsUndisturbed(s: State)
    requires Shape(s) && s.holder.Dialing? && !s.tasks.shutdown && s.holder.setupGeneration == s.link.generation
    ensures var c := s.nextId;
            var t := Run(s, [Setup(DialDone(true)), Setup(Advance), Setup(Advance), Setup(Ready)]);
            && t.link == Link(Some(c), Some(c), Some(c), None, s.link.generation + 1) && c in t.radio.connected
            && t.holder == Requesting(s.holder.job, c, c, s.link.generation + 1) && SleepsFor(t, c)
            && t.past.log == s.past.log + BeganFor(s.holder.job)
            && (s.holder.job == Poll ==> PollBegan(t.past.log, |s.past.log|))
            && t.ledger.created == s.ledger.created + multiset{Resource(ClientObject, c)}
                                   + multiset{Resource(AuthObject, c), Resource(SessionObject, c)}
            && t.ledger.handed == s.ledger.handed && !t.tasks.shutdown && t.lease == s.lease
  {
    var dialed := Apply(s, Setup(DialDone(true)));
    DialedBuildsAClient(s, true);
    TwoMoreAreBuilt(dialed);
    var built := Apply(Apply(dialed, Setup(Advance)), Setup(Advance));
    ShapeKept(s, Setup(DialDone(true)));
    ShapeKept(dialed, Setup(Advance));
    ShapeKept(Apply(dialed, Setup(Advance)), Setup(Advance));
    InstalledIff(built);
    var all := RunFour(s, [], Setup(DialDone(true)), Setup(Advance), Setup(Advance), Setup(Ready));
    assert all == [Setup(DialDone(true)), Setup(Advance), Setup(Advance), Setup(Ready)];
  }

  lemma AskedForTheFirstTime(s: State, job: Job)
    requires Shape(s) && s.holder == Nobody && s.link.client.None? && !s.tasks.shutdown && job in {Poll, Write}
    ensures var c := s.nextId;
            var t := Run(s, UndisturbedConnect(job));
            && t.link == Link(Some(c), Some(c), Some(c), None, s.link.generation + 1) && c in t.radio.connected
            && t.holder == Requesting(job, c, c, s.link.generation + 1) && SleepsFor(t, c)
            && t.past.log == s.past.log + BeganFor(job) && (job == Poll ==> PollBegan(t.past.log, |s.past.log|))
            && t.lease == s.lease
  {
    ReusedIff(s, job);
    OneEvent(s, Work(TakeLock(job)));
    ShapeKept(s, Work(TakeLock(job)));
    ConnectsUndisturbed(Apply(s, Work(TakeLock(job))));
    RunSplit(s, [Work(TakeLock(job))], [Setup(DialDone(true)), Setup(Advance), Setup(Advance), Setup(Ready)]);
  }

  ghost predicate AskedFirst(s: State, c: Id, before: seq<Entry>)
  {
    && s.link.client == s.link.session == Some(c) && c in s.radio.connected
    && s.holder == Requesting(Poll, c, c, s.link.generation) && s.past.log == before + [Began]
  }

  // Nothing was pushed since the request went out.
  lemma FirstAnswer(lease: bool, events: seq<Event>, plaintext: bytes, c: Id, before: seq<Entry>)
    requires AskedFirst(Run(Initial(lease), events), c, before) && ParseResponse(plaintext).Ok?
    ensures var s := Run(Initial(lease), events);
            var t := Apply(s, Work(PollAnswered(plaintext)));
            && PollCounts(s, t) && HoldsLatest(t.cache.values, ParseResponse(plaintext).value, [])
  {
    NoPushYet(before);
    assert PollBegan(before + [Began], |before|);
    PollEnds(lease, events, plaintext, |before|);
  }

  lemma NoPushYet(log: seq<Entry>)
    ensures PushesOf((log + [Began])[|log|..]) == []
  {
    assert (log + [Began])[|log|..] == [Began];
  }

  // From any reachable state with nothing installed and the lock free, an undisturbed poll connects, installs
  // its connection and shows exactly what the device answered.
  lemma FirstPollShowsTheAnswer(lease: bool, events: seq<Event>, plaintext: bytes)
    requires var s := Run(Initial(lease), events);
             s.holder == Nobody && s.link.client.None? && !s.tasks.shutdown
    requires ParseResponse(plaintext).Ok?
    ensures var s := Run(Initial(lease), events);
            var t := Run(s, UndisturbedConnect(Poll) + [Work(PollAnswered(plaintext))]);
            && t.link == Link(Some(s.nextId), Some(s.nextId), Some(s.nextId), None, s.link.generation + 1)
            && t.holder == Nobody
            && t.cache.baseline == Some(s.nextId) && LastShown(t.past.log) == Data(t.cache.values)
            && HoldsLatest(t.cache.values, ParseResponse(plaintext).value, [])
  {
    var s := Run(Initial(lease), events);
    UpheldRun(lease, events);
    AskedForTheFirstTime(s, Poll);
    var connect := UndisturbedConnect(Poll);
    RunSplit(Initial(lease), events, connect);
    RunMore(s, connect, Work(PollAnswered(plaintext)));
    FirstAnswer(lease, events + connect, plaintext, s.nextId, s.past.log);
  }

  // An undisturbed write connects the same way, counts, and leaves the connection installed under a new lease.
  lemma FirstWriteCounts(lease: bool, events: seq<Event>)
    requires var s := Run(Initial(lease), events);
             s.holder == Nobody && s.link.client.None? && !s.tasks.shutdown
    ensures var s := Run(Initial(lease), events);
            var t := Run(s, UndisturbedConnect(Write) + [Work(WriteAccepted)]);
            && t.link == Link(Some(s.nextId), Some(s.nextId), Some(s.nextId), None, s.link.generation + 1)
            && t.holder == Nobody && t.past.log == s.past.log && SleepsFor(t, s.nextId)
  {
    var s := Run(Initial(lease), events);
    UpheldRun(lease, events);
    AskedForTheFirstTime(s, Write);
    var connect := UndisturbedConnect(Write);
    RunSplit(Initial(lease), events, connect);
    RunMore(s, connect, Work(WriteAccepted));
    WriteEnds(lease, events + connect);
    LeaseIsConstant(lease, events);
    LeaseIsConstant(lease, events + connect);
    StepGoesOn(Run(s, connect), Work(WriteAccepted));
  }

  function UndisturbedConnect(job: Job): seq<Event>
  {
    [Work(TakeLock(job))] + [Setup(DialDone(true)), Setup(Advance), Setup(Advance), Setup(Ready)]
  }

  // -------------------------------------------------------------- failed setups

  // An attempt that finds no connection: cancelled, it only gives the lock back; else a poll shows the failure.
  lemma DialFailsClean(s: State, cancelled: bool)
    requires Shape(s) && s.holder.Dialing?
    ensures var t := Apply(s, Setup(DialFails(cancelled)));
            && t.holder == Nobody && t.link == s.link && t.ledger == s.ledger && t.tasks == s.tasks
            && t.past.log == s.past.log + (if cancelled then [] else BadFor(s.holder.job))
            && t.cache.values == map[] && t.cache.pending == map[]
  {
  }

  // A setup that fails hands over exactly what it built; its releases are shielded from the first cancellation.
  lemma FailedSetupHandsOver(s: State, cancelled: bool)
    requires Shape(s) && s.holder.SettingUp?
    ensures var left := BuiltSoFar(s.holder.stage, s.holder.connection);
            var t := Apply(s, Setup(Fails(cancelled)));
            && t.link == s.link.(connecting := None) && t.holder == Abandoning(s.holder.job, left, true, cancelled)
            && t.ledger == s.ledger.(handed := s.ledger.handed + multiset(left))
            && t.cache == s.cache && t.tasks == s.tasks && t.past == s.past && t.radio == s.radio
  {
    assert Apply(s, Setup(Fails(cancelled))) == AbandonSetup(s, cancelled);
    assert Built(s.holder.stage, s.holder.connection) == BuiltSoFar(s.holder.stage, s.holder.connection);
  }

  lemma FirstCancellationIsAbsorbed(s: State)
    requires s.holder.Abandoning? && s.holder.shielded
    ensures Apply(s, Work(CleanCancelled)) == s.(holder := s.holder.(shielded := false))
  {
  }

  ghost predicate AbandonedToTheEnd(s: State, t: State)
    requires s.holder.Abandoning?
  {
    && t.holder == Nobody && t.link == s.link && t.tasks == s.tasks && t.radio == s.radio
    && t.ledger == s.ledger.(attempted := s.ledger.attempted + multiset(s.holder.left))
    && t.past.log == s.past.log + (if s.holder.cancelled then [] else BadFor(s.holder.job))
  }

  // Its releases go through the list in order, one each, and then a poll that was not cancelled shows the failure.
  lemma {:induction false} AbandonedRunsToItsEnd(s: State)
    requires Shape(s) && s.holder.Abandoning?
    ensures AbandonedToTheEnd(s, Run(s, CleanNexts(|s.holder.left|)))
    decreases |s.holder.left|
  {
    var left := s.holder.left;
    var t := Apply(s, Work(CleanNext));
    CountsAddUp(s.ledger.attempted, left);
    OneEvent(s, Work(CleanNext));
    if |left| == 1 {
      LastAbandoned(s);
      assert CleanNexts(1) == [Work(CleanNext)];
    } else {
      AbandonedNext(s);
      ShapeKept(s, Work(CleanNext));
      AbandonedRunsToItsEnd(t);
      CleanNextFirst(|left| - 1);
      RunSplit(s, [Work(CleanNext)], CleanNexts(|left| - 1));
      EndBehind(s, t, Run(t, CleanNexts(|left| - 1)));
    }
  }

  lemma EndBehind(s: State, t: State, u: State)
    requires s.holder.Abandoning? && s.holder.left != [] && t.holder.Abandoning? && AbandonedToTheEnd(t, u)
    requires t == s.(holder := t.holder, ledger := t.ledger) && t.holder.left == s.holder.left[1..]
    requires t.holder.job == s.holder.job && t.holder.cancelled == s.holder.cancelled
    requires t.ledger == s.ledger.(attempted := s.ledger.attempted + multiset{s.holder.left[0]})
    ensures AbandonedToTheEnd(s, u)
  {
    CountsAddUp(s.ledger.attempted, s.holder.left);
  }

  lemma AbandonedNext(s: State)
    requires Shape(s) && s.holder.Abandoning? && |s.holder.left| > 1
    ensures var t := Apply(s, Work(CleanNext));
            && t == s.(holder := t.holder, ledger := t.ledger)
            && t.ledger == s.ledger.(attempted := s.ledger.attempted + multiset{s.holder.left[0]})
            && t.holder == Abandoning(s.holder.job, s.holder.left[1..], s.holder.shielded, s.holder.cancelled)
  {
  }

  lemma LastAbandoned(s: State)
    requires Shape(s) && s.holder.Abandoning? && |s.holder.left| == 1
    ensures var t := Apply(s, Work(CleanNext));
            && t.ledger == s.ledger.(attempted := s.ledger.attempted + multiset{s.holder.left[0]})
            && t.link == s.link && t.tasks == s.tasks && t.radio == s.radio && t.holder == Nobody
            && t.past.log == s.past.log + (if s.holder.cancelled then [] else BadFor(s.holder.job))
  {
    var done := s.(ledger := s.ledger.(attempted := s.ledger.attempted + multiset{s.holder.left[0]}));
    assert Apply(s, Work(CleanNext)) == ReleaseNext(s);
    if !s.holder.cancelled {
      NothingToDetach(done, s.holder.job);
    }
  }

  lemma NothingToDetach(s: State, job: Job)
    requires s.link.client.None? && s.link.auth.None? && s.link.session.None?
    ensures var t := Disconnect(s, job, Raise);
            && t.link == s.link && t.ledger == s.ledger && t.tasks == s.tasks && t.radio == s.radio
            && t.holder == Nobody && t.past.log == s.past.log + BadFor(job)
  {
    assert Attached(s.link) == [];
    assert s.ledger.handed + multiset([]) == s.ledger.handed;
  }

  // ----------------------------------------------------- losses, seen and unseen

  // A loss noticed while the connection is being set up only makes the setup fail.
  lemma LossInSetup(s: State)
    requires Shape(s) && s.holder.SettingUp? && s.holder.stage == WithSession
    ensures var c := s.holder.connection;
            var t := Apply(s, Loop(DisconnectCallback(c)));
            && t.link == s.link.(generation := s.link.generation + 1) && c in t.ledger.dropped
            && t.cache == s.cache && t.past == s.past && t.tasks == s.tasks && t.holder == s.holder
            && Apply(t, Setup(Ready)).holder == Abandoning(s.holder.job, ThreeOf(c), true, false)
  {
  }

  // A loss of the installed connection leaves its fields and its values in place for the clean-up.
  lemma LossKeepsTheFields(s: State, e: LoopEvent)
    requires Shape(s) && s.link.client.Some?
    requires e == DisconnectCallback(s.link.client.value) || e == SessionError(s.link.client.value)
    ensures var t := Apply(s, Loop(e));
            && t.link == s.link.(generation := s.link.generation + 1)
            && t.cache.values == s.cache.values && t.cache.pending == s.cache.pending && t.cache.queue == s.cache.queue
            && t.holder == s.holder && t.ledger == s.ledger && t.radio == s.radio
            && t.tasks.timers == s.tasks.timers && t.tasks.idle == s.tasks.idle
            && (s.tasks.cleanup.None? ==> t.tasks.cleanup == s.link.client)
  {
  }

  // Callbacks of anybody but the current connection change nothing.
  lemma StrangersAreIgnored(s: State, c: Id, plaintext: bytes)
    requires Shape(s) && s.link.client != Some(c)
    ensures s.link.connecting != Some(c) ==> Apply(s, Loop(DisconnectCallback(c))) == s
    ensures Apply(s, Loop(SessionError(c))) == s && Apply(s, Loop(Push(c, plaintext))) == s
  {
  }

  // A link that drops unnoticed is found out by whoever comes next: a poll in flight is not shown, a write in
  // flight fails, and the next job replaces the connection, as it does once the session's counters are used up.
  lemma UnseenLossIsFoundOut(s: State, plaintext: bytes)
    requires Shape(s) && s.link.client.Some? && !s.tasks.shutdown
    ensures var c := s.link.client.value;
            var lost := Apply(s, Loop(LinkLost(c)));
            && (s.holder.Requesting? && s.holder.job == Poll ==>
                  Empty(Apply(lost, Work(PollAnswered(plaintext))))
                  && Apply(lost, Work(PollAnswered(plaintext))).past == s.past)
            && (s.holder.Requesting? && s.holder.job == Write ==> Empty(Apply(lost, Work(WriteAccepted))))
            && (s.holder == Nobody ==> ReplacesIt(lost, c))
  {
    var c := s.link.client.value;
    var lost := Apply(s, Loop(LinkLost(c)));
    ShapeKept(s, Loop(LinkLost(c)));
    if s.holder.Requesting? && s.holder.job == Poll {
      PollRefused(lost, plaintext);
    } else if s.holder.Requesting? {
      DetachesAll(lost, Write, Raise);
    } else if s.holder == Nobody {
      ReusedIff(lost, Poll);
      ReusedIff(lost, Write);
    }
  }

  predicate ReplacesIt(s: State, c: Id)
  {
    && Apply(s, Work(TakeLock(Poll))).holder == Releasing(Poll, ThreeOf(c), Dial)
    && Apply(s, Work(TakeLock(Write))).holder == Releasing(Write, ThreeOf(c), Dial)
  }

  lemma ExhaustedIsReplaced(s: State)
    requires Shape(s) && s.link.client.Some? && !s.tasks.shutdown && s.holder == Nobody
    ensures ReplacesIt(Apply(s, Loop(CountersExhausted(s.link.client.value))), s.link.client.value)
  {
    var t := Apply(s, Loop(CountersExhausted(s.link.client.value)));
    ShapeKept(s, Loop(CountersExhausted(s.link.client.value)));
    ReusedIff(t, Poll);
    ReusedIff(t, Write);
  }

  // A sleeping timer that fires waits for the lock; a cancelled one ends and is no longer registered.
  lemma TimersMoveOn(s: State, i: Id)
    requires i in s.tasks.timers
    ensures var fired := Apply(s, Task(TimerFires(i)));
            if s.tasks.timers[i].phase == Sleeping
            then fired == s.(tasks := fired.tasks) && Timed(fired, i, Waiting) && fired.tasks.idle == s.tasks.idle
            else fired == s
    ensures var stopped := Apply(s, Task(TimerStops(i)));
            if s.tasks.timers[i].phase == Cancelled
            then stopped == s.(tasks := stopped.tasks) && Timed(stopped, i, Done) && stopped.tasks.idle != Some(i)
            else stopped == s
  {
  }

  // A release that is cut short: the lock is free, the rest stays behind, and the task that held the lock is over;
  // a shutdown has then not released everything.
  lemma ReleaseIsCutShort(s: State)
    requires s.holder.Releasing?
    ensures var t := Apply(s, Work(CleanCancelled));
            && t == s.(holder := Nobody, tasks := t.tasks,
                       ledger := s.ledger.(abandoned := s.ledger.abandoned + multiset(s.holder.left)))
            && match s.holder.job
               case Cleanup => t.tasks == s.tasks.(cleanup := None)
               case Idle(i) =>
                 if i in s.tasks.timers
                 then Timed(t, i, Done) && t.tasks.idle != Some(i) && t.tasks.released == s.tasks.released
                 else t.tasks == s.tasks
               case _ => t.tasks == s.tasks
  {
  }
}
