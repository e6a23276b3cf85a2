/** The coordinator's promises, for every run of events from the start. */
module CoordinatorTheorems {
  import opened Bytes
  import opened Properties
  import opened CoordinatorModel
  import opened CoordinatorInvariants
  import opened CoordinatorHistory
  import opened CoordinatorLease

  ghost predicate Upheld(s: State)
  {
    Shape(s) && Recorded(s) && Leased(s) && Closed(s) && Rejects(s)
  }

  lemma UpheldKept(s: State, e: Event)
    requires Upheld(s)
    ensures Upheld(Apply(s, e))
  {
    ShapeKept(s, e);
    RecordedKept(s, e);
    LeasedKept(s, e);
    ClosedKept(s, e);
    RejectsKept(s, e);
  }

  lemma {:induction false} UpheldRun(lease: bool, events: seq<Event>)
    ensures Upheld(Run(Initial(lease), events))
    decreases |events|
  {
    if events != [] {
      UpheldRun(lease, events[..|events| - 1]);
      UpheldKept(Run(Initial(lease), events[..|events| - 1]), events[|events| - 1]);
    }
  }

  lemma {:induction false} AccountedRun(lease: bool, events: seq<Event>, r: Resource)
    ensures Accounted(Run(Initial(lease), events), r)
    decreases |events|
  {
    if events != [] {
      var before := events[..|events| - 1];
      AccountedRun(lease, before, r);
      UpheldRun(lease, before);
      AccountedKept(Run(Initial(lease), before), events[|events| - 1], r);
    }
  }

  // ------------------------------------------------------------------- cache

  // With a current baseline the cache is the last completed poll overlaid with every push handled
  // since that poll's request began; without a session it is empty.
  lemma CacheEqualsReplay(lease: bool, events: seq<Event>)
    ensures var s := Run(Initial(lease), events);
            && (s.cache.baseline.Some? ==> s.cache.baseline == s.link.session)
            && (s.link.session.None? ==> s.cache.values == map[] && s.cache.pending == map[])
            && (s.cache.baseline.Some? ==>
                  exists b, k :: LastPoll(s.past.log, b, k) && s.cache.values == Replay(s.past.log, b, k))
  {
    UpheldRun(lease, events);
  }

  // Between an invalidation and the next good snapshot lies a whole poll.
  lemma NoStaleSuccess(lease: bool, events: seq<Event>, i: nat, j: nat)
    requires i < j < |Run(Initial(lease), events).past.log|
    requires Run(Initial(lease), events).past.log[i].Invalidated?
    requires Run(Initial(lease), events).past.log[j].Good?
    ensures exists b, k ::
              && i < b < k < j
              && Run(Initial(lease), events).past.log[b].Began?
              && Run(Initial(lease), events).past.log[k].Completed?
  {
    UpheldRun(lease, events);
    var log := Run(Initial(lease), events).past.log;
    assert Justified(log, j);
    var b, k := log[j].began, log[j].completed;
    assert log[..j][b] == log[b] && log[..j][k] == log[k];
    assert NoneInvalidated(log, b, j);
  }

  // Whatever was shown as good was, at that moment, the replay of the log.
  lemma ShownIsReplay(lease: bool, events: seq<Event>, j: nat)
    requires j < |Run(Initial(lease), events).past.log| && Run(Initial(lease), events).past.log[j].Good?
    ensures exists b, k ::
              && LastPoll(Run(Initial(lease), events).past.log[..j], b, k)
              && Run(Initial(lease), events).past.log[j].props
                  == Replay(Run(Initial(lease), events).past.log[..j], b, k)
  {
    UpheldRun(lease, events);
    assert Justified(Run(Initial(lease), events).past.log, j);
  }

  // A processed loss of the current link is reported at once, voids the baseline, and leaves every
  // poll or write in flight with an outdated generation. A clean-up of this very connection is pending
  // afterwards exactly when none was pending before, or one of this connection.
  lemma InvalidationBites(lease: bool, events: seq<Event>, e: LoopEvent)
    requires e.DisconnectCallback? || e.SessionError?
    requires var s := Run(Initial(lease), events);
             s.link.client == Some(if e.DisconnectCallback? then e.c else e.session)
    ensures var s := Run(Initial(lease), events);
            var t := LoopStep(s, e);
            && LastShown(t.past.log) == Failed && t.past.log == s.past.log + [Invalidated, Bad]
            && t.cache.baseline.None? && !t.cache.publishPending
            && (t.holder.Requesting? ==> !StillCurrent(t))
            && t.tasks.cleanup.Some?
            && (t.tasks.cleanup == t.link.client <==> s.tasks.cleanup.None? || s.tasks.cleanup == s.link.client)
  {
    UpheldRun(lease, events);
  }

  lemma NoLostUpdate(lease: bool, events: seq<Event>)
    ensures var s := Run(Initial(lease), events);
            && (s.cache.baseline.Some? ==>
                  LastShown(s.past.log) == Data(s.cache.values) || s.cache.baseline.value in s.cache.queue)
            && (s.cache.publishPending ==>
                  s.link.session.Some? && s.cache.baseline == s.link.session && s.link.session.value in s.cache.queue)
  {
    UpheldRun(lease, events);
  }

  // --------------------------------------------------------------- resources

  // Every client, auth object and session ever created is in exactly one place.
  lemma ConnectionConservation(lease: bool, events: seq<Event>, r: Resource)
    ensures var s := Run(Initial(lease), events);
            && s.link.auth == s.link.client && s.link.session == s.link.client
            && s.ledger.created[r] <= 1
            && s.ledger.created[r]
               == Times(InSetup(s.holder, r)) + Times(FieldOf(s.link, r.kind) == Some(r.id)) + s.ledger.handed[r]
            && (forall c <- s.ledger.dropped :: s.link.client != Some(c))
  {
    UpheldRun(lease, events);
    AccountedRun(lease, events, r);
  }

  // A cancellation that nothing shields, while `r` still waits to be released.
  predicate Strands(s: State, e: Event, r: Resource)
  {
    && e == Work(CleanCancelled) && r in Left(s.holder)
    && (s.holder.Abandoning? ==> !s.holder.shielded)
  }

  lemma DisconnectAbandonsNothing(s: State, job: Job, after: After)
    ensures Disconnect(s, job, after).ledger.abandoned == s.ledger.abandoned
  {
  }

  lemma ReleaseNextAbandonsNothing(s: State)
    requires (s.holder.Abandoning? || s.holder.Releasing?) && s.holder.left != []
    ensures ReleaseNext(s).ledger.abandoned == s.ledger.abandoned
  {
  }

  lemma EnsureConnectedAbandonsNothing(s: State, job: Job)
    ensures EnsureConnected(s, job).ledger.abandoned == s.ledger.abandoned
  {
    DisconnectAbandonsNothing(s, job, Raise);
    DisconnectAbandonsNothing(s, job, Dial);
  }

  lemma CompletionAbandonsNothing(s: State, plaintext: bytes)
    requires s.holder.Requesting?
    ensures CompletePoll(s, plaintext).ledger.abandoned == s.ledger.abandoned
    ensures CompleteWrite(s).ledger.abandoned == s.ledger.abandoned
  {
    DisconnectAbandonsNothing(s, Poll, Raise);
    DisconnectAbandonsNothing(s, Write, Raise);
  }

  lemma OtherWorkAbandonsNothing(s: State, e: WorkEvent)
    requires !e.CleanCancelled?
    ensures WorkStep(s, e).ledger.abandoned == s.ledger.abandoned
  {
    if WorkStep(s, e) != s {
      match e
      case TakeLock(job) => EnsureConnectedAbandonsNothing(s, job);
      case PollAnswered(plaintext) => CompletionAbandonsNothing(s, plaintext);
      case WriteAccepted => CompletionAbandonsNothing(s, []);
      case RequestFails => DisconnectAbandonsNothing(s, s.holder.job, Raise);
      case RequestCancelled =>
      case CleanNext => ReleaseNextAbandonsNothing(s);
    }
  }

  lemma WorkAbandons(s: State, e: WorkEvent, r: Resource)
    ensures WorkStep(s, e).ledger.abandoned[r] == 0 <==> s.ledger.abandoned[r] == 0 && !Strands(s, Work(e), r)
  {
    if !e.CleanCancelled? {
      OtherWorkAbandonsNothing(s, e);
    } else if s.holder.Abandoning? || s.holder.Releasing? {
      CancelAbandons(s, r);
    }
  }

  lemma CancelAbandons(s: State, r: Resource)
    requires s.holder.Abandoning? || s.holder.Releasing?
    ensures CancelRelease(s).ledger.abandoned[r] == 0
      <==> s.ledger.abandoned[r] == 0 && !Strands(s, Work(CleanCancelled), r)
  {
  }

  lemma SetupAbandonsNothing(s: State, e: SetupEvent)
    ensures SetupStep(s, e).ledger.abandoned == s.ledger.abandoned
  {
  }

  lemma LockAbandonsNothing(s: State, t: Id)
    ensures t in s.tasks.timers ==> TimerTakesLock(s, t).ledger.abandoned == s.ledger.abandoned
    ensures CleanupTakesLock(s).ledger.abandoned == s.ledger.abandoned
    ensures ShutdownTakesLock(s).ledger.abandoned == s.ledger.abandoned
  {
    if t in s.tasks.timers {
      DisconnectAbandonsNothing(s.(tasks := SetPhase(s.tasks, t, Inside)), Idle(t), Finish);
    }
    DisconnectAbandonsNothing(s, Cleanup, Finish);
    var silenced := s.tasks.(timers := Cancel(s.tasks.timers, s.tasks.idle), idle := None);
    DisconnectAbandonsNothing(s.(tasks := silenced), Shutdown, Finish);
  }

  lemma TaskAbandonsNothing(s: State, e: TaskEvent)
    ensures TaskStep(s, e).ledger.abandoned == s.ledger.abandoned
  {
    LockAbandonsNothing(s, if e.TimerLock? then e.t else 0);
  }

  lemma LoopAbandonsNothing(s: State, e: LoopEvent)
    ensures LoopStep(s, e).ledger.abandoned == s.ledger.abandoned
  {
  }

  lemma StepAbandons(s: State, e: Event, r: Resource)
    ensures Apply(s, e).ledger.abandoned[r] == 0 <==> s.ledger.abandoned[r] == 0 && !Strands(s, e, r)
  {
    match e
    case Setup(x) => SetupAbandonsNothing(s, x);
    case Work(x) => WorkAbandons(s, x, r);
    case Task(x) => TaskAbandonsNothing(s, x);
    case Loop(x) => LoopAbandonsNothing(s, x);
  }

  predicate StrandedAt(lease: bool, events: seq<Event>, r: Resource, i: nat)
  {
    i < |events| && Strands(Run(Initial(lease), events[..i]), events[i], r)
  }

  ghost predicate EverStranded(lease: bool, events: seq<Event>, r: Resource)
  {
    exists i: nat :: StrandedAt(lease, events, r, i)
  }

  lemma StrandedEarlier(lease: bool, events: seq<Event>, r: Resource, i: nat)
    requires i < |events| - 1
    ensures StrandedAt(lease, events, r, i) == StrandedAt(lease, events[..|events| - 1], r, i)
  {
    assert events[..|events| - 1][..i] == events[..i];
  }

  lemma StrandedLater(lease: bool, events: seq<Event>, r: Resource)
    requires events != []
    ensures EverStranded(lease, events, r)
      <==> EverStranded(lease, events[..|events| - 1], r) || StrandedAt(lease, events, r, |events| - 1)
  {
    var before := events[..|events| - 1];
    if EverStranded(lease, events, r) {
      var i: nat :| StrandedAt(lease, events, r, i);
      if i < |before| {
        StrandedEarlier(lease, events, r, i);
      }
    }
    if EverStranded(lease, before, r) {
      var i: nat :| StrandedAt(lease, before, r, i);
      StrandedEarlier(lease, events, r, i);
    }
  }

  lemma AbandonedLater(lease: bool, events: seq<Event>, r: Resource)
    requires events != []
    ensures var before := Run(Initial(lease), events[..|events| - 1]);
            Run(Initial(lease), events).ledger.abandoned[r] == 0
            <==> before.ledger.abandoned[r] == 0 && !StrandedAt(lease, events, r, |events| - 1)
  {
    StepAbandons(Run(Initial(lease), events[..|events| - 1]), events[|events| - 1], r);
  }

  // A handed-over resource is left unreleased exactly when some unshielded cancellation hit its clean-up.
  lemma {:induction false} StrandedIff(lease: bool, events: seq<Event>, r: Resource)
    ensures Run(Initial(lease), events).ledger.abandoned[r] > 0 <==> EverStranded(lease, events, r)
    decreases |events|
  {
    if events != [] {
      StrandedIff(lease, events[..|events| - 1], r);
      StrandedLater(lease, events, r);
      AbandonedLater(lease, events, r);
    }
  }

  // Whatever is abandoned is gone for good: it was never released and is not installed.
  lemma StrandedIsNotReleased(lease: bool, events: seq<Event>, r: Resource)
    requires EverStranded(lease, events, r)
    ensures var s := Run(Initial(lease), events);
            s.ledger.attempted[r] == 0 && FieldOf(s.link, r.kind) != Some(r.id) && !InSetup(s.holder, r)
  {
    AccountedRun(lease, events, r);
    StrandedIff(lease, events, r);
  }

  lemma StrandedStays(lease: bool, events: seq<Event>, more: seq<Event>, r: Resource)
    requires EverStranded(lease, events, r)
    ensures EverStranded(lease, events + more, r)
  {
    var i: nat :| StrandedAt(lease, events, r, i);
    assert (events + more)[..i] == events[..i];
    assert StrandedAt(lease, events + more, r, i);
  }

  // A stranded resource is never released or installed, under any further events.
  lemma NeverReleasedLater(lease: bool, events: seq<Event>, more: seq<Event>, r: Resource)
    requires EverStranded(lease, events, r)
    ensures var s := Run(Initial(lease), events + more);
            s.ledger.attempted[r] == 0 && FieldOf(s.link, r.kind) != Some(r.id)
  {
    StrandedStays(lease, events, more, r);
    StrandedIsNotReleased(lease, events + more, r);
  }

  // With the lock free, a created resource is either installed or was released, one of the two and exactly
  // once, if and only if no such cancellation ever hit it; otherwise it is neither.
  lemma ReleasedExactlyOnceIff(lease: bool, events: seq<Event>, r: Resource)
    requires Run(Initial(lease), events).holder == Nobody
    requires Run(Initial(lease), events).ledger.created[r] > 0
    ensures var s := Run(Initial(lease), events);
            var kept := Times(FieldOf(s.link, r.kind) == Some(r.id)) + s.ledger.attempted[r];
            (kept == 1 <==> !EverStranded(lease, events, r)) && (kept == 0 <==> EverStranded(lease, events, r))
  {
    AccountedRun(lease, events, r);
    StrandedIff(lease, events, r);
    if EverStranded(lease, events, r) {
      StrandedIsNotReleased(lease, events, r);
    }
  }

  lemma RunMore(s: State, events: seq<Event>, e: Event)
    ensures Run(s, events + [e]) == Apply(Run(s, events), e)
  {
    assert (events + [e])[..|events|] == events;
  }

  // The first poll's connection, set up without trouble.
  function FirstSetup(): seq<Event>
  {
    [Work(TakeLock(Poll)), Setup(DialDone(true)), Setup(Advance), Setup(Advance), Setup(Ready)]
  }

  lemma AfterFirstSetup()
    ensures var s := Run(Initial(false), FirstSetup());
            && s.link.client == s.link.auth == s.link.session == Some(0) && s.holder == Requesting(Poll, 0, 0, 1)
            && 0 in s.radio.connected && s.ledger.attempted == multiset{}
            && s.ledger.created[Resource(ClientObject, 0)] == 1
            && s.tasks == Tasks(None, map[], None, false, false) && s.link.connecting.None? && s.nextId == 1 && !s.lease
  {
    var i, all := Initial(false), FirstSetup();
    var s1 := Apply(i, all[0]);
    assert s1.holder == Dialing(Poll, 0);
    var s2 := Apply(s1, all[1]);
    assert s2.holder == SettingUp(Poll, Bare, 0, 0);
    var s4 := Apply(Apply(s2, all[2]), all[3]);
    assert s4.holder == SettingUp(Poll, WithSession, 0, 0) && s4.radio.connected == {0} && s4.link.generation == 0;
    RunFive(i, all);
  }

  lemma RunFive(s: State, all: seq<Event>)
    requires |all| == 5
    ensures Run(s, all) == Apply(Apply(Apply(Apply(Apply(s, all[0]), all[1]), all[2]), all[3]), all[4])
  {
    assert all[..4][..3] == all[..3] && all[..3][..2] == all[..2] && all[..2][..1] == all[..1] && all[..1][..0] == [];
    assert Run(s, all[..1]) == Apply(s, all[0]);
    assert Run(s, all[..2]) == Apply(Run(s, all[..1]), all[1]);
    assert Run(s, all[..3]) == Apply(Run(s, all[..2]), all[2]);
    assert Run(s, all[..4]) == Apply(Run(s, all[..3]), all[3]);
  }

  // Cancelling a poll while it disconnects leaves a connected client behind that nothing releases, whatever
  // happens afterwards: the fields are already empty, and the interrupted clean-up is never resumed.
  lemma CancelledPollStrandsTheClient()
    ensures exists events: seq<Event> ::
              && (var s := Run(Initial(false), events);
                  s.holder == Nobody && s.link.client.None? && 0 in s.radio.connected
                  && s.ledger.created[Resource(ClientObject, 0)] == 1)
              && forall more: seq<Event> ::
                   var t := Run(Initial(false), events + more);
                   t.ledger.attempted[Resource(ClientObject, 0)] == 0 && t.link.client != Some(0)
  {
    var r := Resource(ClientObject, 0);
    AfterFirstSetup();
    var events := FirstSetup() + [Work(RequestFails)];
    RunMore(Initial(false), FirstSetup(), Work(RequestFails));
    var s := Run(Initial(false), events);
    assert s.holder.Releasing? && s.link.client.None? && r in s.holder.left;
    var cancelled := events + [Work(CleanCancelled)];
    RunMore(Initial(false), events, Work(CleanCancelled));
    assert cancelled[..|events|] == events && cancelled[|events|] == Work(CleanCancelled);
    assert StrandedAt(false, cancelled, r, |events|);
    forall more: seq<Event>
      ensures var t := Run(Initial(false), cancelled + more); t.ledger.attempted[r] == 0 && t.link.client != Some(0)
    {
      NeverReleasedLater(false, cancelled, more, r);
    }
  }

  // ------------------------------------------------ a clean-up of somebody else

  // The clean-up task of client 0 is waiting for the lock.
  ghost predicate WaitingFor0(s: State)
  {
    s.tasks == Tasks(None, map[], Some(0), false, false) && !s.lease
  }

  // The poll ends: its own `_disconnect` releases client 0.
  lemma PollReleasesClient0(s: State)
    requires WaitingFor0(s) && s.holder.Requesting? && s.holder.job == Poll && s.nextId == 1
    requires s.link.client == s.link.auth == s.link.session == Some(0) && s.link.connecting.None?
    ensures var r := Apply(s, Work(RequestFails));
            var t := Apply(Apply(Apply(r, Work(CleanNext)), Work(CleanNext)), Work(CleanNext));
            && WaitingFor0(t) && t.holder == Nobody && t.nextId == 1 && t.link.connecting.None?
            && t.link.client == t.link.auth == t.link.session == None
  {
    var r := Apply(s, Work(RequestFails));
    assert r.holder.Releasing? && |r.holder.left| == 3 && r.holder.after == Raise;
    var r2 := Apply(r, Work(CleanNext));
    assert r2.holder.Releasing? && |r2.holder.left| == 2 && r2.holder.after == Raise;
  }

  // The write that waited in front of the clean-up task connects anew.
  lemma WriteInstallsClient1(s: State)
    requires WaitingFor0(s) && s.holder == Nobody && s.nextId == 1 && s.link.connecting.None?
    requires s.link.client == s.link.auth == s.link.session == None
    ensures var d := Apply(Apply(s, Work(TakeLock(Write))), Setup(DialDone(true)));
            var b := Apply(Apply(d, Setup(Advance)), Setup(Advance));
            var t := Apply(Apply(b, Setup(Ready)), Work(WriteAccepted));
            && WaitingFor0(t) && t.holder == Nobody && t.link.connecting.None?
            && t.link.client == t.link.auth == t.link.session == Some(1)
  {
    var d := Apply(Apply(s, Work(TakeLock(Write))), Setup(DialDone(true)));
    assert d.holder == SettingUp(Write, Bare, 1, s.link.generation) && 1 in d.radio.connected;
    var b := Apply(Apply(d, Setup(Advance)), Setup(Advance));
    assert b.holder == SettingUp(Write, WithSession, 1, s.link.generation) && b.link.generation == s.link.generation;
    var i := Apply(b, Setup(Ready));
    assert i.holder == Requesting(Write, 1, 1, s.link.generation + 1);
  }

  // Client 0 is lost while the poll's request runs.
  lemma LossOfClient0(s: State)
    requires s.link.client == s.link.auth == s.link.session == Some(0) && s.link.connecting.None?
    requires s.tasks == Tasks(None, map[], None, false, false) && !s.lease
    ensures var t := Apply(s, Loop(DisconnectCallback(0)));
            WaitingFor0(t) && t.holder == s.holder && t.nextId == s.nextId
                && t.link == s.link.(generation := s.link.generation + 1)
  {
  }

  // Client 1 is lost while the clean-up task of client 0 still waits.
  lemma LossOfClient1(s: State)
    requires WaitingFor0(s) && s.holder == Nobody && s.link.client == Some(1) && s.link.connecting != Some(1)
    ensures var t := Apply(Apply(s, Loop(DisconnectCallback(1))), Task(CleanupLock));
            t.link.client == Some(1) && t.holder == Nobody && t.tasks.cleanup.None? && t.cache.baseline.None?
  {
    assert WaitingFor0(Apply(s, Loop(DisconnectCallback(1))));
  }

  // A run, in the order in which the lock is asked for, in which a processed disconnect is followed by no
  // clean-up: client 0 is lost while a poll runs and a write waits; the poll releases client 0, the write
  // connects client 1, client 1 is lost, and the only clean-up task is still the one of client 0.
  lemma CleanupOfAnotherClient() returns (events: seq<Event>)
    ensures |events| >= 2 && events[|events| - 2..] == [Loop(DisconnectCallback(1)), Task(CleanupLock)]
    ensures Run(Initial(false), events[..|events| - 2]).link.client == Some(1)
    ensures var s := Run(Initial(false), events);
            s.link.client == Some(1) && s.holder == Nobody && s.tasks.cleanup.None? && s.cache.baseline.None?
  {
    AfterFirstSetup();
    var i := Initial(false);
    var lost := FirstSetup() + [Loop(DisconnectCallback(0))];
    RunMore(i, FirstSetup(), Loop(DisconnectCallback(0)));
    LossOfClient0(Run(i, FirstSetup()));
    PollReleasesClient0(Run(i, lost));
    var released := RunFour(i, lost, Work(RequestFails), Work(CleanNext), Work(CleanNext), Work(CleanNext));
    WriteInstallsClient1(Run(i, released));
    var building := RunFour(i, released, Work(TakeLock(Write)), Setup(DialDone(true)), Setup(Advance), Setup(Advance));
    var installed := RunTwo(i, building, Setup(Ready), Work(WriteAccepted));
    LossOfClient1(Run(i, installed));
    events := RunTwo(i, installed, Loop(DisconnectCallback(1)), Task(CleanupLock));
    assert events[..|events| - 2] == installed;
  }

  lemma RunTwo(s: State, events: seq<Event>, a: Event, b: Event) returns (longer: seq<Event>)
    ensures longer == events + [a, b] && Run(s, longer) == Apply(Apply(Run(s, events), a), b)
  {
    RunMore(s, events, a);
    RunMore(s, events + [a], b);
    longer := events + [a] + [b];
    assert longer == events + [a, b];
  }

  lemma RunFour(s: State, events: seq<Event>, a: Event, b: Event, c: Event, d: Event) returns (longer: seq<Event>)
    ensures longer == events + [a, b, c, d]
    ensures Run(s, longer) == Apply(Apply(Apply(Apply(Run(s, events), a), b), c), d)
  {
    var half := RunTwo(s, events, a, b);
    longer := RunTwo(s, half, c, d);
  }

  // --------------------------------------------------------- lease and shutdown

  // With a positive lease the registered timer is the installed connection's own and still pending;
  // any other timer is finished, cancelled, or the one running the disconnect.
  lemma LeaseBelongsToConnection(lease: bool, events: seq<Event>)
    ensures var s := Run(Initial(lease), events);
            && (lease && s.link.client.Some? ==>
                  && s.tasks.idle.Some? && s.tasks.idle.value in s.tasks.timers
                  && s.tasks.timers[s.tasks.idle.value].client == s.link.client.value
                  && s.tasks.timers[s.tasks.idle.value].phase in {Sleeping, Waiting})
            && (forall t <- s.tasks.timers ::
                  Some(t) != s.tasks.idle ==> s.tasks.timers[t].phase in {Cancelled, Done, Inside})
  {
    UpheldRun(lease, events);
    LeaseIsConstant(lease, events);
  }

  lemma {:induction false} LeaseIsConstant(lease: bool, events: seq<Event>)
    ensures Run(Initial(lease), events).lease == lease
    decreases |events|
  {
    if events != [] {
      LeaseIsConstant(lease, events[..|events| - 1]);
      StepGoesOn(Run(Initial(lease), events[..|events| - 1]), events[|events| - 1]);
    }
  }

  // Over every run: a timer that takes an installed client away is the registered one, armed for that very
  // client under a positive lease. A timer of an earlier client never drops a replacement.
  lemma OnlyTheLeaseDropsAClient(lease: bool, events: seq<Event>, t: Id)
    ensures var s := Run(Initial(lease), events);
            var after := Apply(s, Task(TimerLock(t)));
            s.link.client.Some? && after.link.client != s.link.client ==>
              && lease && s.tasks.idle == Some(t) && t in s.tasks.timers
              && s.tasks.timers[t] == Timer(s.link.client.value, Waiting)
    ensures var s := Run(Initial(lease), events);
            var after := Apply(s, Task(TimerLock(t)));
            t in s.tasks.timers && s.link.client != Some(s.tasks.timers[t].client) ==>
              after.link == s.link && after.cache == s.cache
  {
    UpheldRun(lease, events);
    LeaseIsConstant(lease, events);
  }

  lemma WorkSparesInside(s: State, e: WorkEvent, t: Id)
    requires Upheld(s) && Timed(s, t, Inside)
    ensures Timed(WorkStep(s, e), t, Inside) || Timed(WorkStep(s, e), t, Done)
  {
    assert s.holder.Releasing? && s.holder.job == Idle(t);
  }

  lemma TaskSparesInside(s: State, e: TaskEvent, t: Id)
    requires Upheld(s) && Timed(s, t, Inside)
    ensures Timed(TaskStep(s, e), t, Inside)
  {
    assert s.holder.Releasing? && s.holder.job == Idle(t);
  }

  // No re-arm and no shutdown cancels a timer that is already disconnecting.
  lemma NeverCancelledInside(lease: bool, events: seq<Event>, e: Event, t: Id)
    requires Timed(Run(Initial(lease), events), t, Inside)
    ensures var s := Apply(Run(Initial(lease), events), e); Timed(s, t, Inside) || Timed(s, t, Done)
  {
    UpheldRun(lease, events);
    var s := Run(Initial(lease), events);
    assert s.holder.Releasing? && s.holder.job == Idle(t);
    match e
    case Setup(x) =>
    case Work(x) => WorkSparesInside(s, x, t);
    case Task(x) => TaskSparesInside(s, x, t);
    case Loop(x) =>
  }

  // What happens while only polls use the connection: polls and their answers, failures and cancellations,
  // pushes, queued publishes, lost links and used-up counters.
  predicate Polling(e: Event)
  {
    match e
    case Work(w) => w == TakeLock(Poll) || w.PollAnswered? || w.RequestFails? || w.RequestCancelled?
    case Loop(l) => l.Push? || l.RunPublish? || l.LinkLost? || l.CountersExhausted?
    case _ => false
  }

  lemma PollStepKeepsTasks(s: State, e: Event)
    requires Polling(e) && s.link.client.Some? && Apply(s, e).link.client == s.link.client
    requires s.holder == Nobody || (s.holder.Requesting? && s.holder.job == Poll)
    ensures var t := Apply(s, e);
            t.tasks == s.tasks && (t.holder == Nobody || (t.holder.Requesting? && t.holder.job == Poll))
  {
  }

  // However many polls run on a connection, they never extend its lease: the timers stay as they were.
  lemma {:induction false} PollsNeverExtendTheLease(s: State, more: seq<Event>)
    requires s.holder == Nobody && s.link.client.Some?
    requires forall e <- more :: Polling(e)
    requires forall k :: 0 <= k <= |more| ==> Run(s, more[..k]).link.client == s.link.client
    ensures Run(s, more).tasks == s.tasks
    ensures Run(s, more).holder == Nobody || (Run(s, more).holder.Requesting? && Run(s, more).holder.job == Poll)
    decreases |more|
  {
    if more != [] {
      var before := more[..|more| - 1];
      assert forall k :: 0 <= k <= |before| ==> before[..k] == more[..k];
      assert more[..|more|] == more;
      PollsNeverExtendTheLease(s, before);
      PollStepKeepsTasks(Run(s, before), more[|more| - 1]);
    }
  }

  // What no step takes back; and from the moment a shutdown is requested nothing gets installed any more.
  ghost predicate GoesOn(s: State, t: State)
  {
    && t.lease == s.lease
    && (s.tasks.shutdown ==> t.tasks.shutdown)
    && (s.tasks.released ==> t.tasks.released)
    && (s.tasks.shutdown && t.link.client.Some? ==> t.link.client == s.link.client)
  }

  lemma DisconnectGoesOn(s: State, job: Job, after: After)
    ensures GoesOn(s, Disconnect(s, job, after))
  {
  }

  lemma SetupGoesOn(s: State, e: SetupEvent)
    ensures GoesOn(s, SetupStep(s, e))
  {
  }

  lemma EnsureConnectedGoesOn(s: State, job: Job)
    ensures GoesOn(s, EnsureConnected(s, job))
  {
    DisconnectGoesOn(s, job, Raise);
    DisconnectGoesOn(s, job, Dial);
  }

  lemma ReleaseNextGoesOn(s: State)
    requires (s.holder.Abandoning? || s.holder.Releasing?) && s.holder.left != []
    ensures GoesOn(s, ReleaseNext(s))
  {
  }

  lemma CompleteGoesOn(s: State, plaintext: bytes)
    requires s.holder.Requesting?
    ensures GoesOn(s, CompletePoll(s, plaintext)) && GoesOn(s, CompleteWrite(s))
  {
    DisconnectGoesOn(s, Poll, Raise);
    DisconnectGoesOn(s, Write, Raise);
  }

  lemma WorkGoesOn(s: State, e: WorkEvent)
    ensures GoesOn(s, WorkStep(s, e))
  {
    if WorkStep(s, e) != s {
      match e
      case TakeLock(job) => EnsureConnectedGoesOn(s, job);
      case PollAnswered(plaintext) => CompleteGoesOn(s, plaintext);
      case WriteAccepted => CompleteGoesOn(s, []);
      case RequestFails => DisconnectGoesOn(s, s.holder.job, Raise);
      case RequestCancelled =>
      case CleanNext => ReleaseNextGoesOn(s);
      case CleanCancelled =>
    }
  }

  lemma TimerLockGoesOn(s: State, t: Id)
    requires t in s.tasks.timers
    ensures GoesOn(s, TimerTakesLock(s, t))
  {
    DisconnectGoesOn(s.(tasks := SetPhase(s.tasks, t, Inside)), Idle(t), Finish);
  }

  lemma ShutdownLockGoesOn(s: State)
    ensures GoesOn(s, ShutdownTakesLock(s))
  {
    var silenced := s.tasks.(timers := Cancel(s.tasks.timers, s.tasks.idle), idle := None);
    DisconnectGoesOn(s.(tasks := silenced), Shutdown, Finish);
  }

  lemma TaskGoesOn(s: State, e: TaskEvent)
    ensures GoesOn(s, TaskStep(s, e))
  {
    if TaskStep(s, e) != s {
      match e
      case TimerLock(t) => TimerLockGoesOn(s, t);
      case CleanupLock => DisconnectGoesOn(s, Cleanup, Finish);
      case ShutdownLock => ShutdownLockGoesOn(s);
      case _ =>
    }
  }

  lemma LoopGoesOn(s: State, e: LoopEvent)
    ensures GoesOn(s, LoopStep(s, e))
  {
  }

  lemma StepGoesOn(s: State, e: Event)
    ensures GoesOn(s, Apply(s, e))
  {
    match e
    case Setup(x) => SetupGoesOn(s, x);
    case Work(x) => WorkGoesOn(s, x);
    case Task(x) => TaskGoesOn(s, x);
    case Loop(x) => LoopGoesOn(s, x);
  }

  lemma {:induction false} ReleasedStays(s: State, more: seq<Event>)
    requires s.tasks.released
    ensures Run(s, more).tasks.released
    decreases |more|
  {
    if more != [] {
      ReleasedStays(s, more[..|more| - 1]);
      StepGoesOn(Run(s, more[..|more| - 1]), more[|more| - 1]);
    }
  }

  lemma {:induction false} RunSplit(s: State, a: seq<Event>, b: seq<Event>)
    ensures Run(s, a + b) == Run(Run(s, a), b)
    decreases |b|
  {
    if b == [] {
      assert a + b == a;
    } else {
      RunSplit(s, a, b[..|b| - 1]);
      assert (a + b)[..|a + b| - 1] == a + b[..|b| - 1];
    }
  }

  // When the locked part of a shutdown is over, nothing is connected and every resource ever created
  // was handed over, now and after any further events.
  lemma ShutdownIsFinal(lease: bool, events: seq<Event>, more: seq<Event>, r: Resource)
    requires Run(Initial(lease), events).tasks.released
    ensures var s := Run(Initial(lease), events + more);
            s.link.client.None? && s.holder == Nobody && s.ledger.handed[r] == s.ledger.created[r]
  {
    RunSplit(Initial(lease), events, more);
    ReleasedStays(Run(Initial(lease), events), more);
    UpheldRun(lease, events + more);
    AccountedRun(lease, events + more, r);
  }
}
