/** The idle lease, shutdown, and connections lost during setup. */
module CoordinatorLease {
  import opened Bytes
  import opened Properties
  import opened CoordinatorModel
  import opened CoordinatorInvariants

  // ------------------------------------------------------------------ timers

  // Every timer that can still fire is the registered one, and a timer that holds the lock is never registered twice.
  ghost predicate Timers(s: State)
  {
    && (forall t <- s.tasks.timers :: t < s.nextId)
    && (forall t <- s.tasks.timers :: s.tasks.timers[t].phase in {Sleeping, Waiting} ==> s.tasks.idle == Some(t))
    && (forall t <- s.tasks.timers ::
          s.tasks.timers[t].phase == Inside ==> s.holder.Releasing? && s.holder.job == Idle(t))
    && (s.holder.Releasing? && s.holder.job.Idle? ==> Timed(s, s.holder.job.timer, Inside))
    && (s.tasks.idle.Some? ==>
          && s.tasks.idle.value in s.tasks.timers
          && s.tasks.timers[s.tasks.idle.value].phase in {Sleeping, Waiting, Inside})
    && (!s.lease ==> s.tasks.idle.None?)
  }

  // With a positive lease an installed connection has its own timer, and nobody has cancelled it.
  ghost predicate Covered(s: State)
  {
    s.lease && s.link.client.Some? ==>
      && s.tasks.idle.Some? && s.tasks.idle.value in s.tasks.timers
      && s.tasks.timers[s.tasks.idle.value].client == s.link.client.value
      && s.tasks.timers[s.tasks.idle.value].phase in {Sleeping, Waiting}
  }

  ghost predicate Leased(s: State)
  {
    Timers(s) && Covered(s)
  }

  lemma DisconnectLeased(s: State, job: Job, after: After)
    requires Timers(s) && !s.holder.Releasing? && !job.Idle?
    ensures Leased(Disconnect(s, job, after))
  {
  }

  lemma ArmLeased(s: State, c: Id)
    requires Timers(s) && !s.holder.Releasing?
    ensures Timers(ArmIdleRelease(s, c))
    ensures s.link.client == Some(c) ==> Covered(ArmIdleRelease(s, c))
  {
  }

  lemma InstallLeased(s: State)
    requires Leased(s) && s.holder.SettingUp?
    ensures Leased(FinishSetup(s))
  {
    if FinishSetup(s) == Install(s) {
      var c := s.holder.connection;
      var installed := s.(link := Link(Some(c), Some(c), Some(c), None, s.link.generation + 1));
      assert Timers(installed);
      ArmLeased(installed, c);
    }
  }

  lemma LeasedSetup(s: State, e: SetupEvent)
    requires Leased(s) && Shape(s)
    ensures Leased(SetupStep(s, e))
  {
    if SetupStep(s, e) != s {
      match e
      case DialFails(_) => DisconnectLeased(s, s.holder.job, Raise);
      case Ready => InstallLeased(s);
      case _ =>
    }
  }

  lemma EnsureConnectedLeased(s: State, job: Job)
    requires Leased(s) && s.holder == Nobody && job in {Poll, Write}
    ensures Leased(EnsureConnected(s, job))
  {
    DisconnectLeased(s, job, Raise);
    DisconnectLeased(s, job, Dial);
  }

  lemma CompletePollLeased(s: State, plaintext: bytes)
    requires Leased(s) && s.holder.Requesting?
    ensures Leased(CompletePoll(s, plaintext))
  {
    DisconnectLeased(s, Poll, Raise);
  }

  lemma CompleteWriteLeased(s: State)
    requires Leased(s) && Shape(s) && s.holder.Requesting?
    ensures Leased(CompleteWrite(s))
  {
    DisconnectLeased(s, Write, Raise);
    var free := s.(holder := Nobody);
    assert Timers(free);
    ArmLeased(free, s.holder.client);
  }

  // However a clean-up ends, the timer that ran it is done and no longer registered.
  lemma JobEndsLeased(s: State, t: State, completed: bool)
    requires Leased(s) && Shape(s) && s.holder.Releasing?
    requires t.tasks == JobEnds(s.tasks, s.holder.job, completed)
    requires t.holder == Nobody && t.link == s.link && t.nextId == s.nextId && t.lease == s.lease
    ensures Leased(t)
  {
  }

  lemma ReleaseNextLeased(s: State)
    requires Leased(s) && Shape(s) && (s.holder.Abandoning? || s.holder.Releasing?)
    ensures Leased(ReleaseNext(s))
  {
    var done := s.(ledger := s.ledger.(attempted := s.ledger.attempted + multiset{s.holder.left[0]}));
    if s.holder.left[1..] == [] {
      if s.holder.Abandoning? {
        DisconnectLeased(done, s.holder.job, Raise);
      } else if s.holder.after == Finish {
        JobEndsLeased(s, ReleaseNext(s), true);
      }
    }
  }

  lemma CancelReleaseLeased(s: State)
    requires Leased(s) && Shape(s) && (s.holder.Abandoning? || s.holder.Releasing?)
    ensures Leased(CancelRelease(s))
  {
    if s.holder.Releasing? {
      JobEndsLeased(s, CancelRelease(s), false);
    }
  }

  lemma LeasedWork(s: State, e: WorkEvent)
    requires Leased(s) && Shape(s)
    ensures Leased(WorkStep(s, e))
  {
    if WorkStep(s, e) != s {
      match e
      case TakeLock(job) => EnsureConnectedLeased(s, job);
      case PollAnswered(plaintext) => CompletePollLeased(s, plaintext);
      case WriteAccepted => CompleteWriteLeased(s);
      case RequestFails => DisconnectLeased(s, s.holder.job, Raise);
      case RequestCancelled =>
      case CleanNext => ReleaseNextLeased(s);
      case CleanCancelled => CancelReleaseLeased(s);
    }
  }

  lemma TimerLockLeased(s: State, t: Id)
    requires Leased(s) && s.holder == Nobody && Timed(s, t, Waiting)
    ensures Leased(TimerTakesLock(s, t))
  {
  }

  lemma ShutdownLockLeased(s: State)
    requires Leased(s) && s.holder == Nobody
    ensures Leased(ShutdownTakesLock(s))
  {
    var stopped := s.(tasks := s.tasks.(timers := Cancel(s.tasks.timers, s.tasks.idle), idle := None));
    assert Timers(stopped);
    DisconnectLeased(stopped, Shutdown, Finish);
  }

  lemma LeasedTask(s: State, e: TaskEvent)
    requires Leased(s) && Shape(s)
    ensures Leased(TaskStep(s, e))
  {
    if TaskStep(s, e) != s {
      match e
      case TimerLock(t) => TimerLockLeased(s, t);
      case CleanupLock => DisconnectLeased(s, Cleanup, Finish);
      case ShutdownLock => ShutdownLockLeased(s);
      case _ =>
    }
  }

  lemma LeasedLoop(s: State, e: LoopEvent)
    requires Leased(s)
    ensures Leased(LoopStep(s, e))
  {
  }

  lemma LeasedKept(s: State, e: Event)
    requires Leased(s) && Shape(s)
    ensures Leased(Apply(s, e))
  {
    match e
    case Setup(x) => LeasedSetup(s, x);
    case Work(x) => LeasedWork(s, x);
    case Task(x) => LeasedTask(s, x);
    case Loop(x) => LeasedLoop(s, x);
  }

  // ---------------------------------------------------------------- shutdown

  // Once the locked part of a shutdown has run, nothing is connected and nobody holds the lock.
  ghost predicate Closed(s: State)
  {
    && (s.holder.Releasing? && s.holder.job == Shutdown ==> s.tasks.shutdown)
    && (s.tasks.released ==> s.tasks.shutdown && s.link.client.None? && s.holder == Nobody)
  }

  lemma ClosedSetup(s: State, e: SetupEvent)
    requires Closed(s) && Shape(s)
    ensures Closed(SetupStep(s, e))
  {
  }

  lemma EnsureConnectedClosed(s: State, job: Job)
    requires Closed(s) && Shape(s) && s.holder == Nobody && job in {Poll, Write}
    ensures Closed(EnsureConnected(s, job))
  {
  }

  lemma ContinueClosed(s: State, job: Job, after: After)
    requires !s.tasks.released && s.link.client.None? && (job == Shutdown ==> s.tasks.shutdown)
    ensures Closed(Continue(s, job, after))
  {
  }

  lemma DisconnectClosed(s: State, job: Job, after: After)
    requires !s.tasks.released && (job == Shutdown ==> s.tasks.shutdown)
    ensures Closed(Disconnect(s, job, after))
  {
  }

  lemma ReleaseNextClosed(s: State)
    requires Closed(s) && Shape(s) && (s.holder.Abandoning? || s.holder.Releasing?)
    ensures Closed(ReleaseNext(s))
  {
    if |s.holder.left| == 1 {
      var done := s.(ledger := s.ledger.(attempted := s.ledger.attempted + multiset{s.holder.left[0]}));
      if s.holder.Releasing? {
        ContinueClosed(done, s.holder.job, s.holder.after);
      } else if !s.holder.cancelled {
        DisconnectClosed(done, s.holder.job, Raise);
      }
    }
  }

  lemma ClosedWork(s: State, e: WorkEvent)
    requires Closed(s) && Shape(s)
    ensures Closed(WorkStep(s, e))
  {
    if WorkStep(s, e) != s {
      match e
      case TakeLock(job) => EnsureConnectedClosed(s, job);
      case CleanNext => ReleaseNextClosed(s);
      case _ =>
    }
  }

  lemma ClosedTask(s: State, e: TaskEvent)
    requires Closed(s) && Shape(s)
    ensures Closed(TaskStep(s, e))
  {
  }

  lemma ClosedKept(s: State, e: Event)
    requires Closed(s) && Shape(s)
    ensures Closed(Apply(s, e))
  {
    match e
    case Setup(x) => ClosedSetup(s, x);
    case Work(x) => ClosedWork(s, x);
    case Task(x) => ClosedTask(s, x);
    case Loop(x) =>
  }

  // ------------------------------------------------- connections lost in setup

  // A connection whose loss was noticed during its setup cannot be installed any more.
  ghost predicate Rejects(s: State)
  {
    forall c <- s.ledger.dropped ::
      && c < s.nextId && s.link.client != Some(c)
      && (s.holder.SettingUp? && s.holder.connection == c ==> s.holder.setupGeneration < s.link.generation)
  }

  lemma RejectsSetup(s: State, e: SetupEvent)
    requires Rejects(s) && Shape(s)
    ensures Rejects(SetupStep(s, e))
  {
  }

  lemma EnsureConnectedRejects(s: State, job: Job)
    requires Rejects(s) && s.holder == Nobody
    ensures Rejects(EnsureConnected(s, job))
  {
  }

  lemma ReleaseNextRejects(s: State)
    requires Rejects(s) && Shape(s) && (s.holder.Abandoning? || s.holder.Releasing?)
    ensures Rejects(ReleaseNext(s))
  {
  }

  lemma RejectsWork(s: State, e: WorkEvent)
    requires Rejects(s) && Shape(s)
    ensures Rejects(WorkStep(s, e))
  {
    if WorkStep(s, e) != s {
      match e
      case TakeLock(job) => EnsureConnectedRejects(s, job);
      case CleanNext => ReleaseNextRejects(s);
      case _ =>
    }
  }

  lemma RejectsTask(s: State, e: TaskEvent)
    requires Rejects(s)
    ensures Rejects(TaskStep(s, e))
  {
  }

  lemma RejectsLoop(s: State, e: LoopEvent)
    requires Rejects(s) && Shape(s)
    ensures Rejects(LoopStep(s, e))
  {
  }

  lemma RejectsKept(s: State, e: Event)
    requires Rejects(s) && Shape(s)
    ensures Rejects(Apply(s, e))
  {
    match e
    case Setup(x) => RejectsSetup(s, x);
    case Work(x) => RejectsWork(s, x);
    case Task(x) => RejectsTask(s, x);
    case Loop(x) => RejectsLoop(s, x);
  }
}
