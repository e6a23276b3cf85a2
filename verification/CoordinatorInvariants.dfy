/** The state of the coordinator's connection and of its resources, over all interleavings. */
module CoordinatorInvariants {
  import opened Bytes
  import opened Properties
  import opened CoordinatorModel

  // ------------------------------------------------------- shape of the state

  ghost predicate HolderShape(s: State)
  {
    match s.holder
    case Nobody => true
    case Dialing(job, g) => job in {Poll, Write} && g <= s.link.generation && s.link.client.None?
    case SettingUp(job, _, c, g) =>
      job in {Poll, Write} && g <= s.link.generation && s.link.client.None? && c < s.nextId
    case Abandoning(job, left, _, _) => job in {Poll, Write} && s.link.client.None? && left != []
    case Requesting(job, session, client, g) =>
      job in {Poll, Write} && g <= s.link.generation && s.link.client == Some(client) && s.link.session == Some(session)
    case Releasing(job, left, after) =>
      (job in {Poll, Write} <==> after != Finish) && s.link.client.None? && left != []
  }

  // The three fields are all set, to one connection, or all empty; without a session there is no cache.
  ghost predicate Shape(s: State)
  {
    && s.link.auth == s.link.client && s.link.session == s.link.client
    && s.link.connecting == (if s.holder.SettingUp? then Some(s.holder.connection) else None)
    && HolderShape(s)
    && (s.link.client.Some? ==> s.link.client.value < s.nextId)
    && (s.link.session.None? ==> s.cache.values == map[] && s.cache.pending == map[])
    && (s.cache.baseline.Some? ==> s.cache.baseline == s.link.session)
    && (s.cache.publishPending ==> s.cache.baseline.Some? && s.cache.baseline.value in s.cache.queue)
  }

  lemma DisconnectShape(s: State, job: Job, after: After)
    requires Shape(s) && !s.holder.SettingUp? && (job in {Poll, Write} <==> after != Finish)
    ensures Shape(Disconnect(s, job, after))
  {
  }

  lemma InstallShape(s: State)
    requires Shape(s) && s.holder.SettingUp?
    ensures Shape(FinishSetup(s))
  {
  }

  lemma ShapeSetup(s: State, e: SetupEvent)
    requires Shape(s)
    ensures Shape(SetupStep(s, e))
  {
    if e.DialFails? && s.holder.Dialing? && !e.cancelled {
      DisconnectShape(s, s.holder.job, Raise);
    } else if e.Ready? && s.holder.SettingUp? {
      InstallShape(s);
    }
  }

  lemma EnsureConnectedShape(s: State, job: Job)
    requires Shape(s) && s.holder == Nobody && job in {Poll, Write}
    ensures Shape(EnsureConnected(s, job))
  {
    if s.tasks.shutdown {
      DisconnectShape(s, job, Raise);
    } else if !Usable(s) {
      DisconnectShape(s, job, Dial);
    }
  }

  lemma CompletePollShape(s: State, plaintext: bytes)
    requires Shape(s) && s.holder.Requesting? && s.holder.job == Poll
    ensures Shape(CompletePoll(s, plaintext))
  {
    if ParseResponse(plaintext).Err? || !StillCurrent(s) {
      DisconnectShape(s, Poll, Raise);
    }
  }

  lemma CompleteWriteShape(s: State)
    requires Shape(s) && s.holder.Requesting? && s.holder.job == Write
    ensures Shape(CompleteWrite(s))
  {
    if !StillCurrent(s) {
      DisconnectShape(s, Write, Raise);
    }
  }

  lemma ReleaseNextShape(s: State)
    requires Shape(s) && (s.holder.Abandoning? || s.holder.Releasing?)
    ensures Shape(ReleaseNext(s))
  {
    var done := s.(ledger := s.ledger.(attempted := s.ledger.attempted + multiset{s.holder.left[0]}));
    if s.holder.left[1..] == [] && s.holder.Abandoning? && !s.holder.cancelled {
      DisconnectShape(done, s.holder.job, Raise);
    }
  }

  lemma ShapeWork(s: State, e: WorkEvent)
    requires Shape(s)
    ensures Shape(WorkStep(s, e))
  {
    if WorkStep(s, e) != s {
      match e
      case TakeLock(job) => EnsureConnectedShape(s, job);
      case PollAnswered(plaintext) => CompletePollShape(s, plaintext);
      case WriteAccepted => CompleteWriteShape(s);
      case RequestFails => DisconnectShape(s, s.holder.job, Raise);
      case RequestCancelled =>
      case CleanNext => ReleaseNextShape(s);
      case CleanCancelled =>
    }
  }

  lemma ShapeTask(s: State, e: TaskEvent)
    requires Shape(s)
    ensures Shape(TaskStep(s, e))
  {
    if TaskStep(s, e) != s {
      match e
      case TimerLock(t) => DisconnectShape(s.(tasks := SetPhase(s.tasks, t, Inside)), Idle(t), Finish);
      case CleanupLock => DisconnectShape(s, Cleanup, Finish);
      case ShutdownLock =>
        var silenced := s.tasks.(timers := Cancel(s.tasks.timers, s.tasks.idle), idle := None);
        DisconnectShape(s.(tasks := silenced), Shutdown, Finish);
      case _ =>
    }
  }

  lemma ShapeLoop(s: State, e: LoopEvent)
    requires Shape(s)
    ensures Shape(LoopStep(s, e))
  {
  }

  lemma ShapeKept(s: State, e: Event)
    requires Shape(s)
    ensures Shape(Apply(s, e))
  {
    match e
    case Setup(x) => ShapeSetup(s, x);
    case Work(x) => ShapeWork(s, x);
    case Task(x) => ShapeTask(s, x);
    case Loop(x) => ShapeLoop(s, x);
  }

  // ------------------------------------------------------------ the generation

  lemma DisconnectGeneration(s: State, job: Job, after: After)
    ensures Disconnect(s, job, after).link.generation >= s.link.generation
  {
  }

  lemma ReleaseNextGeneration(s: State)
    requires (s.holder.Abandoning? || s.holder.Releasing?) && s.holder.left != []
    ensures ReleaseNext(s).link.generation >= s.link.generation
  {
  }

  lemma CompletePollGeneration(s: State, plaintext: bytes)
    requires s.holder.Requesting?
    ensures CompletePoll(s, plaintext).link.generation >= s.link.generation
  {
  }

  lemma CompleteWriteGeneration(s: State)
    requires s.holder.Requesting?
    ensures CompleteWrite(s).link.generation >= s.link.generation
  {
  }

  lemma EnsureConnectedGeneration(s: State, job: Job)
    ensures EnsureConnected(s, job).link.generation >= s.link.generation
  {
  }

  lemma WorkGeneration(s: State, e: WorkEvent)
    ensures WorkStep(s, e).link.generation >= s.link.generation
  {
    if WorkStep(s, e) != s {
      match e
      case TakeLock(job) => EnsureConnectedGeneration(s, job);
      case PollAnswered(plaintext) => CompletePollGeneration(s, plaintext);
      case WriteAccepted => CompleteWriteGeneration(s);
      case RequestFails => DisconnectGeneration(s, s.holder.job, Raise);
      case RequestCancelled =>
      case CleanNext => ReleaseNextGeneration(s);
      case CleanCancelled =>
    }
  }

  lemma TaskGeneration(s: State, e: TaskEvent)
    ensures TaskStep(s, e).link.generation >= s.link.generation
  {
  }

  lemma GenerationNeverDecreases(s: State, e: Event)
    ensures Apply(s, e).link.generation >= s.link.generation
  {
    match e
    case Setup(x) =>
    case Work(x) => WorkGeneration(s, x);
    case Task(x) => TaskGeneration(s, x);
    case Loop(x) =>
  }

  // ----------------------------------------------------- every resource, somewhere

  function FieldOf(link: Link, kind: Kind): Option<Id>
  {
    match kind
    case SessionObject => link.session
    case AuthObject => link.auth
    case ClientObject => link.client
  }

  predicate IsBuilt(stage: Stage, kind: Kind)
  {
    match kind
    case SessionObject => stage == WithSession
    case AuthObject => stage != Bare
    case ClientObject => true
  }

  function Times(b: bool): nat
  {
    if b then 1 else 0
  }

  predicate InSetup(h: Holder, r: Resource)
  {
    h.SettingUp? && h.connection == r.id && IsBuilt(h.stage, r.kind)
  }

  function Left(h: Holder): seq<Resource>
  {
    if h.Abandoning? || h.Releasing? then h.left else []
  }

  lemma CountOne(kind: Kind, id: Option<Id>, r: Resource)
    ensures multiset(One(kind, id))[r] == Times(kind == r.kind && id == Some(r.id))
  {
  }

  lemma CountConcat(a: seq<Resource>, b: seq<Resource>, r: Resource)
    ensures multiset(a + b)[r] == multiset(a)[r] + multiset(b)[r]
  {
  }

  lemma CountAttached(link: Link, r: Resource)
    ensures multiset(Attached(link))[r] == Times(FieldOf(link, r.kind) == Some(r.id))
  {
    var a, b, c := One(SessionObject, link.session), One(AuthObject, link.auth), One(ClientObject, link.client);
    CountConcat(a + b, c, r);
    CountConcat(a, b, r);
    CountOne(SessionObject, link.session, r);
    CountOne(AuthObject, link.auth, r);
    CountOne(ClientObject, link.client, r);
  }

  lemma CountBuilt(stage: Stage, c: Id, r: Resource)
    ensures multiset(Built(stage, c))[r] == Times(r.id == c && IsBuilt(stage, r.kind))
  {
  }

  lemma CountFirst(left: seq<Resource>, r: Resource)
    requires left != []
    ensures multiset(left)[r] == Times(left[0] == r) + multiset(left[1..])[r]
  {
    assert left == [left[0]] + left[1..];
  }

  // A created resource is in exactly one place: in setup, installed, or handed to clean-up. Once handed
  // over it was released, is waiting for it, or was left behind by a cancelled clean-up.
  ghost predicate Accounted(s: State, r: Resource)
  {
    && s.ledger.created[r]
        == Times(InSetup(s.holder, r)) + Times(FieldOf(s.link, r.kind) == Some(r.id)) + s.ledger.handed[r]
    && s.ledger.handed[r] == s.ledger.attempted[r] + multiset(Left(s.holder))[r] + s.ledger.abandoned[r]
    && s.ledger.created[r] <= 1
    && (r.id >= s.nextId ==> s.ledger.created[r] == 0)
    && (s.holder.SettingUp? && s.holder.connection == r.id && !IsBuilt(s.holder.stage, r.kind)
        ==> s.ledger.created[r] == 0)
  }

  ghost predicate SameBooks(s: State, t: State)
  {
    && t.link.client == s.link.client && t.link.auth == s.link.auth && t.link.session == s.link.session
    && t.ledger.(dropped := {}) == s.ledger.(dropped := {})
    && (t.holder == s.holder || (Left(t.holder) == Left(s.holder) && !t.holder.SettingUp? && !s.holder.SettingUp?))
    && t.nextId >= s.nextId
  }

  lemma SameBooksAccounted(s: State, t: State, r: Resource)
    requires Accounted(s, r) && SameBooks(s, t)
    ensures Accounted(t, r)
  {
  }

  lemma HandedOver(s: State, t: State, left: seq<Resource>, r: Resource)
    requires Accounted(s, r) && Left(s.holder) == [] && !s.holder.SettingUp?
    requires multiset(left)[r] == Times(FieldOf(s.link, r.kind) == Some(r.id))
    requires t.link.client == t.link.auth == t.link.session == None
    requires t.ledger == s.ledger.(handed := s.ledger.handed + multiset(left))
    requires !t.holder.SettingUp? && Left(t.holder) == left && t.nextId == s.nextId
    ensures Accounted(t, r)
  {
  }

  lemma DisconnectAccounted(s: State, job: Job, after: After, r: Resource)
    requires Accounted(s, r) && Left(s.holder) == [] && !s.holder.SettingUp?
    ensures Accounted(Disconnect(s, job, after), r)
  {
    CountAttached(s.link, r);
    HandedOver(s, Disconnect(s, job, after), Attached(s.link), r);
  }

  lemma DialedAccounted(s: State, up: bool, r: Resource)
    requires Accounted(s, r) && s.holder.Dialing?
    ensures Accounted(ConnectionDialed(s, up), r)
  {
  }

  lemma NextStageAccounted(s: State, r: Resource)
    requires Accounted(s, r) && Shape(s) && s.holder.SettingUp?
    ensures Accounted(NextStage(s), r)
  {
  }

  lemma AbandonSetupAccounted(s: State, cancelled: bool, r: Resource)
    requires Accounted(s, r) && s.holder.SettingUp?
    ensures Accounted(AbandonSetup(s, cancelled), r)
  {
    CountBuilt(s.holder.stage, s.holder.connection, r);
  }

  lemma InstallAccounted(s: State, r: Resource)
    requires Accounted(s, r) && Shape(s) && s.holder.SettingUp? && s.holder.stage == WithSession
    ensures Accounted(Install(s), r)
  {
  }

  lemma AccountedSetup(s: State, e: SetupEvent, r: Resource)
    requires Accounted(s, r) && Shape(s)
    ensures Accounted(SetupStep(s, e), r)
  {
    if SetupStep(s, e) != s {
      match e
      case DialFails(_) => DisconnectAccounted(s, s.holder.job, Raise, r);
      case DialDone(up) => DialedAccounted(s, up, r);
      case Advance => NextStageAccounted(s, r);
      case Fails(cancelled) => AbandonSetupAccounted(s, cancelled, r);
      case Ready => AbandonSetupAccounted(s, false, r); InstallAccounted(s, r);
    }
  }

  // With the last resource released the holder has nothing left, whatever it does next.
  lemma LastReleased(s: State, done: State, r: Resource)
    requires Accounted(s, r) && (s.holder.Abandoning? || s.holder.Releasing?)
    requires s.holder.left != [] && s.holder.left[1..] == []
    requires done == s.(holder := Nobody,
                        ledger := s.ledger.(attempted := s.ledger.attempted + multiset{s.holder.left[0]}))
    ensures Accounted(done, r)
  {
    CountFirst(s.holder.left, r);
  }

  lemma DisconnectForgetsHolder(s: State, job: Job, after: After)
    ensures Disconnect(s, job, after) == Disconnect(s.(holder := Nobody), job, after)
  {
  }

  lemma AfterLastReleased(s: State, r: Resource)
    requires Accounted(s, r) && Shape(s) && (s.holder.Abandoning? || s.holder.Releasing?)
    requires s.holder.left[1..] == []
    ensures Accounted(ReleaseNext(s), r)
  {
    var released := s.(ledger := s.ledger.(attempted := s.ledger.attempted + multiset{s.holder.left[0]}));
    var done := released.(holder := Nobody);
    LastReleased(s, done, r);
    if s.holder.Abandoning? && !s.holder.cancelled {
      DisconnectForgetsHolder(released, s.holder.job, Raise);
      DisconnectAccounted(done, s.holder.job, Raise, r);
    } else {
      SameBooksAccounted(done, ReleaseNext(s), r);
    }
  }

  lemma ReleaseNextAccounted(s: State, r: Resource)
    requires Accounted(s, r) && Shape(s) && (s.holder.Abandoning? || s.holder.Releasing?)
    ensures Accounted(ReleaseNext(s), r)
  {
    if s.holder.left[1..] == [] {
      AfterLastReleased(s, r);
    } else {
      CountFirst(s.holder.left, r);
    }
  }

  lemma CancelReleaseAccounted(s: State, r: Resource)
    requires Accounted(s, r) && (s.holder.Abandoning? || s.holder.Releasing?)
    ensures Accounted(CancelRelease(s), r)
  {
  }

  lemma EnsureConnectedAccounted(s: State, job: Job, r: Resource)
    requires Accounted(s, r) && s.holder == Nobody
    ensures Accounted(EnsureConnected(s, job), r)
  {
    if s.tasks.shutdown {
      DisconnectAccounted(s, job, Raise, r);
    } else if Usable(s) {
      SameBooksAccounted(s, EnsureConnected(s, job), r);
    } else {
      DisconnectAccounted(s, job, Dial, r);
    }
  }

  lemma CompletePollAccounted(s: State, plaintext: bytes, r: Resource)
    requires Accounted(s, r) && s.holder.Requesting?
    ensures Accounted(CompletePoll(s, plaintext), r)
  {
    if ParseResponse(plaintext).Err? || !StillCurrent(s) {
      DisconnectAccounted(s, Poll, Raise, r);
    } else {
      SameBooksAccounted(s, CompletePoll(s, plaintext), r);
    }
  }

  lemma CompleteWriteAccounted(s: State, r: Resource)
    requires Accounted(s, r) && s.holder.Requesting?
    ensures Accounted(CompleteWrite(s), r)
  {
    if !StillCurrent(s) {
      DisconnectAccounted(s, Write, Raise, r);
    } else {
      SameBooksAccounted(s, CompleteWrite(s), r);
    }
  }

  lemma AccountedWork(s: State, e: WorkEvent, r: Resource)
    requires Accounted(s, r) && Shape(s)
    ensures Accounted(WorkStep(s, e), r)
  {
    if WorkStep(s, e) != s {
      match e
      case TakeLock(job) => EnsureConnectedAccounted(s, job, r);
      case PollAnswered(plaintext) => CompletePollAccounted(s, plaintext, r);
      case WriteAccepted => CompleteWriteAccounted(s, r);
      case RequestFails => DisconnectAccounted(s, s.holder.job, Raise, r);
      case RequestCancelled =>
      case CleanNext => ReleaseNextAccounted(s, r);
      case CleanCancelled => CancelReleaseAccounted(s, r);
    }
  }

  lemma AccountedTask(s: State, e: TaskEvent, r: Resource)
    requires Accounted(s, r) && Shape(s)
    ensures Accounted(TaskStep(s, e), r)
  {
    if TaskStep(s, e) != s {
      match e
      case TimerLock(t) => DisconnectAccounted(s.(tasks := SetPhase(s.tasks, t, Inside)), Idle(t), Finish, r);
      case CleanupLock => DisconnectAccounted(s, Cleanup, Finish, r);
      case ShutdownLock =>
        var silenced := s.tasks.(timers := Cancel(s.tasks.timers, s.tasks.idle), idle := None);
        DisconnectAccounted(s.(tasks := silenced), Shutdown, Finish, r);
      case _ =>
    }
  }

  lemma AccountedLoop(s: State, e: LoopEvent, r: Resource)
    requires Accounted(s, r)
    ensures Accounted(LoopStep(s, e), r)
  {
    SameBooksAccounted(s, LoopStep(s, e), r);
  }

  lemma AccountedKept(s: State, e: Event, r: Resource)
    requires Accounted(s, r) && Shape(s)
    ensures Accounted(Apply(s, e), r)
  {
    match e
    case Setup(x) => AccountedSetup(s, x, r);
    case Work(x) => AccountedWork(s, x, r);
    case Task(x) => AccountedTask(s, x, r);
    case Loop(x) => AccountedLoop(s, x, r);
  }
}
