/** What the cache holds and what entities are shown, in terms of the log of everything that happened. */
module CoordinatorHistory {
  import opened Bytes
  import opened Properties
  import opened CoordinatorModel
  import opened CoordinatorInvariants

  // ------------------------------------------------------- reading the log

  // Every property entry pushed, in arrival order.
  function PushesOf(log: seq<Entry>): seq<PropertyValue>
  {
    if log == [] then []
    else PushesOf(log[..|log| - 1])
         + (if log[|log| - 1].Pushed? then log[|log| - 1].entries else [])
  }

  datatype Shown = Nothing | Data(props: Props) | Failed

  // What entities were last told.
  function LastShown(log: seq<Entry>): Shown
  {
    if log == [] then Nothing else
    match log[|log| - 1]
    case Good(props, _, _) => Data(props)
    case Bad => Failed
    case _ => LastShown(log[..|log| - 1])
  }

  ghost predicate NoneInvalidated(log: seq<Entry>, from: nat, to: nat)
  {
    forall i :: from <= i < to <= |log| ==> !log[i].Invalidated?
  }

  // Entry k is the last completed poll, and entry b is where its request began.
  ghost predicate LastPoll(log: seq<Entry>, b: nat, k: nat)
  {
    && b < k < |log| && log[b].Began? && log[k].Completed?
    && (forall i :: b < i < k ==> !log[i].Began?)
    && (forall i :: k < i < |log| ==> !log[i].Completed?)
  }

  // The response of poll k overlaid, in arrival order, with every push since its request began.
  ghost function Replay(log: seq<Entry>, b: nat, k: nat): Props
    requires LastPoll(log, b, k)
  {
    Overlay(log[k].response, PushesOf(log[b..]))
  }

  // Every snapshot shown as good is the replay of the log up to that moment, and nothing was
  // invalidated since the poll behind it began.
  ghost predicate Justified(log: seq<Entry>, j: nat)
    requires j < |log| && log[j].Good?
  {
    var b, k := log[j].began, log[j].completed;
    && LastPoll(log[..j], b, k)
    && NoneInvalidated(log, b, j)
    && log[j].props == Replay(log[..j], b, k)
  }

  ghost predicate Honest(log: seq<Entry>)
  {
    forall j: nat :: j < |log| && log[j].Good? ==> Justified(log, j)
  }

  // ----------------------------------------------------------- longer logs

  lemma NoPushes(log: seq<Entry>)
    requires |log| <= 2 && forall e <- log :: !e.Pushed?
    ensures PushesOf(log) == []
  {
    if |log| == 2 {
      assert PushesOf(log[..1]) == [];
    }
  }

  lemma {:induction false} PushesAppend(a: seq<Entry>, b: seq<Entry>)
    ensures PushesOf(a + b) == PushesOf(a) + PushesOf(b)
    decreases |b|
  {
    if b == [] {
      assert a + b == a;
    } else {
      PushesAppend(a, b[..|b| - 1]);
      assert (a + b)[..|a + b| - 1] == a + b[..|b| - 1];
    }
  }

  lemma PushesSince(log: seq<Entry>, more: seq<Entry>, b: nat)
    requires b <= |log|
    ensures PushesOf((log + more)[b..]) == PushesOf(log[b..]) + PushesOf(more)
  {
    assert (log + more)[b..] == log[b..] + more;
    PushesAppend(log[b..], more);
  }

  lemma QuietSince(log: seq<Entry>, more: seq<Entry>, b: nat)
    requires b <= |log| && |more| <= 2 && forall e <- more :: !e.Pushed?
    ensures PushesOf((log + more)[b..]) == PushesOf(log[b..])
  {
    PushesSince(log, more, b);
    NoPushes(more);
  }

  // Entries that are neither polls nor invalidations leave the last poll where it is.
  lemma LongerLastPoll(log: seq<Entry>, more: seq<Entry>, b: nat, k: nat)
    requires LastPoll(log, b, k)
    requires forall e <- more :: !e.Completed?
    ensures LastPoll(log + more, b, k)
    ensures Replay(log + more, b, k) == Overlay(Replay(log, b, k), PushesOf(more))
  {
    PushesSince(log, more, b);
    OverlayAppend(log[k].response, PushesOf(log[b..]), PushesOf(more));
  }

  lemma LongerHonest(log: seq<Entry>, more: seq<Entry>)
    requires Honest(log) && forall e <- more :: !e.Good?
    ensures Honest(log + more)
  {
    var all := log + more;
    forall j: nat | j < |all| && all[j].Good? ensures Justified(all, j) {
      assert all[j] == log[j];
      assert all[..j] == log[..j];
    }
  }

  lemma HonestGood(log: seq<Entry>, good: Entry)
    requires Honest(log) && good.Good?
    requires LastPoll(log, good.began, good.completed)
    requires NoneInvalidated(log, good.began, |log|)
    requires good.props == Replay(log, good.began, good.completed)
    ensures Honest(log + [good])
  {
    var all := log + [good];
    forall j: nat | j < |all| && all[j].Good? ensures Justified(all, j) {
      assert all[..j] == log[..j];
      assert j == |log| ==> log[..j] == log;
    }
  }

  // ------------------------------------------------------------ the invariant

  // A current baseline means the cache is the replay of the log.
  ghost predicate Grounded(s: State)
  {
    s.cache.baseline.Some? ==>
      && LastPoll(s.past.log, s.past.basisAt, s.past.completedAt)
      && NoneInvalidated(s.past.log, s.past.basisAt, |s.past.log|)
      && s.cache.values == Replay(s.past.log, s.past.basisAt, s.past.completedAt)
  }

  ghost predicate PollBegan(log: seq<Entry>, b: nat)
  {
    b < |log| && log[b].Began? && forall i :: b < i < |log| ==> !log[i].Began?
  }

  // A poll in flight collects the pushes since it began, and notices every invalidation.
  ghost predicate InFlight(s: State)
  {
    s.holder.Requesting? && s.holder.job == Poll ==>
      && PollBegan(s.past.log, s.past.beganAt)
      && s.cache.pending == Overlay(map[], PushesOf(s.past.log[s.past.beganAt..]))
      && (s.link.generation == s.holder.generation ==> NoneInvalidated(s.past.log, s.past.beganAt, |s.past.log|))
  }

  // No update is lost: what entities see is the cache, or a publish for this session is queued.
  ghost predicate UpToDate(s: State)
  {
    s.cache.baseline.Some? ==>
      LastShown(s.past.log) == Data(s.cache.values) || s.cache.baseline.value in s.cache.queue
  }

  ghost predicate Recorded(s: State)
  {
    Grounded(s) && InFlight(s) && UpToDate(s) && Honest(s.past.log)
  }

  // Steps that touch neither cache nor log, and start no poll.
  ghost predicate Quiet(s: State, t: State)
  {
    && t.cache == s.cache && t.past == s.past && t.link.generation >= s.link.generation
    && (t.holder.Requesting? && t.holder.job == Poll ==> t.holder == s.holder)
  }

  lemma QuietRecorded(s: State, t: State)
    requires Recorded(s) && Shape(s) && Quiet(s, t)
    ensures Recorded(t)
  {
  }

  // Steps that drop the cache, and may report a failure.
  ghost predicate Dropped(s: State, t: State)
  {
    && t.cache.baseline.None? && !t.holder.Requesting?
    && (t.past == s.past || t.past == Logged(s.past, [Bad]))
  }

  lemma DroppedRecorded(s: State, t: State)
    requires Recorded(s) && Dropped(s, t)
    ensures Recorded(t)
  {
    LongerHonest(s.past.log, [Bad]);
  }

  lemma DisconnectRecorded(s: State, job: Job, after: After)
    requires Recorded(s)
    ensures Recorded(Disconnect(s, job, after))
  {
    DroppedRecorded(s, Disconnect(s, job, after));
  }

  lemma StartRequestRecorded(s: State, job: Job, session: Id, client: Id)
    requires Recorded(s)
    ensures Recorded(StartRequest(s, job, session, client))
  {
    if job == Poll {
      var log := s.past.log;
      LongerHonest(log, [Began]);
      if s.cache.baseline.Some? {
        LongerLastPoll(log, [Began], s.past.basisAt, s.past.completedAt);
      }
      assert (log + [Began])[|log|..] == [Began];
      assert (log + [Began])[..|log|] == log;
    }
  }

  lemma InstallRecorded(s: State)
    requires Recorded(s) && Shape(s) && s.holder.SettingUp?
    ensures Recorded(FinishSetup(s))
  {
    var c := s.holder.connection;
    var installed := s.(link := Link(Some(c), Some(c), Some(c), None, s.link.generation + 1));
    var armed := ArmIdleRelease(installed, c);
    if FinishSetup(s) == Install(s) {
      assert armed.cache == s.cache && armed.past == s.past && armed.holder == s.holder;
      StartRequestRecorded(armed, s.holder.job, c, c);
    } else {
      QuietRecorded(s, FinishSetup(s));
    }
  }

  lemma RecordedSetup(s: State, e: SetupEvent)
    requires Recorded(s) && Shape(s)
    ensures Recorded(SetupStep(s, e))
  {
    if SetupStep(s, e) != s {
      match e
      case DialFails(cancelled) =>
        if cancelled { QuietRecorded(s, SetupStep(s, e)); } else { DisconnectRecorded(s, s.holder.job, Raise); }
      case DialDone(_) => QuietRecorded(s, SetupStep(s, e));
      case Advance => QuietRecorded(s, SetupStep(s, e));
      case Fails(_) => QuietRecorded(s, SetupStep(s, e));
      case Ready => InstallRecorded(s);
    }
  }

  lemma PollReplay(log: seq<Entry>, b: nat, response: Props, pending: Props)
    requires PollBegan(log, b) && pending == Overlay(map[], PushesOf(log[b..]))
    ensures LastPoll(log + [Completed(response)], b, |log|)
    ensures Replay(log + [Completed(response)], b, |log|) == response + pending
  {
    QuietSince(log, [Completed(response)], b);
    OverlayMerge(response, PushesOf(log[b..]));
  }

  // A completed poll: the response overlaid with the pushes that raced it.
  lemma PollRecorded(s: State, plaintext: bytes)
    requires Recorded(s) && Shape(s) && s.holder.Requesting? && s.holder.job == Poll
    requires ParseResponse(plaintext).Ok? && StillCurrent(s)
    ensures Recorded(CompletePoll(s, plaintext))
  {
    var t := CompletePoll(s, plaintext);
    var log, b := s.past.log, s.past.beganAt;
    var response := Overlay(map[], ParseResponse(plaintext).value);
    var done := log + [Completed(response)];
    var good := Good(response + s.cache.pending, b, |log|);
    PollReplay(log, b, response, s.cache.pending);
    LongerHonest(log, [Completed(response)]);
    HonestGood(done, good);
    LongerLastPoll(done, [good], b, |log|);
    NoPushes([good]);
    assert t.past.log == done + [good];
  }

  lemma CompletePollRecorded(s: State, plaintext: bytes)
    requires Recorded(s) && Shape(s) && s.holder.Requesting? && s.holder.job == Poll
    ensures Recorded(CompletePoll(s, plaintext))
  {
    if ParseResponse(plaintext).Err? || !StillCurrent(s) {
      DisconnectRecorded(s, Poll, Raise);
    } else {
      PollRecorded(s, plaintext);
    }
  }

  lemma EnsureConnectedRecorded(s: State, job: Job)
    requires Recorded(s)
    ensures Recorded(EnsureConnected(s, job))
  {
    if s.tasks.shutdown {
      DisconnectRecorded(s, job, Raise);
    } else if Usable(s) {
      StartRequestRecorded(s, job, s.link.session.value, s.link.client.value);
    } else {
      DisconnectRecorded(s, job, Dial);
    }
  }

  lemma CompleteWriteRecorded(s: State)
    requires Recorded(s) && Shape(s) && s.holder.Requesting? && s.holder.job == Write
    ensures Recorded(CompleteWrite(s))
  {
    if StillCurrent(s) {
      QuietRecorded(s, CompleteWrite(s));
    } else {
      DisconnectRecorded(s, Write, Raise);
    }
  }

  lemma ReleaseNextRecorded(s: State)
    requires Recorded(s) && Shape(s) && (s.holder.Abandoning? || s.holder.Releasing?)
    ensures Recorded(ReleaseNext(s))
  {
    var t := ReleaseNext(s);
    assert s.cache.baseline.None?;
    if t.holder.Dialing? {
      QuietRecorded(s, t);
    } else {
      DroppedRecorded(s, t);
    }
  }

  lemma RecordedWork(s: State, e: WorkEvent)
    requires Recorded(s) && Shape(s)
    ensures Recorded(WorkStep(s, e))
  {
    if WorkStep(s, e) != s {
      match e
      case TakeLock(job) => EnsureConnectedRecorded(s, job);
      case PollAnswered(plaintext) => CompletePollRecorded(s, plaintext);
      case WriteAccepted => CompleteWriteRecorded(s);
      case RequestFails => DisconnectRecorded(s, s.holder.job, Raise);
      case RequestCancelled => QuietRecorded(s, s.(holder := Nobody));
      case CleanNext => ReleaseNextRecorded(s);
      case CleanCancelled => QuietRecorded(s, CancelRelease(s));
    }
  }

  lemma RecordedTask(s: State, e: TaskEvent)
    requires Recorded(s) && Shape(s)
    ensures Recorded(TaskStep(s, e))
  {
    if TaskStep(s, e) != s {
      match e
      case TimerFires(_) => QuietRecorded(s, TaskStep(s, e));
      case TimerLock(t) =>
        if s.link.client == Some(s.tasks.timers[t].client) { DroppedRecorded(s, TaskStep(s, e)); }
        else { QuietRecorded(s, TaskStep(s, e)); }
      case TimerStops(_) => QuietRecorded(s, TaskStep(s, e));
      case CleanupLock =>
        if s.link.client == s.tasks.cleanup { DroppedRecorded(s, TaskStep(s, e)); }
        else { QuietRecorded(s, TaskStep(s, e)); }
      case ShutdownRequested => QuietRecorded(s, TaskStep(s, e));
      case ShutdownLock => DroppedRecorded(s, TaskStep(s, e));
    }
  }

  lemma InvalidateRecorded(s: State, c: Id)
    requires Recorded(s) && Shape(s)
    ensures Recorded(Invalidate(s, c))
  {
    LongerHonest(s.past.log, [Invalidated, Bad]);
    if s.holder.Requesting? && s.holder.job == Poll {
      QuietSince(s.past.log, [Invalidated, Bad], s.past.beganAt);
    }
  }

  // The log grows and the cache with it.
  ghost predicate Grows(s: State, t: State, more: seq<Entry>)
  {
    && t.past == Logged(s.past, more)
    && (forall e <- more :: !e.Completed? && !e.Began? && !e.Invalidated?)
    && t.cache.baseline == s.cache.baseline
    && t.cache.values == Overlay(s.cache.values, PushesOf(more))
    && t.cache.pending == Overlay(s.cache.pending, PushesOf(more))
    && t.link == s.link && t.holder == s.holder
  }

  lemma GrowsGrounded(s: State, t: State, more: seq<Entry>)
    requires Grounded(s) && Grows(s, t, more)
    ensures Grounded(t)
  {
    if s.cache.baseline.Some? {
      LongerLastPoll(s.past.log, more, s.past.basisAt, s.past.completedAt);
    }
  }

  lemma GrowsInFlight(s: State, t: State, more: seq<Entry>)
    requires InFlight(s) && Grows(s, t, more)
    ensures InFlight(t)
  {
    if s.holder.Requesting? && s.holder.job == Poll {
      PushesSince(s.past.log, more, s.past.beganAt);
      OverlayAppend(map[], PushesOf(s.past.log[s.past.beganAt..]), PushesOf(more));
    }
  }

  lemma {:induction false} NoChanges(props: Props, entries: seq<PropertyValue>)
    requires !Changes(props, entries)
    ensures Overlay(props, entries) == props
    decreases |entries|
  {
    if entries != [] {
      NoChanges(props, entries[..|entries| - 1]);
    }
  }

  lemma MergeUpToDate(s: State, session: Id, entries: seq<PropertyValue>)
    requires UpToDate(s) && Shape(s) && s.link.session == Some(session)
    ensures UpToDate(s.(cache := Merge(s.cache, session, entries), past := Logged(s.past, [Pushed(entries)])))
  {
    var log := s.past.log;
    assert (log + [Pushed(entries)])[..|log|] == log;
    if !Changes(s.cache.values, entries) {
      NoChanges(s.cache.values, entries);
    }
  }

  lemma NotificationRecorded(s: State, session: Id, plaintext: bytes)
    requires Recorded(s) && Shape(s)
    ensures Recorded(HandleNotification(s, session, plaintext))
  {
    if s.link.session == Some(session) && ParseNotification(plaintext).Ok? {
      var entries := Kept(ParseNotification(plaintext).value);
      var t, more := HandleNotification(s, session, plaintext), [Pushed(entries)];
      assert PushesOf(more) == entries;
      GrowsGrounded(s, t, more);
      GrowsInFlight(s, t, more);
      LongerHonest(s.past.log, more);
      MergeUpToDate(s, session, entries);
    }
  }

  lemma PublishRecorded(s: State, session: Id)
    requires Recorded(s) && Shape(s)
    ensures Recorded(PublishNotificationUpdate(s, session))
  {
    var t := PublishNotificationUpdate(s, session);
    if s.link.session == Some(session) && s.cache.baseline == Some(session) {
      var good := Good(s.cache.values, s.past.basisAt, s.past.completedAt);
      HonestGood(s.past.log, good);
      NoPushes([good]);
      GrowsGrounded(s, t, [good]);
      GrowsInFlight(s, t, [good]);
    } else {
      assert t.past == s.past;
    }
  }

  lemma RecordedLoop(s: State, e: LoopEvent)
    requires Recorded(s) && Shape(s)
    ensures Recorded(LoopStep(s, e))
  {
    if LoopStep(s, e) != s {
      match e
      case LinkLost(_) => QuietRecorded(s, LoopStep(s, e));
      case DisconnectCallback(c) =>
        if s.link.connecting == Some(c) { QuietRecorded(s, LoopStep(s, e)); } else { InvalidateRecorded(s, c); }
      case SessionError(_) => InvalidateRecorded(s, s.link.client.value);
      case CountersExhausted(_) => QuietRecorded(s, LoopStep(s, e));
      case Push(session, plaintext) => NotificationRecorded(s, session, plaintext);
      case RunPublish(session) => PublishRecorded(s, session);
    }
  }

  lemma RecordedKept(s: State, e: Event)
    requires Recorded(s) && Shape(s)
    ensures Recorded(Apply(s, e))
  {
    match e
    case Setup(x) => RecordedSetup(s, x);
    case Work(x) => RecordedWork(s, x);
    case Task(x) => RecordedTask(s, x);
    case Loop(x) => RecordedLoop(s, x);
  }
}
