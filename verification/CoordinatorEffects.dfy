/**
 * What the coordinator does, not only what it never does: when a poll or write counts, what a push leaves
 * in the tables, how a connection comes up and goes down, and who is told.
 */
module CoordinatorEffects {
  import opened Bytes
  import opened Properties
  import opened CoordinatorModel
  import opened CoordinatorInvariants
  import opened CoordinatorHistory
  import opened CoordinatorLease
  import opened CoordinatorTheorems

  // ---------------------------------------------------------------- look-ups

  // The last entry of a list for one property.
  function LastFor(entries: seq<PropertyValue>, key: Key): Option<PropertyValue>
    decreases |entries|
  {
    if entries == [] then None
    else if entries[|entries| - 1].Key() == key then Some(entries[|entries| - 1])
    else LastFor(entries[..|entries| - 1], key)
  }

  function ValueAt(props: Props, key: Key): Option<PropertyValue>
  {
    if key in props then Some(props[key]) else None
  }

  function OrElse(first: Option<PropertyValue>, second: Option<PropertyValue>): Option<PropertyValue>
  {
    if first.Some? then first else second
  }

  lemma {:induction false} OverlayLookup(props: Props, entries: seq<PropertyValue>, key: Key)
    ensures ValueAt(Overlay(props, entries), key) == OrElse(LastFor(entries, key), ValueAt(props, key))
    decreases |entries|
  {
    if entries != [] {
      OverlayLookup(props, entries[..|entries| - 1], key);
    }
  }

  // Nothing is installed and nothing is cached.
  predicate Empty(s: State)
  {
    && s.link.client.None? && s.link.auth.None? && s.link.session.None?
    && s.cache.values == map[] && s.cache.pending == map[] && s.cache.baseline.None?
  }

  // The step told entities nothing good.
  predicate NothingGood(s: State, t: State)
  {
    t.past.log == s.past.log || t.past.log == s.past.log + [Bad]
  }

  // The connection that the lock holder started with is still the current one.
  predicate SameConnection(s: State)
    requires s.holder.Requesting?
  {
    && s.link.generation == s.holder.generation
    && s.link.session == Some(s.holder.session) && s.link.client == Some(s.holder.client)
    && s.holder.client in s.radio.connected
  }

  // -------------------------------------------------------------- end of a poll

  // The snapshot of an answered poll is shown and becomes the baseline; the lock is free.
  ghost predicate PollCounts(s: State, t: State)
  {
    && t.holder == Nobody && t.link == s.link && t.tasks == s.tasks && t.radio == s.radio && t.ledger == s.ledger
    && t.cache.baseline == s.link.session && t.cache.pending == map[] && t.cache.queue == s.cache.queue
    && LastShown(t.past.log) == Data(t.cache.values)
  }

  lemma PollShown(s: State, plaintext: bytes, pushes: seq<PropertyValue>)
    requires s.holder.Requesting? && s.holder.job == Poll && SameConnection(s) && ParseResponse(plaintext).Ok?
    requires s.cache.pending == Overlay(map[], pushes)
    ensures var t := Apply(s, Work(PollAnswered(plaintext)));
            && PollCounts(s, t)
            && t.cache.values == Overlay(map[], ParseResponse(plaintext).value) + Overlay(map[], pushes)
  {
    var t := Apply(s, Work(PollAnswered(plaintext)));
    assert t.past.log[|t.past.log| - 1] == Good(t.cache.values, s.past.beganAt, |s.past.log|);
  }

  lemma TwoTables(entries: seq<PropertyValue>, pushes: seq<PropertyValue>, key: Key)
    ensures ValueAt(Overlay(map[], entries) + Overlay(map[], pushes), key)
            == OrElse(LastFor(pushes, key), LastFor(entries, key))
  {
    OverlayLookup(map[], entries, key);
    OverlayLookup(map[], pushes, key);
  }

  lemma PollRefused(s: State, plaintext: bytes)
    requires Shape(s) && s.holder.Requesting? && s.holder.job == Poll
    requires ParseResponse(plaintext).Err? || !SameConnection(s)
    ensures var t := Apply(s, Work(PollAnswered(plaintext)));
            && Empty(t) && t.past == s.past && t.holder == Releasing(Poll, ThreeOf(s.holder.client), Raise)
  {
    DetachesAll(s, Poll, Raise);
  }

  // Each property has the value last pushed, or else the response's.
  ghost predicate HoldsLatest(values: Props, response: seq<PropertyValue>, pushes: seq<PropertyValue>)
  {
    forall key: Key :: ValueAt(values, key) == OrElse(LastFor(pushes, key), LastFor(response, key))
  }

  // A poll's answer is shown if and only if it parses and the connection is still the one the poll started
  // with. Then every property has the value last pushed since the request began, or else the response's.
  // In every other case nothing is shown and the connection is dropped.
  lemma PollEnds(lease: bool, events: seq<Event>, plaintext: bytes, b: nat)
    requires var s := Run(Initial(lease), events);
             s.holder.Requesting? && s.holder.job == Poll && PollBegan(s.past.log, b)
    ensures var s := Run(Initial(lease), events);
            var t := Apply(s, Work(PollAnswered(plaintext)));
            if ParseResponse(plaintext).Ok? && SameConnection(s)
            then PollCounts(s, t)
                 && HoldsLatest(t.cache.values, ParseResponse(plaintext).value, PushesOf(s.past.log[b..]))
            else Empty(t) && t.past == s.past && t.holder == Releasing(Poll, ThreeOf(s.holder.client), Raise)
  {
    UpheldRun(lease, events);
    var s := Run(Initial(lease), events);
    assert s.past.beganAt == b;
    if ParseResponse(plaintext).Ok? && SameConnection(s) {
      var entries, pushes := ParseResponse(plaintext).value, PushesOf(s.past.log[b..]);
      PollShown(s, plaintext, pushes);
      forall key: Key
        ensures ValueAt(Overlay(map[], entries) + Overlay(map[], pushes), key)
                == OrElse(LastFor(pushes, key), LastFor(entries, key))
      {
        TwoTables(entries, pushes, key);
      }
    } else {
      PollRefused(s, plaintext);
    }
  }

  // ------------------------------------------------------------------- a push

  // The k-th entry changes the table as it is then.
  ghost predicate ChangesAt(props: Props, entries: seq<PropertyValue>, k: nat)
  {
    k < |entries| && Overlay(props, entries[..k]) != Overlay(props, entries[..k + 1])
  }

  ghost predicate SomeChange(props: Props, entries: seq<PropertyValue>)
  {
    exists k: nat :: ChangesAt(props, entries, k)
  }

  lemma ChangesAtEarlier(props: Props, entries: seq<PropertyValue>, k: nat)
    requires k + 1 < |entries|
    ensures ChangesAt(props, entries, k) == ChangesAt(props, entries[..|entries| - 1], k)
  {
    var before := entries[..|entries| - 1];
    assert before[..k] == entries[..k] && before[..k + 1] == entries[..k + 1];
  }

  lemma ChangesAtLast(props: Props, entries: seq<PropertyValue>)
    requires entries != []
    ensures ChangesAt(props, entries, |entries| - 1)
            <==> Overlay(props, entries[..|entries| - 1]) != Overlay(props, entries)
  {
    assert entries[..|entries|] == entries;
  }

  lemma {:induction false} ChangesIff(props: Props, entries: seq<PropertyValue>)
    ensures Changes(props, entries) <==> SomeChange(props, entries)
    decreases |entries|
  {
    if entries != [] {
      var before := entries[..|entries| - 1];
      ChangesIff(props, before);
      ChangesAtLast(props, entries);
      LastChanges(Overlay(props, before), entries[|entries| - 1]);
      if k: nat :| ChangesAt(props, before, k) {
        ChangesAtEarlier(props, entries, k);
      }
      if k: nat :| ChangesAt(props, entries, k) && k + 1 < |entries| {
        ChangesAtEarlier(props, entries, k);
      }
    }
  }

  lemma LastChanges(props: Props, item: PropertyValue)
    ensures props != props[item.Key() := item] <==> item.Key() !in props || props[item.Key()] != item
  {
    if item.Key() in props && props[item.Key()] == item {
      assert props[item.Key() := item] == props;
    } else {
      assert props[item.Key() := item][item.Key()] == item;
    }
  }

  lemma {:induction false} AllKept(entries: seq<PropertyValue>)
    requires forall e <- entries :: e.status == 0
    ensures Kept(entries) == entries
    decreases |entries|
  {
    if entries != [] {
      AllKept(entries[..|entries| - 1]);
    }
  }

  // The table after a push holds, for each property, the event's last value or else the one before.
  ghost predicate TakesOver(before: Props, after: Props, entries: seq<PropertyValue>)
  {
    forall key: Key :: ValueAt(after, key) == OrElse(LastFor(entries, key), ValueAt(before, key))
  }

  // A publish is queued if and only if the baseline is this session, none is pending, and the entries changed
  // something.
  ghost predicate QueuesIfDue(before: Cache, after: Cache, session: Id, entries: seq<PropertyValue>)
  {
    var due := before.baseline == Some(session) && !before.publishPending && SomeChange(before.values, entries);
    && after.queue == before.queue + (if due then multiset{session} else multiset{})
    && after.publishPending == (before.publishPending || due)
  }

  lemma OverlayTakesOver(props: Props, entries: seq<PropertyValue>)
    ensures TakesOver(props, Overlay(props, entries), entries)
  {
    forall key: Key
      ensures ValueAt(Overlay(props, entries), key) == OrElse(LastFor(entries, key), ValueAt(props, key))
    {
      OverlayLookup(props, entries, key);
    }
  }

  // Every event of the installed session that parses is merged into both tables, is logged as one push with
  // these entries, and queues a publish if one is due. Anything else changes nothing.
  lemma PushIsMerged(lease: bool, events: seq<Event>, session: Id, plaintext: bytes)
    ensures var s := Run(Initial(lease), events);
            var t := Apply(s, Loop(Push(session, plaintext)));
            if s.link.session == Some(session) && ParseNotification(plaintext).Ok? then
              var entries := ParseNotification(plaintext).value;
              && t == s.(cache := t.cache, past := t.past) && t.past.log == s.past.log + [Pushed(entries)]
              && TakesOver(s.cache.values, t.cache.values, entries)
              && TakesOver(s.cache.pending, t.cache.pending, entries)
              && QueuesIfDue(s.cache, t.cache, session, entries) && t.cache.baseline == s.cache.baseline
            else t == s
  {
    var s := Run(Initial(lease), events);
    if s.link.session == Some(session) && ParseNotification(plaintext).Ok? {
      var entries := ParseNotification(plaintext).value;
      EventEntriesHaveNoStatus(plaintext, 6, plaintext[5] as nat);
      AllKept(entries);
      ChangesIff(s.cache.values, entries);
      OverlayTakesOver(s.cache.values, entries);
      OverlayTakesOver(s.cache.pending, entries);
    }
  }

  // A queued publish shows the table if and only if its session is still installed and is the baseline.
  lemma PublishShowsIff(s: State, session: Id)
    requires session in s.cache.queue
    ensures var t := Apply(s, Loop(RunPublish(session)));
            && (if s.link.session == Some(session) && s.cache.baseline == Some(session)
                then |t.past.log| == |s.past.log| + 1 && LastShown(t.past.log) == Data(s.cache.values)
                else t.past.log == s.past.log)
            && !t.cache.publishPending && t.cache.queue == s.cache.queue - multiset{session}
            && t.cache.values == s.cache.values && t.cache.pending == s.cache.pending
            && t.cache.baseline == s.cache.baseline && t.link == s.link && t.holder == s.holder && t.tasks == s.tasks
  {
    var t := Apply(s, Loop(RunPublish(session)));
    if t.past.log != s.past.log {
      assert t.past.log[|s.past.log|].Good?;
    }
  }

  // ------------------------------------------------------------ end of a write

  // A write counts if and only if the connection is still the one it started with. Then it changes nothing
  // but the lease: every earlier timer is off, and with a positive lease a new one sleeps for this client.
  lemma WriteEnds(lease: bool, events: seq<Event>)
    requires var s := Run(Initial(lease), events); s.holder.Requesting? && s.holder.job == Write
    ensures var s := Run(Initial(lease), events);
            var t := Apply(s, Work(WriteAccepted));
            if SameConnection(s) then
              && t.holder == Nobody && t.link == s.link && t.cache == s.cache && t.past == s.past
              && t.ledger == s.ledger
              && (forall i <- s.tasks.timers :: i in t.tasks.timers && t.tasks.timers[i].phase !in {Sleeping, Waiting})
              && (if lease then
                    && t.tasks.idle.Some? && t.tasks.idle.value !in s.tasks.timers
                    && t.tasks.idle.value in t.tasks.timers
                    && t.tasks.timers[t.tasks.idle.value] == Timer(s.holder.client, Sleeping)
                  else t.tasks.idle.None?)
            else Empty(t) && NothingGood(s, t)
  {
    UpheldRun(lease, events);
    LeaseIsConstant(lease, events);
  }

  // A request that fails drops the connection; one that is cancelled only gives the lock back.
  lemma RequestEndsEarly(s: State)
    requires Shape(s) && s.holder.Requesting?
    ensures var t := Apply(s, Work(RequestFails)); Empty(t) && NothingGood(s, t)
    ensures Apply(s, Work(RequestCancelled)) == s.(holder := Nobody)
  {
  }

  // ------------------------------------------------------------- cleaning up

  // Release after release.
  function CleanNexts(n: nat): seq<Event>
  {
    if n == 0 then [] else CleanNexts(n - 1) + [Work(CleanNext)]
  }

  // What a lock holder goes on to once everything is released.
  ghost predicate Released(s: State, t: State)
    requires s.holder.Releasing?
  {
    match s.holder.after
    case Dial => t.holder == Dialing(s.holder.job, s.link.generation) && t.tasks == s.tasks && t.past == s.past
    case Raise =>
      && t.holder == Nobody && t.tasks == s.tasks
      && t.past.log == s.past.log + (if s.holder.job == Poll then [Bad] else [])
    case Finish =>
      && t.holder == Nobody && t.past == s.past
      && match s.holder.job
         case Cleanup => t.tasks == s.tasks.(cleanup := None)
         case Shutdown => t.tasks == s.tasks.(released := true)
         case Idle(i) =>
           && (i in s.tasks.timers ==> i in t.tasks.timers && t.tasks.timers[i].phase == Done)
           && t.tasks.idle == (if s.tasks.idle == Some(i) && i in s.tasks.timers then None else s.tasks.idle)
           && t.tasks.cleanup == s.tasks.cleanup && t.tasks.released == s.tasks.released
         case _ => t.tasks == s.tasks
  }

  lemma NextRelease(s: State)
    requires s.holder.Releasing? && s.holder.left != []
    ensures var t := Apply(s, Work(CleanNext));
            && t.ledger == s.ledger.(attempted := s.ledger.attempted + multiset{s.holder.left[0]})
            && t.link == s.link && t.cache == s.cache && t.radio == s.radio && t.nextId == s.nextId
            && t.lease == s.lease
            && if |s.holder.left| > 1 then
                 t.holder == s.holder.(left := s.holder.left[1..]) && t.tasks == s.tasks && t.past == s.past
               else Released(s, t)
  {
  }

  ghost predicate RanToItsEnd(s: State, t: State)
    requires s.holder.Releasing?
  {
    && t.ledger == s.ledger.(attempted := s.ledger.attempted + multiset(s.holder.left))
    && t.link == s.link && t.cache == s.cache && t.radio == s.radio && t.nextId == s.nextId && t.lease == s.lease
    && Released(s, t)
  }

  lemma ReleasedBehind(s: State, t: State)
    requires s.holder.Releasing? && |s.holder.left| > 1 && t.holder.Releasing?
    requires t.holder == s.holder.(left := s.holder.left[1..])
    requires t.link == s.link && t.tasks == s.tasks && t.past == s.past
    ensures forall u: State :: Released(t, u) ==> Released(s, u)
  {
  }

  lemma CountsAddUp(attempted: multiset<Resource>, left: seq<Resource>)
    requires left != []
    ensures attempted + multiset{left[0]} + multiset(left[1..]) == attempted + multiset(left)
  {
    assert left == [left[0]] + left[1..];
  }

  // The releases go through the list in order, one each, and then the lock holder goes on with what it was
  // about to do: it raises and a failed poll is shown, it dials, or it is finished.
  lemma {:induction false} ReleaseRunsToItsEnd(s: State)
    requires s.holder.Releasing? && s.holder.left != []
    ensures RanToItsEnd(s, Run(s, CleanNexts(|s.holder.left|)))
    decreases |s.holder.left|
  {
    var left := s.holder.left;
    var t := Apply(s, Work(CleanNext));
    NextRelease(s);
    CountsAddUp(s.ledger.attempted, left);
    OneEvent(s, Work(CleanNext));
    if |left| == 1 {
      assert CleanNexts(1) == [Work(CleanNext)];
    } else {
      ReleaseRunsToItsEnd(t);
      CleanNextFirst(|left| - 1);
      RunSplit(s, [Work(CleanNext)], CleanNexts(|left| - 1));
      ReleasedBehind(s, t);
    }
  }

  lemma OneEvent(s: State, e: Event)
    ensures Run(s, [e]) == Apply(s, e)
  {
    assert [e][..0] == [];
  }

  lemma {:induction false} CleanNextFirst(n: nat)
    ensures CleanNexts(n + 1) == [Work(CleanNext)] + CleanNexts(n)
  {
    if n > 0 {
      CleanNextFirst(n - 1);
    }
  }

  // The three resources of an installed connection, in the order in which they are released.
  function ThreeOf(c: Id): seq<Resource>
  {
    [Resource(SessionObject, c), Resource(AuthObject, c), Resource(ClientObject, c)]
  }

  // `_disconnect` by a lock holder: the fields are empty at once and what was attached is being released.
  lemma DetachesAll(s: State, job: Job, after: After)
    requires Shape(s) && s.link.client.Some?
    ensures var t := Disconnect(s, job, after);
            && Empty(t) && t.holder == Releasing(job, ThreeOf(s.link.client.value), after)
            && t.ledger == s.ledger.(handed := s.ledger.handed + multiset(ThreeOf(s.link.client.value)))
            && t.tasks == s.tasks && t.past == s.past && t.link.generation == s.link.generation + 1
            && t.radio == s.radio && t.nextId == s.nextId && t.lease == s.lease
            && t.link.connecting == s.link.connecting
  {
    assert Attached(s.link) == ThreeOf(s.link.client.value);
  }

  // A clean-up task with the lock detaches and releases its own client, if it is still installed, and only
  // that; then the task is over.
  lemma CleanupReleasesItsClient(s: State)
    requires Shape(s) && s.holder == Nobody && s.tasks.cleanup.Some?
    ensures var c := s.tasks.cleanup.value;
            var t := Apply(s, Task(CleanupLock));
            if s.link.client == Some(c) then
              var done := Run(t, CleanNexts(3));
              && Empty(t) && Empty(done) && done.holder == Nobody && done.tasks == s.tasks.(cleanup := None)
              && done.ledger.attempted == s.ledger.attempted + multiset(ThreeOf(c)) && done.past == s.past
            else t == s.(tasks := s.tasks.(cleanup := None))
  {
    if s.link.client == s.tasks.cleanup {
      DetachesAll(s, Cleanup, Finish);
      ReleaseRunsToItsEnd(Apply(s, Task(CleanupLock)));
    }
  }

  lemma TimerDetaches(s: State, i: Id)
    requires Shape(s) && s.holder == Nobody && Timed(s, i, Waiting)
    requires s.link.client == Some(s.tasks.timers[i].client)
    ensures var t := Apply(s, Task(TimerLock(i)));
            && Empty(t) && Timed(t, i, Inside) && t.tasks.idle == s.tasks.idle && t.past == s.past
            && t.holder == Releasing(Idle(i), ThreeOf(s.tasks.timers[i].client), Finish)
            && t.ledger.attempted == s.ledger.attempted
  {
    DetachesAll(s.(tasks := SetPhase(s.tasks, i, Inside)), Idle(i), Finish);
  }

  lemma TimerFindsAnother(s: State, i: Id)
    requires s.holder == Nobody && Timed(s, i, Waiting) && s.link.client != Some(s.tasks.timers[i].client)
    ensures var t := Apply(s, Task(TimerLock(i)));
            && t == s.(tasks := t.tasks) && Timed(t, i, Done)
            && t.tasks.idle == (if s.tasks.idle == Some(i) then None else s.tasks.idle)
  {
  }

  // A timer with the lock detaches and releases its own client, if it is still installed, and only that.
  lemma TimerReleasesItsClient(s: State, i: Id)
    requires Shape(s) && s.holder == Nobody && Timed(s, i, Waiting) && s.tasks.idle == Some(i)
    ensures var c := s.tasks.timers[i].client;
            var t := Apply(s, Task(TimerLock(i)));
            if s.link.client == Some(c) then
              var done := Run(t, CleanNexts(3));
              && Empty(t) && Timed(t, i, Inside)
              && Empty(done) && done.holder == Nobody && Timed(done, i, Done) && done.tasks.idle.None?
              && done.ledger.attempted == s.ledger.attempted + multiset(ThreeOf(c)) && done.past == s.past
            else t == s.(tasks := t.tasks) && Timed(t, i, Done) && t.tasks.idle.None?
  {
    if s.link.client == Some(s.tasks.timers[i].client) {
      TimerDetaches(s, i);
      ReleaseRunsToItsEnd(Apply(s, Task(TimerLock(i))));
    } else {
      TimerFindsAnother(s, i);
    }
  }

  // A shutdown that was requested gets the lock: the registered timer is off, what
  // is installed is detached and released, and the shutdown has released everything.
  lemma ShutdownReleasesAll(s: State)
    requires Shape(s) && s.holder == Nobody
    ensures var asked := Apply(s, Task(ShutdownRequested));
            var t := Apply(asked, Task(ShutdownLock));
            var done := if s.link.client.Some? then Run(t, CleanNexts(3)) else t;
            && asked == s.(tasks := s.tasks.(shutdown := true))
            && Empty(t) && Empty(done) && done.holder == Nobody && done.tasks.released && done.tasks.shutdown
            && done.tasks.idle.None?
            && (s.tasks.idle.Some? && s.tasks.idle.value in s.tasks.timers ==>
                  s.tasks.idle.value in done.tasks.timers
                  && done.tasks.timers[s.tasks.idle.value].phase in {Cancelled, Done})
            && done.ledger.attempted
               == s.ledger.attempted
                  + (if s.link.client.Some? then multiset(ThreeOf(s.link.client.value)) else multiset{})
  {
    var asked := Apply(s, Task(ShutdownRequested));
    if s.link.client.Some? {
      var silenced := asked.tasks.(timers := Cancel(asked.tasks.timers, asked.tasks.idle), idle := None);
      DetachesAll(asked.(tasks := silenced), Shutdown, Finish);
      ReleaseRunsToItsEnd(Apply(asked, Task(ShutdownLock)));
    }
  }
}
