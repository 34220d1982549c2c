/** Seeding the task queue from the worker manifest. */
module Seeding {
  import opened Collections

  datatype Status = Pending | Scheduled | Processing | Retrying | Completed | Failed

  predicate IsActive(status: Status) {
    status in {Pending, Scheduled, Processing, Retrying}
  }

  /** What tells seeded tasks apart; an immediate task has no recurrence. Times are seconds of the day. */
  datatype Key = Key(
    worker: string, queue: string, action: string,
    pattern: Option<string>, time: Option<nat>, timezone: Option<string>)

  datatype Task = Task(key: Key, status: Status)

  datatype Schedule = Schedule(
    action: string, pattern: string, time: Option<nat>, timezone: Option<string>, firstRunImmediate: bool)

  datatype Worker = Worker(
    name: string, queue: string, schedules: seq<Schedule>, schedule: Option<Schedule>, startup: Option<string>)

  /** One thing the manifest asks for; `key` of a recurring task is what it would be enqueued with. */
  datatype Want = Recurring(key: Key, firstRunImmediate: bool) | Startup(key: Key)

  // ----- the manifest as a list of wants -----

  function ImmediateKey(worker: string, queue: string, action: string): Key {
    Key(worker, queue, action, None, None, None)
  }

  function ScheduleWant(w: Worker, s: Schedule): Want {
    Recurring(Key(w.name, w.queue, s.action, Some(s.pattern), s.time, s.timezone), s.firstRunImmediate)
  }

  function SchedulesOf(w: Worker): seq<Schedule> {
    if w.schedules == [] && w.schedule.Some? then [w.schedule.value] else w.schedules
  }

  function ScheduleWants(w: Worker, schedules: seq<Schedule>): seq<Want> {
    if schedules == [] then [] else [ScheduleWant(w, schedules[0])] + ScheduleWants(w, schedules[1..])
  }

  function StartupWants(w: Worker): seq<Want> {
    if w.startup.Some? then [Startup(ImmediateKey(w.name, w.queue, w.startup.value))] else []
  }

  function Wants(workers: seq<Worker>): seq<Want> {
    if workers == [] then []
    else ScheduleWants(workers[0], SchedulesOf(workers[0])) + StartupWants(workers[0]) + Wants(workers[1..])
  }

  // ----- what a pass does -----

  predicate HasActive(tasks: seq<Task>, key: Key) {
    exists i :: 0 <= i < |tasks| && IsActive(tasks[i].status) && tasks[i].key == key
  }

  /** The key looked for: without both a time and a timezone, a task that has neither. */
  function Searched(key: Key): Key {
    if key.time.Some? && key.timezone.Some? then key else key.(time := None, timezone := None)
  }

  /** The scheduler refuses half a time of day, one without a pattern, and one on an hourly pattern. */
  predicate Enqueueable(key: Key) {
    && (key.time.Some? <==> key.timezone.Some?)
    && (key.time.Some? ==> key.pattern.Some? && key.pattern.value != "hourly")
    && (key.pattern.Some? ==> key.pattern.value in {"hourly", "daily", "weekly", "monthly"})
  }

  function Immediate(key: Key): Key {
    ImmediateKey(key.worker, key.queue, key.action)
  }

  /** The tasks one want adds; none when it is there already, or when it is refused. */
  function Added(tasks: seq<Task>, want: Want): seq<Task> {
    if HasActive(tasks, Searched(want.key)) || !Enqueueable(want.key) then []
    else [Task(want.key, Pending)] +
         if want.Recurring? && want.firstRunImmediate && !HasActive(tasks, Immediate(want.key))
         then [Task(Immediate(want.key), Pending)] else []
  }

  predicate Refused(tasks: seq<Task>, want: Want) {
    !HasActive(tasks, Searched(want.key)) && !Enqueueable(want.key)
  }

  datatype Pass = Pass(tasks: seq<Task>, completed: bool)

  function Seeded(tasks: seq<Task>, wants: seq<Want>): Pass
    decreases wants
  {
    if wants == [] then Pass(tasks, true)
    else if Refused(tasks, wants[0]) then Pass(tasks, false)
    else Seeded(tasks + Added(tasks, wants[0]), wants[1..])
  }

  // ----- what that means -----

  /** A task that has yet to run, runs, or is to run again. */
  ghost predicate Live(t: Task) {
    t.status in {Pending, Scheduled, Processing, Retrying}
  }

  ghost predicate HasLive(tasks: seq<Task>, key: Key) {
    exists i :: 0 <= i < |tasks| && Live(tasks[i]) && tasks[i].key == key
  }

  lemma ActiveIsLive(tasks: seq<Task>, key: Key)
    ensures HasActive(tasks, key) <==> HasLive(tasks, key)
  {
  }

  ghost predicate AtMostOneActive(tasks: seq<Task>, key: Key) {
    forall i, j :: 0 <= i < j < |tasks| && tasks[i].key == key && tasks[j].key == key ==>
                     !(Live(tasks[i]) && Live(tasks[j]))
  }

  lemma {:induction false} PassOnlyAppends(tasks: seq<Task>, wants: seq<Want>)
    ensures |tasks| <= |Seeded(tasks, wants).tasks| && Seeded(tasks, wants).tasks[..|tasks|] == tasks
    decreases wants
  {
    if wants == [] || Refused(tasks, wants[0]) {
    } else {
      PassOnlyAppends(tasks + Added(tasks, wants[0]), wants[1..]);
    }
  }

  lemma StaysActive(tasks: seq<Task>, more: seq<Task>, key: Key)
    requires HasActive(tasks, key) && |tasks| <= |more| && more[..|tasks|] == tasks
    ensures HasActive(more, key)
  {
    var i :| 0 <= i < |tasks| && IsActive(tasks[i].status) && tasks[i].key == key;
    assert more[i] == more[..|tasks|][i];
  }

  lemma WantIsMet(tasks: seq<Task>, want: Want)
    requires !Refused(tasks, want)
    ensures HasActive(tasks + Added(tasks, want), Searched(want.key))
  {
    var after := tasks + Added(tasks, want);
    if HasActive(tasks, Searched(want.key)) {
      StaysActive(tasks, after, Searched(want.key));
    } else {
      assert after[|tasks|] == Task(want.key, Pending);
    }
  }

  /** A completed pass leaves an active task for everything the manifest asks for. */
  lemma {:induction false} CompletedPassCovers(tasks: seq<Task>, wants: seq<Want>)
    requires Seeded(tasks, wants).completed
    ensures forall k :: 0 <= k < |wants| ==> HasActive(Seeded(tasks, wants).tasks, Searched(wants[k].key))
    decreases wants
  {
    if wants == [] {
    } else {
      var after := tasks + Added(tasks, wants[0]);
      WantIsMet(tasks, wants[0]);
      PassOnlyAppends(after, wants[1..]);
      StaysActive(after, Seeded(after, wants[1..]).tasks, Searched(wants[0].key));
      CompletedPassCovers(after, wants[1..]);
      forall k | 0 <= k < |wants| ensures HasActive(Seeded(tasks, wants).tasks, Searched(wants[k].key)) {
        assert k > 0 ==> wants[k] == wants[1..][k - 1];
      }
    }
  }

  lemma AppendKeepsAtMostOne(tasks: seq<Task>, added: Task, key: Key)
    requires AtMostOneActive(tasks, key) && !HasActive(tasks, added.key)
    ensures AtMostOneActive(tasks + [added], key)
  {
  }

  lemma WantKeepsAtMostOne(tasks: seq<Task>, want: Want, key: Key)
    requires AtMostOneActive(tasks, key)
    requires want.Recurring? ==> want.key.pattern.Some?
    ensures AtMostOneActive(tasks + Added(tasks, want), key)
  {
    var added := Added(tasks, want);
    if added == [] {
      assert tasks + added == tasks;
    } else {
      assert Searched(want.key) == want.key;
      AppendKeepsAtMostOne(tasks, added[0], key);
      assert added == [added[0]] + added[1..];
      if |added| == 2 {
        var once := tasks + [added[0]];
        assert !HasActive(once, added[1].key);
        AppendKeepsAtMostOne(once, added[1], key);
        assert once + [added[1]] == tasks + added;
      } else {
        assert tasks + [added[0]] == tasks + added;
      }
    }
  }

  /** No pass, completed or not, doubles an active task of any key. */
  lemma {:induction false} PassKeepsAtMostOne(tasks: seq<Task>, wants: seq<Want>, key: Key)
    requires AtMostOneActive(tasks, key)
    requires forall k :: 0 <= k < |wants| && wants[k].Recurring? ==> wants[k].key.pattern.Some?
    ensures AtMostOneActive(Seeded(tasks, wants).tasks, key)
    decreases wants
  {
    if wants == [] || Refused(tasks, wants[0]) {
    } else {
      WantKeepsAtMostOne(tasks, wants[0], key);
      PassKeepsAtMostOne(tasks + Added(tasks, wants[0]), wants[1..], key);
    }
  }

  /** A pass adds nothing exactly when everything asked for is already active, or it is refused first. */
  lemma {:induction false} CoveredPassAddsNothing(tasks: seq<Task>, wants: seq<Want>)
    ensures Seeded(tasks, wants) == Pass(tasks, true) <==>
            forall k :: 0 <= k < |wants| ==> HasActive(tasks, Searched(wants[k].key))
    decreases wants
  {
    if Seeded(tasks, wants) == Pass(tasks, true) {
      CompletedPassCovers(tasks, wants);
    }
    if wants != [] && HasActive(tasks, Searched(wants[0].key)) {
      assert tasks + Added(tasks, wants[0]) == tasks;
      CoveredPassAddsNothing(tasks, wants[1..]);
      if forall k :: 0 <= k < |wants| ==> HasActive(tasks, Searched(wants[k].key)) {
        forall k | 0 <= k < |wants[1..]| ensures HasActive(tasks, Searched(wants[1..][k].key)) {
          assert wants[1..][k] == wants[k + 1];
        }
      }
    }
  }

  /** A second pass over unchanged statuses creates nothing. */
  lemma SecondPassCreatesNothing(tasks: seq<Task>, wants: seq<Want>)
    requires Seeded(tasks, wants).completed
    ensures Seeded(Seeded(tasks, wants).tasks, wants) == Seeded(tasks, wants)
  {
    CompletedPassCovers(tasks, wants);
    CoveredPassAddsNothing(Seeded(tasks, wants).tasks, wants);
  }

  /** A manifest the scheduler accepts throughout always completes. */
  lemma {:induction false} AcceptedManifestCompletes(tasks: seq<Task>, wants: seq<Want>)
    requires forall k :: 0 <= k < |wants| ==> Enqueueable(wants[k].key)
    ensures Seeded(tasks, wants).completed
    decreases wants
  {
    if wants == [] {
    } else {
      AcceptedManifestCompletes(tasks + Added(tasks, wants[0]), wants[1..]);
    }
  }

  /** The task looked for is the task asked for exactly when time and timezone come together. */
  lemma SearchedIsOwnKey(key: Key)
    ensures Searched(key) == key <==> (key.time.Some? <==> key.timezone.Some?)
  {
  }

  /** A time without a timezone is taken as seeded by a task that runs at no fixed time. */
  lemma HalfATimeIsMistaken()
    ensures var w := Worker("w", "q", [Schedule("scan", "daily", Some(7200), None, false)], None, None);
            var other := Task(Key("w", "q", "scan", Some("daily"), None, None), Pending);
            && Seeded([other], Wants([w])) == Pass([other], true)
            && !HasActive([other], Wants([w])[0].key)
  {
    var s := Schedule("scan", "daily", Some(7200), None, false);
    var w := Worker("w", "q", [s], None, None);
    var other := Task(Key("w", "q", "scan", Some("daily"), None, None), Pending);
    assert ScheduleWants(w, [s]) == [ScheduleWant(w, s)];
    assert Wants([w]) == [ScheduleWant(w, s)];
    assert [other][0] == other;
    assert HasActive([other], Searched(ScheduleWant(w, s).key));
    assert [other] + Added([other], ScheduleWant(w, s)) == [other];
    assert Seeded([other], []) == Pass([other], true);
  }

  /** Startup seeds are immediate tasks, which the scheduler always takes; schedules have a pattern. */
  lemma {:induction false} WantsHaveShape(workers: seq<Worker>, want: Want)
    requires want in Wants(workers)
    ensures want.Recurring? ==> want.key.pattern.Some?
    ensures want.Startup? ==> want.key == Immediate(want.key) && Enqueueable(want.key)
  {
    if want in ScheduleWants(workers[0], SchedulesOf(workers[0])) {
      ScheduleWantsHaveShape(workers[0], SchedulesOf(workers[0]), want);
    } else if want !in StartupWants(workers[0]) {
      WantsHaveShape(workers[1..], want);
    }
  }

  lemma {:induction false} ScheduleWantsHaveShape(w: Worker, schedules: seq<Schedule>, want: Want)
    requires want in ScheduleWants(w, schedules)
    ensures want.Recurring? && want.key.pattern.Some?
  {
    if want == ScheduleWant(w, schedules[0]) {
    } else {
      ScheduleWantsHaveShape(w, schedules[1..], want);
    }
  }

  // ----- the queue -----

  datatype SeedResult = SeedResult(key: Key, created: bool, createdImmediate: bool)

  class TaskQueue {
    var tasks: seq<Task>

    constructor (tasks: seq<Task>)
      ensures this.tasks == tasks
    {
      this.tasks := tasks;
    }

    method HasActiveScanTask(key: Key) returns (found: bool)
      ensures found <==> HasActive(tasks, Searched(key))
    {
      var wanted := Searched(key);
      found := false;
      for i := 0 to |tasks|
        invariant found <==> exists k :: 0 <= k < i && IsActive(tasks[k].status) && tasks[k].key == wanted
      {
        if IsActive(tasks[i].status) && tasks[i].key == wanted {
          found := true;
        }
      }
    }

    method Enqueue(key: Key) returns (ok: bool)
      modifies this
      ensures ok <==> Enqueueable(key)
      ensures ok <==>
              && (key.pattern.Some? ==> key.pattern.value in {"hourly", "daily", "weekly", "monthly"})
              && (key.time.Some? || key.timezone.Some? ==>
                    && key.time.Some? && key.timezone.Some? && key.pattern.Some? && key.pattern.value != "hourly")
      ensures tasks == if ok then old(tasks) + [Task(key, Pending)] else old(tasks)
    {
      ok := Enqueueable(key);
      if ok {
        tasks := tasks + [Task(key, Pending)];
      }
    }

    method SeedOne(want: Want) returns (r: Option<SeedResult>)
      requires want.Recurring? ==> want.key.pattern.Some?
      requires want.Startup? ==> want.key == Immediate(want.key)
      modifies this
      ensures r.None? <==> Refused(old(tasks), want)
      ensures tasks == old(tasks) + Added(old(tasks), want)
      ensures r.Some? ==>
                r.value == SeedResult(want.key, Added(old(tasks), want) != [], |Added(old(tasks), want)| == 2)
      ensures r.Some? ==> SeededWant(old(tasks), want, tasks)
    {
      WantMeans(tasks, want);
      var present := HasActiveScanTask(want.key);
      if present {
        return Some(SeedResult(want.key, false, false));
      }
      var immediateNeeded := false;
      if want.Recurring? && want.firstRunImmediate {
        var running := HasActiveScanTask(Immediate(want.key));
        immediateNeeded := !running;
      }
      var ok := Enqueue(want.key);
      if !ok {
        return None;
      }
      if immediateNeeded {
        var _ := Enqueue(Immediate(want.key));
      }
      r := Some(SeedResult(want.key, true, immediateNeeded));
    }

    method SeedSchedules(w: Worker, schedules: seq<Schedule>) returns (completed: bool, results: seq<SeedResult>)
      modifies this
      ensures Pass(tasks, completed) == Seeded(old(tasks), ScheduleWants(w, schedules))
      ensures completed ==> |results| == |schedules|
    {
      results := [];
      var rest := schedules;
      while rest != []
        invariant Seeded(tasks, ScheduleWants(w, rest)) == Seeded(old(tasks), ScheduleWants(w, schedules))
        invariant |results| + |rest| == |schedules|
        decreases |rest|
      {
        var r := SeedOne(ScheduleWant(w, rest[0]));
        if r.None? {
          return false, results;
        }
        results := results + [r.value];
        rest := rest[1..];
      }
      completed := true;
    }

    method SeedStartup(w: Worker) returns (completed: bool, results: seq<SeedResult>)
      modifies this
      ensures Pass(tasks, completed) == Seeded(old(tasks), StartupWants(w))
      ensures completed ==> |results| == |StartupWants(w)|
    {
      if w.startup.None? {
        return true, [];
      }
      SeededOne(tasks, StartupWants(w)[0]);
      var r := SeedOne(StartupWants(w)[0]);
      completed, results := r.Some?, if r.Some? then [r.value] else [];
    }

    /** One pass over the manifest; it stops at the first task the scheduler refuses. */
    method EnsureManifestSeeds(workers: seq<Worker>) returns (completed: bool, results: seq<SeedResult>)
      modifies this
      ensures Pass(tasks, completed) == Seeded(old(tasks), Wants(workers))
      ensures completed ==> |results| == |Wants(workers)|
    {
      results := [];
      var rest := workers;
      while rest != []
        invariant Seeded(tasks, Wants(rest)) == Seeded(old(tasks), Wants(workers))
        invariant |results| + |Wants(rest)| == |Wants(workers)|
        decreases |rest|
      {
        var w := rest[0];
        WorkerFirst(tasks, rest);
        var ok, some := SeedSchedules(w, SchedulesOf(w));
        if !ok {
          return false, results + some;
        }
        var okStartup, more := SeedStartup(w);
        if !okStartup {
          return false, results + some + more;
        }
        results := results + some + more;
        rest := rest[1..];
      }
      completed := true;
    }
  }

  lemma SeededOne(tasks: seq<Task>, want: Want)
    ensures Seeded(tasks, [want]) ==
            if Refused(tasks, want) then Pass(tasks, false) else Pass(tasks + Added(tasks, want), true)
  {
    assert Seeded(tasks + Added(tasks, want), []) == Pass(tasks + Added(tasks, want), true);
  }

  lemma {:induction false} SeededAppends(tasks: seq<Task>, a: seq<Want>, b: seq<Want>)
    ensures Seeded(tasks, a + b) ==
            if Seeded(tasks, a).completed then Seeded(Seeded(tasks, a).tasks, b) else Seeded(tasks, a)
    decreases a
  {
    if a == [] {
      assert a + b == b;
    } else {
      assert (a + b)[1..] == a[1..] + b;
      if !Refused(tasks, a[0]) {
        SeededAppends(tasks + Added(tasks, a[0]), a[1..], b);
      }
    }
  }

  lemma {:induction false} ScheduleWantsLength(w: Worker, schedules: seq<Schedule>)
    ensures |ScheduleWants(w, schedules)| == |schedules|
  {
    if schedules == [] {
    } else {
      ScheduleWantsLength(w, schedules[1..]);
    }
  }

  /** A pass takes the schedules of the first worker, then its startup seed, then the other workers. */
  lemma WorkerFirst(tasks: seq<Task>, workers: seq<Worker>)
    requires workers != []
    ensures |Wants(workers)| == |SchedulesOf(workers[0])| + |StartupWants(workers[0])| + |Wants(workers[1..])|
    ensures var p1 := Seeded(tasks, ScheduleWants(workers[0], SchedulesOf(workers[0])));
            Seeded(tasks, Wants(workers)) ==
            if !p1.completed then p1 else
              var p2 := Seeded(p1.tasks, StartupWants(workers[0]));
              if !p2.completed then p2 else Seeded(p2.tasks, Wants(workers[1..]))
  {
    var schedules, startup := ScheduleWants(workers[0], SchedulesOf(workers[0])), StartupWants(workers[0]);
    ScheduleWantsLength(workers[0], SchedulesOf(workers[0]));
    SeededAppends(tasks, schedules + startup, Wants(workers[1..]));
    SeededAppends(tasks, schedules, startup);
  }

  // ----- in terms of the manifest -----

  /** What the search for a seeded task looks for. */
  ghost predicate LooksFor(searched: Key, key: Key) {
    if key.time.Some? && key.timezone.Some? then searched == key
    else searched == Key(key.worker, key.queue, key.action, key.pattern, None, None)
  }

  /** A want that was not refused: found live; or added, with one immediate run if asked for and none was live. */
  ghost predicate SeededWant(tasks: seq<Task>, want: Want, tasks': seq<Task>) {
    var immediate := Key(want.key.worker, want.key.queue, want.key.action, None, None, None);
    exists searched :: LooksFor(searched, want.key) &&
      if HasLive(tasks, searched) then tasks' == tasks
      else if want.Recurring? && want.firstRunImmediate && !HasLive(tasks, immediate) then
        tasks' == tasks + [Task(want.key, Pending), Task(immediate, Pending)]
      else tasks' == tasks + [Task(want.key, Pending)]
  }

  lemma WantMeans(tasks: seq<Task>, want: Want)
    ensures !Refused(tasks, want) ==> SeededWant(tasks, want, tasks + Added(tasks, want))
  {
    var searched := Searched(want.key);
    ActiveIsLive(tasks, searched);
    ActiveIsLive(tasks, Immediate(want.key));
    assert LooksFor(searched, want.key);
    assert tasks + [] == tasks;
  }

  /** The worker's schedules, or the older single one when it lists none. */
  ghost predicate Asks(w: Worker, s: Schedule) {
    s in w.schedules || (w.schedules == [] && w.schedule == Some(s))
  }

  ghost predicate WantOf(want: Want, w: Worker) {
    || (want.Startup? && w.startup.Some? && want.key == Key(w.name, w.queue, w.startup.value, None, None, None))
    || (want.Recurring?
        && exists s :: Asks(w, s) && want.key == Key(w.name, w.queue, s.action, Some(s.pattern), s.time, s.timezone)
                       && want.firstRunImmediate == s.firstRunImmediate)
  }

  lemma {:induction false} ScheduleWantsMean(w: Worker, schedules: seq<Schedule>, want: Want)
    ensures want in ScheduleWants(w, schedules) <==> exists s :: s in schedules && want == ScheduleWant(w, s)
  {
    if schedules == [] {
    } else {
      ScheduleWantsMean(w, schedules[1..], want);
      assert schedules == [schedules[0]] + schedules[1..];
    }
  }

  lemma WorkerWants(w: Worker, want: Want)
    ensures want in ScheduleWants(w, SchedulesOf(w)) + StartupWants(w) <==> WantOf(want, w)
  {
    ScheduleWantsMean(w, SchedulesOf(w), want);
    forall s ensures s in SchedulesOf(w) <==> Asks(w, s) {
    }
    if WantOf(want, w) && want.Recurring? {
      var s :| Asks(w, s) && want.key == Key(w.name, w.queue, s.action, Some(s.pattern), s.time, s.timezone)
               && want.firstRunImmediate == s.firstRunImmediate;
      assert want == ScheduleWant(w, s);
    }
  }

  /** The wants are the schedules and startup tasks of the workers. */
  lemma {:induction false} WantsMean(workers: seq<Worker>, want: Want)
    ensures want in Wants(workers) <==> exists w :: w in workers && WantOf(want, w)
  {
    if workers == [] {
    } else {
      WantsMean(workers[1..], want);
      WorkerWants(workers[0], want);
      assert workers == [workers[0]] + workers[1..];
    }
  }

  /** The task wanted, or its first immediate run. */
  ghost predicate Meets(t: Task, want: Want) {
    || t.key == want.key
    || (want.Recurring? && want.firstRunImmediate
        && t.key == Key(want.key.worker, want.key.queue, want.key.action, None, None, None))
  }

  /** A task the manifest accounts for: a schedule's, its first immediate run, or a startup task. */
  ghost predicate AskedFor(t: Task, workers: seq<Worker>) {
    t.status == Pending && exists w, want :: w in workers && WantOf(want, w) && Meets(t, want)
  }

  lemma AddedMeets(tasks: seq<Task>, want: Want, t: Task)
    requires t in Added(tasks, want)
    ensures t.status == Pending && Meets(t, want)
  {
  }

  lemma {:induction false} AddedByWants(tasks: seq<Task>, wants: seq<Want>, i: nat)
    requires |tasks| <= i < |Seeded(tasks, wants).tasks|
    ensures Seeded(tasks, wants).tasks[i].status == Pending
    ensures exists want :: want in wants && Meets(Seeded(tasks, wants).tasks[i], want)
    decreases wants
  {
    if wants == [] || Refused(tasks, wants[0]) {
    } else {
      var added := Added(tasks, wants[0]);
      var more := tasks + added;
      if i < |more| {
        PassOnlyAppends(more, wants[1..]);
        assert Seeded(more, wants[1..]).tasks[..|more|][i] == added[i - |tasks|];
        AddedMeets(tasks, wants[0], added[i - |tasks|]);
      } else {
        AddedByWants(more, wants[1..], i);
      }
    }
  }

  /** A pass keeps the tasks there are and adds only what the manifest asks for. */
  lemma OnlyAskedForIsAdded(tasks: seq<Task>, workers: seq<Worker>)
    ensures var after := Seeded(tasks, Wants(workers)).tasks;
            && |tasks| <= |after| && after[..|tasks|] == tasks
            && forall i :: |tasks| <= i < |after| ==> AskedFor(after[i], workers)
  {
    var after := Seeded(tasks, Wants(workers)).tasks;
    PassOnlyAppends(tasks, Wants(workers));
    forall i | |tasks| <= i < |after| ensures AskedFor(after[i], workers) {
      AddedByWants(tasks, Wants(workers), i);
      var want :| want in Wants(workers) && Meets(after[i], want);
      WantsMean(workers, want);
    }
  }

  /** Schedules with both a time and a timezone or neither, a known pattern, and no time on an hourly one. */
  ghost predicate WellFormed(workers: seq<Worker>) {
    forall w, s :: w in workers && Asks(w, s) ==>
                     && (s.time.Some? <==> s.timezone.Some?)
                     && s.pattern in {"hourly", "daily", "weekly", "monthly"}
                     && (s.time.Some? ==> s.pattern != "hourly")
  }

  lemma WellFormedIsEnqueueable(workers: seq<Worker>, want: Want)
    requires WellFormed(workers) && want in Wants(workers)
    ensures Enqueueable(want.key)
  {
    WantsMean(workers, want);
    var w :| w in workers && WantOf(want, w);
    if want.Recurring? {
      var s :| Asks(w, s) && want.key == Key(w.name, w.queue, s.action, Some(s.pattern), s.time, s.timezone)
               && want.firstRunImmediate == s.firstRunImmediate;
    }
  }

  /** Every schedule and every startup task of the manifest is live. */
  ghost predicate AllLive(tasks: seq<Task>, workers: seq<Worker>) {
    && (forall w, s :: w in workers && Asks(w, s) ==>
                         HasLive(tasks, Key(w.name, w.queue, s.action, Some(s.pattern), s.time, s.timezone)))
    && (forall w :: w in workers && w.startup.Some? ==>
                      HasLive(tasks, Key(w.name, w.queue, w.startup.value, None, None, None)))
  }

  lemma WantsLive(tasks: seq<Task>, workers: seq<Worker>)
    requires forall want :: want in Wants(workers) ==> HasActive(tasks, want.key)
    ensures AllLive(tasks, workers)
  {
    forall w, s | w in workers && Asks(w, s)
      ensures HasLive(tasks, Key(w.name, w.queue, s.action, Some(s.pattern), s.time, s.timezone))
    {
      var want := ScheduleWant(w, s);
      assert WantOf(want, w);
      WantsMean(workers, want);
      ActiveIsLive(tasks, want.key);
    }
    forall w | w in workers && w.startup.Some?
      ensures HasLive(tasks, Key(w.name, w.queue, w.startup.value, None, None, None))
    {
      var want := Startup(Key(w.name, w.queue, w.startup.value, None, None, None));
      assert WantOf(want, w);
      WantsMean(workers, want);
      ActiveIsLive(tasks, want.key);
    }
  }

  /**
   * Seeding a well-formed manifest completes, leaves every task asked for active,
   * doubles none, and has nothing left to do.
   */
  lemma ManifestIsSeeded(tasks: seq<Task>, workers: seq<Worker>)
    requires WellFormed(workers)
    ensures var after := Seeded(tasks, Wants(workers));
            && after.completed
            && AllLive(after.tasks, workers)
            && (forall key :: AtMostOneActive(tasks, key) ==> AtMostOneActive(after.tasks, key))
            && Seeded(after.tasks, Wants(workers)) == after
  {
    var wants := Wants(workers);
    forall k | 0 <= k < |wants| ensures Enqueueable(wants[k].key) {
      assert wants[k] in wants;
      WellFormedIsEnqueueable(workers, wants[k]);
    }
    AcceptedManifestCompletes(tasks, wants);
    CompletedPassCovers(tasks, wants);
    SecondPassCreatesNothing(tasks, wants);
    forall want | want in wants ensures HasActive(Seeded(tasks, wants).tasks, want.key) {
      var k: nat :| k < |wants| && wants[k] == want;
      SearchedIsOwnKey(want.key);
    }
    WantsLive(Seeded(tasks, wants).tasks, workers);
    forall k | 0 <= k < |wants| ensures wants[k].Recurring? ==> wants[k].key.pattern.Some? {
      WantsHaveShape(workers, wants[k]);
    }
    forall key | AtMostOneActive(tasks, key) ensures AtMostOneActive(Seeded(tasks, wants).tasks, key) {
      PassKeepsAtMostOne(tasks, wants, key);
    }
  }
}
