/**
 * The older collector: a `sched` scheduler runs run_object_detector 30 s after
 * start-up and then 30 s after each run finishes. A run resolves the stream,
 * grabs a frame of the fixed size 1080x1920, takes the model's detections and,
 * only when there is at least one, appends long-format rows
 * (object_type, object_count, date) to the DetectedObjects table.
 */
module VehicleDetector {
  import opened Wrappers
  import opened Media
  import Counting
  import Resolve
  import Frames

  const FrameHeight: nat := 1080
  const FrameWidth: nat := 1920
  /** The only buffer length the fixed reshape accepts: 1080 * 1920 * 3. */
  const FrameBytes: nat := 6220800

  /** grab_frame: the frame size is hard-wired instead of read from the stream. */
  function GrabFrame(out: seq<byte>): (r: Result<Frames.Image, Error>)
    ensures r.Success? <==> |out| == FrameBytes
    ensures r.Failure? ==> r.error == FrameSizeMismatch
    ensures r.Success? ==> Frames.HasShape(r.value, FrameHeight, FrameWidth)
    ensures r.Success? ==> Frames.Flatten(r.value) == out
  {
    Frames.Reshape(out, FrameHeight, FrameWidth)
  }

  /** One row of the long-format table. */
  datatype ObjectCount = ObjectCount(objectType: string, objectCount: nat, date: DateTime)

  /** The rows save_detections writes for the detections of one frame. */
  function ObjectCounts(ds: seq<Detection>, now: DateTime): seq<ObjectCount>
  {
    var t := Counting.TallyOf(Names(ds));
    seq(|t|, i requires 0 <= i < |t| => ObjectCount(t[i].name, t[i].count, now))
  }

  /**
   * Those rows: one per distinct detected name, in the ascending name order
   * of pandas' groupby, each with the number of detections of that name and
   * the same date.
   */
  lemma ObjectCountsMeans(ds: seq<Detection>, now: DateTime)
    ensures var rows := ObjectCounts(ds, now);
      && (forall i :: 0 <= i < |rows| ==> rows[i].date == now)
      && (forall i, j :: 0 <= i < j < |rows| ==> Counting.Before(rows[i].objectType, rows[j].objectType))
      && (forall i :: 0 <= i < |rows| ==>
            rows[i].objectCount == Counting.Occurrences(Names(ds), rows[i].objectType) > 0)
      && (forall n :: n in Names(ds) <==> exists i :: 0 <= i < |rows| && rows[i].objectType == n)
  {
    var t := Counting.TallyOf(Names(ds));
    var rows := ObjectCounts(ds, now);
    assert |rows| == |t|;
    assert forall i :: 0 <= i < |rows| ==> rows[i] == ObjectCount(t[i].name, t[i].count, now);
    forall n ensures n in Names(ds) <==> exists i :: 0 <= i < |rows| && rows[i].objectType == n {
      Counting.GroupsAreTheDistinctNames(Names(ds), n);
      if n in Names(ds) {
        var k :| 0 <= k < |t| && t[k].name == n;
        assert rows[k].objectType == n;
        assert exists i :: 0 <= i < |rows| && rows[i].objectType == n;
      }
      if exists i :: 0 <= i < |rows| && rows[i].objectType == n {
        var k :| 0 <= k < |rows| && rows[k].objectType == n;
        assert t[k].name == n;
        Counting.CountOfAt(t, k);
        Counting.OccurrencesPositive(Names(ds));
      }
    }
    Counting.GroupsAreTheDistinctNames(Names(ds), "");
  }

  /** The sum of the object_count column. */
  function CountSum(rows: seq<ObjectCount>): nat
  {
    if rows == [] then 0 else rows[0].objectCount + CountSum(rows[1..])
  }

  lemma {:induction false} CountSumIsTallySum(t: seq<Counting.Tally>, now: DateTime)
    ensures CountSum(seq(|t|, i requires 0 <= i < |t| => ObjectCount(t[i].name, t[i].count, now))) == Counting.Sum(t)
  {
    if t != [] {
      var rows := seq(|t|, i requires 0 <= i < |t| => ObjectCount(t[i].name, t[i].count, now));
      var rest := t[1..];
      assert rows[1..] == seq(|rest|, i requires 0 <= i < |rest| => ObjectCount(rest[i].name, rest[i].count, now));
      CountSumIsTallySum(rest, now);
    }
  }

  /** The object counts written for one frame add up to the number of detections. */
  lemma ObjectCountsSum(ds: seq<Detection>, now: DateTime)
    ensures CountSum(ObjectCounts(ds, now)) == |ds|
  {
    CountSumIsTallySum(Counting.TallyOf(Names(ds)), now);
  }

  /** The DetectedObjects table, append-only: the rows written so far, in order. */
  class Table {
    var rows: seq<ObjectCount>

    constructor ()
      ensures rows == []
    {
      rows := [];
    }

    /** to_sql(..., if_exists='append'). */
    method Append(more: seq<ObjectCount>)
      modifies this
      ensures rows == old(rows) + more
    {
      rows := rows + more;
    }
  }

  /**
   * save_detections: a frame built from no detections has no `name` column,
   * so the groupby raises and nothing is written.
   */
  method SaveDetections(db: Table, ds: seq<Detection>, now: DateTime) returns (failure: Option<Error>)
    modifies db
    ensures failure.Some? <==> ds == []
    ensures failure.Some? ==> failure.value == MissingNameColumn && db.rows == old(db.rows)
    ensures failure.None? ==> db.rows == old(db.rows) + ObjectCounts(ds, now)
  {
    if ds == [] {
      return Some(MissingNameColumn);
    }
    var rows := ObjectCounts(ds, now);
    db.Append(rows);
    failure := None;
  }

  /** A pending call of run_object_detector: when it is due and its priority. */
  datatype Event = Event(time: int, priority: int)

  /** Whether `a` is taken before `b`: the earlier time, then the lower priority number. */
  predicate Earlier(a: Event, b: Event)
  {
    a.time < b.time || (a.time == b.time && a.priority < b.priority)
  }

  /**
   * The position of the event the scheduler takes next: the earliest by time,
   * then priority. Among equal events the first entered wins, as `sched` orders
   * them from Python 3.10 on (its `sequence` field); earlier versions leave
   * that tie to the heap. The program never queues two events at once.
   */
  function Next(queue: seq<Event>): (k: nat)
    requires |queue| > 0
    ensures k < |queue|
    ensures forall j :: 0 <= j < |queue| ==> !Earlier(queue[j], queue[k])
    ensures forall j :: 0 <= j < k ==> Earlier(queue[k], queue[j])
  {
    if |queue| == 1 then 0
    else
      var k := Next(queue[1..]) + 1;
      if Earlier(queue[k], queue[0]) then k else 0
  }

  /** The `sched` scheduler: its clock and its pending events. */
  class Scheduler {
    var clock: int
    var queue: seq<Event>

    constructor (start: int)
      ensures clock == start && queue == []
    {
      clock := start;
      queue := [];
    }

    /** enter(delay, priority, ...): due `delay` seconds from now. */
    method Enter(delay: int, priority: int)
      modifies this
      ensures clock == old(clock)
      ensures queue == old(queue) + [Event(old(clock) + delay, priority)]
    {
      queue := queue + [Event(clock + delay, priority)];
    }

    /** Time spent inside an action. */
    method Work(seconds: nat)
      modifies this
      ensures clock == old(clock) + seconds && queue == old(queue)
    {
      clock := clock + seconds;
    }

    /** One dispatch of run(): sleep until the next event is due and remove it. */
    method TakeNext() returns (ev: Event)
      requires |queue| > 0
      modifies this
      ensures ev == old(queue)[Next(old(queue))]
      ensures queue == old(queue)[..Next(old(queue))] + old(queue)[Next(old(queue)) + 1..]
      ensures clock == if ev.time > old(clock) then ev.time else old(clock)
    {
      var k := Next(queue);
      ev := queue[k];
      if ev.time > clock {
        clock := ev.time;
      }
      queue := queue[..k] + queue[k + 1..];
    }
  }

  /** What the outside world supplies to one run, and how long its work takes. */
  datatype Run = Run(
    info: Resolve.Info,              // extract_info's result
    out: seq<byte>,                  // the bytes ffmpeg decoded
    detections: seq<Detection>,      // what the model reports for the frame
    now: DateTime,                   // the local clock when the rows are built
    duration: nat)                   // seconds the run's steps take

  /**
   * The exception a run raises, if any: url selection first, then the
   * reshape inside grab_frame, which fails exactly on a buffer of the wrong
   * length.
   */
  function RunError(run: Run): (e: Option<Error>)
  {
    var url := Resolve.VideoUrl(run.info);
    if url.Failure? then Some(url.error)
    else if |run.out| != FrameBytes then Some(FrameSizeMismatch)
    else None
  }

  /** A run raises nothing exactly when its url resolves and its frame reshapes. */
  lemma RunErrorMeans(run: Run)
    ensures RunError(run).None? <==>
      Resolve.VideoUrl(run.info).Success? && GrabFrame(run.out).Success?
    ensures RunError(run) == Some(FrameSizeMismatch) <==>
      Resolve.VideoUrl(run.info).Success? && GrabFrame(run.out).Failure?
  {
  }

  /** The rows a run that raises nothing writes: none when it detected nothing. */
  function PersistedRows(run: Run): seq<ObjectCount>
  {
    if run.detections == [] then [] else ObjectCounts(run.detections, run.now)
  }

  /** A run as the scheduler sees it: what it raises, what it writes and how long it takes. */
  datatype Step = Step(error: Option<Error>, rows: seq<ObjectCount>, duration: nat)

  function StepOf(run: Run): Step
  {
    Step(RunError(run), PersistedRows(run), run.duration)
  }

  /** The steps of a sequence of runs, one each, in order. */
  function Steps(runs: seq<Run>): (steps: seq<Step>)
    ensures |steps| == |runs|
  {
    if runs == [] then [] else [StepOf(runs[0])] + Steps(runs[1..])
  }

  lemma StepsTail(runs: seq<Run>)
    requires runs != []
    ensures Steps(runs)[0] == StepOf(runs[0]) && Steps(runs)[1..] == Steps(runs[1..])
  {
  }

  /** The rows the first `n` steps write, in order. */
  function RowsOf(steps: seq<Step>, n: nat): seq<ObjectCount>
    requires n <= |steps|
  {
    if n == 0 then [] else steps[0].rows + RowsOf(steps[1..], n - 1)
  }

  /** The rows of the first `n` steps are those of the first step, then those of the next `n - 1`. */
  lemma RowsOfFirst(steps: seq<Step>, n: nat)
    requires 0 < n <= |steps|
    ensures RowsOf(steps, n) == steps[0].rows + RowsOf(steps[1..], n - 1)
  {
  }

  /** The number of detections the first `n` runs meet. */
  function DetectionsOf(runs: seq<Run>, n: nat): nat
    requires n <= |runs|
  {
    if n == 0 then 0 else |runs[0].detections| + DetectionsOf(runs[1..], n - 1)
  }

  lemma {:induction false} CountSumAppend(a: seq<ObjectCount>, b: seq<ObjectCount>)
    ensures CountSum(a + b) == CountSum(a) + CountSum(b)
  {
    if a == [] {
      assert a + b == b;
    } else {
      assert (a + b)[1..] == a[1..] + b;
      assert (a + b)[0] == a[0];
      CountSumAppend(a[1..], b);
    }
  }

  /** The rows one run writes count its detections: none when there are none. */
  lemma PersistedRowsCount(run: Run)
    ensures CountSum(PersistedRows(run)) == |run.detections|
  {
    if run.detections != [] {
      ObjectCountsSum(run.detections, run.now);
    }
  }

  /**
   * Every detection of the first `n` runs is counted exactly once in the rows
   * they write: a run without detections writes nothing, and the others write
   * object counts adding up to their detections.
   */
  lemma {:induction false} RowsCountDetections(runs: seq<Run>, n: nat)
    requires n <= |runs|
    ensures CountSum(RowsOf(Steps(runs), n)) == DetectionsOf(runs, n)
  {
    if n > 0 {
      var steps := Steps(runs);
      StepsTail(runs);
      RowsOfFirst(steps, n);
      RowsCountDetections(runs[1..], n - 1);
      CountSumAppend(steps[0].rows, RowsOf(steps[1..], n - 1));
      PersistedRowsCount(runs[0]);
    }
  }

  /** What serving a sequence of runs comes to. */
  datatype Outcome = Outcome(
    starts: seq<int>,         // the clock at each dispatch
    failure: Option<Error>,   // the exception that ended the program, if any
    rows: seq<ObjectCount>,   // the rows written, in order
    pending: seq<Event>,      // the events left in the queue
    clock: int)               // the clock at the end

  /** An outcome preceded by the dispatches and rows already behind the scheduler. */
  function Then(starts: seq<int>, rows: seq<ObjectCount>, o: Outcome): Outcome
  {
    Outcome(starts + o.starts, o.failure, rows + o.rows, o.pending, o.clock)
  }

  /**
   * Serving `steps` from a scheduler whose clock reads `clock` and whose one
   * pending run is due 30 s later, until the steps are used up or one raises.
   */
  function Schedule(clock: int, steps: seq<Step>): Outcome
    decreases |steps|
  {
    if steps == [] then Outcome([], None, [], [Event(clock + 30, 1)], clock)
    else
      var at := clock + 30;
      var end := at + steps[0].duration;
      if steps[0].error.Some? then Outcome([at], steps[0].error, [], [], end)
      else Then([at], steps[0].rows, Schedule(end, steps[1..]))
  }

  /**
   * Every run is dispatched unless an earlier one raised, and a raising run
   * is itself dispatched.
   */
  lemma {:induction false} ScheduleLength(clock: int, steps: seq<Step>)
    ensures var o := Schedule(clock, steps);
      |o.starts| <= |steps| &&
      (o.failure.None? ==> |o.starts| == |steps|) &&
      (o.failure.Some? ==> |o.starts| > 0)
    decreases |steps|
  {
    if steps != [] && steps[0].error.None? {
      ScheduleLength(clock + 30 + steps[0].duration, steps[1..]);
    }
  }

  /** The first run is dispatched 30 s after start-up. */
  lemma ScheduleFirst(clock: int, steps: seq<Step>)
    requires steps != []
    ensures |Schedule(clock, steps).starts| > 0 && Schedule(clock, steps).starts[0] == clock + 30
  {
  }

  /**
   * Each later run is dispatched 30 s after the previous one ENDS, so the
   * cadence drifts with the run time instead of keeping a fixed grid.
   */
  lemma {:induction false} ScheduleGap(clock: int, steps: seq<Step>, k: nat)
    requires k + 1 < |Schedule(clock, steps).starts|
    ensures k + 1 < |steps|
    ensures Schedule(clock, steps).starts[k + 1] == Schedule(clock, steps).starts[k] + steps[k].duration + 30
    decreases |steps|
  {
    ScheduleLength(clock, steps);
    var end := clock + 30 + steps[0].duration;
    var rest := Schedule(end, steps[1..]);
    assert Schedule(clock, steps).starts == [clock + 30] + rest.starts;
    if k == 0 {
      ScheduleFirst(end, steps[1..]);
    } else {
      ScheduleGap(end, steps[1..], k - 1);
      assert steps[k] == steps[1..][k - 1];
    }
  }

  /** The clock ends when the last dispatched run ends. */
  lemma {:induction false} ScheduleClock(clock: int, steps: seq<Step>)
    ensures var o := Schedule(clock, steps);
      |o.starts| <= |steps| &&
      (|o.starts| == 0 ==> o.clock == clock) &&
      (|o.starts| > 0 ==> o.clock == o.starts[|o.starts| - 1] + steps[|o.starts| - 1].duration)
    decreases |steps|
  {
    ScheduleLength(clock, steps);
    if steps != [] && steps[0].error.None? {
      var end := clock + 30 + steps[0].duration;
      var rest := Schedule(end, steps[1..]);
      ScheduleClock(end, steps[1..]);
      var o := Schedule(clock, steps);
      assert o.starts == [clock + 30] + rest.starts;
      if |rest.starts| > 0 {
        assert o.starts[|o.starts| - 1] == rest.starts[|rest.starts| - 1];
        assert steps[|o.starts| - 1] == steps[1..][|rest.starts| - 1];
      }
    }
  }

  /** When the program fails, it fails at its last dispatch, with that run's error. */
  lemma {:induction false} ScheduleFailure(clock: int, steps: seq<Step>)
    ensures var o := Schedule(clock, steps);
      |o.starts| <= |steps| &&
      (o.failure.Some? ==> |o.starts| > 0 && o.failure == steps[|o.starts| - 1].error)
    decreases |steps|
  {
    ScheduleLength(clock, steps);
    if steps != [] && steps[0].error.None? {
      var end := clock + 30 + steps[0].duration;
      var rest := Schedule(end, steps[1..]);
      ScheduleFailure(end, steps[1..]);
      if rest.failure.Some? {
        assert steps[|rest.starts|] == steps[1..][|rest.starts| - 1];
      }
    }
  }

  /** Every dispatched run but a failing last one raised nothing. */
  lemma {:induction false} SchedulePassed(clock: int, steps: seq<Step>, k: nat)
    requires k < |Schedule(clock, steps).starts|
    requires Schedule(clock, steps).failure.None? || k + 1 < |Schedule(clock, steps).starts|
    ensures k < |steps| && steps[k].error.None?
    decreases |steps|
  {
    ScheduleLength(clock, steps);
    if k > 0 {
      var end := clock + 30 + steps[0].duration;
      SchedulePassed(end, steps[1..], k - 1);
      assert steps[k] == steps[1..][k - 1];
    }
  }

  /**
   * After the last dispatch the queue holds exactly one run, due 30 s later
   * with priority 1, unless a run raised: then nothing is pending and the
   * scheduler stops.
   */
  lemma {:induction false} SchedulePending(clock: int, steps: seq<Step>)
    ensures var o := Schedule(clock, steps);
      (o.failure.Some? <==> o.pending == []) &&
      (o.failure.None? ==> o.pending == [Event(o.clock + 30, 1)])
    decreases |steps|
  {
    if steps != [] && steps[0].error.None? {
      SchedulePending(clock + 30 + steps[0].duration, steps[1..]);
    }
  }

  /** The rows written are those of the runs that raised nothing, in order. */
  lemma {:induction false} ScheduleRows(clock: int, steps: seq<Step>)
    ensures var o := Schedule(clock, steps);
      |o.starts| <= |steps| &&
      (o.failure.None? ==> o.rows == RowsOf(steps, |o.starts|)) &&
      (o.failure.Some? ==> |o.starts| > 0 && o.rows == RowsOf(steps, |o.starts| - 1))
    decreases |steps|
  {
    ScheduleLength(clock, steps);
    if steps != [] && steps[0].error.None? {
      ScheduleRows(clock + 30 + steps[0].duration, steps[1..]);
    }
  }

  /**
   * run_object_detector: its steps take `run.duration` seconds; if none of
   * them raised, exactly one new run is entered 30 s later with priority 1.
   */
  method RunObjectDetector(sc: Scheduler, db: Table, run: Run) returns (failure: Option<Error>)
    modifies sc, db
    ensures failure == RunError(run)
    ensures sc.clock == old(sc.clock) + run.duration
    ensures sc.queue == old(sc.queue) +
      (if failure.None? then [Event(old(sc.clock) + run.duration + 30, 1)] else [])
    ensures db.rows == old(db.rows) + (if failure.None? then PersistedRows(run) else [])
  {
    sc.Work(run.duration);
    var url := Resolve.VideoUrl(run.info);
    if url.Failure? {
      return Some(url.error);
    }
    var img := GrabFrame(run.out);
    if img.Failure? {
      return Some(img.error);
    }
    if |run.detections| > 0 {
      var saved := SaveDetections(db, run.detections, run.now);
      assert saved.None?;
    }
    sc.Enter(30, 1);
    failure := None;
  }

  /**
   * One turn of the scheduler with exactly one run pending: sleep until it is
   * due, dispatch it, and return the clock at which it started.
   */
  method Dispatch(sc: Scheduler, db: Table, run: Run, ghost step: Step) returns (at: int, failure: Option<Error>)
    requires step == StepOf(run)
    requires |sc.queue| == 1 && sc.queue[0].time >= sc.clock
    modifies sc, db
    ensures at == old(sc.queue[0].time)
    ensures failure == step.error
    ensures sc.clock == at + step.duration
    ensures failure.Some? ==> sc.queue == []
    ensures failure.None? ==> |sc.queue| == 1 && sc.queue[0] == Event(sc.clock + 30, 1)
    ensures db.rows == old(db.rows) + (if failure.None? then step.rows else [])
  {
    assert Next(sc.queue) == 0;
    var ev := sc.TakeNext();
    at := sc.clock;
    failure := RunObjectDetector(sc, db, run);
  }

  /** With no step left, what is behind is all there is, and one run stays pending. */
  lemma ThenNothing(starts: seq<int>, rows: seq<ObjectCount>, clock: int, goal: Outcome)
    requires Then(starts, rows, Schedule(clock, [])) == goal
    ensures Outcome(starts, None, rows, [Event(clock + 30, 1)], clock) == goal
  {
    assert starts + [] == starts && rows + [] == rows;
  }

  /** A step that raises is dispatched 30 s after `clock` and ends everything. */
  lemma ThenRaise(starts: seq<int>, rows: seq<ObjectCount>, clock: int, steps: seq<Step>, goal: Outcome)
    requires steps != [] && steps[0].error.Some?
    requires Then(starts, rows, Schedule(clock, steps)) == goal
    ensures Outcome(starts + [clock + 30], steps[0].error, rows, [], clock + 30 + steps[0].duration) == goal
  {
    assert rows + [] == rows;
  }

  /** A step that raises nothing moves its dispatch and its rows behind the scheduler. */
  lemma ThenPass(starts: seq<int>, rows: seq<ObjectCount>, clock: int, steps: seq<Step>, goal: Outcome,
                 starts': seq<int>, rows': seq<ObjectCount>, clock': int)
    requires steps != [] && steps[0].error.None?
    requires Then(starts, rows, Schedule(clock, steps)) == goal
    requires starts' == starts + [clock + 30] && rows' == rows + steps[0].rows
    requires clock' == clock + 30 + steps[0].duration
    ensures Then(starts', rows', Schedule(clock', steps[1..])) == goal
  {
    var later := Schedule(clock', steps[1..]);
    assert Schedule(clock, steps) == Then([clock + 30], steps[0].rows, later);
    AppendAssociative(starts, [clock + 30], later.starts);
    AppendAssociative(rows, steps[0].rows, later.rows);
  }

  lemma AppendAssociative<T>(a: seq<T>, b: seq<T>, c: seq<T>)
    ensures (a + b) + c == a + (b + c)
  {
  }

  /**
   * The program's entry: the first run is entered 30 s ahead, then the
   * scheduler dispatches runs until one raises; `runs` holds what each
   * dispatched run meets, and `starts` the clock at each dispatch. The
   * dispatch times, the failure, the pending queue and the final clock are
   * `Schedule`'s, and its rows are appended to the table.
   */
  method Serve(sc: Scheduler, db: Table, runs: seq<Run>) returns (starts: seq<int>, failure: Option<Error>)
    requires sc.queue == []
    modifies sc, db
    ensures Outcome(starts, failure, db.rows, sc.queue, sc.clock) ==
      Then([], old(db.rows), Schedule(old(sc.clock), Steps(runs)))
  {
    ghost var later := Steps(runs);
    ghost var goal := Then([], db.rows, Schedule(sc.clock, later));
    sc.Enter(30, 1);
    starts := [];
    failure := None;
    var rest := runs;
    while rest != []
      invariant later == Steps(rest)
      invariant |sc.queue| == 1 && sc.queue[0] == Event(sc.clock + 30, 1)
      invariant Then(starts, db.rows, Schedule(sc.clock, later)) == goal
      decreases |rest|
    {
      StepsTail(rest);
      ghost var clock0, rows0, starts0 := sc.clock, db.rows, starts;
      var at, raised := Dispatch(sc, db, rest[0], later[0]);
      starts := starts + [at];
      if raised.Some? {
        ThenRaise(starts0, rows0, clock0, later, goal);
        failure := raised;
        return;
      }
      ThenPass(starts0, rows0, clock0, later, goal, starts, db.rows, sc.clock);
      rest := rest[1..];
      later := later[1..];
    }
    ThenNothing(starts, db.rows, sc.clock, goal);
  }
}
