/**
 * The newer collector: a `while True` loop that resolves the stream, grabs one
 * frame, takes the detections the model reports for it, inserts one wide
 * record per frame into the DetectedObjects table and sleeps until the next
 * half-minute mark of the capture second.
 */
module DetectVehicles {
  import opened Wrappers
  import opened Media
  import Counting
  import Resolve
  import Frames

  /** A decoded frame and the UTC instant read right after ffmpeg produced it. */
  datatype Capture = Capture(image: Frames.Image, timestamp: DateTime)

  /**
   * grab_frame: the size comes from the first video stream the probe lists;
   * reading the width of a missing stream raises, and so does reshaping a
   * buffer whose length is not height*width*3.
   */
  function GrabFrame(out: seq<byte>, streams: seq<Frames.Stream>, now: DateTime): (r: Result<Capture, Error>)
    ensures Frames.FirstVideo(streams).None? ==> r == Failure(NoVideoStream)
    ensures Frames.FirstVideo(streams).Some? ==>
      var st := streams[Frames.FirstVideo(streams).value];
      && (r.Success? <==> |out| == st.height * st.width * 3)
      && (r.Failure? ==> r.error == FrameSizeMismatch)
      && (r.Success? ==> r.value.timestamp == now)
      && (r.Success? ==> Frames.HasShape(r.value.image, st.height, st.width))
      && (r.Success? ==> Frames.Flatten(r.value.image) == out)
  {
    match Frames.FirstVideo(streams)
    case None => Failure(NoVideoStream)
    case Some(k) =>
      match Frames.Reshape(out, streams[k].height, streams[k].width)
      case Failure(e) => Failure(e)
      case Success(img) => Success(Capture(img, now))
  }

  /** A value of the inserted dictionary: a count, or the capture date. */
  datatype Cell = Count(n: nat) | Date(t: DateTime)

  /** One row as save_detections hands it to the insert: column name to value. */
  type Record = map<string, Cell>

  /**
   * The record of one frame: every detected name with its number of
   * detections, then `date` set to the capture instant. A name that was not
   * detected has no key at all, so its column is left NULL.
   */
  function DetectionRecord(ds: seq<Detection>, ts: DateTime): Record
  {
    var counts := Counting.ValueCounts(Names(ds));
    (map n | n in counts :: Count(counts[n]))["date" := Date(ts)]
  }

  lemma DetectionRecordMeans(ds: seq<Detection>, ts: DateTime)
    ensures var r := DetectionRecord(ds, ts);
      && "date" in r && r["date"] == Date(ts)
      && (forall n :: n != "date" ==> (n in r <==> n in Names(ds)))
      && (forall n :: n in r && n != "date" ==>
            r[n] == Count(Counting.Occurrences(Names(ds), n)) && r[n].n > 0)
  {
  }

  /** A frame without detections still yields a record, holding the date alone. */
  lemma EmptyFrameRecord(ts: DateTime)
    ensures DetectionRecord([], ts) == map["date" := Date(ts)]
  {
    var r := DetectionRecord([], ts);
    assert forall n :: n in r <==> n == "date";
  }

  /** The DetectedObjects table, append-only: the rows inserted so far, in order. */
  class Table {
    var rows: seq<Record>

    constructor ()
      ensures rows == []
    {
      rows := [];
    }

    method Insert(row: Record)
      modifies this
      ensures rows == old(rows) + [row]
    {
      rows := rows + [row];
    }
  }

  /** save_detections: count the names, add `date` to the dictionary, insert it. */
  method SaveDetections(db: Table, ds: seq<Detection>, ts: DateTime)
    modifies db
    ensures db.rows == old(db.rows) + [DetectionRecord(ds, ts)]
  {
    var counts := Counting.ValueCounts(Names(ds));
    var row: Record := map n | n in counts :: Count(counts[n]);
    row := row["date" := Date(ts)];
    db.Insert(row);
  }

  /** Seconds slept after a cycle: 30 - (second mod 30). */
  function SleepSeconds(second: Second): (d: int)
    ensures 1 <= d <= 30
    ensures (second + d) % 30 == 0
  {
    30 - second % 30
  }

  /** The sleep ends on the first half-minute mark strictly after the capture second. */
  lemma SleepReachesNextMark(second: Second, d: int)
    requires 1 <= d <= 30 && (second + d) % 30 == 0
    ensures d == SleepSeconds(second)
  {
  }

  /** The sleep depends on the capture second only through its place in the half minute. */
  lemma SleepDependsOnPhase(s1: Second, s2: Second)
    requires s1 % 30 == s2 % 30
    ensures SleepSeconds(s1) == SleepSeconds(s2)
  {
  }

  /** What the outside world supplies to one pass of the loop. */
  datatype Cycle = Cycle(
    info: Resolve.Info,               // extract_info's result
    out: seq<byte>,                   // the bytes ffmpeg decoded
    streams: seq<Frames.Stream>,      // ffprobe's stream list
    captured: DateTime,               // the UTC clock right after decoding
    detections: seq<Detection>)       // what the model reports for the frame

  /** The exception a cycle raises, if any: url selection first, then grab_frame. */
  function CycleError(c: Cycle): Option<Error>
  {
    match Resolve.VideoUrl(c.info)
    case Failure(e) => Some(e)
    case Success(_) =>
      match GrabFrame(c.out, c.streams, c.captured)
      case Failure(e) => Some(e)
      case Success(_) => None
  }

  /** A cycle completes exactly when its url resolves and its frame is grabbed. */
  lemma CycleErrorMeans(c: Cycle)
    ensures CycleError(c).None? <==>
      Resolve.VideoUrl(c.info).Success? && GrabFrame(c.out, c.streams, c.captured).Success?
  {
  }

  /** Whether every one of the cycles completes without raising. */
  predicate Completed(cs: seq<Cycle>)
  {
    forall k :: 0 <= k < |cs| ==> CycleError(cs[k]).None?
  }

  /** The sleeps that the given completed cycles take, one each. */
  function SleepsOf(cs: seq<Cycle>): (r: seq<int>)
    ensures |r| == |cs|
    ensures forall k :: 0 <= k < |cs| ==> r[k] == SleepSeconds(cs[k].captured.second)
  {
    seq(|cs|, k requires 0 <= k < |cs| => SleepSeconds(cs[k].captured.second))
  }

  /** The records that the given completed cycles insert, one each. */
  function RecordsOf(cs: seq<Cycle>): (r: seq<Record>)
    ensures |r| == |cs|
    ensures forall k :: 0 <= k < |cs| ==> r[k] == DetectionRecord(cs[k].detections, cs[k].captured)
  {
    seq(|cs|, k requires 0 <= k < |cs| => DetectionRecord(cs[k].detections, cs[k].captured))
  }

  /** One more completed cycle keeps the prefix completed. */
  lemma CompletedExtend(cs: seq<Cycle>, i: nat)
    requires i < |cs| && Completed(cs[..i]) && CycleError(cs[i]).None?
    ensures Completed(cs[..i + 1])
  {
    var done := cs[..i + 1];
    forall k | 0 <= k < |done|
      ensures CycleError(done[k]).None?
    {
      if k < i {
        assert done[k] == cs[..i][k];
      }
    }
  }

  /** One more completed cycle adds its sleep at the end. */
  lemma SleepsOfExtend(cs: seq<Cycle>, i: nat)
    requires i < |cs|
    ensures SleepsOf(cs[..i + 1]) == SleepsOf(cs[..i]) + [SleepSeconds(cs[i].captured.second)]
  {
    assert SleepsOf(cs[..i + 1])[..i] == SleepsOf(cs[..i]);
  }

  /** One more completed cycle adds its record at the end. */
  lemma RecordsOfExtend(cs: seq<Cycle>, i: nat)
    requires i < |cs|
    ensures RecordsOf(cs[..i + 1]) == RecordsOf(cs[..i]) + [DetectionRecord(cs[i].detections, cs[i].captured)]
  {
    assert RecordsOf(cs[..i + 1])[..i] == RecordsOf(cs[..i]);
  }

  /**
   * One pass of main's loop: resolve the url, grab the frame, save the
   * detections under the capture instant, and sleep. The first step that
   * raises ends the pass and nothing is inserted.
   */
  method RunCycle(db: Table, c: Cycle) returns (sleep: int, crash: Option<Error>)
    modifies db
    ensures crash == CycleError(c)
    ensures crash.None? ==> sleep == SleepSeconds(c.captured.second)
    ensures db.rows == old(db.rows) + (if crash.None? then [DetectionRecord(c.detections, c.captured)] else [])
  {
    var url := Resolve.VideoUrl(c.info);
    if url.Failure? {
      return 0, Some(url.error);
    }
    var grabbed := GrabFrame(c.out, c.streams, c.captured);
    if grabbed.Failure? {
      return 0, Some(grabbed.error);
    }
    SaveDetections(db, c.detections, grabbed.value.timestamp);
    sleep := SleepSeconds(grabbed.value.timestamp.second);
    crash := None;
  }

  /**
   * main: runs one cycle per element of `cycles` until one raises. Nothing
   * catches the exception, so the first failing cycle ends the loop and the
   * process. Every completed cycle inserts exactly one record, detections or
   * not, and then sleeps.
   */
  method RunMain(db: Table, cycles: seq<Cycle>) returns (sleeps: seq<int>, crash: Option<Error>)
    modifies db
    ensures |sleeps| <= |cycles|
    ensures Completed(cycles[..|sleeps|])
    ensures sleeps == SleepsOf(cycles[..|sleeps|])
    ensures crash.None? <==> |sleeps| == |cycles|
    ensures crash.Some? ==> crash == CycleError(cycles[|sleeps|])
    ensures db.rows == old(db.rows) + RecordsOf(cycles[..|sleeps|])
  {
    sleeps := [];
    crash := None;
    var i := 0;
    while i < |cycles|
      invariant 0 <= i <= |cycles| && |sleeps| == i
      invariant Completed(cycles[..i])
      invariant sleeps == SleepsOf(cycles[..i])
      invariant db.rows == old(db.rows) + RecordsOf(cycles[..i])
    {
      var sleep, raised := RunCycle(db, cycles[i]);
      if raised.Some? {
        crash := raised;
        return;
      }
      CompletedExtend(cycles, i);
      SleepsOfExtend(cycles, i);
      RecordsOfExtend(cycles, i);
      sleeps := sleeps + [sleep];
      i := i + 1;
    }
  }
}
