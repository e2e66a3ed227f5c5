/** The Server-Sent Events stream of one job's status (`stream_generation_status`
    and its generator `generate_status_updates` in app.py). Each iteration of the
    generator first looks the job up: when the record is gone it returns. Otherwise
    it copies the record and sends the copy, and only when it resumes after that
    `yield` does it read the status of the record again (the same dict object,
    which a worker may have updated meanwhile) to decide whether to stop. One
    iteration is one tick of the input: `Gone`, or the copy sent together with the
    status read afterwards. The one-second sleep between ticks and the JSON
    encoder are not modelled: `encode` stands for `json.dumps` of the record. */
module StatusStream {
  import opened Outcomes
  import opened JobModel
  import opened Lifecycle

  /** One SSE event: `data: <payload>` followed by a blank line. */
  function Frame(payload: string): (f: string)
    ensures |f| == |payload| + 8
    ensures f[..6] == "data: " && f[6..|f| - 2] == payload && f[|f| - 2..] == "\n\n"
  {
    "data: " + payload + "\n\n"
  }

  /** The bytes of the response body: the frames one after another. */
  function Body(payloads: seq<string>): string
    decreases |payloads|
  {
    if payloads == [] then [] else Frame(payloads[0]) + Body(payloads[1..])
  }

  /** Position of the first line feed, or the length when there is none. */
  function LineEnd(s: string): (e: nat)
    ensures e <= |s| && '\n' !in s[..e]
    ensures e < |s| ==> s[e] == '\n'
    decreases |s|
  {
    if s == [] then 0
    else if s[0] == '\n' then 0
    else
      var e := 1 + LineEnd(s[1..]);
      assert s[..e] == [s[0]] + s[1..][..e - 1];
      e
  }

  /** A client's reading of a body: a sequence of `data:` events, each ended
      by a blank line; anything else is malformed. */
  function Events(s: string): Option<seq<string>>
    decreases |s|
  {
    if s == [] then Some([])
    else if |s| < 6 || s[..6] != "data: " then None
    else
      var rest := s[6..];
      var e := LineEnd(rest);
      if e + 2 <= |rest| && rest[e..e + 2] == "\n\n" then
        match Events(rest[e + 2..])
        case None => None
        case Some(more) => Some([rest[..e]] + more)
      else None
  }

  lemma LineEndOfFrame(p: string, t: string)
    requires '\n' !in p
    ensures LineEnd(p + "\n\n" + t) == |p|
    decreases |p|
  {
    if p != [] {
      assert (p + "\n\n" + t)[1..] == p[1..] + "\n\n" + t;
      LineEndOfFrame(p[1..], t);
    }
  }

  /** A client reads back exactly the payloads sent, as long as no payload
      contains a line feed (`json.dumps` escapes them inside strings). */
  lemma {:induction false} EventsOfBody(payloads: seq<string>)
    requires forall k :: 0 <= k < |payloads| ==> '\n' !in payloads[k]
    ensures Events(Body(payloads)) == Some(payloads)
    decreases |payloads|
  {
    if payloads != [] {
      var p := payloads[0];
      var tail := Body(payloads[1..]);
      var s := Body(payloads);
      assert s == "data: " + (p + "\n\n" + tail);
      assert s[..6] == "data: ";
      var rest := s[6..];
      assert rest == p + "\n\n" + tail;
      LineEndOfFrame(p, tail);
      assert rest[..|p|] == p;
      assert rest[|p|..|p| + 2] == "\n\n";
      assert rest[|p| + 2..] == tail;
      EventsOfBody(payloads[1..]);
      assert [p] + payloads[1..] == payloads;
    }
  }

  /** What one iteration of the generator observes: the record is gone, or the
      copy it sent and the status of the record when it resumed. */
  datatype Tick = Gone | Seen(sent: Job, after: Status)

  /** How many frames the generator sends for the ticks it sees: it stops
      before sending when the record is gone, and right after a frame when the
      status it reads on resuming is finished or failed. */
  function FrameCount(ticks: seq<Tick>): (n: nat)
    ensures n <= |ticks|
    ensures forall k :: 0 <= k < n ==> ticks[k].Seen?
    ensures forall k :: 0 <= k < n - 1 ==> !ticks[k].after.IsTerminal()
    ensures n == |ticks| || ticks[n].Gone? || (n > 0 && ticks[n - 1].after.IsTerminal())
    decreases |ticks|
  {
    if ticks == [] || ticks[0].Gone? then 0
    else if ticks[0].after.IsTerminal() then 1
    else 1 + FrameCount(ticks[1..])
  }

  /** The rule above fixes the count: any cut with the same properties is it. */
  lemma FrameCountUnique(ticks: seq<Tick>, n: nat)
    requires n <= |ticks|
    requires forall k :: 0 <= k < n ==> ticks[k].Seen?
    requires forall k :: 0 <= k < n - 1 ==> !ticks[k].after.IsTerminal()
    requires n == |ticks| || ticks[n].Gone? || (n > 0 && ticks[n - 1].after.IsTerminal())
    ensures n == FrameCount(ticks)
  {
  }

  /** Whether the generator has returned after the ticks: its record was
      gone, or it read a final status after its last frame. Otherwise it is
      still polling. */
  predicate Closed(ticks: seq<Tick>)
  {
    var n := FrameCount(ticks);
    n < |ticks| || (n > 0 && ticks[n - 1].after.IsTerminal())
  }

  /** `generate_status_updates`: the frames sent for the ticks seen, and whether
      the generator returned. */
  method StatusUpdates(ticks: seq<Tick>, encode: Job -> string) returns (frames: seq<string>, closed: bool)
    ensures |frames| == FrameCount(ticks)
    ensures forall k :: 0 <= k < |frames| ==> ticks[k].Seen? && frames[k] == Frame(encode(ticks[k].sent))
    ensures closed == Closed(ticks)
  {
    frames := [];
    closed := false;
    var i: nat := 0;
    while i < |ticks| && !closed
      invariant 0 <= i <= |ticks| && |frames| == i
      invariant forall k :: 0 <= k < i ==> ticks[k].Seen? && frames[k] == Frame(encode(ticks[k].sent))
      invariant forall k :: 0 <= k < i - 1 ==> !ticks[k].after.IsTerminal()
      invariant !closed ==> i == 0 || !ticks[i - 1].after.IsTerminal()
      invariant closed ==> (i < |ticks| && ticks[i].Gone?) || (i > 0 && ticks[i - 1].after.IsTerminal())
      decreases |ticks| - i, if closed then 0 else 1
    {
      if ticks[i].Gone? {
        closed := true;
      } else {
        frames := frames + [Frame(encode(ticks[i].sent))];
        var status := ticks[i].after;
        i := i + 1;
        if status.IsTerminal() {
          closed := true;
        }
      }
    }
    FrameCountUnique(ticks, i);
  }

  /** `stream_generation_status`: 404 for an unknown job; otherwise the stream. */
  method StreamGenerationStatus(jobs: map<string, Job>, jobId: string, ticks: seq<Tick>, encode: Job -> string)
    returns (r: Result<(seq<string>, bool), ApiError>)
    ensures jobId !in jobs <==> r == Err(JobNotFound)
    ensures r.Ok? ==> |r.value.0| == FrameCount(ticks) && r.value.1 == Closed(ticks)
    ensures r.Ok? ==> forall k :: 0 <= k < |r.value.0| ==>
      ticks[k].Seen? && r.value.0[k] == Frame(encode(ticks[k].sent))
  {
    if jobId !in jobs {
      return Err(JobNotFound);
    }
    var frames, closed := StatusUpdates(ticks, encode);
    r := Ok((frames, closed));
  }

  /** Following a run: the record starts as the stored QUEUED `r0` and then goes
      through the snapshots of `process_video_generation`. On tick `k` the stream
      copies snapshot `seen[k]` and, on resuming, reads the status of snapshot
      `after[k]`, the same or a later one. The stream closes exactly when it reads
      the final status, and not before; it sends the final snapshot only when it
      copied it on that last tick, so the run may end without its final frame. */
  lemma StreamFollowsRun(r0: Job, downloadError: Option<string>, setupError: Option<string>,
                         clip: nat -> ClipOutcome, now: int, seen: seq<nat>, after: seq<nat>, ticks: seq<Tick>)
    requires r0.status == Queued
    requires |seen| == |ticks| && |after| == |ticks|
    requires forall k :: 0 <= k < |ticks| ==>
      var t := [r0] + RunTrace(r0, downloadError, setupError, clip, now);
      seen[k] <= after[k] < |t| && ticks[k] == Seen(t[seen[k]], t[after[k]].status)
    ensures var last := |RunTrace(r0, downloadError, setupError, clip, now)|;
      var n := FrameCount(ticks);
      && (forall k :: 0 <= k < n - 1 ==> seen[k] != last && after[k] != last)
      && (Closed(ticks) <==> exists k :: 0 <= k < |ticks| && after[k] == last)
      && (Closed(ticks) ==> after[n - 1] == last)
      && (Closed(ticks) ==> ((exists k :: 0 <= k < n && seen[k] == last) <==> seen[n - 1] == last))
  {
    var t := [r0] + RunTrace(r0, downloadError, setupError, clip, now);
    RunTraceLifecycle(r0, downloadError, setupError, clip, now);
    forall k | 0 <= k < |t| - 1 ensures !t[k].status.IsTerminal() {
      if k > 0 {
        assert t[k] == RunTrace(r0, downloadError, setupError, clip, now)[k - 1];
      }
    }
    StreamFollowsTrace(t, seen, after, ticks);
  }

  /** The same for any sequence of records in which only the last is final. */
  lemma StreamFollowsTrace(t: seq<Job>, seen: seq<nat>, after: seq<nat>, ticks: seq<Tick>)
    requires |t| > 0 && t[|t| - 1].status.IsTerminal()
    requires forall k :: 0 <= k < |t| - 1 ==> !t[k].status.IsTerminal()
    requires |seen| == |ticks| && |after| == |ticks|
    requires forall k :: 0 <= k < |ticks| ==> seen[k] <= after[k] < |t| && ticks[k] == Seen(t[seen[k]], t[after[k]].status)
    ensures var last := |t| - 1;
      var n := FrameCount(ticks);
      && (forall k :: 0 <= k < n - 1 ==> seen[k] != last && after[k] != last)
      && (Closed(ticks) <==> exists k :: 0 <= k < |ticks| && after[k] == last)
      && (Closed(ticks) ==> after[n - 1] == last)
      && (Closed(ticks) ==> ((exists k :: 0 <= k < n && seen[k] == last) <==> seen[n - 1] == last))
  {
    forall k | 0 <= k < |ticks| ensures ticks[k].after.IsTerminal() <==> after[k] == |t| - 1 {
    }
    if exists k :: 0 <= k < |ticks| && after[k] == |t| - 1 {
      var k :| 0 <= k < |ticks| && after[k] == |t| - 1;
      assert ticks[k].after.IsTerminal();
    }
  }

  /** The stream can close without ever sending a final record: it copies a
      generating record, the run finishes while it is suspended, and on resuming
      it reads FINISHED and returns. */
  lemma StreamCanMissFinalFrame(generating: Job, finished: Job)
    requires generating.status == Generating && finished.status == Finished
    ensures var ticks := [Seen(generating, finished.status)];
      && FrameCount(ticks) == 1 && Closed(ticks)
      && forall k :: 0 <= k < FrameCount(ticks) ==> !ticks[k].sent.status.IsTerminal()
  {
  }
}
