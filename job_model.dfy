/** The records of the video-generation job table in app.py, the rule by which
    `process_queue` takes ids off the dispatch queue, and the read-only views
    `get_generation_status`, `get_queue_status` and `list_jobs`. */
module JobModel {
  import opened Outcomes

  /** `MAX_VIDEO_WORKERS`. */
  const MaxVideoWorkers: int := 4

  /** `VideoGenerationStatus`. */
  datatype Status = Queued | Downloading | Generating | Finished | Error
  {
    /** The statuses `process_queue` and the views count as occupying a worker. */
    predicate IsActive() { this == Downloading || this == Generating }

    /** The statuses after which the status stream stops. */
    predicate IsTerminal() { this == Finished || this == Error }
  }

  /** `IDHighlightSegment`: a highlight the client chose to turn into a clip. */
  datatype Highlight = Highlight(id: string, startTime: string, endTime: string, title: string)

  /** One entry of `video_generation_jobs`. Timestamps are opaque instants
      supplied by the caller. */
  datatype Job = Job(
    jobId: string,
    status: Status,
    progress: int,
    currentTask: string,
    finishedVideos: seq<string>,
    errorMessage: Option<string>,
    createdAt: int,
    updatedAt: int,
    videoId: string,
    videoUrl: string,
    highlights: seq<Highlight>)

  /** An `HTTPException`: status code and detail text. */
  datatype ApiError = ApiError(statusCode: nat, detail: string)

  const JobNotFound := ApiError(404, "Job not found")

  /** Every record is stored under its own job id. */
  ghost predicate WellKeyed(jobs: map<string, Job>)
  {
    forall id :: id in jobs ==> jobs[id].jobId == id
  }

  /** The record `generate_videos` creates for a new job. */
  function NewJob(jobId: string, videoId: string, videoUrl: string, highlights: seq<Highlight>, now: int): (r: Job)
    ensures r.jobId == jobId && r.status == Queued && !r.status.IsActive()
    ensures r.progress == 0 && r.finishedVideos == [] && r.errorMessage == None
    ensures r.createdAt == r.updatedAt == now
  {
    Job(jobId, Queued, 0, "Initializing...", [], None, now, now, videoId, videoUrl, highlights)
  }

  /** Storing a record again under the same id leaves only the later one. */
  lemma Overwrite(jobs: map<string, Job>, id: string, a: Job, b: Job)
    ensures jobs[id := a][id := b] == jobs[id := b]
  {
  }

  /** Storing a record under a fresh id adds exactly that key and keeps every
      other record. */
  lemma InsertFresh(jobs: map<string, Job>, id: string, r: Job)
    requires id !in jobs
    ensures var m := jobs[id := r];
      && m.Keys == jobs.Keys + {id} && |m| == |jobs| + 1 && m[id] == r
      && forall x :: x in jobs ==> x in m && m[x] == jobs[x]
  {
  }

  /** Ids of the jobs counted as active. */
  function ActiveIds(jobs: map<string, Job>): set<string>
  {
    set id | id in jobs && jobs[id].status.IsActive()
  }

  /** The number of active jobs (`sum(1 for job in ... if status in [...])`). */
  function ActiveCount(jobs: map<string, Job>): nat
  {
    |ActiveIds(jobs)|
  }

  /** Worker slots `process_queue` believes are free. */
  function Free(jobs: map<string, Job>): int
  {
    MaxVideoWorkers - ActiveCount(jobs)
  }

  /** The ids of `ids` that still have a record, in order (`[... for job_id in queue
      if job_id in jobs]`): what `process_queue` submits out of a popped prefix. */
  function Live(ids: seq<string>, jobs: map<string, Job>): (r: seq<string>)
    ensures |r| <= |ids|
    ensures forall k :: 0 <= k < |r| ==> r[k] in jobs && r[k] in ids
    ensures forall k :: 0 <= k < |ids| && ids[k] in jobs ==> ids[k] in r
  {
    if ids == [] then []
    else (if ids[0] in jobs then [ids[0]] else []) + Live(ids[1..], jobs)
  }

  /** Filtering distributes over concatenation. */
  lemma {:induction false} LiveAppend(a: seq<string>, b: seq<string>, jobs: map<string, Job>)
    ensures Live(a + b, jobs) == Live(a, jobs) + Live(b, jobs)
    decreases |a|
  {
    if a != [] {
      var head := if a[0] in jobs then [a[0]] else [];
      assert (a + b)[0] == a[0];
      assert (a + b)[1..] == a[1..] + b;
      assert Live(a + b, jobs) == head + Live(a[1..] + b, jobs);
      LiveAppend(a[1..], b, jobs);
      assert Live(a, jobs) == head + Live(a[1..], jobs);
    } else {
      assert a + b == b;
    }
  }

  /** Nothing is filtered out exactly when every id has a record. */
  lemma {:induction false} LiveKeepsAll(ids: seq<string>, jobs: map<string, Job>)
    ensures |Live(ids, jobs)| == |ids| <==> forall k :: 0 <= k < |ids| ==> ids[k] in jobs
    decreases |ids|
  {
    if ids != [] {
      LiveKeepsAll(ids[1..], jobs);
      assert forall k :: 1 <= k < |ids| ==> ids[k] == ids[1..][k - 1];
      if ids[0] in jobs && forall k :: 0 <= k < |ids| - 1 ==> ids[1..][k] in jobs {
        forall k | 0 <= k < |ids| ensures ids[k] in jobs {
          if k > 0 { assert ids[k] == ids[1..][k - 1]; }
        }
      }
    }
  }

  /** How many ids one `process_queue` call pops off the front of `queue` when it
      starts with `free` free slots: it pops while a slot is free and the queue is
      not empty, and only a popped id that still has a record uses a slot. */
  function PopCount(queue: seq<string>, jobs: map<string, Job>, free: int): (k: nat)
    ensures k <= |queue|
    decreases |queue|
  {
    if free <= 0 || queue == [] then 0
    else if queue[0] in jobs then 1 + PopCount(queue[1..], jobs, free - 1)
    else 1 + PopCount(queue[1..], jobs, free)
  }

  /** The capacity rule of one `process_queue` call: it submits at most the free
      slots (and nothing when none is free); it stops only when the queue is empty
      or the submitted jobs fill the free slots; and it did not stop any earlier. */
  lemma {:induction false} PopCountSpec(queue: seq<string>, jobs: map<string, Job>, free: int)
    ensures PopCount(queue, jobs, free) <= |queue|
    ensures |Live(queue[..PopCount(queue, jobs, free)], jobs)| <= if free > 0 then free else 0
    ensures PopCount(queue, jobs, free) == |queue| ||
            |Live(queue[..PopCount(queue, jobs, free)], jobs)| >= free
    ensures forall j :: 0 <= j < PopCount(queue, jobs, free) ==> |Live(queue[..j], jobs)| < free
    decreases |queue|
  {
    if free > 0 && queue != [] {
      var x, rest := queue[0], queue[1..];
      var free' := if x in jobs then free - 1 else free;
      PopCountSpec(rest, jobs, free');
      var k := PopCount(queue, jobs, free);
      assert k == 1 + PopCount(rest, jobs, free');
      LiveOfCons(queue, k, jobs);
      forall j | 0 <= j < k ensures |Live(queue[..j], jobs)| < free {
        if j > 0 {
          LiveOfCons(queue, j, jobs);
        }
      }
    }
  }

  /** A prefix of the queue keeps its head exactly when the head has a record. */
  lemma LiveOfCons(queue: seq<string>, j: nat, jobs: map<string, Job>)
    requires 0 < j <= |queue|
    ensures |Live(queue[..j], jobs)| == (if queue[0] in jobs then 1 else 0) + |Live(queue[1..][..j - 1], jobs)|
  {
    assert queue[..j] == [queue[0]] + queue[1..][..j - 1];
    LiveAppend([queue[0]], queue[1..][..j - 1], jobs);
  }

  /** One pop of `process_queue` at position `i` of the queue it started with:
      the remaining count drops by one, and the submitted ids grow by the popped
      id exactly when it still has a record. */
  lemma PopOne(q: seq<string>, i: nat, jobs: map<string, Job>, free: int)
    requires i < |q| && free > 0
    ensures PopCount(q[i..], jobs, free) ==
            1 + PopCount(q[i + 1..], jobs, if q[i] in jobs then free - 1 else free)
    ensures Live(q[..i + 1], jobs) == Live(q[..i], jobs) + (if q[i] in jobs then [q[i]] else [])
  {
    assert q[i..][1..] == q[i + 1..];
    assert q[..i + 1] == q[..i] + [q[i]];
    LiveAppend(q[..i], [q[i]], jobs);
  }

  /** Nothing more is popped once no slot is free or the queue is used up. */
  lemma PopStop(q: seq<string>, i: nat, jobs: map<string, Job>, free: int)
    requires i <= |q| && (free <= 0 || i == |q|)
    ensures PopCount(q[i..], jobs, free) == 0
  {
  }

  /** The loop of `process_queue` once `active` jobs are counted: pops ids off
      the front of `queue` while fewer than `MaxVideoWorkers` are active,
      submitting each popped id that still has a record. Returns how many ids
      were popped and the ids submitted. */
  method PopQueue(queue: seq<string>, jobs: map<string, Job>, active: nat) returns (popped: nat, submitted: seq<string>)
    ensures popped == PopCount(queue, jobs, MaxVideoWorkers - active)
    ensures submitted == Live(queue[..popped], jobs)
  {
    var running := active;
    popped := 0;
    submitted := [];
    while running < MaxVideoWorkers && popped < |queue|
      invariant popped <= |queue|
      invariant submitted == Live(queue[..popped], jobs)
      invariant PopCount(queue, jobs, MaxVideoWorkers - active) ==
                popped + PopCount(queue[popped..], jobs, MaxVideoWorkers - running)
    {
      PopOne(queue, popped, jobs, MaxVideoWorkers - running);
      var jobId := queue[popped];
      if jobId in jobs {
        submitted := submitted + [jobId];
        running := running + 1;
      }
      popped := popped + 1;
    }
    PopStop(queue, popped, jobs, MaxVideoWorkers - running);
  }

  /** `get_generation_status`: the record, or 404 for an unknown id. */
  function GenerationStatus(jobs: map<string, Job>, id: string): (r: Result<Job, ApiError>)
    requires WellKeyed(jobs)
    ensures r.Ok? <==> id in jobs
    ensures r.Ok? ==> r.value.jobId == id && r.value == jobs[id]
    ensures r.Err? ==> r.error.statusCode == 404
  {
    if id in jobs then Ok(jobs[id]) else Err(JobNotFound)
  }

  /** The body of `get_queue_status`. */
  datatype QueueStatus = QueueStatus(
    queueLength: nat,
    activeCount: nat,
    maxConcurrent: int,
    availableSlots: int,
    queuedJobs: seq<Job>,
    activeJobs: map<string, Job>)

  /** `get_queue_status`: `queue_length` counts every queued id, `queued_jobs` only
      those that still have a record, and the free slots are the maximum minus the
      active jobs. */
  function QueueStatusOf(jobs: map<string, Job>, queue: seq<string>): (r: QueueStatus)
    ensures r.queueLength == |queue| && |r.queuedJobs| <= r.queueLength
    ensures |r.queuedJobs| == |Live(queue, jobs)|
    ensures forall k :: 0 <= k < |r.queuedJobs| ==>
      Live(queue, jobs)[k] in jobs && r.queuedJobs[k] == jobs[Live(queue, jobs)[k]]
    ensures r.activeJobs.Keys == ActiveIds(jobs) && r.activeCount == ActiveCount(jobs)
    ensures forall id :: id in r.activeJobs ==> r.activeJobs[id] == jobs[id]
    ensures r.maxConcurrent == MaxVideoWorkers
    ensures r.availableSlots == MaxVideoWorkers - r.activeCount
  {
    var live := Live(queue, jobs);
    var active := map id | id in ActiveIds(jobs) :: jobs[id];
    assert active.Keys == ActiveIds(jobs);
    QueueStatus(
      |queue|,
      |ActiveIds(jobs)|,
      MaxVideoWorkers,
      MaxVideoWorkers - |ActiveIds(jobs)|,
      seq(|live|, k requires 0 <= k < |live| => jobs[live[k]]),
      active)
  }

  /** `queue_info` of `list_jobs`. */
  datatype QueueInfo = QueueInfo(queuedJobs: nat, activeJobs: nat, maxConcurrent: int)

  /** The body of `list_jobs`; the job list is the table itself (key order is not kept). */
  datatype JobListing = JobListing(jobs: map<string, Job>, queueInfo: QueueInfo)

  /** `list_jobs`: all records, and the queue length counting every queued id. */
  function ListJobsOf(jobs: map<string, Job>, queue: seq<string>): (r: JobListing)
    ensures r.jobs == jobs
    ensures r.queueInfo.queuedJobs == |queue|
    ensures r.queueInfo.activeJobs == ActiveCount(jobs)
    ensures r.queueInfo.maxConcurrent == MaxVideoWorkers
  {
    JobListing(jobs, QueueInfo(|queue|, |ActiveIds(jobs)|, MaxVideoWorkers))
  }

  /** The two views agree on the active count, and `list_jobs` reports as many
      queued jobs as `get_queue_status` lists exactly when every queued id still
      has a record (a deleted job stays counted by the first, omitted by the second). */
  lemma QueueViewsAgree(jobs: map<string, Job>, queue: seq<string>)
    ensures ListJobsOf(jobs, queue).queueInfo.activeJobs == QueueStatusOf(jobs, queue).activeCount
    ensures ListJobsOf(jobs, queue).queueInfo.queuedJobs >= |QueueStatusOf(jobs, queue).queuedJobs|
    ensures ListJobsOf(jobs, queue).queueInfo.queuedJobs == |QueueStatusOf(jobs, queue).queuedJobs|
            <==> forall k :: 0 <= k < |queue| ==> queue[k] in jobs
  {
    LiveKeepsAll(queue, jobs);
  }
}
