/** The server state of app.py: the job table `video_generation_jobs`, the FIFO
    `video_generation_queue`, and the jobs handed to the worker pool, with the
    request handlers and the background task that change them. Each method runs
    as one atomic step (the lock around the queue is not modelled separately);
    `executor.submit` appends the job id to `dispatched`. */
module JobServer {
  import opened Outcomes
  import opened JobModel
  import opened Lifecycle
  import YouTubeUrl

  /** `VideoGenerationResponse`. */
  datatype GenerateResponse = GenerateResponse(jobId: string, status: Status, message: string)

  class Server {
    var jobs: map<string, Job>
    var queue: seq<string>
    var dispatched: seq<string>

    ghost predicate Valid()
      reads this
    {
      WellKeyed(jobs)
    }

    constructor ()
      ensures Valid()
      ensures jobs == map[] && queue == [] && dispatched == []
    {
      jobs := map[];
      queue := [];
      dispatched := [];
    }

    /** `process_queue`: counts the active jobs, then pops ids off the front of the
        queue while a worker slot is free, submitting each popped id whose job still
        exists and silently dropping the others. */
    method ProcessQueue()
      modifies this
      ensures jobs == old(jobs)
      ensures var k := PopCount(old(queue), jobs, Free(jobs));
        queue == old(queue)[k..] && dispatched == old(dispatched) + Live(old(queue)[..k], jobs)
    {
      var popped, submitted := PopQueue(queue, jobs, ActiveCount(jobs));
      dispatched := dispatched + submitted;
      queue := queue[popped..];
    }

    /** `generate_videos`: rejects a URL without a video id with a 500; otherwise
        stores a new queued record under the fresh id `newId` (a `uuid4` in the
        source, hence never seen before), appends the id to the queue and runs
        `process_queue`. */
    method GenerateVideos(videoUrl: string, urlQuery: string, highlights: seq<Highlight>, newId: string, now: int)
      returns (r: Result<GenerateResponse, ApiError>)
      requires Valid()
      requires newId !in jobs && newId !in queue && newId !in dispatched
      modifies this
      ensures Valid()
      ensures YouTubeUrl.VideoIdFromQuery(urlQuery).Err? ==>
        && r == Err(ApiError(500, "Failed to start video generation: " +
                                  YouTubeUrl.ErrorText(YouTubeUrl.VideoIdFromQuery(urlQuery).error, videoUrl)))
        && jobs == old(jobs) && queue == old(queue) && dispatched == old(dispatched)
      ensures YouTubeUrl.VideoIdFromQuery(urlQuery).Ok? ==>
        var created := NewJob(newId, YouTubeUrl.VideoIdFromQuery(urlQuery).value, videoUrl, highlights, now);
        var q := old(queue) + [newId];
        var k := PopCount(q, jobs, Free(jobs));
        && r == Ok(GenerateResponse(newId, Queued, "Video generation job queued successfully"))
        && jobs == old(jobs)[newId := created]
        && jobs.Keys == old(jobs).Keys + {newId} && |jobs| == |old(jobs)| + 1
        && (forall id :: id in old(jobs) ==> id in jobs && jobs[id] == old(jobs)[id])
        && jobs[newId].status == Queued && jobs[newId].progress == 0
        && jobs[newId].finishedVideos == [] && jobs[newId].errorMessage == None
        && queue == q[k..]
        && dispatched == old(dispatched) + Live(q[..k], jobs)
    {
      var videoId := YouTubeUrl.VideoIdFromQuery(urlQuery);
      if videoId.Err? {
        return Err(ApiError(500, "Failed to start video generation: " + YouTubeUrl.ErrorText(videoId.error, videoUrl)));
      }
      var created := NewJob(newId, videoId.value, videoUrl, highlights, now);
      InsertFresh(jobs, newId, created);
      jobs := jobs[newId := created];
      queue := queue + [newId];
      ProcessQueue();
      r := Ok(GenerateResponse(newId, Queued, "Video generation job queued successfully"));
    }

    /** `delete_job`: removes exactly the given record, or answers 404. The id is
        left in the queue if it is still there. */
    method DeleteJob(jobId: string) returns (r: Result<string, ApiError>)
      requires Valid()
      modifies this
      ensures Valid()
      ensures jobId in old(jobs) ==> r == Ok("Job deleted successfully") && jobs == old(jobs) - {jobId}
      ensures jobId !in old(jobs) ==> r == Err(JobNotFound) && jobs == old(jobs)
      ensures jobId !in jobs && GenerationStatus(jobs, jobId) == Err(JobNotFound)
      ensures queue == old(queue) && dispatched == old(dispatched)
    {
      if jobId !in jobs {
        return Err(JobNotFound);
      }
      jobs := jobs - {jobId};
      r := Ok("Job deleted successfully");
    }

    /** `process_video_generation`, run by a worker for `jobId`. When the record is
        gone the initial lookup raises outside the handler and nothing happens.
        Otherwise the record goes through the snapshots of `RunTrace`, which this
        method returns, and ends as the last one; then `process_queue` runs. */
    method ProcessVideoGeneration(jobId: string, downloadError: Option<string>, setupError: Option<string>,
                                  clip: nat -> ClipOutcome, now: int)
      returns (trace: seq<Job>)
      requires Valid()
      modifies this
      ensures Valid()
      ensures jobId !in old(jobs) ==>
        trace == [] && jobs == old(jobs) && queue == old(queue) && dispatched == old(dispatched)
      ensures jobId in old(jobs) ==>
        && trace == RunTrace(old(jobs)[jobId], downloadError, setupError, clip, now)
        && |trace| >= 2
        && jobs == old(jobs)[jobId := trace[|trace| - 1]]
        && var k := PopCount(old(queue), jobs, Free(jobs));
           queue == old(queue)[k..] && dispatched == old(dispatched) + Live(old(queue)[..k], jobs)
    {
      if jobId !in jobs {
        return [];
      }
      trace := RunJob(jobId, downloadError, setupError, clip, now);
      ProcessQueue();
    }

    /** The `try` block of `process_video_generation` with its handler: the
        record is stored after every change, and the stored snapshots are those
        of `RunTrace`. */
    method RunJob(jobId: string, downloadError: Option<string>, setupError: Option<string>,
                  clip: nat -> ClipOutcome, now: int)
      returns (trace: seq<Job>)
      requires Valid() && jobId in jobs
      modifies this
      ensures trace == RunTrace(old(jobs)[jobId], downloadError, setupError, clip, now)
      ensures |trace| >= 2 && trace[|trace| - 1].jobId == jobId
      ensures jobs == old(jobs)[jobId := trace[|trace| - 1]]
      ensures queue == old(queue) && dispatched == old(dispatched)
    {
      var job := jobs[jobId];
      job := job.(status := Downloading, currentTask := "Downloading video...", updatedAt := now);
      jobs := jobs[jobId := job];
      var downloading := job;
      if downloadError.Some? {
        job := job.(status := Error, errorMessage := Some(downloadError.value), updatedAt := now);
        Overwrite(old(jobs), jobId, downloading, job);
        jobs := jobs[jobId := job];
        return [downloading, job];
      }
      job := job.(status := Generating, currentTask := "Generating video clips...", progress := 10, updatedAt := now);
      Overwrite(old(jobs), jobId, downloading, job);
      jobs := jobs[jobId := job];
      var generating := job;
      if setupError.Some? {
        job := job.(status := Error, errorMessage := Some(setupError.value), updatedAt := now);
        Overwrite(old(jobs), jobId, generating, job);
        jobs := jobs[jobId := job];
        return [downloading, generating, job];
      }
      var steps, finished;
      job, steps, finished := GenerateClips(jobId, job, clip, now);
      var announced := job;
      job := job.(status := Finished, currentTask := "Completed!", progress := 100,
                  finishedVideos := finished, updatedAt := now);
      Overwrite(old(jobs), jobId, announced, job);
      jobs := jobs[jobId := job];
      trace := [downloading, generating] + steps + [job];
    }

    /** The loop of `process_video_generation` over the chosen highlights: each one
        is announced in the record, and a written clip's path is appended to the
        record's finished videos. Returns the last record, the snapshots stored,
        and the finished paths. */
    method GenerateClips(jobId: string, start: Job, clip: nat -> ClipOutcome, now: int)
      returns (job: Job, steps: seq<Job>, finished: seq<string>)
      requires start.jobId == jobId && jobId in jobs && jobs[jobId] == start
      modifies this
      ensures var loop := ClipLoop(start, OutputDir(start.videoId), start.highlights, clip, |start.highlights|, now);
        job == loop.0 && steps == loop.1
      ensures finished == Produced(OutputDir(start.videoId), start.highlights, clip, |start.highlights|)
      ensures job.jobId == jobId && jobs == old(jobs)[jobId := job]
      ensures queue == old(queue) && dispatched == old(dispatched)
    {
      var outputDir := OutputDir(start.videoId);
      var highlights := start.highlights;
      var total := |highlights|;
      job := start;
      steps := [];
      finished := [];
      var i: nat := 0;
      while i < total
        invariant 0 <= i <= total
        invariant job == ClipLoop(start, outputDir, highlights, clip, i, now).0
        invariant steps == ClipLoop(start, outputDir, highlights, clip, i, now).1
        invariant finished == Produced(outputDir, highlights, clip, i)
        invariant job.jobId == jobId && jobs == old(jobs)[jobId := job]
        invariant queue == old(queue) && dispatched == old(dispatched)
      {
        ClipLoopNext(start, outputDir, highlights, clip, i, now);
        ghost var before := ClipLoop(start, outputDir, highlights, clip, i, now);
        var h := highlights[i];
        job := job.(currentTask := "Generating video " + NatText(i + 1) + "/" + NatText(total) + ": " + h.title,
                    progress := ClipProgress(i, total),
                    updatedAt := now);
        ghost var announced := Announce(before.0, i, total, h, now);
        assert job == announced;
        Overwrite(old(jobs), jobId, before.0, job);
        jobs := jobs[jobId := job];
        steps := steps + [job];
        if clip(i).ClipWritten? {
          finished := finished + [ClipPath(outputDir, h.id)];
          job := job.(finishedVideos := finished);
          Overwrite(old(jobs), jobId, announced, job);
          jobs := jobs[jobId := job];
          steps := steps + [job];
          assert steps == before.1 + [announced, job];
        }
        i := i + 1;
      }
    }
  }
}
