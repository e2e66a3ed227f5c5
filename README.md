# Video job server and agent runner — a Dafny model

This project models the stateful core of the brainrot video generator's
backend. There are two parts.

**The FastAPI server (`app.py`)** keeps three pieces of state:

- a table of video-generation job records, keyed by job id;
- a FIFO queue of job ids waiting for a worker;
- a pool of at most `MAX_VIDEO_WORKERS` = 4 workers.

The model covers:

- `generate_videos`: extracts the YouTube video id with `get_yt_video_id`, stores a QUEUED record, appends its id and runs `process_queue`.
- `process_queue`: pops ids while a slot is free. It drops ids whose record was deleted without using a slot.
- The status lookup, the job list and the queue status.
- `delete_job`.
- The worker `process_video_generation`. It moves a record through DOWNLOADING and GENERATING to FINISHED or ERROR, announcing each highlight with a progress value and collecting the `out_<id>.mp4` clips that were written.
- The Server-Sent Events generator. On each tick it sends a copy of the record. It stops when the record is gone, or when the status it reads again after sending is FINISHED or ERROR, so a run that finishes while the generator is suspended may end the stream without a final frame.

**`MCPAgentRunner` (`mcp_client.py`)** covers:

- initialising the agent once;
- reading the follower list, after stripping Markdown code fences from the reply;
- uploading clips and collecting their watch URLs in order;
- sending a DM per (link, follower) pair and folding the outcomes into a per-follower status where "failed" is sticky.

Modules:

- `Outcomes`: the `Option` and `Result` types.
- `Seqs`: index selection and de-duplication over sequences.
- `YouTubeUrl`: `get_yt_video_id` on the query component.
- `JobModel`: job records, the dispatch rule `PopCount`, the dispatch loop `PopQueue`, and the read-only views.
- `Lifecycle`: the snapshots of one run of `process_video_generation`, as a function.
- `JobServer`: the class `Server`, whose fields are the job table, the queue and the ids handed to the executor.
- `StatusStream`: the SSE generator.
- `Fences`: Python's `str.replace` and fence stripping.
- `AgentRunner`: the class `Runner` and the upload and DM folds.

Every `for` and `while` loop of the source is a `while` loop here, proved against a specification function; comprehensions are recursive functions or set comprehensions. The properties are proved about those functions.

Foreign code becomes parameters. For each call, the model takes the outcome it produced:

- `download_video`;
- the output-directory and `ShortGenerator` set-up;
- each `generate_short_clip` together with its `os.path.exists` check;
- `upload_short`;
- `create_all_sessions`;
- each `agent.run`;
- `json.loads`;
- `json.dumps`.

Other inputs also become parameters:

- `datetime.now()` is the `now` argument.
- `uuid4()` is the fresh id `newId`.
- What the stream generator sees on each tick is a sequence of observations: the record gone, or the copy it sent together with the status it read on resuming.

## Model

| member | source | states |
|---|---|---|
| YouTubeUrl.Split | app.py:103 | `str.split("=")` yields at least one piece, no piece holds the separator, and there is exactly one piece iff the separator does not occur |
| YouTubeUrl.JoinSplit | app.py:103 | joining the pieces of a split with the separator gives back the original text |
| YouTubeUrl.SplitJoin | app.py:103 | splitting pieces that were joined (none holding the separator) gives back those pieces |
| YouTubeUrl.KeyValueOfItem | app.py:103 | for an item `k=v` or `k=v=...`, the key is `k` and the value (`split("=")[1]`) is `v`, the text between the first and second `=` |
| YouTubeUrl.QueryParams | app.py:102-104 | the dict comprehension over the `&`-items, a later key overwriting an earlier one; it can fail only with the IndexError of an item without `=`, and it succeeds only when every item has one |
| YouTubeUrl.QueryParamsFails | app.py:102-104 | building the parameter dict fails iff some `&`-item has no `=` (the IndexError of `split("=")[1]`) |
| YouTubeUrl.QueryParamsKeys | app.py:102-104 | when the dict is built, its keys are exactly the keys of the items |
| YouTubeUrl.QueryParamsLastWins | app.py:102-104 | the value stored under a key is the value of the last item with that key |
| YouTubeUrl.VideoIdFromQuery | app.py:96-109 | `get_yt_video_id` on the query component: the value under `v` in that dict; it fails with "no query param" exactly for an empty query, and it succeeds only when every item has `=` |
| YouTubeUrl.VideoIdFromQueryMeaning | app.py:96-109 | `get_yt_video_id` fails with "no query param" iff the query is empty; it fails on an item without `=` iff one exists; otherwise it fails with "No video ID" iff no item has key `v`; it returns `v` iff `v` is the value of the last `v=` item |
| JobModel.NewJob | app.py:286-298 | the record `generate_videos` creates: the given id, QUEUED and so not active, progress 0, no finished videos, no error, created and updated at `now` |
| JobModel.Live | app.py:123-128 | the ids kept from a sequence are among those ids, have a record, and include every id that has one |
| JobModel.LiveKeepsAll | app.py:405-412 | the queued records list is as long as the queue iff every queued id still has a record |
| JobModel.PopCount | app.py:123-128 | the number of ids popped never exceeds the queue length |
| JobModel.PopCountSpec | app.py:114-128 | one `process_queue` submits at most `max(0, MAX_VIDEO_WORKERS - active)` jobs; before every pop a slot was free; on return the queue is empty or capacity is filled |
| JobModel.PopQueue | app.py:123-128 | the pop loop pops exactly `PopCount` ids and submits exactly the popped ids that still have a record, in queue order |
| JobModel.GenerationStatus | app.py:320-330 | the lookup answers the record stored under the id, or 404 "Job not found" iff it is absent |
| JobModel.QueueStatusOf | app.py:395-418 | `queue_length` counts every queued id, `queued_jobs` lists the records of the ids still present in queue order, the active jobs are exactly those DOWNLOADING or GENERATING, and `available_slots = MAX_VIDEO_WORKERS - active_count` |
| JobModel.ListJobsOf | app.py:377-392 | the listing returns every record, the queue length, the number of active jobs and the maximum |
| JobModel.QueueViewsAgree | app.py:377-418 | both views give the same active count; the job list's queued count is at least the number of queued records, with equality iff no queued id was deleted |
| Lifecycle.ClipPathShape | app.py:550 | a clip path starts with the output directory, ends with `out_<id>.mp4`, and determines the highlight id |
| Lifecycle.ClipProgress | app.py:541 | the progress announced for highlight `i` of `total` lies in [10, 90) |
| Lifecycle.ClipProgressMonotone | app.py:541 | that progress never decreases from one highlight to the next |
| Lifecycle.Produced | app.py:549-553 | the local `finished_videos` after the first `i` highlights, holding at most one path per highlight |
| Lifecycle.ProducedSpec | app.py:549-553 | `finished_videos` holds one `out_<id>.mp4` path per written clip, for exactly the highlights whose clip was written, in highlight order |
| Lifecycle.ClipLoop | app.py:536-557 | the record and the snapshots stored during the first `i` iterations of the highlight loop; the record it ends with has the job id and the status it started with |
| Lifecycle.ClipLoopCount | app.py:536-557 | each highlight stores its announcement, and only a written clip stores a second snapshot: after `i` highlights the loop has stored `i` snapshots plus one per finished video, so a failing highlight is skipped without stopping the loop |
| Lifecycle.ClipLoopKeeps | app.py:536-557 | the loop stores snapshots iff it ran at least once, the record it ends with is the last one stored, and it never changes the status, the error message or the job's identity |
| Lifecycle.ClipLoopProgress | app.py:536-544 | every snapshot stored by the loop has progress in [10, 90), progress never decreases, and the last snapshot carries the last highlight's progress |
| Lifecycle.RunTrace | app.py:488-578 | the successive values of the record during one run: at least two, the first DOWNLOADING and the last FINISHED or ERROR, with ERROR exactly when the download or the set-up raised |
| Lifecycle.RunTraceLifecycle | app.py:486-578 | from QUEUED every run stores at least two snapshots; each status change moves forward along QUEUED → DOWNLOADING → GENERATING → FINISHED or into ERROR; only the last snapshot is FINISHED or ERROR |
| Lifecycle.CompletedRunShape | app.py:498-568 | a run without errors is DOWNLOADING, then GENERATING for every loop snapshot, then FINISHED |
| Lifecycle.RunTraceOutcome | app.py:559-578 | a run ends in ERROR iff the download or the set-up raised, with that exception's text as `error_message`; a FINISHED record has progress 100 and the clips written as `finished_videos` |
| Lifecycle.RunTraceProgress | app.py:498-568 | progress never decreases along a run |
| JobServer.Server.constructor | app.py:43-51 | the server starts with no records, an empty queue and nothing submitted |
| JobServer.Server.ProcessQueue | app.py:112-128 | the queue loses exactly the popped prefix; the executor receives the popped ids that still have a record, in order; the records are untouched |
| JobServer.Server.GenerateVideos | app.py:273-317 | a URL without a usable video id gives 500 "Failed to start video generation: ..." and changes nothing; otherwise, for the fresh id that `uuid4` supplies, exactly one record is added (QUEUED, progress 0, no videos, no error), every existing record is untouched, and the id is appended to the queue before `process_queue` runs |
| JobServer.Server.DeleteJob | app.py:421-428 | an existing record is removed and no other one changes; a missing id gives 404 and changes nothing; the queue is left alone |
| JobServer.Server.ProcessVideoGeneration | app.py:486-581 | a missing record changes nothing; otherwise the record ends as the last snapshot of its run, no other record changes, and `process_queue` runs |
| JobServer.Server.RunJob | app.py:488-578 | the record stored after each update is the corresponding run snapshot |
| JobServer.Server.GenerateClips | app.py:533-557 | the loop over highlights stores exactly the loop's snapshots and collects exactly the written clip paths |
| StatusStream.Frame | app.py:353 | each frame is `data: ` + payload + a blank line |
| StatusStream.EventsOfBody | app.py:353 | a client reading the stream body recovers exactly the payloads sent, when no payload contains a line feed |
| StatusStream.FrameCount | app.py:345-360 | frames are sent only while the record is present; after every frame but the last, the status read on resuming was not final; sending stops at an absent record, or right after a frame whose following status read is FINISHED or ERROR |
| StatusStream.FrameCountUnique | app.py:345-360 | those conditions determine the number of frames |
| StatusStream.StatusUpdates | app.py:343-365 | the generator sends the copy of each observed record, up to that count, and reports whether it returned |
| StatusStream.StreamGenerationStatus | app.py:333-374 | an unknown job gives 404; otherwise the response is the generator's stream |
| StatusStream.StreamFollowsRun | app.py:343-365 | watching a job from its QUEUED record through a run of `process_video_generation`, the stream closes exactly when it reads the run's final status, never earlier; it sends the final snapshot only when that is the copy taken on its last tick |
| StatusStream.StreamFollowsTrace | app.py:345-360 | the same holds for any sequence of records in which only the last is final |
| StatusStream.StreamCanMissFinalFrame | app.py:349-360 | the stream can close having sent only a GENERATING copy, when the run finishes while the generator is suspended at the `yield` |
| Fences.Replace | mcp_client.py:49 | `str.replace` leaves text without the pattern unchanged, and never lengthens it when the replacement is shorter |
| Fences.StripFences | mcp_client.py:49 | removes every "```json" and then every "```" from the reply; the result is never longer than the reply |
| Fences.NoFenceAfterRemoval | mcp_client.py:49 | after removing every "```" no "```" remains, even where a removal joins backticks |
| Fences.StrippedHasNoFence | mcp_client.py:49 | the text handed to `json.loads` contains no "```" |
| Fences.StripPlain | mcp_client.py:118 | a reply without backticks reaches the parser unchanged |
| Fences.StripFencedBlock | mcp_client.py:118 | a reply wrapped in a json code block reaches the parser without exactly its fences |
| AgentRunner.UploadCalls | mcp_client.py:64-80 | `upload_short` is called once per item that has both keys, in input order, with description `title + "\n\n#Shorts #Viral #AI #Content"` and the five tags |
| AgentRunner.UploadLinks | mcp_client.py:64-95 | the result has one `https://www.youtube.com/watch?v=<id>` per upload that returned an id, in input order, and is never longer than the input; raising or id-less uploads are skipped |
| AgentRunner.CollectUploadLinks | mcp_client.py:64-95 | the upload loop makes exactly those calls and returns exactly those links |
| AgentRunner.Step | mcp_client.py:115-128 | one (link, follower) attempt: it escapes exactly when `agent.run` raised; otherwise the follower has an entry afterwards and no other key is added |
| AgentRunner.Row | mcp_client.py:114-128 | the inner loop over the first `j` followers for one link: the only error that escapes is one raised by `agent.run` (the keys it leaves are given by `TableFolded`) |
| AgentRunner.Table | mcp_client.py:112-128 | the outer loop over the first `i` links: the only error that escapes is one raised by `agent.run` (the keys it leaves are given by `TableFolded`) |
| AgentRunner.AggregateDmStatus | mcp_client.py:112-130 | the nested DM loop computes the fold `Table` over every (link, follower) pair |
| AgentRunner.DmLink | mcp_client.py:114-128 | the inner loop for one link computes the fold over the followers |
| AgentRunner.DmFollower | mcp_client.py:115-128 | one attempt: a raising `agent.run` escapes; otherwise the follower's entry becomes "failed" on a parse failure, and the reply's outcome when the entry is absent or "sent" |
| AgentRunner.StepEffect | mcp_client.py:117-128 | one answered attempt adds the follower as the last key when it is new and changes no other entry; the entry is "sent" iff it was absent or "sent" and the reply parsed with truthy `success` or `dm_sent` |
| AgentRunner.RowRaises | mcp_client.py:113-128 | one link's loop escapes iff some `agent.run` raised, with the first raising call's error |
| AgentRunner.TableRaises | mcp_client.py:112-130 | the whole loop escapes iff some `agent.run` raised, with the error of the first raising call in loop order |
| AgentRunner.TableFolded | mcp_client.py:112-130 | after any number of links, the keys are the distinct followers seen, in first-seen order, and each is "sent" iff every attempt for that follower so far was confirmed |
| AgentRunner.DmStatusSpec | mcp_client.py:112-130 | no links give `{}`; otherwise the keys are exactly the distinct followers in first-seen order; a follower is "sent" iff every attempt for them parsed and confirmed; a "failed" entry never returns to "sent"; a raising `agent.run` escapes iff one raised |
| AgentRunner.Runner.constructor | mcp_client.py:17-26 | a new runner is uninitialised and has no agent |
| AgentRunner.Runner.Initialize | mcp_client.py:28-33 | the first successful call creates the sessions and the agent (30 steps); later calls change nothing, so the sessions are created at most once and the flag never goes back to false; a raising session set-up escapes and leaves the runner uninitialised |
| AgentRunner.Runner.GetFollowers | mcp_client.py:41-50 | after initialising, `None` without an agent; otherwise the `followers` array of the fence-stripped reply, or the escaping error of `agent.run`, `json.loads` or the missing key |
| AgentRunner.Runner.UploadReelsAndStories | mcp_client.py:52-95 | after initialising, `[]` without an agent; otherwise exactly the collected watch URLs and upload calls |
| AgentRunner.Runner.DmFollowersWithReels | mcp_client.py:97-130 | after initialising, `{}` without an agent; otherwise the DM fold over every (link, follower) pair |

## Left out

- `urlparse`: `get_yt_video_id` is modelled on the query component of the URL, and the URL itself only appears in the error texts.
- FastAPI routing, CORS, the `HTTPException` mapping and `StreamingResponse`: errors are result values with the status code and detail text.
- `ThreadPoolExecutor`, `threading.Lock`, `asyncio.Lock`, and concurrency in general. Every handler and every run of `process_video_generation` is one atomic step, and `submit` appends the job id to `dispatched`. Two consequences:
  - The model does not show a record in DOWNLOADING or GENERATING between two steps, so its active count is 0 whenever `process_queue` runs. `PopCount` and its lemmas hold for any active count.
  - Deleting a record while its run is in progress, which the source allows, is not modelled.
- `asyncio.sleep` and `time.sleep`: the stream's ticks are the sequence of what the generator observes.
- The SSE exception frame (app.py:363-365): `json.dumps` on the records never raises here.
- `download_video`, `ShortGenerator`, `os.makedirs` and `os.path.exists`: each is the outcome of the call as a parameter.
- `upload_short`, `MCPClient`/`MCPAgent` and the Gemini model: each is the outcome of the call as a parameter.
- The DM and follower prompt texts are not modelled. The oracle for a DM is indexed by (link position, follower position), and the oracle for an upload by item position.
- `json.loads` and `json.dumps`: each is a function parameter.
- The conversion of highlight dicts (app.py:493-496): highlights are typed values, and a conversion that raises is not modelled.
- `datetime.now()`: it is the `now` parameter, and one run uses one value of it.
- Lifecycle.ClipProgress: `int((i / total) * 80)` in floating point is modelled as the integer `i * 80 / total`. Only the bounds and the monotonicity are claimed about it.
- JobModel.ListJobsOf: the job list is the map itself, so the insertion order of Python's dict is not kept.
- JobModel.QueueStatusOf: `active_jobs` is a map from id to record, so the order of the active jobs in `get_queue_status` is not kept.
- `print` logging is not modelled.
- The health check, the `/test-job` simulation and `/highlights` extraction with its cache (app.py:131-270) are not part of this model.
- File serving (app.py:431-483) is not part of this model.
- The `/mcp-agent/*` HTTP wrappers (app.py:584-650) are not part of this model: they only forward to the runner's operations, which are modelled.
- `MCPAgentRunner.run` (mcp_client.py:35-39) is not part of this model: the other operations are modelled with their own `agent.run` outcomes.
