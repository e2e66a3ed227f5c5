/** What one run of `process_video_generation` (app.py) does to a job record:
    the successive values the record takes, as a specification for the server's
    method. Downloading, clip generation and the file-existence check are outside
    the model and appear as inputs: the error the download (or the set-up before
    the clip loop) raises, if any, and for each highlight whether its clip raised,
    was not written, or was written. */
module Lifecycle {
  import opened Outcomes
  import opened Seqs
  import opened JobModel

  /** What became of one highlight's clip. */
  datatype ClipOutcome =
    | ClipRaised(message: string)  // `generate_short_clip` raised; the loop moves on
    | ClipMissing                  // it returned, but `out_<id>.mp4` does not exist
    | ClipWritten                  // it returned and `out_<id>.mp4` exists

  /** The highlights whose clip was written. */
  function Written(clip: nat -> ClipOutcome): nat -> bool
  {
    (i: nat) => clip(i).ClipWritten?
  }

  /** `os.path.join(a, b)` for POSIX paths. */
  function PathJoin(a: string, b: string): string
  {
    if |b| > 0 && b[0] == '/' then b
    else if a == [] || a[|a| - 1] == '/' then a + b
    else a + "/" + b
  }

  /** `os.path.join("./output", video_id)`. */
  function OutputDir(videoId: string): string
  {
    PathJoin("./output", videoId)
  }

  /** The file a highlight's clip is expected in: `out_{id}.mp4` under `dir`. */
  function ClipPath(dir: string, highlightId: string): string
  {
    PathJoin(dir, "out_" + highlightId + ".mp4")
  }

  /** A clip path lies under its directory, is named after its highlight, and
      different highlights get different paths. */
  lemma ClipPathShape(dir: string, a: string, b: string)
    ensures |dir| <= |ClipPath(dir, a)| && ClipPath(dir, a)[..|dir|] == dir
    ensures var name := "out_" + a + ".mp4";
      |name| <= |ClipPath(dir, a)| && ClipPath(dir, a)[|ClipPath(dir, a)| - |name|..] == name
    ensures ClipPath(dir, a) == ClipPath(dir, b) ==> a == b
  {
    var base := if dir == [] || dir[|dir| - 1] == '/' then dir else dir + "/";
    assert ClipPath(dir, a) == base + "out_" + a + ".mp4";
    assert ClipPath(dir, b) == base + "out_" + b + ".mp4";
    var pa, pb := ClipPath(dir, a), ClipPath(dir, b);
    if pa == pb {
      assert |a| == |b|;
      assert pa[|base| + 4..|pa| - 4] == a;
      assert pb[|base| + 4..|pb| - 4] == b;
    }
  }

  /** `str(n)` for a natural number. */
  function NatText(n: nat): string
    decreases n
  {
    var digit := ['0' + (n % 10) as char];
    if n < 10 then digit else NatText(n / 10) + digit
  }

  lemma MulMonotone(x: nat, y: nat, d: nat)
    requires x <= y
    ensures x * d <= y * d
  {
    assert y * d == x * d + (y - x) * d;
  }

  lemma DivMonotone(a: nat, b: nat, d: nat)
    requires a <= b && d > 0
    ensures a / d <= b / d
  {
    var qa, qb := a / d, b / d;
    assert qa * d <= a;
    assert b < qb * d + d;
    if qa > qb {
      MulMonotone(qb + 1, qa, d);
    }
  }

  lemma DivBelow(i: nat, total: nat)
    requires i < total
    ensures i * 80 / total < 80
  {
    MulMonotone(i + 1, total, 80);
    var q := i * 80 / total;
    assert q * total <= i * 80;
    if q >= 80 {
      MulMonotone(80, q, total);
    }
  }

  /** `10 + int((i / total_highlights) * 80)`, the progress announced before the
      i-th clip (counting from 0), kept within [10, 90). */
  function ClipProgress(i: nat, total: nat): (p: int)
    requires i < total
    ensures 10 <= p < 90
  {
    DivBelow(i, total);
    10 + i * 80 / total
  }

  /** The announced progress never decreases along the loop. */
  lemma ClipProgressMonotone(i: nat, j: nat, total: nat)
    requires i <= j < total
    ensures ClipProgress(i, total) <= ClipProgress(j, total)
  {
    DivMonotone(i * 80, j * 80, total);
  }

  /** The record right after `job_data.update` marks it downloading. */
  function StartDownload(r: Job, now: int): Job
  {
    r.(status := Downloading, currentTask := "Downloading video...", updatedAt := now)
  }

  /** The record right after the update that marks it generating. */
  function StartGenerating(r: Job, now: int): Job
  {
    r.(status := Generating, currentTask := "Generating video clips...", progress := 10, updatedAt := now)
  }

  /** The record after the update that announces the i-th clip. */
  function Announce(r: Job, i: nat, total: nat, h: Highlight, now: int): Job
    requires i < total
  {
    r.(currentTask := "Generating video " + NatText(i + 1) + "/" + NatText(total) + ": " + h.title,
       progress := ClipProgress(i, total),
       updatedAt := now)
  }

  /** The record after the handler of an escaping exception. */
  function Failed(r: Job, message: string, now: int): Job
  {
    r.(status := Error, errorMessage := Some(message), updatedAt := now)
  }

  /** The record after the final update of a run that completed. */
  function Completed(r: Job, finished: seq<string>, now: int): Job
  {
    r.(status := Finished, currentTask := "Completed!", progress := 100, finishedVideos := finished, updatedAt := now)
  }

  /** The local `finished_videos` after the first `i` highlights. */
  function Produced(dir: string, hs: seq<Highlight>, clip: nat -> ClipOutcome, i: nat): (p: seq<string>)
    requires i <= |hs|
    ensures |p| <= i
  {
    if i == 0 then []
    else Produced(dir, hs, clip, i - 1) + (if clip(i - 1).ClipWritten? then [ClipPath(dir, hs[i - 1].id)] else [])
  }

  /** `finished_videos` holds one path per written clip, in highlight order, the
      path being that highlight's `out_{id}.mp4`; highlights whose clip raised or
      was not written are skipped. */
  lemma {:induction false} ProducedSpec(dir: string, hs: seq<Highlight>, clip: nat -> ClipOutcome, n: nat)
    requires n <= |hs|
    ensures var idx := Select(Written(clip), n);
      |Produced(dir, hs, clip, n)| == |idx| &&
      forall j :: 0 <= j < |idx| ==> idx[j] < |hs| && Produced(dir, hs, clip, n)[j] == ClipPath(dir, hs[idx[j]].id)
    decreases n
  {
    if n > 0 {
      ProducedSpec(dir, hs, clip, n - 1);
      assert Written(clip)(n - 1) == clip(n - 1).ClipWritten?;
    }
  }

  /** The record and the snapshots it passes through during the first `i`
      iterations of the clip loop, starting from `r`. */
  function ClipLoop(r: Job, dir: string, hs: seq<Highlight>, clip: nat -> ClipOutcome, i: nat, now: int): (res: (Job, seq<Job>))
    requires i <= |hs|
    ensures res.0.jobId == r.jobId && res.0.status == r.status
    decreases i
  {
    if i == 0 then (r, [])
    else
      var before := ClipLoop(r, dir, hs, clip, i - 1, now);
      var announced := Announce(before.0, i - 1, |hs|, hs[i - 1], now);
      if clip(i - 1).ClipWritten? then
        var stored := announced.(finishedVideos := Produced(dir, hs, clip, i));
        (stored, before.1 + [announced, stored])
      else (announced, before.1 + [announced])
  }

  /** One more iteration of the clip loop, from the state after `i` of them. */
  lemma ClipLoopNext(r: Job, dir: string, hs: seq<Highlight>, clip: nat -> ClipOutcome, i: nat, now: int)
    requires i < |hs|
    ensures var before := ClipLoop(r, dir, hs, clip, i, now);
      var announced := Announce(before.0, i, |hs|, hs[i], now);
      Produced(dir, hs, clip, i + 1) ==
        Produced(dir, hs, clip, i) + (if clip(i).ClipWritten? then [ClipPath(dir, hs[i].id)] else []) &&
      ClipLoop(r, dir, hs, clip, i + 1, now) ==
        if clip(i).ClipWritten? then
          var stored := announced.(finishedVideos := Produced(dir, hs, clip, i + 1));
          (stored, before.1 + [announced, stored])
        else (announced, before.1 + [announced])
  {
  }

  /** Every highlight is announced once, and only a written clip stores a second
      snapshot: after `i` iterations the loop has stored `i` snapshots plus one
      per finished video, so a failing highlight costs one snapshot and no more. */
  lemma {:induction false} ClipLoopCount(r: Job, dir: string, hs: seq<Highlight>, clip: nat -> ClipOutcome, i: nat, now: int)
    requires i <= |hs|
    ensures |ClipLoop(r, dir, hs, clip, i, now).1| == i + |Produced(dir, hs, clip, i)|
    decreases i
  {
    if i > 0 {
      ClipLoopCount(r, dir, hs, clip, i - 1, now);
    }
  }

  /** The successive values of the record during one run, from the first update
      to the last. */
  function RunTrace(r0: Job, downloadError: Option<string>, setupError: Option<string>,
                    clip: nat -> ClipOutcome, now: int): (t: seq<Job>)
    ensures |t| >= 2 && t[0].status == Downloading && t[|t| - 1].status.IsTerminal()
    ensures t[|t| - 1].status == Error <==> downloadError.Some? || setupError.Some?
  {
    var downloading := StartDownload(r0, now);
    if downloadError.Some? then [downloading, Failed(downloading, downloadError.value, now)]
    else
      var generating := StartGenerating(downloading, now);
      if setupError.Some? then [downloading, generating, Failed(generating, setupError.value, now)]
      else
        var dir := OutputDir(r0.videoId);
        var n := |r0.highlights|;
        var loop := ClipLoop(generating, dir, r0.highlights, clip, n, now);
        [downloading, generating] + loop.1 + [Completed(loop.0, Produced(dir, r0.highlights, clip, n), now)]
  }

  /** The order of statuses: queued, downloading, generating, then one of the two
      terminal ones. */
  function Rank(s: Status): nat
  {
    match s
    case Queued => 0
    case Downloading => 1
    case Generating => 2
    case Finished => 3
    case Error => 3
  }

  /** A status may stay, or move forward from a non-terminal status. */
  predicate Advances(a: Status, b: Status)
  {
    a == b || (!a.IsTerminal() && Rank(a) < Rank(b))
  }

  /** The fields a run never touches. */
  predicate SameJob(a: Job, b: Job)
  {
    a.jobId == b.jobId && a.createdAt == b.createdAt && a.videoId == b.videoId &&
    a.videoUrl == b.videoUrl && a.highlights == b.highlights
  }

  /** The loop's record is its last snapshot, and the loop leaves status, error
      and the record's identity as they were. */
  lemma {:induction false} ClipLoopKeeps(r: Job, dir: string, hs: seq<Highlight>, clip: nat -> ClipOutcome, i: nat, now: int)
    requires i <= |hs|
    ensures var loop := ClipLoop(r, dir, hs, clip, i, now);
      && (i == 0 <==> loop.1 == [])
      && (i == 0 ==> loop.0 == r)
      && (i > 0 ==> loop.0 == loop.1[|loop.1| - 1])
      && (forall k :: 0 <= k < |loop.1| ==>
            SameJob(loop.1[k], r) && loop.1[k].status == r.status && loop.1[k].errorMessage == r.errorMessage)
      && SameJob(loop.0, r) && loop.0.status == r.status && loop.0.errorMessage == r.errorMessage
    decreases i
  {
    if i > 0 {
      ClipLoopKeeps(r, dir, hs, clip, i - 1, now);
    }
  }

  /** Every progress the loop announces lies in [10, 90) and never decreases. */
  lemma {:induction false} ClipLoopProgress(r: Job, dir: string, hs: seq<Highlight>, clip: nat -> ClipOutcome, i: nat, now: int)
    requires i <= |hs|
    ensures var loop := ClipLoop(r, dir, hs, clip, i, now);
      && (forall k :: 0 <= k < |loop.1| ==> 10 <= loop.1[k].progress < 90)
      && ProgressRises(loop.1)
      && (i > 0 ==> |loop.1| > 0 && loop.1[|loop.1| - 1].progress == ClipProgress(i - 1, |hs|))
    decreases i
  {
    if i > 0 {
      var last := i - 1;
      ClipLoopProgress(r, dir, hs, clip, last, now);
      ClipLoopGrows(r, dir, hs, clip, last, now);
      if last > 0 {
        ClipProgressMonotone(last - 1, last, |hs|);
      }
      ProgressExtend(ClipLoop(r, dir, hs, clip, last, now).1, ClipLoop(r, dir, hs, clip, i, now).1, ClipProgress(last, |hs|));
    }
  }

  /** One iteration only appends snapshots, each announcing the progress of
      that iteration. */
  lemma ClipLoopGrows(r: Job, dir: string, hs: seq<Highlight>, clip: nat -> ClipOutcome, i: nat, now: int)
    requires i < |hs|
    ensures var before := ClipLoop(r, dir, hs, clip, i, now).1;
      var after := ClipLoop(r, dir, hs, clip, i + 1, now).1;
      && |before| < |after| && after[..|before|] == before
      && forall k :: |before| <= k < |after| ==> after[k].progress == ClipProgress(i, |hs|)
  {
    ClipLoopNext(r, dir, hs, clip, i, now);
  }

  /** Extending a run of snapshots by snapshots that all show progress `p`, no
      lower than the last one before, keeps the progress in [10, 90) and
      non-decreasing. */
  lemma ProgressExtend(xs: seq<Job>, zs: seq<Job>, p: int)
    requires 10 <= p < 90
    requires forall k :: 0 <= k < |xs| ==> 10 <= xs[k].progress < 90
    requires ProgressRises(xs)
    requires xs != [] ==> xs[|xs| - 1].progress <= p
    requires |xs| < |zs| && zs[..|xs|] == xs
    requires forall k :: |xs| <= k < |zs| ==> zs[k].progress == p
    ensures forall k :: 0 <= k < |zs| ==> 10 <= zs[k].progress < 90
    ensures ProgressRises(zs)
    ensures zs[|zs| - 1].progress == p
  {
    forall k | 0 <= k < |xs| ensures zs[k] == xs[k] {
      assert zs[..|xs|][k] == zs[k];
    }
  }

  /** One run, seen from the job record: the statuses only advance from queued
      through downloading and generating to a terminal status, reached only by the
      last snapshot; the run ends in error exactly when the download or the set-up
      raised, carrying that message, and otherwise finishes with progress 100 and
      the list of written clips; the record's identity is never touched. */
  lemma RunTraceLifecycle(r0: Job, downloadError: Option<string>, setupError: Option<string>,
                          clip: nat -> ClipOutcome, now: int)
    requires r0.status == Queued
    ensures var t := RunTrace(r0, downloadError, setupError, clip, now);
      && |t| >= 2
      && Advances(r0.status, t[0].status)
      && (forall k :: 0 <= k < |t| - 1 ==> Advances(t[k].status, t[k + 1].status))
      && (forall k :: 0 <= k < |t| - 1 ==> !t[k].status.IsTerminal())
      && t[|t| - 1].status.IsTerminal()
      && (forall k :: 0 <= k < |t| ==> SameJob(t[k], r0))
  {
    if downloadError.None? && setupError.None? {
      CompletedRunShape(r0, clip, now);
    }
  }

  /** A run in which neither the download nor the set-up raised: downloading,
      then generating until the last snapshot, which is finished. */
  lemma CompletedRunShape(r0: Job, clip: nat -> ClipOutcome, now: int)
    ensures var t := RunTrace(r0, None, None, clip, now);
      && |t| >= 3
      && t[0].status == Downloading
      && (forall k :: 1 <= k < |t| - 1 ==> t[k].status == Generating)
      && t[|t| - 1].status == Finished
      && (forall k :: 0 <= k < |t| ==> SameJob(t[k], r0))
  {
    var t := RunTrace(r0, None, None, clip, now);
    var downloading := StartDownload(r0, now);
    var generating := StartGenerating(downloading, now);
    var dir := OutputDir(r0.videoId);
    var n := |r0.highlights|;
    ClipLoopKeeps(generating, dir, r0.highlights, clip, n, now);
    var loop := ClipLoop(generating, dir, r0.highlights, clip, n, now);
    var all := [generating] + loop.1;
    var last := Completed(loop.0, Produced(dir, r0.highlights, clip, n), now);
    assert t == [downloading] + all + [last];
    assert forall k :: 0 <= k < |all| ==> all[k].status == Generating && SameJob(all[k], r0);
    forall k | 1 <= k < |t| - 1 ensures t[k].status == Generating && SameJob(t[k], r0) {
      assert t[k] == all[k - 1];
    }
  }

  /** How a run ends: in error exactly when the download or the set-up raised, with
      that exception's message; otherwise finished, with progress 100 and exactly
      the paths of the written clips. */
  lemma RunTraceOutcome(r0: Job, downloadError: Option<string>, setupError: Option<string>,
                        clip: nat -> ClipOutcome, now: int)
    ensures var t := RunTrace(r0, downloadError, setupError, clip, now);
      var last := t[|t| - 1];
      && (last.status == Error <==> downloadError.Some? || setupError.Some?)
      && (downloadError.Some? ==> last.errorMessage == downloadError)
      && (downloadError.None? && setupError.Some? ==> last.errorMessage == setupError)
      && (last.status == Finished ==>
            last.progress == 100 &&
            last.finishedVideos == Produced(OutputDir(r0.videoId), r0.highlights, clip, |r0.highlights|))
  {
  }

  /** Progress never decreases during a run that starts from a record with a
      progress of at most 10 (a new job has 0). */
  lemma RunTraceProgress(r0: Job, downloadError: Option<string>, setupError: Option<string>,
                         clip: nat -> ClipOutcome, now: int)
    requires r0.progress <= 10
    ensures var t := RunTrace(r0, downloadError, setupError, clip, now);
      && r0.progress <= t[0].progress
      && ProgressRises(t)
  {
    var t := RunTrace(r0, downloadError, setupError, clip, now);
    var downloading := StartDownload(r0, now);
    if downloadError.None? && setupError.None? {
      var generating := StartGenerating(downloading, now);
      var dir := OutputDir(r0.videoId);
      var n := |r0.highlights|;
      ClipLoopProgress(generating, dir, r0.highlights, clip, n, now);
      var loop := ClipLoop(generating, dir, r0.highlights, clip, n, now);
      var completed := Completed(loop.0, Produced(dir, r0.highlights, clip, n), now);
      var tail := loop.1 + [completed];
      RisesJoin(loop.1, [completed]);
      assert tail[0].progress >= 10;
      RisesJoin([downloading, generating], tail);
      assert t == [downloading, generating] + tail;
    }
  }

  /** The progress along `s` never decreases. */
  predicate ProgressRises(s: seq<Job>)
  {
    forall k :: 0 <= k < |s| - 1 ==> s[k].progress <= s[k + 1].progress
  }

  /** Two runs of non-decreasing progress, the second starting no lower than
      the first ends, join into one. */
  lemma RisesJoin(xs: seq<Job>, ys: seq<Job>)
    requires ProgressRises(xs) && ProgressRises(ys)
    requires xs != [] && ys != [] ==> xs[|xs| - 1].progress <= ys[0].progress
    ensures ProgressRises(xs + ys)
  {
    var zs := xs + ys;
    forall k | 0 <= k < |zs| - 1 ensures zs[k].progress <= zs[k + 1].progress {
      if k + 1 < |xs| {
        assert zs[k] == xs[k] && zs[k + 1] == xs[k + 1];
      } else if k >= |xs| {
        assert zs[k] == ys[k - |xs|] && zs[k + 1] == ys[k - |xs| + 1];
      }
    }
  }
}
