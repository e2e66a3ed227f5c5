/** `MCPAgentRunner` of mcp_client.py: the once-only set-up of the agent, and
    the three operations that use it — reading the followers list, uploading
    clips as Shorts and collecting their watch URLs, and sending each follower
    a DM per link while folding the outcomes into a per-follower status.
    The agent, the MCP sessions, `upload_short` and `json.loads` are foreign
    code: their outcomes are parameters (indexed by the position of the call). */
module AgentRunner {
  import opened Outcomes
  import opened Seqs
  import opened Fences

  /** `max_steps` given to the agent. */
  const MaxAgentSteps: nat := 30

  /** Appended to a clip's title to form its description. */
  const Hashtags := "\n\n#Shorts #Viral #AI #Content"

  /** The tags every upload carries. */
  const UploadTags: seq<string> := ["shorts", "viral", "ai", "content", "highlights"]

  /** A watch URL is this prefix followed by the video id. */
  const WatchPrefix := "https://www.youtube.com/watch?v="

  datatype Agent = Agent(maxSteps: nat)

  /** Exceptions that escape an operation. */
  datatype AgentError =
    | SessionsFailed(message: string)  // `create_all_sessions` raised
    | RunFailed(message: string)       // `agent.run` raised
    | ReplyNotJson                     // `json.loads` raised on the followers reply
    | FollowersKeyMissing              // the reply has no `followers` key

  /** What one `agent.run` call gives back. */
  datatype AgentReply = Replied(text: string) | RunRaised(message: string)

  // ---------------------------------------------------------------- followers

  /** What `json.loads` makes of the stripped followers reply. */
  datatype FollowersDoc = NotJson | NoFollowersKey | FollowersList(names: seq<string>)

  // ------------------------------------------------------------------ uploads

  /** One entry of `file_paths`; a missing key is `None`. */
  datatype UploadItem = UploadItem(filePath: Option<string>, title: Option<string>)

  /** The arguments of one `upload_short` call. */
  datatype UploadCall = UploadCall(videoPath: string, title: string, description: string, tags: seq<string>)

  /** What `upload_short` does: raises, or returns a response whose `id` may be missing. */
  datatype UploadResponse = UploadRaised(message: string) | UploadReturned(id: Option<string>)

  /** The item has both keys, so `upload_short` is called for it. */
  predicate Attempted(item: UploadItem)
  {
    item.filePath.Some? && item.title.Some?
  }

  /** The response carries a truthy (non-empty) id. */
  predicate HasVideoId(resp: UploadResponse)
  {
    resp.UploadReturned? && resp.id.Some? && resp.id.value != ""
  }

  function WatchUrl(videoId: string): string
  {
    WatchPrefix + videoId
  }

  function CallFor(item: UploadItem): UploadCall
    requires Attempted(item)
  {
    UploadCall(item.filePath.value, item.title.value, item.title.value + Hashtags, UploadTags)
  }

  /** Positions among the first `n` items where `upload_short` is called. */
  function Called(items: seq<UploadItem>): nat -> bool
  {
    (i: nat) => i < |items| && Attempted(items[i])
  }

  /** Positions among the first `n` items whose upload returned an id. */
  function Uploaded(items: seq<UploadItem>, upload: nat -> UploadResponse): nat -> bool
  {
    (i: nat) => i < |items| && Attempted(items[i]) && HasVideoId(upload(i))
  }

  /** The `upload_short` calls made for the first `n` items: one per item with
      both keys, in order. */
  function UploadCalls(items: seq<UploadItem>, n: nat): (calls: seq<UploadCall>)
    requires n <= |items|
    ensures var called := Select(Called(items), n);
      |calls| == |called| &&
      forall k :: 0 <= k < |called| ==> Attempted(items[called[k]]) && calls[k] == CallFor(items[called[k]])
    decreases n
  {
    if n == 0 then []
    else
      var item := items[n - 1];
      assert Select(Called(items), n) ==
        Select(Called(items), n - 1) + (if Attempted(item) then [n - 1] else []);
      if Attempted(item) then UploadCalls(items, n - 1) + [CallFor(item)] else UploadCalls(items, n - 1)
  }

  /** The watch URLs collected for the first `n` items: one per called upload
      that returned an id, in order. */
  function UploadLinks(items: seq<UploadItem>, upload: nat -> UploadResponse, n: nat): (links: seq<string>)
    requires n <= |items|
    ensures var done := Select(Uploaded(items, upload), n);
      |links| == |done| && |links| <= n &&
      forall k :: 0 <= k < |done| ==> HasVideoId(upload(done[k])) && links[k] == WatchUrl(upload(done[k]).id.value)
    decreases n
  {
    if n == 0 then []
    else
      var item := items[n - 1];
      var resp := upload(n - 1);
      assert Select(Uploaded(items, upload), n) ==
        Select(Uploaded(items, upload), n - 1) + (if Attempted(item) && HasVideoId(resp) then [n - 1] else []);
      if Attempted(item) && HasVideoId(resp) then UploadLinks(items, upload, n - 1) + [WatchUrl(resp.id.value)]
      else UploadLinks(items, upload, n - 1)
  }

  /** The loop of `upload_reels_and_stories`: one `upload_short` call per item
      with both keys, with the title plus hashtags as description and the fixed
      tags; one watch URL per upload that returned an id, in input order. A
      missing key or a raising upload skips the item. */
  method CollectUploadLinks(items: seq<UploadItem>, upload: nat -> UploadResponse)
    returns (links: seq<string>, calls: seq<UploadCall>)
    ensures calls == UploadCalls(items, |items|) && links == UploadLinks(items, upload, |items|)
  {
    links := [];
    calls := [];
    var i: nat := 0;
    while i < |items|
      invariant i <= |items|
      invariant calls == UploadCalls(items, i) && links == UploadLinks(items, upload, i)
    {
      UploadsNext(items, upload, i);
      var item := items[i];
      if item.filePath.Some? && item.title.Some? {
        var description := item.title.value + Hashtags;
        calls := calls + [UploadCall(item.filePath.value, item.title.value, description, UploadTags)];
        var response := upload(i);
        match response
        case UploadRaised(_) =>
        case UploadReturned(id) =>
          if id.Some? && id.value != "" {
            links := links + [WatchUrl(id.value)];
          }
      }
      i := i + 1;
    }
  }

  /** One more item adds its call when it has both keys, and its URL when the
      upload also returned an id. */
  lemma UploadsNext(items: seq<UploadItem>, upload: nat -> UploadResponse, i: nat)
    requires i < |items|
    ensures UploadCalls(items, i + 1) ==
      UploadCalls(items, i) + (if Attempted(items[i]) then [CallFor(items[i])] else [])
    ensures UploadLinks(items, upload, i + 1) ==
      UploadLinks(items, upload, i) +
      (if Attempted(items[i]) && HasVideoId(upload(i)) then [WatchUrl(upload(i).id.value)] else [])
  {
  }

  // ---------------------------------------------------------------------- DMs

  /** The truthiness of `success` and `dm_sent` in a parsed DM reply (a missing
      key counts as false). */
  datatype DmReply = DmReply(success: bool, dmSent: bool)

  datatype DmOutcome = Sent | Failed

  /** `dm_status`: its keys in insertion order, and the status of each. */
  datatype DmReport = DmReport(order: seq<string>, status: map<string, DmOutcome>)

  /** The reply text parses (to an object) and confirms the DM. */
  predicate Confirmed(text: string, parse: string -> Option<DmReply>)
  {
    var doc := parse(StripFences(text));
    doc.Some? && (doc.value.success || doc.value.dmSent)
  }

  /** The `try` block for follower `f` after the agent replied `reply`. */
  function Step(acc: DmReport, f: string, reply: AgentReply, parse: string -> Option<DmReply>): (r: Result<DmReport, AgentError>)
    ensures r.Err? <==> reply.RunRaised?
    ensures r.Ok? ==> f in r.value.status && r.value.status.Keys == acc.status.Keys + {f}
  {
    match reply
    case RunRaised(m) => Err(RunFailed(m))
    case Replied(text) =>
      var order := if f in acc.status then acc.order else acc.order + [f];
      var doc := parse(StripFences(text));
      if doc.None? then Ok(DmReport(order, acc.status[f := Failed]))
      else
        var outcome := if doc.value.success || doc.value.dmSent then Sent else Failed;
        if f !in acc.status || acc.status[f] == Sent then Ok(DmReport(order, acc.status[f := outcome]))
        else Ok(DmReport(order, acc.status))
  }

  /** The inner loop for link `i`, over the first `j` followers, from `acc`. */
  function Row(acc: DmReport, followers: seq<string>, reply: (nat, nat) -> AgentReply,
               parse: string -> Option<DmReply>, i: nat, j: nat): (r: Result<DmReport, AgentError>)
    requires j <= |followers|
    ensures r.Err? ==> r.error.RunFailed?
    decreases j
  {
    if j == 0 then Ok(acc)
    else
      match Row(acc, followers, reply, parse, i, j - 1)
      case Err(e) => Err(e)
      case Ok(a) => Step(a, followers[j - 1], reply(i, j - 1), parse)
  }

  /** The outer loop over the first `i` links. */
  function Table(followers: seq<string>, reply: (nat, nat) -> AgentReply,
                 parse: string -> Option<DmReply>, i: nat): (r: Result<DmReport, AgentError>)
    ensures r.Err? ==> r.error.RunFailed?
    decreases i
  {
    if i == 0 then Ok(DmReport([], map[]))
    else
      match Table(followers, reply, parse, i - 1)
      case Err(e) => Err(e)
      case Ok(a) => Row(a, followers, reply, parse, i - 1, |followers|)
  }

  /** The nested loops of `dm_followers_with_reels`: for each link, for each
      follower, ask the agent to send the DM and fold its reply into the status.
      A raising `agent.run` is outside the `try` and aborts the whole call. */
  method AggregateDmStatus(links: seq<string>, followers: seq<string>, reply: (nat, nat) -> AgentReply,
                           parse: string -> Option<DmReply>)
    returns (r: Result<DmReport, AgentError>)
    ensures r == Table(followers, reply, parse, |links|)
  {
    r := Ok(DmReport([], map[]));
    var i: nat := 0;
    while i < |links| && r.Ok?
      invariant 0 <= i <= |links|
      invariant r == Table(followers, reply, parse, i)
    {
      TableNext(followers, reply, parse, i);
      r := DmLink(r.value, followers, reply, parse, i);
      i := i + 1;
    }
    if r.Err? {
      TableErrStays(followers, reply, parse, i, |links|);
    }
  }

  /** The inner loop of `dm_followers_with_reels` for link `i`, from the status
      `start` left by the earlier links. */
  method DmLink(start: DmReport, followers: seq<string>, reply: (nat, nat) -> AgentReply,
                parse: string -> Option<DmReply>, i: nat)
    returns (r: Result<DmReport, AgentError>)
    ensures r == Row(start, followers, reply, parse, i, |followers|)
  {
    var report := start;
    var j: nat := 0;
    while j < |followers|
      invariant j <= |followers|
      invariant Row(start, followers, reply, parse, i, j) == Ok(report)
    {
      RowNext(start, followers, reply, parse, i, j);
      var next := DmFollower(report, followers[j], reply(i, j), parse);
      if next.Err? {
        RowErrStays(start, followers, reply, parse, i, j + 1);
        return next;
      }
      report := next.value;
      j := j + 1;
    }
    r := Ok(report);
  }

  /** The body of the inner loop for one follower, updating the key order and
      the status dict step by step as the source does; it is the executable
      form of `Step`, whose effect `StepEffect` states. */
  method DmFollower(report: DmReport, follower: string, dmResult: AgentReply, parse: string -> Option<DmReply>)
    returns (r: Result<DmReport, AgentError>)
    ensures r == Step(report, follower, dmResult, parse)
  {
    if dmResult.RunRaised? {
      return Err(RunFailed(dmResult.message));
    }
    var order := report.order;
    var status := report.status;
    if follower !in status {
      order := order + [follower];
    }
    var result := parse(StripFences(dmResult.text));
    if result.None? {
      status := status[follower := Failed];
    } else {
      var sent := result.value.success || result.value.dmSent;
      var outcome := if sent then Sent else Failed;
      if follower !in status || status[follower] == Sent {
        status := status[follower := outcome];
      }
    }
    r := Ok(DmReport(order, status));
  }

  /** One more follower of a row that has gone through so far is one `Step`. */
  lemma RowNext(acc: DmReport, followers: seq<string>, reply: (nat, nat) -> AgentReply,
                parse: string -> Option<DmReply>, i: nat, j: nat)
    requires j < |followers| && Row(acc, followers, reply, parse, i, j).Ok?
    ensures Row(acc, followers, reply, parse, i, j + 1) ==
            Step(Row(acc, followers, reply, parse, i, j).value, followers[j], reply(i, j), parse)
  {
  }

  /** One more link of a table that has gone through so far is one `Row`. */
  lemma TableNext(followers: seq<string>, reply: (nat, nat) -> AgentReply,
                  parse: string -> Option<DmReply>, i: nat)
    requires Table(followers, reply, parse, i).Ok?
    ensures Table(followers, reply, parse, i + 1) ==
            Row(Table(followers, reply, parse, i).value, followers, reply, parse, i, |followers|)
  {
  }

  /** A row that failed stays failed for one more follower. */
  lemma RowErrNext(acc: DmReport, followers: seq<string>, reply: (nat, nat) -> AgentReply,
                   parse: string -> Option<DmReply>, i: nat, j: nat)
    requires j < |followers| && Row(acc, followers, reply, parse, i, j).Err?
    ensures Row(acc, followers, reply, parse, i, j + 1) == Row(acc, followers, reply, parse, i, j)
  {
  }

  lemma {:induction false} RowErrStays(acc: DmReport, followers: seq<string>, reply: (nat, nat) -> AgentReply,
                                       parse: string -> Option<DmReply>, i: nat, j: nat)
    requires j <= |followers| && Row(acc, followers, reply, parse, i, j).Err?
    ensures Row(acc, followers, reply, parse, i, |followers|) == Row(acc, followers, reply, parse, i, j)
    decreases |followers| - j
  {
    if j < |followers| {
      RowErrNext(acc, followers, reply, parse, i, j);
      RowErrStays(acc, followers, reply, parse, i, j + 1);
    }
  }

  lemma {:induction false} TableErrStays(followers: seq<string>, reply: (nat, nat) -> AgentReply,
                                         parse: string -> Option<DmReply>, i: nat, n: nat)
    requires i <= n && Table(followers, reply, parse, i).Err?
    ensures Table(followers, reply, parse, n) == Table(followers, reply, parse, i)
    decreases n - i
  {
    if i < n {
      assert Table(followers, reply, parse, i + 1) == Table(followers, reply, parse, i);
      TableErrStays(followers, reply, parse, i + 1, n);
    }
  }

  /** Pair `(a, b)` (link, follower) is handled before pair `(i, j)`. */
  predicate Before(a: nat, b: nat, i: nat, j: nat)
  {
    a < i || (a == i && b < j)
  }

  /** Every DM to `f` among the pairs before `(i, j)` was confirmed. */
  ghost predicate AllConfirmed(followers: seq<string>, reply: (nat, nat) -> AgentReply,
                               parse: string -> Option<DmReply>, f: string, i: nat, j: nat)
  {
    forall a: nat, b: nat :: b < |followers| && followers[b] == f && Before(a, b, i, j) ==>
      reply(a, b).Replied? && Confirmed(reply(a, b).text, parse)
  }

  /** No `agent.run` raised among the pairs before `(i, j)`. */
  ghost predicate NoneRaised(followers: seq<string>, reply: (nat, nat) -> AgentReply, i: nat, j: nat)
  {
    forall a: nat, b: nat :: b < |followers| && Before(a, b, i, j) ==> reply(a, b).Replied?
  }

  /** The state of the fold before pair `(i, j)` (with `j <= |followers|`):
      keys in first-seen order, and a follower is `Sent` exactly when every DM
      to them so far was confirmed. */
  ghost predicate Folded(acc: DmReport, followers: seq<string>, reply: (nat, nat) -> AgentReply,
                         parse: string -> Option<DmReply>, i: nat, j: nat)
    requires j <= |followers|
  {
    && acc.order == Distinct(Seen(followers, i, j))
    && KeysInOrder(acc)
    && StatusMatches(acc, followers, reply, parse, i, j)
  }

  function Seen(followers: seq<string>, i: nat, j: nat): seq<string>
    requires j <= |followers|
  {
    if i == 0 then followers[..j] else followers
  }

  ghost predicate KeysInOrder(acc: DmReport)
  {
    forall f :: f in acc.status <==> f in acc.order
  }

  ghost predicate StatusMatches(acc: DmReport, followers: seq<string>, reply: (nat, nat) -> AgentReply,
                                parse: string -> Option<DmReply>, i: nat, j: nat)
  {
    forall f :: f in acc.status ==> (acc.status[f] == Sent <==> AllConfirmed(followers, reply, parse, f, i, j))
  }

  /** The effect of one replied DM on the fold: `f` is added to the keys if
      new, no other status changes, and `f` stays or becomes `Sent` exactly
      when it had no status or was `Sent` and this reply confirms the DM. */
  lemma StepEffect(acc: DmReport, f: string, text: string, parse: string -> Option<DmReply>)
    ensures var r := Step(acc, f, Replied(text), parse);
      && r.Ok?
      && r.value.order == (if f in acc.status then acc.order else acc.order + [f])
      && r.value.status.Keys == acc.status.Keys + {f}
      && (forall g :: g in acc.status && g != f ==> r.value.status[g] == acc.status[g])
      && (r.value.status[f] == Sent <==> (f !in acc.status || acc.status[f] == Sent) && Confirmed(text, parse))
  {
  }

  /** The DMs to `g` before the pair after `(i, j)` are those before `(i, j)`
      and, when `g` is follower `j`, the DM of pair `(i, j)`. */
  lemma AllConfirmedStep(followers: seq<string>, reply: (nat, nat) -> AgentReply,
                         parse: string -> Option<DmReply>, g: string, i: nat, j: nat)
    requires j < |followers|
    ensures AllConfirmed(followers, reply, parse, g, i, j + 1) <==>
            AllConfirmed(followers, reply, parse, g, i, j) &&
            (followers[j] == g ==> reply(i, j).Replied? && Confirmed(reply(i, j).text, parse))
  {
    if AllConfirmed(followers, reply, parse, g, i, j + 1) {
      assert Before(i, j, i, j + 1);
    }
  }

  /** The pairs before the end of row `i` are those before the start of row `i + 1`. */
  lemma AllConfirmedRowEnd(followers: seq<string>, reply: (nat, nat) -> AgentReply,
                           parse: string -> Option<DmReply>, f: string, i: nat)
    ensures AllConfirmed(followers, reply, parse, f, i, |followers|) <==>
            AllConfirmed(followers, reply, parse, f, i + 1, 0)
  {
    forall a: nat, b: nat | b < |followers|
      ensures Before(a, b, i, |followers|) <==> Before(a, b, i + 1, 0)
    {
    }
  }

  /** In the first row, a follower not yet seen has had no DM. */
  lemma FirstAttempt(followers: seq<string>, reply: (nat, nat) -> AgentReply,
                     parse: string -> Option<DmReply>, f: string, j: nat)
    requires j <= |followers| && f !in Distinct(followers[..j])
    ensures AllConfirmed(followers, reply, parse, f, 0, j)
  {
    forall b | 0 <= b < j ensures followers[b] != f {
      assert followers[..j][b] == followers[b];
    }
  }

  lemma DistinctPrefixStep(followers: seq<string>, j: nat)
    requires j < |followers|
    ensures Distinct(followers[..j + 1]) ==
      if followers[j] in Distinct(followers[..j]) then Distinct(followers[..j])
      else Distinct(followers[..j]) + [followers[j]]
  {
    var s := followers[..j + 1];
    assert s[..|s| - 1] == followers[..j];
  }

  /** One pair keeps the keys: first-seen order, and no key without an entry. */
  lemma StepKeys(acc: DmReport, followers: seq<string>, i: nat, j: nat, text: string, parse: string -> Option<DmReply>)
    requires j < |followers| && acc.order == Distinct(Seen(followers, i, j)) && KeysInOrder(acc)
    ensures var next := Step(acc, followers[j], Replied(text), parse).value;
      next.order == Distinct(Seen(followers, i, j + 1)) && KeysInOrder(next)
  {
    StepEffect(acc, followers[j], text, parse);
    if i == 0 {
      DistinctPrefixStep(followers, j);
    } else {
      assert followers[j] in Distinct(followers);
    }
  }

  /** One pair keeps the status rule. */
  lemma StepStatus(acc: DmReport, followers: seq<string>, reply: (nat, nat) -> AgentReply,
                   parse: string -> Option<DmReply>, i: nat, j: nat)
    requires j < |followers| && reply(i, j).Replied?
    requires acc.order == Distinct(Seen(followers, i, j)) && KeysInOrder(acc)
    requires StatusMatches(acc, followers, reply, parse, i, j)
    ensures StatusMatches(Step(acc, followers[j], reply(i, j), parse).value, followers, reply, parse, i, j + 1)
  {
    var next := Step(acc, followers[j], reply(i, j), parse).value;
    forall g | g in next.status
      ensures next.status[g] == Sent <==> AllConfirmed(followers, reply, parse, g, i, j + 1)
    {
      StepStatusOf(acc, followers, reply, parse, i, j, g);
    }
  }

  /** The status rule for one follower `g` after pair `(i, j)`. */
  lemma StepStatusOf(acc: DmReport, followers: seq<string>, reply: (nat, nat) -> AgentReply,
                     parse: string -> Option<DmReply>, i: nat, j: nat, g: string)
    requires j < |followers| && reply(i, j).Replied?
    requires acc.order == Distinct(Seen(followers, i, j)) && KeysInOrder(acc)
    requires g in acc.status ==> (acc.status[g] == Sent <==> AllConfirmed(followers, reply, parse, g, i, j))
    ensures var next := Step(acc, followers[j], reply(i, j), parse).value;
      g in next.status ==> (next.status[g] == Sent <==> AllConfirmed(followers, reply, parse, g, i, j + 1))
  {
    var f := followers[j];
    var text := reply(i, j).text;
    StepEffect(acc, f, text, parse);
    AllConfirmedStep(followers, reply, parse, g, i, j);
    var next := Step(acc, f, reply(i, j), parse).value;
    if g in next.status {
      if g != f {
        assert next.status[g] == acc.status[g];
      } else if f in acc.status {
        assert next.status[f] == Sent <==> acc.status[f] == Sent && Confirmed(text, parse);
      } else {
        assert i == 0;
        FirstAttempt(followers, reply, parse, f, j);
      }
    }
  }

  /** One pair of the fold keeps `Folded`. */
  lemma StepFolded(acc: DmReport, followers: seq<string>, reply: (nat, nat) -> AgentReply,
                   parse: string -> Option<DmReply>, i: nat, j: nat)
    requires j < |followers| && Folded(acc, followers, reply, parse, i, j)
    requires reply(i, j).Replied?
    ensures Step(acc, followers[j], reply(i, j), parse).Ok?
    ensures Folded(Step(acc, followers[j], reply(i, j), parse).value, followers, reply, parse, i, j + 1)
  {
    StepEffect(acc, followers[j], reply(i, j).text, parse);
    StepKeys(acc, followers, i, j, reply(i, j).text, parse);
    StepStatus(acc, followers, reply, parse, i, j);
  }

  /** A row fails exactly when some reply in it raised, with the first such error. */
  lemma {:induction false} RowRaises(acc: DmReport, followers: seq<string>, reply: (nat, nat) -> AgentReply,
                                     parse: string -> Option<DmReply>, i: nat, j: nat)
    requires j <= |followers|
    ensures var r := Row(acc, followers, reply, parse, i, j);
      && (r.Ok? <==> forall b :: 0 <= b < j ==> reply(i, b).Replied?)
      && (r.Err? ==> exists b :: (0 <= b < j && reply(i, b).RunRaised? && r.error == RunFailed(reply(i, b).message) &&
                                 forall c :: 0 <= c < b ==> reply(i, c).Replied?))
    decreases j
  {
    if j > 0 {
      var last := j - 1;
      RowRaises(acc, followers, reply, parse, i, last);
      var before := Row(acc, followers, reply, parse, i, last);
      if before.Err? {
        RowErrNext(acc, followers, reply, parse, i, last);
        var b :| 0 <= b < last && reply(i, b).RunRaised? && before.error == RunFailed(reply(i, b).message) &&
                 forall c :: 0 <= c < b ==> reply(i, c).Replied?;
        assert !reply(i, b).Replied?;
      } else {
        RowNext(acc, followers, reply, parse, i, last);
        if reply(i, last).Replied? {
          StepEffect(before.value, followers[last], reply(i, last).text, parse);
        } else {
          assert Row(acc, followers, reply, parse, i, j) == Err(RunFailed(reply(i, last).message));
        }
      }
    }
  }

  /** A row that went through its first `j` followers went through the first
      `j - 1`, and the reply to follower `j - 1` came back. */
  lemma RowOkStep(acc: DmReport, followers: seq<string>, reply: (nat, nat) -> AgentReply,
                  parse: string -> Option<DmReply>, i: nat, j: nat)
    requires 0 < j <= |followers| && Row(acc, followers, reply, parse, i, j).Ok?
    ensures Row(acc, followers, reply, parse, i, j - 1).Ok? && reply(i, j - 1).Replied?
    ensures Row(acc, followers, reply, parse, i, j) ==
            Step(Row(acc, followers, reply, parse, i, j - 1).value, followers[j - 1], reply(i, j - 1), parse)
  {
  }

  /** A row that went through keeps `Folded` from its start to its end. */
  lemma {:induction false} RowFolded(acc: DmReport, followers: seq<string>, reply: (nat, nat) -> AgentReply,
                                     parse: string -> Option<DmReply>, i: nat, j: nat)
    requires j <= |followers| && Folded(acc, followers, reply, parse, i, 0)
    requires Row(acc, followers, reply, parse, i, j).Ok?
    ensures Folded(Row(acc, followers, reply, parse, i, j).value, followers, reply, parse, i, j)
    decreases j
  {
    if j > 0 {
      var last := j - 1;
      RowOkStep(acc, followers, reply, parse, i, j);
      RowFolded(acc, followers, reply, parse, i, last);
      var before := Row(acc, followers, reply, parse, i, last);
      StepFolded(before.value, followers, reply, parse, i, last);
    }
  }

  /** The fold over the first `n` links fails exactly when some reply raised,
      with the error of the first one. */
  lemma {:induction false} TableRaises(followers: seq<string>, reply: (nat, nat) -> AgentReply,
                                       parse: string -> Option<DmReply>, n: nat)
    ensures var r := Table(followers, reply, parse, n);
      && (r.Ok? <==> NoneRaised(followers, reply, n, 0))
      && (r.Err? ==> exists a: nat, b: nat :: (a < n && b < |followers| && reply(a, b).RunRaised? &&
                     r.error == RunFailed(reply(a, b).message) && NoneRaised(followers, reply, a, b)))
    decreases n
  {
    if n > 0 {
      var row := n - 1;
      TableRaises(followers, reply, parse, row);
      var before := Table(followers, reply, parse, row);
      if before.Ok? {
        LastRowRaises(before.value, followers, reply, parse, row);
      } else {
        var a: nat, b: nat :| a < row && b < |followers| && reply(a, b).RunRaised? &&
          before.error == RunFailed(reply(a, b).message) && NoneRaised(followers, reply, a, b);
        assert Before(a, b, n, 0);
      }
    }
  }

  /** Row `row`, run after all earlier rows went through, fails exactly when
      one of its replies raised, with the error of the first one. */
  lemma LastRowRaises(acc: DmReport, followers: seq<string>, reply: (nat, nat) -> AgentReply,
                      parse: string -> Option<DmReply>, row: nat)
    requires NoneRaised(followers, reply, row, 0)
    ensures var r := Row(acc, followers, reply, parse, row, |followers|);
      && (r.Ok? <==> NoneRaised(followers, reply, row + 1, 0))
      && (r.Err? ==> exists a: nat, b: nat :: (a < row + 1 && b < |followers| && reply(a, b).RunRaised? &&
                     r.error == RunFailed(reply(a, b).message) && NoneRaised(followers, reply, a, b)))
  {
    RowRaises(acc, followers, reply, parse, row, |followers|);
    var r := Row(acc, followers, reply, parse, row, |followers|);
    if r.Err? {
      var b :| 0 <= b < |followers| && reply(row, b).RunRaised? && r.error == RunFailed(reply(row, b).message) &&
               forall c :: 0 <= c < b ==> reply(row, c).Replied?;
      assert NoneRaised(followers, reply, row, b);
      assert !reply(row, b).Replied? && Before(row, b, row + 1, 0);
    }
  }

  /** When no reply raised, the fold over the first `n` links ends in `Folded`. */
  lemma {:induction false} TableFolded(followers: seq<string>, reply: (nat, nat) -> AgentReply,
                                       parse: string -> Option<DmReply>, n: nat)
    requires Table(followers, reply, parse, n).Ok?
    ensures Folded(Table(followers, reply, parse, n).value, followers, reply, parse, n, 0)
    decreases n
  {
    if n > 0 {
      var row := n - 1;
      var before := Table(followers, reply, parse, row);
      assert before.Ok?;
      TableNext(followers, reply, parse, row);
      TableFolded(followers, reply, parse, row);
      var r := Row(before.value, followers, reply, parse, row, |followers|);
      RowFolded(before.value, followers, reply, parse, row, |followers|);
      assert Seen(followers, row, |followers|) == followers;
      forall f | f in r.value.status
        ensures AllConfirmed(followers, reply, parse, f, row, |followers|) <==>
                AllConfirmed(followers, reply, parse, f, n, 0)
      {
        AllConfirmedRowEnd(followers, reply, parse, f, row);
      }
    } else {
      assert Seen(followers, 0, 0) == [];
    }
  }

  /** The result of `dm_followers_with_reels` once the agent exists: it fails
      exactly when some `agent.run` raised, with the first such error; with no
      links it is empty; otherwise its keys are the distinct followers in
      first-seen order, and a follower is "sent" exactly when every DM to them
      was confirmed — one unconfirmed or unparsable reply makes them "failed"
      for good. */
  lemma DmStatusSpec(links: seq<string>, followers: seq<string>, reply: (nat, nat) -> AgentReply,
                     parse: string -> Option<DmReply>)
    ensures var r := Table(followers, reply, parse, |links|);
      && (r.Err? <==> exists a: nat, b: nat :: a < |links| && b < |followers| && reply(a, b).RunRaised?)
      && (r.Err? ==> exists a: nat, b: nat :: (a < |links| && b < |followers| && reply(a, b).RunRaised? &&
                     r.error == RunFailed(reply(a, b).message) && NoneRaised(followers, reply, a, b)))
      && (r.Ok? && links == [] ==> r.value == DmReport([], map[]))
      && (r.Ok? && links != [] ==> r.value.order == Distinct(followers) &&
                                   forall f :: f in r.value.status <==> f in followers)
      && (r.Ok? ==> forall f :: f in r.value.status ==>
            (r.value.status[f] == Sent <==> AllConfirmed(followers, reply, parse, f, |links|, 0)))
  {
    var n := |links|;
    TableRaises(followers, reply, parse, n);
    var r := Table(followers, reply, parse, n);
    if r.Ok? {
      TableFolded(followers, reply, parse, n);
      if n == 0 {
        assert followers[..0] == [];
        assert r.value.status.Keys == {};
      } else {
        forall f ensures f in r.value.status <==> f in followers {
          if f in followers {
            var k :| 0 <= k < |followers| && followers[k] == f;
          }
        }
      }
    } else {
      var a: nat, b: nat :| a < n && b < |followers| && reply(a, b).RunRaised? &&
        r.error == RunFailed(reply(a, b).message) && NoneRaised(followers, reply, a, b);
    }
    if exists a: nat, b: nat :: a < n && b < |followers| && reply(a, b).RunRaised? {
      var a: nat, b: nat :| a < n && b < |followers| && reply(a, b).RunRaised?;
      assert Before(a, b, n, 0);
    }
  }

  // ------------------------------------------------------------------- runner

  /** The runner: `_initialized`, `agent`, and how many times the MCP sessions
      were created. */
  class Runner {
    var initialized: bool
    var agent: Option<Agent>
    var sessionsCreated: nat

    /** The agent exists exactly once initialised, and the sessions were created
        exactly once by then. */
    ghost predicate Valid()
      reads this
    {
      && (initialized <==> agent.Some?)
      && (agent.Some? ==> agent.value.maxSteps == MaxAgentSteps)
      && sessionsCreated == (if initialized then 1 else 0)
    }

    constructor ()
      ensures Valid() && !initialized && agent == None && sessionsCreated == 0
    {
      initialized := false;
      agent := None;
      sessionsCreated := 0;
    }

    /** `initialize`: the first successful call creates the sessions and the
        agent; later calls do nothing. When creating the sessions raises, the
        error escapes and the runner stays uninitialised. */
    method Initialize(sessionsError: Option<string>) returns (failure: Option<AgentError>)
      modifies this
      ensures old(initialized) ==> failure == None && unchanged(this)
      ensures !old(initialized) && sessionsError.Some? ==>
        failure == Some(SessionsFailed(sessionsError.value)) && unchanged(this)
      ensures !old(initialized) && sessionsError.None? ==>
        && failure == None && initialized && agent == Some(Agent(MaxAgentSteps))
        && sessionsCreated == old(sessionsCreated) + 1
      ensures old(initialized) ==> initialized
      ensures failure.None? <==> initialized
      ensures old(Valid()) ==> Valid()
    {
      if !initialized {
        if sessionsError.Some? {
          return Some(SessionsFailed(sessionsError.value));
        }
        sessionsCreated := sessionsCreated + 1;
        agent := Some(Agent(MaxAgentSteps));
        initialized := true;
      }
      failure := None;
    }

    /** `get_followers`: the `followers` array of the stripped reply; `None`
        with no agent. */
    method GetFollowers(sessionsError: Option<string>, reply: AgentReply, parse: string -> FollowersDoc)
      returns (r: Result<Option<seq<string>>, AgentError>)
      modifies this
      ensures !old(initialized) && sessionsError.Some? ==>
        r == Err(SessionsFailed(sessionsError.value)) && unchanged(this)
      ensures old(initialized) ==> unchanged(this)
      ensures old(initialized) || sessionsError.None? ==>
        && initialized
        && (agent.None? ==> r == Ok(None))
        && (agent.Some? && reply.RunRaised? ==> r == Err(RunFailed(reply.message)))
        && (agent.Some? && reply.Replied? ==>
              match parse(StripFences(reply.text))
              case NotJson => r == Err(ReplyNotJson)
              case NoFollowersKey => r == Err(FollowersKeyMissing)
              case FollowersList(names) => r == Ok(Some(names)))
      ensures old(Valid()) ==> Valid()
    {
      var failure := Initialize(sessionsError);
      if failure.Some? {
        return Err(failure.value);
      }
      if agent.None? {
        return Ok(None);
      }
      if reply.RunRaised? {
        return Err(RunFailed(reply.message));
      }
      var doc := parse(StripFences(reply.text));
      match doc
      case NotJson => r := Err(ReplyNotJson);
      case NoFollowersKey => r := Err(FollowersKeyMissing);
      case FollowersList(names) => r := Ok(Some(names));
    }

    /** `upload_reels_and_stories`: the watch URLs of the uploads; `[]` with no agent. */
    method UploadReelsAndStories(sessionsError: Option<string>, items: seq<UploadItem>, upload: nat -> UploadResponse)
      returns (r: Result<seq<string>, AgentError>, calls: seq<UploadCall>)
      modifies this
      ensures !old(initialized) && sessionsError.Some? ==>
        r == Err(SessionsFailed(sessionsError.value)) && calls == [] && unchanged(this)
      ensures old(initialized) ==> unchanged(this)
      ensures old(initialized) || sessionsError.None? ==>
        && initialized
        && (agent.None? ==> r == Ok([]) && calls == [])
        && (agent.Some? ==> r.Ok? && calls == UploadCalls(items, |items|) && r.value == UploadLinks(items, upload, |items|))
      ensures old(Valid()) ==> Valid()
    {
      calls := [];
      var failure := Initialize(sessionsError);
      if failure.Some? {
        return Err(failure.value), [];
      }
      if agent.None? {
        return Ok([]), [];
      }
      var links;
      links, calls := CollectUploadLinks(items, upload);
      r := Ok(links);
    }

    /** `dm_followers_with_reels`: the per-follower status; `{}` with no agent. */
    method DmFollowersWithReels(sessionsError: Option<string>, links: seq<string>, followers: seq<string>,
                                reply: (nat, nat) -> AgentReply, parse: string -> Option<DmReply>)
      returns (r: Result<DmReport, AgentError>)
      modifies this
      ensures !old(initialized) && sessionsError.Some? ==>
        r == Err(SessionsFailed(sessionsError.value)) && unchanged(this)
      ensures old(initialized) ==> unchanged(this)
      ensures old(initialized) || sessionsError.None? ==>
        && initialized
        && (agent.None? ==> r == Ok(DmReport([], map[])))
        && (agent.Some? ==> r == Table(followers, reply, parse, |links|))
      ensures old(Valid()) ==> Valid()
    {
      var failure := Initialize(sessionsError);
      if failure.Some? {
        return Err(failure.value);
      }
      if agent.None? {
        return Ok(DmReport([], map[]));
      }
      r := AggregateDmStatus(links, followers, reply, parse);
    }
  }
}
