/**
 * The pure part of the two GitHub helpers: `checkGitHubRun`'s
 * classification of a run listing (cloudflare/index.js, lines 39-69) and
 * the result `triggerGitHubAction` builds from the dispatch reply
 * (lines 28-35). The HTTP calls themselves are replaced by the replies
 * they produced, passed in as values.
 */
module GitHub {
  import opened Wrappers
  import opened JsString

  /** The `inputs` object of a workflow run; `track` is None when missing or not a string. */
  datatype RunInputs = RunInputs(track: Option<string>)

  /** One entry of `workflow_runs`; `inputs` is None when missing or null. */
  datatype Run = Run(inputs: Option<RunInputs>, status: Option<string>)

  /**
   * What the list-runs request produced: the fetch threw, or an HTTP
   * status and the `workflow_runs` array (None when the body did not
   * parse as JSON or had no such array, which makes the code throw).
   */
  datatype RunsReply = RunsNetworkFailure | RunsDelivered(status: nat, runs: Option<seq<Run>>)

  datatype RunStatus = Error | NotFound | Active

  const ActiveStatuses: set<string> := {"in_progress", "queued", "pending", "requested"}

  /** `response.ok` of the Fetch standard: a 2xx status. */
  predicate IsOk(status: nat) {
    200 <= status <= 299
  }

  /** The filter callback: `run.inputs && run.inputs.track === trackId`. */
  predicate Matches(run: Run, trackId: string) {
    run.inputs.Some? && run.inputs.value.track == Some(trackId)
  }

  /** `workflow_runs.filter(...)`: the matching runs, in listing order. */
  function Relevant(runs: seq<Run>, trackId: string): (r: seq<Run>)
    ensures |r| <= |runs|
    ensures forall k :: 0 <= k < |r| ==> Matches(r[k], trackId)
    ensures r == [] <==> forall i :: 0 <= i < |runs| ==> !Matches(runs[i], trackId)
  {
    if runs == [] then []
    else if Matches(runs[0], trackId) then [runs[0]] + Relevant(runs[1..], trackId)
    else Relevant(runs[1..], trackId)
  }

  /** The head of the filtered list is the first matching run of the listing. */
  lemma {:induction false} RelevantHead(runs: seq<Run>, trackId: string, i: nat)
    requires i < |runs| && Matches(runs[i], trackId)
    requires forall j :: 0 <= j < i ==> !Matches(runs[j], trackId)
    ensures Relevant(runs, trackId) != [] && Relevant(runs, trackId)[0] == runs[i]
  {
    if i > 0 {
      RelevantHead(runs[1..], trackId, i - 1);
    }
  }

  /** `['in_progress', 'queued', 'pending', 'requested'].includes(status)`. */
  predicate IsActiveStatus(status: Option<string>) {
    status.Some? && status.value in ActiveStatuses
  }

  /** Lines 52-64, with the catch of lines 65-67 for a fetch or body that throws. */
  function ClassifyRuns(reply: RunsReply, trackId: string): RunStatus {
    match reply
    case RunsNetworkFailure => Error
    case RunsDelivered(status, runs) =>
      if !IsOk(status) then Error
      else if runs.None? then Error
      else
        var relevant := Relevant(runs.value, trackId);
        if |relevant| == 0 then NotFound
        else if IsActiveStatus(relevant[0].status) then Active
        else NotFound
  }

  /** The first run of the listing whose `inputs.track` is `trackId`. */
  ghost predicate FirstMatchAt(runs: seq<Run>, trackId: string, i: nat) {
    && i < |runs|
    && Matches(runs[i], trackId)
    && forall j :: 0 <= j < i ==> !Matches(runs[j], trackId)
  }

  /**
   * Lines 52-64: a failed request or unreadable body gives `error`; an
   * answer gives `active` exactly when the first run carrying the track
   * id has an active status, and `not_found` otherwise (no such run, or a
   * finished one).
   */
  lemma ClassifyRunsSpec(reply: RunsReply, trackId: string)
    ensures ClassifyRuns(reply, trackId) == Error <==>
      reply.RunsNetworkFailure? || !IsOk(reply.status) || reply.runs.None?
    ensures ClassifyRuns(reply, trackId) == Active <==>
      && reply.RunsDelivered? && IsOk(reply.status) && reply.runs.Some?
      && exists i: nat :: FirstMatchAt(reply.runs.value, trackId, i) && IsActiveStatus(reply.runs.value[i].status)
    ensures reply.RunsDelivered? && IsOk(reply.status) && reply.runs.Some? &&
      (forall i :: 0 <= i < |reply.runs.value| ==> !Matches(reply.runs.value[i], trackId))
      ==> ClassifyRuns(reply, trackId) == NotFound
  {
    if reply.RunsDelivered? && IsOk(reply.status) && reply.runs.Some? {
      var runs := reply.runs.value;
      var relevant := Relevant(runs, trackId);
      if relevant != [] {
        var i := FirstMatchIndex(runs, trackId);
        RelevantHead(runs, trackId, i);
        forall k: nat | FirstMatchAt(runs, trackId, k) ensures k == i {
        }
      }
    }
  }

  /** The index of the first matching run, when one exists. */
  lemma FirstMatchIndex(runs: seq<Run>, trackId: string) returns (i: nat)
    requires Relevant(runs, trackId) != []
    ensures FirstMatchAt(runs, trackId, i)
  {
    i := 0;
    while !Matches(runs[i], trackId)
      invariant i < |runs|
      invariant forall j :: 0 <= j < i ==> !Matches(runs[j], trackId)
      invariant exists k :: i <= k < |runs| && Matches(runs[k], trackId)
      decreases |runs| - i
    {
      i := i + 1;
    }
  }

  /** The body of a dispatch reply; `text` is None when reading it failed. */
  datatype HttpReply = HttpReply(status: nat, statusText: string, text: Option<string>)

  /** What the dispatch request produced: a reply, or a fetch that threw. */
  datatype DispatchReply = DispatchNetworkFailure(message: string) | DispatchDelivered(reply: HttpReply)

  /** The object `triggerGitHubAction` returns. */
  datatype DispatchResult = DispatchResult(ok: bool, status: nat, statusText: string, body: string)

  const UnreadableBody: string := "Unable to read response"

  /** Lines 28-35: `ok` follows the status, and an unreadable body reads as a fixed text. */
  function ToDispatchResult(reply: HttpReply): (r: DispatchResult)
    ensures r.ok <==> 200 <= reply.status <= 299
    ensures r.status == reply.status && r.statusText == reply.statusText
    ensures reply.text.Some? ==> r.body == reply.text.value
    ensures reply.text.None? ==> r.body == UnreadableBody
  {
    DispatchResult(IsOk(reply.status), reply.status, reply.statusText,
      match reply.text case Some(t) => t case None => UnreadableBody)
  }

  /**
   * The `details` field of the dispatch-failure answer, `${status} ${statusText}`:
   * the status in decimal, which reads back as the status, a space, then the text.
   */
  function FailureDetails(d: DispatchResult): (r: string)
    ensures |r| >= |d.statusText| + 2
    ensures r[|r| - |d.statusText| - 1] == ' ' && r[|r| - |d.statusText|..] == d.statusText
    ensures var code := r[..|r| - |d.statusText| - 1];
      (forall i :: 0 <= i < |code| ==> IsDigit(code[i])) && ParseDecimal(code) == d.status
  {
    var code := DecimalString(d.status);
    DecimalRoundTrip(d.status);
    var r := code + " " + d.statusText;
    assert r[..|code|] == code;
    assert r[|code| + 1..] == d.statusText;
    r
  }
}
