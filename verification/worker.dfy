/**
 * The `fetch` handler (cloudflare/index.js, lines 71-148) over the worker's
 * environment: the key-value namespace `FCE_KV` and the GitHub workflow it
 * dispatches. Every effect on either is recorded, in order, in one log.
 */
module Worker {
  import opened Wrappers
  import opened JsString
  import opened RequestKey
  import opened GitHub

  /** The `expirationTtl`, in seconds, of a freshly written track id. */
  const TrackTtl: nat := 1800

  /** A stored value with the expiry it was written with; expiry itself is not modelled. */
  datatype Entry = Entry(value: string, ttl: nat)

  /** The `inputs` of a workflow dispatch. */
  datatype DispatchInputs = DispatchInputs(url: string, track: string, imageType: string)

  /** An effect of the handler on the outside world. */
  datatype Event =
    | KvRead(key: string)
    | KvWrite(key: string, value: string, ttl: nat)
    | KvRemove(key: string)
    | RunsListed(trackId: string)
    | WorkflowDispatched(inputs: DispatchInputs)

  /** The JSON bodies the handler answers with. */
  datatype Body =
    | Failed(error: string)                                    // { error }
    | DispatchFailed(details: string, apiResponse: string)     // { error: 'Dispatch failed', details, api_response }
    | InternalError(details: string)                           // { error: 'Internal server error', details }
    | Retry                                                    // { status: 'retry' }
    | Processing(trackId: string)                              // { status: 'processing', track_id }
    | Started(trackId: string, imageType: string, url: string) // { status: 'processing', track_id, image_type, url }

  datatype Response = Response(status: nat, body: Body)

  const RunCheckFailed: string := "Failed to check run status"

  /** The number of workflow dispatches in a log. */
  function Dispatches(log: seq<Event>): nat {
    if log == [] then 0
    else Dispatches(log[..|log| - 1]) + (if log[|log| - 1].WorkflowDispatched? then 1 else 0)
  }

  /** Dispatches of consecutive stretches of a log add up. */
  lemma {:induction false} DispatchesAppend(a: seq<Event>, b: seq<Event>)
    ensures Dispatches(a + b) == Dispatches(a) + Dispatches(b)
  {
    if b != [] {
      var b' := b[..|b| - 1];
      assert (a + b)[..|a + b| - 1] == a + b';
      DispatchesAppend(a, b');
    } else {
      assert a + b == a;
    }
  }

  /** `if (existingTrack)`: a stored empty string counts as no track. */
  function Live(kv: map<string, Entry>, key: string): (r: Option<string>)
    ensures r.Some? <==> key in kv && kv[key].value != []
    ensures r.Some? ==> r.value == kv[key].value
  {
    if key in kv && kv[key].value != [] then Some(kv[key].value) else None
  }

  /**
   * What `Live` reads after the handler's two store updates: a write of an
   * empty string reads as no track, a delete always does, and neither
   * touches what the other keys read.
   */
  lemma LiveAfterUpdate(kv: map<string, Entry>, key: string, v: string, ttl: nat)
    ensures Live(kv[key := Entry(v, ttl)], key) == (if v == [] then None else Some(v))
    ensures Live(kv - {key}, key) == None
    ensures forall k :: k != key ==>
      Live(kv[key := Entry(v, ttl)], k) == Live(kv, k) && Live(kv - {key}, k) == Live(kv, k)
  {
  }

  /** `m` and `m'` agree on every key other than `key`. */
  ghost predicate AgreeExcept(m: map<string, Entry>, m': map<string, Entry>, key: string) {
    forall k :: k != key ==> (k in m <==> k in m') && (k in m ==> m[k] == m'[k])
  }

  /** The worker's `env`: the key-value namespace and the log of everything done to the outside. */
  class Env {
    var kv: map<string, Entry>
    var log: seq<Event>

    constructor (initial: map<string, Entry>)
      ensures kv == initial && log == []
    {
      kv := initial;
      log := [];
    }

    /** `env.FCE_KV.get(key)`: the stored value, or None (JavaScript null). */
    method KvGet(key: string) returns (v: Option<string>)
      modifies this
      ensures kv == old(kv) && log == old(log) + [KvRead(key)]
      ensures v.Some? <==> key in kv
      ensures v.Some? ==> v.value == kv[key].value
    {
      v := if key in kv then Some(kv[key].value) else None;
      log := log + [KvRead(key)];
    }

    /** `env.FCE_KV.put(key, value, { expirationTtl: ttl })`: overwrites unconditionally. */
    method KvPut(key: string, value: string, ttl: nat)
      modifies this
      ensures kv == old(kv)[key := Entry(value, ttl)] && log == old(log) + [KvWrite(key, value, ttl)]
    {
      kv := kv[key := Entry(value, ttl)];
      log := log + [KvWrite(key, value, ttl)];
    }

    /** `env.FCE_KV.delete(key)`: absent keys are fine. */
    method KvDelete(key: string)
      modifies this
      ensures kv == old(kv) - {key} && log == old(log) + [KvRemove(key)]
    {
      kv := kv - {key};
      log := log + [KvRemove(key)];
    }

    /** `checkGitHubRun(token, trackId)`, given the listing GitHub answered with. */
    method CheckGitHubRun(trackId: string, reply: RunsReply) returns (s: RunStatus)
      modifies this
      ensures s == ClassifyRuns(reply, trackId)
      ensures kv == old(kv) && log == old(log) + [RunsListed(trackId)]
    {
      s := ClassifyRuns(reply, trackId);
      log := log + [RunsListed(trackId)];
    }

    /**
     * `triggerGitHubAction(token, inputs)`, given GitHub's reply: the result
     * object, or Failure(message) when the fetch threw.
     */
    method TriggerGitHubAction(inputs: DispatchInputs, reply: DispatchReply) returns (r: Result<DispatchResult, string>)
      modifies this
      ensures reply.DispatchNetworkFailure? ==> r == Failure(reply.message)
      ensures reply.DispatchDelivered? ==> r == Success(ToDispatchResult(reply.reply))
      ensures kv == old(kv) && log == old(log) + [WorkflowDispatched(inputs)]
    {
      log := log + [WorkflowDispatched(inputs)];
      match reply
      case DispatchNetworkFailure(m) => r := Failure(m);
      case DispatchDelivered(h) => r := Success(ToDispatchResult(h));
    }
  }

  /** What one request does: the answer, the store afterwards and the effects, in order. */
  datatype Outcome = Outcome(resp: Response, kv: map<string, Entry>, effects: seq<Event>)

  /** Lines 97-111 as a specification: the key holds the live track id `track`. */
  function ResumeOutcome(kv: map<string, Entry>, key: string, track: string, runs: RunsReply): Outcome {
    match ClassifyRuns(runs, track)
    case Error => Outcome(Response(500, Failed(RunCheckFailed)), kv, [RunsListed(track)])
    case NotFound => Outcome(Response(200, Retry), kv - {key}, [RunsListed(track), KvRemove(key)])
    case Active => Outcome(Response(200, Processing(track)), kv, [RunsListed(track)])
  }

  /** Lines 115-138 (and the catch of lines 140-146 for a dispatch that threw) as a specification. */
  function StartOutcome(kv: map<string, Entry>, job: Job, now: nat, dispatch: DispatchReply): Outcome {
    var track := DecimalString(now);
    var written := kv[job.key := Entry(track, TrackTtl)];
    var started := [KvWrite(job.key, track, TrackTtl), WorkflowDispatched(DispatchInputs(job.url, track, job.imageType))];
    match dispatch
    case DispatchNetworkFailure(m) => Outcome(Response(500, InternalError(m)), written, started)
    case DispatchDelivered(h) =>
      var d := ToDispatchResult(h);
      if d.ok then Outcome(Response(200, Started(track, job.imageType, job.url)), written, started)
      else Outcome(Response(500, DispatchFailed(FailureDetails(d), d.body)), written - {job.key}, started + [KvRemove(job.key)])
  }

  /** Lines 78-138 as a specification of one request against the store `kv`. */
  function Handle(kv: map<string, Entry>, req: Request, runs: RunsReply, now: nat, dispatch: DispatchReply): Outcome {
    match ParseRequest(req)
    case Failure(e) => Outcome(Response(400, Failed(RejectionMessage(e))), kv, [])
    case Success(job) =>
      var rest :=
        match Live(kv, job.key)
        case Some(track) => ResumeOutcome(kv, job.key, track, runs)
        case None => StartOutcome(kv, job, now, dispatch);
      Outcome(rest.resp, rest.kv, [KvRead(job.key)] + rest.effects)
  }

  /** Lines 96-111: looks up the run of the stored track id; deletes the key only when the run is gone. */
  method Resume(env: Env, key: string, track: string, runs: RunsReply) returns (resp: Response)
    modifies env
    ensures var o := ResumeOutcome(old(env.kv), key, track, runs);
      resp == o.resp && env.kv == o.kv && env.log == old(env.log) + o.effects
  {
    var status := env.CheckGitHubRun(track, runs);
    if status == Error {
      resp := Response(500, Failed(RunCheckFailed));
    } else if status == NotFound {
      env.KvDelete(key);
      resp := Response(200, Retry);
    } else {
      resp := Response(200, Processing(track));
    }
  }

  /**
   * Lines 115-138: writes a fresh track id with a 1800-second expiry,
   * then dispatches once; a rejected dispatch removes the key again.
   */
  method Start(env: Env, job: Job, now: nat, dispatch: DispatchReply) returns (resp: Response)
    modifies env
    ensures var o := StartOutcome(old(env.kv), job, now, dispatch);
      resp == o.resp && env.kv == o.kv && env.log == old(env.log) + o.effects
  {
    var track := DecimalString(now);
    env.KvPut(job.key, track, TrackTtl);
    var result := env.TriggerGitHubAction(DispatchInputs(job.url, track, job.imageType), dispatch);
    if result.Failure? {
      resp := Response(500, InternalError(result.error));
    } else if !result.value.ok {
      env.KvDelete(job.key);
      resp := Response(500, DispatchFailed(FailureDetails(result.value), result.value.body));
    } else {
      resp := Response(200, Started(track, job.imageType, job.url));
    }
  }

  /**
   * The handler, lines 78-138. `runs` is what listing GitHub's runs
   * answers, `now` the clock reading that becomes the new track id, and
   * `dispatch` what the dispatch request answers; each is consulted only
   * on the path that makes that call.
   */
  method Fetch(env: Env, req: Request, runs: RunsReply, now: nat, dispatch: DispatchReply) returns (resp: Response)
    modifies env
    ensures var o := Handle(old(env.kv), req, runs, now, dispatch);
      resp == o.resp && env.kv == o.kv && env.log == old(env.log) + o.effects
  {
    var parsed := ParseRequest(req);
    if parsed.Failure? {
      return Response(400, Failed(RejectionMessage(parsed.error)));
    }
    var job := parsed.value;
    ghost var log0 := env.log;
    var existing := env.KvGet(job.key);
    ghost var o: Outcome;
    if existing.Some? && existing.value != [] {
      o := ResumeOutcome(old(env.kv), job.key, existing.value, runs);
      resp := Resume(env, job.key, existing.value, runs);
    } else {
      o := StartOutcome(old(env.kv), job, now, dispatch);
      resp := Start(env, job, now, dispatch);
    }
    SeqAssoc(log0, [KvRead(job.key)], o.effects);
    assert Handle(old(env.kv), req, runs, now, dispatch) == Outcome(o.resp, o.kv, [KvRead(job.key)] + o.effects);
  }
}
