/**
 * What the handler of cloudflare/index.js (lines 78-138) guarantees, stated
 * about its specification Handle, which the Fetch method is proved to meet.
 */
module WorkerProperties {
  import opened Wrappers
  import opened JsString
  import opened RequestKey
  import opened GitHub
  import opened Worker

  /** Lines 81-83: a missing or empty `url` is answered with 400 before any read, write or dispatch. */
  lemma MissingUrlRejected(kv: map<string, Entry>, req: Request, runs: RunsReply, now: nat, dispatch: DispatchReply)
    requires req.urlParam.None? || req.urlParam.value == []
    ensures Handle(kv, req, runs, now, dispatch) == Outcome(Response(400, Failed("Missing URL parameter")), kv, [])
  {
  }

  /** Lines 78 and 85-87: a type that lower-cases to none of boot, recovery, modem is answered with 400, touching nothing. */
  lemma InvalidTypeRejected(kv: map<string, Entry>, req: Request, runs: RunsReply, now: nat, dispatch: DispatchReply)
    requires req.urlParam.Some? && req.urlParam.value != []
    requires req.typeParam.Some? && req.typeParam.value != [] && ToLower(req.typeParam.value) !in ValidTypes
    ensures var o := Handle(kv, req, runs, now, dispatch);
      o == Outcome(Response(400, Failed("Invalid image type. Must be boot, recovery, or modem")), kv, [])
  {
  }

  /** Line 78: with no `type`, or an empty one, a request is handled as a boot request. */
  lemma TypeDefaultsToBoot(req: Request)
    requires req.typeParam.None? || req.typeParam == Some([])
    requires req.urlParam.Some? && req.urlParam.value != []
    ensures ParseRequest(req).Success? && ParseRequest(req).value.imageType == "boot"
    ensures ParseRequest(req).value.key == KvKey("boot", FirmwareName(Normalize(req.urlParam.value)))
  {
  }

  /** A one-event log holds a dispatch exactly when that event is one. */
  lemma DispatchesSingle(e: Event)
    ensures Dispatches([e]) == if e.WorkflowDispatched? then 1 else 0
  {
    assert [e][..0] == [];
  }

  /** Lines 97-111: following up a live track id never dispatches and touches only its key. */
  lemma ResumeNeverDispatches(kv: map<string, Entry>, key: string, track: string, runs: RunsReply)
    ensures var o := ResumeOutcome(kv, key, track, runs);
      && Dispatches(o.effects) == 0
      && (forall i :: 0 <= i < |o.effects| ==> !o.effects[i].WorkflowDispatched?)
      && AgreeExcept(kv, o.kv, key)
  {
    DispatchesSingle(RunsListed(track));
    DispatchesSingle(KvRemove(key));
    DispatchesAppend([RunsListed(track)], [KvRemove(key)]);
    assert [RunsListed(track)] + [KvRemove(key)] == [RunsListed(track), KvRemove(key)];
  }

  /** Lines 115-131: starting writes the track id, then dispatches exactly once with it, and touches only its key. */
  lemma StartDispatchesOnce(kv: map<string, Entry>, job: Job, now: nat, dispatch: DispatchReply)
    ensures var o := StartOutcome(kv, job, now, dispatch);
      var track := DecimalString(now);
      && Dispatches(o.effects) == 1
      && |o.effects| >= 2
      && o.effects[0] == KvWrite(job.key, track, TrackTtl)
      && o.effects[1] == WorkflowDispatched(DispatchInputs(job.url, track, job.imageType))
      && (forall i :: 0 <= i < |o.effects| && i != 1 ==> !o.effects[i].WorkflowDispatched?)
      && AgreeExcept(kv, o.kv, job.key)
  {
    var track := DecimalString(now);
    var w, d := KvWrite(job.key, track, TrackTtl), WorkflowDispatched(DispatchInputs(job.url, track, job.imageType));
    StartedLogDispatches(w, d, KvRemove(job.key));
    var written := kv[job.key := Entry(track, TrackTtl)];
    match dispatch
    case DispatchNetworkFailure(_) =>
    case DispatchDelivered(h) =>
      if !IsOk(h.status) {
        assert [w, d] + [KvRemove(job.key)] == [w, d, KvRemove(job.key)];
        assert StartOutcome(kv, job, now, dispatch).kv == written - {job.key};
      }
  }

  /** A write, a dispatch and an optional removal hold exactly one dispatch. */
  lemma StartedLogDispatches(w: Event, d: Event, r: Event)
    requires !w.WorkflowDispatched? && d.WorkflowDispatched? && !r.WorkflowDispatched?
    ensures Dispatches([w, d]) == 1 && Dispatches([w, d, r]) == 1
  {
    DispatchesSingle(w);
    DispatchesSingle(d);
    DispatchesSingle(r);
    assert [w, d] == [w] + [d];
    DispatchesAppend([w], [d]);
    assert [w, d, r] == [w, d] + [r];
    DispatchesAppend([w, d], [r]);
  }

  /** The effects of one request hold at most one dispatch, and one exactly when no live track id was stored. */
  lemma AtMostOneDispatch(kv: map<string, Entry>, req: Request, runs: RunsReply, now: nat, dispatch: DispatchReply)
    ensures var o := Handle(kv, req, runs, now, dispatch);
      && Dispatches(o.effects) <= 1
      && (Dispatches(o.effects) == 1 <==>
            ParseRequest(req).Success? && Live(kv, ParseRequest(req).value.key).None?)
  {
    if ParseRequest(req).Success? {
      var job := ParseRequest(req).value;
      var rest :=
        match Live(kv, job.key)
        case Some(track) => ResumeOutcome(kv, job.key, track, runs)
        case None => StartOutcome(kv, job, now, dispatch);
      assert Handle(kv, req, runs, now, dispatch).effects == [KvRead(job.key)] + rest.effects;
      DispatchesSingle(KvRead(job.key));
      DispatchesAppend([KvRead(job.key)], rest.effects);
      if Live(kv, job.key).Some? {
        ResumeNeverDispatches(kv, job.key, Live(kv, job.key).value, runs);
      } else {
        StartDispatchesOnce(kv, job, now, dispatch);
      }
    }
  }

  /**
   * Lines 95 and 115-122: a valid request first reads its key, changes no
   * other key, and writes the new track id with a 1800-second expiry
   * before the one dispatch, which carries that same track id.
   */
  lemma ReadFirstWriteBeforeDispatch(kv: map<string, Entry>, req: Request, runs: RunsReply, now: nat, dispatch: DispatchReply)
    requires ParseRequest(req).Success?
    ensures var job := ParseRequest(req).value;
      var o := Handle(kv, req, runs, now, dispatch);
      && o.effects != [] && o.effects[0] == KvRead(job.key)
      && AgreeExcept(kv, o.kv, job.key)
      && forall i :: 0 <= i < |o.effects| && o.effects[i].WorkflowDispatched? ==>
           && i == 2
           && o.effects[1] == KvWrite(job.key, DecimalString(now), TrackTtl)
           && o.effects[i].inputs == DispatchInputs(job.url, DecimalString(now), job.imageType)
  {
    var job := ParseRequest(req).value;
    var rest: Outcome;
    if Live(kv, job.key).Some? {
      rest := ResumeOutcome(kv, job.key, Live(kv, job.key).value, runs);
      assert Handle(kv, req, runs, now, dispatch) == Outcome(rest.resp, rest.kv, [KvRead(job.key)] + rest.effects);
      ResumeNeverDispatches(kv, job.key, Live(kv, job.key).value, runs);
    } else {
      rest := StartOutcome(kv, job, now, dispatch);
      assert Handle(kv, req, runs, now, dispatch) == Outcome(rest.resp, rest.kv, [KvRead(job.key)] + rest.effects);
      StartDispatchesOnce(kv, job, now, dispatch);
    }
    ReadPrepended(job.key, rest.effects);
  }

  /** The effects of a valid request are its read followed by those of the branch taken. */
  lemma ReadPrepended(key: string, effects: seq<Event>)
    ensures var all := [KvRead(key)] + effects;
      && |all| == |effects| + 1 && all[0] == KvRead(key)
      && forall i :: 1 <= i < |all| ==> all[i] == effects[i - 1]
  {
  }

  /** Lines 96-97 and 108-111: a live track id whose run is active is reported back, with the store unchanged and no dispatch. */
  lemma ActiveRunReported(kv: map<string, Entry>, req: Request, runs: RunsReply, now: nat, dispatch: DispatchReply)
    requires ParseRequest(req).Success?
    requires var key := ParseRequest(req).value.key;
      Live(kv, key).Some? && ClassifyRuns(runs, Live(kv, key).value) == Active
    ensures var key := ParseRequest(req).value.key;
      var o := Handle(kv, req, runs, now, dispatch);
      && o.resp == Response(200, Processing(kv[key].value))
      && o.kv == kv
      && o.effects == [KvRead(key), RunsListed(kv[key].value)]
  {
  }

  /** Lines 103-106: a live track id whose run is gone is deleted and the client told to retry; nothing is dispatched. */
  lemma GoneRunCleared(kv: map<string, Entry>, req: Request, runs: RunsReply, now: nat, dispatch: DispatchReply)
    requires ParseRequest(req).Success?
    requires var key := ParseRequest(req).value.key;
      Live(kv, key).Some? && ClassifyRuns(runs, Live(kv, key).value) == NotFound
    ensures var key := ParseRequest(req).value.key;
      var o := Handle(kv, req, runs, now, dispatch);
      && o.resp == Response(200, Retry)
      && key !in o.kv && o.kv == kv - {key}
      && o.effects == [KvRead(key), RunsListed(kv[key].value), KvRemove(key)]
  {
  }

  /** Lines 99-101: when the runs cannot be listed the answer is 500 and the store is unchanged. */
  lemma RunCheckFailure(kv: map<string, Entry>, req: Request, runs: RunsReply, now: nat, dispatch: DispatchReply)
    requires ParseRequest(req).Success?
    requires var key := ParseRequest(req).value.key;
      Live(kv, key).Some? && ClassifyRuns(runs, Live(kv, key).value) == Error
    ensures var o := Handle(kv, req, runs, now, dispatch);
      o.resp == Response(500, Failed(RunCheckFailed)) && o.kv == kv
  {
  }

  /** Lines 115-138: an accepted dispatch leaves the key holding the new track id, which the answer carries with the type and URL. */
  lemma DispatchAccepted(kv: map<string, Entry>, req: Request, runs: RunsReply, now: nat, h: HttpReply)
    requires ParseRequest(req).Success? && Live(kv, ParseRequest(req).value.key).None?
    requires IsOk(h.status)
    ensures var job := ParseRequest(req).value;
      var o := Handle(kv, req, runs, now, DispatchDelivered(h));
      && o.resp.status == 200 && o.resp.body.Started?
      && o.resp.body == Started(o.resp.body.trackId, job.imageType, job.url)
      && o.kv == kv[job.key := Entry(o.resp.body.trackId, TrackTtl)]
      && Live(o.kv, job.key) == Some(o.resp.body.trackId)
      && ParseDecimal(o.resp.body.trackId) == now
  {
    DecimalRoundTrip(now);
  }

  /**
   * Lines 113-131 on a key with nothing stored: the dispatch status alone
   * decides what is left. A 2xx answer keeps the new track id and answers
   * 200; any other status deletes the key again, so the store is as before,
   * and the 500 answer carries the API's body text.
   */
  lemma DispatchStatusDecidesStore(kv: map<string, Entry>, req: Request, runs: RunsReply, now: nat, h: HttpReply)
    requires ParseRequest(req).Success? && ParseRequest(req).value.key !in kv
    ensures var key := ParseRequest(req).value.key;
      var o := Handle(kv, req, runs, now, DispatchDelivered(h));
      && (o.kv == kv <==> !IsOk(h.status))
      && (Live(o.kv, key) == Some(DecimalString(now)) <==> IsOk(h.status))
      && (o.resp.status == 200 <==> IsOk(h.status))
      && (!IsOk(h.status) ==>
            && o.resp.status == 500 && o.resp.body.DispatchFailed?
            && o.resp.body.apiResponse == (if h.text.Some? then h.text.value else UnreadableBody))
  {
    var key := ParseRequest(req).value.key;
    var track := DecimalString(now);
    if IsOk(h.status) {
      assert key in kv[key := Entry(track, TrackTtl)];
    } else {
      assert kv[key := Entry(track, TrackTtl)] - {key} == kv;
    }
  }

  /**
   * Lines 96 and 124-125 on any key without a live track id, including one
   * that holds an empty string: a rejected dispatch leaves the key deleted,
   * not restored, and every other key as it was.
   */
  lemma RejectedDispatchClearsKey(kv: map<string, Entry>, req: Request, runs: RunsReply, now: nat, h: HttpReply)
    requires ParseRequest(req).Success? && Live(kv, ParseRequest(req).value.key).None?
    requires !IsOk(h.status)
    ensures var key := ParseRequest(req).value.key;
      var o := Handle(kv, req, runs, now, DispatchDelivered(h));
      o.kv == kv - {key} && key !in o.kv
  {
    var key := ParseRequest(req).value.key;
    assert kv[key := Entry(DecimalString(now), TrackTtl)] - {key} == kv - {key};
  }

  /**
   * Lines 118 and 140-146: a dispatch whose fetch throws skips the
   * rollback; the new track id stays stored while the answer is 500.
   */
  lemma ThrownDispatchKeepsTrack(kv: map<string, Entry>, req: Request, runs: RunsReply, now: nat, message: string)
    requires ParseRequest(req).Success? && Live(kv, ParseRequest(req).value.key).None?
    ensures var key := ParseRequest(req).value.key;
      var o := Handle(kv, req, runs, now, DispatchNetworkFailure(message));
      && o.resp == Response(500, InternalError(message))
      && Live(o.kv, key) == Some(DecimalString(now))
  {
  }

  /**
   * A repeated request after an accepted dispatch: while the run is
   * active it reports the same track id and dispatches nothing; once the
   * run is gone the key is cleared, so the request after that dispatches
   * anew.
   */
  lemma RepeatedRequest(kv: map<string, Entry>, req: Request, runs1: RunsReply, now1: nat, h: HttpReply,
                        runs2: RunsReply, now2: nat, dispatch2: DispatchReply,
                        runs3: RunsReply, now3: nat, dispatch3: DispatchReply)
    requires ParseRequest(req).Success? && Live(kv, ParseRequest(req).value.key).None?
    requires IsOk(h.status)
    ensures var key := ParseRequest(req).value.key;
      var track := DecimalString(now1);
      var first := Handle(kv, req, runs1, now1, DispatchDelivered(h));
      var second := Handle(first.kv, req, runs2, now2, dispatch2);
      var third := Handle(second.kv, req, runs3, now3, dispatch3);
      && first.resp.body.Started? && first.resp.body.trackId == track
      && (ClassifyRuns(runs2, track) == Active ==>
            second.resp == Response(200, Processing(track)) && second.kv == first.kv && Dispatches(second.effects) == 0)
      && (ClassifyRuns(runs2, track) == NotFound ==>
            second.resp == Response(200, Retry) && second.kv == kv - {key} && Dispatches(second.effects) == 0
            && Dispatches(third.effects) == 1)
  {
    var key := ParseRequest(req).value.key;
    var track := DecimalString(now1);
    DispatchAccepted(kv, req, runs1, now1, h);
    var first := Handle(kv, req, runs1, now1, DispatchDelivered(h));
    assert first.kv == kv[key := Entry(track, TrackTtl)];
    AtMostOneDispatch(first.kv, req, runs2, now2, dispatch2);
    var status := ClassifyRuns(runs2, track);
    if status == Active {
      ActiveRunReported(first.kv, req, runs2, now2, dispatch2);
    } else if status == NotFound {
      GoneRunCleared(first.kv, req, runs2, now2, dispatch2);
      assert kv[key := Entry(track, TrackTtl)] - {key} == kv - {key};
      LiveAfterUpdate(kv, key, [], 0);
      AtMostOneDispatch(kv - {key}, req, runs3, now3, dispatch3);
    }
  }
}
