/**
 * The image-to-video script: read the starter frame into a data URI (or pass
 * an `http` source through), submit the generation task, poll the task until
 * it reaches a terminal state, and download the clip. Every remote answer is
 * an input: the file read, the submit response, the finite sequence of poll
 * responses the server would give, and the download response.
 */
module VideoGen {
  import opened Wrappers
  import opened Text

  const IMAGE_PATH := "starter_frame.jpg"
  const OUT_PATH := "output.mp4"
  const MODEL := "gen4_turbo"
  const RATIO := "1280:720"
  const DURATION := 5

  const SUBMIT_FALLBACK := "Failed to start video generation"
  const STATUS_FALLBACK := "Failed to check task status"
  const NO_OUTPUT := "No output URL returned from successful task"
  const GENERATION_FAILED := "Video generation failed"
  const DOWNLOAD_FAILED := "Failed to download video: "
  const READ_FAILED := "Failed to read image file: "
  const MISSING_KEY := "API key not found. Please set RUNWAYML_API_SECRET or RUNWAY_API_KEY environment variable, or add it to a .env file in the current directory."

  const SUCCEEDED := "SUCCEEDED"
  const FAILED := "FAILED"

  /** A JavaScript value that may be a string, absent, or empty: only a non-empty string is truthy. */
  predicate Truthy(v: Option<string>)
    ensures Truthy(v) ==> v.Some? && |v.value| > 0
  {
    v.Some? && v.value != ""
  }

  /** `v || fallback` */
  function OrElse(v: Option<string>, fallback: string): (r: string)
    ensures Truthy(v) ==> r == v.value
    ensures !Truthy(v) ==> r == fallback
    ensures fallback != "" ==> r != ""
  {
    if Truthy(v) then v.value else fallback
  }

  // ---------------------------------------------------------------------------
  // Image source

  /** The media type of the data URI: `png` for a path ending in `.png` in any letter case, else `jpeg`. */
  function MediaType(path: string): (ext: string)
    ensures ext == "png" || ext == "jpeg"
    ensures ext == "png" <==> EndsWith(ToLower(path), ".png")
  {
    if EndsWith(ToLower(path), ".png") then "png" else "jpeg"
  }

  /** What reading the file gave: the base64 text of its bytes, or the text of the thrown error. */
  datatype ReadResult = Read(base64: string) | ReadFailed(reason: string)

  /** The data URI template `data:image/${ext};base64,${payload}`. */
  function DataUri(ext: string, payload: string): (uri: string)
    ensures StartsWith(uri, "data:image/") && EndsWith(uri, payload)
    ensures OccursAt(uri, ext, 11)
  {
    "data:image/" + ext + ";base64," + payload
  }

  /** `toDataUri`: the file as a data URI, or the read error wrapped in the script's own message. */
  function ToDataUri(path: string, read: ReadResult): (r: Result<string>)
    ensures read.Read? ==> r == Ok(DataUri(MediaType(path), read.base64))
    ensures read.ReadFailed? ==> r.Err? && StartsWith(r.error, READ_FAILED)
  {
    match read
    case Read(base64) => Ok(DataUri(MediaType(path), base64))
    case ReadFailed(reason) => Err(READ_FAILED + reason)
  }

  /** Reads a data URI back into its media type and payload, for the two types the script produces. */
  function ParseDataUri(uri: string): (parsed: Option<(string, string)>)
    ensures parsed.Some? ==> DataUri(parsed.value.0, parsed.value.1) == uri
  {
    var png, jpeg := DataUri("png", ""), DataUri("jpeg", "");
    if StartsWith(uri, png) then
      assert uri == png + uri[|png|..];
      Some(("png", uri[|png|..]))
    else if StartsWith(uri, jpeg) then
      assert uri == jpeg + uri[|jpeg|..];
      Some(("jpeg", uri[|jpeg|..]))
    else None
  }

  /** The data URI keeps both the media type chosen for the path and the whole payload. */
  lemma DataUriRoundTrip(path: string, payload: string)
    ensures ParseDataUri(DataUri(MediaType(path), payload)) == Some((MediaType(path), payload))
  {
    var ext := MediaType(path);
    var uri := DataUri(ext, payload);
    var png, jpeg := DataUri("png", ""), DataUri("jpeg", "");
    assert png == "data:image/png;base64,";
    assert jpeg == "data:image/jpeg;base64,";
    if ext == "png" {
      assert uri == png + payload;
      assert uri[..|png|] == png;
      assert uri[|png|..] == payload;
    } else {
      assert uri == jpeg + payload;
      assert uri[..|jpeg|] == jpeg;
      assert uri[|jpeg|..] == payload;
      assert uri[11] == 'j' && png[11] == 'p';
    }
  }

  /** The letter case of the path does not change the media type. */
  lemma MediaTypeIgnoresCase(path: string)
    ensures MediaType(ToLower(path)) == MediaType(path)
  {
    assert ToLower(ToLower(path)) == ToLower(path);
  }

  /** The script's own starter frame is read from disk and sent as a JPEG. */
  lemma StarterFrameIsJpeg()
    ensures !StartsWith(IMAGE_PATH, "http")
    ensures MediaType(IMAGE_PATH) == "jpeg"
  {
    assert IMAGE_PATH[0] == 's';
    var low := ToLower(IMAGE_PATH);
    assert |low| == 17 && low[14] == LowerChar(IMAGE_PATH[14]) == 'j';
    assert low[|low| - 4..][1] == low[14];
  }

  /**
   * The image reference sent to the generator: a source that starts with
   * `http` is used as it is, without reading anything; anything else is read
   * and converted to a data URI.
   */
  function ImageSource(path: string, read: ReadResult): (r: Result<string>)
    ensures StartsWith(path, "http") ==> r == Ok(path)
    ensures !StartsWith(path, "http") ==> r == ToDataUri(path, read)
  {
    if StartsWith(path, "http") then Ok(path) else ToDataUri(path, read)
  }

  // ---------------------------------------------------------------------------
  // Submitting the task

  /** The JSON body of the generation request; `seed` is the random draw, an input here. */
  datatype GenerationRequest = GenerationRequest(
    promptImage: string, seed: nat, model: string, promptText: string, duration: nat, ratio: string)

  /** `Math.floor(Math.random() * 1000000000)`, given the draw already scaled and floored. */
  function Request(imageData: string, seed: nat, promptText: string): (req: GenerationRequest)
    requires seed < 1000000000
    ensures req.promptImage == imageData && req.seed == seed && req.promptText == promptText
    ensures req.model == MODEL && req.duration == DURATION && req.ratio == RATIO
  {
    GenerationRequest(imageData, seed, MODEL, promptText, DURATION, RATIO)
  }

  /** What the submit endpoint answered: the HTTP ok flag and the parsed body's `message` and `id`. */
  datatype SubmitResponse = SubmitResponse(ok: bool, message: Option<string>, id: string)

  /** `startVideoGeneration`'s check of the response: the task id, or the server's message, or the fixed fallback. */
  function StartVideoGeneration(resp: SubmitResponse): (r: Result<string>)
    ensures r.Ok? <==> resp.ok
    ensures r.Ok? ==> r.value == resp.id
    ensures r.Err? ==> r.error == OrElse(resp.message, SUBMIT_FALLBACK) && r.error != ""
  {
    if !resp.ok then Err(OrElse(resp.message, SUBMIT_FALLBACK)) else Ok(resp.id)
  }

  // ---------------------------------------------------------------------------
  // Polling

  /** One poll's answer: the HTTP ok flag and the parsed body's `message`, `status` and `output` list. */
  datatype PollResponse = PollResponse(ok: bool, message: Option<string>, status: string, output: Option<seq<string>>)

  /** What one response decides: keep polling, or stop with the video URL or an error. */
  datatype Verdict = Pending | Done(result: Result<string>)

  /**
   * One turn of the loop: a failed request is an error whatever its status; a
   * success needs a non-empty output list and yields its first URL; a failure
   * is an error; every other status means wait and ask again.
   */
  function Inspect(r: PollResponse): (v: Verdict)
    ensures !r.ok ==> v == Done(Err(OrElse(r.message, STATUS_FALLBACK)))
    ensures r.ok && r.status == SUCCEEDED ==> v.Done? && (v.result.Ok? <==> r.output.Some? && r.output.value != [])
    ensures v.Done? && v.result.Ok? ==> r.ok && r.status == SUCCEEDED && v.result.value == r.output.value[0]
    ensures r.ok && r.status == SUCCEEDED && v.result.Err? ==> v.result.error == NO_OUTPUT
    ensures r.ok && r.status == FAILED ==> v == Done(Err(GENERATION_FAILED))
    ensures v.Pending? <==> r.ok && r.status != SUCCEEDED && r.status != FAILED
  {
    if !r.ok then Done(Err(OrElse(r.message, STATUS_FALLBACK)))
    else if r.status == SUCCEEDED then
      if r.output.None? || |r.output.value| == 0 then Done(Err(NO_OUTPUT))
      else Done(Ok(r.output.value[0]))
    else if r.status == FAILED then Done(Err(GENERATION_FAILED))
    else Pending
  }

  /** Every one of the first `n` responses keeps the loop waiting. */
  predicate AllPending(rs: seq<PollResponse>, n: nat)
    requires n <= |rs|
  {
    forall j :: 0 <= j < n ==> Inspect(rs[j]).Pending?
  }

  /** The index of the first response that stops the loop, if any. */
  function FirstDecisive(rs: seq<PollResponse>): (k: Option<nat>)
    ensures k.Some? ==> k.value < |rs| && Inspect(rs[k.value]).Done? && AllPending(rs, k.value)
    ensures k.None? <==> AllPending(rs, |rs|)
    decreases |rs|
  {
    if rs == [] then None
    else if Inspect(rs[0]).Done? then Some(0)
    else
      match FirstDecisive(rs[1..])
      case None => None
      case Some(j) => Some(j + 1)
  }

  /** The loop's outcome is settled at the first decisive response: what the server would answer afterwards does not matter. */
  lemma {:induction false} DecidedByPrefix(rs: seq<PollResponse>, later: seq<PollResponse>)
    requires FirstDecisive(rs).Some?
    ensures FirstDecisive(rs + later) == FirstDecisive(rs)
    decreases |rs|
  {
    var all := rs + later;
    assert all[0] == rs[0];
    if Inspect(rs[0]).Pending? {
      assert all[1..] == rs[1..] + later;
      DecidedByPrefix(rs[1..], later);
    }
  }

  /** Pending answers before a decisive one only delay it: the verdict is the decisive answer's. */
  lemma {:induction false} PendingPrefixDelays(waiting: seq<PollResponse>, rs: seq<PollResponse>)
    requires AllPending(waiting, |waiting|)
    requires FirstDecisive(rs).Some?
    ensures FirstDecisive(waiting + rs) == Some(|waiting| + FirstDecisive(rs).value)
    decreases |waiting|
  {
    if waiting != [] {
      var all := waiting + rs;
      assert all[0] == waiting[0] && Inspect(all[0]).Pending?;
      assert all[1..] == waiting[1..] + rs;
      assert AllPending(waiting[1..], |waiting| - 1) by {
        forall j | 0 <= j < |waiting| - 1
          ensures Inspect(waiting[1..][j]).Pending?
        {
          assert waiting[1..][j] == waiting[j + 1];
        }
      }
      PendingPrefixDelays(waiting[1..], rs);
    } else {
      assert waiting + rs == rs;
    }
  }

  /** One entry of `allResponses`: the poll's number, counted from 1, and the response it got. */
  datatype PollRecord = PollRecord(pollCount: nat, response: PollResponse)

  /** The log after `n` polls: one record per poll, in order. */
  function Records(rs: seq<PollResponse>, n: nat): (log: seq<PollRecord>)
    requires n <= |rs|
    ensures |log| == n
    ensures forall j :: 0 <= j < n ==> log[j] == PollRecord(j + 1, rs[j])
  {
    seq(n, j requires 0 <= j < n => PollRecord(j + 1, rs[j]))
  }

  /**
   * `pollForCompletion` over the responses the server would give, in order.
   * The loop stops at the first response that is not ok or is terminal; if
   * every given response is pending, the model's polling stops when they run
   * out (`outcome == None`), where the script would keep waiting.
   */
  method PollForCompletion(responses: seq<PollResponse>) returns (outcome: Option<Result<string>>, pollCount: nat, log: seq<PollRecord>)
    ensures pollCount <= |responses| && log == Records(responses, pollCount)
    ensures FirstDecisive(responses).Some? ==>
      && pollCount == FirstDecisive(responses).value + 1
      && outcome == Some(Inspect(responses[pollCount - 1]).result)
    ensures FirstDecisive(responses).None? ==> pollCount == |responses| && outcome == None
  {
    pollCount := 0;
    log := [];
    while pollCount < |responses|
      invariant pollCount <= |responses|
      invariant log == Records(responses, pollCount)
      invariant AllPending(responses, pollCount)
    {
      pollCount := pollCount + 1;
      var result := responses[pollCount - 1];
      log := log + [PollRecord(pollCount, result)];

      if !result.ok {
        outcome := Some(Err(OrElse(result.message, STATUS_FALLBACK)));
        FirstDecisiveAt(responses, pollCount - 1);
        return;
      }
      if result.status == SUCCEEDED {
        if result.output.None? || |result.output.value| == 0 {
          outcome := Some(Err(NO_OUTPUT));
        } else {
          outcome := Some(Ok(result.output.value[0]));
        }
        FirstDecisiveAt(responses, pollCount - 1);
        return;
      } else if result.status == FAILED {
        outcome := Some(Err(GENERATION_FAILED));
        FirstDecisiveAt(responses, pollCount - 1);
        return;
      }
    }
    outcome := None;
  }

  /** A decisive response after only pending ones is the first decisive response. */
  lemma {:induction false} FirstDecisiveAt(rs: seq<PollResponse>, k: nat)
    requires k < |rs| && AllPending(rs, k) && Inspect(rs[k]).Done?
    ensures FirstDecisive(rs) == Some(k)
    decreases k
  {
    if k > 0 {
      assert Inspect(rs[0]).Pending?;
      var rest := rs[1..];
      assert AllPending(rest, k - 1) by {
        forall j | 0 <= j < k - 1
          ensures Inspect(rest[j]).Pending?
        {
          assert rest[j] == rs[j + 1];
        }
      }
      assert rest[k - 1] == rs[k];
      FirstDecisiveAt(rest, k - 1);
    }
  }

  // ---------------------------------------------------------------------------
  // Download and the whole run

  /** What the download request answered: the HTTP ok flag, its status text and the body's bytes. */
  datatype DownloadResponse = DownloadResponse(ok: bool, statusText: string, body: seq<bv8>)

  /** `downloadVideo`'s check: the bytes to write, or an error that names the status text. */
  function DownloadVideo(resp: DownloadResponse): (r: Result<seq<bv8>>)
    ensures r.Ok? <==> resp.ok
    ensures r.Ok? ==> r.value == resp.body
    ensures r.Err? ==> StartsWith(r.error, DOWNLOAD_FAILED) && EndsWith(r.error, resp.statusText)
  {
    if !resp.ok then Err(DOWNLOAD_FAILED + resp.statusText) else Ok(resp.body)
  }

  /**
   * `process.env.RUNWAYML_API_SECRET || process.env.RUNWAY_API_KEY`, then the
   * check that a key was found: the secret wins whenever it is set and non-empty.
   */
  function SelectApiKey(secret: Option<string>, key: Option<string>): (r: Result<string>)
    ensures Truthy(secret) ==> r == Ok(secret.value)
    ensures !Truthy(secret) && Truthy(key) ==> r == Ok(key.value)
    ensures !Truthy(secret) && !Truthy(key) ==> r == Err(MISSING_KEY)
    ensures r.Ok? ==> r.value != ""
  {
    if Truthy(secret) then Ok(secret.value)
    else if Truthy(key) then Ok(key.value)
    else Err(MISSING_KEY)
  }

  /** How a run of the script ends: the clip saved, an error, or still polling when the given responses ran out. */
  datatype Outcome = Completed(videoUrl: string, video: seq<bv8>) | Failed(message: string) | StillPolling

  /** The run, step by step, each step's error ending it. */
  function Workflow(
    secret: Option<string>, key: Option<string>, imagePath: string, read: ReadResult, seed: nat, promptText: string,
    submit: (GenerationRequest, string) -> SubmitResponse,
    responses: seq<PollResponse>,
    download: string -> DownloadResponse): (o: Outcome)
    requires seed < 1000000000
    // Every error the script can end with has a message.
    ensures o.Failed? ==> o.message != ""
    // The run only waits on when no given answer stops the polling.
    ensures o.StillPolling? ==> AllPending(responses, |responses|)
  {
    match SelectApiKey(secret, key)
    case Err(e) => Failed(e)
    case Ok(apiKey) =>
      match ImageSource(imagePath, read)
      case Err(e) => Failed(e)
      case Ok(imageData) =>
        match StartVideoGeneration(submit(Request(imageData, seed, promptText), apiKey))
        case Err(e) => Failed(e)
        case Ok(_) =>
          match FirstDecisive(responses)
          case None => StillPolling
          case Some(k) =>
            match Inspect(responses[k]).result
            case Err(e) => Failed(e)
            case Ok(videoUrl) =>
              match DownloadVideo(download(videoUrl))
              case Err(e) => Failed(e)
              case Ok(video) => Completed(videoUrl, video)
  }

  /**
   * `main`: select the key, prepare the image, submit, poll, download. The
   * task id only names the polled URL, so the poll answers are given directly.
   */
  method Run(
    secret: Option<string>, key: Option<string>, imagePath: string, read: ReadResult, seed: nat, promptText: string,
    submit: (GenerationRequest, string) -> SubmitResponse,
    responses: seq<PollResponse>,
    download: string -> DownloadResponse) returns (o: Outcome)
    requires seed < 1000000000
    ensures o == Workflow(secret, key, imagePath, read, seed, promptText, submit, responses, download)
  {
    var apiKey := SelectApiKey(secret, key);
    if apiKey.Err? {
      return Failed(apiKey.error);
    }
    var imageData := ImageSource(imagePath, read);
    if imageData.Err? {
      return Failed(imageData.error);
    }
    var taskId := StartVideoGeneration(submit(Request(imageData.value, seed, promptText), apiKey.value));
    if taskId.Err? {
      return Failed(taskId.error);
    }
    var videoUrl, _, _ := PollForCompletion(responses);
    if videoUrl.None? {
      return StillPolling;
    }
    if videoUrl.value.Err? {
      return Failed(videoUrl.value.error);
    }
    var video := DownloadVideo(download(videoUrl.value.value));
    if video.Err? {
      return Failed(video.error);
    }
    return Completed(videoUrl.value.value, video.value);
  }

  /** Without a usable key nothing else happens: the run fails with the missing-key message. */
  lemma MissingKeyFailsFirst(
    key: Option<string>, imagePath: string, read: ReadResult, seed: nat, promptText: string,
    submit: (GenerationRequest, string) -> SubmitResponse,
    responses: seq<PollResponse>,
    download: string -> DownloadResponse)
    requires seed < 1000000000 && !Truthy(key)
    ensures Workflow(None, key, imagePath, read, seed, promptText, submit, responses, download) == Failed(MISSING_KEY)
    ensures Workflow(Some(""), key, imagePath, read, seed, promptText, submit, responses, download) == Failed(MISSING_KEY)
  {
  }

  /**
   * A completed run saved the bytes downloaded from the first URL of the first
   * decisive poll answer, which was an ok `SUCCEEDED` response.
   */
  lemma CompletedRun(
    secret: Option<string>, key: Option<string>, imagePath: string, read: ReadResult, seed: nat, promptText: string,
    submit: (GenerationRequest, string) -> SubmitResponse,
    responses: seq<PollResponse>,
    download: string -> DownloadResponse)
    requires seed < 1000000000
    requires Workflow(secret, key, imagePath, read, seed, promptText, submit, responses, download).Completed?
    ensures var o := Workflow(secret, key, imagePath, read, seed, promptText, submit, responses, download);
      && FirstDecisive(responses).Some?
      && var r := responses[FirstDecisive(responses).value];
      && r.ok && r.status == SUCCEEDED && r.output.Some? && r.output.value != []
      && o.videoUrl == r.output.value[0]
      && download(o.videoUrl).ok && o.video == download(o.videoUrl).body
  {
  }
}
