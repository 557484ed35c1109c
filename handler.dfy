/**
 * The job handler: persist the input images, wait for the service, open the
 * websocket, submit the workflow, wait for its completion signal, read its
 * history and collect every output image. Everything outside the process is
 * an `Environment` value.
 */
module Handler {
  import opened Wrappers
  import opened Protocol
  import opened Listener
  import opened Readiness
  import opened Client
  import opened Outputs
  import opened InputImages

  /** `job["input"]`: the opaque workflow and the optional list of input images. */
  datatype JobInput = JobInput(workflow: Json, images: Option<seq<InputImage>>)

  /** What the world answers, fixed for one job. */
  datatype Environment = Environment(
    decode: string -> Option<Bytes>,                       // base64 decoding; None where it raises
    probe: nat -> bool,                                    // whether liveness attempt i answers
    post: Json -> Option<Json>,                            // POST /prompt, parsed reply
    messages: seq<Message>,                                // what the websocket delivers, in order
    history: string -> Option<map<string, HistoryEntry>>,  // GET /history/{id}, parsed reply
    fetch: ImageRef -> Option<Bytes>,                      // GET /view, raw bytes
    encode: Bytes -> string)                               // base64 encoding

  /** `job_input.get("images", [])`. */
  function InputList(job: JobInput): seq<InputImage> {
    job.images.GetOr([])
  }

  /** Reference definition of the handler's outcome, stage by stage. */
  function Run(job: JobInput, env: Environment, clientId: string): Result<JobResult, Failure>
  {
    var images := InputList(job);
    var saved := DecodedPrefix(images, env.decode);
    if !HasLength(job.workflow) then Err(UnsizedWorkflow)
    else if saved < |images| then Err(UndecodableImage(images[saved].name))
    else if ProbeFrom(env.probe, 0).status == NotResponding then Err(ServiceUnavailable(NotRespondingMessage))
    else match QueuePrompt(job.workflow, clientId, env.post)
      case Err(e) => Err(e)
      case Ok(promptId) =>
        if FirstCompletion(env.messages, promptId).Exhausted? then Err(ChannelClosed)
        else match HistoryOutputs(env.history(promptId), promptId)
          case Err(e) => Err(e)
          case Ok(outputs) =>
            match Collect(References(outputs), env.fetch, env.encode)
            case Err(ref) => Err(FetchFailed(ref))
            case Ok(outputImages) => Ok(SelectResult(outputImages))
  }

  /**
   * `handler(job)`, with the input directory as a store it writes to. A
   * workflow without a length fails at the log line before anything is
   * written; otherwise the images saved before a failure stay saved.
   */
  method Handle(job: JobInput, env: Environment, clientId: string, dir: InputDirectory)
    returns (r: Result<JobResult, Failure>)
    modifies dir
    ensures !HasLength(job.workflow) ==> dir.files == old(dir.files)
    ensures var images := InputList(job);
      HasLength(job.workflow) ==>
        dir.files == Written(old(dir.files), images[..DecodedPrefix(images, env.decode)], env.decode)
    ensures r == Run(job, env, clientId)
  {
    var images := InputList(job);
    // the log line that reports the workflow's size takes its `len`
    if !HasLength(job.workflow) {
      return Err(UnsizedWorkflow);
    }
    var saved := dir.SaveAll(images, env.decode);
    if saved.Err? {
      return Err(UndecodableImage(saved.error));
    }

    var status, _, _ := AwaitReadiness(env.probe);
    if status == NotResponding {
      return Err(ServiceUnavailable(NotRespondingMessage));
    }

    var queued := QueuePrompt(job.workflow, clientId, env.post);
    if queued.Err? {
      return Err(queued.error);
    }
    var promptId := queued.value;

    var wait := WaitForExecution(env.messages, promptId);
    if wait.Exhausted? {
      return Err(ChannelClosed);
    }

    var history := HistoryOutputs(env.history(promptId), promptId);
    if history.Err? {
      return Err(history.error);
    }

    var collected, _ := CollectImages(history.value, env.fetch, env.encode);
    if collected.Err? {
      return Err(FetchFailed(collected.error));
    }
    r := Ok(SelectResult(collected.value));
  }

  /** A workflow that `len` rejects fails the job first, before any image is saved or any probe sent. */
  lemma UnsizedWorkflowFailsFirst(job: JobInput, env: Environment, clientId: string)
    ensures Run(job, env, clientId) == Err(UnsizedWorkflow) <==> !HasLength(job.workflow)
  {
  }

  /**
   * The handler gives up with "ComfyUI not responding" exactly when the
   * workflow has a length, the input images were all saved and every one of
   * the 120 probes failed.
   */
  lemma NotRespondingOnlyAfterFullBudget(job: JobInput, env: Environment, clientId: string)
    ensures Run(job, env, clientId) == Err(ServiceUnavailable(NotRespondingMessage)) <==>
      && HasLength(job.workflow)
      && AllDecodable(InputList(job), env.decode)
      && forall j :: 0 <= j < MaxProbes ==> !env.probe(j)
  {
    var images := InputList(job);
    ProbeFromStopsAtFirstSuccess(env.probe, 0);
    if AllDecodable(images, env.decode) {
      assert images[..|images|] == images;
      DecodedPrefixIsFirstFailure(images, env.decode, |images|);
    }
  }

  /**
   * A message that is not our completion signal, inserted anywhere in the
   * stream, does not change the outcome: the listener filters by shape and
   * by prompt id.
   */
  lemma ForeignMessageIgnored(job: JobInput, env: Environment, clientId: string, m: Message, k: nat)
    requires QueuePrompt(job.workflow, clientId, env.post).Ok?
    requires !IsCompletion(m, QueuePrompt(job.workflow, clientId, env.post).value)
    requires k <= |env.messages|
    ensures Run(job, env.(messages := env.messages[..k] + [m] + env.messages[k..]), clientId) == Run(job, env, clientId)
  {
    var promptId := QueuePrompt(job.workflow, clientId, env.post).value;
    InsertedNonSignal(env.messages, k, m, promptId);
  }

  /**
   * Once the job has completed and every fetch succeeds, the result lists
   * one entry per referenced image, in order, and it is the "No images
   * generated" report exactly when the record references no image.
   */
  lemma CompletedJobResult(job: JobInput, env: Environment, clientId: string, promptId: string, outputs: seq<NodeOutput>)
    requires HasLength(job.workflow)
    requires AllDecodable(InputList(job), env.decode)
    requires exists j :: 0 <= j < MaxProbes && env.probe(j)
    requires QueuePrompt(job.workflow, clientId, env.post) == Ok(promptId)
    requires exists i :: 0 <= i < |env.messages| && IsCompletion(env.messages[i], promptId)
    requires HistoryOutputs(env.history(promptId), promptId) == Ok(outputs)
    requires forall k :: 0 <= k < |References(outputs)| ==> env.fetch(References(outputs)[k]).Some?
    ensures Run(job, env, clientId).Ok?
    ensures Run(job, env, clientId).value == ErrorReport(NoImagesMessage) <==> ImageCount(outputs) == 0
    ensures Run(job, env, clientId).value.Images? ==>
      var refs := References(outputs);
      var xs := Run(job, env, clientId).value.images;
      |xs| == |refs| == ImageCount(outputs) &&
      forall k :: 0 <= k < |refs| ==>
        xs[k] == OutputImage(refs[k].filename, env.encode(env.fetch(refs[k]).value))
  {
    var images := InputList(job);
    assert images[..|images|] == images;
    DecodedPrefixIsFirstFailure(images, env.decode, |images|);
    ProbeFromStopsAtFirstSuccess(env.probe, 0);
    FirstCompletionIsFirst(env.messages, promptId);
    CollectSpec(References(outputs), env.fetch, env.encode);
    ReferencesCount(outputs);
  }

  /**
   * A single-node workflow producing "out.png" in subfolder "" of type
   * "output" returns exactly that image, named "out.png".
   */
  lemma SingleImageScenario(job: JobInput, env: Environment, clientId: string, promptId: string, raw: Bytes)
    requires job.images.None? && HasLength(job.workflow)
    requires env.probe(0)
    requires QueuePrompt(job.workflow, clientId, env.post) == Ok(promptId)
    requires env.messages == [Text(Executing, None, promptId)]
    requires env.history(promptId) ==
      Some(map[promptId := HistoryEntry(Some([NodeOutput(Some([ImageRef("out.png", "", "output")]))]))])
    requires env.fetch(ImageRef("out.png", "", "output")) == Some(raw)
    ensures Run(job, env, clientId) == Ok(Images([OutputImage("out.png", env.encode(raw))]))
  {
    var outputs := [NodeOutput(Some([ImageRef("out.png", "", "output")]))];
    assert References(outputs) == [ImageRef("out.png", "", "output")] + References([]);
    assert IsCompletion(env.messages[0], promptId);
    assert 0 < MaxProbes && env.probe(0);
    CompletedJobResult(job, env, clientId, promptId, outputs);
    var xs := Run(job, env, clientId).value.images;
    assert |xs| == 1 && xs[0] == OutputImage("out.png", env.encode(raw));
    assert xs == [OutputImage("out.png", env.encode(raw))];
  }
}
