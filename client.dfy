/**
 * The request/response logic of `queue_prompt` and `get_history`. The HTTP
 * exchanges themselves are parameters: `post` maps a request body to the
 * parsed reply (None when the request or the parse raises), and a history
 * reply is given already parsed.
 */
module Client {
  import opened Wrappers
  import opened Protocol
  import opened Outputs

  /** The body of POST /prompt: the workflow untouched and the client id. */
  function PromptPayload(workflow: Json, clientId: string): (p: Json)
    ensures p.JObject? && p.fields.Keys == {"prompt", "client_id"}
    ensures Field(p, "prompt") == Some(workflow)
    ensures Field(p, "client_id") == Some(JString(clientId))
  {
    JObject(map["prompt" := workflow, "client_id" := JString(clientId)])
  }

  /**
   * `queue_prompt`: post the payload and return `res["prompt_id"]`. Fails
   * when the request fails or the reply has no string `prompt_id`.
   */
  function QueuePrompt(workflow: Json, clientId: string, post: Json -> Option<Json>): (r: Result<string, Failure>)
    ensures r.Ok? <==>
      && post(PromptPayload(workflow, clientId)).Some?
      && Field(post(PromptPayload(workflow, clientId)).value, "prompt_id").Some?
      && Field(post(PromptPayload(workflow, clientId)).value, "prompt_id").value.JString?
    ensures r.Ok? ==> Field(post(PromptPayload(workflow, clientId)).value, "prompt_id") == Some(JString(r.value))
    ensures r.Err? ==> r.error == SubmissionFailed
  {
    match post(PromptPayload(workflow, clientId))
    case None => Err(SubmissionFailed)
    case Some(res) =>
      match Field(res, "prompt_id")
      case Some(JString(id)) => Ok(id)
      case _ => Err(SubmissionFailed)
  }

  /** One entry of the history reply; `outputs` is None without an "outputs" key. */
  datatype HistoryEntry = HistoryEntry(outputs: Option<seq<NodeOutput>>)

  /**
   * `get_history(prompt_id)["outputs"]`: the reply (None when the request
   * raises) is keyed by prompt id; the entry for ours must exist and have outputs.
   */
  function HistoryOutputs(reply: Option<map<string, HistoryEntry>>, promptId: string): (r: Result<seq<NodeOutput>, Failure>)
    ensures r.Ok? <==> reply.Some? && promptId in reply.value && reply.value[promptId].outputs.Some?
    ensures r.Ok? ==> r.value == reply.value[promptId].outputs.value
    ensures reply.None? ==> r == Err(HistoryUnavailable)
    ensures reply.Some? && promptId !in reply.value ==> r == Err(HistoryNotFound)
    ensures reply.Some? && promptId in reply.value && reply.value[promptId].outputs.None? ==> r == Err(MalformedHistory)
  {
    match reply
    case None => Err(HistoryUnavailable)
    case Some(records) =>
      if promptId !in records then Err(HistoryNotFound)
      else match records[promptId].outputs
        case None => Err(MalformedHistory)
        case Some(outputs) => Ok(outputs)
  }
}
