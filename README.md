# ComfyUI job handler for RunPod: a verified model of its execution-tracking protocol

`handler.py` is a serverless job handler. It takes a job holding an image-generation
workflow and optional base64 input images. It writes the input images to `/input`,
waits until the local ComfyUI server answers, opens a websocket scoped by the process's
client id, and submits the workflow to `POST /prompt` with that client id. It then waits
on the websocket for the completion signal of the returned prompt id. Once the signal
arrives it reads `GET /history/{prompt_id}`, fetches every output image through
`GET /view`, and returns `{"images": [{"name", "data"}, ...]}`. When there is nothing
to return, it returns `{"error": "No images generated"}` instead.

This project models that protocol in Dafny. It does not model the I/O around it. Each
external interaction is a value of the `Handler.Environment` datatype:

- the base64 decoder and encoder;
- the outcome of each liveness probe;
- the reply to the submission;
- the messages the websocket delivers, in order;
- the history reply;
- the image fetcher.

Modules, one per file:

- `Wrappers` (`wrappers.dfy`): `Option` and `Result`.
- `Protocol` (`protocol.dfy`): bytes, parsed JSON values, image references, and
  `Failure`, the ways a job ends in an exception.
- `Listener` (`listener.dfy`): the receive loop of `wait_for_execution`.
- `Readiness` (`readiness.dfy`): the 120-probe for/else loop.
- `Client` (`client.dfy`): the body and reply of `queue_prompt`, and the lookup done by
  `get_history`.
- `Outputs` (`outputs.dfy`): the output-collection loop and the final result selection.
- `InputImages` (`input_images.dfy`): the save loop. The `/input` directory is a class
  whose `files` map is updated in place.
- `Handler` (`handler.dfy`): the whole handler. `Run` is the reference definition,
  `Handle` is the method that composes the loops, and the lemmas state end-to-end
  properties.

The loops of the source are methods with loop invariants. Each method is proved equal to
a recursive reference function (`FirstCompletion`, `ProbeFrom`, `Collect`, `Written`).
Lemmas state the properties of those functions.

## Model

| member | source | states |
|---|---|---|
| `Listener.WaitForExecution` | handler.py:47-54 | returns at an index holding a text "executing" message with null node and the tracked prompt id, with no such message before it; it runs out of messages exactly when no message qualifies; it agrees with `FirstCompletion` |
| `Listener.FirstCompletionIsFirst` | handler.py:48-54 | the reference definition stops at the first completion signal, never earlier, and is exhausted exactly when the stream holds no signal |
| `Listener.SkipsNonCompletion` | handler.py:50-53 | a binary frame, another message type, an "executing" event naming a node, or one for another prompt id is passed over: the wait continues one message later |
| `Listener.CompletionIgnoresLaterMessages` | handler.py:53-54 | once the signal has been received, messages after it do not change where the listener returned |
| `Listener.NoSignalKeepsWaiting` | handler.py:48-54 | while no signal has arrived the listener has not returned, and only later messages decide where it stops; without a signal it never stops |
| `Listener.InsertedNonSignal` | handler.py:48-54 | inserting a non-signal message at position k keeps the stopping point when the signal came before k, moves it one later when it came at or after k, and keeps a stream without signal without one |
| `Readiness.ProbeFromStopsAtFirstSuccess` | handler.py:95-102 | the loop is ready exactly when some attempt within the budget answers; it stops at the first answering attempt; it gives up only after all 120 attempts |
| `Readiness.AwaitReadiness` | handler.py:95-102 | makes between 1 and 120 attempts; on Ready the last attempt answered and all earlier ones failed; NotResponding holds exactly when all 120 failed; it sleeps once after every failed attempt |
| `Outputs.ReferencesAppend` | handler.py:121-124 | flattening the outputs of two runs of nodes is the concatenation of flattening each |
| `Outputs.ReferencesCount` | handler.py:121-124 | the number of image references equals the sum, over nodes that have an "images" key, of their list lengths |
| `Outputs.NodeWithoutImagesAddsNothing` | handler.py:122-123 | a node without an "images" key contributes no reference, wherever it stands |
| `Outputs.ReferencesOrder` | handler.py:121-124 | image k of node n sits right after the images of the earlier nodes and node n's first k images (node order, then image order) |
| `Outputs.CollectSpec` | handler.py:124-133 | collection succeeds exactly when every fetch does; it then yields one entry per reference, in order, named by the filename and holding the encoding of that reference's fetched bytes; otherwise it fails on the first failing reference |
| `Outputs.CollectAppend` | handler.py:121-133 | collecting two runs of references is collecting the first then the second: the first's failure wins, then the second's, else the entries are concatenated |
| `Outputs.CollectNode` | handler.py:124-133 | the inner loop over one node's images equals `Collect` over them; it issues one fetch per image on success, and stops right after the first failing fetch |
| `Outputs.CollectFirstFailure` | handler.py:125-129 | a fetch that fails after successful ones aborts collection with that image |
| `Outputs.CollectImages` | handler.py:119-133 | the nested loop equals `Collect` over the flattened references; on success it issues exactly M fetches and returns M entries, M being the image count; on failure its last fetch is the first failing reference |
| `Outputs.SelectResult` | handler.py:135-140 | the result is the "No images generated" error exactly when the collection is empty, and otherwise it carries the whole collection |
| `InputImages.DecodedPrefix` | handler.py:86-88 | the number of images written before a decode failure: every payload before it decodes, and the one at it does not |
| `InputImages.DecodedPrefixIsFirstFailure` | handler.py:86-88 | any position with only decodable payloads before it and a failure (or the end) at it is that number |
| `InputImages.WrittenKeys` | handler.py:86-91 | after the loop the directory's names are the old names plus the supplied ones |
| `InputImages.LastWriteWins` | handler.py:86-91 | a supplied name holds the decoded payload of the last image with that name |
| `InputImages.OtherNamesUnchanged` | handler.py:86-91 | names that were not supplied keep their old contents or stay absent |
| `InputImages.InputDirectory.constructor` | handler.py:18-19 | the directory starts with the given contents |
| `InputImages.InputDirectory.SaveAll` | handler.py:86-92 | the directory becomes `Written` over the images up to the first undecodable one; it fails exactly when one does not decode, naming that image |
| `Client.PromptPayload` | handler.py:37-40 | the body has exactly the keys "prompt" and "client_id"; reading them back gives the unmodified workflow and the client id |
| `Client.QueuePrompt` | handler.py:35-44 | yields the prompt id exactly when the post succeeds and the reply has a string "prompt_id", which is then the result; every other case is SubmissionFailed |
| `Client.HistoryOutputs` | handler.py:57-60 | yields the outputs of the entry for the prompt id (the `get_history` lookup here, and `history["outputs"]` at handler.py:121); a failed request, a missing entry and a missing "outputs" key are three distinct failures |
| `Handler.Handle` | handler.py:75-140 | the handler's outcome equals `Run` stage by stage; a workflow without a length leaves the directory untouched, otherwise it holds the images written before any failure |
| `Handler.UnsizedWorkflowFailsFirst` | handler.py:78-82 | the job fails at the workflow-size log line exactly when the workflow is null, a boolean or a number, before any other stage |
| `Handler.NotRespondingOnlyAfterFullBudget` | handler.py:82-102 | the job fails with "ComfyUI not responding" exactly when the workflow has a length, all input images were saved and all 120 probes failed |
| `Handler.ForeignMessageIgnored` | handler.py:110-113 | a message that is not the completion signal for the submitted prompt id, inserted at any position of the stream, leaves the job's outcome unchanged |
| `Handler.CompletedJobResult` | handler.py:116-140 | once the job completes and all fetches succeed, the result has one correctly named and encoded entry per referenced image, in order; it is the "No images generated" report exactly when the record references no image |
| `Handler.SingleImageScenario` | handler.py:116-140 | a record with one node and one image "out.png" (subfolder "", type "output") yields exactly `{"images": [{"name": "out.png", "data": encode(bytes)}]}` |

The readiness loop sleeps one second after every failed attempt, the last one included,
before it raises. So a failed readiness phase takes 120 sleeps, and
`Readiness.AwaitReadiness` counts them that way.

## Left out

- The CUDA check and the `torch` import (handler.py:23-31): an environment precondition in a foreign library.
- `runpod.serverless.start` and logging output: framework plumbing. One log line does affect the result: it takes `len(workflow)`, which raises for a null, boolean or number workflow; that failure is modelled (`Handler.UnsizedWorkflowFailsFirst`).
- The HTTP client. The liveness request, `POST /prompt`, `GET /history` and `GET /view` are the `probe`, `post`, `history` and `fetch` fields of `Handler.Environment`. A raised exception is `None`.
- Websocket connect and close. The socket is the sequence of messages it delivers. The model does not capture that the socket is opened before submission, only which messages arrive. A failing `ws.connect` (handler.py:107) aborts the source before anything is posted. The model has no such stage: it posts anyway and then ends in `SubmissionFailed`, `ChannelClosed` or a later stage.
- `json.loads`/`json.dumps`: messages, replies and history records are already-parsed values. The listener's `Text` message always carries a type, a node and a prompt id, so it cannot represent the text frames on which the source raises (handler.py:51-53): a frame that is not JSON; JSON that is not an object; an object without "type"; an "executing" event without "data", or whose "data" is not an object or has no "node"; and an "executing" event whose node is null and that has no "prompt_id". An "executing" event with a non-null node and no "prompt_id" does not raise (the `and` stops before the lookup); the model skips it like any event naming a node.
- Listener.WaitForExecution: over a finite stream without a signal, the model reports `Exhausted`, which `Run` turns into `ChannelClosed`. That is what `recv` raises once the connection ends. A connection that stays open without a signal blocks forever; the model states this only as `Listener.NoSignalKeepsWaiting`.
- Base64: `decode` and `encode` are opaque parameters. The round trip from an input image to an output image depends on the workflow and the server, so it is not stated.
- `time.sleep` and the 2-second probe timeout: only the number of attempts and sleeps is modelled.
- `CLIENT_ID` from `uuid.uuid4`: a fixed `clientId` parameter.
- File writes and `os.path.join`: the directory is a map from the given name to bytes. An absolute name or one containing a separator, which `os.path.join` would send elsewhere, is not distinguished, and a failing `open` is not modelled.
- Client.QueuePrompt: a reply whose "prompt_id" is present but is not a string is SubmissionFailed here. The source would carry on with that value.
- Missing keys raise KeyError in the source, and the model's types rule them out. These are:
  - `input` and `workflow` in the job;
  - `name` and `image` in an input-image entry. This failure comes at handler.py:87-88, after the earlier images were written; in the model only an undecodable payload stops the save loop;
  - `filename`, `subfolder` and `type` in an image descriptor.
- Malformed "images" values are ruled out by the model's types too.
  - The job's "images" (handler.py:83-86): null, a boolean or a number make `len` raise. A non-empty string or dictionary passes `len`, but its first element is a string and indexing it raises. An empty string or dictionary behaves like an empty list.
  - A node's "images" (handler.py:124): the same, except that null, a boolean or a number raise when iterated.
- That the returned prompt id is non-empty is not checked by the source, and not modelled.
