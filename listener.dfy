/**
 * The completion listener: the receive loop of `wait_for_execution`.
 * The websocket is the sequence of messages it delivers, in order; running
 * past the end of that sequence is a `recv` that never yields the signal
 * (it blocks, or raises once the connection closes).
 */
module Listener {
  import opened Wrappers
  import opened Protocol

  /** Message type of the progress events the listener inspects. */
  const Executing: string := "executing"

  /**
   * A websocket frame. A text frame is the parsed envelope
   * `{"type": typ, "data": {"node": node, "prompt_id": promptId}}`;
   * `node == None` is JSON `null`.
   */
  datatype Message =
    | Binary(payload: Bytes)
    | Text(typ: string, node: Option<string>, promptId: string)

  /** The terminal signal for `promptId`: no node left to execute for that prompt. */
  predicate IsCompletion(m: Message, promptId: string) {
    m.Text? && m.typ == Executing && m.node.None? && m.promptId == promptId
  }

  /** How a wait over a finite stream ends. */
  datatype Wait = Completed(at: nat) | Exhausted

  function Shift(w: Wait, n: nat): Wait {
    match w
    case Completed(i) => Completed(i + n)
    case Exhausted => Exhausted
  }

  /** Reference definition: the position of the first completion signal, message by message. */
  function FirstCompletion(ws: seq<Message>, promptId: string): Wait
  {
    if ws == [] then Exhausted
    else if IsCompletion(ws[0], promptId) then Completed(0)
    else Shift(FirstCompletion(ws[1..], promptId), 1)
  }

  /** The reference definition stops exactly at the first signal, and is exhausted exactly when there is none. */
  lemma {:induction false} FirstCompletionIsFirst(ws: seq<Message>, promptId: string)
    ensures FirstCompletion(ws, promptId).Completed? ==>
      var i := FirstCompletion(ws, promptId).at;
      i < |ws| && IsCompletion(ws[i], promptId) &&
      forall j :: 0 <= j < i ==> !IsCompletion(ws[j], promptId)
    ensures FirstCompletion(ws, promptId).Exhausted? <==>
      forall j :: 0 <= j < |ws| ==> !IsCompletion(ws[j], promptId)
  {
    if ws != [] && !IsCompletion(ws[0], promptId) {
      FirstCompletionIsFirst(ws[1..], promptId);
      forall j | 1 <= j < |ws|
        ensures ws[j] == ws[1..][j - 1]
      {}
    }
  }

  /**
   * `wait_for_execution`: receive until the first text message of type
   * "executing" whose node is null and whose prompt id is the tracked one.
   */
  method WaitForExecution(ws: seq<Message>, promptId: string) returns (w: Wait)
    ensures w.Completed? ==>
      w.at < |ws| && IsCompletion(ws[w.at], promptId) &&
      forall j :: 0 <= j < w.at ==> !IsCompletion(ws[j], promptId)
    ensures w.Exhausted? <==> forall j :: 0 <= j < |ws| ==> !IsCompletion(ws[j], promptId)
    ensures w == FirstCompletion(ws, promptId)
  {
    var i := 0;
    while i < |ws|
      invariant i <= |ws|
      invariant forall j :: 0 <= j < i ==> !IsCompletion(ws[j], promptId)
    {
      var msg := ws[i];
      if msg.Text? {
        if msg.typ == Executing {
          if msg.node.None? && msg.promptId == promptId {
            w := Completed(i);
            FirstCompletionIsFirst(ws, promptId);
            return;
          }
        }
      }
      i := i + 1;
    }
    w := Exhausted;
    FirstCompletionIsFirst(ws, promptId);
  }

  /**
   * A binary frame, another message type, an "executing" event that still
   * names a node, or one for another prompt is skipped: the wait goes on with
   * the next message.
   */
  lemma SkipsNonCompletion(m: Message, ws: seq<Message>, promptId: string)
    requires m.Binary? || m.typ != Executing || m.node.Some? || m.promptId != promptId
    ensures FirstCompletion([m] + ws, promptId) == Shift(FirstCompletion(ws, promptId), 1)
  {
  }

  /** Once the signal has arrived, later messages change nothing. */
  lemma {:induction false} CompletionIgnoresLaterMessages(ws: seq<Message>, more: seq<Message>, promptId: string)
    requires FirstCompletion(ws, promptId).Completed?
    ensures FirstCompletion(ws + more, promptId) == FirstCompletion(ws, promptId)
  {
    if !IsCompletion(ws[0], promptId) {
      assert (ws + more)[1..] == ws[1..] + more;
      CompletionIgnoresLaterMessages(ws[1..], more, promptId);
    }
  }

  /**
   * Without a signal so far the listener has not returned: it is still
   * waiting, and where it stops is decided by the messages yet to come.
   * With no signal ever, it never stops (there is no timeout).
   */
  lemma {:induction false} NoSignalKeepsWaiting(ws: seq<Message>, more: seq<Message>, promptId: string)
    requires FirstCompletion(ws, promptId).Exhausted?
    ensures FirstCompletion(ws + more, promptId) == Shift(FirstCompletion(more, promptId), |ws|)
  {
    if ws == [] {
      assert ws + more == more;
      match FirstCompletion(more, promptId)
      case Completed(_) =>
      case Exhausted =>
    } else {
      assert (ws + more)[1..] == ws[1..] + more;
      NoSignalKeepsWaiting(ws[1..], more, promptId);
      match FirstCompletion(more, promptId)
      case Completed(_) =>
      case Exhausted =>
    }
  }

  /**
   * A non-signal message inserted at position `k` leaves the wait where it
   * was when the signal came earlier, moves it one message later when the
   * signal came at or after `k`, and leaves a stream without signal without one.
   */
  lemma InsertedNonSignal(ws: seq<Message>, k: nat, m: Message, promptId: string)
    requires k <= |ws| && !IsCompletion(m, promptId)
    ensures FirstCompletion(ws[..k] + [m] + ws[k..], promptId) ==
      match FirstCompletion(ws, promptId)
      case Completed(i) => if i < k then Completed(i) else Completed(i + 1)
      case Exhausted => Exhausted
  {
    var pre, post := ws[..k], ws[k..];
    assert ws == pre + post;
    assert pre + [m] + post == pre + ([m] + post);
    SkipsNonCompletion(m, post, promptId);
    match FirstCompletion(pre, promptId)
    case Completed(i) =>
      CompletionIgnoresLaterMessages(pre, post, promptId);
      CompletionIgnoresLaterMessages(pre, [m] + post, promptId);
      FirstCompletionIsFirst(pre, promptId);
    case Exhausted =>
      NoSignalKeepsWaiting(pre, post, promptId);
      NoSignalKeepsWaiting(pre, [m] + post, promptId);
  }
}
