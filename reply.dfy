/** The reply target: which message the compose box is answering, and the
    short preview of it shown above the compose box. */
module Reply {
  import opened Messages

  /** Message i is the first one whose id is `id`. */
  predicate FirstWithId(messages: seq<Message>, id: string, i: int)
  {
    0 <= i < |messages| && messages[i].id == id && forall j :: 0 <= j < i ==> messages[j].id != id
  }

  /** The first message with the given id, or None. */
  function Find(messages: seq<Message>, id: string): (r: Option<Message>)
    ensures r.None? <==> forall i :: 0 <= i < |messages| ==> messages[i].id != id
    ensures r.Some? ==> r.value.id == id && exists i :: FirstWithId(messages, id, i) && messages[i] == r.value
  {
    if messages == [] then None
    else if messages[0].id == id then Some(messages[0])
    else
      var r := Find(messages[1..], id);
      if r.Some? then
        ghost var i :| FirstWithId(messages[1..], id, i) && messages[1..][i] == r.value;
        assert FirstWithId(messages, id, i + 1);
        r
      else r
  }

  /** How many characters of the target's content the preview keeps. */
  const PreviewLength := 50

  function Min(a: int, b: int): int
  {
    if a < b then a else b
  }

  /** The content cut to its first 50 characters, with "..." added exactly
      when something was cut off. */
  function Truncate(content: string): (r: string)
    ensures |content| <= PreviewLength ==> r == content
    ensures |content| > PreviewLength ==>
      |r| == PreviewLength + 3 && r[..PreviewLength] == content[..PreviewLength] && r[PreviewLength..] == "..."
  {
    content[..Min(PreviewLength, |content|)] + (if |content| > PreviewLength then "..." else "")
  }

  /** The text after "Replying to: " for target id `target`: the first
      matching message's content, cut to 50 characters; empty, and without
      "...", when no message has that id. */
  function ReplyPreview(messages: seq<Message>, target: string): (r: string)
    ensures |r| <= PreviewLength + 3
    ensures (forall i :: 0 <= i < |messages| ==> messages[i].id != target) ==> r == ""
    ensures forall i :: FirstWithId(messages, target, i) ==> r == Truncate(messages[i].content)
  {
    var found := Find(messages, target);
    if found.Some? then Truncate(found.value.content) else ""
  }

  /** The reply area: hidden while there is no target, and also when the
      target id is the empty string, which the page's `replyingTo && ...`
      treats as false; otherwise the preview of the target. */
  function ReplyPanel(messages: seq<Message>, replyingTo: Option<string>): (r: Option<string>)
    ensures r.Some? <==> replyingTo.Some? && replyingTo.value != ""
    ensures r.Some? ==> r.value == ReplyPreview(messages, replyingTo.value)
  {
    if Truthy(replyingTo) then Some(ReplyPreview(messages, replyingTo.value)) else None
  }

  /** The component's `replyingTo` state. */
  class ReplyState {
    var replyingTo: Option<string>

    constructor ()
      ensures replyingTo == None
    {
      replyingTo := None;
    }

    /** The reply button: sets the target from any prior state. The page
        also looks the message up but does nothing with it. */
    method HandleReply(messages: seq<Message>, messageId: string)
      modifies this
      ensures replyingTo == Some(messageId)
    {
      replyingTo := Some(messageId);
      var message := Find(messages, messageId);
      if message.Some? {
      }
    }

    /** The Cancel button: back to no target. */
    method Cancel()
      modifies this
      ensures replyingTo == None
    {
      replyingTo := None;
    }

    /** What the reply area currently shows. */
    function Panel(messages: seq<Message>): Option<string>
      reads this
    {
      ReplyPanel(messages, replyingTo)
    }
  }

  /** Replying to message "3" of the seeded list previews it in full;
      cancelling hides the reply area again. */
  method ReplyThenCancel() returns (shown: Option<string>, hidden: Option<string>)
    ensures shown == Some("I am a claim")
    ensures hidden == None
  {
    var state := new ReplyState();
    state.HandleReply(SeededMessages, "3");
    shown := state.Panel(SeededMessages);
    state.Cancel();
    hidden := state.Panel(SeededMessages);
  }
}
