/** `ChatMessageBuilder` (app/chat_utils.py): the chat-completion message list
    sent to the language model, and the merge of an uploaded image into the
    last user turn. Python's in-place list updates are modelled as functions
    returning the new list. */
module ChatMessages {
  import opened Maybe

  /** The `image_url` object of an image part, `{"url": ...}`. */
  datatype ImageUrl = ImageUrl(url: string)

  /** One part of a multimodal content list:
      `{"type": "text", "text": ...}` or `{"type": "image_url", "image_url": ...}`. */
  datatype Part = TextPart(text: string) | ImagePart(imageUrl: ImageUrl)

  /** A message's `content`: a string, a list of parts, or something else
      (which the image merge leaves alone). */
  datatype Content = Text(text: string) | Parts(parts: seq<Part>) | OtherContent

  /** `{"role": ..., "content": ...}`. */
  datatype Message = Message(role: string, content: Content)

  /** A stored chat row with `role` and `message` attributes. */
  datatype ChatTurn = ChatTurn(role: string, message: string)

  /** Python truthiness of an optional string: present and non-empty. */
  predicate PyTruthy(o: Option<string>) {
    o.Some? && |o.value| > 0
  }

  /** `f"{x}"` of an optional string: `None` renders as `"None"`. */
  function Render(o: Option<string>): string {
    match o
    case Some(s) => s
    case None => "None"
  }

  /** The data URL of an uploaded image: `data:<type>;base64,<payload>`. */
  function DataUrl(contentType: Option<string>, b64: string): string {
    "data:" + Render(contentType) + ";base64," + b64
  }

  /** The image part `append_image_to_last_user` adds. */
  function UploadedImage(contentType: Option<string>, b64: string): Part {
    ImagePart(ImageUrl(DataUrl(contentType, b64)))
  }

  /** The prefix `"Relevant context:\n"` of the retrieved-context entry. */
  const ContextHeader: string := "Relevant context:\n"

  /** The trailing user entry for `user_message`: plain text, or text and image
      parts when an image is given. */
  function UserEntry(userMessage: string, image: Option<ImageUrl>): Message {
    match image
    case None => Message("user", Text(userMessage))
    case Some(img) => Message("user", Parts([TextPart(userMessage), ImagePart(img)]))
  }

  /** Entries copied from the stored history, in order. */
  function HistoryEntries(history: seq<ChatTurn>): (r: seq<Message>)
    ensures |r| == |history|
    ensures forall k :: 0 <= k < |history| ==> r[k] == Message(history[k].role, Text(history[k].message))
  {
    seq(|history|, k requires 0 <= k < |history| => Message(history[k].role, Text(history[k].message)))
  }

  /** The system entries that open a conversation: the system prompt, then
      the retrieved context, each only when given and non-empty. */
  function Preamble(systemPrompt: Option<string>, semanticContext: Option<string>): (r: seq<Message>)
    ensures |r| == (if PyTruthy(systemPrompt) then 1 else 0) + (if PyTruthy(semanticContext) then 1 else 0)
    ensures PyTruthy(systemPrompt) ==> r[0] == Message("system", Text(systemPrompt.value))
    ensures PyTruthy(semanticContext) ==> r[|r| - 1] == Message("system", Text(ContextHeader + semanticContext.value))
  {
    (if PyTruthy(systemPrompt) then [Message("system", Text(systemPrompt.value))] else [])
    + (if PyTruthy(semanticContext) then [Message("system", Text(ContextHeader + semanticContext.value))] else [])
  }

  /** `build_messages(history, user_message, system_prompt, semantic_context, image)`
      (app/chat_utils.py:22-42): an optional system prompt, an optional
      retrieved-context entry, the history, and an optional user turn. */
  function BuildMessages(history: seq<ChatTurn>, userMessage: Option<string>, systemPrompt: Option<string>,
                         semanticContext: Option<string>, image: Option<ImageUrl>): (r: seq<Message>)
    ensures |r| == (if PyTruthy(systemPrompt) then 1 else 0) + (if PyTruthy(semanticContext) then 1 else 0)
                   + |history| + (if userMessage.Some? then 1 else 0)
    ensures PyTruthy(systemPrompt) ==> r[0] == Message("system", Text(systemPrompt.value))
    ensures PyTruthy(semanticContext) ==>
      r[if PyTruthy(systemPrompt) then 1 else 0] == Message("system", Text(ContextHeader + semanticContext.value))
    ensures var offset := (if PyTruthy(systemPrompt) then 1 else 0) + (if PyTruthy(semanticContext) then 1 else 0);
      r[offset .. offset + |history|] == HistoryEntries(history)
    ensures userMessage.Some? && image.None? ==> r[|r| - 1] == Message("user", Text(userMessage.value))
    ensures userMessage.Some? && image.Some? ==>
      r[|r| - 1] == Message("user", Parts([TextPart(userMessage.value), ImagePart(image.value)]))
  {
    var pre := Preamble(systemPrompt, semanticContext);
    var front := pre + HistoryEntries(history);
    assert front[|pre|..] == HistoryEntries(history);
    match userMessage
    case None => front
    case Some(m) => front + [UserEntry(m, image)]
  }

  /** `append_image_to_last_user(messages, image_file, image_b64)`
      (app/chat_utils.py:2-21): a last user turn absorbs the image part (its
      string content becomes a text part, its list content grows by one);
      with no messages or a last turn of another role, a new user turn holding
      only the image is appended. A last user turn whose content is neither a
      string nor a list is left as it is. */
  function AppendImageToLastUser(messages: seq<Message>, contentType: Option<string>, b64: string): (r: seq<Message>)
    ensures |messages| == 0 || messages[|messages| - 1].role != "user" ==>
      r == messages + [Message("user", Parts([UploadedImage(contentType, b64)]))]
    ensures |messages| > 0 && messages[|messages| - 1].role == "user" ==>
      |r| == |messages| && r[..|r| - 1] == messages[..|messages| - 1] && r[|r| - 1].role == "user"
    ensures |messages| > 0 && messages[|messages| - 1].role == "user" && messages[|messages| - 1].content.Text? ==>
      r[|r| - 1].content == Parts([TextPart(messages[|messages| - 1].content.text), UploadedImage(contentType, b64)])
    ensures |messages| > 0 && messages[|messages| - 1].role == "user" && messages[|messages| - 1].content.Parts? ==>
      r[|r| - 1].content == Parts(messages[|messages| - 1].content.parts + [UploadedImage(contentType, b64)])
    ensures |messages| > 0 && messages[|messages| - 1].role == "user" && messages[|messages| - 1].content.OtherContent? ==>
      r == messages
  {
    var image := UploadedImage(contentType, b64);
    if |messages| > 0 && messages[|messages| - 1].role == "user" then
      var last := messages[|messages| - 1];
      match last.content
      case Text(t) => messages[..|messages| - 1] + [Message("user", Parts([TextPart(t), image]))]
      case Parts(ps) => messages[..|messages| - 1] + [Message("user", Parts(ps + [image]))]
      case OtherContent => messages
    else
      messages + [Message("user", Parts([image]))]
  }

  /** The two builders agree: building a conversation without an image and then
      merging an uploaded image into it gives the conversation built with that
      image's URL from the start. */
  lemma MergeMatchesBuild(history: seq<ChatTurn>, userMessage: string, systemPrompt: Option<string>,
                          semanticContext: Option<string>, contentType: Option<string>, b64: string)
    ensures AppendImageToLastUser(BuildMessages(history, Some(userMessage), systemPrompt, semanticContext, None), contentType, b64)
         == BuildMessages(history, Some(userMessage), systemPrompt, semanticContext, Some(ImageUrl(DataUrl(contentType, b64))))
  {
    var plain := BuildMessages(history, Some(userMessage), systemPrompt, semanticContext, None);
    var withImage := BuildMessages(history, Some(userMessage), systemPrompt, semanticContext, Some(ImageUrl(DataUrl(contentType, b64))));
    var n := |plain|;
    assert plain[..n - 1] == withImage[..n - 1];
  }

  /** Every image merge leaves the uploaded image as the last part of the last
      turn, unless that turn's content is neither a string nor a list. */
  lemma MergedImageIsLast(messages: seq<Message>, contentType: Option<string>, b64: string)
    requires |messages| == 0 || !messages[|messages| - 1].content.OtherContent? || messages[|messages| - 1].role != "user"
    ensures var r := AppendImageToLastUser(messages, contentType, b64);
      |r| > 0 && r[|r| - 1].role == "user" && r[|r| - 1].content.Parts? &&
      |r[|r| - 1].content.parts| > 0 &&
      r[|r| - 1].content.parts[|r[|r| - 1].content.parts| - 1] == UploadedImage(contentType, b64)
  {
  }
}
