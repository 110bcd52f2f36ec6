/** The per-lecture tutor chat (src/components/AIChat.tsx): the transcript is
    kept in browser storage under `chat_<lectureId>` with image data replaced
    by a placeholder; a submission sends the last five earlier messages plus
    the new one to the language-model service and appends its reply. */
module AIChat {
  import opened Wrappers
  import opened JsText
  import opened Domain
  import opened Storage

  const ImagePlaceholder := "[Image data removed for storage]"
  const DefaultImagePrompt := "What's in this image?"
  const FallbackReply := "Sorry, I could not process your request."
  const RequestError := "Sorry, there was an error processing your request. Please try again."
  const ErrorReply := "Sorry, there was an error processing your request. Please try again with a shorter message or without an image."
  const ImageTooLarge := "Image size exceeds 5MB limit. Please choose a smaller image."
  const NotAnImage := "Please upload an image file (JPEG, PNG, etc.)"
  const ImageReadFailed := "Failed to read the image file. Please try another image."

  /** The largest accepted upload, in bytes. */
  const MaxImageBytes: nat := 5 * 1024 * 1024
  /** How many earlier messages a request carries. */
  const ContextWindow: nat := 5

  /** JavaScript truthiness of the optional `image` field. */
  predicate HasImage(m: ChatMessage) {
    m.image.Some? && m.image.value != ""
  }

  // ---------------------------------------------------------------------------
  // Redaction before storage.

  /** One message as stored: image data becomes the placeholder. */
  function RedactOne(m: ChatMessage): (r: ChatMessage)
    ensures r.role == m.role && r.content == m.content && r.timestamp == m.timestamp
    ensures HasImage(m) ==> r.image == Some(ImagePlaceholder)
    ensures !HasImage(m) ==> r == m
  {
    if HasImage(m) then m.(image := Some(ImagePlaceholder)) else m
  }

  /** The `map` applied before every write of the transcript. */
  function Redact(ms: seq<ChatMessage>): (r: seq<ChatMessage>)
    ensures |r| == |ms|
    ensures forall k :: 0 <= k < |ms| ==> r[k] == RedactOne(ms[k])
  {
    seq(|ms|, k requires 0 <= k < |ms| => RedactOne(ms[k]))
  }

  /** No stored message carries image data: an image field is either absent,
      empty, or the placeholder. */
  lemma RedactedHoldsNoImageData(ms: seq<ChatMessage>)
    ensures forall k :: 0 <= k < |ms| ==>
      Redact(ms)[k].image.None? || Redact(ms)[k].image.value in {"", ImagePlaceholder}
  {
    forall k | 0 <= k < |ms|
      ensures Redact(ms)[k].image.None? || Redact(ms)[k].image.value in {"", ImagePlaceholder}
    {
      if !HasImage(ms[k]) {
        assert Redact(ms)[k] == ms[k];
      }
    }
  }

  /** Redacting a transcript read back from storage changes nothing, so the
      write that follows a load stores the same value again. */
  lemma RedactIdempotent(ms: seq<ChatMessage>)
    ensures Redact(Redact(ms)) == Redact(ms)
  {
    assert forall k :: 0 <= k < |ms| ==> RedactOne(RedactOne(ms[k])) == RedactOne(ms[k]);
  }

  /** Redaction works message by message, so it commutes with appending. */
  lemma RedactAppend(a: seq<ChatMessage>, b: seq<ChatMessage>)
    ensures Redact(a + b) == Redact(a) + Redact(b)
  {
    assert forall k :: 0 <= k < |b| ==> (a + b)[|a| + k] == b[k];
  }

  // ---------------------------------------------------------------------------
  // The request.

  /** The `content` of a request entry: plain text, or the vision format with
      the text and the image URL. */
  datatype ApiContent = Text(text: string) | TextAndImage(text: string, url: string)

  datatype ApiMessage = ApiMessage(role: ChatRole, content: ApiContent)

  /** The entry the new message becomes. */
  function CurrentEntry(m: ChatMessage): ApiMessage {
    if HasImage(m) then ApiMessage(User, TextAndImage(m.content, m.image.value))
    else ApiMessage(User, Text(m.content))
  }

  /** The `apiMessages` array: the last five earlier messages as role and
      text, in order, then the new message. */
  method BuildRequest(prior: seq<ChatMessage>, current: ChatMessage) returns (api: seq<ApiMessage>)
    ensures |api| == Min(|prior|, ContextWindow) + 1 && |api| <= ContextWindow + 1
    ensures forall k :: 0 <= k < |api| - 1 ==>
      var m := prior[|prior| - (|api| - 1) + k];
      api[k] == ApiMessage(m.role, Text(m.content))
    ensures api[|api| - 1] == CurrentEntry(current)
  {
    var start := |prior| - Min(|prior|, ContextWindow);
    api := [];
    for i := start to |prior|
      invariant |api| == i - start
      invariant forall k :: 0 <= k < |api| ==> api[k] == ApiMessage(prior[start + k].role, Text(prior[start + k].content))
    {
      api := api + [ApiMessage(prior[i].role, Text(prior[i].content))];
    }
    api := api + [CurrentEntry(current)];
  }

  /** The user's message: with an attached and read image it carries the
      image, and blank text is replaced by the default prompt; otherwise it is
      the typed text as is. */
  function UserMessage(draft: string, fileAttached: bool, preview: Option<string>, timestamp: string): (r: ChatMessage)
    ensures r.role == User && r.timestamp == timestamp
    ensures fileAttached && preview.Some? && preview.value != "" ==>
      && HasImage(r) && r.image == preview
      && r.content == (if IsBlank(draft) then DefaultImagePrompt else draft)
    ensures !(fileAttached && preview.Some? && preview.value != "") ==> r.image.None? && r.content == draft
  {
    if fileAttached && preview.Some? && preview.value != "" then
      ChatMessage(User, if IsBlank(draft) then DefaultImagePrompt else draft, timestamp, preview)
    else
      ChatMessage(User, draft, timestamp, None)
  }

  /** How the race between the completion call and the 45-second timer ends:
      a reply object (whose text may be empty), no reply object at all, or a
      rejection. */
  datatype ChatOutcome = Answered(text: string) | NoReply | Failed

  /** The assistant message appended for an outcome, if any. */
  function AssistantReply(outcome: ChatOutcome, timestamp: string): (r: Option<ChatMessage>)
    ensures r.Some? ==> r.value.role == Assistant && r.value.image.None? && r.value.timestamp == timestamp
    ensures outcome.Answered? ==> r.Some? && r.value.content == (if outcome.text == "" then FallbackReply else outcome.text)
    ensures outcome.NoReply? <==> r.None?
    ensures outcome.Failed? ==> r.Some? && r.value.content == ErrorReply
  {
    match outcome
    case Answered(text) => Some(ChatMessage(Assistant, if text == "" then FallbackReply else text, timestamp, None))
    case NoReply => None
    case Failed => Some(ChatMessage(Assistant, ErrorReply, timestamp, None))
  }

  /** A file chosen in the upload dialog. */
  datatype ImageFile = ImageFile(size: nat, mimeType: string)

  /** Why an upload is refused before it is read, if it is. */
  function UploadProblem(f: ImageFile): (r: Option<string>)
    ensures r.None? <==> f.size <= MaxImageBytes && StartsWith(f.mimeType, "image/")
    ensures f.size > MaxImageBytes ==> r == Some(ImageTooLarge)
    ensures f.size <= MaxImageBytes && !StartsWith(f.mimeType, "image/") ==> r == Some(NotAnImage)
  {
    if f.size > MaxImageBytes then Some(ImageTooLarge)
    else if !StartsWith(f.mimeType, "image/") then Some(NotAnImage)
    else None
  }

  // ---------------------------------------------------------------------------
  // The component.

  /** The submission guard: nothing to send, or a request already running. */
  predicate SubmitBlocked(draft: string, file: Option<ImageFile>, loading: bool) {
    (IsBlank(draft) && file.None?) || loading
  }

  /** The transcript as it was when a message was submitted, and that message. */
  datatype InFlight = InFlight(prior: seq<ChatMessage>, user: ChatMessage)

  class AIChat {
    const lectureId: string
    const store: LocalStorage
    /** The text being typed. */
    var message: string
    var messages: seq<ChatMessage>
    var isLoading: bool
    var error: Option<string>
    var imageFile: Option<ImageFile>
    var imagePreview: Option<string>
    /** What the pending request's continuation captured, while one runs. */
    var inFlight: Option<InFlight>

    constructor (lectureId: string, store: LocalStorage)
      ensures this.lectureId == lectureId && this.store == store
      ensures message == "" && messages == [] && !isLoading && error == None
      ensures imageFile == None && imagePreview == None && inFlight == None
    {
      this.lectureId := lectureId;
      this.store := store;
      message := "";
      messages := [];
      isLoading := false;
      error := None;
      imageFile := None;
      imagePreview := None;
      inFlight := None;
    }

    /** The save effect that runs whenever the transcript changes: a
        non-empty transcript is written redacted; an empty one is not
        written. */
    method PersistMessages()
      modifies store
      ensures messages == [] ==> store.entries == old(store.entries)
      ensures messages != [] ==> store.entries == old(store.entries)[ChatKey(lectureId) := ChatEntry(Redact(messages))]
    {
      if |messages| > 0 {
        store.SetItem(ChatKey(lectureId), ChatEntry(Redact(messages)));
      }
    }

    /** The load effect: a stored transcript replaces the in-memory one (and
        is written back by the save effect). A stored value that is not a
        transcript stands for text that does not parse and is ignored. */
    method LoadSaved()
      modifies this, store
      ensures message == old(message) && isLoading == old(isLoading) && error == old(error)
      ensures imageFile == old(imageFile) && imagePreview == old(imagePreview)
      ensures inFlight == old(inFlight)
      ensures ChatKey(lectureId) in old(store.entries) && old(store.entries)[ChatKey(lectureId)].ChatEntry? ==>
        && messages == old(store.entries)[ChatKey(lectureId)].messages
        && (messages != [] ==> store.entries == old(store.entries)[ChatKey(lectureId) := ChatEntry(Redact(messages))])
        && (messages == [] ==> store.entries == old(store.entries))
      ensures !(ChatKey(lectureId) in old(store.entries) && old(store.entries)[ChatKey(lectureId)].ChatEntry?) ==>
        messages == old(messages) && store.entries == old(store.entries)
    {
      var saved := store.GetItem(ChatKey(lectureId));
      if saved.Some? && saved.value.ChatEntry? {
        messages := saved.value.messages;
        PersistMessages();
      }
    }

    /** Typing in the text box. */
    method SetMessage(text: string)
      modifies this
      ensures message == text && messages == old(messages) && isLoading == old(isLoading) && inFlight == old(inFlight)
      ensures error == old(error) && imageFile == old(imageFile) && imagePreview == old(imagePreview)
    {
      message := text;
    }

    /** The first half of `handleSubmit`, up to the `await`: unless the guard
        stops it, append the user's message, clear the inputs, mark a request
        in flight and return the request sent. */
    method Submit(timestamp: string) returns (sent: Option<seq<ApiMessage>>)
      modifies this, store
      ensures SubmitBlocked(old(message), old(imageFile), old(isLoading)) ==>
        && sent.None? && message == old(message) && messages == old(messages)
        && isLoading == old(isLoading) && error == old(error) && inFlight == old(inFlight)
        && imageFile == old(imageFile) && imagePreview == old(imagePreview)
        && store.entries == old(store.entries)
      ensures !SubmitBlocked(old(message), old(imageFile), old(isLoading)) ==>
        var user := UserMessage(old(message), old(imageFile).Some?, old(imagePreview), timestamp);
        && messages == old(messages) + [user]
        && inFlight == Some(InFlight(old(messages), user))
        && message == "" && imageFile.None? && imagePreview.None? && isLoading && error.None?
        && store.entries == old(store.entries)[ChatKey(lectureId) := ChatEntry(Redact(messages))]
        && sent.Some? && |sent.value| == Min(|old(messages)|, ContextWindow) + 1
        && (forall k :: 0 <= k < |sent.value| - 1 ==>
              var m := old(messages)[|old(messages)| - (|sent.value| - 1) + k];
              sent.value[k] == ApiMessage(m.role, Text(m.content)))
        && sent.value[|sent.value| - 1] == CurrentEntry(user)
    {
      if SubmitBlocked(message, imageFile, isLoading) {
        return None;
      }
      var user := UserMessage(message, imageFile.Some?, imagePreview, timestamp);
      var request := Send(user);
      sent := Some(request);
    }

    /** What an unblocked submission does with the user's message. */
    method Send(user: ChatMessage) returns (request: seq<ApiMessage>)
      modifies this, store
      ensures messages == old(messages) + [user] && inFlight == Some(InFlight(old(messages), user))
      ensures message == "" && imageFile.None? && imagePreview.None? && isLoading && error.None?
      ensures store.entries == old(store.entries)[ChatKey(lectureId) := ChatEntry(Redact(messages))]
      ensures |request| == Min(|old(messages)|, ContextWindow) + 1
      ensures forall k :: 0 <= k < |request| - 1 ==>
        var m := old(messages)[|old(messages)| - (|request| - 1) + k];
        request[k] == ApiMessage(m.role, Text(m.content))
      ensures request[|request| - 1] == CurrentEntry(user)
    {
      var prior := messages;
      request := BuildRequest(prior, user);
      messages := messages + [user];
      PersistMessages();
      message := "";
      imageFile := None;
      imagePreview := None;
      isLoading := true;
      error := None;
      inFlight := Some(InFlight(prior, user));
    }

    /** The second half of `handleSubmit`, after the race settles: append the
        assistant's reply or the error reply, and for a signed-in user return
        the redacted rows exported (the transcript as it was at submission,
        the user's message and the reply). */
    method ReceiveReply(outcome: ChatOutcome, timestamp: string, signedIn: bool)
      returns (exported: Option<seq<ChatMessage>>)
      modifies this, store
      ensures inFlight.None? && message == old(message)
      ensures imageFile == old(imageFile) && imagePreview == old(imagePreview)
      ensures old(inFlight).None? ==>
        && exported.None? && messages == old(messages) && isLoading == old(isLoading)
        && error == old(error) && store.entries == old(store.entries)
      ensures old(inFlight).Some? ==>
        var reply := AssistantReply(outcome, timestamp);
        && messages == old(messages) + (if reply.Some? then [reply.value] else [])
        && !isLoading
        && error == (if outcome.Failed? then Some(RequestError) else old(error))
        && (reply.Some? ==> store.entries == old(store.entries)[ChatKey(lectureId) := ChatEntry(Redact(messages))])
        && (reply.None? ==> store.entries == old(store.entries))
        && exported == (if signedIn && outcome.Answered?
                        then Some(Redact(old(inFlight).value.prior + [old(inFlight).value.user, reply.value]))
                        else None)
    {
      exported := None;
      if inFlight.None? {
        return;
      }
      var pending := inFlight.value;
      var reply := AssistantReply(outcome, timestamp);
      if outcome.Failed? {
        error := Some(RequestError);
      }
      if reply.Some? {
        messages := messages + [reply.value];
        PersistMessages();
      }
      if signedIn && outcome.Answered? {
        exported := Some(Redact(pending.prior + [pending.user, reply.value]));
      }
      isLoading := false;
      inFlight := None;
    }

    /** `handleImageUpload`: an oversized or non-image file is refused with an
        error and not attached; an accepted one is attached and its reading
        starts. */
    method HandleImageUpload(file: Option<ImageFile>)
      modifies this
      ensures message == old(message) && messages == old(messages) && isLoading == old(isLoading)
      ensures imagePreview == old(imagePreview) && inFlight == old(inFlight)
      ensures file.None? ==> imageFile == old(imageFile) && error == old(error)
      ensures file.Some? && UploadProblem(file.value).Some? ==>
        imageFile == old(imageFile) && error == UploadProblem(file.value)
      ensures file.Some? && UploadProblem(file.value).None? ==> imageFile == file && error.None?
    {
      if file.None? {
        return;
      }
      var problem := UploadProblem(file.value);
      if problem.Some? {
        error := problem;
        return;
      }
      imageFile := file;
      error := None;
    }

    /** The file reader finishing: the data URL becomes the preview, or a
        read error detaches the file; `loadend` follows `error` as well, and
        sets the preview to the reader's result, which is null after a
        failed read. */
    method ReaderFinished(result: Option<string>)
      modifies this
      ensures message == old(message) && messages == old(messages) && isLoading == old(isLoading)
      ensures inFlight == old(inFlight)
      ensures result.Some? ==> imagePreview == result && imageFile == old(imageFile) && error == old(error)
      ensures result.None? ==> imagePreview.None? && imageFile.None? && error == Some(ImageReadFailed)
    {
      if result.None? {
        error := Some(ImageReadFailed);
        imageFile := None;
      }
      imagePreview := result;
    }

    /** `removeImage` */
    method RemoveImage()
      modifies this
      ensures imageFile.None? && imagePreview.None? && inFlight == old(inFlight)
      ensures message == old(message) && messages == old(messages) && isLoading == old(isLoading)
      ensures error == old(error)
    {
      imageFile := None;
      imagePreview := None;
    }

    /** `clearChat`: after confirmation the transcript is emptied and its
        stored copy removed; the save effect then writes nothing. */
    method ClearChat(confirmed: bool)
      modifies this, store
      ensures !confirmed ==> messages == old(messages) && store.entries == old(store.entries)
      ensures confirmed ==> messages == [] && store.entries == old(store.entries) - {ChatKey(lectureId)}
      ensures message == old(message) && isLoading == old(isLoading) && error == old(error)
      ensures imageFile == old(imageFile) && imagePreview == old(imagePreview) && inFlight == old(inFlight)
    {
      if confirmed {
        messages := [];
        store.RemoveItem(ChatKey(lectureId));
        PersistMessages();
      }
    }
  }
}
