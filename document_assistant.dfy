/** The AI document assistant of src/app/temp/page.jsx: an append-only
    message log, the attached PDF, the chosen mode, the text input and the
    processing flag. handleAction is split at its await: BeginAction runs up
    to the API call, CompleteAction from its answer to the finally block, so
    the processing flag is observable in between. The Gemini call is an
    oracle (ApiReply). */
module DocumentAssistant {
  import opened JsSemantics

  const Greeting := "Hello! I am your AI Document Assistant. You can chat with a PDF, create a new one from a prompt, or edit an existing one."
  const NeedPdfToChat := "Please upload a PDF file first to chat with it."
  const NeedPdfToEdit := "Please upload a PDF file first to edit it."
  const InvalidMode := "Invalid mode selected."
  const InvalidStructure := "Invalid response structure from the API."
  const GenericError := "Sorry, I encountered an error. Please try again."
  const CreatedReply := "I have generated the LaTeX code for your document. Your download for the .tex file should start automatically. You can use a site like Overleaf to compile it into a PDF."
  const EditedReply := "I have applied your edits. The download for the revised text should start automatically."
  const FileRemoved := "File removed."

  datatype Sender = User | Bot

  datatype Message = Message(sender: Sender, text: string, isError: bool)

  datatype PdfFile = PdfFile(name: string, mimeType: string)

  function BotSays(text: string): Message { Message(Bot, text, false) }

  /** The catch block: e.message || "Sorry, ...", marked as an error. */
  function ErrorBubble(message: string): (m: Message)
    ensures m.sender == Bot && m.isError && m.text != ""
    ensures message != "" ==> m.text == message
  {
    Message(Bot, if message == "" then GenericError else message, true)
  }

  /** `Attached "<name>".` */
  function AttachedNotice(name: string): string {
    "Attached \"" + name + "\"."
  }

  /** The notice quotes the file name between the fixed prefix and suffix. */
  lemma AttachedNoticeQuotesName(name: string)
    ensures |AttachedNotice(name)| == |name| + 12
    ensures AttachedNotice(name)[..10] == "Attached \""
    ensures AttachedNotice(name)[10..10 + |name|] == name
    ensures AttachedNotice(name)[10 + |name|..] == "\"."
  {
  }

  // ---------------------------------------------------------------------
  // callGeminiAPI

  /** Which prompt template handleAction sends; the template text itself is
      opaque here. */
  datatype PromptKind = AskAboutPdf | CreateInPdfStyle | CreateFromTopic | EditPdf

  datatype ApiRequest = ApiRequest(kind: PromptKind, input: string, attachment: Option<PdfFile>)

  /** What the fetch yields: a thrown error (HTTP error, network, file
      reading) with its message, or a response whose first candidate's first
      part has this text (None when the path is missing). */
  datatype ApiReply = Rejected(message: string) | Responded(firstText: Option<string>)

  /** callGeminiAPI's result: the trimmed text, or the error it throws. */
  function CallGeminiApi(reply: ApiReply): (r: Result)
    ensures r.Answer? <==> reply.Responded? && reply.firstText.Some? && reply.firstText.value != ""
    ensures r.Answer? ==> r.text == Trim(reply.firstText.value)
    ensures reply.Responded? && !r.Answer? ==> r == Failure(InvalidStructure)
    ensures reply.Rejected? ==> r == Failure(reply.message)
  {
    match reply
    case Rejected(message) => Failure(message)
    case Responded(text) =>
      if text.Some? && text.value != "" then Answer(Trim(text.value)) else Failure(InvalidStructure)
  }

  datatype Result = Answer(text: string) | Failure(message: string)

  // ---------------------------------------------------------------------
  // handleAction

  /** What handleAction captured when it started: the input, the mode and
      the attached file of that render. */
  datatype PendingAction = PendingAction(input: string, mode: string, file: Option<PdfFile>)

  /** The request handleAction sends, if any: chat and edit need a file,
      create takes one if present, an unknown mode sends nothing. */
  function RequestFor(p: PendingAction): (req: Option<ApiRequest>)
    ensures req.Some? ==> req.value.input == p.input && req.value.attachment == p.file
    ensures (p.mode == "chat" || p.mode == "edit") && p.file.None? ==> req.None?
    ensures p.mode == "create" ==> req.Some? && (req.value.kind == CreateInPdfStyle <==> p.file.Some?)
    ensures p.mode != "chat" && p.mode != "create" && p.mode != "edit" ==> req.None?
  {
    if p.mode == "chat" then
      if p.file.None? then None else Some(ApiRequest(AskAboutPdf, p.input, p.file))
    else if p.mode == "create" then
      Some(ApiRequest(if p.file.Some? then CreateInPdfStyle else CreateFromTopic, p.input, p.file))
    else if p.mode == "edit" then
      if p.file.None? then None else Some(ApiRequest(EditPdf, p.input, p.file))
    else None
  }

  /** The one bot message handleAction appends once the call settles. */
  function BotReply(p: PendingAction, reply: ApiReply): (m: Message)
    ensures m.sender == Bot
    ensures p.mode == "chat" && p.file.None? ==> m == ErrorBubble(NeedPdfToChat)
    ensures p.mode == "edit" && p.file.None? ==> m == ErrorBubble(NeedPdfToEdit)
    ensures p.mode != "chat" && p.mode != "create" && p.mode != "edit" ==> m == ErrorBubble(InvalidMode)
    ensures RequestFor(p).Some? && CallGeminiApi(reply).Failure? ==> m == ErrorBubble(CallGeminiApi(reply).message)
    ensures p.mode == "chat" && RequestFor(p).Some? && CallGeminiApi(reply).Answer? ==>
              m == BotSays(CallGeminiApi(reply).text)
    ensures !m.isError <==> RequestFor(p).Some? && CallGeminiApi(reply).Answer?
  {
    match RequestFor(p)
    case None =>
      ErrorBubble(if p.mode == "chat" then NeedPdfToChat else if p.mode == "edit" then NeedPdfToEdit else InvalidMode)
    case Some(req) =>
      match CallGeminiApi(reply)
      case Failure(message) => ErrorBubble(message)
      case Answer(text) =>
        match req.kind
        case AskAboutPdf => BotSays(text)
        case CreateInPdfStyle => BotSays(CreatedReply)
        case CreateFromTopic => BotSays(CreatedReply)
        case EditPdf => BotSays(EditedReply)
  }

  /** Chat and edit send a request exactly when a PDF is attached, each
      with its own prompt. */
  lemma RequestForSends(p: PendingAction)
    ensures (p.mode == "chat" || p.mode == "edit") ==> (RequestFor(p).Some? <==> p.file.Some?)
    ensures p.mode == "chat" && p.file.Some? ==> RequestFor(p).value.kind == AskAboutPdf
    ensures p.mode == "edit" && p.file.Some? ==> RequestFor(p).value.kind == EditPdf
  {
  }

  /** An answered create request is confirmed with the fixed LaTeX notice,
      whatever the model wrote. */
  lemma CreateConfirms(p: PendingAction, reply: ApiReply)
    requires p.mode == "create" && CallGeminiApi(reply).Answer?
    ensures BotReply(p, reply) == BotSays(CreatedReply)
  {
  }

  /** An answered edit request (a PDF attached) is confirmed with the fixed
      edit notice. */
  lemma EditConfirms(p: PendingAction, reply: ApiReply)
    requires p.mode == "edit" && p.file.Some? && CallGeminiApi(reply).Answer?
    ensures BotReply(p, reply) == BotSays(EditedReply)
  {
    assert RequestFor(p) == Some(ApiRequest(EditPdf, p.input, p.file));
  }

  // ---------------------------------------------------------------------
  // getPlaceholderText

  function Placeholder(mode: string, hasFile: bool): (text: string)
    ensures text == "Select a mode to begin..." <==> mode != "chat" && mode != "create" && mode != "edit"
  {
    if mode == "chat" then
      (if hasFile then "Ask a question about the PDF..." else "Upload a PDF to start chatting...")
    else if mode == "create" then
      (if hasFile then "Describe new doc with style from PDF..." else "Describe the PDF you want to create...")
    else if mode == "edit" then
      (if hasFile then "Describe the edits you want to make..." else "Upload a PDF to start editing...")
    else "Select a mode to begin..."
  }

  /** Each of the three modes shows a different text with and without a
      file, so the placeholder tells the user which of the six states the
      assistant is in. */
  lemma PlaceholderDistinguishesStates(m1: string, f1: bool, m2: string, f2: bool)
    requires m1 in ["chat", "create", "edit"] && m2 in ["chat", "create", "edit"]
    requires Placeholder(m1, f1) == Placeholder(m2, f2)
    ensures m1 == m2 && f1 == f2
  {
  }

  /** The page's state. */
  class Assistant {
    var messages: seq<Message>
    var userInput: string
    var uploadedFile: Option<PdfFile>
    var isProcessing: bool
    var mode: string

    /** After mount: the effect has replaced the empty log by the greeting. */
    constructor ()
      ensures messages == [BotSays(Greeting)]
      ensures userInput == "" && uploadedFile.None? && !isProcessing && mode == "chat"
    {
      messages := [BotSays(Greeting)];
      userInput := "";
      uploadedFile := None;
      isProcessing := false;
      mode := "chat";
    }

    method SetMode(m: string)
      modifies this
      ensures mode == m
      ensures messages == old(messages) && userInput == old(userInput)
      ensures uploadedFile == old(uploadedFile) && isProcessing == old(isProcessing)
    {
      mode := m;
    }

    method SetUserInput(s: string)
      modifies this
      ensures userInput == s
      ensures messages == old(messages) && mode == old(mode)
      ensures uploadedFile == old(uploadedFile) && isProcessing == old(isProcessing)
    {
      userInput := s;
    }

    /** handleFileChange with event.target.files[0]. */
    method HandleFileChange(file: Option<PdfFile>)
      modifies this
      ensures file.Some? ==> uploadedFile == file && messages == old(messages) + [BotSays(AttachedNotice(file.value.name))]
      ensures file.None? ==> uploadedFile == old(uploadedFile) && messages == old(messages)
      ensures userInput == old(userInput) && mode == old(mode) && isProcessing == old(isProcessing)
    {
      if file.Some? {
        uploadedFile := file;
        messages := messages + [BotSays(AttachedNotice(file.value.name))];
      }
    }

    method RemoveFile()
      modifies this
      ensures uploadedFile.None?
      ensures messages == old(messages) + [BotSays(FileRemoved)]
      ensures userInput == old(userInput) && mode == old(mode) && isProcessing == old(isProcessing)
    {
      uploadedFile := None;
      messages := messages + [BotSays(FileRemoved)];
    }

    /** handleAction up to its await: blank input or a running action change
        nothing; otherwise the user's message is logged, the input cleared and
        the processing flag set. */
    method BeginAction() returns (pending: Option<PendingAction>)
      modifies this
      ensures (Trim(old(userInput)) == "" || old(isProcessing)) ==>
                pending.None? && messages == old(messages) && userInput == old(userInput)
                && isProcessing == old(isProcessing)
      ensures !(Trim(old(userInput)) == "" || old(isProcessing)) ==>
                && pending == Some(PendingAction(old(userInput), old(mode), old(uploadedFile)))
                && messages == old(messages) + [Message(User, old(userInput), false)]
                && userInput == "" && isProcessing
      ensures uploadedFile == old(uploadedFile) && mode == old(mode)
    {
      if Trim(userInput) == "" || isProcessing {
        pending := None;
        return;
      }
      pending := Some(PendingAction(userInput, mode, uploadedFile));
      messages := messages + [Message(User, userInput, false)];
      userInput := "";
      isProcessing := true;
    }

    /** handleAction from the settled call to its finally block: exactly one
        bot message, then the processing flag is cleared. */
    method CompleteAction(pending: PendingAction, reply: ApiReply) returns (request: Option<ApiRequest>)
      modifies this
      ensures request == RequestFor(pending)
      ensures messages == old(messages) + [BotReply(pending, reply)]
      ensures !isProcessing
      ensures userInput == old(userInput) && uploadedFile == old(uploadedFile) && mode == old(mode)
    {
      request := RequestFor(pending);
      var bot := BotReply(pending, reply);
      messages := messages + [bot];
      isProcessing := false;
    }

    /** handleAction run to completion with no other event in between. */
    method HandleAction(reply: ApiReply) returns (request: Option<ApiRequest>)
      modifies this
      ensures (Trim(old(userInput)) == "" || old(isProcessing)) ==>
                request.None? && messages == old(messages) && userInput == old(userInput)
                && isProcessing == old(isProcessing)
      ensures !(Trim(old(userInput)) == "" || old(isProcessing)) ==>
                var p := PendingAction(old(userInput), old(mode), old(uploadedFile));
                && request == RequestFor(p)
                && messages == old(messages) + [Message(User, old(userInput), false), BotReply(p, reply)]
                && |messages| == |old(messages)| + 2
                && userInput == "" && !isProcessing
      ensures uploadedFile == old(uploadedFile) && mode == old(mode)
    {
      var pending := BeginAction();
      if pending.None? {
        request := None;
        return;
      }
      assert pending.value == PendingAction(old(userInput), old(mode), old(uploadedFile));
      request := CompleteAction(pending.value, reply);
    }
  }
}
