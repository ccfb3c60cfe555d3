/** The chat widget's conversation engine (static/app.js, class `Chatbox`):
    the open flag, the append-only message log, the selected category, the
    menu being offered, the profile image and the persisted history slot. */
module Conversation {

  import opened Wrappers
  import opened Text
  import Catalog
  import Markup

  datatype Sender = Visitor | Operator

  /** One entry of `this.messages`: `{text, type, timestamp}`. */
  datatype Message = Message(text: string, sender: Sender, timestamp: string)

  /** The object `JSON.parse` gives back for the history key. A field that is
      missing reads as `None`. */
  datatype Snapshot = Snapshot(messages: Option<seq<Message>>, selectedCategory: Option<string>, timestamp: string)

  /** The history key of the browser's storage: nothing stored, something that
      does not parse as a snapshot, or a snapshot. */
  datatype Slot = Empty | Corrupt | Saved(snapshot: Snapshot)

  /** The buttons of the follow-up menu (their `data-action`). */
  datatype FollowUpAction = MoreQuestions | BackToApel | ChangeCategory | ContactMqa | CustomQuestion

  /** The menu most recently put in front of the visitor. */
  datatype Prompt =
    | NoPrompt
    | CategoryMenu
    | SubCategoryMenu
    | QuestionMenu(topic: string, questions: seq<string>)
    | CustomQuestionPrompt(topic: string)
    | FollowUpMenu(actions: seq<FollowUpAction>)

  /** How the `/predict` call ended: a failure (status not ok, network error,
      a body that is not JSON) or a parsed body with its two fields. */
  datatype Reply = Failed | Received(error: Option<string>, answer: Option<string>)

  /** The body of the `/predict` request. */
  datatype PredictRequest = PredictRequest(message: string)

  const WelcomeText := "Welcome to MQABot!"
  const ChooseCategoryText := "Please choose which category best suits your inquiries:"
  const NoAnswerText := "I'm sorry, I don't have a pre-defined answer for that question. Please try asking in your own words."
  const ContactText := "For direct assistance, please contact MQA:\n\U{1F4DE} Phone: 03-7968 7002\n\U{1F4E7} Email: enquiry@mqa.gov.my\n\U{1F310} Website: www.mqa.gov.my"
  const SelectCategoryFirstText := "Please select a category first"
  const NoResponseText := "No response received from server."
  const RequestFailedText := "Sorry, I encountered an error. Please try again or contact MQA directly."

  /** The two operator messages of `showWelcomeMessage`. */
  function WelcomeMessages(now: string): seq<Message> {
    [Message(WelcomeText, Operator, now), Message(ChooseCategoryText, Operator, now)]
  }

  /** The buttons `showFollowUpOptions` offers for the selected category. */
  function FollowUpActions(category: Option<string>): (r: seq<FollowUpAction>)
    ensures |r| == 4 && r[1..] == [ChangeCategory, ContactMqa, CustomQuestion]
    ensures BackToApel in r <==> Truthy(category) && StartsWith(category.value, "apel-")
    ensures MoreQuestions in r <==> BackToApel !in r
  {
    [if Truthy(category) && StartsWith(category.value, "apel-") then BackToApel else MoreQuestions,
     ChangeCategory, ContactMqa, CustomQuestion]
  }

  /** The operator message `showPredefinedAnswer` appends: the canned answer
      when there is a non-empty one, the apology otherwise. */
  function CannedReply(category: Option<string>, question: string): (r: string)
    ensures Truthy(Catalog.Lookup(category, question)) ==> r == Catalog.Lookup(category, question).value
    ensures !Truthy(Catalog.Lookup(category, question)) ==> r == NoAnswerText
  {
    match Catalog.Lookup(category, question)
    case Some(answer) => if answer != "" then answer else NoAnswerText
    case None => NoAnswerText
  }

  /** The framework question as listed gets the apology. */
  lemma FrameworkQuestionApology()
    ensures CannedReply(Some("framework"), Catalog.FrameworkListedQuestion) == NoAnswerText
  {
    Catalog.FrameworkListedQuestionUnanswered();
  }

  /** The operator message for the outcome of `/predict`. */
  function ReplyText(reply: Reply): (r: string)
    ensures reply.Failed? ==> r == RequestFailedText
    ensures reply.Received? && Truthy(reply.error) ==> r == "Error: " + reply.error.value
    ensures reply.Received? && !Truthy(reply.error) && Truthy(reply.answer) ==> r == reply.answer.value
    ensures reply.Received? && !Truthy(reply.error) && !Truthy(reply.answer) ==> r == NoResponseText
  {
    match reply
    case Failed => RequestFailedText
    case Received(error, answer) =>
      if Truthy(error) then "Error: " + error.value
      else if Truthy(answer) then answer.value
      else NoResponseText
  }

  /** Only a reply carrying an answer is followed by the follow-up menu. */
  predicate ShowsFollowUp(reply: Reply) {
    reply.Received? && !Truthy(reply.error) && Truthy(reply.answer)
  }

  /** The markup `renderMessage` builds for a message: visitor text escaped,
      so that its markup is shown literally; operator text with its links
      made safe. */
  function RenderedText(m: Message): (r: string)
    ensures m.sender == Visitor ==> '<' !in r && Markup.DecodeEntities(r) == m.text
    ensures m.sender == Operator ==> r == Markup.SafeLinks(m.text)
  {
    if m.sender == Operator then Markup.SafeLinks(m.text)
    else Markup.EscapeRoundTrip(m.text); Markup.EscapeHtml(m.text)
  }

  /** The sender label of a transcript line. */
  function SenderLabel(sender: Sender): string {
    if sender == Operator then "MQA Bot" else "You"
  }

  /** What `loadChatHistory` takes from a parsed snapshot: the messages, or
      none when the field is missing, and the category, or null when it is
      missing or empty. */
  function RestoredMessages(s: Snapshot): seq<Message> {
    s.messages.GetOr([])
  }

  function RestoredCategory(s: Snapshot): (r: Option<string>)
    ensures r.None? <==> !Truthy(s.selectedCategory)
    ensures r.Some? ==> r == s.selectedCategory
  {
    if Truthy(s.selectedCategory) then s.selectedCategory else None
  }

  /** Saving and loading again restores the log and the category, unless the
      category was the empty string, which reads back as none. */
  lemma SaveLoadRoundTrip(messages: seq<Message>, category: Option<string>, now: string)
    ensures RestoredMessages(Snapshot(Some(messages), category, now)) == messages
    ensures RestoredCategory(Snapshot(Some(messages), category, now))
         == if category == Some("") then None else category
  {
  }

  // ---------------------------------------------------------------------------
  // The downloadable transcript (`formatChatForDownload`, `downloadChat`).
  // The local clock format and the markup stripping belong to the browser and
  // are parameters: `clock` turns a stored timestamp into the shown time,
  // `strip` turns message markup into its text content.

  const Rule := "=========================="
  const TranscriptFooter := "\n" + Rule + "\n" + "End of conversation log"

  function CategoryLine(category: Option<string>): (r: string)
    ensures !Truthy(category) ==> r == "Not selected"
    ensures Truthy(category) ==> r == Catalog.CategoryName(category)
  {
    if Truthy(category) then Catalog.CategoryName(category) else "Not selected"
  }

  function TranscriptHeader(generated: string, category: Option<string>): string {
    "MQA Chat Conversation Log\n" + Rule + "\n\n" + "Generated: " + generated + "\n"
    + "Category: " + CategoryLine(category) + "\n" + Rule + "\n\n"
  }

  /** One transcript line: time, sender label and the text on one line. */
  function TranscriptLine(m: Message, clock: string -> string, strip: string -> string): string {
    "[" + clock(m.timestamp) + "] " + SenderLabel(m.sender) + ": " + ReplaceChar(strip(m.text), '\n', " ") + "\n"
  }

  function LineOf(clock: string -> string, strip: string -> string): Message -> string {
    m => TranscriptLine(m, clock, strip)
  }

  function TranscriptBody(ms: seq<Message>, clock: string -> string, strip: string -> string): string {
    ConcatMap(ms, LineOf(clock, strip))
  }

  function Transcript(generated: string, category: Option<string>, ms: seq<Message>,
                      clock: string -> string, strip: string -> string): string
  {
    TranscriptHeader(generated, category) + TranscriptBody(ms, clock, strip) + TranscriptFooter
  }

  /** The download's file name: the ISO date and the local time with its
      colons turned into dashes. */
  function DownloadName(isoNow: string, timeNow: string): (r: string)
    ensures StartsWith(r, "mqa_chat_")
    ensures ':' !in Prefix(isoNow, 10) ==> ':' !in r
  {
    "mqa_chat_" + Prefix(isoNow, 10) + "_" + ReplaceChar(Prefix(timeNow, 8), ':', "-") + ".txt"
  }

  /** The first `n` characters, or all of a shorter string (`slice(0, n)`). */
  function Prefix(s: string, n: nat): (r: string)
    ensures |r| <= n && StartsWith(s, r)
    ensures |s| >= n ==> |r| == n
    ensures |s| <= n ==> r == s
  {
    if |s| <= n then s else s[..n]
  }

  /** Each message contributes exactly one line, whatever newlines its text
      held. */
  lemma {:induction false} LineIsOneLine(m: Message, clock: string -> string, strip: string -> string)
    requires '\n' !in clock(m.timestamp)
    ensures Occurrences(TranscriptLine(m, clock, strip), '\n') == 1
  {
    var text := ReplaceChar(strip(m.text), '\n', " ");
    var head := "[" + clock(m.timestamp) + "] " + SenderLabel(m.sender) + ": ";
    HeadHasNoNewline(m, clock);
    assert '\n' !in " ";
    OccurrencesAppend(head, text, '\n');
    OccurrencesAppend(head + text, "\n", '\n');
    assert Occurrences("\n", '\n') == 1;
    assert TranscriptLine(m, clock, strip) == head + text + "\n";
  }

  lemma HeadHasNoNewline(m: Message, clock: string -> string)
    requires '\n' !in clock(m.timestamp)
    ensures '\n' !in "[" + clock(m.timestamp) + "] " + SenderLabel(m.sender) + ": "
  {
    var a := "[" + clock(m.timestamp);
    LabelHasNoNewline(m.sender);
    assert '\n' !in a;
    assert a + "] " + SenderLabel(m.sender) + ": " == a + ("] " + SenderLabel(m.sender) + ": ");
  }

  lemma LabelHasNoNewline(sender: Sender)
    ensures '\n' !in "] " + SenderLabel(sender) + ": "
  {
    if sender == Operator {
      assert "] " + SenderLabel(sender) + ": " == "] MQA Bot: ";
    } else {
      assert "] " + SenderLabel(sender) + ": " == "] You: ";
    }
  }

  lemma BodyHasOneLinePerMessage(ms: seq<Message>, clock: string -> string, strip: string -> string)
    requires forall t :: '\n' !in clock(t)
    ensures Occurrences(TranscriptBody(ms, clock, strip), '\n') == |ms|
  {
    var line := LineOf(clock, strip);
    forall k | 0 <= k < |ms|
      ensures Occurrences(line(ms[k]), '\n') == 1
    {
      LineIsOneLine(ms[k], clock, strip);
    }
    ConcatMapOccurrences(ms, line, '\n');
  }

  /** The transcript keeps the log's order: the lines of a longer log extend
      those of its prefix. */
  lemma BodyAppend(ms1: seq<Message>, ms2: seq<Message>, clock: string -> string, strip: string -> string)
    ensures TranscriptBody(ms1 + ms2, clock, strip) == TranscriptBody(ms1, clock, strip) + TranscriptBody(ms2, clock, strip)
  {
    ConcatMapAppend(ms1, ms2, LineOf(clock, strip));
  }

  class Chatbox {
    var isOpen: bool
    var messages: seq<Message>
    var selectedCategory: Option<string>
    var prompt: Prompt
    /** The profile image last selected; `None` while the page still shows the
        image its markup starts with. */
    var image: Option<string>
    /** The browser storage's history key. */
    var storage: Slot

    /** The stored snapshot holds the current log and category. */
    ghost predicate Persisted()
      reads this
    {
      storage.Saved? && storage.snapshot.messages == Some(messages)
      && storage.snapshot.selectedCategory == selectedCategory
    }

    /** `new Chatbox()` followed by `init()`: an empty, closed widget that then
        loads the stored history. */
    constructor (stored: Slot)
      ensures !isOpen && prompt == NoPrompt
      ensures stored.Empty? ==> messages == [] && selectedCategory == None && image == None && storage == Empty
      ensures stored.Corrupt? ==> messages == [] && selectedCategory == None && image == None && storage == Empty
      ensures stored.Saved? ==>
        && messages == RestoredMessages(stored.snapshot)
        && selectedCategory == RestoredCategory(stored.snapshot)
        && image == (if selectedCategory.Some? then Some(Catalog.ImageFor(selectedCategory)) else None)
        && storage == stored
    {
      isOpen := false;
      messages := [];
      selectedCategory := None;
      prompt := NoPrompt;
      image := None;
      storage := stored;
      new;
      LoadChatHistory();
    }

    // -------------------------------------------------------------------------
    // Persistence

    /** `loadChatHistory`. */
    method LoadChatHistory()
      modifies this`messages, this`selectedCategory, this`image, this`storage
      ensures old(storage).Empty? ==>
        messages == old(messages) && selectedCategory == old(selectedCategory) && image == old(image) && storage == Empty
      ensures old(storage).Corrupt? ==>
        messages == [] && selectedCategory == None && image == old(image) && storage == Empty
      ensures old(storage).Saved? ==>
        && messages == RestoredMessages(old(storage).snapshot)
        && selectedCategory == RestoredCategory(old(storage).snapshot)
        && image == (if selectedCategory.Some? then Some(Catalog.ImageFor(selectedCategory)) else old(image))
        && storage == old(storage)
    {
      match storage
      case Empty =>
      case Corrupt =>
        ClearChatHistory();
      case Saved(snapshot) =>
        messages := RestoredMessages(snapshot);
        selectedCategory := RestoredCategory(snapshot);
        if selectedCategory.Some? {
          image := Some(Catalog.ImageFor(selectedCategory));
        }
    }

    /** `saveChatHistory`: the snapshot replaces whatever was stored. */
    method SaveChatHistory(now: string)
      modifies this`storage
      ensures storage == Saved(Snapshot(Some(messages), selectedCategory, now))
      ensures Persisted()
    {
      storage := Saved(Snapshot(Some(messages), selectedCategory, now));
    }

    /** `clearChatHistory`. */
    method ClearChatHistory()
      modifies this`messages, this`selectedCategory, this`storage
      ensures storage == Empty && messages == [] && selectedCategory == None
    {
      storage := Empty;
      messages := [];
      selectedCategory := None;
    }

    /** `addMessage`: the one place the log grows, by exactly one message at
        its end, after which the history is saved. */
    method AddMessage(text: string, sender: Sender, now: string)
      modifies this`messages, this`storage
      ensures messages == old(messages) + [Message(text, sender, now)]
      ensures storage == Saved(Snapshot(Some(messages), selectedCategory, now))
      ensures Persisted()
    {
      messages := messages + [Message(text, sender, now)];
      SaveChatHistory(now);
    }

    method ShowWelcomeMessage(now: string)
      modifies this`messages, this`storage
      ensures messages == old(messages) + WelcomeMessages(now)
      ensures storage == Saved(Snapshot(Some(messages), selectedCategory, now))
    {
      AddMessage(WelcomeText, Operator, now);
      AddMessage(ChooseCategoryText, Operator, now);
    }

    // -------------------------------------------------------------------------
    // Opening, closing, resetting

    /** `toggleState`: opening an empty widget greets the visitor and offers
        the categories; opening one with history re-renders it and offers the
        categories only when none is selected; closing hides the widget. */
    method ToggleState(now: string)
      modifies this`isOpen, this`messages, this`storage, this`prompt
      ensures isOpen == !old(isOpen)
      ensures !isOpen ==> messages == old(messages) && storage == old(storage) && prompt == old(prompt)
      ensures isOpen && old(messages) == [] ==>
        && messages == WelcomeMessages(now) && prompt == CategoryMenu
        && storage == Saved(Snapshot(Some(messages), selectedCategory, now))
      ensures isOpen && old(messages) != [] ==>
        && messages == old(messages) && storage == old(storage)
        && prompt == (if Truthy(selectedCategory) then NoPrompt else CategoryMenu)
    {
      isOpen := !isOpen;
      if isOpen {
        if messages == [] {
          ShowWelcomeMessage(now);
          prompt := CategoryMenu;
        } else {
          prompt := if Truthy(selectedCategory) then NoPrompt else CategoryMenu;
        }
      }
    }

    /** `resetChat`: once the visitor confirms, the history is wiped and the
        conversation starts over with the two welcome messages. */
    method ResetChat(confirmed: bool, now: string)
      modifies this`messages, this`selectedCategory, this`storage, this`image, this`prompt
      ensures !confirmed ==>
        && messages == old(messages) && selectedCategory == old(selectedCategory)
        && storage == old(storage) && image == old(image) && prompt == old(prompt)
      ensures confirmed ==>
        && messages == WelcomeMessages(now) && selectedCategory == None
        && storage == Saved(Snapshot(Some(messages), None, now))
        && image == Some(Catalog.DefaultImage) && prompt == CategoryMenu
    {
      if confirmed {
        ClearChatHistory();
        image := Some(Catalog.ImageFor(None));
        ShowWelcomeMessage(now);
        prompt := CategoryMenu;
      }
    }

    // -------------------------------------------------------------------------
    // Navigation

    /** A click on a category button of `showMainCategories`. */
    method PickCategory(tab: nat, now: string)
      requires tab < |Catalog.CategoryTabs|
      modifies this`selectedCategory, this`messages, this`storage, this`image, this`prompt
      ensures selectedCategory == Some(Catalog.CategoryTabs[tab].0)
      ensures messages == old(messages) + [Message("Selected: " + Catalog.CategoryTabs[tab].1, Visitor, now)]
      ensures Persisted()
      ensures image == Some(Catalog.ImageFor(selectedCategory))
      ensures Catalog.CategoryTabs[tab].0 == "apel" ==> prompt == SubCategoryMenu
      ensures Catalog.CategoryTabs[tab].0 != "apel" ==>
        prompt == QuestionMenu(Catalog.CategoryName(selectedCategory), Catalog.QuestionsFor(selectedCategory))
    {
      var (id, name) := Catalog.CategoryTabs[tab];
      selectedCategory := Some(id);
      AddMessage("Selected: " + name, Visitor, now);
      image := Some(Catalog.ImageFor(selectedCategory));
      if id == "apel" {
        prompt := SubCategoryMenu;
      } else {
        prompt := QuestionMenu(Catalog.CategoryName(selectedCategory), Catalog.QuestionsFor(selectedCategory));
      }
    }

    /** A click on a sub-category button of `showApelSubCategories`: the APEL
        image stays. */
    method PickSubCategory(tab: nat, now: string)
      requires tab < |Catalog.SubCategoryTabs|
      modifies this`selectedCategory, this`messages, this`storage, this`image, this`prompt
      ensures selectedCategory == Some(Catalog.SubCategoryTabs[tab].0)
      ensures messages == old(messages)
        + [Message("Selected: " + Catalog.ApelSubCategories[Catalog.SubCategoryTabs[tab].0], Visitor, now)]
      ensures Persisted()
      ensures image == Some(Catalog.ImageFor(Some("apel")))
      ensures prompt == QuestionMenu(Catalog.ApelSubCategories[Catalog.SubCategoryTabs[tab].0],
                                     Catalog.SubQuestionsFor(Catalog.SubCategoryTabs[tab].0))
    {
      Catalog.SubCategoryTabsConsistent(tab);
      var id := Catalog.SubCategoryTabs[tab].0;
      selectedCategory := Some(id);
      AddMessage("Selected: " + Catalog.ApelSubCategories[id], Visitor, now);
      image := Some(Catalog.ImageFor(Some("apel")));
      prompt := QuestionMenu(Catalog.ApelSubCategories[id], Catalog.SubQuestionsFor(id));
    }

    /** A click on a button of a question list (`showCategoryQuestions` and
        `showSubCategoryQuestions` install the same handler): the custom
        button asks for free text, any other question is echoed and answered
        from the catalog, then the follow-up menu is offered. */
    method ChooseQuestion(question: string, now: string)
      modifies this`messages, this`storage, this`prompt
      ensures question == Catalog.CustomQuestionLabel ==>
        && messages == old(messages) + [Message(question, Visitor, now)]
        && prompt == CustomQuestionPrompt(Catalog.CategoryName(selectedCategory))
      ensures question != Catalog.CustomQuestionLabel ==>
        && messages == old(messages) + [Message(question, Visitor, now),
                                        Message(CannedReply(selectedCategory, question), Operator, now)]
        && prompt == FollowUpMenu(FollowUpActions(selectedCategory))
      ensures Persisted()
    {
      if question == Catalog.CustomQuestionLabel {
        AddMessage(Catalog.CustomQuestionLabel, Visitor, now);
        prompt := CustomQuestionPrompt(Catalog.CategoryName(selectedCategory));
      } else {
        AddMessage(question, Visitor, now);
        AddMessage(CannedReply(selectedCategory, question), Operator, now);
        prompt := FollowUpMenu(FollowUpActions(selectedCategory));
      }
    }

    /** A click on a follow-up button. Only the contact button appends (and so
        saves); the category changes made here are not saved until the next
        message. */
    method ChooseFollowUp(action: FollowUpAction, now: string)
      modifies this`selectedCategory, this`messages, this`storage, this`image, this`prompt
      ensures action != ContactMqa ==> messages == old(messages) && storage == old(storage)
      ensures action.MoreQuestions? ==>
        && selectedCategory == old(selectedCategory) && image == old(image)
        && prompt == QuestionMenu(Catalog.CategoryName(selectedCategory), Catalog.QuestionsFor(selectedCategory))
      ensures action.BackToApel? ==>
        selectedCategory == Some("apel") && image == old(image) && prompt == SubCategoryMenu
      ensures action.ChangeCategory? ==>
        selectedCategory == None && image == Some(Catalog.DefaultImage) && prompt == CategoryMenu
      ensures action.ContactMqa? ==>
        && messages == old(messages) + [Message(ContactText, Operator, now)] && Persisted()
        && selectedCategory == old(selectedCategory) && image == old(image) && prompt == NoPrompt
      ensures action.CustomQuestion? ==>
        && selectedCategory == old(selectedCategory) && image == old(image)
        && prompt == CustomQuestionPrompt(Catalog.CategoryName(selectedCategory))
    {
      match action
      case MoreQuestions =>
        prompt := QuestionMenu(Catalog.CategoryName(selectedCategory), Catalog.QuestionsFor(selectedCategory));
      case BackToApel =>
        selectedCategory := Some("apel");
        prompt := SubCategoryMenu;
      case ChangeCategory =>
        selectedCategory := None;
        image := Some(Catalog.ImageFor(None));
        prompt := CategoryMenu;
      case ContactMqa =>
        AddMessage(ContactText, Operator, now);
        prompt := NoPrompt;
      case CustomQuestion =>
        prompt := CustomQuestionPrompt(Catalog.CategoryName(selectedCategory));
    }

    // -------------------------------------------------------------------------
    // Download

    /** `formatChatForDownload`: header, one line per message in log order,
        footer. */
    method FormatChatForDownload(generated: string, clock: string -> string, strip: string -> string)
      returns (content: string)
      ensures content == Transcript(generated, selectedCategory, messages, clock, strip)
    {
      var lines := "";
      var i := 0;
      while i < |messages|
        invariant 0 <= i <= |messages|
        invariant lines == TranscriptBody(messages[..i], clock, strip)
      {
        ConcatMapStep(messages, i, LineOf(clock, strip));
        lines := lines + LineOf(clock, strip)(messages[i]);
        i := i + 1;
      }
      assert messages[..i] == messages;
      content := TranscriptHeader(generated, selectedCategory) + lines + TranscriptFooter;
    }

    /** `downloadChat`: an empty log gives no file (the visitor is told there
        is nothing to download); otherwise the file's name and contents. */
    method DownloadChat(isoNow: string, timeNow: string, generated: string,
                        clock: string -> string, strip: string -> string)
      returns (file: Option<(string, string)>)
      ensures file.None? <==> messages == []
      ensures file.Some? ==>
        file.value == (DownloadName(isoNow, timeNow), Transcript(generated, selectedCategory, messages, clock, strip))
    {
      if |messages| == 0 {
        return None;
      }
      var content := FormatChatForDownload(generated, clock, strip);
      file := Some((DownloadName(isoNow, timeNow), content));
    }

    // -------------------------------------------------------------------------
    // Free text

    /** `onSendButton` with the outcome of its `/predict` call: blank input
        does nothing; without a category the visitor is asked to choose one
        and no request goes out; otherwise the trimmed text alone is sent and
        the reply becomes one operator message. */
    method OnSendButton(input: string, reply: Reply, now: string) returns (request: Option<PredictRequest>)
      modifies this`messages, this`storage, this`prompt
      ensures Trim(input) == "" ==>
        request == None && messages == old(messages) && storage == old(storage) && prompt == old(prompt)
      ensures Trim(input) != "" && !Truthy(selectedCategory) ==>
        && request == None && Persisted() && prompt == CategoryMenu
        && messages == old(messages) + [Message(Trim(input), Visitor, now), Message(SelectCategoryFirstText, Operator, now)]
      ensures Trim(input) != "" && Truthy(selectedCategory) ==>
        && request == Some(PredictRequest(Trim(input))) && Persisted()
        && messages == old(messages) + [Message(Trim(input), Visitor, now), Message(ReplyText(reply), Operator, now)]
        && prompt == (if ShowsFollowUp(reply) then FollowUpMenu(FollowUpActions(selectedCategory)) else old(prompt))
    {
      var text := Trim(input);
      if text == "" {
        return None;
      }
      if !Truthy(selectedCategory) {
        AskForCategory(text, now);
        return None;
      }
      request := Some(PredictRequest(text));
      ShowReply(text, reply, now);
    }

    /** The branch of `onSendButton` taken without a category. */
    method AskForCategory(text: string, now: string)
      modifies this`messages, this`storage, this`prompt
      ensures Persisted() && prompt == CategoryMenu
      ensures messages == old(messages) + [Message(text, Visitor, now), Message(SelectCategoryFirstText, Operator, now)]
    {
      AddMessage(text, Visitor, now);
      AddMessage(SelectCategoryFirstText, Operator, now);
      prompt := CategoryMenu;
    }

    /** The branch of `onSendButton` that sends the question: the question,
        then the reply, and the follow-up menu after an answer. */
    method ShowReply(text: string, reply: Reply, now: string)
      modifies this`messages, this`storage, this`prompt
      ensures Persisted()
      ensures messages == old(messages) + [Message(text, Visitor, now), Message(ReplyText(reply), Operator, now)]
      ensures prompt == (if ShowsFollowUp(reply) then FollowUpMenu(FollowUpActions(selectedCategory)) else old(prompt))
    {
      AddMessage(text, Visitor, now);
      AddMessage(ReplyText(reply), Operator, now);
      if ShowsFollowUp(reply) {
        prompt := FollowUpMenu(FollowUpActions(selectedCategory));
      }
    }
  }
}
