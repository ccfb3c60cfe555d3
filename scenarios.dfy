/** Whole visits to the widget, each a sequence of handler calls on a fresh
    `Chatbox`, with what the visitor ends up seeing or what the browser ends
    up storing. */
module Scenarios {

  import opened Wrappers
  import opened Text
  import Catalog
  import opened Conversation

  /** A first visit: nothing stored, the visitor opens the widget and is
      greeted, offered the categories, and the greeting is saved. */
  method FirstVisit(now: string) returns (log: seq<Message>, shown: Prompt, saved: Slot)
    ensures log == [Message(WelcomeText, Operator, now), Message(ChooseCategoryText, Operator, now)]
    ensures shown == CategoryMenu
    ensures saved == Saved(Snapshot(Some(log), None, now))
  {
    var box := new Chatbox(Empty);
    box.ToggleState(now);
    log, shown, saved := box.messages, box.prompt, box.storage;
  }

  /** A returning visitor with a saved FAQ conversation: the log and the
      category come back, the FAQ image is shown, and opening the widget
      offers no menu. */
  method ReturningVisit(log: seq<Message>, savedAt: string, now: string)
    returns (restored: seq<Message>, category: Option<string>, image: Option<string>, shown: Prompt)
    requires log != []
    ensures restored == log && category == Some("faq") && image == Some("faq.png") && shown == NoPrompt
  {
    var box := new Chatbox(Saved(Snapshot(Some(log), Some("faq"), savedAt)));
    box.ToggleState(now);
    restored, category, image, shown := box.messages, box.selectedCategory, box.image, box.prompt;
  }

  /** A category set aside with "Change category" is still the saved one:
      reloading the page brings the FAQ category back. */
  method ChangeCategoryThenReload(now: string) returns (live: Option<string>, afterReload: Option<string>)
    ensures live == None
    ensures afterReload == Some("faq")
  {
    var box := new Chatbox(Empty);
    box.ToggleState(now);
    box.PickCategory(6, now);
    box.ChooseFollowUp(ChangeCategory, now);
    live := box.selectedCategory;
    var reloaded := new Chatbox(box.storage);
    afterReload := reloaded.selectedCategory;
  }

  /** A confirmed reset, whatever was stored before: after a reload only the
      fresh greeting is left and no category is selected. */
  method ResetThenReload(stored: Slot, now: string) returns (log: seq<Message>, category: Option<string>)
    ensures log == [Message(WelcomeText, Operator, now), Message(ChooseCategoryText, Operator, now)]
    ensures category == None
  {
    var box := new Chatbox(stored);
    box.ResetChat(true, now);
    var reloaded := new Chatbox(box.storage);
    log, category := reloaded.messages, reloaded.selectedCategory;
  }

  /** Typing a question before choosing a category: no request goes out,
      the visitor is asked to choose, and the categories are offered. */
  method FreeTextWithoutCategory(input: string, reply: Reply, now: string)
    returns (request: Option<PredictRequest>, last: Message, shown: Prompt)
    requires Trim(input) != ""
    ensures request == None
    ensures last == Message(SelectCategoryFirstText, Operator, now)
    ensures shown == CategoryMenu
  {
    var box := new Chatbox(Empty);
    request := box.OnSendButton(input, reply, now);
    last, shown := box.messages[1], box.prompt;
  }

  /** An APEL visitor picks APEL, then APEL.C: the APEL.C questions are
      listed, and a follow-up menu for that category leads back to the APEL
      sub-categories. */
  method ApelCreditMenu(now: string) returns (category: Option<string>, shown: Prompt)
    ensures category == Some("apel-c")
    ensures shown == QuestionMenu(Catalog.ApelSubCategories["apel-c"], Catalog.SubCategoryQuestions["apel-c"])
    ensures BackToApel in FollowUpActions(category)
  {
    var box := new Chatbox(Empty);
    assert Catalog.CategoryTabs[5].0 == "apel";
    box.PickCategory(5, now);
    assert Catalog.SubCategoryTabs[1].0 == "apel-c";
    box.PickSubCategory(1, now);
    category, shown := box.selectedCategory, box.prompt;
    Catalog.SubCategoryTabsConsistent(1);
  }

  /** A fresh widget on which the visitor picked the framework category: its
      question list is on screen. */
  method FrameworkMenu(now: string) returns (box: Chatbox)
    ensures fresh(box)
    ensures box.selectedCategory == Some("framework")
    ensures box.prompt.QuestionMenu? && box.prompt.questions != []
    ensures box.prompt.questions[0] == Catalog.FrameworkListedQuestion
  {
    Catalog.FrameworkMenuLeadsToMiss();
    box := new Chatbox(Empty);
    box.PickCategory(1, now);
  }

  /** The framework list's first button as the visitor sees it: its wording
      carries "(MQF)", which the answer table does not, so the visitor gets
      the apology instead of the framework answer. */
  method FrameworkFirstQuestion(now: string) returns (asked: string, answer: Message)
    ensures asked == Catalog.FrameworkListedQuestion
    ensures answer == Message(NoAnswerText, Operator, now)
  {
    var box := FrameworkMenu(now);
    FrameworkQuestionApology();
    asked := box.prompt.questions[0];
    assert asked != Catalog.CustomQuestionLabel;
    box.ChooseQuestion(asked, now);
    answer := box.messages[|box.messages| - 1];
  }
}
