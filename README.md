# MQA chat assistant: a verified model of its conversation engine and answer pipeline

This project is a Dafny model of the two places where the MQA chat assistant
keeps its logic.

- **The browser widget** (`static/app.js`, class `Chatbox`). It holds the open
  flag, the append-only message log, the selected category, and the history
  saved in the browser's storage. One click handler exists for each menu:
  main categories, APEL sub-categories, question lists and the follow-up
  buttons. It also has the free-text send button, the `/predict` reply
  mapping, the downloadable transcript, and the link rewriter applied to
  operator messages.
- **The server's answer pipeline** (`chat.py`, class `ChatBot`). It covers the
  regional endpoint table, URL sanitising, answer formatting (line breaks
  and clickable links), and text extraction from a Dialogflow CX
  detect-intent response. It also covers the fallback replies and the
  input/answer branching of `chat`.

Modules:

| file | module | models |
|---|---|---|
| `wrappers.dfy` | `Wrappers` | `Option` |
| `text.dfy` | `Text` | the string operations: prefixes, containment, `trim`/`strip`, replace, split/join, counting |
| `catalog.dfy` | `Catalog` | the widget's static tables: category and sub-category buttons, images, names, canned answers, question lists |
| `markup.dfy` | `Markup` | `_escapeHtml` (as entity escaping) and `_ensureUrlSafety` |
| `conversation.dfy` | `Conversation` | the `Chatbox` class, its handlers, its persistence and the transcript |
| `chatbot.dfy` | `ChatBot` | `chat.py`'s formatting, extraction, fallback and `chat` |
| `scenarios.dfy` | `Scenarios` | whole visits built from the handlers |

`Chatbox` is a Dafny class, and its handlers are methods over its fields.
Each `modifies` clause names exactly the fields the handler writes. The
browser's history key is the field `storage`, an abstract slot. It is
either empty, holds something that does not parse (`Corrupt`), or holds a
parsed snapshot. The menu on screen, which the page keeps only as DOM
containers, is the field `prompt`. The profile image is the field `image`.
Each handler runs to completion before the next starts. A timer delay
becomes plain sequencing, and one timestamp `now` serves a whole handler.

`chat.py`'s loops (`_extract_response_text` and `_format_response`) are
methods with loop invariants. Each one is proved equal to a specification
function that follows the code as written, and the properties are proved
about that function. Where the code misbehaves (see Findings), a corrected
function is defined beside the as-written one. The properties that still
hold are proved about both, and the one that fails is shown by a concrete
input. In the same way, `CallVertexAiAgent` is the method and `AgentReply`
the function that specifies it, and `ChatAsWritten` and `Chat` are `chat`
with the as-written and the corrected formatting. The Python
library calls `urlparse` and `quote` are function parameters, as are the
browser's locale clock and `_stripHtml`. The `str()` rendering of a
response is a field of the response.

## Model

| member | source | states |
|---|---|---|
| `Conversation.Chatbox.constructor` | static/app.js:123-131 | A new widget is closed with no menu. It then loads the history: an empty or corrupt slot leaves an empty log with no category and an empty slot; a saved snapshot restores its log and category and selects that category's image |
| `Conversation.Chatbox.LoadChatHistory` | static/app.js:160-176 | With nothing stored, nothing changes. A corrupt entry clears the slot, the log and the category. A snapshot supplies its messages (`[]` when they are missing) and its category (null when it is missing or empty); a restored category selects its image |
| `Conversation.Chatbox.SaveChatHistory` | static/app.js:178-185 | The slot afterwards holds exactly the current log and category with the save time, replacing what was there |
| `Conversation.Chatbox.ClearChatHistory` | static/app.js:187-191 | Afterwards the slot is empty, the log is empty and no category is selected, whatever the state before |
| `Conversation.Chatbox.AddMessage` | static/app.js:653-658 | The log grows by exactly one message `{text, sender, now}` at its end, every earlier message is kept, and the slot then holds the new log and the category |
| `Conversation.Chatbox.ShowWelcomeMessage` | static/app.js:231-234 | The log gains the two welcome operator messages, in order, and is saved |
| `Conversation.Chatbox.ToggleState` | static/app.js:214-229 | The open flag flips. Closing changes nothing else. Opening an empty widget greets the visitor and offers the categories. Opening one with history keeps the log and the slot, and offers the categories only when no category is selected |
| `Conversation.Chatbox.ResetChat` | static/app.js:681-689 | Unconfirmed, nothing changes. Once confirmed, the log is exactly the two welcome messages, no category is selected, the slot holds just that, the default image is shown and the categories are offered |
| `Conversation.Chatbox.PickCategory` | static/app.js:260-273 | The clicked category becomes the selected one, exactly one visitor message "Selected: label" is appended and saved, and its image is selected. APEL leads to the sub-category menu; every other category leads to its own question list as the widget lists it |
| `Conversation.Chatbox.PickSubCategory` | static/app.js:300-309 | The sub-category id becomes the selected category, exactly one visitor message "Selected: " + its label is appended and saved, the APEL image is selected and that sub-category's questions are listed |
| `Conversation.Chatbox.ChooseQuestion` | static/app.js:463-475 | For "Ask a custom question", the label itself is appended as one visitor message and the custom prompt is shown. For any other question, the question and then exactly one operator message (the canned answer, or the apology on a miss) are appended and saved, and the follow-up menu is shown |
| `Conversation.Chatbox.ChooseFollowUp` | static/app.js:535-561 | Only the contact button appends (one operator message, category unchanged); the others leave the log and the slot alone. Back-to-APEL selects "apel" and shows the sub-categories. Change-category clears the category, selects the default image and offers the categories. More-questions and custom-question keep the category |
| `Conversation.Chatbox.OnSendButton` | static/app.js:601-651 | Input that is blank after trimming changes nothing and sends nothing. Without a category, the trimmed text and "Please select a category first" are appended, the categories are offered and no request goes out. Otherwise the request carries only the trimmed text, the text and the reply's message are appended and saved, and the follow-up menu appears only after an answer |
| `Conversation.Chatbox.AskForCategory` | static/app.js:607-613 | The visitor's text and "Please select a category first" are appended and saved, and the categories are offered |
| `Conversation.Chatbox.ShowReply` | static/app.js:607-650 | The visitor's text and then one operator message for the reply are appended and saved; the follow-up menu replaces the prompt only after an answer |
| `Conversation.Chatbox.FormatChatForDownload` | static/app.js:715-735 | The transcript is the header, then one line per logged message in log order, then the footer |
| `Conversation.Chatbox.DownloadChat` | static/app.js:691-713 | A file is produced if and only if the log is not empty; its name and content are the transcript's |
| `Conversation.FollowUpActions` | static/app.js:513-533 | The menu has four buttons, always ending with change-category, contact and custom-question. Back-to-APEL is offered, in place of more-questions, exactly when the selected category starts with "apel-" |
| `Conversation.CannedReply` | static/app.js:502-509 | A non-empty catalog entry for the selected category and question is the reply; a missing or empty one gives the fixed apology |
| `Conversation.ReplyText` | static/app.js:628-650 | A failed request gives the fixed apology. A body with a truthy error gives "Error: " + the error. Otherwise a truthy answer is shown as is, and anything else gives "No response received from server." |
| `Conversation.RenderedText` | static/app.js:660-679 | Visitor text is escaped: the escaped form holds no `<` and decodes back to the text. Operator text goes through the link rewriter |
| `Conversation.RestoredCategory` | static/app.js:166 | The category read back is null exactly when the stored one is missing or empty, and otherwise is the stored one |
| `Conversation.SaveLoadRoundTrip` | static/app.js:165-184 | Loading a saved snapshot gives back the saved log, and the saved category unless it was the empty string |
| `Conversation.CategoryLine` | static/app.js:719 | The transcript's category line is "Not selected" without a category, and the category's name otherwise |
| `Conversation.DownloadName` | static/app.js:701-705 | The file name starts with "mqa_chat_", and holds no colon when the date part has none |
| `Conversation.Prefix` | static/app.js:701-702 | `slice(0, n)`: a prefix of the input of length at most n; exactly n long when the input is long enough, and the whole input when it is no longer than n |
| `Conversation.LineIsOneLine` | static/app.js:722-728 | Every transcript line holds exactly one newline, its terminator, whatever newlines the message text held |
| `Conversation.BodyHasOneLinePerMessage` | static/app.js:722-729 | The transcript body has exactly as many newlines as the log has messages |
| `Conversation.BodyAppend` | static/app.js:722-729 | The transcript of a longer log is the transcript of its prefix followed by the lines of the rest |
| `Catalog.CategoryName` | static/app.js:566-582 | A listed category has its display name; anything else, including null, reads "this topic", and only those do |
| `Catalog.ImageFor` | static/app.js:592-598 | A category with an image has that image; null or any other category has the MQA logo |
| `Catalog.Lookup` | static/app.js:502 | An answer is found exactly when the category is in the catalog and the question is one of its keys, and it is the one stored under them |
| `Catalog.QuestionsFor` | static/app.js:388-438 | A category's question list exactly as the widget lists it, the framework question keeping its "(MQF)" wording, or no questions for an unknown category |
| `Catalog.SubQuestionsFor` | static/app.js:316-345 | A sub-category's question list, or none for an unknown one |
| `Catalog.ListedAsWrittenAnsweredExceptFramework` | static/app.js:388-438 | Every listed question except the first framework one has a canned answer |
| `Catalog.FrameworkListedQuestionUnanswered` | static/app.js:396-402 | The first framework question as listed has no answer key; only the differently worded key exists |
| `Catalog.EveryListedQuestionAnswered` | static/app.js:47-53 | With the framework question worded as its key, every listed question of every category has a canned answer |
| `Catalog.EverySubCategoryQuestionAnswered` | static/app.js:316-345 | Every listed question of every APEL sub-category has a canned answer |
| `Catalog.CategoryTabsConsistent` | static/app.js:245-253 | Each category button's label is that category's name; it has a question list and an image; its id is not an APEL sub-category |
| `Catalog.SubCategoryTabsConsistent` | static/app.js:287-292 | Each sub-category button's id is in the sub-category table, with the same label and name, starts with "apel-", has a question list, and has no image of its own |
| `Catalog.SubCategoryTabsCoverTable` | static/app.js:31-36 | Every sub-category of the table has a button |
| `Markup.EscapeHtml` | static/app.js:752-756 | The escaped text contains no `<` and no `>` |
| `Markup.EscapeRoundTrip` | static/app.js:752-756 | Decoding the entities of the escaped text gives the original text back |
| `Markup.RewriteHref` | static/app.js:745-748 | An absolute http or https target is kept and opens in a new context without a back-reference; any other target is disabled |
| `Markup.ClosingQuoteIsFirst` | static/app.js:744 | The target of `href="…"` runs to the first quote, and contains no line terminator (the lazy `.*?`) |
| `Markup.EnsureUrlSafety` | static/app.js:743-750 | The replace loop produces exactly the link-rewritten text |
| `Markup.RewritesOneLink` | static/app.js:744-749 | A target without quotes or line breaks, followed by its quote, is replaced by its rewrite, and the rest is processed further |
| `Markup.NoLinkUnchanged` | static/app.js:744 | Text with no `href="` anywhere is left unchanged |
| `Markup.ScriptLinkDisabled` | static/app.js:748 | A `javascript:` target becomes the disabled link |
| `Markup.SiteLinkOpensSafely` | static/app.js:746 | An https target keeps its URL and opens safely |
| `Text.Trim` | static/app.js:603 | The trimmed text is a slice of the input that drops only whitespace at both ends and neither starts nor ends with whitespace |
| `Text.TrimEmptyIff` | static/app.js:603-605 | The trimmed text is empty exactly when every character is whitespace |
| `ChatBot.ClientOptions` | chat.py:47-66 | An endpoint is given exactly for the nine listed regions, and it is the region followed by `-dialogflow.googleapis.com:443` |
| `ChatBot.WithScheme` | chat.py:112-113 | A URL already naming http or https is kept; any other gets `https://` in front; either way the result names http or https |
| `ChatBot.SanitizeUrl` | chat.py:107-131 | An empty URL gives nothing. Otherwise a result exists exactly when the prefixed URL parses with a non-empty host, and it starts with the parsed scheme and host |
| `ChatBot.UrlUnparse` | chat.py:120-127 | The unparsed URL starts with the scheme, `//` and the host, and holds no character that is in none of the six parts and none of `;/:?#` |
| `ChatBot.UrlMatch` | chat.py:142 | A match of the URL pattern is non-empty, begins with `http://`, `https://` or `www.`, consists of URL characters and stops only at the end or at a character that cannot be in a URL |
| `ChatBot.FindUrls` | chat.py:143 | Every URL found is a run of URL characters |
| `ChatBot.UrlInTextFound` | chat.py:142-143 | Every URL the pattern matches anywhere in the text is found: one of the found URLs ends where the match ends and starts at or before its start |
| `ChatBot.MatchesEndTogether` | chat.py:142 | A run of URL characters that starts inside a match ends where the match ends, at the same first non-URL character |
| `ChatBot.MatchRunEnds` | chat.py:142 | A match is a maximal run of URL characters: every character in it can be in a URL and the one after it, if any, cannot |
| `ChatBot.FoundUrlsOccur` | chat.py:143 | Every URL found occurs in the text |
| `ChatBot.NoUrlsFound` | chat.py:142-143 | A text without `http://`, `https://` or `www.` yields no URL |
| `ChatBot.BrText` | chat.py:139 | After the line-break substitution no newline is left |
| `ChatBot.FormatResponse` | chat.py:133-151 | The loop over the found URLs produces the formatted answer as written |
| `ChatBot.WrapUrlLinks` | chat.py:146-149 | A URL that does not sanitise leaves the text unchanged; after one that sanitises, the text contains that URL's anchor |
| `ChatBot.LinkOpensSafely` | chat.py:148 | Every anchor opens a new context without a back-reference and is longer than the URL it shows |
| `ChatBot.WrapUrlsGrows` | chat.py:145-149 | Wrapping URLs never shortens the answer |
| `ChatBot.WrapUrlsHasNoNewline` | chat.py:145-149 | Wrapping URLs in a text without newlines brings in none |
| `ChatBot.FormattedAsWrittenHasNoNewline` | chat.py:139-151 | The answer as `_format_response` returns it holds no newline |
| `ChatBot.FormatAsWrittenWithoutUrls` | chat.py:135-151 | As written, a falsy answer gives "No answer generated. Please try again."; an answer whose `<br>` text has no `http://`, `https://` or `www.` gives exactly that text |
| `ChatBot.FormattedAsWrittenNonEmpty` | chat.py:139-151 | As written, a non-empty answer formats to a non-empty text |
| `ChatBot.LinkifyWithoutUrls` | chat.py:143-151 | With the corrected one-pass linking, a text in which the pattern finds nothing is left as it is |
| `ChatBot.FormatWithoutUrls` | chat.py:135-151 | With the corrected linking, a falsy answer gives "No answer generated. Please try again."; an answer whose `<br>` text has no `http://`, `https://` or `www.` gives exactly that text |
| `ChatBot.FormattedHasNoNewline` | chat.py:139-151 | With the corrected linking, the formatted answer holds no newline |
| `ChatBot.LinkifyGrows` | chat.py:145-149 | The corrected linking never shortens the text |
| `ChatBot.DuplicateUrlWrappedTwice` | chat.py:145-149 | As written, an answer showing one sanitisable `www.` URL twice comes out longer than the two anchors side by side: the second pass rewrites inside the first pass's anchors |
| `ChatBot.DuplicateUrlLinkedOnce` | chat.py:145-149 | Linked in one pass, the same answer is exactly two anchors separated by the space |
| `ChatBot.LoneUrlAgrees` | chat.py:145-149 | For an answer that is a single URL, the loop as written and the one-pass linking agree and give its anchor |
| `ChatBot.TwiceFound` | chat.py:143 | In "u u" the pattern finds the URL twice |
| `ChatBot.CollectTexts` | chat.py:165-170 | The loop collects the strings of every text message, in message order, skipping the others |
| `ChatBot.PekelilingLines` | chat.py:215 | The kept lines are lines of the rendering that mention Pekeliling, no more of them than there are lines; every line that mentions it is kept, so at least one is when some line does |
| `ChatBot.PekelilingLinesAppend` | chat.py:215 | The filter keeps the lines' order: filtering two blocks of lines in turn gives the first block's kept lines, then the second's |
| `ChatBot.ExtractResponseText` | chat.py:153-226 | The cascade returns the joined response-message texts, else the fulfilment text, else the joined fulfilment-message texts, else the Pekeliling summary, else nothing |
| `ChatBot.ExtractedNothingIff` | chat.py:153-226 | Nothing is extracted exactly when there is no query result, or no source has text and the rendering does not mention Pekeliling |
| `ChatBot.PekelilingMentionFound` | chat.py:211-217 | A rendering that mentions Pekeliling always yields a summary starting with "Information about Pekeliling:\n" |
| `ChatBot.PekelilingSummaryBounded` | chat.py:214-217 | The summary holds at most ten lines after its header |
| `ChatBot.Lower` | chat.py:269 | Each character is lowered on its own, and the length is kept |
| `ChatBot.AgentReply` | chat.py:260-280 | An extracted answer is returned. Without one, the Pekeliling apology is returned exactly when the lowered query contains "pekeliling", and the generic one otherwise. The two call errors give their own fixed texts. The reply is never empty |
| `ChatBot.CallVertexAiAgent` | chat.py:228-280 | The call returns the reply the outcome determines |
| `ChatBot.ChatAsWritten` | chat.py:282-306 | A blank query gives "Please provide a valid question or message.". A blank agent reply gives the "couldn't find specific information" text. Otherwise the reply is the agent's answer formatted as `_format_response` is written. The sources are always empty and the answer is never empty |
| `ChatBot.Chat` | chat.py:282-306 | The same branches as `chat`, with the agent's answer formatted by the corrected one-pass linking. The sources are always empty and the answer is never empty |
| `ChatBot.FormattedNonEmpty` | chat.py:298-301 | With the corrected linking, a non-empty answer formats to a non-empty text |
| `Scenarios.FirstVisit` | static/app.js:214-234 | A first visit shows the two welcome messages and the categories, and saves them with no category |
| `Scenarios.ReturningVisit` | static/app.js:160-229 | A saved FAQ conversation comes back with its log, its category and the FAQ image, and opening offers no menu |
| `Scenarios.ChangeCategoryThenReload` | static/app.js:548-552 | After change-category the live category is null, but a reload brings the saved FAQ category back |
| `Scenarios.ResetThenReload` | static/app.js:681-689 | After a confirmed reset, whatever was stored, a reload shows only the welcome messages and no category |
| `Scenarios.FreeTextWithoutCategory` | static/app.js:601-614 | Free text sent before any category sends no request, asks the visitor to choose and offers the categories |
| `Scenarios.ApelCreditMenu` | static/app.js:279-345 | APEL then APEL.C selects "apel-c", lists its questions, and its follow-up menu offers back-to-APEL |
| `Scenarios.FrameworkFirstQuestion` | static/app.js:388-509 | Picking the framework category and clicking its first listed question, worded with "(MQF)", gets the "no pre-defined answer" apology |

## Left out

- DOM construction and rendering are not modelled: `innerHTML` templates, scrolling, the typing indicator, CSS classes, focus and the `<img>` `src`. Only the selected image and the menu on screen are kept.
- `setTimeout` delays and races between a pending answer or fetch and new clicks are not modelled. Each handler is atomic, so only the latest menu is in `prompt`.
- The browser's `localStorage` and JSON encoding are the abstract `Slot`. A value `JSON.parse` rejects is `Corrupt`, and the encoding itself is not modelled. A stored array whose own members are malformed is not distinguished.
- `fetch` is reduced to its outcome (`Reply`): failed, or a parsed body with its `error` and `answer` fields.
- `confirm` is the `confirmed` parameter of `ResetChat`, and `alert` is the `None` result of `DownloadChat`.
- The Blob, object URL and click that export the transcript are not modelled; `DownloadChat` returns the file name and content.
- Local time formatting is not modelled: `toLocaleTimeString`, `toLocaleString` and `toTimeString` are the `clock` parameter, the `generated` string and `timeNow`. One timestamp `now` stands for every `new Date()` of a handler.
- `_stripHtml` relies on the DOM's text content, so it is the `strip` parameter.
- `Markup.EscapeHtml`: `_escapeHtml` uses the DOM's serialiser. It is modelled as the serialiser's text escaping of `&`, `<`, `>` and the no-break space, which is an assumption about the browser.
- Property names such as `constructor` that every JavaScript object inherits are not modelled. The tables are treated as plain maps, so such a name finds no answer.
- `Text.Trim` covers the whitespace of ECMAScript's `trim`; `IsPyBlank` covers that of Python's `str.strip`.
- `ChatBot.Lower`: lowers only A–Z and the Kelvin sign, not every Unicode case mapping, because only the characters of "pekeliling" matter where it is used.
- `ChatBot.SanitizeUrl`: Python's `urlparse` and `quote` are parameters. The `except` around them is the parser returning `None`.
- `ChatBot.ExtractResponseText`: `str(response)` is the response's `rendered` field, and a failure to render is its `None`. The outer `except` that turns an attribute error into `None` is not modelled, because the abstract response has every attribute.
- `ChatBot.CallVertexAiAgent`: the detect-intent call is its `outcome` parameter. The session id, request construction, the 30-second timeout and logging are not modelled.
- `ChatBot.ChatAsWritten` and `ChatBot.Chat`: the outer `except` (chat.py:308-314) is not modelled, because nothing inside the modelled pipeline fails. `ChatAsWritten` formats with the loop as written (`ChatBot.FormatResponse`); `Chat` formats with the corrected one-pass linking (see Findings).
- Credentials loading and Vertex AI and Dialogflow client setup are not part of this model: `_get_credentials` and `_initialize_vertex_ai` do I/O. `ClientOptions` returns the endpoint string, not a `ClientOptions` object.
- app.py (Flask routing, rate limiting, sessions, credential paths) is not part of this model; it is I/O wiring around `chat`.
- A few points where the code differs from a plain reading of the widget's design, all modelled as the code does it:
  - Category changes made from the follow-up menu are not saved until the next message is added.
  - Failed, error and empty replies get no follow-up menu.
  - After a reload, a sub-category shows the default image, because sub-categories have no entry in the image table.

## Findings

| source | as written | input that shows it | evidently intended | confidence | as-written member | corrected member |
|---|---|---|---|---|---|---|
| static/app.js:397 | The framework list offers "What is the Malaysian Qualifications Framework (MQF)?", but the answer key at static/app.js:48 lacks "(MQF)", so the exact-key lookup misses | Clicking the first framework question shows the "no pre-defined answer" apology | Every listed question finds its canned answer | not executed | `Catalog.FrameworkListedQuestionUnanswered` | `Catalog.EveryListedQuestionAnswered` |
| chat.py:145-149 | Each found URL is replaced everywhere with `str.replace`. A URL found twice is therefore replaced again inside the anchors the first pass made, which nests anchors | The answer "www.mqa.gov.my www.mqa.gov.my" | Each occurrence becomes exactly one anchor | not executed | `ChatBot.DuplicateUrlWrappedTwice` | `ChatBot.DuplicateUrlLinkedOnce` |
