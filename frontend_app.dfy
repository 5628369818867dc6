/**
 * The chat page of the frontend (`frontend/src/App.js`): extracting the
 * final answer from a raw ReAct response, and the chat-history and
 * feedback state that the submit and feedback handlers update.
 *
 * The clock (`Date.now()`) and the server's reply are parameters; the
 * bodies the page would POST are returned instead of being sent.
 */
module FrontendApp {
  import opened Wrappers
  import opened Text
  import opened ActionRegex

  // -----------------------------------------------------------------------
  // parseFinalAnswer (App.js:7-10)
  // -----------------------------------------------------------------------

  /**
   * What the page shows for the result `m` of
   * `/Action:\s*finish\((.*)\)/s.exec(response)`: the trimmed capture when
   * it is not empty, otherwise the response itself.
   */
  function AnswerFrom(response: string, m: Option<Found>): (answer: string)
    requires m.Some? ==> m.value.open < m.value.close <= |response|
    ensures m.None? || m.value.open + 1 == m.value.close ==> answer == response
    ensures m.Some? && m.value.open + 1 < m.value.close ==> IsStripped(answer, JavaScript)
  {
    match m
    case None => response
    case Some(a) =>
      var captured := response[a.open + 1..a.close];
      if captured != [] then Strip(captured, JavaScript) else response
  }

  /** `parseFinalAnswer`: the shown answer for the leftmost match of the frontend pattern. */
  function ParseFinalAnswer(response: string): (answer: string)
    ensures FindAction(response, JavaScript, JsVerbs).None? ==> answer == response
    ensures FindAction(response, JavaScript, JsVerbs).Some? ==>
              var a := FindAction(response, JavaScript, JsVerbs).value;
              var captured := response[a.open + 1..a.close];
              && (captured == [] ==> answer == response)
              && (captured != [] ==> answer == Strip(captured, JavaScript))
  {
    AnswerFrom(response, FindAction(response, JavaScript, JsVerbs))
  }

  /**
   * The capture is what lies between the `(` right after the leftmost
   * `Action:`, white space and `finish`, and the last `)` of the response.
   */
  lemma ParseFinalAnswerCapture(response: string)
    requires FindAction(response, JavaScript, JsVerbs).Some?
    ensures var a := FindAction(response, JavaScript, JsVerbs).value;
            && a.verb == "finish"
            && StartsAt(response, a.open - |"finish"|, "finish(")
            && response[a.close] == ')'
            && Lacks(response[a.close + 1..], ')')
            && (forall p: nat, b: Found | p < a.start :: !IsActionMatchAt(response, p, JavaScript, JsVerbs, b))
  {
    VerbsAreWords();
    FindActionIsLeftmost(response, JavaScript, JsVerbs);
    var a := FindAction(response, JavaScript, JsVerbs).value;
    assert a.verb == JsVerbs[0];
    assert a.verb + "(" == "finish(";
  }

  /** Whatever the match, the shown answer is a part of the response. */
  lemma AnswerFromIsSubstring(response: string, m: Option<Found>)
    requires m.Some? ==> m.value.open < m.value.close <= |response|
    ensures IsSubstring(AnswerFrom(response, m), response)
  {
    if m.Some? && m.value.open + 1 < m.value.close {
      StripOfSliceIsSubstring(response, m.value.open + 1, m.value.close, JavaScript);
    } else {
      SubstringRefl(response);
    }
  }

  /** The answer is always a part of the response. */
  lemma ParseFinalAnswerIsSubstring(response: string)
    ensures IsSubstring(ParseFinalAnswer(response), response)
  {
    AnswerFromIsSubstring(response, FindAction(response, JavaScript, JsVerbs));
  }

  /** After a match with a non-empty capture the answer has no white space at either end. */
  lemma ParseFinalAnswerIsTrimmed(response: string)
    requires FindAction(response, JavaScript, JsVerbs).Some?
    requires var a := FindAction(response, JavaScript, JsVerbs).value; a.open + 1 < a.close
    ensures IsStripped(ParseFinalAnswer(response), JavaScript)
  {
  }

  /** A response without a colon needs no parsing. */
  lemma PlainResponseUnchanged(response: string)
    requires forall k | 0 <= k < |response| :: response[k] != ':'
    ensures ParseFinalAnswer(response) == response
  {
    NoColonNoAction(response, JavaScript, JsVerbs);
  }

  /** No match starts inside a prefix without an `A`, so the search lands on the first match after it. */
  lemma FirstMatchAfter(pre: string, rest: string, f: Flavor, verbs: seq<string>)
    requires 'A' !in pre
    requires ActionAt(pre + rest, |pre|, f, verbs).Some?
    ensures FindAction(pre + rest, f, verbs) == ActionAt(pre + rest, |pre|, f, verbs)
  {
    var s := pre + rest;
    forall p: nat | p < |pre|
      ensures !StartsAt(s, p, Tag)
    {
      assert s[p] == pre[p];
      if p + |Tag| <= |s| {
        assert s[p..p + |Tag|][0] == s[p];
      }
    }
  }

  /** `Action: finish(ans)` at the end of a reply is a match of the frontend pattern at `|pre|`. */
  lemma FinishReplyMatch(pre: string, ans: string)
    ensures var s := pre + "Action: finish(" + ans + ")";
            IsActionMatchAt(s, |pre|, JavaScript, JsVerbs, Found(|pre|, |pre| + 8, "finish", |pre| + 14, |s| - 1))
  {
    var mid := "Action: finish(";
    var s := pre + mid + ans + ")";
    var n := |pre|;
    var a := Found(n, n + 8, "finish", n + 14, |s| - 1);
    assert forall k | 0 <= k < |mid| :: s[n + k] == mid[k];
    assert s[n..n + |Tag|] == Tag;
    assert s[n + 7..n + 8] == [' '];
    assert s[n + 8..n + 15] == "finish(" == a.verb + "(";
    assert AllSpace(s[n + 7..n + 8], JavaScript);
    assert s[a.close] == ')' && s[a.close + 1..] == [];
  }

  /**
   * A reply that ends in `Action: finish(ans)`, with no `A` before it, is
   * shown as the trimmed `ans`; an empty `ans` leaves the reply as it is.
   */
  lemma ParseFinishReply(pre: string, ans: string)
    requires 'A' !in pre
    ensures var s := pre + "Action: finish(" + ans + ")";
            ParseFinalAnswer(s) == if ans != [] then Strip(ans, JavaScript) else s
  {
    var mid := "Action: finish(";
    var s := pre + mid + ans + ")";
    var n := |pre|;
    var a := Found(n, n + 8, "finish", n + 14, |s| - 1);
    FinishReplyMatch(pre, ans);
    VerbsAreWords();
    ActionAtComplete(s, n, JavaScript, JsVerbs, a);
    assert s == pre + (mid + ans + ")");
    FirstMatchAfter(pre, mid + ans + ")", JavaScript, JsVerbs);
    assert s[n + 15..|s| - 1] == ans;
  }

  // -----------------------------------------------------------------------
  // The chat page state (App.js:51-54, 83-113)
  // -----------------------------------------------------------------------

  /** One entry of `chatHistory`; the user's entries carry no `fullResponse`. */
  datatype Entry = Entry(user: string, message: string, id: int, fullResponse: Option<string>)

  /** The JSON body of a `POST /chat`: the question as typed and the history sent with it. */
  datatype ChatBody = ChatBody(question: string, chatHistory: seq<Entry>)

  /** The JSON body of a `POST /tickets/` for negative feedback. */
  datatype FeedbackTicket = FeedbackTicket(title: string, summary: Option<string>, conversationHistory: seq<Entry>)

  const DefaultFeedbackTitle: string := "Feedback Ticket"

  predicate IsYou(e: Entry)
  {
    e.user == "You"
  }

  /** `findLast(c => c.user === 'You')`: the index of the last entry of the user. */
  function LastYouIndex(history: seq<Entry>): (r: Option<nat>)
    ensures r.Some? ==> r.value < |history| && IsYou(history[r.value])
    ensures r.Some? ==> forall j | r.value < j < |history| :: !IsYou(history[j])
    ensures r.None? ==> forall j | 0 <= j < |history| :: !IsYou(history[j])
  {
    if history == [] then None
    else if IsYou(history[|history| - 1]) then Some(|history| - 1)
    else LastYouIndex(history[..|history| - 1])
  }

  /** `findLast(...)?.message || "Feedback Ticket"`. */
  function FeedbackTitle(history: seq<Entry>): (title: string)
    ensures title != []
    ensures LastYouIndex(history).Some? && history[LastYouIndex(history).value].message != [] ==>
              title == history[LastYouIndex(history).value].message
    ensures LastYouIndex(history).None? || history[LastYouIndex(history).value].message == [] ==>
              title == DefaultFeedbackTitle
  {
    match LastYouIndex(history)
    case Some(i) => if history[i].message != [] then history[i].message else DefaultFeedbackTitle
    case None => DefaultFeedbackTitle
  }

  /** The title of a feedback ticket is the user's latest question, whatever the model answered after it. */
  lemma FeedbackTitleAfterAnswer(history: seq<Entry>, q: string, answer: Entry, id: int)
    requires q != [] && !IsYou(answer)
    ensures FeedbackTitle(history + [Entry("You", q, id, None), answer]) == q
  {
    var h := history + [Entry("You", q, id, None), answer];
    assert h[..|h| - 1] == history + [Entry("You", q, id, None)];
    assert LastYouIndex(h[..|h| - 1]) == Some(|history|);
    assert LastYouIndex(h) == Some(|history|);
  }

  /** The page's state: the input box, the history and which answers got feedback. */
  class ChatPage {
    var question: string
    var chatHistory: seq<Entry>
    var feedbackGiven: map<int, bool>

    /** The initial state (App.js:51-54): an empty box, no history, no feedback. */
    constructor ()
      ensures question == [] && chatHistory == [] && feedbackGiven == map[]
    {
      question := [];
      chatHistory := [];
      feedbackGiven := map[];
    }

    /** The user types into the box (`setQuestion`). */
    method Type(text: string)
      modifies this
      ensures question == text
      ensures chatHistory == old(chatHistory) && feedbackGiven == old(feedbackGiven)
    {
      question := text;
    }

    /**
     * The synchronous part of `handleChatSubmit` (App.js:85-88): a blank
     * question does nothing; otherwise the user's entry is appended, the
     * box is cleared and the body to send is returned.
     */
    method SubmitQuestion(now: int) returns (body: Option<ChatBody>)
      modifies this
      ensures Strip(old(question), JavaScript) == [] ==>
                body.None? && question == old(question) && chatHistory == old(chatHistory)
      ensures Strip(old(question), JavaScript) != [] ==>
                && chatHistory == old(chatHistory) + [Entry("You", old(question), now, None)]
                && question == []
                && body == Some(ChatBody(old(question), chatHistory))
      ensures feedbackGiven == old(feedbackGiven)
    {
      if Strip(question, JavaScript) == [] {
        return None;
      }
      var newChat := chatHistory + [Entry("You", question, now, None)];
      chatHistory := newChat;
      body := Some(ChatBody(question, newChat));
      question := [];
    }

    /**
     * The rest of `handleChatSubmit` (App.js:95-97), once the reply has
     * arrived: the history becomes the one that was sent plus the answer,
     * shown parsed and kept raw as `fullResponse`.
     */
    method ReceiveAnswer(sent: ChatBody, rawResponse: string, now: int)
      modifies this
      ensures chatHistory == sent.chatHistory + [Entry("AI", ParseFinalAnswer(rawResponse), now + 1, Some(rawResponse))]
      ensures question == old(question) && feedbackGiven == old(feedbackGiven)
    {
      var finalAnswer := ParseFinalAnswer(rawResponse);
      chatHistory := sent.chatHistory + [Entry("AI", finalAnswer, now + 1, Some(rawResponse))];
    }

    /**
     * `handleFeedback` (App.js:100-113): mark the entry as rated; for
     * negative feedback return the ticket to create, titled by the user's
     * latest question and summarised by the rated answer's raw response.
     */
    method Feedback(chat: Entry, isGood: bool) returns (ticket: Option<FeedbackTicket>)
      modifies this
      ensures feedbackGiven == old(feedbackGiven)[chat.id := true]
      ensures isGood ==> ticket.None?
      ensures !isGood ==> ticket == Some(FeedbackTicket(FeedbackTitle(chatHistory), chat.fullResponse, chatHistory))
      ensures question == old(question) && chatHistory == old(chatHistory)
    {
      feedbackGiven := feedbackGiven[chat.id := true];
      if !isGood {
        var userQuestion := FeedbackTitle(chatHistory);
        ticket := Some(FeedbackTicket(userQuestion, chat.fullResponse, chatHistory));
      } else {
        ticket := None;
      }
    }
  }
}
