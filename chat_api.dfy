/**
 * The chat request controller of the backend (`backend/app/api.py`):
 * translating a chat history into the language model's turn format, the
 * `/greeting` and `/chat` handlers, the intent routing, the ticket
 * escalation and the bounded ReAct loop.
 *
 * The language model is an oracle: `replies[k]` is what the provider gives
 * back for the k-th call of `ask_gemini` in a request (`None`: the call
 * raised). Retrieval (`search_vector_db`) is the parameter `retrieve`.
 * Ticket creation, model calls and retrievals are recorded in ghost logs.
 */
module ChatApi {
  import opened Wrappers
  import opened Text
  import opened ActionRegex

  // -----------------------------------------------------------------------
  // JSON values and chat messages
  // -----------------------------------------------------------------------

  /** A JSON value as Python sees it after parsing (numbers as integers). */
  datatype Value =
    | VNone
    | VBool(b: bool)
    | VNum(n: int)
    | VStr(s: string)
    | VList(items: seq<Value>)
    | VDict(fields: map<string, Value>)

  /** Python truthiness. */
  predicate Truthy(v: Value)
  {
    match v
    case VNone => false
    case VBool(b) => b
    case VNum(n) => n != 0
    case VStr(s) => s != []
    case VList(items) => items != []
    case VDict(fields) => fields != map[]
  }

  /** One entry of a chat history: a dictionary with string keys. */
  type Message = map<string, Value>

  /** `msg.get(key)`. */
  function Get(msg: Message, key: string): Value
  {
    if key in msg then msg[key] else VNone
  }

  /** Python's `a or b`. */
  function Or(a: Value, b: Value): (r: Value)
    ensures Truthy(a) ==> r == a
    ensures !Truthy(a) ==> r == b
  {
    if Truthy(a) then a else b
  }

  /** One turn of the model's input: `{'role': role, 'parts': parts}`. */
  datatype Turn = Turn(role: string, parts: seq<Value>)

  // -----------------------------------------------------------------------
  // format_history_for_gemini (api.py:92-100)
  // -----------------------------------------------------------------------

  /** The sender: `msg.get('user') or msg.get('role')`. */
  function Sender(msg: Message): Value
  {
    Or(Get(msg, "user"), Get(msg, "role"))
  }

  /** The content: `msg.get('message') or msg.get('content')`. */
  function Content(msg: Message): Value
  {
    Or(Get(msg, "message"), Get(msg, "content"))
  }

  /** The turn one message becomes. */
  function FormatMessage(msg: Message): (t: Turn)
    ensures t.role == "model" || t.role == "user"
    ensures t.role == "model" <==> Sender(msg) == VStr("AI") || Sender(msg) == VStr("assistant")
    ensures |t.parts| == 1
    ensures t.parts[0] == (if Truthy(Get(msg, "message")) then Get(msg, "message") else Get(msg, "content"))
  {
    var sender := Sender(msg);
    var role := if sender in [VStr("AI"), VStr("assistant")] then "model" else "user";
    Turn(role, [Content(msg)])
  }

  /** The translation of a whole history, one turn per message and in order. */
  ghost function Formatted(history: seq<Message>): (r: seq<Turn>)
  {
    seq(|history|, i requires 0 <= i < |history| => FormatMessage(history[i]))
  }

  method FormatHistoryForGemini(history: seq<Message>) returns (geminiHistory: seq<Turn>)
    ensures |geminiHistory| == |history|
    ensures forall i | 0 <= i < |history| :: geminiHistory[i] == FormatMessage(history[i])
    ensures geminiHistory == Formatted(history)
  {
    geminiHistory := [];
    for i := 0 to |history|
      invariant |geminiHistory| == i
      invariant forall k | 0 <= k < i :: geminiHistory[k] == FormatMessage(history[k])
    {
      var msg := history[i];
      var sender := Or(Get(msg, "user"), Get(msg, "role"));
      var role := if sender in [VStr("AI"), VStr("assistant")] then "model" else "user";
      var content := Or(Get(msg, "message"), Get(msg, "content"));
      geminiHistory := geminiHistory + [Turn(role, [content])];
    }
  }

  /** A message of the form `{"role": "user", "content": text}`. */
  function UserContent(text: string): Message
  {
    map["role" := VStr("user"), "content" := VStr(text)]
  }

  /** A history entry with a string content translates to one turn with that text. */
  lemma UserContentFormat(text: string)
    ensures FormatMessage(UserContent(text)) == Turn("user", [VStr(text)])
  {
  }

  // -----------------------------------------------------------------------
  // The language model (api.py:57-90)
  // -----------------------------------------------------------------------

  datatype ModelKind = IntentModel | GreetingModel | SummarizerModel | ReactModel

  /** One call of `ask_gemini`: which model and what history it was given. */
  datatype ModelCall = ModelCall(model: ModelKind, history: seq<Turn>)

  const NotConfigured: string := "The AI model is not configured."

  /** The provider's reply for the k-th call of a request; past the oracle's end the call fails. */
  function ReplyTo(replies: seq<Option<string>>, k: nat): Option<string>
  {
    if k < |replies| then replies[k] else None
  }

  /**
   * `ask_gemini` (api.py:82-90). `configured` says whether the models were
   * created (all four are, exactly when a credential is set); `reply` is
   * the provider's raw text for this call, `None` when the call raised.
   */
  function AskGemini(configured: bool, reply: Option<string>): (r: Option<string>)
    ensures !configured ==> r == Some(NotConfigured)
    ensures configured ==> (r.Some? <==> reply.Some?)
    ensures configured && reply.Some? ==> r.value == Strip(reply.value, Python)
    ensures r.Some? ==> IsStripped(r.value, Python)
  {
    if !configured then Some(NotConfigured)
    else
      match reply
      case None => None
      case Some(text) => Some(Strip(text, Python))
  }

  /** Python's `not x` on `Optional[str]`: `None` and `""` are false. */
  predicate IsNonEmpty(answer: Option<string>)
  {
    answer.Some? && answer.value != []
  }

  // -----------------------------------------------------------------------
  // GET /greeting (api.py:102-106)
  // -----------------------------------------------------------------------

  const DefaultGreeting: string := "Hello! How can I help you today?"

  /** `None` stands for a JSON `null` greeting (the model call failed). */
  method GetGreeting(configured: bool, replies: seq<Option<string>>)
    returns (greeting: Option<string>, ghost calls: seq<ModelCall>)
    ensures !configured ==> greeting == Some(DefaultGreeting) && calls == []
    ensures configured ==>
              && calls == [ModelCall(GreetingModel, [Turn("user", [VStr("Generate a greeting.")])])]
              && greeting == (if ReplyTo(replies, 0).Some? then Some(Strip(ReplyTo(replies, 0).value, Python)) else None)
  {
    calls := [];
    if !configured {
      greeting := Some(DefaultGreeting);
      return;
    }
    var greetingHistory := FormatHistoryForGemini([UserContent("Generate a greeting.")]);
    UserContentFormat("Generate a greeting.");
    assert greetingHistory == [Turn("user", [VStr("Generate a greeting.")])];
    greeting := AskGemini(configured, ReplyTo(replies, 0));
    calls := calls + [ModelCall(GreetingModel, greetingHistory)];
  }

  // -----------------------------------------------------------------------
  // Ticket escalation (api.py:117-134)
  // -----------------------------------------------------------------------

  /** What `crud.create_ticket` is given (`schemas.TicketCreate`, user_contact left `None`). */
  datatype TicketCreate = TicketCreate(title: string, summary: Option<string>, conversationHistory: seq<Message>)

  const Frustrated: string := "FRUSTRATED"

  const TicketAck: string :=
    "I'm sorry you're having trouble. I've created a support ticket with a summary of our conversation, and our team will be in touch shortly."

  predicate IsYou(msg: Message)
  {
    Get(msg, "user") == VStr("You")
  }

  /** Index of the first message whose `'user'` is `'You'`. */
  function FirstYouIndex(history: seq<Message>): (r: Option<nat>)
    ensures r.Some? ==> r.value < |history| && IsYou(history[r.value])
    ensures r.Some? ==> forall j | 0 <= j < r.value :: !IsYou(history[j])
    ensures r.None? ==> forall j | 0 <= j < |history| :: !IsYou(history[j])
  {
    if history == [] then None
    else if IsYou(history[0]) then Some(0)
    else
      match FirstYouIndex(history[1..])
      case None => None
      case Some(k) => Some(k + 1)
  }

  /**
   * `next((msg.get('message') for msg in chat_history if msg.get('user') == 'You'), question)`:
   * the `'message'` of the first `'You'` entry (any value, even `None`),
   * otherwise the question.
   */
  function TicketTitle(history: seq<Message>, question: string): (title: Value)
    ensures FirstYouIndex(history).Some? ==> title == Get(history[FirstYouIndex(history).value], "message")
    ensures FirstYouIndex(history).None? ==> title == VStr(question)
  {
    match FirstYouIndex(history)
    case Some(i) => Get(history[i], "message")
    case None => VStr(question)
  }

  // -----------------------------------------------------------------------
  // The ReAct loop (api.py:136-160) as a specification
  // -----------------------------------------------------------------------

  const MaxIterations: nat := 5

  const Apology: string := "I'm sorry, I encountered an issue."

  const NoDefinitiveAnswer: string := "I am having trouble finding a definitive answer."

  /** What one round of the loop does with the model's answer. */
  datatype Step =
    | Apologize               // no answer or an empty one (api.py:143)
    | ReturnAnswer            // no action match, or fewer than two groups (api.py:148)
    | Finish                  // verb `finish` (api.py:152-153)
    | Search(query: string)   // verb `search` (api.py:155-158)
    | Proceed                 // any other verb: the round ends without a search

  /**
   * The decision on the result `m` of the round's `re.search` (api.py:148-158):
   * no match or fewer than two groups returns the answer, otherwise the
   * verb dispatches with the stripped argument. `ParseAction` is the same
   * decision written as the loop body computes it.
   */
  function Decide(m: Option<seq<string>>): (step: Step)
    ensures step != Apologize
    ensures step == ReturnAnswer <==> m.None? || |m.value| < 2
    ensures step.Search? ==> m.Some? && |m.value| >= 2 && m.value[0] == "search"
    ensures step == Finish ==> m.Some? && |m.value| >= 2 && m.value[0] == "finish"
  {
    match m
    case None => ReturnAnswer
    case Some(groups) =>
      if |groups| < 2 then ReturnAnswer
      else
        // group 1 is one of the pattern's verbs, so `.strip()` leaves it as it is (VerbIsStripped)
        var actionType, actionArg := groups[0], Strip(groups[1], Python);
        if actionType == "finish" then Finish
        else if actionType == "search" then Search(actionArg)
        else Proceed
  }

  /** The step of a round with the given answer. */
  function Classify(pattern: ActionPattern, answer: Option<string>): (step: Step)
    ensures !IsNonEmpty(answer) <==> step == Apologize
  {
    if !IsNonEmpty(answer) then Apologize
    else Decide(SearchAction(answer.value, pattern))
  }

  /** The ReAct model's answer in round `i` (call 1 + i of the request; call 0 is the intent). */
  function ReactAnswer(configured: bool, replies: seq<Option<string>>, i: nat): Option<string>
  {
    AskGemini(configured, ReplyTo(replies, 1 + i))
  }

  /** The answers of the five rounds. */
  function Answers(configured: bool, replies: seq<Option<string>>): (answers: seq<Option<string>>)
    ensures |answers| == MaxIterations
    ensures forall j | 0 <= j < MaxIterations :: answers[j] == ReactAnswer(configured, replies, j)
  {
    seq(MaxIterations, j requires 0 <= j < MaxIterations => ReactAnswer(configured, replies, j))
  }

  /** A round's step is `Apologize` exactly when its answer is missing or empty. */
  predicate Consistent(answers: seq<Option<string>>, steps: seq<Step>)
  {
    |answers| == |steps| && forall j | 0 <= j < |steps| :: steps[j].Apologize? <==> !IsNonEmpty(answers[j])
  }

  /** What each round does with its answer. */
  function Steps(pattern: ActionPattern, answers: seq<Option<string>>): (steps: seq<Step>)
    ensures |steps| == |answers|
    ensures forall j | 0 <= j < |answers| :: steps[j] == Classify(pattern, answers[j])
    ensures Consistent(answers, steps)
  {
    seq(|answers|, j requires 0 <= j < |answers| => Classify(pattern, answers[j]))
  }

  /** The round does not end the request. */
  predicate Continues(step: Step)
  {
    step.Search? || step.Proceed?
  }

  datatype Exit = Apologized | Answered | Exhausted

  /** How the loop ended, its response, how many ReAct calls it made and which searches. */
  datatype Run = Run(exit: Exit, response: string, calls: nat, searches: seq<string>)

  /** The loop from round `i` on, given each round's answer and step. */
  function ReactOver(answers: seq<Option<string>>, steps: seq<Step>, i: nat): (r: Run)
    requires Consistent(answers, steps) && i <= |steps|
    ensures r.calls <= |steps| - i
    ensures i < |steps| ==> 1 <= r.calls
    ensures r.exit == Exhausted ==> r.calls == |steps| - i && r.response == NoDefinitiveAnswer
    ensures |r.searches| <= r.calls
    decreases |steps| - i
  {
    if i == |steps| then Run(Exhausted, NoDefinitiveAnswer, 0, [])
    else
      match steps[i]
      case Apologize => Run(Apologized, Apology, 1, [])
      case ReturnAnswer => Run(Answered, answers[i].value, 1, [])
      case Finish => Run(Answered, answers[i].value, 1, [])
      case Search(q) =>
        var rest := ReactOver(answers, steps, i + 1);
        Run(rest.exit, rest.response, 1 + rest.calls, [q] + rest.searches)
      case Proceed =>
        var rest := ReactOver(answers, steps, i + 1);
        Run(rest.exit, rest.response, 1 + rest.calls, rest.searches)
  }

  /** The ReAct loop of a request, from its first round. */
  function ReactRun(configured: bool, pattern: ActionPattern, replies: seq<Option<string>>): (r: Run)
    ensures 1 <= r.calls <= MaxIterations && |r.searches| <= r.calls
    ensures r.exit == Exhausted ==> r.calls == MaxIterations && r.response == NoDefinitiveAnswer
  {
    var answers := Answers(configured, replies);
    ReactOver(answers, Steps(pattern, answers), 0)
  }

  /**
   * The loop ends in the round of its last call: with the apology when that
   * round's answer was missing or empty, with that answer itself when it
   * returned or finished; every earlier round went on.
   */
  lemma {:induction false} ReactOverEnd(answers: seq<Option<string>>, steps: seq<Step>, i: nat)
    requires Consistent(answers, steps) && i < |steps|
    ensures var r := ReactOver(answers, steps, i);
            var last := i + r.calls - 1;
            && (r.exit == Apologized ==> r.response == Apology && !IsNonEmpty(answers[last]))
            && (r.exit == Answered ==> (steps[last].ReturnAnswer? || steps[last].Finish?) && answers[last] == Some(r.response) && r.response != [])
            && (forall j | i <= j < last :: Continues(steps[j]))
    decreases |steps| - i
  {
    if Continues(steps[i]) && i + 1 < |steps| {
      ReactOverEnd(answers, steps, i + 1);
    }
  }

  /** The run's searches are the queries of the rounds it ran, in order. */
  lemma {:induction false} ReactOverSearches(answers: seq<Option<string>>, steps: seq<Step>, i: nat)
    requires Consistent(answers, steps) && i < |steps|
    ensures var r := ReactOver(answers, steps, i);
            r.searches == SearchesOf(steps[i..i + r.calls])
    decreases |steps| - i
  {
    var r := ReactOver(answers, steps, i);
    var ran := steps[i..i + r.calls];
    assert ran[0] == steps[i];
    if Continues(steps[i]) && i + 1 < |steps| {
      ReactOverSearches(answers, steps, i + 1);
      assert ran[1..] == steps[i + 1..i + r.calls];
    } else {
      assert ran[1..] == [];
    }
  }

  /** The queries of the searching steps, in order. */
  function SearchesOf(steps: seq<Step>): seq<string>
  {
    if steps == [] then []
    else (if steps[0].Search? then [steps[0].query] else []) + SearchesOf(steps[1..])
  }

  /** The loop is exhausted exactly when every round from `i` on went on. */
  lemma {:induction false} ExhaustedIff(answers: seq<Option<string>>, steps: seq<Step>, i: nat)
    requires Consistent(answers, steps) && i <= |steps|
    ensures ReactOver(answers, steps, i).exit == Exhausted <==> forall j | i <= j < |steps| :: Continues(steps[j])
    decreases |steps| - i
  {
    if i < |steps| {
      ExhaustedIff(answers, steps, i + 1);
    }
  }

  /** A verb the backend pattern matches is `search` or `finish`, so no round merely proceeds. */
  lemma NeverProceeds(pattern: ActionPattern, answer: Option<string>)
    ensures Classify(pattern, answer) != Proceed
  {
    if IsNonEmpty(answer) {
      var m := SearchAction(answer.value, pattern);
      if m.Some? && |m.value| >= 2 {
        assert m.value[0] in PythonVerbs;
      }
    }
  }

  /** A matched verb has no white space at its ends, so `group(1).strip()` leaves the verb as it is. */
  lemma VerbIsStripped(s: string, pattern: ActionPattern)
    requires SearchAction(s, pattern).Some?
    ensures Strip(SearchAction(s, pattern).value[0], Python) == SearchAction(s, pattern).value[0]
  {
    var verb := SearchAction(s, pattern).value[0];
    assert verb == "search" || verb == "finish";
    assert IsStripped(verb, Python);
    StripStripped(verb, Python);
  }

  /**
   * As written the pattern has one group, so no round searches and no round
   * goes on: the first round always ends the loop.
   */
  lemma AsWrittenEndsInFirstRound(answer: Option<string>)
    ensures Classify(OneGroup, answer) == (if IsNonEmpty(answer) then ReturnAnswer else Apologize)
  {
    if IsNonEmpty(answer) {
      AsWrittenHasOneGroup(answer.value);
    }
  }

  /**
   * Hence, as written, the loop makes exactly one call and never searches:
   * it answers the apology or the first answer verbatim.
   */
  lemma AsWrittenNeverSearches(configured: bool, replies: seq<Option<string>>)
    ensures var r := ReactRun(configured, OneGroup, replies);
            var answer := ReactAnswer(configured, replies, 0);
            && r.calls == 1 && r.searches == [] && r.exit != Exhausted
            && r.response == (if IsNonEmpty(answer) then answer.value else Apology)
  {
    AsWrittenEndsInFirstRound(ReactAnswer(configured, replies, 0));
  }

  /**
   * Without a credential every call answers the fixed notice; it is not
   * `FRUSTRATED` and holds no directive, so the loop returns it at once.
   */
  lemma UnconfiguredReact(pattern: ActionPattern, replies: seq<Option<string>>)
    ensures AskGemini(false, ReplyTo(replies, 0)) != Some(Frustrated)
    ensures ReactRun(false, pattern, replies) == Run(Answered, NotConfigured, 1, [])
  {
    assert NotConfigured[0] != Frustrated[0];
    NoColonNoAction(NotConfigured, Python, PythonVerbs);
    assert Classify(pattern, Some(NotConfigured)) == ReturnAnswer;
  }

  const SearchDirective: string := "Action: search(refund policy)"

  /** The first answer to a conversation whose replies start with the directive is the directive itself. */
  lemma DirectiveIsFirstAnswer(later: seq<Option<string>>)
    ensures ReactAnswer(true, [Some("QUESTION"), Some(SearchDirective)] + later, 0) == Some(SearchDirective)
  {
    assert IsStripped(SearchDirective, Python);
    StripStripped(SearchDirective, Python);
  }

  /** As written, the directive is returned as an answer. */
  lemma AsWrittenDirectiveIsAnswer()
    ensures Classify(OneGroup, Some(SearchDirective)) == ReturnAnswer
  {
    SearchDirectiveExample();
  }

  /** With the argument captured, the directive is a search for `refund policy`. */
  lemma IntendedDirectiveIsSearch()
    ensures Classify(TwoGroups, Some(SearchDirective)) == Search("refund policy")
  {
    SearchDirectiveExample();
    DecideSearch("refund policy");
  }

  /** The groups `search` and a stripped argument make a search for that argument. */
  lemma DecideSearch(q: string)
    requires IsStripped(q, Python)
    ensures Decide(Some(["search", q])) == Search(q)
  {
    StripStripped(q, Python);
  }

  /**
   * The discrepancy in api.py:146-148 on one input: as written, a reply that
   * asks for a search is handed to the user as the answer and nothing is
   * retrieved.
   */
  lemma AsWrittenSearchIsAnswered(later: seq<Option<string>>)
    ensures ReactRun(true, OneGroup, [Some("QUESTION"), Some(SearchDirective)] + later)
            == Run(Answered, SearchDirective, 1, [])
  {
    DirectiveIsFirstAnswer(later);
    AsWrittenDirectiveIsAnswer();
  }

  /** With the argument captured, the same reply makes the first round search for `refund policy`. */
  lemma IntendedSearchIsRetrieved(later: seq<Option<string>>)
    ensures var r := ReactRun(true, TwoGroups, [Some("QUESTION"), Some(SearchDirective)] + later);
            r.calls >= 2 && |r.searches| >= 1 && r.searches[0] == "refund policy"
  {
    var replies := [Some("QUESTION"), Some(SearchDirective)] + later;
    DirectiveIsFirstAnswer(later);
    IntendedDirectiveIsSearch();
    var answers := Answers(true, replies);
    var steps := Steps(TwoGroups, answers);
    ReactOverStep(answers, steps, 0);
  }

  // -----------------------------------------------------------------------
  // POST /chat (api.py:108-160)
  // -----------------------------------------------------------------------

  /** `schemas.ChatRequest`. */
  datatype ChatRequest = ChatRequest(question: string, chatHistory: seq<Message>)

  /**
   * What the handler gives back: an `HTTPException`, a `{"response": ...}`
   * body, or the server error of a `TicketCreate` whose title is not a string.
   */
  datatype ChatOutcome =
    | Rejected(status: nat, detail: string)
    | Responded(response: string)
    | ServerError

  const QuestionRequired: string := "Question is required."

  /** The user's turn the loop starts from (api.py:137). */
  function YouMessage(question: string): Message
  {
    map["user" := VStr("You"), "message" := VStr("User: " + question)]
  }

  /** The model's answer recorded in the loop (api.py:145). */
  function AssistantMessage(text: string): Message
  {
    map["role" := VStr("assistant"), "content" := VStr(text)]
  }

  /** The retrieval result handed back to the model (api.py:157). */
  function ObservationMessage(observation: string): Message
  {
    map["role" := VStr("user"), "content" := VStr("Observation: " + observation)]
  }

  /** The model sees its own answers as model turns, and the rest as user turns. */
  lemma LoopMessagesFormat(question: string, text: string, observation: string)
    ensures FormatMessage(YouMessage(question)) == Turn("user", [VStr("User: " + question)])
    ensures FormatMessage(AssistantMessage(text)) == Turn("model", [VStr(text)])
    ensures FormatMessage(ObservationMessage(observation)) == Turn("user", [VStr("Observation: " + observation)])
  {
  }

  /**
   * The first ReAct call is given the stored history, translated, and one
   * more user turn holding `"User: " + question`.
   */
  lemma FirstReactInput(chatHistory: seq<Message>, question: string)
    ensures var input := Formatted(chatHistory + [YouMessage(question)]);
            && |input| == |chatHistory| + 1
            && input[..|chatHistory|] == Formatted(chatHistory)
            && input[|chatHistory|] == Turn("user", [VStr("User: " + question)])
  {
    var h := chatHistory + [YouMessage(question)];
    assert forall i | 0 <= i < |chatHistory| :: h[i] == chatHistory[i];
    assert Formatted(h)[..|chatHistory|] == Formatted(chatHistory);
    assert h[|chatHistory|] == YouMessage(question);
  }

  function AnswerText(answer: Option<string>): string
  {
    if answer.Some? then answer.value else []
  }

  /** The messages the first `i` rounds add: each answer, then the observation of a search. */
  function Transcript(answers: seq<Option<string>>, steps: seq<Step>, retrieve: string -> string, i: nat): (t: seq<Message>)
    requires i <= |answers| && i <= |steps|
  {
    if i == 0 then []
    else
      Transcript(answers, steps, retrieve, i - 1)
      + [AssistantMessage(AnswerText(answers[i - 1]))]
      + (if steps[i - 1].Search? then [ObservationMessage(retrieve(steps[i - 1].query))] else [])
  }

  /** The ReAct calls of the first `n` rounds: each is given the history so far. */
  ghost function ReactCalls(answers: seq<Option<string>>, steps: seq<Step>, retrieve: string -> string, base: seq<Message>, n: nat): (c: seq<ModelCall>)
    requires n <= |answers| && n <= |steps|
  {
    seq(n, j requires 0 <= j < n => ModelCall(ReactModel, Formatted(base + Transcript(answers, steps, retrieve, j))))
  }

  /** `Decide` on the match of a non-empty answer, step by step as in api.py:146-158. */
  method ParseAction(pattern: ActionPattern, llmResponse: string) returns (step: Step)
    requires llmResponse != []
    ensures step == Classify(pattern, Some(llmResponse))
    ensures step != Apologize
  {
    var actionMatch := SearchAction(llmResponse, pattern);
    if actionMatch.None? || |actionMatch.value| < 2 {
      return ReturnAnswer;
    }
    VerbIsStripped(llmResponse, pattern);
    var actionType, actionArg := Strip(actionMatch.value[0], Python), Strip(actionMatch.value[1], Python);
    if actionType == "finish" {
      return Finish;
    }
    if actionType == "search" {
      return Search(actionArg);
    }
    return Proceed;
  }

  /**
   * The handler. `configured` says whether a credential was set, `replies`
   * are the provider's answers to the request's calls in order, `retrieve`
   * is `search_vector_db`. The logs record the model calls, the tickets
   * created and the retrieval queries.
   */
  method Chat(configured: bool, pattern: ActionPattern, replies: seq<Option<string>>,
              retrieve: string -> string, request: ChatRequest)
    returns (outcome: ChatOutcome, ghost calls: seq<ModelCall>, ghost tickets: seq<TicketCreate>, ghost searches: seq<string>)
    ensures var question := Strip(request.question, Python);
            question == [] ==> outcome == Rejected(400, QuestionRequired) && calls == [] && tickets == [] && searches == []
    ensures var question := Strip(request.question, Python);
            question != [] ==>
              && !outcome.Rejected?
              && |calls| >= 1
              && calls[0] == ModelCall(IntentModel, [Turn("user", [VStr(question)])])
    // without a credential
    ensures var question := Strip(request.question, Python);
            question != [] && !configured ==>
              outcome == Responded(NotConfigured) && |calls| == 2 && tickets == [] && searches == []
    // the ticket escalation
    ensures var question := Strip(request.question, Python);
            var title := TicketTitle(request.chatHistory, question);
            question != [] && AskGemini(configured, ReplyTo(replies, 0)) == Some(Frustrated) ==>
              && calls == calls[..1] + [ModelCall(SummarizerModel, Formatted(request.chatHistory))]
              && searches == []
              && (title.VStr? ==>
                    && tickets == [TicketCreate(title.s, AskGemini(configured, ReplyTo(replies, 1)), request.chatHistory)]
                    && outcome == Responded(TicketAck))
              && (!title.VStr? ==> tickets == [] && outcome == ServerError)
    // the ReAct loop
    ensures var question := Strip(request.question, Python);
            var run := ReactRun(configured, pattern, replies);
            question != [] && AskGemini(configured, ReplyTo(replies, 0)) != Some(Frustrated) ==>
              && outcome == Responded(run.response)
              && tickets == []
              && searches == run.searches
              && calls == calls[..1] + ReactRunCalls(configured, pattern, replies, retrieve, request.chatHistory + [YouMessage(question)])
    // the first ReAct call sees the stored history and the question
    ensures var question := Strip(request.question, Python);
            question != [] && AskGemini(configured, ReplyTo(replies, 0)) != Some(Frustrated) ==>
              |calls| >= 2 && calls[1] == ModelCall(ReactModel, Formatted(request.chatHistory + [YouMessage(question)]))
    // the directive as written never reaches the retrieval
    ensures var question := Strip(request.question, Python);
            var answer := ReactAnswer(configured, replies, 0);
            question != [] && AskGemini(configured, ReplyTo(replies, 0)) != Some(Frustrated) && pattern == OneGroup ==>
              && |calls| == 2 && searches == []
              && outcome == Responded(if IsNonEmpty(answer) then answer.value else Apology)
  {
    calls, tickets, searches := [], [], [];
    var question := Strip(request.question, Python);
    if question == [] {
      outcome := Rejected(400, QuestionRequired);
      return;
    }

    var intentHistory := FormatHistoryForGemini([UserContent(question)]);
    UserContentFormat(question);
    assert intentHistory == [Turn("user", [VStr(question)])];
    var intent := AskGemini(configured, ReplyTo(replies, 0));
    calls := calls + [ModelCall(IntentModel, intentHistory)];

    if intent == Some(Frustrated) {
      var fullHistoryForDb := request.chatHistory;
      var historyForSummarizer := FormatHistoryForGemini(fullHistoryForDb);
      var summary := AskGemini(configured, ReplyTo(replies, 1));
      calls := calls + [ModelCall(SummarizerModel, historyForSummarizer)];
      var initialQuestion := TicketTitle(request.chatHistory, question);
      if !initialQuestion.VStr? {
        outcome := ServerError;
        return;
      }
      tickets := tickets + [TicketCreate(initialQuestion.s, summary, fullHistoryForDb)];
      outcome := Responded(TicketAck);
      return;
    }

    var response, reactCalls, reactSearches := ReactLoop(configured, pattern, replies, retrieve, request.chatHistory, question);
    ReactCallsOfChat(configured, pattern, replies, retrieve, request.chatHistory + [YouMessage(question)], calls, reactCalls);
    calls := calls + reactCalls;
    searches := reactSearches;
    outcome := Responded(response);
  }

  /**
   * The calls of a request that reaches the loop: the intent call, then the
   * loop's; the first of these sees the history the loop starts from, and
   * without a credential or with the pattern as written it is the only one.
   */
  lemma ReactCallsOfChat(configured: bool, pattern: ActionPattern, replies: seq<Option<string>>,
                         retrieve: string -> string, base: seq<Message>, before: seq<ModelCall>, reactCalls: seq<ModelCall>)
    requires |before| == 1
    requires reactCalls == ReactRunCalls(configured, pattern, replies, retrieve, base)
    ensures var calls := before + reactCalls;
            && calls == calls[..1] + reactCalls
            && |calls| >= 2 && calls[1] == ModelCall(ReactModel, Formatted(base))
            && (!configured ==> |calls| == 2 && ReactRun(configured, pattern, replies) == Run(Answered, NotConfigured, 1, []))
            && (pattern == OneGroup ==> |calls| == 2 && ReactRun(configured, pattern, replies).searches == [])
            && (pattern == OneGroup ==>
                  var answer := ReactAnswer(configured, replies, 0);
                  ReactRun(configured, pattern, replies).response == (if IsNonEmpty(answer) then answer.value else Apology))
  {
    var calls := before + reactCalls;
    assert calls[..1] == before;
    assert Transcript(Answers(configured, replies), Steps(pattern, Answers(configured, replies)), retrieve, 0) == [];
    assert base + [] == base;
    if !configured {
      UnconfiguredReact(pattern, replies);
    }
    if pattern == OneGroup {
      AsWrittenNeverSearches(configured, replies);
    }
  }

  lemma AppendAssoc<T>(a: seq<T>, b: seq<T>, c: seq<T>)
    ensures (a + b) + c == a + (b + c)
  {
  }

  lemma ReactCallsStep(answers: seq<Option<string>>, steps: seq<Step>, retrieve: string -> string, base: seq<Message>, n: nat)
    requires n < |answers| && n < |steps|
    ensures ReactCalls(answers, steps, retrieve, base, n + 1)
            == ReactCalls(answers, steps, retrieve, base, n) + [ModelCall(ReactModel, Formatted(base + Transcript(answers, steps, retrieve, n)))]
  {
    var longer := ReactCalls(answers, steps, retrieve, base, n + 1);
    var shorter := ReactCalls(answers, steps, retrieve, base, n);
    assert forall j | 0 <= j < n :: longer[j] == shorter[j];
  }

  lemma TranscriptStep(answers: seq<Option<string>>, steps: seq<Step>, retrieve: string -> string, base: seq<Message>, n: nat)
    requires n < |answers| && n < |steps|
    ensures base + Transcript(answers, steps, retrieve, n + 1)
            == base + Transcript(answers, steps, retrieve, n) + [AssistantMessage(AnswerText(answers[n]))]
               + (if steps[n].Search? then [ObservationMessage(retrieve(steps[n].query))] else [])
  {
  }

  /** A round that goes on adds one call and its search, if any, to the rest of the loop. */
  lemma ReactOverStep(answers: seq<Option<string>>, steps: seq<Step>, i: nat)
    requires Consistent(answers, steps) && i < |steps| && Continues(steps[i])
    ensures var rest := ReactOver(answers, steps, i);
            var next := ReactOver(answers, steps, i + 1);
            && rest.exit == next.exit && rest.response == next.response && rest.calls == 1 + next.calls
            && rest.searches == (if steps[i].Search? then [steps[i].query] else []) + next.searches
  {
  }

  /** A round that ends the loop is its last call and searches nothing. */
  lemma ReactOverStop(answers: seq<Option<string>>, steps: seq<Step>, i: nat)
    requires Consistent(answers, steps) && i < |steps| && !Continues(steps[i])
    ensures var rest := ReactOver(answers, steps, i);
            && rest.calls == 1 && rest.searches == []
            && rest.response == (if steps[i].Apologize? then Apology else answers[i].value)
  {
  }

  /** The ReAct calls of a whole request, given the history the loop starts from. */
  ghost function ReactRunCalls(configured: bool, pattern: ActionPattern, replies: seq<Option<string>>,
                               retrieve: string -> string, base: seq<Message>): (c: seq<ModelCall>)
    ensures |c| == ReactRun(configured, pattern, replies).calls
    ensures forall j | 0 <= j < |c| :: c[j].model == ReactModel
  {
    var answers := Answers(configured, replies);
    var steps := Steps(pattern, answers);
    ReactCalls(answers, steps, retrieve, base, ReactOver(answers, steps, 0).calls)
  }

  /** The rounds before `i` all went on. */
  predicate RanThrough(steps: seq<Step>, i: nat)
  {
    forall j | 0 <= j < i && j < |steps| :: Continues(steps[j])
  }

  /** What the loop has built up: the history, the calls and the searches. */
  datatype Rounds = Rounds(messages: seq<Message>, calls: seq<ModelCall>, searches: seq<string>)

  /** The loop's state after its first `i` rounds, when they all went on. */
  ghost function RoundsAfter(answers: seq<Option<string>>, steps: seq<Step>, retrieve: string -> string, base: seq<Message>, i: nat): Rounds
    requires i <= |answers| && i <= |steps|
  {
    Rounds(base + Transcript(answers, steps, retrieve, i), ReactCalls(answers, steps, retrieve, base, i), SearchesOf(steps[..i]))
  }

  lemma {:induction false} SearchesOfAppend(a: seq<Step>, b: seq<Step>)
    ensures SearchesOf(a + b) == SearchesOf(a) + SearchesOf(b)
  {
    if a != [] {
      SearchesOfAppend(a[1..], b);
      assert (a + b)[0] == a[0];
      assert (a + b)[1..] == a[1..] + b;
      AppendAssoc(if a[0].Search? then [a[0].query] else [], SearchesOf(a[1..]), SearchesOf(b));
    } else {
      assert a + b == b;
    }
  }

  /** A round that goes on adds its answer, its observation, its call and its search. */
  lemma RoundsStep(answers: seq<Option<string>>, steps: seq<Step>, retrieve: string -> string, base: seq<Message>, i: nat)
    requires i < |answers| && i < |steps|
    ensures var before := RoundsAfter(answers, steps, retrieve, base, i);
            var after := RoundsAfter(answers, steps, retrieve, base, i + 1);
            && after.messages == before.messages + [AssistantMessage(AnswerText(answers[i]))]
                                 + (if steps[i].Search? then [ObservationMessage(retrieve(steps[i].query))] else [])
            && after.calls == before.calls + [ModelCall(ReactModel, Formatted(before.messages))]
            && after.searches == before.searches + (if steps[i].Search? then [steps[i].query] else [])
  {
    TranscriptStep(answers, steps, retrieve, base, i);
    ReactCallsStep(answers, steps, retrieve, base, i);
    SearchesStep(steps, i);
  }

  lemma SearchesStep(steps: seq<Step>, i: nat)
    requires i < |steps|
    ensures SearchesOf(steps[..i + 1]) == SearchesOf(steps[..i]) + (if steps[i].Search? then [steps[i].query] else [])
  {
    assert steps[..i + 1] == steps[..i] + [steps[i]];
    SearchesOfAppend(steps[..i], [steps[i]]);
    assert [steps[i]][1..] == [];
  }

  /** Once the first `i` rounds went on, the run is those rounds followed by the run from round `i`. */
  lemma {:induction false} ReactOverAfter(answers: seq<Option<string>>, steps: seq<Step>, i: nat)
    requires Consistent(answers, steps) && i <= |steps| && RanThrough(steps, i)
    ensures var run := ReactOver(answers, steps, 0);
            var rest := ReactOver(answers, steps, i);
            && run.exit == rest.exit && run.response == rest.response
            && run.calls == i + rest.calls && run.searches == SearchesOf(steps[..i]) + rest.searches
  {
    if i > 0 {
      var mid, rest := ReactOver(answers, steps, i - 1), ReactOver(answers, steps, i);
      var here := if steps[i - 1].Search? then [steps[i - 1].query] else [];
      ReactOverAfter(answers, steps, i - 1);
      ReactOverStep(answers, steps, i - 1);
      SearchesStep(steps, i - 1);
      AppendAssoc(SearchesOf(steps[..i - 1]), here, rest.searches);
    }
  }

  /** A round that ends the loop makes the run's last call and leaves its searches as they are. */
  lemma RoundEnds(answers: seq<Option<string>>, steps: seq<Step>, retrieve: string -> string, base: seq<Message>, i: nat)
    requires Consistent(answers, steps) && i < |steps| && RanThrough(steps, i) && !Continues(steps[i])
    ensures var run := ReactOver(answers, steps, 0);
            var before := RoundsAfter(answers, steps, retrieve, base, i);
            && run.response == (if steps[i].Apologize? then Apology else answers[i].value)
            && run.searches == before.searches
            && ReactCalls(answers, steps, retrieve, base, run.calls) == before.calls + [ModelCall(ReactModel, Formatted(before.messages))]
  {
    ReactOverAfter(answers, steps, i);
    ReactOverStop(answers, steps, i);
    ReactCallsStep(answers, steps, retrieve, base, i);
  }

  /** After five rounds that all went on, the loop gives up with its fallback. */
  lemma LoopExhausted(answers: seq<Option<string>>, steps: seq<Step>, retrieve: string -> string, base: seq<Message>)
    requires Consistent(answers, steps) && RanThrough(steps, |steps|)
    ensures var run := ReactOver(answers, steps, 0);
            var after := RoundsAfter(answers, steps, retrieve, base, |steps|);
            && run.response == NoDefinitiveAnswer
            && run.searches == after.searches
            && ReactCalls(answers, steps, retrieve, base, run.calls) == after.calls
  {
    ReactOverAfter(answers, steps, |steps|);
  }

  /** The round that ends the loop completes the run: its response, its searches and its calls. */
  lemma RoundEndsRun(configured: bool, pattern: ActionPattern, replies: seq<Option<string>>,
                     retrieve: string -> string, base: seq<Message>, i: nat, before: Rounds, response: string, call: ModelCall)
    requires i < MaxIterations
    requires RanThrough(Steps(pattern, Answers(configured, replies)), i)
    requires before == RoundsAfter(Answers(configured, replies), Steps(pattern, Answers(configured, replies)), retrieve, base, i)
    requires call == ModelCall(ReactModel, Formatted(before.messages))
    requires var answer := ReactAnswer(configured, replies, i);
             var step := Classify(pattern, answer);
             && !Continues(step)
             && (step == Apologize ==> response == Apology)
             && (step == ReturnAnswer || step == Finish ==> response == answer.value)
    ensures response == ReactRun(configured, pattern, replies).response
    ensures before.searches == ReactRun(configured, pattern, replies).searches
    ensures before.calls + [call] == ReactRunCalls(configured, pattern, replies, retrieve, base)
  {
    var answers := Answers(configured, replies);
    var steps := Steps(pattern, answers);
    assert steps[i] == Classify(pattern, answers[i]);
    RoundEnds(answers, steps, retrieve, base, i);
  }

  /** A round that goes on takes the loop's state from `i` rounds to `i + 1`. */
  lemma RoundGoesOnRun(configured: bool, pattern: ActionPattern, replies: seq<Option<string>>,
                       retrieve: string -> string, base: seq<Message>, i: nat, before: Rounds,
                       messagesAfter: seq<Message>, call: ModelCall, search: seq<string>)
    requires i < MaxIterations
    requires RanThrough(Steps(pattern, Answers(configured, replies)), i)
    requires before == RoundsAfter(Answers(configured, replies), Steps(pattern, Answers(configured, replies)), retrieve, base, i)
    requires call == ModelCall(ReactModel, Formatted(before.messages))
    requires var answer := ReactAnswer(configured, replies, i);
             var step := Classify(pattern, answer);
             && Continues(step)
             && messagesAfter == before.messages + [AssistantMessage(answer.value)]
                                 + (if step.Search? then [ObservationMessage(retrieve(step.query))] else [])
             && search == (if step.Search? then [step.query] else [])
    ensures RanThrough(Steps(pattern, Answers(configured, replies)), i + 1)
    ensures Rounds(messagesAfter, before.calls + [call], before.searches + search)
            == RoundsAfter(Answers(configured, replies), Steps(pattern, Answers(configured, replies)), retrieve, base, i + 1)
  {
    var answers := Answers(configured, replies);
    var steps := Steps(pattern, answers);
    assert steps[i] == Classify(pattern, answers[i]);
    RoundsStep(answers, steps, retrieve, base, i);
  }

  /**
   * One round of the ReAct loop (api.py:140-158): ask the ReAct model with
   * the history so far; end the request on a missing or empty answer, on
   * an answer without a usable directive and on `finish`; otherwise record
   * the answer and, on `search`, the retrieval's observation.
   */
  method ReactRound(configured: bool, pattern: ActionPattern, replies: seq<Option<string>>,
                    retrieve: string -> string, messagesForReact: seq<Message>, i: nat)
    returns (done: bool, response: string, messagesAfter: seq<Message>, ghost call: ModelCall, ghost search: seq<string>)
    ensures var answer := ReactAnswer(configured, replies, i);
            var step := Classify(pattern, answer);
            && call == ModelCall(ReactModel, Formatted(messagesForReact))
            && (done <==> !Continues(step))
            && (step == Apologize ==> response == Apology)
            && (step == ReturnAnswer || step == Finish ==> response == answer.value)
            && (!done ==> messagesAfter == messagesForReact + [AssistantMessage(answer.value)]
                                           + (if step.Search? then [ObservationMessage(retrieve(step.query))] else []))
            && search == (if step.Search? then [step.query] else [])
  {
    var geminiHistory := FormatHistoryForGemini(messagesForReact);
    var llmResponse := AskGemini(configured, ReplyTo(replies, 1 + i));
    call := ModelCall(ReactModel, geminiHistory);
    search := [];
    messagesAfter := messagesForReact;

    if !IsNonEmpty(llmResponse) {
      return true, Apology, messagesAfter, call, search;
    }

    messagesAfter := messagesAfter + [AssistantMessage(llmResponse.value)];
    var step := ParseAction(pattern, llmResponse.value);
    match step {
      case ReturnAnswer =>
        return true, llmResponse.value, messagesAfter, call, search;
      case Finish =>
        return true, llmResponse.value, messagesAfter, call, search;
      case Search(actionArg) =>
        var observation := retrieve(actionArg);
        search := [actionArg];
        messagesAfter := messagesAfter + [ObservationMessage(observation)];
        done, response := false, [];
      case Proceed =>
        done, response := false, [];
    }
  }

  /**
   * The ReAct loop (api.py:137-160): up to five rounds of asking the ReAct
   * model with the history so far, each ending the request or, on a
   * `search` directive, retrieving and recording the observation.
   */
  method ReactLoop(configured: bool, pattern: ActionPattern, replies: seq<Option<string>>,
                   retrieve: string -> string, chatHistory: seq<Message>, question: string)
    returns (response: string, ghost calls: seq<ModelCall>, ghost searches: seq<string>)
    ensures response == ReactRun(configured, pattern, replies).response
    ensures searches == ReactRun(configured, pattern, replies).searches
    ensures calls == ReactRunCalls(configured, pattern, replies, retrieve, chatHistory + [YouMessage(question)])
  {
    calls, searches := [], [];
    ghost var answers := Answers(configured, replies);
    ghost var steps := Steps(pattern, answers);
    ghost var base := chatHistory + [YouMessage(question)];
    var messagesForReact := chatHistory + [YouMessage(question)];
    assert steps[..0] == [];
    for i := 0 to MaxIterations
      invariant RanThrough(steps, i)
      invariant Rounds(messagesForReact, calls, searches) == RoundsAfter(answers, steps, retrieve, base, i)
    {
      var done, roundResponse, messagesAfter, call, search := ReactRound(configured, pattern, replies, retrieve, messagesForReact, i);
      if done {
        RoundEndsRun(configured, pattern, replies, retrieve, base, i, Rounds(messagesForReact, calls, searches), roundResponse, call);
        calls := calls + [call];
        response := roundResponse;
        return;
      }
      RoundGoesOnRun(configured, pattern, replies, retrieve, base, i, Rounds(messagesForReact, calls, searches), messagesAfter, call, search);
      calls := calls + [call];
      searches := searches + search;
      messagesForReact := messagesAfter;
    }
    LoopExhausted(answers, steps, retrieve, base);
    response := NoDefinitiveAnswer;
  }
}
