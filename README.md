# Customer-support chat: a Dafny model of its request logic

This project models the statable logic of a customer-support chat service.
The service has three parts:

- a FastAPI backend that sends a user's question either to a bounded ReAct loop or to ticket escalation;
- two scripts that cut a knowledge base into chunks for a vector index;
- a React page that shows the final answer of a ReAct reply and keeps the chat history.

The model covers these modules:

- `Text` (`text.dfy`): Python's `str.strip()` and JavaScript's `trim()`, each with its own set of white-space characters. It also has `str.split(sep)`, `str(n)` for naturals and `posixpath.join`.
- `ActionRegex` (`action_regex.dfy`): the leftmost-first match of `Action:\s*(verbs)\(.*\)` with `.` matching line breaks. It defines both a declarative meaning (`IsActionMatchAt`) and a computed one (`FindAction`), and proves the two agree.
- `ChatApi` (`chat_api.dfy`): `format_history_for_gemini`, `ask_gemini`, `GET /greeting` and `POST /chat`, which includes the intent check, ticket escalation and the ReAct loop. The language model is an oracle. `replies[k]` is the raw text of the k-th `ask_gemini` call of a request, and `None` means the call raised; `configured` says whether a credential was set. Retrieval is the parameter `retrieve`. Model calls, created tickets and retrieval queries go into ghost logs.
- `Chunking`, `VectorDbBuild`, `ImageVectorDbBuild`: the comprehension `[p.strip() for p in text.split("\n\n") if p.strip()]`, the early returns of the text builder and the `image_paths` loop of the image builder.
- `FrontendApp` (`frontend_app.dfy`): `parseFinalAnswer`, and a `ChatPage` class whose fields are the page's `question`, `chatHistory` and `feedbackGiven` state, with the submit and feedback handlers as methods.

The `/chat` handler is modelled for both readings of the action pattern (`ActionPattern`), so neither reading needs a dead branch:

- `OneGroup` is `Action:\s*(search|finish)\(.*\)` exactly as written at `backend/app/api.py:146`. It has one capture group, so the check `len(groups()) < 2` at line 148 holds for every match.
- `TwoGroups` is the evidently intended `\((.*)\)`.

As written, every non-empty answer is returned on the first round, and nothing is ever retrieved (`ChatApi.AsWrittenNeverSearches`, and the `OneGroup` postcondition of `ChatApi.Chat`).

The code itself intends the second reading. The ReAct system prompt (`backend/app/api.py:67`) offers the model the tool `search(query)`. Lines 150-156 read `group(2)` as the argument and pass it to `search_vector_db`. Both need the argument to be captured. `OneGroup` is what the code does, and `TwoGroups` is what it evidently means; see "## Findings".

## Model

| member | source | states |
|---|---|---|
| Text.Strip | backend/app/api.py:110 | Python `strip()` / JavaScript `trim()`. The result has no white space at either end, and it is empty exactly when the input is all white space. |
| Text.StripRemovesSpace | backend/build_vector_db.py:26 | The strip is a slice `s[a..b]` of the input, and everything it drops before `a` and after `b` is white space. |
| Text.StripIsSubstring | frontend/src/App.js:9 | The strip of a string is a substring of it. |
| Text.StripStripped | backend/build_vector_db.py:26 | A string without white space at its ends is its own strip, so strip is idempotent. |
| Text.IndexFrom | backend/build_vector_db.py:26 | `str.find` from `k`. A result is an occurrence of the separator and no earlier one exists. No result means no occurrence from `k` on. |
| Text.Split | backend/build_vector_db.py:26 | `str.split(sep)` gives at least one piece, and no piece contains the separator. |
| Text.JoinSplit | backend/build_vector_db.py:26 | Joining the pieces of a split with the separator gives back the text. |
| Text.NatToString | backend/build_image_vector_db.py:46 | `str(i)` is a non-empty string of decimal digits without a leading zero, except for 0 itself. |
| Text.DigitsValueOfNatToString | backend/build_image_vector_db.py:46 | The digits of `str(n)` denote `n`. |
| Text.NatToStringInjective | backend/build_image_vector_db.py:46 | Different numbers have different decimal strings. |
| Text.PathJoin | backend/build_image_vector_db.py:46 | `os.path.join(a, b)`. It gives `b` when `b` is absolute, and `a + "/" + b` when `b` is relative and `a` is non-empty and does not end in `/`. |
| ActionRegex.IsActionMatchAt | backend/app/api.py:146 | What the pattern means at `i`: the tag `Action:`, white space, one of the verbs followed by `(`, and the last `)` of the text, with `.` matching line breaks. The same shape is at frontend/src/App.js:8. `ActionAt` and `ActionAtComplete` relate it to the computed match. |
| ActionRegex.FirstVerb | backend/app/api.py:146 | The first alternative that, followed by `(`, occurs at `k`. No result means that none does. |
| ActionRegex.LastIndexOf | backend/app/api.py:146 | The last `)` of the text, with none after it. No result means the text has no `)`. |
| ActionRegex.ActionAt | backend/app/api.py:146 | A match it computes at `i` is a match of the pattern there (soundness). |
| ActionRegex.ActionAtComplete | frontend/src/App.js:8 | Any match of the pattern at `i` is the one `ActionAt` computes (completeness). A greedy `\s*` takes all the white space, and a greedy `.*` ends at the last `)`. |
| ActionRegex.ActionMatchUnique | backend/app/api.py:146 | At most one match starts at a given position. |
| ActionRegex.FindFrom | backend/app/api.py:146 | The first position from `k` at which `ActionAt` matches, with none before it. |
| ActionRegex.FindAction | frontend/src/App.js:8 | `re.search` / `RegExp.exec`. A result is a match, and no position before its start has one. |
| ActionRegex.FindActionIsLeftmost | backend/app/api.py:146 | Leftmost-first against the declarative meaning. The result is a match, nothing matches further left, and no result means no match anywhere. |
| ActionRegex.NoColonNoAction | backend/app/api.py:146 | A text without `:` has no match. |
| ActionRegex.Groups | backend/app/api.py:146-150 | `m.groups()` of a match: one group as written and two with the argument captured. Group 1 is the verb. |
| ActionRegex.SearchAction | backend/app/api.py:146 | The tuple `m.groups()`. There is a result exactly when the pattern matches. The verb is `search` or `finish`. `OneGroup` yields one group. `TwoGroups` yields a second group: the text between the `(` and the last `)`. |
| ActionRegex.AsWrittenHasOneGroup | backend/app/api.py:146-148 | As written, every match has fewer than two groups. |
| ActionRegex.SearchDirectiveMatch | backend/app/api.py:146 | `Action: search(refund policy)` matches as a whole: the tag at 0, the verb `search` at 8, `(` at 14 and the last `)` at 28. |
| ActionRegex.SearchDirectiveExample | backend/app/api.py:146 | `Action: search(refund policy)` yields `["search"]` as written, and `["search", "refund policy"]` with the argument captured. |
| ChatApi.Or | backend/app/api.py:96 | Python `a or b`: `a` when truthy, else `b`. |
| ChatApi.FormatMessage | backend/app/api.py:96-99 | The role is `model` exactly when the sender (`user`, else `role`) is `AI` or `assistant`, and `user` otherwise. `parts` is one element: `message` when truthy, else `content`. |
| ChatApi.FormatHistoryForGemini | backend/app/api.py:92-100 | The output has the same length and order as the input history, and entry `i` depends on message `i` only. |
| ChatApi.UserContentFormat | backend/app/api.py:105 | `{"role": "user", "content": text}` becomes one user turn holding `text`. |
| ChatApi.AskGemini | backend/app/api.py:82-90 | Without a model it returns the fixed notice. Otherwise it returns `None` exactly when the call raised, and the stripped reply when it did not. |
| ChatApi.GetGreeting | backend/app/api.py:102-106 | Unconfigured: the default greeting and no model call. Configured: one call with the single user turn `Generate a greeting.`, and its answer, possibly `null`. |
| ChatApi.FirstYouIndex | backend/app/api.py:125 | The first entry whose `user` is `You`. No result means there is none. |
| ChatApi.TicketTitle | backend/app/api.py:125 | `next(...)`: the `message` of the first `You` entry, whatever its value, otherwise the question. |
| ChatApi.Decide | backend/app/api.py:148-158 | The decision on a round's match is never the apology. It returns the answer exactly when there is no match or fewer than two groups. A search or a `finish` needs group 1 to be that verb. |
| ChatApi.Classify | backend/app/api.py:143 | A round apologises exactly when its answer is missing or empty (`not llm_response`). |
| ChatApi.ReactOver | backend/app/api.py:138-160 | At most one ReAct call per remaining round, and at least one while rounds remain. On exhaustion every remaining round was called and the response is the fixed fallback. There are no more searches than calls. |
| ChatApi.ReactRun | backend/app/api.py:137-160 | The loop of a request, the reference for `ReactLoop` and `Chat`. It makes between one and five ReAct calls, with no more searches than calls. On exhaustion it made all five and answers the fixed fallback. |
| ChatApi.ReactRunCalls | backend/app/api.py:139-141 | The loop's ReAct calls: one per call of `ReactRun`, each to the ReAct model. `ReactLoop` proves call `j` is given the history plus the messages of the rounds before `j`. |
| ChatApi.ReactOverEnd | backend/app/api.py:139-158 | The loop ends in the round of its last call: with the apology on a missing or empty answer, or with that answer on return or `finish`. Every earlier round went on. |
| ChatApi.ReactOverSearches | backend/app/api.py:150-156 | The searches of a run are the queries of the `search` rounds it ran, in order. |
| ChatApi.ReactOverAfter | backend/app/api.py:139-160 | Once the first `i` rounds went on, the run ends as the run from round `i` does, with `i` more calls, and its searches are those of the first `i` rounds followed by the later ones. |
| ChatApi.ExhaustedIff | backend/app/api.py:139-160 | The fallback is reached exactly when every round went on. |
| ChatApi.NeverProceeds | backend/app/api.py:150-158 | A matched verb is `search` or `finish`, so no round ends without returning or searching. |
| ChatApi.VerbIsStripped | backend/app/api.py:150 | `group(1).strip()` is the verb itself. |
| ChatApi.AsWrittenEndsInFirstRound | backend/app/api.py:143-148 | As written, a round either apologises or returns the answer verbatim. |
| ChatApi.AsWrittenNeverSearches | backend/app/api.py:138-160 | As written, the loop makes exactly one call, never searches and never reaches the fallback. Its response is the apology when the first ReAct answer is missing or empty, and otherwise that answer verbatim. |
| ChatApi.UnconfiguredReact | backend/app/api.py:83 | Without a credential the intent is not `FRUSTRATED`, and the loop returns the "not configured" notice after one call. |
| ChatApi.AsWrittenSearchIsAnswered | backend/app/api.py:146-148 | As written, the reply `Action: search(refund policy)` is handed to the user, after one call and no search. |
| ChatApi.AsWrittenDirectiveIsAnswer | backend/app/api.py:143-148 | As written, the reply `Action: search(refund policy)` is returned as an answer. |
| ChatApi.IntendedDirectiveIsSearch | backend/app/api.py:143-156 | With the argument captured, the same reply is a search for `refund policy`. |
| ChatApi.IntendedSearchIsRetrieved | backend/app/api.py:150-158 | With the argument captured, the same reply makes the first round search for `refund policy`, and a second call follows. |
| ChatApi.LoopMessagesFormat | backend/app/api.py:137 | The user's entry, the model's answers and the observations translate to user, model and user turns, with their texts. |
| ChatApi.FirstReactInput | backend/app/api.py:137-140 | The first ReAct input is the translated history plus one user turn `User: <question>`, so its length is `len(chat_history) + 1`. |
| ChatApi.ParseAction | backend/app/api.py:146-158 | The decision of a round on a non-empty answer agrees with `Classify` and is never the apology. |
| ChatApi.ReactRound | backend/app/api.py:140-158 | One round. The call is given the translated history so far. The round ends exactly when its step does not go on, and the response is the apology or the answer. Otherwise it appends the answer and, on a search, the observation. |
| ChatApi.ReactLoop | backend/app/api.py:137-160 | The `for` loop over five rounds. Its response and search log are those of `ReactRun`. Its call log is `ReactRunCalls`: the call of round `j` is given the translated history plus the answers and observations of the rounds before `j`. |
| ChatApi.ReactCallsOfChat | backend/app/api.py:137-160 | A request that reaches the loop makes the intent call and then the loop's calls. The first loop call sees the history plus `User: <question>`. Without a credential, or with the pattern as written, it is the only loop call. |
| ChatApi.Chat | backend/app/api.py:108-160 | An empty stripped question is rejected with 400 before any call, ticket or search. Otherwise call 0 is the intent model on the single user turn with the stripped question. Only an intent of exactly `FRUSTRATED` escalates: exactly two calls, no search, and for a string title one ticket (title, the summarizer's possibly-`None` answer, the unchanged history) with the acknowledgment, or a server error and no ticket for any other title. Any other intent runs the loop: the response and searches are those of `ReactRun`, the calls after the intent call are `ReactRunCalls`, and call 1 is given the history plus `User: <question>`. As written that is exactly two calls and no search, and the response is the apology when the first ReAct answer is missing or empty, or otherwise that answer verbatim. Without a credential the response is the "not configured" notice, after two calls. |
| Chunking.ChunksOf | backend/build_vector_db.py:26 | There are no more chunks than pieces, and every chunk is non-empty and has no white space at its ends. |
| Chunking.Chunks | backend/build_vector_db.py:26 | The comprehension `[p.strip() for p in text.split("\n\n") if p.strip()]`, also at backend/build_image_vector_db.py:43. There are no more chunks than pieces, and every chunk is non-empty and stripped. `ChunksInSourceOrder` and `NoChunksIffBlank` characterise the result fully. |
| Chunking.ChunksAreStripped | backend/build_vector_db.py:26 | Every chunk is non-empty and `strip(c) == c`. |
| Chunking.KeptFrom | backend/build_vector_db.py:26 | The positions of the kept pieces: a position from `j` on is listed exactly when its piece is not all white space, that is, when its strip is non-empty. |
| Chunking.KeptFromIncreasing | backend/build_vector_db.py:26 | The kept positions are strictly increasing, so the chunks keep the order of the text. |
| Chunking.ChunksAreKeptPieces | backend/build_vector_db.py:26 | Chunk `k` is the strip of the `k`-th kept piece. |
| Chunking.ChunksInSourceOrder | backend/build_image_vector_db.py:43 | The chunks are, in source order, the stripped non-blank pieces of the split, one per kept piece. |
| Chunking.ChunksOfAvoid | backend/build_vector_db.py:26 | Stripping keeps out a separator the pieces do not contain. |
| Chunking.ChunksHaveNoParagraphBreak | backend/build_vector_db.py:26 | No chunk contains `"\n\n"`. |
| Chunking.ChunksOfEmpty | backend/build_vector_db.py:26-27 | No chunk survives exactly when every piece is blank. |
| Chunking.JoinAllSpace | backend/build_vector_db.py:26 | A join with a blank separator is blank exactly when all its pieces are. |
| Chunking.NoChunksIffBlank | backend/build_vector_db.py:26-29 | There are no chunks exactly when the knowledge base is all white space. |
| VectorDbBuild.BuildVectorDb | backend/build_vector_db.py:18-51 | A missing file writes nothing. Something is written exactly when the text is not all white space. Then the index over `chunks` is written first, and after it the pickled list of the same chunks in the same order. |
| VectorDbBuild.WrittenChunksAreParagraphs | backend/build_vector_db.py:26-51 | A written chunk list is non-empty, and its chunks are non-empty, stripped and free of `"\n\n"`. |
| ImageVectorDbBuild.ImagePath | backend/build_image_vector_db.py:46 | `os.path.join(IMAGE_DIR, f"chunk_{i}.png")`. `ImagePathShape` gives its text and `ImagePathInjective` shows that distinct chunks get distinct files. |
| ImageVectorDbBuild.ImagePathShape | backend/build_image_vector_db.py:46 | `image_paths[i]` is `kb_images/chunk_<i>.png`. |
| ImageVectorDbBuild.ImagePathInjective | backend/build_image_vector_db.py:46 | Distinct indices give distinct paths. |
| ImageVectorDbBuild.BuildImageVectorDb | backend/build_image_vector_db.py:32-48 | The directory is created exactly when it is missing. A missing file renders nothing. Otherwise there are as many paths and renders as chunks: chunk `i` is rendered to `image_paths[i]`, the paths are pairwise distinct, and with zero chunks `image_paths` is empty. |
| FrontendApp.AnswerFrom | frontend/src/App.js:9 | `(match && match[1]) ? match[1].trim() : response`. No match, or an empty capture, shows the response. A non-empty capture shows text with no white space at either end. |
| FrontendApp.ParseFinalAnswer | frontend/src/App.js:7-10 | No match returns the response unchanged. A match with an empty capture also returns the response. Otherwise it returns the trimmed capture: the text between the `(` after the leftmost `Action:\s*finish` and the last `)`. |
| FrontendApp.ParseFinalAnswerCapture | frontend/src/App.js:8 | The verb is `finish`. The capture starts right after `finish(` and ends at a `)` with no `)` after it. No match starts further left. |
| FrontendApp.AnswerFromIsSubstring | frontend/src/App.js:9-10 | For any match whose capture lies inside the response, the shown answer is a substring of the response. |
| FrontendApp.ParseFinalAnswerIsSubstring | frontend/src/App.js:7-10 | The result is always a substring of the response. |
| FrontendApp.ParseFinalAnswerIsTrimmed | frontend/src/App.js:9 | After a match with a non-empty capture, the result has no white space at either end. |
| FrontendApp.PlainResponseUnchanged | frontend/src/App.js:8-9 | A response without `:` is shown as it is. |
| FrontendApp.FirstMatchAfter | frontend/src/App.js:8 | No match starts inside a prefix without `A`, so the leftmost match is the one right after that prefix. |
| FrontendApp.FinishReplyMatch | frontend/src/App.js:8 | `Action: finish(ans)` at the end of a reply matches the frontend pattern at the tag. The capture is `ans`. |
| FrontendApp.ParseFinishReply | frontend/src/App.js:7-10 | `<text without A>Action: finish(ans)` shows `trim(ans)`, or the whole reply when `ans` is empty. |
| FrontendApp.LastYouIndex | frontend/src/App.js:103 | `findLast`: the last entry of `You`, with none after it. No result means there is none. |
| FrontendApp.FeedbackTitle | frontend/src/App.js:103 | The message of the last `You` entry when it is non-empty, otherwise `Feedback Ticket`. The title is never empty. |
| FrontendApp.FeedbackTitleAfterAnswer | frontend/src/App.js:96-103 | After a question and its answer, the feedback title is that question. |
| FrontendApp.ChatPage.constructor | frontend/src/App.js:51-54 | Empty question, empty history, no feedback. |
| FrontendApp.ChatPage.Type | frontend/src/App.js:174 | The box holds the typed text, and nothing else changes. |
| FrontendApp.ChatPage.SubmitQuestion | frontend/src/App.js:85-94 | A question that trims to empty changes nothing and sends nothing. Otherwise the history gains one `You` entry with the untrimmed question, the box is cleared, and the question and the new history are sent. |
| FrontendApp.ChatPage.ReceiveAnswer | frontend/src/App.js:95-97 | The history becomes the one sent, plus one `AI` entry with `parseFinalAnswer(raw)` as its message and `raw` as `fullResponse`. |
| FrontendApp.ChatPage.Feedback | frontend/src/App.js:100-108 | The entry's id is marked as rated. Negative feedback gives a ticket with title `FeedbackTitle(history)`, the entry's `fullResponse` as summary and the unchanged history. Positive feedback gives no ticket. |

## Left out

- `search_vector_db` (backend/app/api.py:31-46): FAISS, pickle and sentence embeddings over floats. It is the parameter `retrieve`, a deterministic function of the query.
- The provider calls inside `ask_gemini` and the model construction (backend/app/api.py:63-80, 84-86): network I/O. The reply to each call is an oracle entry.
- The system prompts (backend/app/api.py:67-76) and the generation temperature: they only shape the oracle's answers.
- `crud.create_ticket`, the database session and the other ticket endpoints (backend/app/api.py:162-174, crud.py, models.py): a created ticket is an entry of a ghost log.
- `schemas.TicketCreate` validation is reduced to one check: a title that is not a string is a server error. Other validation of the request body is left out.
- ChatApi.Chat: the 422 error FastAPI returns for a body that does not parse is not modelled. `ChatRequest` is already well-typed.
- Text rendering with PIL, CLIP and MiniLM encoding, index construction and the file writes (backend/build_image_vector_db.py:16-25, 51-76; backend/build_vector_db.py:32-51). These are foreign libraries and floats. An artifact records the chunk sequence it was built from.
- ImageVectorDbBuild.BuildImageVectorDb: the encode step runs on an empty image list when there are zero chunks, and its failure is not modelled. The method stops after the rendering loop.
- Console output (`print`, `console`) and `alert` calls.
- The React rendering, effects, `fetch`, `sessionStorage`, scrolling and the ticket views of App.js. The page's state changes are the `ChatPage` methods, the clock (`Date.now()`) is a parameter, and the request bodies are returned instead of sent.
- FrontendApp.ChatPage.ReceiveAnswer: the case where `data.response` is missing is not modelled. That happens when the server answered with an error body, so that `parseFinalAnswer(undefined)` shows `undefined`. Here the raw response is always a string.
- The `async` interleaving of `handleChatSubmit`: another update between `SubmitQuestion` and `ReceiveAnswer` is overwritten, because `ReceiveAnswer` builds on the history that was sent. Concurrency itself is not modelled.
- JSON numbers are integers in `ChatApi.Value`; floats are not modelled.
- `os.path` is taken to be `posixpath`. The `\` separator and drive letters of `ntpath` are not modelled.
- Both builders open the knowledge base with `encoding="utf-8"` (backend/build_vector_db.py:18-23, backend/build_image_vector_db.py:36-41). A file that is not valid UTF-8 raises `UnicodeDecodeError`, which propagates. `knowledgeBase: Option<string>` only distinguishes a missing file from a readable text, so this failure is not modelled.
- JavaScript strings are sequences of UTF-16 code units. Here every string is a sequence of Unicode scalar values, so `trim()` and the frontend pattern are modelled on code points, and unpaired surrogates are not represented.

## Findings

| source | as written | input that shows it | evidently intended | confidence | as-written member | corrected member |
|---|---|---|---|---|---|---|
| backend/app/api.py:146-148 | The pattern `Action:\s*(search\|finish)\(.*\)`, whose only group is the verb alternation, has one capture group. So `len(action_match.groups()) < 2` holds for every match, and every non-empty answer is returned verbatim on the first round. The `search` and `finish` branches and the fallback are dead, and nothing is ever retrieved. | The ReAct reply `Action: search(refund policy)` after the intent `QUESTION`: it is returned to the user as the answer, and no search is made. | The same pattern with `\((.*)\)`, capturing the argument, so that a `search` directive retrieves its argument and the loop goes on. | not executed | ChatApi.AsWrittenSearchIsAnswered | ChatApi.IntendedSearchIsRetrieved |

`ChatApi.Chat` is stated for both patterns, so each reading of the regular expression has its own proved behaviour. The as-written one is the code.
