# MiniDxO: a Dafny model of the chat-turn orchestration

MiniDxO is a Streamlit symptom-triage chat. Each time the user submits a
message, the app appends it to the session transcript, sends the six most
recent transcript entries to a LangChain agent (which may call a trusted
vector-store search tool or a DuckDuckGo tool), and appends the agent's
reply. The second app (`app2.py`) then runs a "multi-doctor" consensus
session: one Dr. Hypothesis call, then up to five rounds of Dr. Challenge and
Dr. Checklist calls, stopping at the first checklist that mentions "final" or
"conclusion" or after the fifth. The final checklist is appended to the reply
under a fixed header.

This project models that control logic. The LLM, the agent, the retriever and
the web search are oracles given as function-valued parameters:

- the agent is `seq<LcMessage> -> Result<seq<LcMessage>>`;
- the consensus LLM is `(nat, string) -> Result<string>`, where the number is
  how many LLM calls the session made before this one, so replies may differ
  between calls (a scripted sequence of replies is a special case);
- the retriever is `string -> Result<seq<Document>>`;
- the web search is `string -> Result<string>`.

`Err(message)` stands for a raised Python exception, and `message` is what
`str(e)` gives.

Modules:

- `Results`: the `Result` type.
- `Text`: ASCII lower-casing, the `in` substring test, `str.join`.
- `Tools` (`utils/tools.py`): the trusted search and `create_tools`. `app2.py`
  defines the same search function and tool list inline at lines 51-73, and the
  same model covers that copy.
- `Transcript`: entries, the six-entry window, the agent input, extraction of
  the last reply, and the in-place `Conversation` list. Both apps share this code.
- `App` (`app.py`): the turn handler.
- `Consensus` (`app2.py`): the consensus session. `Deliberate` is a recursive
  reference definition whose properties are proved as lemmas. `Conforms` states
  the protocol the loop keeps; a session meets it if and only if it is the one
  `Deliberate` defines. `RunPanel` is
  the `for i in range(5)` loop with `break`, proved equal to the reference.
- `PanelApp` (`app2.py`): the turn handler with the consensus section.

If the agent or any consensus call raises in `app2.py`, the whole reply
becomes `"⚠ Error: " + message`. The agent's reply is not kept: the `except`
branch (app2.py:188-189) replaces `ai_response`, so a failing consensus call
also discards the agent's reply.

Python's `final_round` is assigned only on the `break` path. `RunPanel` keeps
it that way. The loop invariant `i < 5` is what shows that the variable is
always assigned before use.

## Model

| member | source | states |
|---|---|---|
| Tools.FormatRetrieval | utils/tools.py:8-12 | the trusted search's answer once the retriever has replied: the sentinel, the joined contents or the error string (its cases are stated by the four lemmas below) |
| Tools.SearchTrustedMedicalKnowledge | utils/tools.py:5-12 | `search_trusted_medical_knowledge`: asks the retriever about the query and formats its answer; a total function, so no exception escapes |
| Tools.PageContents | utils/tools.py:10 | one page content per retrieved document, in retriever order |
| Tools.SearchUsesQueryUnchanged | utils/tools.py:7 | two retrievers that answer the query alike give the same result: the query is passed on unchanged |
| Tools.EmptyRetrievalGivesSentinel | utils/tools.py:8-9 | an empty retrieval returns exactly "No relevant information found in the trusted knowledge base." |
| Tools.NonEmptyRetrievalIsJoined | utils/tools.py:10 | a non-empty retrieval is the concatenation of contents and separators alternating, contents in retriever order, exactly n-1 separators "\n---\n", length = total content length + (n-1)*5 |
| Tools.SingleDocumentIsItsContent | utils/tools.py:10 | one document yields exactly its content, with no separator |
| Tools.RetrieverErrorIsReported | utils/tools.py:11-12 | a retriever exception yields "Error during semantic search: " followed by its message |
| Tools.CreateTools | utils/tools.py:14-29 | exactly two tools, under distinct names: the trusted search first, with its name and description, whose callable never raises; then duckduckgo_search, which forwards to the web search |
| Text.LowerChar | app2.py:179 | ASCII upper-case letters map to lower case; everything else is unchanged; no upper-case letter remains |
| Text.Lower | app2.py:179 | lower-casing keeps the length and maps each character |
| Text.Contains | app2.py:179 | Python's `pat in s`, a left-to-right scan; Text.ContainsIff states what it finds |
| Text.ContainsIff | app2.py:179 | the scan finds the pattern if and only if it occurs at some index |
| Text.OccursAtLower | app2.py:179 | an occurrence in the text is an occurrence of the lower-cased pattern in the lower-cased text, at the same index |
| Text.Join | utils/tools.py:10 | `sep.join(parts)`; Text.JoinIsConcatOfWeave, Text.WeaveShape and Text.JoinLength state its result |
| Text.WeaveShape | utils/tools.py:10 | the woven list has 2n-1 items: the parts at even positions in order, the separator at every odd position |
| Text.JoinIsConcatOfWeave | utils/tools.py:10 | `join` equals the concatenation of the woven list |
| Text.JoinLength | utils/tools.py:10 | a non-empty join is as long as the parts plus n-1 separators |
| Text.JoinSingle | utils/tools.py:10 | joining one part gives that part |
| Transcript.Window | app.py:78 | `conversation[-6:]` is the suffix of length min(6, n) |
| Transcript.AgentInput | app2.py:159 | the human messages built from the window (also app.py:78); Transcript.AgentInputIsRecentSuffix states their contents |
| Transcript.AgentInputIsRecentSuffix | app2.py:159 | the agent input has min(6, n) messages, each a human message holding the content of the matching recent entry, whatever its role; the last is the newest entry |
| Transcript.LastContent | app.py:80-82 | the reply is the last message's content; an empty list raises IndexError "list index out of range" |
| Transcript.AgentReply | app.py:79-82 | the agent's exception, or the last returned message's content by way of Transcript.LastContent |
| Transcript.Conversation.constructor | app.py:62-63 | a session starts with an empty transcript |
| Transcript.Conversation.Append | app.py:75 | append adds the entry at the end and changes nothing else |
| Transcript.Replay | app.py:75-86 | k turns produce 2k entries |
| Transcript.ReplayShape | app.py:75-86 | after k turns the roles alternate user, ai, and turn j occupies positions 2j and 2j+1 |
| Transcript.AppendExchangeKeepsAlternation | app.py:75-86 | appending a user entry and then an ai entry keeps the alternation |
| Transcript.AlternatingIsReplay | app.py:75-86 | every alternating transcript is the replay of the turns read off it |
| Transcript.ExchangesOfReplay | app.py:75-86 | reading the turns back off a replay gives the same turns |
| App.Response | app.py:82-84 | the text app.py appends: the reply, or " Error: " followed by the exception message; App.ResponseCases states both cases |
| App.ResponseCases | app.py:79-84 | success shows the last message's content; an exception (including an empty message list) shows " Error: " followed by its message |
| App.HandleTurn | app.py:74-86 | empty input does nothing. Otherwise exactly the user entry and then one ai entry are appended, and earlier entries are unchanged. The agent gets the window taken after the user entry, and the appended reply is its response or the error string. The alternation is preserved |
| Consensus.HypothesisPrompt | app2.py:166 | the Dr. Hypothesis prompt built around the user's input |
| Consensus.ChallengePrompt | app2.py:171 | the Dr. Challenge prompt built around the current hypothesis |
| Consensus.ChecklistPrompt | app2.py:175 | the Dr. Checklist prompt built around the hypothesis and the challenge |
| Consensus.HasMarker | app2.py:179 | the stopping test: "final" or "conclusion" in the ASCII-lower-cased checklist; Consensus.MarkerIgnoresCase and Consensus.MarkerFiresInsideWords state its reach |
| Consensus.MarkerIgnoresCase | app2.py:179 | any capitalisation of "final" or "conclusion", anywhere in the checklist, stops the session |
| Consensus.MarkerFiresInsideWords | app2.py:179 | the marker test is a substring test, so "Finally..." also stops the session |
| Consensus.Deliberate | app2.py:166-182 | reference definition of one consensus session: the Hypothesis call, then the rounds; its properties are the lemmas below |
| Consensus.RoundsFrom | app2.py:170-182 | the remaining rounds from a given hypothesis, at most five in all, stopping on a marker, at the fifth round, or at the first call that raises |
| Consensus.RoundsFromConforms | app2.py:170-182 | from any point of the loop, the remaining rounds keep the protocol and end as promised |
| Consensus.DeliberateConforms | app2.py:166-182 | a whole session follows the protocol. The first prompt is the Dr. Hypothesis prompt. Each round's Challenge and Checklist prompts hold the current hypothesis, and their replies come from the oracle. Each unmarked checklist becomes the next hypothesis. The session stops on the first marked checklist, after round five, or at the first call that raises, whose prompt is the one the unfinished round sends |
| Consensus.ConformsUnique | app2.py:166-182 | the converse of Consensus.DeliberateConforms: any session that follows the protocol is the session the loop produces, so the protocol determines the session |
| Consensus.ConformsFromState | app2.py:170-182 | from any point of the loop, a session that follows the protocol and extends the calls made so far is the remaining rounds the loop produces |
| Consensus.FailedSessionCalls | app2.py:166-188 | in any session that follows the protocol and raised, every call but the last returned and the last call's exception is the session's error |
| Consensus.SessionIsBounded | app2.py:170-181 | at most 5 rounds and at most 11 LLM calls; a successful session made exactly 1 + 2 calls per round |
| Consensus.StopsAtFirstMarker | app2.py:179-181 | if round j's checklist has a marker, the session ends there with that checklist as final_round and 2j+3 calls; no later call is made |
| Consensus.EarlyStopHasMarker | app2.py:179-181 | a successful session that ended before the fifth round ended on a marked checklist |
| Consensus.NoMarkerMeansFifthChecklist | app2.py:179-180 | if no checklist has a marker, final_round is the fifth checklist |
| Consensus.HypothesesAreChained | app2.py:166-182 | the first hypothesis is the Dr. Hypothesis reply, each later hypothesis is the previous checklist, and each Challenge prompt holds that hypothesis |
| Consensus.FailureIsLastCall | app2.py:166-188 | a session that raised stopped at the first call that raised: every earlier call returned, and the last call's exception is the session's error |
| Consensus.RunPanel | app2.py:166-182 | the loop with `break` returns the same final_round (or exception) and sends the same prompts, in the same order, as the reference session |
| PanelApp.Response | app2.py:163-189 | the text app2.py appends: the agent reply with the consensus section, or "⚠ Error: " and the first failure's message; the two lemmas below state both cases |
| PanelApp.SuccessAppendsConsensus | app2.py:162-186 | on success, the reply is the agent reply + "\n\n🤝 **Final Doctor Consensus:**\n" + the last checklist, and that checklist has a marker or is the fifth |
| PanelApp.FailureDiscardsReply | app2.py:158-189 | if the agent or any consensus call fails, the agent reply is discarded and "⚠ Error: " + the message of the call that raised is shown |
| PanelApp.HandleTurn | app2.py:155-190 | empty input does nothing. Otherwise the user entry and then one ai entry are appended, and earlier entries are unchanged. The agent gets the six-entry window. The consensus session runs only after a successful agent call. The appended text is the reply with the consensus section, or the error string. The alternation is preserved |

## Left out

- Streamlit presentation: CSS, chat rendering, title, sidebar, spinner and `st.rerun`. They only display the transcript.
- `st.session_state.messages` is never used.
- Building and loading the vector store (FAISS, embeddings, `source.txt`, `utils.py`, `app2.py:21-49`) is file I/O behind foreign libraries. It is represented only by the retriever oracle.
- The internals of `ChatAnthropic`, `create_agent` and `DuckDuckGoSearchRun` are network and foreign calls, so they are oracles. Which tool the agent calls, and in what order, is decided by the LLM, so that is not modelled.
- The system prompt text (`utils/prompt.py`, `app2.py:75-100`) is not modelled. The trusted-first order and the question limits it asks for are advice to the LLM that the host code never enforces, so the model does not claim them.
- `print` logging in `app2.py:165-185` is output only.
- `config.py` reads the API key from the environment. The window size is the constant 3 * 2 = 6.
- Text.Lower: lower-cases only ASCII 'A'..'Z'. Python's `str.lower` applies Unicode case mapping.
- The agent oracle returns the message list directly. A response without a "messages" key (a KeyError) is not modelled.
- Message content is a string. LangChain's list-of-blocks content, formatted through an f-string, is not modelled.
- App.HandleTurn: `st.chat_input` returns `None` when nothing is submitted. The model treats that, like Python's falsy empty string, as `""`.
