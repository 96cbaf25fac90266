/** The turn handler of app.py: record the user's message, send the recent
    window to the agent, record its reply or the error. */
module App {
  import opened Results
  import opened Transcript

  const ErrorPrefix := " Error: "

  /** What app.py shows for one agent call: the last message's content, or
      the exception text after " Error: " (with its leading space). */
  function Response(reply: Result<string>): string
  {
    match reply
    case Ok(text) => text
    case Err(e) => ErrorPrefix + e
  }

  /** A successful agent call is shown verbatim; any exception, including
      the IndexError of an empty message list, is shown as an error string. */
  lemma ResponseCases(response: Result<seq<LcMessage>>)
    ensures response.Ok? && |response.value| > 0 ==>
      Response(AgentReply(response)) == response.value[|response.value| - 1].content
    ensures response.Ok? && |response.value| == 0 ==>
      Response(AgentReply(response)) == ErrorPrefix + "list index out of range"
    ensures response.Err? ==> Response(AgentReply(response)) == ErrorPrefix + response.message
  {
  }

  /** One run of the `if user_input:` block against `conversation`. An empty
      input does nothing; otherwise exactly two entries are appended, the
      user's message and then an "ai" entry, and earlier entries stay as
      they were. The agent sees the window taken after the user's entry. */
  method HandleTurn(conversation: Conversation, userInput: string, agent: Agent)
    modifies conversation
    ensures userInput == "" ==> conversation.entries == old(conversation.entries)
    ensures userInput != "" ==>
      var withUser := old(conversation.entries) + [Entry(User, userInput)];
      conversation.entries == withUser + [Entry(Ai, Response(AgentReply(agent(AgentInput(withUser)))))]
    ensures Alternating(old(conversation.entries)) ==> Alternating(conversation.entries)
  {
    if userInput == "" {
      return;
    }
    ghost var previous := conversation.entries;
    conversation.Append(Entry(User, userInput));
    var aiResponse: string;
    var messagesForInvoke := AgentInput(conversation.entries);
    var response := agent(messagesForInvoke);
    var reply := AgentReply(response);
    match reply {
      case Ok(content) => aiResponse := content;
      case Err(e) => aiResponse := ErrorPrefix + e;
    }
    assert aiResponse == Response(reply);
    conversation.Append(Entry(Ai, aiResponse));
    assert conversation.entries == previous + [Entry(User, userInput), Entry(Ai, aiResponse)];
    if Alternating(previous) {
      AppendExchangeKeepsAlternation(previous, userInput, aiResponse);
    }
  }
}
