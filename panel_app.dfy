/** The turn handler of app2.py: the app.py turn followed by the consensus
    session, whose final checklist is appended to the agent's reply. */
module PanelApp {
  import opened Results
  import opened Transcript
  import Consensus

  const ErrorPrefix := "\U{26A0} Error: "
  const ConsensusHeader := "\n\n\U{1F91D} **Final Doctor Consensus:**\n"

  /** What app2.py shows for one turn, given the agent's reply and the
      consensus session's outcome (the latter only matters if the former
      succeeded, since the session runs after the agent call). */
  function Response(reply: Result<string>, consensus: Result<string>): string
  {
    match reply
    case Err(e) => ErrorPrefix + e
    case Ok(text) =>
      match consensus
      case Err(e) => ErrorPrefix + e
      case Ok(finalRound) => text + ConsensusHeader + finalRound
  }

  /** On success the shown text is the agent reply, the fixed header and the
      session's final checklist, which carries a marker or is the fifth. */
  lemma SuccessAppendsConsensus(reply: string, llm: Consensus.Llm, userInput: string)
    requires Consensus.Deliberate(llm, userInput).outcome.Ok?
    ensures var s := Consensus.Deliberate(llm, userInput);
      && |s.rounds| >= 1
      && Response(Ok(reply), s.outcome) == reply + ConsensusHeader + s.rounds[|s.rounds| - 1].checklist
      && (Consensus.HasMarker(s.rounds[|s.rounds| - 1].checklist) || |s.rounds| == Consensus.MaxRounds)
  {
    Consensus.DeliberateConforms(llm, userInput);
  }

  /** A failure of the agent call, or of any call of the consensus session,
      discards the agent reply: the turn shows "⚠ Error: " and the message of
      the call that raised. */
  lemma FailureDiscardsReply(reply: Result<string>, llm: Consensus.Llm, userInput: string)
    requires reply.Err? || Consensus.Deliberate(llm, userInput).outcome.Err?
    ensures var s := Consensus.Deliberate(llm, userInput);
      && |s.prompts| >= 1
      && (reply.Err? ==> Response(reply, s.outcome) == ErrorPrefix + reply.message)
      && (reply.Ok? ==>
            && Response(reply, s.outcome) == ErrorPrefix + s.outcome.message
            && llm(|s.prompts| - 1, s.prompts[|s.prompts| - 1]) == Err(s.outcome.message))
  {
    Consensus.DeliberateConforms(llm, userInput);
  }

  /** One run of the `if user_input:` block of app2.py. An empty input does
      nothing. Otherwise the user's entry and then one "ai" entry are
      appended and nothing earlier changes; the agent sees the window taken
      after the user's entry; the consensus session runs only when the agent
      call succeeded, and `consensusPrompts` are the prompts it sent. */
  method HandleTurn(conversation: Conversation, userInput: string, agent: Agent, llm: Consensus.Llm)
    returns (consensusPrompts: seq<string>)
    modifies conversation
    ensures userInput == "" ==> conversation.entries == old(conversation.entries) && consensusPrompts == []
    ensures userInput != "" ==>
      var withUser := old(conversation.entries) + [Entry(User, userInput)];
      var reply := AgentReply(agent(AgentInput(withUser)));
      var session := Consensus.Deliberate(llm, userInput);
      && conversation.entries == withUser + [Entry(Ai, Response(reply, session.outcome))]
      && consensusPrompts == (if reply.Err? then [] else session.prompts)
    ensures Alternating(old(conversation.entries)) ==> Alternating(conversation.entries)
  {
    consensusPrompts := [];
    if userInput == "" {
      return;
    }
    ghost var previous := conversation.entries;
    conversation.Append(Entry(User, userInput));
    var aiResponse: string;
    var messagesForInvoke := AgentInput(conversation.entries);
    var response := agent(messagesForInvoke);
    var reply := AgentReply(response);
    match reply {
      case Err(e) =>
        aiResponse := ErrorPrefix + e;
      case Ok(content) =>
        aiResponse := content;
        var finalRound;
        finalRound, consensusPrompts := Consensus.RunPanel(llm, userInput);
        match finalRound {
          case Err(e) => aiResponse := ErrorPrefix + e;
          case Ok(text) => aiResponse := aiResponse + ConsensusHeader + text;
        }
    }
    conversation.Append(Entry(Ai, aiResponse));
    assert conversation.entries == previous + [Entry(User, userInput), Entry(Ai, aiResponse)];
    if Alternating(previous) {
      AppendExchangeKeepsAlternation(previous, userInput, aiResponse);
    }
  }
}
