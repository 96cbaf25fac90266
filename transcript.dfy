/** The session transcript (`st.session_state.conversation`) and the recency
    window sent to the agent; app.py and app2.py share this code. */
module Transcript {
  import opened Results

  /** The `"role"` of a transcript entry: `"user"` or `"ai"`. */
  datatype Role = User | Ai

  /** A transcript entry, the dictionary `{"role": ..., "content": ...}`. */
  datatype Entry = Entry(role: Role, content: string)

  /** A LangChain chat message as the agent sees and returns it. */
  datatype LcMessage = HumanMessage(content: string) | AIMessage(content: string) | ToolMessage(content: string)

  /** `agent.invoke({"messages": ...})["messages"]`, an oracle: the agent's
      full message list, or the exception it raised. */
  type Agent = seq<LcMessage> -> Result<seq<LcMessage>>

  const MemoryWindowK := 3
  const MemoryWindowSize := MemoryWindowK * 2

  function Min(a: int, b: int): int { if a <= b then a else b }

  /** `conversation[-MEMORY_WINDOW_SIZE:]`: the last six entries, or all of
      them when there are fewer. */
  function Window(entries: seq<Entry>): (w: seq<Entry>)
    ensures |w| == Min(MemoryWindowSize, |entries|)
    ensures w == entries[|entries| - |w|..]
  {
    if |entries| <= MemoryWindowSize then entries else entries[|entries| - MemoryWindowSize..]
  }

  /** `[HumanMessage(content=m["content"]) for m in conversation[-6:]]`. */
  function AgentInput(entries: seq<Entry>): seq<LcMessage>
  {
    var w := Window(entries);
    seq(|w|, i requires 0 <= i < |w| => HumanMessage(w[i].content))
  }

  /** The agent input mirrors the transcript's most recent min(6, n) entries
      in order, each wrapped as a human message whatever its role; its last
      message is the newest entry. */
  lemma AgentInputIsRecentSuffix(entries: seq<Entry>)
    ensures |AgentInput(entries)| == Min(MemoryWindowSize, |entries|)
    ensures forall i :: 0 <= i < |AgentInput(entries)| ==>
      AgentInput(entries)[i] == HumanMessage(entries[|entries| - |AgentInput(entries)| + i].content)
    ensures |entries| > 0 ==> AgentInput(entries)[|AgentInput(entries)| - 1] == HumanMessage(entries[|entries| - 1].content)
  {
  }

  /** `all_messages[-1].content`: indexing an empty list raises IndexError. */
  function LastContent(messages: seq<LcMessage>): (r: Result<string>)
    ensures |messages| == 0 <==> r.Err?
    ensures r.Err? ==> r.message == "list index out of range"
    ensures r.Ok? ==> r.value == messages[|messages| - 1].content
  {
    if |messages| == 0 then Err("list index out of range") else Ok(messages[|messages| - 1].content)
  }

  /** The agent's reply for one turn: its exception, or the last message's content. */
  function AgentReply(response: Result<seq<LcMessage>>): Result<string>
  {
    match response
    case Err(e) => Err(e)
    case Ok(messages) => LastContent(messages)
  }

  /** The shape every handled turn leaves behind: entries alternate user, ai,
      starting with user, and so come in pairs. */
  ghost predicate Alternating(entries: seq<Entry>)
  {
    && |entries| % 2 == 0
    && forall i :: 0 <= i < |entries| ==> entries[i].role == (if i % 2 == 0 then User else Ai)
  }

  /** One completed turn: what the user typed and what was shown back. */
  datatype Exchange = Exchange(input: string, response: string)

  /** The transcript that a sequence of completed turns produces. */
  function Replay(turns: seq<Exchange>): (entries: seq<Entry>)
    ensures |entries| == 2 * |turns|
    decreases |turns|
  {
    if |turns| == 0 then []
    else
      var last := turns[|turns| - 1];
      Replay(turns[..|turns| - 1]) + [Entry(User, last.input), Entry(Ai, last.response)]
  }

  /** Reads the turns back off a transcript of user/ai pairs. */
  function Exchanges(entries: seq<Entry>): seq<Exchange>
    decreases |entries|
  {
    if |entries| < 2 then []
    else
      var n := |entries|;
      Exchanges(entries[..n - 2]) + [Exchange(entries[n - 2].content, entries[n - 1].content)]
  }

  /** After k turns the transcript holds 2k entries in alternating roles,
      turn j sitting at positions 2j and 2j + 1. */
  lemma {:induction false} ReplayShape(turns: seq<Exchange>)
    ensures Alternating(Replay(turns))
    ensures forall j :: 0 <= j < |turns| ==>
      Replay(turns)[2 * j] == Entry(User, turns[j].input) && Replay(turns)[2 * j + 1] == Entry(Ai, turns[j].response)
    decreases |turns|
  {
    if |turns| > 0 {
      var front := turns[..|turns| - 1];
      ReplayShape(front);
      var r := Replay(turns);
      assert r == Replay(front) + [Entry(User, turns[|turns| - 1].input), Entry(Ai, turns[|turns| - 1].response)];
      forall j | 0 <= j < |turns|
        ensures r[2 * j] == Entry(User, turns[j].input) && r[2 * j + 1] == Entry(Ai, turns[j].response)
      {
        if j < |turns| - 1 {
          assert turns[j] == front[j];
        }
      }
    }
  }

  /** Appending one user entry and one ai entry keeps the alternation. */
  lemma AppendExchangeKeepsAlternation(entries: seq<Entry>, input: string, response: string)
    requires Alternating(entries)
    ensures Alternating(entries + [Entry(User, input), Entry(Ai, response)])
  {
  }

  /** Every alternating transcript is the replay of the turns read off it. */
  lemma {:induction false} AlternatingIsReplay(entries: seq<Entry>)
    requires Alternating(entries)
    ensures Replay(Exchanges(entries)) == entries
    decreases |entries|
  {
    if |entries| > 0 {
      AlternatingDropPair(entries);
      AlternatingIsReplay(entries[..|entries| - 2]);
      ReplayLastPair(entries);
    }
  }

  /** An alternating transcript ends in a user/ai pair, and what precedes it alternates. */
  lemma AlternatingDropPair(entries: seq<Entry>)
    requires Alternating(entries) && |entries| > 0
    ensures |entries| >= 2 && Alternating(entries[..|entries| - 2])
    ensures entries[|entries| - 2].role == User && entries[|entries| - 1].role == Ai
  {
    var n := |entries|;
    var front := entries[..n - 2];
    forall i | 0 <= i < |front| ensures front[i].role == (if i % 2 == 0 then User else Ai) {
      assert front[i] == entries[i];
    }
    assert (n - 2) % 2 == 0 && (n - 1) % 2 == 1;
  }

  /** One step of AlternatingIsReplay: a closing user/ai pair is replayed as itself. */
  lemma ReplayLastPair(entries: seq<Entry>)
    requires |entries| >= 2 && |entries| % 2 == 0
    requires Replay(Exchanges(entries[..|entries| - 2])) == entries[..|entries| - 2]
    requires entries[|entries| - 2].role == User && entries[|entries| - 1].role == Ai
    ensures Replay(Exchanges(entries)) == entries
  {
    var n := |entries|;
    var front := entries[..n - 2];
    var x := Exchange(entries[n - 2].content, entries[n - 1].content);
    var ex := Exchanges(entries);
    assert ex == Exchanges(front) + [x];
    assert ex[..|ex| - 1] == Exchanges(front);
    assert Replay(ex) == front + [Entry(User, x.input), Entry(Ai, x.response)];
    assert entries[n - 2] == Entry(User, x.input) && entries[n - 1] == Entry(Ai, x.response);
    SplitLastTwo(entries);
  }

  lemma SplitLastTwo<T>(s: seq<T>)
    requires |s| >= 2
    ensures s == s[..|s| - 2] + [s[|s| - 2], s[|s| - 1]]
  {
  }

  /** Reading the turns back off a replay gives the turns: with
      AlternatingIsReplay, transcripts and turn histories correspond one to one. */
  lemma {:induction false} ExchangesOfReplay(turns: seq<Exchange>)
    ensures Exchanges(Replay(turns)) == turns
    decreases |turns|
  {
    if |turns| > 0 {
      var front := turns[..|turns| - 1];
      ExchangesOfReplay(front);
      var last := turns[|turns| - 1];
      var r := Replay(turns);
      assert r == Replay(front) + [Entry(User, last.input), Entry(Ai, last.response)];
      var n := |r|;
      assert r[..n - 2] == Replay(front);
      calc {
        Exchanges(r);
        Exchanges(r[..n - 2]) + [Exchange(r[n - 2].content, r[n - 1].content)];
        Exchanges(Replay(front)) + [Exchange(last.input, last.response)];
        front + [last];
        turns;
      }
    }
  }

  /** The transcript list of one session, appended to in place. */
  class Conversation {
    var entries: seq<Entry>

    /** `st.session_state.conversation = []` */
    constructor ()
      ensures entries == []
    {
      entries := [];
    }

    /** `conversation.append(entry)`: nothing already present changes. */
    method Append(entry: Entry)
      modifies this
      ensures entries == old(entries) + [entry]
    {
      entries := entries + [entry];
    }
  }
}
