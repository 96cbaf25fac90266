/** The "multi-doctor" consensus session of app2.py: one Dr. Hypothesis call,
    then up to five rounds of Dr. Challenge and Dr. Checklist calls. */
module Consensus {
  import opened Results
  import Text

  /** `llm.invoke([HumanMessage(content=prompt)]).content`, an oracle. The
      first argument is the number of LLM calls this session made before
      this one, so the oracle may answer the same prompt differently on
      different calls (a scripted sequence of replies is one such oracle). */
  type Llm = (nat, string) -> Result<string>

  const MaxRounds := 5

  const HypothesisLead := "User symptoms: "
  const HypothesisTail := ". As Dr. Hypothesis, propose top 3 possible causes."
  const ChallengeLead := "As Dr. Challenge, logically challenge Dr. Hypothesis's possibilities:\n"
  const ChecklistLead := "As Dr. Checklist, ensure clinical consistency between these points and refine final thought:\nHypothesis: "
  const ChecklistMiddle := "\nChallenge: "

  function HypothesisPrompt(userInput: string): string
  {
    HypothesisLead + userInput + HypothesisTail
  }

  function ChallengePrompt(hypothesis: string): string
  {
    ChallengeLead + hypothesis
  }

  function ChecklistPrompt(hypothesis: string, challenge: string): string
  {
    ChecklistLead + hypothesis + ChecklistMiddle + challenge
  }

  /** The stopping test on a checklist: it contains "final" or "conclusion"
      once lower-cased (ASCII letters only). */
  predicate HasMarker(checklist: string)
  {
    Text.Contains(Text.Lower(checklist), "final") || Text.Contains(Text.Lower(checklist), "conclusion")
  }

  /** The test ignores case: any spelling of "final" ("Final", "FINAL", ...)
      anywhere in the checklist stops the session. */
  lemma MarkerIgnoresCase(checklist: string, word: string, i: int)
    requires Text.OccursAt(checklist, word, i)
    requires Text.Lower(word) == "final" || Text.Lower(word) == "conclusion"
    ensures HasMarker(checklist)
  {
    Text.OccursAtLower(checklist, word, i);
    Text.ContainsIff(Text.Lower(checklist), Text.Lower(word));
  }

  /** The test is a plain substring search, so it also fires inside longer
      words: a checklist opening with "Finally" stops the session. */
  lemma MarkerFiresInsideWords(rest: string)
    ensures HasMarker("Finally" + rest)
  {
    var c := "Finally" + rest;
    assert c[0..5] == "Final";
    assert Text.OccursAt(c, "Final", 0);
    MarkerIgnoresCase(c, "Final", 0);
  }

  /** One completed round: the hypothesis it challenged and the two replies. */
  datatype Round = Round(hypothesis: string, challenge: string, checklist: string)

  /** What one consensus session did: the prompts it sent, in order, the
      rounds it completed, and either `final_round` or the exception that
      ended it. */
  datatype Session = Session(prompts: seq<string>, rounds: seq<Round>, outcome: Result<string>)

  /** Reference definition of the session, by recursion on the rounds
      completed so far. */
  function Deliberate(llm: Llm, userInput: string): Session
  {
    var p := HypothesisPrompt(userInput);
    match llm(0, p)
    case Err(e) => Session([p], [], Err(e))
    case Ok(hypothesis) => RoundsFrom(llm, hypothesis, [p], [])
  }

  /** The rest of a session, `rounds` being done and `hypothesis` current. */
  function RoundsFrom(llm: Llm, hypothesis: string, prompts: seq<string>, rounds: seq<Round>): Session
    requires |rounds| < MaxRounds && |prompts| == 1 + 2 * |rounds|
    decreases MaxRounds - |rounds|
  {
    var cp := ChallengePrompt(hypothesis);
    match llm(|prompts|, cp)
    case Err(e) => Session(prompts + [cp], rounds, Err(e))
    case Ok(challenge) =>
      var kp := ChecklistPrompt(hypothesis, challenge);
      match llm(|prompts| + 1, kp)
      case Err(e) => Session(prompts + [cp, kp], rounds, Err(e))
      case Ok(checklist) =>
        var done := rounds + [Round(hypothesis, challenge, checklist)];
        if HasMarker(checklist) || |rounds| == MaxRounds - 1 then
          Session(prompts + [cp, kp], done, Ok(checklist))
        else
          RoundsFrom(llm, checklist, prompts + [cp, kp], done)
  }

  /** Round `j` was asked and answered as the protocol says: its hypothesis
      was challenged by call 2j + 1 and checked by call 2j + 2. */
  ghost predicate RoundAnswered(llm: Llm, prompts: seq<string>, rounds: seq<Round>, j: nat)
    requires j < |rounds| && 2 * j + 2 < |prompts|
  {
    && prompts[2 * j + 1] == ChallengePrompt(rounds[j].hypothesis)
    && llm(2 * j + 1, prompts[2 * j + 1]) == Ok(rounds[j].challenge)
    && prompts[2 * j + 2] == ChecklistPrompt(rounds[j].hypothesis, rounds[j].challenge)
    && llm(2 * j + 2, prompts[2 * j + 2]) == Ok(rounds[j].checklist)
  }

  /** The calls made so far follow the protocol: the first prompt is the
      Dr. Hypothesis prompt, whose reply is the first round's hypothesis;
      every completed round was answered by the oracle; every checklist but
      possibly the last became the next round's hypothesis and had no marker. */
  ghost predicate Chained(llm: Llm, userInput: string, prompts: seq<string>, rounds: seq<Round>)
  {
    && |prompts| >= 1 + 2 * |rounds|
    && prompts[0] == HypothesisPrompt(userInput)
    && (|rounds| > 0 ==> llm(0, prompts[0]) == Ok(rounds[0].hypothesis))
    && (forall j :: 0 <= j < |rounds| ==> RoundAnswered(llm, prompts, rounds, j))
    && (forall j :: 0 <= j < |rounds| - 1 ==> rounds[j + 1].hypothesis == rounds[j].checklist)
    && (forall j :: 0 <= j < |rounds| - 1 ==> !HasMarker(rounds[j].checklist))
  }

  /** The state at the top of an iteration: `hypothesis` is the Dr. Hypothesis
      reply or the previous checklist, and no checklist so far had a marker. */
  ghost predicate InProgress(llm: Llm, userInput: string, hypothesis: string, prompts: seq<string>, rounds: seq<Round>)
  {
    && |rounds| < MaxRounds && |prompts| == 1 + 2 * |rounds|
    && Chained(llm, userInput, prompts, rounds)
    && llm(0, prompts[0]).Ok?
    && hypothesis == (if |rounds| == 0 then llm(0, prompts[0]).value else rounds[|rounds| - 1].checklist)
    && (|rounds| > 0 ==> !HasMarker(rounds[|rounds| - 1].checklist))
  }

  /** The hypothesis the next round challenges: the Dr. Hypothesis reply
      before any round, the last checklist after. */
  ghost function CurrentHypothesis(llm: Llm, prompts: seq<string>, rounds: seq<Round>): string
    requires |prompts| >= 1 && (|rounds| == 0 ==> llm(0, prompts[0]).Ok?)
  {
    if |rounds| == 0 then llm(0, prompts[0]).value else rounds[|rounds| - 1].checklist
  }

  /** Everything app2.py's loop promises of a finished session. */
  ghost predicate Conforms(llm: Llm, userInput: string, s: Session)
  {
    && Chained(llm, userInput, s.prompts, s.rounds)
    && |s.rounds| <= MaxRounds
    && |s.prompts| <= 1 + 2 * MaxRounds
    && match s.outcome
       case Ok(finalRound) =>
         // stopped at the first marked checklist, or after the fifth round
         && |s.rounds| >= 1
         && |s.prompts| == 1 + 2 * |s.rounds|
         && finalRound == s.rounds[|s.rounds| - 1].checklist
         && (HasMarker(finalRound) || |s.rounds| == MaxRounds)
       case Err(e) =>
         // the last call raised; no completed round had a marker
         && |s.rounds| < MaxRounds
         && 1 + 2 * |s.rounds| <= |s.prompts| <= 3 + 2 * |s.rounds|
         && (|s.prompts| == 1 + 2 * |s.rounds| ==> |s.rounds| == 0)
         && llm(|s.prompts| - 1, s.prompts[|s.prompts| - 1]) == Err(e)
         && (forall j :: 0 <= j < |s.rounds| ==> !HasMarker(s.rounds[j].checklist))
         // the calls of the unfinished round were the ones the loop makes,
         // and every call before the failing one returned
         && (|s.prompts| > 1 ==> llm(0, s.prompts[0]).Ok?)
         && (|s.prompts| > 1 + 2 * |s.rounds| ==>
               s.prompts[1 + 2 * |s.rounds|] == ChallengePrompt(CurrentHypothesis(llm, s.prompts, s.rounds)))
         && (|s.prompts| == 3 + 2 * |s.rounds| ==>
               && llm(1 + 2 * |s.rounds|, s.prompts[1 + 2 * |s.rounds|]).Ok?
               && s.prompts[2 + 2 * |s.rounds|] == ChecklistPrompt(CurrentHypothesis(llm, s.prompts, s.rounds),
                                                                   llm(1 + 2 * |s.rounds|, s.prompts[1 + 2 * |s.rounds|]).value))
  }

  /** Sending more prompts does not disturb the rounds already answered. */
  lemma ChainedExtend(llm: Llm, userInput: string, prompts: seq<string>, rounds: seq<Round>, more: seq<string>)
    requires Chained(llm, userInput, prompts, rounds)
    ensures Chained(llm, userInput, prompts + more, rounds)
  {
    var p' := prompts + more;
    forall j | 0 <= j < |rounds| ensures RoundAnswered(llm, p', rounds, j) {
      assert RoundAnswered(llm, prompts, rounds, j);
    }
  }

  /** An answered round on top of an in-progress session extends the chain. */
  lemma ChainedStep(llm: Llm, userInput: string, hypothesis: string, prompts: seq<string>, rounds: seq<Round>,
                    challenge: string, checklist: string)
    requires InProgress(llm, userInput, hypothesis, prompts, rounds)
    requires llm(|prompts|, ChallengePrompt(hypothesis)) == Ok(challenge)
    requires llm(|prompts| + 1, ChecklistPrompt(hypothesis, challenge)) == Ok(checklist)
    ensures Chained(llm, userInput, prompts + [ChallengePrompt(hypothesis), ChecklistPrompt(hypothesis, challenge)],
                    rounds + [Round(hypothesis, challenge, checklist)])
  {
    var p' := prompts + [ChallengePrompt(hypothesis), ChecklistPrompt(hypothesis, challenge)];
    var done := rounds + [Round(hypothesis, challenge, checklist)];
    var n := |rounds|;
    forall j | 0 <= j < n + 1 ensures RoundAnswered(llm, p', done, j) {
      if j < n {
        assert RoundAnswered(llm, prompts, rounds, j);
      }
    }
    assert n == 0 ==> llm(0, prompts[0]) == Ok(done[0].hypothesis);
    forall j | 0 <= j < n ensures done[j + 1].hypothesis == done[j].checklist && !HasMarker(done[j].checklist) {
      if j < n - 1 {
        assert done[j + 1] == rounds[j + 1];
      }
    }
  }

  /** A session ended by a failing call conforms. */
  lemma FailedConforms(llm: Llm, userInput: string, hypothesis: string, prompts: seq<string>, rounds: seq<Round>,
                       more: seq<string>, e: string)
    requires InProgress(llm, userInput, hypothesis, prompts, rounds)
    requires 1 <= |more| <= 2
    requires more[0] == ChallengePrompt(hypothesis)
    requires |more| == 2 ==>
      llm(|prompts|, more[0]).Ok? && more[1] == ChecklistPrompt(hypothesis, llm(|prompts|, more[0]).value)
    requires llm(|prompts| + |more| - 1, more[|more| - 1]) == Err(e)
    ensures Conforms(llm, userInput, Session(prompts + more, rounds, Err(e)))
  {
    ChainedExtend(llm, userInput, prompts, rounds, more);
    assert CurrentHypothesis(llm, prompts + more, rounds) == hypothesis;
  }

  /** A session that stops on a marker or after the fifth round conforms. */
  lemma FinishedConforms(llm: Llm, userInput: string, prompts: seq<string>, rounds: seq<Round>)
    requires Chained(llm, userInput, prompts, rounds)
    requires 1 <= |rounds| <= MaxRounds && |prompts| == 1 + 2 * |rounds|
    requires HasMarker(rounds[|rounds| - 1].checklist) || |rounds| == MaxRounds
    ensures Conforms(llm, userInput, Session(prompts, rounds, Ok(rounds[|rounds| - 1].checklist)))
  {
  }

  /** Each further round keeps the protocol, and a session that stops does
      so as app2.py's loop does. */
  lemma {:induction false} RoundsFromConforms(llm: Llm, userInput: string, hypothesis: string, prompts: seq<string>, rounds: seq<Round>)
    requires InProgress(llm, userInput, hypothesis, prompts, rounds)
    ensures Conforms(llm, userInput, RoundsFrom(llm, hypothesis, prompts, rounds))
    decreases MaxRounds - |rounds|
  {
    var cp := ChallengePrompt(hypothesis);
    var r := RoundsFrom(llm, hypothesis, prompts, rounds);
    match llm(|prompts|, cp)
    case Err(e) =>
      assert r == Session(prompts + [cp], rounds, Err(e));
      FailedConforms(llm, userInput, hypothesis, prompts, rounds, [cp], e);
    case Ok(challenge) =>
      var kp := ChecklistPrompt(hypothesis, challenge);
      match llm(|prompts| + 1, kp)
      case Err(e) =>
        assert r == Session(prompts + [cp, kp], rounds, Err(e));
        FailedConforms(llm, userInput, hypothesis, prompts, rounds, [cp, kp], e);
      case Ok(checklist) =>
        var p' := prompts + [cp, kp];
        var done := rounds + [Round(hypothesis, challenge, checklist)];
        ChainedStep(llm, userInput, hypothesis, prompts, rounds, challenge, checklist);
        if HasMarker(checklist) || |rounds| == MaxRounds - 1 {
          assert r == Session(p', done, Ok(checklist));
          FinishedConforms(llm, userInput, p', done);
        } else {
          assert r == RoundsFrom(llm, checklist, p', done);
          assert InProgress(llm, userInput, checklist, p', done);
          RoundsFromConforms(llm, userInput, checklist, p', done);
        }
  }

  /** A whole session conforms to the protocol. */
  lemma DeliberateConforms(llm: Llm, userInput: string)
    ensures Conforms(llm, userInput, Deliberate(llm, userInput))
  {
    var p := HypothesisPrompt(userInput);
    if llm(0, p).Ok? {
      RoundsFromConforms(llm, userInput, llm(0, p).value, [p], []);
    }
  }

  /** A session whose calls follow the protocol and that extends an
      in-progress state challenges that state's hypothesis next. */
  lemma NextHypothesis(llm: Llm, userInput: string, hypothesis: string, prompts: seq<string>, rounds: seq<Round>, s: Session)
    requires InProgress(llm, userInput, hypothesis, prompts, rounds)
    requires Chained(llm, userInput, s.prompts, s.rounds)
    requires |s.prompts| >= |prompts| && s.prompts[..|prompts|] == prompts
    requires |s.rounds| >= |rounds| && s.rounds[..|rounds|] == rounds
    ensures llm(0, s.prompts[0]).Ok?
    ensures |s.rounds| > |rounds| ==> s.rounds[|rounds|].hypothesis == hypothesis
    ensures |s.rounds| == |rounds| ==> s.rounds == rounds && CurrentHypothesis(llm, s.prompts, s.rounds) == hypothesis
  {
    var n := |rounds|;
    assert s.prompts[0] == s.prompts[..|prompts|][0];
    if n > 0 {
      assert s.rounds[n - 1] == s.rounds[..n][n - 1];
    }
    if |s.rounds| == n {
      assert s.rounds == s.rounds[..n];
    }
  }

  /** A session that conforms and extends an in-progress state continues
      with the Challenge prompt of the current hypothesis. */
  lemma NextIsChallenge(llm: Llm, userInput: string, hypothesis: string, prompts: seq<string>, rounds: seq<Round>, s: Session)
    requires InProgress(llm, userInput, hypothesis, prompts, rounds)
    requires Conforms(llm, userInput, s)
    requires |s.prompts| >= |prompts| && s.prompts[..|prompts|] == prompts
    requires |s.rounds| >= |rounds| && s.rounds[..|rounds|] == rounds
    ensures |s.prompts| > |prompts| && s.prompts[|prompts|] == ChallengePrompt(hypothesis)
  {
    NextHypothesis(llm, userInput, hypothesis, prompts, rounds, s);
    if |s.rounds| > |rounds| {
      assert RoundAnswered(llm, s.prompts, s.rounds, |rounds|);
    }
  }

  /** A conforming session that extends an in-progress state, whose
      Challenge call returned `challenge`, continues with the matching
      Checklist prompt. */
  lemma NextIsChecklist(llm: Llm, userInput: string, hypothesis: string, prompts: seq<string>, rounds: seq<Round>, s: Session,
                        challenge: string)
    requires InProgress(llm, userInput, hypothesis, prompts, rounds)
    requires Conforms(llm, userInput, s)
    requires |s.prompts| > |prompts| && s.prompts[..|prompts|] == prompts
    requires s.prompts[|prompts|] == ChallengePrompt(hypothesis)
    requires llm(|prompts|, ChallengePrompt(hypothesis)) == Ok(challenge)
    requires |s.rounds| >= |rounds| && s.rounds[..|rounds|] == rounds
    ensures |s.prompts| > |prompts| + 1 && s.prompts[|prompts| + 1] == ChecklistPrompt(hypothesis, challenge)
    ensures |s.rounds| > |rounds| ==> s.rounds[|rounds|].hypothesis == hypothesis && s.rounds[|rounds|].challenge == challenge
  {
    NextHypothesis(llm, userInput, hypothesis, prompts, rounds, s);
    if |s.rounds| > |rounds| {
      assert RoundAnswered(llm, s.prompts, s.rounds, |rounds|);
    }
  }

  /** When both calls of round |rounds| returned, that round is recorded
      with the hypothesis, challenge and checklist the loop saw. */
  lemma AnsweredRoundRecorded(llm: Llm, userInput: string, hypothesis: string, prompts: seq<string>, rounds: seq<Round>,
                              s: Session, challenge: string, checklist: string)
    requires |prompts| == 1 + 2 * |rounds|
    requires Conforms(llm, userInput, s)
    requires |s.prompts| >= |prompts| + 2 && s.prompts[|prompts| + 1] == ChecklistPrompt(hypothesis, challenge)
    requires |s.rounds| >= |rounds| && s.rounds[..|rounds|] == rounds
    requires |s.rounds| > |rounds| ==> s.rounds[|rounds|].hypothesis == hypothesis && s.rounds[|rounds|].challenge == challenge
    requires llm(|prompts| + 1, ChecklistPrompt(hypothesis, challenge)) == Ok(checklist)
    ensures |s.rounds| > |rounds| && s.rounds[..|rounds| + 1] == rounds + [Round(hypothesis, challenge, checklist)]
  {
    var n := |rounds|;
    if |s.rounds| == n {
      assert false;
    }
    assert RoundAnswered(llm, s.prompts, s.rounds, n);
    PrefixGrows(s.rounds, rounds);
  }

  /** In a conforming session, both calls of every recorded round returned. */
  lemma RecordedRoundReturned(llm: Llm, userInput: string, s: Session, j: nat)
    requires Conforms(llm, userInput, s)
    requires j < |s.rounds|
    ensures llm(2 * j + 1, s.prompts[2 * j + 1]).Ok? && llm(2 * j + 2, s.prompts[2 * j + 2]).Ok?
  {
    assert RoundAnswered(llm, s.prompts, s.rounds, j);
  }

  /** A call that failed inside round |rounds| ends the session there: no
      further round was recorded and the failing prompt is the last one. */
  lemma FailedRoundEnds(llm: Llm, userInput: string, prompts: seq<string>, rounds: seq<Round>, s: Session,
                        extra: seq<string>)
    requires |prompts| == 1 + 2 * |rounds|
    requires Conforms(llm, userInput, s)
    requires 1 <= |extra| <= 2
    requires |s.prompts| >= |prompts| + |extra| && s.prompts[..|prompts| + |extra|] == prompts + extra
    requires |s.rounds| >= |rounds| && s.rounds[..|rounds|] == rounds
    requires llm(|prompts| + |extra| - 1, extra[|extra| - 1]).Err?
    ensures s.rounds == rounds && s.prompts == prompts + extra
    ensures s.outcome == Err(llm(|prompts| + |extra| - 1, extra[|extra| - 1]).message)
  {
    var n := |rounds|;
    var q := |prompts| + |extra| - 1;
    assert s.prompts[q] == (prompts + extra)[q] == extra[|extra| - 1];
    if |s.rounds| > n {
      RecordedRoundReturned(llm, userInput, s, n);
      assert false;
    }
    assert s.rounds == rounds;
    if s.outcome.Ok? {
      assert false;
    }
    if |extra| == 1 && |s.prompts| == |prompts| + 2 {
      assert false;
    }
    assert |s.prompts| == |prompts| + |extra|;
    assert s.prompts == s.prompts[..|prompts| + |extra|];
  }

  /** A round whose checklist stops the loop is the session's last one. */
  lemma StoppingRoundEnds(llm: Llm, userInput: string, prompts: seq<string>, done: seq<Round>, s: Session)
    requires |done| >= 1 && |prompts| == 1 + 2 * |done|
    requires HasMarker(done[|done| - 1].checklist) || |done| == MaxRounds
    requires Conforms(llm, userInput, s)
    requires |s.prompts| >= |prompts| && s.prompts[..|prompts|] == prompts
    requires |s.rounds| >= |done| && s.rounds[..|done|] == done
    ensures s == Session(prompts, done, Ok(done[|done| - 1].checklist))
  {
    var n := |done|;
    assert s.rounds[n - 1] == done[n - 1];
    assert |s.rounds| == n;
    assert s.rounds == done;
    assert s.outcome.Ok?;
    assert s.prompts == s.prompts[..|prompts|];
  }

  /** When round |rounds| is answered and does not stop the loop, the
      conforming session extends the next in-progress state. */
  lemma ContinuesToNextState(llm: Llm, userInput: string, hypothesis: string, prompts: seq<string>, rounds: seq<Round>,
                             s: Session, challenge: string, checklist: string)
    requires InProgress(llm, userInput, hypothesis, prompts, rounds)
    requires Conforms(llm, userInput, s)
    requires |s.prompts| >= |prompts| + 2
    requires s.prompts[..|prompts| + 2] == prompts + [ChallengePrompt(hypothesis), ChecklistPrompt(hypothesis, challenge)]
    requires |s.rounds| > |rounds| && s.rounds[..|rounds| + 1] == rounds + [Round(hypothesis, challenge, checklist)]
    requires llm(|prompts|, ChallengePrompt(hypothesis)) == Ok(challenge)
    requires llm(|prompts| + 1, ChecklistPrompt(hypothesis, challenge)) == Ok(checklist)
    requires !HasMarker(checklist) && |rounds| < MaxRounds - 1
    ensures InProgress(llm, userInput, checklist, prompts + [ChallengePrompt(hypothesis), ChecklistPrompt(hypothesis, challenge)],
                       rounds + [Round(hypothesis, challenge, checklist)])
  {
    ChainedStep(llm, userInput, hypothesis, prompts, rounds, challenge, checklist);
  }

  /** A prefix grows by the element that follows it. */
  lemma PrefixGrows<T>(a: seq<T>, b: seq<T>)
    requires |a| > |b| && a[..|b|] == b
    ensures a[..|b| + 1] == b + [a[|b|]]
  {
    assert a[..|b| + 1] == a[..|b|] + [a[|b|]];
  }

  lemma PrefixGrowsTwo<T>(a: seq<T>, b: seq<T>)
    requires |a| > |b| + 1 && a[..|b|] == b
    ensures a[..|b| + 2] == b + [a[|b|], a[|b| + 1]]
  {
    assert a[..|b| + 2] == a[..|b|] + [a[|b|], a[|b| + 1]];
  }

  /** From an in-progress state, a conforming session that extends it is
      the one the loop produces. The proof follows the loop one call at a
      time: this lemma covers the Challenge call, ChallengeAnswered the
      Checklist call and ChecklistAnswered the stopping test. */
  lemma {:induction false} ConformsFromState(llm: Llm, userInput: string, hypothesis: string, prompts: seq<string>, rounds: seq<Round>, s: Session)
    requires InProgress(llm, userInput, hypothesis, prompts, rounds)
    requires Conforms(llm, userInput, s)
    requires |s.prompts| >= |prompts| && s.prompts[..|prompts|] == prompts
    requires |s.rounds| >= |rounds| && s.rounds[..|rounds|] == rounds
    ensures s == RoundsFrom(llm, hypothesis, prompts, rounds)
    decreases MaxRounds - |rounds|, 2
  {
    var cp := ChallengePrompt(hypothesis);
    NextIsChallenge(llm, userInput, hypothesis, prompts, rounds, s);
    match llm(|prompts|, cp)
    case Err(e) =>
      PrefixGrows(s.prompts, prompts);
      FailedRoundEnds(llm, userInput, prompts, rounds, s, [cp]);
    case Ok(challenge) =>
      NextIsChecklist(llm, userInput, hypothesis, prompts, rounds, s, challenge);
      PrefixGrowsTwo(s.prompts, prompts);
      ChallengeAnswered(llm, userInput, hypothesis, prompts, rounds, s, challenge);
  }

  lemma {:induction false} ChallengeAnswered(llm: Llm, userInput: string, hypothesis: string, prompts: seq<string>, rounds: seq<Round>,
                                            s: Session, challenge: string)
    requires InProgress(llm, userInput, hypothesis, prompts, rounds)
    requires Conforms(llm, userInput, s)
    requires |s.prompts| >= |prompts| + 2
    requires s.prompts[..|prompts| + 2] == prompts + [ChallengePrompt(hypothesis), ChecklistPrompt(hypothesis, challenge)]
    requires |s.rounds| >= |rounds| && s.rounds[..|rounds|] == rounds
    requires |s.rounds| > |rounds| ==> s.rounds[|rounds|].hypothesis == hypothesis && s.rounds[|rounds|].challenge == challenge
    requires llm(|prompts|, ChallengePrompt(hypothesis)) == Ok(challenge)
    ensures s == RoundsFrom(llm, hypothesis, prompts, rounds)
    decreases MaxRounds - |rounds|, 1
  {
    var kp := ChecklistPrompt(hypothesis, challenge);
    match llm(|prompts| + 1, kp)
    case Err(e) =>
      FailedRoundEnds(llm, userInput, prompts, rounds, s, [ChallengePrompt(hypothesis), kp]);
    case Ok(checklist) =>
      ChecklistAnswered(llm, userInput, hypothesis, prompts, rounds, s, challenge, checklist);
  }

  lemma {:induction false} ChecklistAnswered(llm: Llm, userInput: string, hypothesis: string, prompts: seq<string>, rounds: seq<Round>,
                                            s: Session, challenge: string, checklist: string)
    requires InProgress(llm, userInput, hypothesis, prompts, rounds)
    requires Conforms(llm, userInput, s)
    requires |s.prompts| >= |prompts| + 2
    requires s.prompts[..|prompts| + 2] == prompts + [ChallengePrompt(hypothesis), ChecklistPrompt(hypothesis, challenge)]
    requires |s.rounds| >= |rounds| && s.rounds[..|rounds|] == rounds
    requires |s.rounds| > |rounds| ==> s.rounds[|rounds|].hypothesis == hypothesis && s.rounds[|rounds|].challenge == challenge
    requires llm(|prompts|, ChallengePrompt(hypothesis)) == Ok(challenge)
    requires llm(|prompts| + 1, ChecklistPrompt(hypothesis, challenge)) == Ok(checklist)
    ensures s == RoundsFrom(llm, hypothesis, prompts, rounds)
    decreases MaxRounds - |rounds|, 0
  {
    var p' := prompts + [ChallengePrompt(hypothesis), ChecklistPrompt(hypothesis, challenge)];
    var done := rounds + [Round(hypothesis, challenge, checklist)];
    assert s.prompts[|prompts| + 1] == s.prompts[..|prompts| + 2][|prompts| + 1];
    AnsweredRoundRecorded(llm, userInput, hypothesis, prompts, rounds, s, challenge, checklist);
    if HasMarker(checklist) || |rounds| == MaxRounds - 1 {
      StoppingRoundEnds(llm, userInput, p', done, s);
    } else {
      ContinuesToNextState(llm, userInput, hypothesis, prompts, rounds, s, challenge, checklist);
      ConformsFromState(llm, userInput, checklist, p', done, s);
    }
  }

  /** The protocol determines the session: the only session that conforms
      is the one the loop produces. With DeliberateConforms, `Conforms` is a
      complete specification of app2.py's consensus loop. */
  lemma ConformsUnique(llm: Llm, userInput: string, s: Session)
    requires Conforms(llm, userInput, s)
    ensures s == Deliberate(llm, userInput)
  {
    var p := HypothesisPrompt(userInput);
    match llm(0, p)
    case Err(e) =>
      if |s.rounds| > 0 {
        assert false;
      }
      assert |s.prompts| == 1;
      assert s.prompts == [p];
    case Ok(hypothesis) =>
      assert s.prompts[..1] == [p];
      assert s.rounds[..0] == [];
      ConformsFromState(llm, userInput, hypothesis, [p], [], s);
  }

  /** Termination and call budget: at most five rounds, hence at most
      1 + 2 * 5 = 11 LLM calls; a session that succeeds made exactly one
      Hypothesis call and one Challenge and one Checklist call per round. */
  lemma SessionIsBounded(llm: Llm, userInput: string)
    ensures var s := Deliberate(llm, userInput);
      && |s.rounds| <= MaxRounds
      && |s.prompts| <= 11
      && (s.outcome.Ok? ==> 1 <= |s.rounds| && |s.prompts| == 1 + 2 * |s.rounds|)
  {
    DeliberateConforms(llm, userInput);
  }

  /** The session stops at the first checklist carrying a marker: that
      checklist is `final_round`, and no later Challenge or Checklist call
      is made. */
  lemma StopsAtFirstMarker(llm: Llm, userInput: string, j: nat)
    requires j < |Deliberate(llm, userInput).rounds|
    requires HasMarker(Deliberate(llm, userInput).rounds[j].checklist)
    ensures var s := Deliberate(llm, userInput);
      && |s.rounds| == j + 1
      && |s.prompts| == 2 * j + 3
      && s.outcome == Ok(s.rounds[j].checklist)
  {
    DeliberateConforms(llm, userInput);
  }

  /** A successful session that stopped before the fifth round stopped on a
      marker (with StopsAtFirstMarker: early stop if and only if marker). */
  lemma EarlyStopHasMarker(llm: Llm, userInput: string)
    requires Deliberate(llm, userInput).outcome.Ok?
    requires |Deliberate(llm, userInput).rounds| < MaxRounds
    ensures HasMarker(Deliberate(llm, userInput).outcome.value)
  {
    DeliberateConforms(llm, userInput);
  }

  /** Without any marker, `final_round` is the fifth checklist. */
  lemma NoMarkerMeansFifthChecklist(llm: Llm, userInput: string)
    requires Deliberate(llm, userInput).outcome.Ok?
    requires forall j :: 0 <= j < |Deliberate(llm, userInput).rounds| ==>
      !HasMarker(Deliberate(llm, userInput).rounds[j].checklist)
    ensures var s := Deliberate(llm, userInput);
      |s.rounds| == MaxRounds && s.outcome.value == s.rounds[MaxRounds - 1].checklist
  {
    DeliberateConforms(llm, userInput);
  }

  /** The first hypothesis is the Dr. Hypothesis reply and each unmarked
      checklist becomes the hypothesis that the next Challenge call sees. */
  lemma HypothesesAreChained(llm: Llm, userInput: string, j: nat)
    requires j < |Deliberate(llm, userInput).rounds|
    ensures var s := Deliberate(llm, userInput);
      && |s.prompts| >= 2 * j + 3
      && s.prompts[0] == HypothesisPrompt(userInput)
      && (j == 0 ==> llm(0, s.prompts[0]) == Ok(s.rounds[0].hypothesis))
      && (j > 0 ==> s.rounds[j].hypothesis == s.rounds[j - 1].checklist)
      && s.prompts[2 * j + 1] == ChallengePrompt(s.rounds[j].hypothesis)
  {
    DeliberateConforms(llm, userInput);
    var s := Deliberate(llm, userInput);
    assert RoundAnswered(llm, s.prompts, s.rounds, j);
  }

  /** A session that raised stopped at the first call that raised: every
      earlier call returned, and the last one raised the session's error. */
  lemma FailureIsLastCall(llm: Llm, userInput: string)
    requires Deliberate(llm, userInput).outcome.Err?
    ensures var s := Deliberate(llm, userInput);
      && |s.prompts| >= 1
      && llm(|s.prompts| - 1, s.prompts[|s.prompts| - 1]) == Err(s.outcome.message)
      && forall k :: 0 <= k < |s.prompts| - 1 ==> llm(k, s.prompts[k]).Ok?
  {
    DeliberateConforms(llm, userInput);
    FailedSessionCalls(llm, userInput, Deliberate(llm, userInput));
  }

  lemma FailedSessionCalls(llm: Llm, userInput: string, s: Session)
    requires Conforms(llm, userInput, s) && s.outcome.Err?
    ensures |s.prompts| >= 1
    ensures llm(|s.prompts| - 1, s.prompts[|s.prompts| - 1]) == Err(s.outcome.message)
    ensures forall k :: 0 <= k < |s.prompts| - 1 ==> llm(k, s.prompts[k]).Ok?
  {
    var r := |s.rounds|;
    forall k | 0 <= k < |s.prompts| - 1 ensures llm(k, s.prompts[k]).Ok? {
      if k == 0 {
        if r > 0 {
          assert llm(0, s.prompts[0]) == Ok(s.rounds[0].hypothesis);
        }
      } else if k < 1 + 2 * r {
        var j := (k - 1) / 2;
        assert RoundAnswered(llm, s.prompts, s.rounds, j);
        assert k == 2 * j + 1 || k == 2 * j + 2;
      }
    }
  }

  /** The loop of app2.py, run against the oracle: one Dr. Hypothesis call,
      then `for i in range(5)` with a Challenge call, a Checklist call and a
      `break` on a marker or at `i == 4`. It returns `final_round` (or the
      exception) and the prompts sent, which are exactly those of the
      reference session. */
  method RunPanel(llm: Llm, userInput: string) returns (outcome: Result<string>, prompts: seq<string>)
    ensures outcome == Deliberate(llm, userInput).outcome
    ensures prompts == Deliberate(llm, userInput).prompts
  {
    prompts := [HypothesisPrompt(userInput)];
    var drHypothesis := llm(0, prompts[0]);
    if drHypothesis.Err? {
      return Err(drHypothesis.message), prompts;
    }
    var hypothesis := drHypothesis.value;
    ghost var rounds: seq<Round> := [];
    var finalRound: string;
    var i := 0;
    while i < MaxRounds
      invariant 0 <= i < MaxRounds
      invariant |rounds| == i && |prompts| == 1 + 2 * i
      invariant RoundsFrom(llm, hypothesis, prompts, rounds) == Deliberate(llm, userInput)
      decreases MaxRounds - i
    {
      var challengePrompt := ChallengePrompt(hypothesis);
      var drChallenge := llm(|prompts|, challengePrompt);
      if drChallenge.Err? {
        return Err(drChallenge.message), prompts + [challengePrompt];
      }
      var challenge := drChallenge.value;
      var checklistPrompt := ChecklistPrompt(hypothesis, challenge);
      var drChecklist := llm(|prompts| + 1, checklistPrompt);
      prompts := prompts + [challengePrompt, checklistPrompt];
      if drChecklist.Err? {
        return Err(drChecklist.message), prompts;
      }
      var checklist := drChecklist.value;
      rounds := rounds + [Round(hypothesis, challenge, checklist)];
      if HasMarker(checklist) || i == MaxRounds - 1 {
        finalRound := checklist;
        break;
      }
      hypothesis := checklist;
      i := i + 1;
    }
    outcome := Ok(finalRound);
  }
}
