/** Client runs of the session: short event sequences whose outcomes follow
    from the handlers' contracts alone. */
module Scenarios {
  import opened Content
  import opened RoundOne
  import opened RoundTwo
  import opened Session

  const R1 := Response("r1", Some("listening"), 0, [])
  const R2 := Response("r2", None, 25, [])
  const R3 := Response("r3", Some(""), 2, [])

  /** A document with one intro question of three responses: one with a
      trait, one costing 25 minutes, one whose trait is the empty string. */
  function OneQuestion(): GameData {
    GameData(
      [Trait("listening", "Listening", "*")],
      [Question("q1", [R1, R2, R3])],
      [D1],
      [])
  }

  /** The pool map of that document. */
  lemma OneQuestionPools()
    ensures PoolsOf(OneQuestion().introQuestions) == map["q1" := [R1, R2, R3]]
  {
    assert OneQuestion().introQuestions[..0] == [];
  }

  /** The three responses of the document are different. */
  lemma DistinctPool()
    ensures Distinct([R1, R2, R3])
  {
    assert R1.id[1] != R2.id[1] && R1.id[1] != R3.id[1] && R2.id[1] != R3.id[1];
  }

  /** A fresh session offers the whole pool of the question. */
  method Fresh() returns (g: GameSession)
    ensures fresh(g) && g.Valid() && g.data == OneQuestion()
    ensures g.availableResponses == map["q1" := [R1, R2, R3]]
    ensures "q1" in g.initialPools && g.initialPools["q1"] == [R1, R2, R3]
    ensures g.viewedContent == {} && g.timeRemaining == InitialTime && g.intervals == 0
    ensures g.debriefQuestions == []
  {
    g := new GameSession(OneQuestion());
    OneQuestionPools();
  }

  /** A draw from the pool of a session filled from three distinct responses:
      neither the response shown nor anything drawn before is still offered. */
  method DrawnStaysOut(g: GameSession, k: nat) returns (shown: Option<Response>)
    requires g.Valid() && "q1" in g.availableResponses && k < |g.availableResponses["q1"]|
    requires "q1" in g.initialPools && g.initialPools["q1"] == [R1, R2, R3]
    modifies g
    ensures g.Valid() && g.initialPools == old(g.initialPools)
    ensures "q1" in g.availableResponses && |g.availableResponses["q1"]| == |old(g.availableResponses["q1"])| - 1
    ensures shown.Some? && shown.value in old(g.availableResponses["q1"])
    ensures "q1" in old(g.drawn) && g.drawn["q1"] == old(g.drawn["q1"]) + [shown.value]
    ensures forall r :: r in g.drawn["q1"] ==> r !in g.availableResponses["q1"]
  {
    shown := g.SelectQuestion("q1", k);
    DistinctPool();
    forall r | r in g.drawn["q1"] ensures r !in g.availableResponses["q1"] {
      g.NeverOfferedAgain("q1", r);
    }
  }

  /** A new session meets what `DrawnStaysOut` asks for, twice in a row: the
      two responses shown differ. */
  method FreshTwoDraws() returns (first: Option<Response>, second: Option<Response>)
    ensures first.Some? && second.Some? && first != second
  {
    var g := Fresh();
    first := DrawnStaysOut(g, 0);
    second := DrawnStaysOut(g, 0);
  }

  /** Drawing the last response of a pool empties it; the next click finds
      the pool empty and changes nothing. */
  method DrainLast(g: GameSession) returns (last: Option<Response>, next: Option<Response>)
    requires g.Valid() && "q1" in g.availableResponses && g.availableResponses["q1"] == [R3]
    modifies g
    ensures last == Some(R3) && next == None
    ensures g.availableResponses == old(g.availableResponses)["q1" := []]
    ensures g.viewedContent == old(g.viewedContent) + {"r3"}
    ensures g.timeRemaining == old(g.timeRemaining) - 2 * SecondsPerMinute
    ensures g.discoveredTraits == old(g.discoveredTraits)
  {
    last := g.SelectQuestion("q1", 0);
    assert g.availableResponses["q1"] == [];
    next := g.SelectQuestion("q1", 0);
  }

  /** A 25-minute response takes the clock below zero, yet the round goes
      on: the timer is still running and no quiz is built. Only the next
      tick (`Tick`) ends the round. */
  method CostOverrun(g: GameSession) returns (shown: Option<Response>)
    requires g.Valid() && "q1" in g.availableResponses && g.availableResponses["q1"] == [R1, R2, R3]
    requires g.timeRemaining == InitialTime
    modifies g
    ensures shown == Some(R2) && g.timeRemaining == InitialTime - 25 * SecondsPerMinute < 0
    ensures g.intervals == old(g.intervals) && g.timerInterval == old(g.timerInterval)
    ensures g.debriefQuestions == old(g.debriefQuestions)
  {
    shown := g.SelectQuestion("q1", 1);
  }

  /** Discovering a trait twice is the same as discovering it once. */
  method DiscoverTwice() returns (once: set<Id>, twice: set<Id>)
    ensures once == twice == {"listening"}
  {
    var g := new GameSession(OneQuestion());
    g.DiscoverTrait("listening");
    once := g.discoveredTraits;
    g.DiscoverTrait("listening");
    twice := g.discoveredTraits;
  }

  /** An empty trait string is no trait: showing it discovers nothing, though
      its cost is charged. */
  method EmptyTrait() returns (traits: set<Id>, time: int)
    ensures traits == {} && time == InitialTime - 2 * SecondsPerMinute
  {
    var g := new GameSession(OneQuestion());
    g.SelectFollowUp(R3);
    traits, time := g.discoveredTraits, g.timeRemaining;
  }

  const D1 := DebriefQuestion("d1", ["Yes", Fallback], 0, ["r1"])

  /** With the required content viewed, the real answer scores 10 once; a
      second click on the now locked question changes nothing. */
  method ScoreOnce(g: GameSession) returns (first: Option<bool>, second: Option<bool>)
    requires g.Valid() && g.debriefQuestions == [D1] && g.answered == {} && "r1" in g.viewedContent
    modifies g
    ensures first == Some(true) && second == None
    ensures g.synergyScore == old(g.synergyScore) + CorrectAnswerPoints
  {
    var complete;
    first, complete := g.SelectAnswer(0, 0);
    second, complete := g.SelectAnswer(0, 1);
  }

  /** Without the required content only the fallback answer scores. */
  method FallbackOnly(g: GameSession, selected: nat) returns (outcome: Option<bool>)
    requires g.Valid() && g.debriefQuestions == [D1] && g.answered == {} && "r1" !in g.viewedContent
    requires selected < 2
    modifies g
    ensures outcome == Some(selected == 1)
  {
    var complete;
    outcome, complete := g.SelectAnswer(0, selected);
  }
}
