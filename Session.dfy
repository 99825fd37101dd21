/** The session state of one game and the operations that change it. */
module Session {
  import opened Content
  import opened RoundOne
  import opened RoundTwo

  /** The game's session record. Each method is one event handler of the page
      (a click or a timer tick); handlers run one at a time. */
  class GameSession {
    /** The content document, loaded once and read-only afterwards. */
    const data: GameData

    /** Seconds left in Round One; costs may take it below zero. */
    var timeRemaining: int
    var discoveredTraits: set<Id>
    var viewedContent: set<Id>
    var currentQuestions: seq<Question>
    /** The responses each intro question (by id) can still offer. */
    var availableResponses: map<Id, seq<Response>>
    /** How many scheduled timer callbacks are running. */
    var intervals: nat
    /** Whether the stored interval handle still names a running timer. */
    var timerInterval: bool
    var synergyScore: int
    /** The questions of the Round Two quiz, in display order. */
    var debriefQuestions: seq<DebriefQuestion>
    /** Quiz positions whose answer buttons are disabled (answered). */
    var answered: set<nat>

    /** The responses drawn from each pool since the pools were last filled. */
    ghost var drawn: map<Id, seq<Response>>
    /** The pools as they were last filled. */
    ghost var initialPools: map<Id, seq<Response>>
    /** Quiz positions answered correctly. */
    ghost var correct: set<nat>
    /** The synergy score when the current quiz was built (0 in a fresh session). */
    ghost var baseScore: int

    /** The invariant the handlers keep. */
    ghost predicate Valid()
      reads this`timerInterval, this`intervals, this`availableResponses, this`drawn, this`initialPools,
            this`answered, this`debriefQuestions, this`correct, this`synergyScore, this`baseScore
    {
      TimerValid() && PoolsValid() && QuizValid()
    }

    /** A stored timer handle names a running timer. */
    ghost predicate TimerValid()
      reads this`timerInterval, this`intervals
    {
      timerInterval ==> intervals > 0
    }

    /** Sampling without replacement since the pools were last filled. */
    ghost predicate PoolsValid()
      reads this`availableResponses, this`drawn, this`initialPools
    {
      WithoutReplacement(availableResponses, drawn, initialPools)
    }

    /** Each answered question is a quiz position; the score counts the correct ones. */
    ghost predicate QuizValid()
      reads this`answered, this`debriefQuestions, this`correct, this`synergyScore, this`baseScore
    {
      (forall i :: i in answered ==> i < |debriefQuestions|) &&
      correct <= answered &&
      synergyScore == baseScore + CorrectAnswerPoints * |correct|
    }

    /** The state after the content document was loaded: the initial record
        followed by filling the response pools. */
    constructor (content: GameData)
      ensures Valid()
      ensures data == content
      ensures timeRemaining == InitialTime && discoveredTraits == {} && viewedContent == {}
      ensures currentQuestions == content.introQuestions
      ensures availableResponses == PoolsOf(content.introQuestions)
      ensures intervals == 0 && !timerInterval && synergyScore == 0
      ensures debriefQuestions == [] && answered == {} && baseScore == 0
      ensures initialPools == availableResponses && drawn == NothingDrawn(availableResponses)
      ensures correct == {}
    {
      data := content;
      timeRemaining := InitialTime;
      discoveredTraits, viewedContent := {}, {};
      currentQuestions, availableResponses := [], map[];
      intervals, timerInterval := 0, false;
      synergyScore := 0;
      debriefQuestions, answered := [], {};
      correct, baseScore := {}, 0;
      drawn, initialPools := map[], map[];
      new;
      InitializeQuestions();
      drawn, initialPools := NothingDrawn(availableResponses), availableResponses;
      FreshPools(availableResponses);
    }

    /** Copies the intro questions and gives each question id a fresh copy of
        that question's responses; other entries of the pool map stay. */
    method InitializeQuestions()
      modifies this`currentQuestions, this`availableResponses
      ensures currentQuestions == data.introQuestions
      ensures availableResponses == old(availableResponses) + PoolsOf(data.introQuestions)
      ensures old(availableResponses) == map[] ==> availableResponses == PoolsOf(data.introQuestions)
    {
      var qs := data.introQuestions;
      var pools := availableResponses;
      var i := 0;
      while i < |qs|
        invariant 0 <= i <= |qs|
        invariant pools == old(availableResponses) + PoolsOf(qs[..i])
      {
        var q := qs[i];
        assert qs[..i + 1][..i] == qs[..i];
        pools := pools[q.id := q.responses];
        i := i + 1;
      }
      assert qs[..i] == qs;
      assert map[] + PoolsOf(qs) == PoolsOf(qs);
      currentQuestions, availableResponses := qs, pools;
    }

    /** The enabled test of a question's button. */
    function Enabled(qid: Id): (e: bool)
      reads this
      requires qid in availableResponses
      ensures e <==> exists r :: r in availableResponses[qid]
    {
      var pool := availableResponses[qid];
      assert |pool| > 0 ==> pool[0] in pool;
      |pool| > 0
    }

    /** Starting Round One schedules the one-second timer. */
    method StartRoundOne()
      requires Valid()
      modifies this`intervals, this`timerInterval
      ensures Valid()
      ensures intervals == old(intervals) + 1 && timerInterval
    {
      intervals := intervals + 1;
      timerInterval := true;
    }

    /** Draws the response at `k` (the random index) from question `qid`'s
        pool, shows it, marks it viewed, discovers its trait and charges its
        time. On an exhausted pool nothing happens. The round never ends here. */
    method SelectQuestion(qid: Id, k: nat) returns (shown: Option<Response>)
      requires Valid()
      requires qid in availableResponses
      requires |availableResponses[qid]| == 0 || k < |availableResponses[qid]|
      modifies this`availableResponses, this`viewedContent, this`discoveredTraits, this`timeRemaining, this`drawn
      ensures Valid()
      ensures !old(Enabled(qid)) ==>
                shown == None && availableResponses == old(availableResponses) &&
                viewedContent == old(viewedContent) && discoveredTraits == old(discoveredTraits) &&
                timeRemaining == old(timeRemaining) && drawn == old(drawn)
      ensures old(Enabled(qid)) ==>
                var r := old(availableResponses[qid][k]);
                shown == Some(r) &&
                availableResponses == old(availableResponses)[qid := RemoveAt(old(availableResponses[qid]), k)] &&
                drawn == old(drawn)[qid := old(drawn[qid]) + [r]] &&
                viewedContent == old(viewedContent) + {r.id} &&
                discoveredTraits == TraitsAfter(old(discoveredTraits), r) &&
                timeRemaining == old(timeRemaining) - TimeCharge(r)
    {
      var pool := availableResponses[qid];
      if |pool| == 0 {
        shown := None;
      } else {
        var response := TakeResponse(qid, k);
        Reveal(response);
        shown := Some(response);
      }
    }

    /** The `splice`: removes the response at `k` from the pool of `qid`. */
    method TakeResponse(qid: Id, k: nat) returns (response: Response)
      requires Valid()
      requires qid in availableResponses && k < |availableResponses[qid]|
      modifies this`availableResponses, this`drawn
      ensures Valid()
      ensures response == old(availableResponses[qid][k])
      ensures availableResponses == old(availableResponses)[qid := RemoveAt(old(availableResponses[qid]), k)]
      ensures drawn == old(drawn)[qid := old(drawn[qid]) + [response]]
    {
      var pool := availableResponses[qid];
      response := pool[k];
      DrawStep(availableResponses, drawn, initialPools, qid, k);
      availableResponses := availableResponses[qid := RemoveAt(pool, k)];
      drawn := drawn[qid := drawn[qid] + [response]];
    }

    /** What showing a Response or a follow-up does to the state: it is marked
        viewed, its trait (if any) is discovered and its time is charged. */
    method Reveal(content: Response)
      modifies this`viewedContent, this`discoveredTraits, this`timeRemaining
      ensures viewedContent == old(viewedContent) + {content.id}
      ensures discoveredTraits == TraitsAfter(old(discoveredTraits), content)
      ensures timeRemaining == old(timeRemaining) - TimeCharge(content)
    {
      viewedContent := viewedContent + {content.id};
      if HasTrait(content) {
        DiscoverTrait(content.traitId.value);
      }
      if content.timeCost > 0 {
        timeRemaining := timeRemaining - content.timeCost * SecondsPerMinute;
      }
    }

    /** A follow-up button: the follow-up is shown. */
    method SelectFollowUp(followUp: Response)
      modifies this`viewedContent, this`discoveredTraits, this`timeRemaining
      ensures viewedContent == old(viewedContent) + {followUp.id}
      ensures discoveredTraits == TraitsAfter(old(discoveredTraits), followUp)
      ensures timeRemaining == old(timeRemaining) - TimeCharge(followUp)
    {
      Reveal(followUp);
    }

    /** "Change topic": one minute off the clock, nothing else. */
    method ChangeTopic()
      modifies this`timeRemaining
      ensures timeRemaining == old(timeRemaining) - ChangeTopicCost
    {
      timeRemaining := timeRemaining - ChangeTopicCost;
    }

    /** Adds a trait to the discovered set; a trait already there is left alone. */
    method DiscoverTrait(traitId: Id)
      modifies this`discoveredTraits
      ensures discoveredTraits == old(discoveredTraits) + {traitId}
    {
      if traitId in discoveredTraits {
        return;
      }
      discoveredTraits := discoveredTraits + {traitId};
    }

    /** One timer callback: a second off the clock, and Round One ends exactly
        when the clock is then at or below zero. `swaps` is the random source
        of the shuffle that ending the round runs. */
    method Tick(swaps: seq<nat>) returns (ended: bool)
      requires Valid() && intervals > 0
      requires ValidSwaps(swaps, |data.extraDebriefPool|)
      modifies this`timeRemaining, this`intervals, this`timerInterval, this`debriefQuestions,
               this`answered, this`correct, this`baseScore
      ensures Valid()
      ensures timeRemaining == old(timeRemaining) - 1
      ensures ended <==> timeRemaining <= 0
      ensures !ended ==>
                intervals == old(intervals) && timerInterval == old(timerInterval) &&
                debriefQuestions == old(debriefQuestions) && answered == old(answered) &&
                correct == old(correct) && baseScore == old(baseScore)
      ensures ended ==>
                intervals == old(intervals) - (if old(timerInterval) then 1 else 0) && !timerInterval &&
                debriefQuestions == Quiz(data.debriefQuestions, data.extraDebriefPool, swaps) &&
                answered == {} && correct == {} && baseScore == synergyScore
    {
      timeRemaining := timeRemaining - 1;
      ended := timeRemaining <= 0;
      if ended {
        EndRoundOne(swaps);
      }
    }

    /** Stops the timer whose handle is stored, then starts Round Two. */
    method EndRoundOne(swaps: seq<nat>)
      requires Valid()
      requires ValidSwaps(swaps, |data.extraDebriefPool|)
      modifies this`intervals, this`timerInterval, this`debriefQuestions, this`answered, this`correct, this`baseScore
      ensures Valid()
      ensures intervals == old(intervals) - (if old(timerInterval) then 1 else 0) && !timerInterval
      ensures debriefQuestions == Quiz(data.debriefQuestions, data.extraDebriefPool, swaps)
      ensures answered == {} && correct == {} && baseScore == synergyScore
    {
      if timerInterval {
        intervals := intervals - 1;
        timerInterval := false;
      }
      StartRoundTwo(swaps);
    }

    /** Builds the quiz: every core question, then five of the shuffled extra pool. */
    method StartRoundTwo(swaps: seq<nat>)
      requires Valid()
      requires ValidSwaps(swaps, |data.extraDebriefPool|)
      modifies this`debriefQuestions, this`answered, this`correct, this`baseScore
      ensures Valid()
      ensures debriefQuestions == Quiz(data.debriefQuestions, data.extraDebriefPool, swaps)
      ensures answered == {} && correct == {} && baseScore == synergyScore
    {
      debriefQuestions := AssembleQuiz(data.debriefQuestions, data.extraDebriefPool, swaps);
      answered := {};
      correct, baseScore := {}, synergyScore;
    }

    /** Answer button `selected` of quiz question `i` is clicked. The first
        click locks the question and scores it; a locked question ignores
        clicks. `complete` is the completion test after the click. */
    method SelectAnswer(i: nat, selected: nat) returns (outcome: Option<bool>, complete: bool)
      requires Valid()
      requires i < |debriefQuestions| && selected < |debriefQuestions[i].answers|
      modifies this`answered, this`synergyScore, this`correct
      ensures Valid()
      ensures i in old(answered) ==>
                outcome == None && answered == old(answered) &&
                synergyScore == old(synergyScore) && correct == old(correct)
      ensures i !in old(answered) ==>
                var ok := IsCorrect(debriefQuestions[i], viewedContent, selected);
                outcome == Some(ok) && answered == old(answered) + {i} &&
                synergyScore == old(synergyScore) + (if ok then CorrectAnswerPoints else 0) &&
                correct == (if ok then old(correct) + {i} else old(correct))
      ensures complete == DebriefComplete(debriefQuestions, answered)
    {
      if i in answered {
        return None, DebriefComplete(debriefQuestions, answered);
      }
      var ok := IsCorrect(debriefQuestions[i], viewedContent, selected);
      Lock(i, ok);
      outcome := Some(ok);
      complete := DebriefComplete(debriefQuestions, answered);
    }

    /** Disables the buttons of quiz question `i` and, on a correct answer,
        adds its points to the score. */
    method Lock(i: nat, ok: bool)
      requires QuizValid() && i < |debriefQuestions| && i !in answered
      modifies this`answered, this`synergyScore, this`correct
      ensures QuizValid()
      ensures answered == old(answered) + {i}
      ensures synergyScore == old(synergyScore) + (if ok then CorrectAnswerPoints else 0)
      ensures correct == (if ok then old(correct) + {i} else old(correct))
    {
      answered := answered + {i};
      if ok {
        assert i !in correct;
        synergyScore := synergyScore + CorrectAnswerPoints;
        correct := correct + {i};
      }
    }

    /** "Replay": a fresh record with refilled pools. No timer is stopped. */
    method ResetGame()
      modifies this`timeRemaining, this`discoveredTraits, this`viewedContent, this`currentQuestions,
               this`availableResponses, this`timerInterval, this`synergyScore, this`debriefQuestions,
               this`answered, this`drawn, this`initialPools, this`correct, this`baseScore
      ensures Valid()
      ensures timeRemaining == InitialTime && discoveredTraits == {} && viewedContent == {}
      ensures currentQuestions == data.introQuestions
      ensures availableResponses == PoolsOf(data.introQuestions)
      ensures !timerInterval && synergyScore == 0
      ensures debriefQuestions == [] && answered == {} && baseScore == 0
      ensures initialPools == availableResponses && drawn == NothingDrawn(availableResponses)
      ensures correct == {}
    {
      ClearRecord();
      InitializeQuestions();
      drawn, initialPools := NothingDrawn(availableResponses), availableResponses;
      FreshPools(availableResponses);
    }

    /** The `gameState = {...}` assignment of "Replay": every field of the record
        back to its initial value, the pool map empty. */
    method ClearRecord()
      modifies this`timeRemaining, this`discoveredTraits, this`viewedContent, this`currentQuestions,
               this`availableResponses, this`timerInterval, this`synergyScore, this`debriefQuestions,
               this`answered, this`correct, this`baseScore
      ensures timeRemaining == InitialTime && discoveredTraits == {} && viewedContent == {}
      ensures currentQuestions == [] && availableResponses == map[]
      ensures !timerInterval && synergyScore == 0
      ensures debriefQuestions == [] && answered == {} && correct == {} && baseScore == 0
    {
      timeRemaining := InitialTime;
      discoveredTraits, viewedContent := {}, {};
      currentQuestions, availableResponses := [], map[];
      timerInterval := false;
      synergyScore := 0;
      debriefQuestions, answered := [], {};
      correct, baseScore := {}, 0;
    }

    /** A response drawn from a pool of distinct responses is never offered again. */
    lemma NeverOfferedAgain(qid: Id, r: Response)
      requires Valid()
      requires qid in availableResponses && r in drawn[qid]
      requires Distinct(initialPools[qid])
      ensures r !in availableResponses[qid]
    {
      assert PoolsValid();
      DrawnNeverOffered(initialPools[qid], availableResponses[qid], drawn[qid], r);
    }
  }
}
