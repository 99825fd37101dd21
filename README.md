# Session state of the two-round quiz game

This project models `game.js`, the session logic of a browser quiz game played in two rounds.

In Round One the player has 20 minutes. Clicking an intro question draws a random response from that question's pool, without replacement. Showing a response or one of its follow-ups:

- marks it viewed;
- reveals its trait, if it has one;
- charges its time cost.

A one-second timer takes time off the clock, and the tick that leaves the clock at or below zero ends the round.

Round Two is a quiz: the core debrief questions followed by five questions from a shuffled extra pool. An answer is judged against the content the player actually viewed. Every correct answer adds 10 to the synergy score. "Replay" resets the session record.

## Structure

- `Content.dfy` (module `Content`): the read-only content document as datatypes, with the constants of the game. These are:
  - 1200 seconds of initial time;
  - 60 seconds per minute of cost;
  - 60 seconds for "Change topic";
  - 10 points per correct answer;
  - 5 extra questions;
  - the fallback answer `"We didn't discuss that"`.
- `RoundOne.dfy` (module `RoundOne`): the `splice` of a pool, the pool map built from the intro questions, and sampling without replacement.
- `RoundTwo.dfy` (module `RoundTwo`):
  - the requirement gate and the correctness rule of an answer;
  - the Fisher-Yates shuffle, both as a function and as the in-place array loop proved against it;
  - quiz assembly;
  - the completion test.
- `Session.dfy` (module `Session`): `class GameSession`. Its fields are those of `gameState`, and there is one method per event handler: a click or a timer tick. Every method's `modifies` lists exactly the fields it assigns. Its `ensures` gives the whole new state in terms of the old one, ghost fields included. `Valid()` is the invariant the handlers keep, in three parts (`TimerValid`, `PoolsValid`, `QuizValid`) so that a handler that does not touch a part keeps it by its frame:
  - a stored timer handle names a running timer;
  - for every question, what is left in its pool plus what was drawn from it is the pool as it was last filled (ghost `drawn` and `initialPools`);
  - every answered quiz position exists;
  - the synergy score is the score at quiz start plus 10 times the number of correctly answered positions (ghost `correct` and `baseScore`).
- `Scenarios.dfy` (module `Scenarios`): short client runs on a small document. Each one is proved from the handlers' contracts alone.

Random choices are parameters:

- the draw index `k` of a question click, with `k < |pool|` for a non-empty pool;
- the swap indices `swaps` of the shuffle, where `swaps[i] <= i` is the `j` drawn at step `i`.

The timer is modelled by `intervals`, the number of scheduled callbacks, and `timerInterval`, which says whether the stored handle names one of them. `Tick` is a callback firing; it requires `intervals > 0`.

The model follows the code in these points:

- The round ends only in the timer callback (`game.js:90`). A response, follow-up or topic change that takes the clock to zero or below does not end the round. The clock may go negative, and Round Two starts on the next tick. `Scenarios.CostOverrun` shows this.
- `resetGame` does not call `clearInterval`, so `ResetGame` leaves `intervals` unchanged. In the page's normal flow the timer was already stopped when Round One ended.
- Trait ids are not checked against the trait list. Any non-empty trait string of a response is added to `discoveredTraits`.

## Model

| member | source | states |
|---|---|---|
| RoundOne.RemoveAt | game.js:121-125 | the pool after `splice(k, 1)` is one shorter. Elements before `k` are unchanged, later ones move down one place, and the multiset loses exactly the drawn response |
| RoundOne.PoolsOf | game.js:32-34 | the pool map the `forEach` builds: each question's responses assigned to its id, in question order. What it means is stated by `PoolsOfKeys`, `PoolsOfEntry`, `PoolsOfSource` and `PoolsOfDistinct` |
| RoundOne.PoolsOfSource | game.js:32-34 | every pool in the map is the response list of some intro question with that id |
| RoundOne.PoolsOfKeys | game.js:30-35 | after filling, there is a pool for exactly the ids of the intro questions |
| RoundOne.PoolsOfEntry | game.js:32-34 | a question's pool is its own responses unless a later question has the same id; the later assignment wins |
| RoundOne.PoolsOfDistinct | game.js:32-34 | with distinct question ids, every question's pool is a fresh copy of its responses |
| RoundOne.DrawnNeverOffered | game.js:121-125 | sampling without replacement: when pool plus drawn is a full pool of distinct responses, a drawn response is not in the pool |
| RoundOne.DrawStep | game.js:121-125 | moving the drawn element from its pool to the drawn list keeps, for every question, remaining plus drawn equal to the full pool |
| RoundOne.FreshPools | game.js:32-34 | freshly filled pools with nothing drawn satisfy that split |
| Content.HasTrait | game.js:134 | `if (response.trait)` (also game.js:204): a trait counts unless it is absent or the empty string, the two falsy values a trait string can take |
| Content.TraitsAfter | game.js:134-136 | the trait set after content is shown (also game.js:204-206): it only grows; a truthy trait is added and nothing else is; without a trait the set is unchanged |
| Content.TimeCharge | game.js:139-141 | the seconds charged for content (also game.js:209-211): never negative, a whole number of minutes, zero exactly when the cost is not positive, and otherwise the cost in minutes |
| RoundTwo.AnyViewed | game.js:276 | `requires.some(id => viewed.has(id))` holds iff some required id was viewed |
| RoundTwo.IsCorrect | game.js:276-286 | with no required id viewed, the answer is correct iff it is the fallback answer; otherwise it is correct iff its index is `correct` |
| RoundTwo.Swap | game.js:240 | the destructuring swap exchanges positions `i` and `j` and keeps every other position |
| RoundTwo.SwapPermutes | game.js:240 | a swap keeps the multiset |
| RoundTwo.ValidSwaps | game.js:239 | the range of the random `j`: one index per position, and every `j` is a valid position of the pool (the one for position 0 is 0) |
| RoundTwo.ShuffleDown | game.js:238-241 | the swap loop from position `i` down to 1 keeps the length; its permutation property is `ShuffleDownPermutes` |
| RoundTwo.FisherYates | game.js:238-241 | the whole swap loop, from the last position down, keeps the length; its permutation property is `FisherYatesPermutes` |
| RoundTwo.ShuffleDownPermutes | game.js:238-241 | the swap loop from any position down to 1 yields a permutation of its input |
| RoundTwo.FisherYatesPermutes | game.js:238-241 | the shuffled extra pool is a permutation of the extra pool |
| RoundTwo.Shuffle | game.js:238-241 | the in-place loop on the array leaves exactly the Fisher-Yates result, a permutation of the old contents |
| RoundTwo.Quiz | game.js:234-244 | the quiz is the core questions in their order followed by at most five extras, `min(5, n)` of them, taken from the extra pool |
| RoundTwo.AssembleQuiz | game.js:234-244 | copying, shuffling in place, `slice(0, 5)` and concatenation give exactly `Quiz` |
| RoundTwo.Buttons | game.js:249-267 | every answer button belongs to a quiz question with answers, and every question with answers has a button |
| RoundTwo.DebriefComplete | game.js:313-316 | "every answer button disabled" holds iff every quiz question that has answers was answered |
| Session.GameSession.constructor | game.js:3-12 | the initial record: 1200 seconds, empty sets, zero score, no timer, then the pools filled from the intro questions. The pools as filled are the current pools and nothing is drawn yet, so the no-repeat invariant is about these pools |
| Session.GameSession.InitializeQuestions | game.js:30-35 | copies the intro questions and sets every question id's pool to a copy of its responses while other entries stay; on an empty map the pools are exactly the questions' |
| Session.GameSession.Enabled | game.js:101 | a question's button is enabled iff its pool still holds some response |
| Session.GameSession.StartRoundOne | game.js:52-57 | starting the round schedules one more timer callback and stores its handle |
| Session.GameSession.SelectQuestion | game.js:116-142 | an empty pool changes nothing. Otherwise exactly the response at `k` is drawn and shown and every other pool stays; its id joins `viewedContent`; its trait joins `discoveredTraits` only if it has one; time drops by `60*cost` only for a positive cost; the timer and the quiz are untouched; the invariant is kept |
| Session.GameSession.TakeResponse | game.js:121-125 | the splice removes the response at `k` from that question's pool alone and records it as drawn; the invariant is kept |
| Session.GameSession.Reveal | game.js:128-141 | showing content adds its id to the viewed set, adds its trait only when present and non-empty, and charges `60*cost` seconds only when the cost is positive |
| Session.GameSession.SelectFollowUp | game.js:196-212 | the same three effects for a follow-up, and nothing else changes |
| Session.GameSession.ChangeTopic | game.js:189-192 | exactly 60 seconds off the clock; nothing else changes and the round does not end |
| Session.GameSession.DiscoverTrait | game.js:214-217 | afterwards the set is the old set plus the trait, so a second call changes nothing |
| Session.GameSession.Tick | game.js:76-93 | the clock drops by exactly 1. The round ends iff the new value is at or below zero: the stored timer is cleared and the quiz is built; otherwise nothing else changes |
| Session.GameSession.EndRoundOne | game.js:225-228 | clears the stored timer if it is running, then starts Round Two |
| Session.GameSession.StartRoundTwo | game.js:230-244 | the quiz becomes `Quiz` of the core questions and the extra pool, with nothing answered yet |
| Session.GameSession.SelectAnswer | game.js:274-311 | a locked question ignores the click. Otherwise the question is locked, the outcome is `IsCorrect`, and the score rises by exactly 10 on a correct answer and not at all otherwise. The score stays 10 times the correct answers since the quiz started. `complete` is the completion test |
| Session.GameSession.Lock | game.js:288-301 | the question's buttons are disabled and a correct answer adds exactly 10; the score stays 10 times the correct answers since the quiz started |
| Session.GameSession.ResetGame | game.js:343-358 | back to 1200 seconds, empty sets, zero score, no stored timer and every pool a fresh copy of its question's responses. The refilled pools become the pools as filled, with nothing drawn. Running timer callbacks are not stopped |
| Session.GameSession.ClearRecord | game.js:345-354 | every field of the record back to its initial value, with an empty pool map |
| Session.GameSession.NeverOfferedAgain | game.js:121-125 | in a valid session, a response drawn from a pool of distinct responses is no longer in that pool |
| Scenarios.Fresh | game.js:3-35 | a session built from the one-question document offers that question's three responses, as filled, with a full clock and no timer |
| Scenarios.DrawnStaysOut | game.js:116-125 | in a session filled from three distinct responses, neither the response a click shows nor any response drawn earlier is offered again |
| Scenarios.FreshTwoDraws | game.js:116-125 | two clicks on the same question of a new session show two different responses |
| Scenarios.DrainLast | game.js:117-125 | drawing the last response empties the pool and charges its 2 minutes without discovering a trait; the next click returns nothing and changes nothing |
| Scenarios.CostOverrun | game.js:139-141 | a 25-minute response takes a full clock to -300 seconds while the timer keeps running and no quiz is built |
| Scenarios.DiscoverTwice | game.js:214-217 | discovering the same trait twice gives the same set as once |
| Scenarios.EmptyTrait | game.js:204-211 | an empty trait string discovers nothing, though the cost is charged |
| Scenarios.ScoreOnce | game.js:285-301 | with the required content viewed, the real answer scores 10 once, and a second click on the locked question does nothing |
| Scenarios.FallbackOnly | game.js:280-282 | without the required content, only the fallback answer is correct |

`viewedContent` and `discoveredTraits` never shrink between resets. Every handler other than `ResetGame` either leaves them unchanged or ensures that each new set is the old set plus some ids.

## Left out

- Loading the content document (`fetch` and JSON parsing, game.js:20-28) is I/O. The document is a constructor parameter, and a failed load is not modelled.
- All DOM work is presentation:
  - screens, trait icons and button markup;
  - response text and the visual category;
  - the "intense" pulse;
  - timer warning classes;
  - highlighting of correct and incorrect answers;
  - the final metrics page with its fixed "/6".
- From `displayQuestionOptions`, only the enabled test `pool.length > 0` is kept, as `Enabled`.
- `setInterval`, `setTimeout` and the 300 ms scoring delay are scheduling. A tick is a `Tick` call, and scoring and the completion test happen at once in `SelectAnswer`.
- `Math.random` is replaced by the index parameters described above.
- The timer display (`Math.floor` and `%` of the seconds) is presentation.
- Time costs are integers. Fractional minutes would be floating point.
- `debriefAnswers` is never read or written after initialisation, so it is not a field.
- `SelectFollowUp` accepts any follow-up. The model does not track which follow-up buttons the last shown response offered.
- `SelectQuestion` requires `qid in availableResponses`. The page only offers buttons for current questions; any other id would make the script throw.
- The check that the pool keys are the current question ids is not part of `Valid()`; `PoolsOfKeys` states it for the freshly filled pools.
- `ResetGame` empties the quiz. In the page the old Round Two buttons stay in the hidden screen until the next quiz replaces them, and they cannot be clicked there.
