/** The game's content: the read-only document loaded once at start-up, and the
    constants the session logic uses. */
module Content {

  type Id = string

  datatype Option<T> = None | Some(value: T)

  /** A Response of an intro question. A follow-up has the same shape and is
      reachable only through the Response (or follow-up) that lists it.
      `traitId` is the id of the trait this content reveals, if any; `timeCost`
      is in minutes and is charged only when it is positive. Display text and
      the visual category are presentation and are not modelled. */
  datatype Response = Response(id: Id, traitId: Option<Id>, timeCost: int, followUps: seq<Response>)

  /** An intro question and its full pool of candidate responses. */
  datatype Question = Question(id: Id, responses: seq<Response>)

  /** A debrief question: answer strings, the index of the real correct answer,
      and the content ids of which at least one must have been viewed for the
      real answer to apply. */
  datatype DebriefQuestion = DebriefQuestion(id: Id, answers: seq<string>, correct: int, required: seq<Id>)

  datatype Trait = Trait(id: Id, name: string, icon: string)

  /** The loaded content document. */
  datatype GameData = GameData(
    traits: seq<Trait>,
    introQuestions: seq<Question>,
    debriefQuestions: seq<DebriefQuestion>,
    extraDebriefPool: seq<DebriefQuestion>)

  /** Round One's time budget: 20 minutes, in seconds. */
  const InitialTime: int := 1200
  const SecondsPerMinute: int := 60
  /** What "Change topic" costs, in seconds. */
  const ChangeTopicCost: int := 60
  /** What a correct debrief answer adds to the synergy score. */
  const CorrectAnswerPoints: int := 10
  /** How many questions of the extra pool join the quiz. */
  const ExtraQuestionCount: nat := 5
  /** The only correct answer to a question whose required content was not viewed. */
  const Fallback: string := "We didn't discuss that"

  /** `if (response.trait)`: the trait string is truthy. The falsy values it can
      take are an absent trait and the empty string. */
  predicate HasTrait(r: Response): (b: bool)
    ensures b <==> r.traitId !in {None, Some("")}
  {
    r.traitId.Some? && r.traitId.value != ""
  }

  /** Seconds a Response or follow-up costs when it is shown. */
  function TimeCharge(r: Response): (t: int)
    ensures t >= 0 && t % SecondsPerMinute == 0
    ensures t == 0 <==> r.timeCost <= 0
    ensures t > 0 ==> t / SecondsPerMinute == r.timeCost
  {
    if r.timeCost > 0 then r.timeCost * SecondsPerMinute else 0
  }

  /** The trait set after the content `r` was shown. */
  function TraitsAfter(traits: set<Id>, r: Response): (t: set<Id>)
    ensures traits <= t
    ensures HasTrait(r) ==> r.traitId.value in t && t - traits <= {r.traitId.value}
    ensures !HasTrait(r) ==> t == traits
  {
    if HasTrait(r) then traits + {r.traitId.value} else traits
  }

  function Min(a: int, b: int): int {
    if a <= b then a else b
  }
}
