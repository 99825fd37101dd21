/** Round Two: the gate on viewed content, answer correctness, the
    Fisher-Yates shuffle of the extra pool, quiz assembly and the completion test. */
module RoundTwo {
  import opened Content

  /** `required.some(id => viewed.has(id))`, scanning left to right. */
  function AnyViewed(required: seq<Id>, viewed: set<Id>): (b: bool)
    ensures b <==> exists i :: 0 <= i < |required| && required[i] in viewed
  {
    if required == [] then false
    else required[0] in viewed || AnyViewed(required[1..], viewed)
  }

  /** Whether picking answer `selected` of `q` scores, given the content viewed:
      with none of the required content viewed only the fallback answer is
      right; otherwise only the stored correct index is. */
  function IsCorrect(q: DebriefQuestion, viewed: set<Id>, selected: nat): (r: bool)
    ensures (set id | id in q.required) * viewed == {} ==>
              (r <==> selected < |q.answers| && q.answers[selected] == Fallback)
    ensures (set id | id in q.required) * viewed != {} ==> (r <==> selected == q.correct)
  {
    var met := AnyViewed(q.required, viewed);
    assert met <==> (set id | id in q.required) * viewed != {} by {
      if met {
        var i :| 0 <= i < |q.required| && q.required[i] in viewed;
        assert q.required[i] in (set id | id in q.required) * viewed;
      }
    }
    if !met then selected < |q.answers| && q.answers[selected] == Fallback
    else selected == q.correct
  }

  /** Exchanging two positions of a sequence. */
  function Swap<T>(s: seq<T>, i: nat, j: nat): (r: seq<T>)
    requires i < |s| && j < |s|
    ensures |r| == |s| && r[i] == s[j] && r[j] == s[i]
    ensures forall k :: 0 <= k < |s| && k != i && k != j ==> r[k] == s[k]
  {
    s[i := s[j]][j := s[i]]
  }

  /** A swap keeps the same elements. */
  lemma SwapPermutes<T>(s: seq<T>, i: nat, j: nat)
    requires i < |s| && j < |s|
    ensures multiset(Swap(s, i, j)) == multiset(s)
  {
    var t := s[i := s[j]];
    assert multiset(t) == multiset(s) - multiset{s[i]} + multiset{s[j]};
    assert multiset(t[j := s[i]]) == multiset(t) - multiset{t[j]} + multiset{s[i]};
  }

  /** The random source of a shuffle of `n` elements: `swaps[i]` is the index
      `Math.floor(Math.random() * (i + 1))` drawn when the loop is at `i`. */
  predicate ValidSwaps(swaps: seq<nat>, n: nat): (v: bool)
    ensures v ==> |swaps| == n && forall i :: 0 <= i < n ==> swaps[i] < n
    ensures v && n > 0 ==> swaps[0] == 0
  {
    |swaps| == n && forall i :: 0 <= i < n ==> swaps[i] <= i
  }

  /** The shuffle loop from position `i` down to 1. */
  function ShuffleDown<T>(s: seq<T>, swaps: seq<nat>, i: int): (r: seq<T>)
    requires ValidSwaps(swaps, |s|) && i < |s|
    ensures |r| == |s|
    decreases i
  {
    if i <= 0 then s else ShuffleDown(Swap(s, i, swaps[i]), swaps, i - 1)
  }

  /** Every stretch of the shuffle loop leaves a permutation of its input. */
  lemma {:induction false} ShuffleDownPermutes<T>(s: seq<T>, swaps: seq<nat>, i: int)
    requires ValidSwaps(swaps, |s|) && i < |s|
    ensures multiset(ShuffleDown(s, swaps, i)) == multiset(s)
    decreases i
  {
    if i > 0 {
      SwapPermutes(s, i, swaps[i]);
      ShuffleDownPermutes(Swap(s, i, swaps[i]), swaps, i - 1);
    }
  }

  /** Fisher-Yates: the whole loop, from the last position down. */
  function FisherYates<T>(s: seq<T>, swaps: seq<nat>): (r: seq<T>)
    requires ValidSwaps(swaps, |s|)
    ensures |r| == |s|
  {
    ShuffleDown(s, swaps, |s| - 1)
  }

  /** The shuffled pool is a permutation of the pool. */
  lemma FisherYatesPermutes<T>(s: seq<T>, swaps: seq<nat>)
    requires ValidSwaps(swaps, |s|)
    ensures multiset(FisherYates(s, swaps)) == multiset(s)
  {
    ShuffleDownPermutes(s, swaps, |s| - 1);
  }

  /** The in-place shuffle of an array. */
  method Shuffle<T>(a: array<T>, swaps: seq<nat>)
    requires ValidSwaps(swaps, a.Length)
    modifies a
    ensures a[..] == FisherYates(old(a[..]), swaps)
    ensures multiset(a[..]) == multiset(old(a[..]))
  {
    ghost var target := FisherYates(a[..], swaps);
    var i := a.Length - 1;
    while i > 0
      invariant -1 <= i < a.Length
      invariant ShuffleDown(a[..], swaps, i) == target
    {
      var j := swaps[i];
      ghost var before := a[..];
      var t := a[i];
      a[i] := a[j];
      a[j] := t;
      assert a[..] == Swap(before, i, j);
      assert ShuffleDown(before, swaps, i) == ShuffleDown(a[..], swaps, i - 1);
      i := i - 1;
    }
    FisherYatesPermutes(old(a[..]), swaps);
  }

  /** The quiz of Round Two: every core question in its own order, then the
      first (at most five) questions of the shuffled extra pool. */
  function Quiz(core: seq<DebriefQuestion>, extra: seq<DebriefQuestion>, swaps: seq<nat>): (r: seq<DebriefQuestion>)
    requires ValidSwaps(swaps, |extra|)
    ensures |r| == |core| + Min(ExtraQuestionCount, |extra|)
    ensures r[..|core|] == core
    ensures multiset(r[|core|..]) <= multiset(extra)
  {
    var shuffled := FisherYates(extra, swaps);
    var k := Min(ExtraQuestionCount, |extra|);
    FisherYatesPermutes(extra, swaps);
    assert shuffled == shuffled[..k] + shuffled[k..];
    assert (core + shuffled[..k])[|core|..] == shuffled[..k];
    core + shuffled[..k]
  }

  /** Quiz assembly: copy the extra pool into an array,
      shuffle it in place, take a prefix and append it to the core questions. */
  method AssembleQuiz(core: seq<DebriefQuestion>, extra: seq<DebriefQuestion>, swaps: seq<nat>)
    returns (all: seq<DebriefQuestion>)
    requires ValidSwaps(swaps, |extra|)
    ensures all == Quiz(core, extra, swaps)
  {
    var pool := new DebriefQuestion[|extra|](i requires 0 <= i < |extra| => extra[i]);
    assert pool[..] == extra;
    Shuffle(pool, swaps);
    var selected := pool[..Min(ExtraQuestionCount, pool.Length)];
    all := core + selected;
  }

  /** The question position of every answer button, in document order. */
  function Buttons(qs: seq<DebriefQuestion>): (b: seq<nat>)
    ensures forall k :: 0 <= k < |b| ==> b[k] < |qs| && |qs[b[k]].answers| > 0
    ensures forall i :: 0 <= i < |qs| && |qs[i].answers| > 0 ==> i in b
  {
    if qs == [] then []
    else
      var n := |qs| - 1;
      var init := Buttons(qs[..n]);
      var own := seq(|qs[n].answers|, _ => n);
      assert forall i :: 0 <= i < n ==> qs[..n][i] == qs[i];
      assert |qs[n].answers| > 0 ==> own[0] == n;
      init + own
  }

  /** The completion test: every answer button is disabled, where a button is
      disabled once its question was answered. */
  function DebriefComplete(qs: seq<DebriefQuestion>, answered: set<nat>): (r: bool)
    ensures r <==> forall i :: 0 <= i < |qs| && |qs[i].answers| > 0 ==> i in answered
  {
    var b := Buttons(qs);
    forall k :: 0 <= k < |b| ==> b[k] in answered
  }
}
