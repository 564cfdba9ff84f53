/**
 * The quiz traversal state machine of src/components/quizPage.tsx.
 *
 * The page keeps a current question index and a stack of the indices it came
 * from. Answering a question jumps to the first catalog entry whose id is the
 * chosen option's `next`, pushing the old index; an answer whose `next` names
 * no entry signals that the quiz is complete and changes nothing. The back
 * button pops the stack into the current index.
 *
 * The transitions are stated first as functions on a navigation value (Nav),
 * with the lemmas about them; the class QuizPage holds the mutable state and
 * its methods are proved to perform exactly those transitions.
 */
module Quiz {
  import opened Wrappers
  import opened QuizTypes

  /** `q.id === nextId`: a null `nextId` names no question. */
  function Names(nextId: Option<string>, q: Question): (r: bool)
    ensures nextId == None ==> !r
    ensures r ==> nextId.value == q.id
    ensures nextId == Some(q.id) ==> r
  {
    nextId == Some(q.id)
  }

  /** Some catalog entry carries the id `nextId`. */
  predicate Resolves(catalog: seq<Question>, nextId: Option<string>) {
    exists i :: 0 <= i < |catalog| && Names(nextId, catalog[i])
  }

  /** `quizData.findIndex((q) => q.id === nextId)`: the first matching position, or -1. */
  function FindIndex(catalog: seq<Question>, nextId: Option<string>): (r: int)
    ensures -1 <= r < |catalog|
    ensures r >= 0 ==> Names(nextId, catalog[r])
    ensures forall j :: 0 <= j < |catalog| && (r < 0 || j < r) ==> !Names(nextId, catalog[j])
    ensures r >= 0 <==> Resolves(catalog, nextId)
  {
    if |catalog| == 0 then -1
    else if Names(nextId, catalog[0]) then 0
    else
      var k := FindIndex(catalog[1..], nextId);
      assert forall j :: 1 <= j < |catalog| ==> catalog[j] == catalog[1..][j - 1];
      if k < 0 then -1 else k + 1
  }

  /** The page's state: `currentQuestionIndex` and `history`. */
  datatype Nav = Nav(current: int, history: seq<int>)

  /** The state `useState(0)` and `useState([])` start from: the first question, nothing to go back to. */
  function Start(): (s: Nav)
    ensures s.current == 0 && s.history == []
    ensures Back(s) == s
  {
    Nav(0, [])
  }

  /** Every index the state holds points into the catalog. */
  ghost predicate InBounds(catalog: seq<Question>, s: Nav) {
    0 <= s.current < |catalog| &&
    forall k :: 0 <= k < |s.history| ==> 0 <= s.history[k] < |catalog|
  }

  /** Whether answering with `nextId` raises the completion signal (the alert). */
  function Completes(catalog: seq<Question>, nextId: Option<string>): (done: bool)
    ensures done <==> !Resolves(catalog, nextId)
  {
    FindIndex(catalog, nextId) < 0
  }

  /** handleAnswerSelected: the state after choosing an option whose `next` is `nextId`. */
  function Answer(catalog: seq<Question>, s: Nav, nextId: Option<string>): (r: Nav)
    ensures Resolves(catalog, nextId) ==>
      0 <= r.current < |catalog| && Names(nextId, catalog[r.current]) &&
      (forall j :: 0 <= j < r.current ==> !Names(nextId, catalog[j])) &&
      r.history == s.history + [s.current]
    ensures !Resolves(catalog, nextId) ==> r == s
  {
    var k := FindIndex(catalog, nextId);
    if k >= 0 then Nav(k, s.history + [s.current]) else s
  }

  /** handleBackButton: pop the last history entry into the current index, if there is one. */
  function Back(s: Nav): (r: Nav)
    ensures s.history == [] ==> r == s
    ensures s.history != [] ==> s.history == r.history + [r.current]
  {
    if |s.history| > 0 then Nav(s.history[|s.history| - 1], s.history[..|s.history| - 1]) else s
  }

  /** The back button's `hidden` class: it is hidden exactly when pressing it would change nothing. */
  function BackButtonHidden(s: Nav): (hidden: bool)
    ensures hidden <==> s.history == []
    ensures hidden <==> Back(s) == s
  {
    |s.history| == 0
  }

  /** A user action on the page. */
  datatype Event = Answered(nextId: Option<string>) | BackPressed

  /** The state after one action. */
  function Step(catalog: seq<Question>, s: Nav, e: Event): (r: Nav) {
    match e
    case Answered(nextId) => Answer(catalog, s, nextId)
    case BackPressed => Back(s)
  }

  /** The state after a sequence of actions. */
  function Run(catalog: seq<Question>, s: Nav, events: seq<Event>): (r: Nav)
    decreases |events|
  {
    if events == [] then s else Run(catalog, Step(catalog, s, events[0]), events[1..])
  }

  /** The number of answers in `events` that moved forward (did not complete). */
  function Forwards(catalog: seq<Question>, s: Nav, events: seq<Event>): (n: nat)
    decreases |events|
  {
    if events == [] then 0
    else
      var moved := events[0].Answered? && Resolves(catalog, events[0].nextId);
      (if moved then 1 else 0) + Forwards(catalog, Step(catalog, s, events[0]), events[1..])
  }

  /** The number of back presses in `events` that moved back (found a non-empty history). */
  function Backs(catalog: seq<Question>, s: Nav, events: seq<Event>): (n: nat)
    decreases |events|
  {
    if events == [] then 0
    else
      var moved := events[0].BackPressed? && s.history != [];
      (if moved then 1 else 0) + Backs(catalog, Step(catalog, s, events[0]), events[1..])
  }

  /** The initial state is in bounds whenever the catalog has a question. */
  lemma StartInBounds(catalog: seq<Question>)
    requires |catalog| > 0
    ensures InBounds(catalog, Start())
  {
  }

  /** Answering and then going back restores both the index and the history. */
  lemma AnswerThenBack(catalog: seq<Question>, s: Nav, nextId: Option<string>)
    requires Resolves(catalog, nextId)
    ensures Back(Answer(catalog, s, nextId)) == s
  {
  }

  /** One action keeps every index in bounds. */
  lemma StepInBounds(catalog: seq<Question>, s: Nav, e: Event)
    requires InBounds(catalog, s)
    ensures InBounds(catalog, Step(catalog, s, e))
  {
  }

  /** Any sequence of answers and back presses keeps every index in bounds. */
  lemma {:induction false} RunInBounds(catalog: seq<Question>, s: Nav, events: seq<Event>)
    requires InBounds(catalog, s)
    ensures InBounds(catalog, Run(catalog, s, events))
    decreases |events|
  {
    if events != [] {
      StepInBounds(catalog, s, events[0]);
      RunInBounds(catalog, Step(catalog, s, events[0]), events[1..]);
    }
  }

  /** Over any sequence of actions the history grows by the forward steps and shrinks by the back steps. */
  lemma {:induction false} HistoryCountsSteps(catalog: seq<Question>, s: Nav, events: seq<Event>)
    ensures |Run(catalog, s, events).history| + Backs(catalog, s, events)
         == |s.history| + Forwards(catalog, s, events)
    decreases |events|
  {
    if events != [] {
      HistoryCountsSteps(catalog, Step(catalog, s, events[0]), events[1..]);
    }
  }

  /** Every option's `next`, when present, is the id of some question. */
  ghost predicate WellFormed(catalog: seq<Question>) {
    forall i, o :: 0 <= i < |catalog| && o in catalog[i].options && o.next.Some? ==>
      Resolves(catalog, o.next)
  }

  /** In a well-formed catalog the quiz completes exactly on an option whose `next` is null. */
  lemma CompletesOnlyOnNull(catalog: seq<Question>, i: int, o: AnswerOption)
    requires WellFormed(catalog)
    requires 0 <= i < |catalog| && o in catalog[i].options
    ensures Completes(catalog, o.next) <==> o.next == None
  {
  }

  /** The quiz page's component state. */
  class QuizPage {
    const catalog: seq<Question>
    var currentQuestionIndex: int
    var history: seq<int>

    function State(): (s: Nav)
      reads this
    {
      Nav(currentQuestionIndex, history)
    }

    /** With a non-empty catalog, the state is in bounds. */
    ghost predicate Valid()
      reads this
    {
      |catalog| > 0 ==> InBounds(catalog, State())
    }

    constructor (catalog: seq<Question>)
      ensures this.catalog == catalog
      ensures State() == Start()
      ensures Valid()
    {
      this.catalog := catalog;
      currentQuestionIndex := 0;
      history := [];
    }

    /** handleAnswerSelected; `completed` is the completion alert. */
    method AnswerSelected(nextId: Option<string>) returns (completed: bool)
      requires Valid()
      modifies this
      ensures Valid()
      ensures completed <==> Completes(catalog, nextId)
      ensures State() == Answer(catalog, old(State()), nextId)
    {
      var nextQuestionIndex := FindIndex(catalog, nextId);
      if nextQuestionIndex >= 0 {
        StepInBounds(catalog, State(), Answered(nextId));
        history := history + [currentQuestionIndex];
        currentQuestionIndex := nextQuestionIndex;
        completed := false;
      } else {
        completed := true;
      }
    }

    /** handleBackButton. */
    method BackButton()
      requires Valid()
      modifies this
      ensures Valid()
      ensures State() == Back(old(State()))
    {
      if |history| > 0 {
        if |catalog| > 0 {
          StepInBounds(catalog, State(), BackPressed);
        }
        var previousQuestionIndex := history[|history| - 1];
        history := history[..|history| - 1];
        currentQuestionIndex := previousQuestionIndex;
      }
    }
  }
}
