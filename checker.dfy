/**
 * The article checker component: its four pieces of state, the two click
 * handlers, the text area's change handler and the buttons' enablement rules.
 *
 * The transitions are given twice: as pure functions over a `State` value
 * (which the lemmas and the event trace below reason about) and as the
 * `Checker` class, whose methods update the fields one setter at a time as
 * the handlers do and are proved to agree with the pure functions.
 */
module Checker {
  import opened Options
  import opened JsText

  const EmptyInputMessage := "Please paste some news text first!"
  const ConnectErrorMessage := "Could not connect to server. Make sure Flask is running on localhost:5000"

  /** What the awaited POST produced: the value of `response.data.prediction`, or a thrown error. */
  datatype Outcome = Success(prediction: JsValue) | Failure

  /** A snapshot of `newsText`, `prediction`, `loading` and `error`. */
  datatype State = State(newsText: string, prediction: JsValue, loading: bool, error: string)

  /** The initial values passed to `useState`. */
  const Initial := State("", Null, false, "")

  /** `disabled={loading || !newsText.trim()}` on the Verify button, negated. */
  predicate VerifyEnabled(s: State) {
    !s.loading && !IsBlank(s.newsText)
  }

  /** `disabled={loading}` on the Clear button, negated. */
  predicate ClearEnabled(s: State) {
    !s.loading
  }

  /**
   * The part of `handlePredict` before the `await`: the new state and the
   * body of the request it issues, if any.
   */
  function Start(s: State): (State, Option<string>) {
    if IsBlank(s.newsText) then (s.(error := EmptyInputMessage), None)
    else (s.(error := "", loading := true), Some(s.newsText))
  }

  /** The part of `handlePredict` after the `await`, given what the request produced. */
  function Resolve(s: State, o: Outcome): State {
    match o
    case Success(v) => s.(prediction := v, loading := false)
    case Failure => s.(error := ConnectErrorMessage, prediction := Null, loading := false)
  }

  /** `handleClear`. */
  function Clear(s: State): State {
    s.(newsText := "", prediction := Null, error := "")
  }

  /** The text area's `onChange`. */
  function Edit(s: State, text: string): State {
    s.(newsText := text)
  }

  /** A blank text sets the validation message, issues no request and touches nothing else. */
  lemma StartOnBlankText(s: State)
    requires forall i :: 0 <= i < |s.newsText| ==> IsWhitespace(s.newsText[i])
    ensures Start(s).1 == None
    ensures Start(s).0 == State(s.newsText, s.prediction, s.loading, EmptyInputMessage)
  {
    BlankIffAllWhitespace(s.newsText);
  }

  /**
   * A text with a non-whitespace character clears the error, raises `loading`
   * and issues exactly one request whose body is the untrimmed text; the
   * previous prediction stays in place.
   */
  lemma StartOnText(s: State, i: nat)
    requires i < |s.newsText| && !IsWhitespace(s.newsText[i])
    ensures Start(s).1 == Some(s.newsText)
    ensures Start(s).0 == State(s.newsText, s.prediction, true, "")
  {
    BlankIffAllWhitespace(s.newsText);
  }

  /** Either outcome lowers `loading`, and neither half of `handlePredict` changes the text. */
  lemma PredictKeepsTextAndEndsLoading(s: State, o: Outcome)
    ensures Start(s).0.newsText == s.newsText
    ensures Resolve(Start(s).0, o).newsText == s.newsText
    ensures !Resolve(Start(s).0, o).loading
  {
  }

  /**
   * A late response is applied to whatever state it finds: resolving after a
   * clear still records the value. Only the disabled Clear button keeps this
   * from happening.
   */
  lemma LateResponseAfterClearIsApplied(s: State, v: JsValue)
    ensures Resolve(Clear(s), Success(v)).prediction == v
    ensures Resolve(Clear(s), Failure).error == ConnectErrorMessage
  {
  }

  /** `handleClear` applied twice is `handleClear` applied once, and it leaves `loading` alone. */
  lemma ClearIdempotent(s: State)
    ensures Clear(Clear(s)) == Clear(s)
    ensures Clear(s) == State("", Null, s.loading, "")
  {
  }

  /** The component, with the four `useState` slots as fields. */
  class App {
    var newsText: string
    var prediction: JsValue
    var loading: bool
    var error: string

    function Snapshot(): State
      reads this
    {
      State(newsText, prediction, loading, error)
    }

    constructor ()
      ensures Snapshot() == Initial
    {
      newsText := "";
      prediction := Null;
      loading := false;
      error := "";
    }

    /** `onChange={(e) => setNewsText(e.target.value)}`. */
    method EditText(text: string)
      modifies this
      ensures Snapshot() == Edit(old(Snapshot()), text)
      ensures newsText == text && prediction == old(prediction) && loading == old(loading) && error == old(error)
    {
      newsText := text;
    }

    /**
     * `handlePredict` up to the `await`. Entered only from the Verify
     * button, which is disabled while `loading`; the blank-text test is the
     * handler's own.
     */
    method StartPredict() returns (request: Option<string>)
      requires !loading
      modifies this
      ensures (Snapshot(), request) == Start(old(Snapshot()))
      ensures newsText == old(newsText) && prediction == old(prediction)
      ensures IsBlank(newsText) ==> request == None && error == EmptyInputMessage && !loading
      ensures !IsBlank(newsText) ==> request == Some(newsText) && error == "" && loading
    {
      if IsBlank(newsText) {
        error := EmptyInputMessage;
        return None;
      }
      error := "";
      loading := true;
      request := Some(newsText);
    }

    /** `handlePredict` from the `await` on: the `try`/`catch` and the final `setLoading(false)`. */
    method ResolvePredict(outcome: Outcome)
      requires loading
      modifies this
      ensures Snapshot() == Resolve(old(Snapshot()), outcome)
      ensures newsText == old(newsText) && !loading
      ensures outcome.Success? ==> prediction == outcome.prediction && error == old(error)
      ensures outcome.Failure? ==> prediction == Null && error == ConnectErrorMessage
    {
      match outcome {
        case Success(v) =>
          prediction := v;
        case Failure =>
          error := ConnectErrorMessage;
          prediction := Null;
      }
      loading := false;
    }

    /** `handleClear`, entered only from the Clear button, which is disabled while `loading`. */
    method HandleClear()
      requires !loading
      modifies this
      ensures Snapshot() == Clear(old(Snapshot()))
      ensures newsText == "" && prediction == Null && error == "" && loading == old(loading)
    {
      newsText := "";
      prediction := Null;
      error := "";
    }
  }

  /*
   * The component inside its page. A user types, clicks an enabled or a
   * disabled button, and the server eventually answers the one outstanding
   * request. A click on a disabled button does nothing; an answer with no
   * outstanding request cannot arrive.
   */

  datatype Event = Type(text: string) | ClickVerify | ClickClear | Deliver(outcome: Outcome)

  /** The component's state, the bodies of all requests issued so far and how many were answered. */
  datatype World = World(app: State, sent: seq<string>, answered: nat)

  const Opened := World(Initial, [], 0)

  function Step(w: World, e: Event): World {
    match e
    case Type(t) => w.(app := Edit(w.app, t))
    case ClickVerify =>
      if VerifyEnabled(w.app) then
        var (next, request) := Start(w.app);
        World(next, if request.Some? then w.sent + [request.value] else w.sent, w.answered)
      else w
    case ClickClear => if ClearEnabled(w.app) then w.(app := Clear(w.app)) else w
    case Deliver(o) =>
      if w.answered < |w.sent| then World(Resolve(w.app, o), w.sent, w.answered + 1) else w
  }

  function Run(w: World, events: seq<Event>): World
    decreases |events|
  {
    if events == [] then w else Run(Step(w, events[0]), events[1..])
  }

  /**
   * What holds after every sequence of events: at most one request is
   * outstanding and `loading` says exactly whether one is; while it is, the
   * error is empty; the only error ever shown is the connectivity message;
   * every request carried a non-blank text.
   */
  ghost predicate Inv(w: World) {
    && w.answered <= |w.sent| <= w.answered + 1
    && (w.app.loading <==> |w.sent| == w.answered + 1)
    && (w.app.loading ==> w.app.error == "")
    && (w.app.error == "" || w.app.error == ConnectErrorMessage)
    && forall i :: 0 <= i < |w.sent| ==> !IsBlank(w.sent[i])
  }

  lemma VerifyKeepsInv(w: World)
    requires Inv(w) && VerifyEnabled(w.app)
    ensures Inv(Step(w, ClickVerify))
  {
    var w' := Step(w, ClickVerify);
    assert w'.sent == w.sent + [w.app.newsText];
    forall i | 0 <= i < |w'.sent| ensures !IsBlank(w'.sent[i]) {
      if i < |w.sent| { assert w'.sent[i] == w.sent[i]; }
    }
  }

  lemma DeliverKeepsInv(w: World, o: Outcome)
    requires Inv(w)
    ensures Inv(Step(w, Deliver(o)))
  {
    var w' := Step(w, Deliver(o));
    assert w'.sent == w.sent;
  }

  lemma StepKeepsInv(w: World, e: Event)
    requires Inv(w)
    ensures Inv(Step(w, e))
  {
    match e
    case Type(t) =>
      assert Step(w, e).sent == w.sent;
    case ClickVerify =>
      if VerifyEnabled(w.app) { VerifyKeepsInv(w); }
    case ClickClear =>
      assert Step(w, e).sent == w.sent;
    case Deliver(o) =>
      DeliverKeepsInv(w, o);
  }

  /** The invariant holds after any sequence of events from the opened page. */
  lemma {:induction false} RunKeepsInv(w: World, events: seq<Event>)
    requires Inv(w)
    ensures Inv(Run(w, events))
    decreases |events|
  {
    if events != [] {
      StepKeepsInv(w, events[0]);
      RunKeepsInv(Step(w, events[0]), events[1..]);
    }
  }

  /**
   * Single flight: after any sequence of events at most one request is
   * unanswered, it is unanswered exactly while `loading`, and a click on
   * Verify or Clear then changes nothing.
   */
  lemma SingleFlight(events: seq<Event>)
    ensures var w := Run(Opened, events);
      && |w.sent| - w.answered <= 1
      && (w.app.loading <==> |w.sent| - w.answered == 1)
      && (w.app.loading ==> Step(w, ClickVerify) == w && Step(w, ClickClear) == w)
  {
    RunKeepsInv(Opened, events);
  }

  /**
   * The blank-text branch of `handlePredict` is dead code on the page: the
   * Verify button is disabled for a blank text, so the validation message
   * is never shown and no request ever carries a blank text.
   */
  lemma ValidationMessageNeverShown(events: seq<Event>)
    ensures Run(Opened, events).app.error != EmptyInputMessage
    ensures forall i :: 0 <= i < |Run(Opened, events).sent| ==> !IsBlank(Run(Opened, events).sent[i])
  {
    RunKeepsInv(Opened, events);
  }

  /**
   * An answer to the outstanding request records the outcome: a success
   * stores the value as received, with an empty error; a failure stores the
   * connectivity message and no prediction. The text is untouched and
   * `loading` is lowered.
   */
  lemma AnswerRecorded(events: seq<Event>, o: Outcome)
    requires Run(Opened, events).app.loading
    ensures var w := Run(Opened, events);
      var w' := Step(w, Deliver(o));
      && w'.answered == |w'.sent| && !w'.app.loading && w'.app.newsText == w.app.newsText
      && (o.Success? ==> w'.app.prediction == o.prediction && w'.app.error == "")
      && (o.Failure? ==> w'.app.prediction == Null && w'.app.error == ConnectErrorMessage)
  {
    RunKeepsInv(Opened, events);
  }
}
