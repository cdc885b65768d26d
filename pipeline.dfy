/**
 * The page and the service together: the checker posts `{ text: newsText }`,
 * the service answers `{ prediction: status }`, and the page shows a box.
 */
module Pipeline {
  import opened Options
  import opened JsText
  import opened Checker
  import opened ResultView
  import Backend

  /** A status the service sends shows a box, green exactly for the label 1. */
  lemma ServiceStatusShown(s: State, predicted: int)
    ensures var box := ResultBox(Resolve(s, Success(Str(Backend.Status(predicted)))).prediction);
      box == Box(PanelFor(if predicted == 1 then Green else Red))
  {
  }

  /** A failed request shows the connectivity message and no result box. */
  lemma FailureShown(s: State)
    ensures ErrorBox(Resolve(s, Failure).error) == Some(ConnectErrorMessage)
    ensures ResultBox(Resolve(s, Failure).prediction) == Blank
  {
  }

  /**
   * When the outstanding request is answered by the service, the page shows
   * no error and a box whose colour is decided by classifying the cleaned
   * form of exactly the text that was posted.
   */
  lemma AnsweredByService(events: seq<Event>, classify: string -> int)
    requires Run(Opened, events).app.loading
    ensures var w := Run(Opened, events);
      && |w.sent| > 0
      && var posted := w.sent[|w.sent| - 1];
         var w' := Step(w, Deliver(Success(Str(Backend.Predict(map["text" := posted], classify)))));
         && ErrorBox(w'.app.error) == None
         && ResultBox(w'.app.prediction) == Box(PanelFor(if classify(Backend.CleanText(posted)) == 1 then Green else Red))
  {
    SingleFlight(events);
    AnswerRecorded(events, Success(Str(Backend.Predict(map["text" := Run(Opened, events).sent[|Run(Opened, events).sent| - 1]], classify))));
  }

  /**
   * On the page the error box shows either nothing or the connectivity
   * message, and nothing while a request is outstanding.
   */
  lemma ErrorBoxOnPage(events: seq<Event>)
    ensures var w := Run(Opened, events);
      && (ErrorBox(w.app.error) == None || ErrorBox(w.app.error) == Some(ConnectErrorMessage))
      && (w.app.loading ==> ErrorBox(w.app.error) == None)
  {
    RunKeepsInv(Opened, events);
  }
}
