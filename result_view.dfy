/**
 * The checker's error box and result box: which is shown, and with which
 * icon, headline, explanation and colour, as a function of `error` and
 * `prediction` alone.
 */
module ResultView {
  import opened Options
  import opened JsText

  /** The colour family of the result box's classes: green or red. */
  datatype Tone = Green | Red

  datatype Panel = Panel(icon: string, headline: string, explanation: string, tone: Tone)

  const GenuineExplanation := "This article displays authentic linguistic patterns and passes our authenticity checks. However, always cross-reference with trusted news sources."
  const FakeExplanation := "This article exhibits patterns commonly found in misinformation. We recommend verifying the claims with multiple trusted sources before sharing."

  /** The box for the given colour; every attribute in it is chosen by the same comparison. */
  function PanelFor(tone: Tone): Panel {
    match tone
    case Green => Panel("\U{2713}", "Genuine Article", GenuineExplanation, Green)
    case Red => Panel("\U{2717}", "Likely Fake News", FakeExplanation, Red)
  }

  /** `{error && <div>...{error}...</div>}`. */
  function ErrorBox(error: string): Option<string> {
    if error != "" then Some(error) else None
  }

  /**
   * What the place of the result box holds. `{prediction && <div>...}`
   * yields `prediction` itself when it is falsy, and React renders a falsy
   * number as its digits but `null`, `undefined`, `false` and `""` as nothing.
   */
  datatype Slot = Blank | Bare(text: string) | Box(panel: Panel)

  /** `{prediction && <div>...prediction === 'Genuine' ? ... : ...}`. */
  function ResultBox(prediction: JsValue): (r: Slot)
    ensures r.Box? <==> Truthy(prediction)
    ensures r.Box? ==> r.panel == PanelFor(r.panel.tone)
    ensures r.Bare? <==> prediction == NaN || (prediction.Num? && prediction.x == 0.0)
  {
    if !Truthy(prediction) then
      match prediction
      case Num(_) => Bare("0")
      case NaN => Bare("NaN")
      case _ => Blank
    else if prediction == Str("Genuine") then Box(PanelFor(Green))
    else Box(PanelFor(Red))
  }

  /** The error box shows the error text, and is shown exactly when the text is non-empty. */
  lemma ErrorBoxShownIffNonEmpty(error: string)
    ensures ErrorBox(error).Some? <==> |error| > 0
    ensures ErrorBox(error).Some? ==> ErrorBox(error).value == error
  {
  }

  /**
   * The result box is shown exactly for a truthy prediction; it is green
   * exactly for the string "Genuine" and red for every other truthy value,
   * whether or not it is one the server sends.
   */
  lemma ResultBoxCases(prediction: JsValue)
    ensures ResultBox(prediction).Box? <==> Truthy(prediction)
    ensures ResultBox(prediction) == Box(PanelFor(Green)) <==> prediction == Str("Genuine")
    ensures ResultBox(prediction) == Box(PanelFor(Red)) <==> Truthy(prediction) && prediction != Str("Genuine")
  {
  }

  /** The two boxes differ in every attribute, so a box never mixes the two verdicts. */
  lemma PanelsDistinct()
    ensures PanelFor(Green).icon != PanelFor(Red).icon
    ensures PanelFor(Green).headline != PanelFor(Red).headline
    ensures PanelFor(Green).explanation != PanelFor(Red).explanation
    ensures forall t :: PanelFor(t).tone == t
  {
    assert PanelFor(Green).headline[0] != PanelFor(Red).headline[0];
    assert |GenuineExplanation| == 146 && |FakeExplanation| == 144;
  }

  /** A value the server never sends is still shown as a verdict: any other non-empty string reads as fake. */
  lemma UnrecognisedStringShownAsFake(s: string)
    requires s != "" && s != "Genuine"
    ensures ResultBox(Str(s)) == Box(PanelFor(Red))
  {
  }

  /**
   * Falsy values show no box: `null`, `undefined`, `false` and `""` leave
   * the place empty, while a zero shows the text "0" and NaN the text "NaN".
   */
  lemma FalsyValuesShowNoBox()
    ensures ResultBox(Null) == Blank && ResultBox(Undefined) == Blank
    ensures ResultBox(Str("")) == Blank && ResultBox(Bool(false)) == Blank
    ensures ResultBox(Num(0.0)) == Bare("0") && ResultBox(NaN) == Bare("NaN")
  {
  }
}
