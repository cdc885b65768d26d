# Fake News Sentinel: a Dafny model of the checker and the text normaliser

Fake News Sentinel is a web page where a user pastes a news article and gets a
"Genuine" or "Fake" verdict from a small Flask service. This project models the
two parts of it that have logic:

- **The checker component** (`frontend/src/App.jsx`). It has four pieces of
  state: `newsText`, `prediction`, `loading` and `error`. It has the Verify
  handler (`handlePredict`), the Clear handler (`handleClear`), the text area's
  change handler and the two buttons' `disabled` rules. It also has the
  conditional rendering of the error box and the result box.
- **The service's text processing** (`backend/app.py`). This is `clean_text`,
  which lower-cases the text, deletes `[...]` spans and turns every non-word
  character into a space. It also includes the mapping from the classifier's
  label to the status `"Genuine"` or `"Fake"`.

Modules:

- `Options` (options.dfy): the `Option` datatype.
- `JsText` (js_text.dfy): JavaScript's `trim` and truthiness.
- `Checker` (checker.dfy): the component's state machine. It has pure transition
  functions `Start`, `Resolve`, `Clear` and `Edit` over a `State` value. It has
  the class `App`, whose four fields are the `useState` slots and whose methods
  follow the handlers setter by setter. Each method is proved equal to the pure
  transition. Finally it has a model of the page as a sequence of user and
  network events (`Event`, `Step`, `Run`). A click on a disabled button does
  nothing there.
- `ResultView` (result_view.dfy): which box is shown, and with which icon,
  headline, explanation and colour.
- `Backend` (backend.dfy): `clean_text` as three stages (`Lower`,
  `StripBrackets`, `ReplaceNonWord`), plus `Status` and `Predict`.
- `Pipeline` (pipeline.dfy): the two sides together.

`handlePredict` is split at its `await`. `StartPredict` covers the part up to
the request and returns the request body, if it sends one. `ResolvePredict`
applies the outcome: `Success(value)` stands for a resolved POST whose
`response.data.prediction` is `value`; `Failure` stands for anything thrown.
`StartPredict` requires `!loading` because it is entered only from the Verify
button, which is disabled while `loading` (App.jsx:199). The handler makes its
own blank-text test, so that test is modelled, not required. `HandleClear`
requires `!loading` because of App.jsx:219. `ResolvePredict` requires `loading`.
`loading` was raised by the start, and only the resolve lowers it.

Two behaviours a reader might expect are not in the code, and the model
follows the code:

- There is no fail-closed test on the verdict. The code stores whatever
  `response.data.prediction` is, unchecked (App.jsx:22). Any truthy value other
  than `"Genuine"` is shown as the fake box. A falsy value shows no box:
  `null`, `undefined`, `false` and `""` leave the place empty, while `0` shows
  the text "0" and `NaN` the text "NaN" (App.jsx:235).
- A response arriving after a clear is not dropped. The code only disables
  Clear while a request is in flight. `LateResponseAfterClearIsApplied` shows
  that a late response would be applied. `SingleFlight` shows that on the page,
  Clear cannot run while a request is unanswered.
- On the page, the blank-text branch of `handlePredict` cannot be reached: the
  Verify button is disabled for blank text. `ValidationMessageNeverShown` proves
  this.

## Model

| member | source | states |
|---|---|---|
| JsText.TrimStart | frontend/src/App.jsx:11 | the leading part of `trim`: the result is a suffix of the input, everything dropped is whitespace, and the result does not start with whitespace |
| JsText.TrimEnd | frontend/src/App.jsx:11 | the trailing part of `trim`: the result is a prefix of the input, everything dropped is whitespace, and the result does not end with whitespace |
| JsText.BlankIffAllWhitespace | frontend/src/App.jsx:11 | `!text.trim()` holds exactly when every character of the text is JavaScript whitespace |
| JsText.Trim | frontend/src/App.jsx:11 | `text.trim()`: the start-trim followed by the end-trim |
| JsText.IsBlank | frontend/src/App.jsx:11 | `!text.trim()`: the trimmed text is the empty string |
| JsText.Truthy | frontend/src/App.jsx:235 | JavaScript truthiness: null, undefined, false, 0, NaN and `""` are falsy, everything else truthy |
| Checker.VerifyEnabled | frontend/src/App.jsx:199 | the Verify button is enabled exactly when not loading and the text is not blank |
| Checker.ClearEnabled | frontend/src/App.jsx:219 | the Clear button is enabled exactly when not loading |
| Checker.Start | frontend/src/App.jsx:11-21 | blank text: only the validation message is set and no request is made; otherwise the error is cleared, `loading` raised and the untrimmed text is the request body |
| Checker.Resolve | frontend/src/App.jsx:22-28 | success stores the value unchecked; failure stores the connectivity message and null; `loading` is lowered in both cases |
| Checker.Clear | frontend/src/App.jsx:31-35 | text, prediction and error are reset; `loading` is kept |
| Checker.Edit | frontend/src/App.jsx:183 | only the text is replaced |
| Checker.Step | frontend/src/App.jsx:197-223 | one page event: typing edits the text, a click on a disabled button does nothing, an enabled click runs its handler, and an answer resolves the outstanding request (there is never more than one) |
| Checker.App.constructor | frontend/src/App.jsx:5-8 | the initial state: empty text, null prediction, not loading, empty error |
| Checker.App.EditText | frontend/src/App.jsx:183 | typing replaces `newsText` and changes nothing else |
| Checker.App.StartPredict | frontend/src/App.jsx:10-21 | blank text: validation message set, no request, text, prediction and `loading` unchanged; otherwise error cleared, `loading` raised, and exactly one request whose body is the untrimmed text |
| Checker.App.ResolvePredict | frontend/src/App.jsx:22-28 | success stores the received value unchecked and leaves the error alone; failure stores the connectivity message and a null prediction; `loading` is lowered either way and the text is untouched |
| Checker.App.HandleClear | frontend/src/App.jsx:31-35 | text, prediction and error reset and `loading` left as it was |
| Checker.StartOnBlankText | frontend/src/App.jsx:11-14 | for an all-whitespace text the start sets only the validation message and issues no request |
| Checker.StartOnText | frontend/src/App.jsx:16-21 | for a text with a non-whitespace character the start clears the error, raises `loading`, keeps the old prediction and issues the untrimmed text as the request |
| Checker.PredictKeepsTextAndEndsLoading | frontend/src/App.jsx:16-28 | after either outcome `loading` is false, and neither half changes `newsText` |
| Checker.LateResponseAfterClearIsApplied | frontend/src/App.jsx:22-35 | nothing in the handlers discards a response that arrives after a clear: its value or the connectivity error is applied |
| Checker.ClearIdempotent | frontend/src/App.jsx:31-35 | clearing twice is the same as clearing once, and the cleared state is fixed except for `loading` |
| Checker.VerifyKeepsInv | frontend/src/App.jsx:199 | an enabled Verify click keeps the page invariant: the one new request carries a non-blank text and `loading` marks it outstanding |
| Checker.DeliverKeepsInv | frontend/src/App.jsx:22-28 | answering the outstanding request keeps the page invariant |
| Checker.StepKeepsInv | frontend/src/App.jsx:197-223 | every event (typing, a click on either button, an answer) keeps the page invariant |
| Checker.RunKeepsInv | frontend/src/App.jsx:197-223 | the page invariant holds after any sequence of events |
| Checker.SingleFlight | frontend/src/App.jsx:199-219 | after any sequence of events at most one request is unanswered; `loading` holds exactly while one is; Verify and Clear do nothing then |
| Checker.ValidationMessageNeverShown | frontend/src/App.jsx:199 | on the page the validation message is never shown and no request carries a blank text |
| Checker.AnswerRecorded | frontend/src/App.jsx:22-28 | on the page, the answer to the outstanding request stores the value with an empty error on success, or the connectivity message and null on failure, and lowers `loading` |
| ResultView.PanelFor | frontend/src/App.jsx:237-268 | the green box is ✓ "Genuine Article" with the genuine explanation; the red box is ✗ "Likely Fake News" with the fake explanation |
| ResultView.ErrorBox | frontend/src/App.jsx:227-232 | the error box holds the error text, and is present only for a non-empty error |
| ResultView.ResultBox | frontend/src/App.jsx:235-268 | a box is shown exactly for a truthy prediction, and its attributes follow one colour; a bare text is shown exactly for a zero or NaN prediction |
| ResultView.ErrorBoxShownIffNonEmpty | frontend/src/App.jsx:227-232 | the error box is shown exactly when `error` is non-empty and shows that text |
| ResultView.ResultBoxCases | frontend/src/App.jsx:235-268 | the result box is shown exactly for a truthy prediction; it is the green ✓ "Genuine Article" box exactly for `"Genuine"` and the red ✗ "Likely Fake News" box for every other truthy value |
| ResultView.PanelsDistinct | frontend/src/App.jsx:243-268 | the two boxes differ in icon, headline and explanation, and each box's attributes follow its colour |
| ResultView.UnrecognisedStringShownAsFake | frontend/src/App.jsx:235-268 | a non-empty string other than `"Genuine"` is shown as the fake verdict |
| ResultView.FalsyValuesShowNoBox | frontend/src/App.jsx:235 | null, undefined, `""` and false leave the place empty; 0 shows the bare text "0" and NaN the bare text "NaN", with no box |
| Backend.LowerChar | backend/app.py:14 | a lower-cased character is never upper case, is a word character exactly when the original is, and is unchanged unless upper case |
| Backend.Lower | backend/app.py:14 | `lower()` keeps the length and lower-cases position by position |
| Backend.FindClose | backend/app.py:15 | finds where `.*?\]` stops: the first `]` before any newline, or none when every `]` comes after a newline |
| Backend.StripBrackets | backend/app.py:15 | the bracket stage never lengthens the text and leaves text with no `[` unchanged |
| Backend.StripBracketsKeepsCharacters | backend/app.py:15 | every character left by the bracket stage occurs in its input |
| Backend.NoMatchUnchanged | backend/app.py:15 | text where no `[` starts a match passes through the bracket stage unchanged |
| Backend.StripBracketsLeavesNoMatch | backend/app.py:15 | after the bracket stage no `[` starts a match: each kept `[` has no `]` before its next newline |
| Backend.StripBracketsIdempotent | backend/app.py:15 | applying the bracket stage twice is the same as applying it once |
| Backend.ReplaceNonWord | backend/app.py:16 | the `\W` stage keeps the length, keeps word characters in place and turns each other character into one space |
| Backend.CleanText | backend/app.py:13-17 | the output is no longer than the input and holds only lower-case word characters and spaces, so it has no `[` or `]` |
| Backend.CleanTextIdempotent | backend/app.py:13-17 | `clean_text` applied to its own output changes nothing |
| Backend.RawText | backend/app.py:22 | `data.get('text', '')`: the posted text, or the empty string when there is no `text` field |
| Backend.Status | backend/app.py:32 | the status is `"Genuine"` exactly when the label is 1 and `"Fake"` otherwise |
| Backend.Predict | backend/app.py:20-34 | the handler answers `"Genuine"` exactly when the classifier gives 1 on the cleaned posted text, and `"Fake"` otherwise |
| Backend.MissingTextIsEmptyArticle | backend/app.py:22 | a body with no `text` field is classified as the empty article |
| Pipeline.ServiceStatusShown | backend/app.py:32 | a status sent by the service is shown as the green box exactly when the label was 1, and the red box otherwise |
| Pipeline.FailureShown | frontend/src/App.jsx:23-27 | a failed request shows the connectivity message and no result box |
| Pipeline.ErrorBoxOnPage | frontend/src/App.jsx:227-232 | on the page the error box shows either nothing or the connectivity message, and nothing while a request is outstanding |
| Pipeline.AnsweredByService | frontend/src/App.jsx:19-22 | when the service answers the outstanding request, the page shows no error. Its box is green exactly when the classifier gives 1 on the cleaned form of the text that was posted |

## Left out

- The POST itself, its URL and `console.error` (App.jsx:19, 24). They become the abstract `Outcome`. A `response.data` on which `.prediction` throws counts as `Failure`.
- Concurrency. The `await` is the split between `StartPredict` and `ResolvePredict`, and the button rules are preconditions, or ignored clicks in the event model.
- The scrolling helpers `scrollToChecker` and `scrollToHowItWorks` (App.jsx:37-49). They are browser calls.
- The static page, including the character counter and the "Minimum 100 characters recommended" hint (App.jsx:187, 190). They are display only and block nothing.
- Flask routing, CORS, JSON parsing and `app.run` (app.py:1-8, 19-21, 34-37). The posted JSON is modelled as a map from strings to strings. A non-string `text` value makes `lower()` raise, and that server error is not modelled.
- Loading the pickled model and vectoriser, `vectorizer.transform` and `model.predict` (app.py:10-11, 28, 31). They are foreign numeric code. They appear only as the opaque `classify` parameter, which maps a cleaned text to an integer label.
- Backend.Lower: lower-cases only 'A'..'Z', not Python's full Unicode `str.lower`. As a result it is exact for ASCII input only.
- Backend.ReplaceNonWord: treats only [A-Za-z0-9_] as word characters. Python's Unicode `\w` also includes non-ASCII letters and digits, which this model turns into spaces. It is exact for ASCII input.
- JsText.IsWhitespace: lists the ECMAScript WhiteSpace and LineTerminator characters. It is fixed at the Unicode space separators current when written.
