/**
 * The prediction service: the text normaliser applied to every incoming
 * article and the mapping from the classifier's label to the status it
 * returns. Characters are ASCII-first: lower-casing maps only 'A'..'Z', and
 * the word characters are [A-Za-z0-9_].
 */
module Backend {
  import opened Options

  predicate IsUpper(c: char) {
    'A' <= c <= 'Z'
  }

  /** The characters of the regular expression class `\w`. */
  predicate IsWordChar(c: char) {
    ('a' <= c <= 'z') || ('A' <= c <= 'Z') || ('0' <= c <= '9') || c == '_'
  }

  function LowerChar(c: char): (d: char)
    ensures !IsUpper(d)
    ensures IsWordChar(d) <==> IsWordChar(c)
    ensures !IsUpper(c) ==> d == c
  {
    if IsUpper(c) then (c as int + 32) as char else c
  }

  /** Stage one, `text.lower()`: each character lower-cased in place. */
  function Lower(s: string): (r: string)
    ensures |r| == |s|
    ensures forall i :: 0 <= i < |s| ==> r[i] == LowerChar(s[i])
  {
    if s == [] then [] else [LowerChar(s[0])] + Lower(s[1..])
  }

  /**
   * The offset in `t` of the first ']' that comes before any newline, which
   * is where a non-greedy `.*?\]` that starts at the front of `t` stops
   * (`.` matches anything but a newline).
   */
  function FindClose(t: string): (r: Option<nat>)
    ensures r.Some? ==> r.value < |t| && t[r.value] == ']'
    ensures r.Some? ==> forall k :: 0 <= k < r.value ==> t[k] != ']' && t[k] != '\n'
    ensures r.None? ==> forall k :: 0 <= k < |t| && t[k] == ']' ==> exists j :: 0 <= j < k && t[j] == '\n'
  {
    if t == [] then None
    else if t[0] == ']' then Some(0)
    else if t[0] == '\n' then None
    else match FindClose(t[1..])
      case Some(k) => Some(k + 1)
      case None => None
  }

  /**
   * Stage two, `re.sub('\[.*?\]', '', text)`: scanning left to right, each
   * '[' starts a deletion that runs through the first ']' before a newline;
   * a '[' with no such ']' is kept and the scan moves past it.
   */
  function StripBrackets(s: string): (r: string)
    ensures |r| <= |s|
    ensures (forall i :: 0 <= i < |s| ==> s[i] != '[') ==> r == s
  {
    if s == [] then []
    else if s[0] == '[' then
      match FindClose(s[1..])
      case Some(k) => StripBrackets(s[k + 2..])
      case None => [s[0]] + StripBrackets(s[1..])
    else [s[0]] + StripBrackets(s[1..])
  }

  function WordOrSpace(c: char): char {
    if IsWordChar(c) then c else ' '
  }

  /** Stage three, `re.sub("\\W", " ", text)`: every non-word character replaced by one space, in place. */
  function ReplaceNonWord(s: string): (r: string)
    ensures |r| == |s|
    ensures forall i :: 0 <= i < |s| ==> r[i] == WordOrSpace(s[i])
  {
    if s == [] then [] else [WordOrSpace(s[0])] + ReplaceNonWord(s[1..])
  }

  /** `clean_text`. */
  function CleanText(text: string): (r: string)
    ensures |r| <= |text|
    ensures forall i :: 0 <= i < |r| ==> IsWordChar(r[i]) || r[i] == ' '
    ensures forall i :: 0 <= i < |r| ==> !IsUpper(r[i])
    ensures forall i :: 0 <= i < |r| ==> r[i] != '[' && r[i] != ']'
  {
    var lowered := Lower(text);
    var stripped := StripBrackets(lowered);
    var r := ReplaceNonWord(stripped);
    assert forall i :: 0 <= i < |r| ==> !IsUpper(r[i]) by {
      forall i | 0 <= i < |r| ensures !IsUpper(r[i]) {
        StrippedHasNoUpper(lowered, i);
      }
    }
    r
  }

  /** Deleting spans keeps only characters of the input. */
  lemma {:induction false} StripBracketsKeepsCharacters(s: string, i: nat)
    requires i < |StripBrackets(s)|
    ensures StripBrackets(s)[i] in s
    decreases |s|
  {
    if s[0] == '[' {
      match FindClose(s[1..]) {
        case Some(k) =>
          StripBracketsKeepsCharacters(s[k + 2..], i);
          assert StripBrackets(s)[i] in s[k + 2..];
        case None =>
          if i > 0 {
            StripBracketsKeepsCharacters(s[1..], i - 1);
          }
      }
    } else if i > 0 {
      StripBracketsKeepsCharacters(s[1..], i - 1);
    }
  }

  lemma StrippedHasNoUpper(lowered: string, i: nat)
    requires forall j :: 0 <= j < |lowered| ==> !IsUpper(lowered[j])
    requires i < |StripBrackets(lowered)|
    ensures !IsUpper(StripBrackets(lowered)[i])
  {
    StripBracketsKeepsCharacters(lowered, i);
  }

  /** No '[' in `s` starts a match of `\[.*?\]`: stage two has nothing left to delete. */
  ghost predicate NoBracketMatch(s: string) {
    forall i :: 0 <= i < |s| && s[i] == '[' ==> FindClose(s[i + 1..]).None?
  }

  lemma ConsKeepsNoMatch(c: char, r: string)
    requires NoBracketMatch(r)
    requires c == '[' ==> FindClose(r).None?
    ensures NoBracketMatch([c] + r)
  {
    var s := [c] + r;
    forall i | 0 <= i < |s| && s[i] == '[' ensures FindClose(s[i + 1..]).None? {
      if i == 0 {
        assert s[1..] == r;
      } else {
        assert s[i] == r[i - 1] && s[i + 1..] == r[i..];
      }
    }
  }

  /** Text in which no '[' starts a match is left unchanged by stage two. */
  lemma {:induction false} NoMatchUnchanged(s: string)
    requires NoBracketMatch(s)
    ensures StripBrackets(s) == s
    decreases |s|
  {
    if s != [] {
      assert NoBracketMatch(s[1..]) by {
        forall i | 0 <= i < |s[1..]| && s[1..][i] == '[' ensures FindClose(s[1..][i + 1..]).None? {
          assert s[1..][i + 1..] == s[i + 2..];
        }
      }
      NoMatchUnchanged(s[1..]);
    }
  }

  /** If no ']' precedes the first newline of `t`, that stays so after stage two. */
  lemma {:induction false} NoCloseSurvives(t: string)
    requires FindClose(t).None?
    ensures FindClose(StripBrackets(t)).None?
    decreases |t|
  {
    if t != [] && t[0] != '\n' {
      assert FindClose(t[1..]).None?;
      NoCloseSurvives(t[1..]);
      assert StripBrackets(t) == [t[0]] + StripBrackets(t[1..]);
      assert ([t[0]] + StripBrackets(t[1..]))[1..] == StripBrackets(t[1..]);
    }
  }

  /** Every '[' that stage two keeps is one that could not start a match. */
  lemma {:induction false} StripBracketsLeavesNoMatch(s: string)
    ensures NoBracketMatch(StripBrackets(s))
    decreases |s|
  {
    if s != [] {
      if s[0] == '[' {
        match FindClose(s[1..]) {
          case Some(k) =>
            StripBracketsLeavesNoMatch(s[k + 2..]);
          case None =>
            StripBracketsLeavesNoMatch(s[1..]);
            NoCloseSurvives(s[1..]);
            ConsKeepsNoMatch(s[0], StripBrackets(s[1..]));
        }
      } else {
        StripBracketsLeavesNoMatch(s[1..]);
        ConsKeepsNoMatch(s[0], StripBrackets(s[1..]));
      }
    }
  }

  /** Stage two applied twice deletes nothing more than applied once. */
  lemma StripBracketsIdempotent(s: string)
    ensures StripBrackets(StripBrackets(s)) == StripBrackets(s)
  {
    StripBracketsLeavesNoMatch(s);
    NoMatchUnchanged(StripBrackets(s));
  }

  /** `clean_text` applied to its own output changes nothing. */
  lemma CleanTextIdempotent(s: string)
    ensures CleanText(CleanText(s)) == CleanText(s)
  {
    var t := CleanText(s);
    assert Lower(t) == t;
    assert StripBrackets(t) == t;
    assert ReplaceNonWord(t) == t;
  }

  const GenuineStatus := "Genuine"
  const FakeStatus := "Fake"

  /** `"Genuine" if prediction[0] == 1 else "Fake"`. */
  function Status(predicted: int): (status: string)
    ensures status == GenuineStatus || status == FakeStatus
    ensures status == GenuineStatus <==> predicted == 1
  {
    if predicted == 1 then GenuineStatus else FakeStatus
  }

  /** `data.get('text', '')`. */
  function RawText(body: map<string, string>): string {
    if "text" in body then body["text"] else ""
  }

  /**
   * The `/predict` handler: clean the posted text, classify it and name the
   * label. The vectoriser and the model are the opaque `classify`.
   */
  function Predict(body: map<string, string>, classify: string -> int): (status: string)
    ensures status == GenuineStatus || status == FakeStatus
    ensures status == GenuineStatus <==> classify(CleanText(RawText(body))) == 1
  {
    Status(classify(CleanText(RawText(body))))
  }

  /** A body without a `text` field is classified as the empty article. */
  lemma MissingTextIsEmptyArticle(body: map<string, string>, classify: string -> int)
    requires "text" !in body
    ensures Predict(body, classify) == Status(classify(""))
  {
    assert CleanText("") == "";
  }
}
