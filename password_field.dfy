/**
 * The strength meter of `PasswordField`
 * (client/components/molecules/PasswordField.tsx): a score counting five
 * criteria, a label and a text colour chosen by the score, and the colour
 * of the strength bar.
 */
module PasswordField {
  import opened Wrappers

  datatype Strength = Strength(score: nat, labelText: string, color: string)

  const Labels: seq<string> := ["Very Weak", "Weak", "Fair", "Good", "Strong"]
  const Colors: seq<string> := ["text-red-500", "text-orange-500", "text-yellow-500", "text-blue-500", "text-green-500"]
  const MinLength := 8

  predicate HasLower(p: string) { exists k :: 0 <= k < |p| && 'a' <= p[k] <= 'z' }
  predicate HasUpper(p: string) { exists k :: 0 <= k < |p| && 'A' <= p[k] <= 'Z' }
  predicate HasDigit(p: string) { exists k :: 0 <= k < |p| && '0' <= p[k] <= '9' }
  predicate IsAlphanumeric(c: char) { 'a' <= c <= 'z' || 'A' <= c <= 'Z' || '0' <= c <= '9' }
  predicate HasOther(p: string) { exists k :: 0 <= k < |p| && !IsAlphanumeric(p[k]) }

  /** The five criteria, in the order the score tests them. */
  function Criteria(p: string): seq<bool> {
    [|p| >= MinLength, HasLower(p), HasUpper(p), HasDigit(p), HasOther(p)]
  }

  function CountTrue(bs: seq<bool>): (r: nat)
    ensures r <= |bs|
  {
    if bs == [] then 0 else (if bs[0] then 1 else 0) + CountTrue(bs[1..])
  }

  /** The score: how many criteria `p` meets. */
  function Score(p: string): nat {
    CountTrue(Criteria(p))
  }

  /** `labels[score] || 'Very Weak'` */
  function LabelAt(score: nat): string {
    if score < |Labels| then Labels[score] else "Very Weak"
  }

  /** `colors[score] || 'text-red-500'` */
  function ColorAt(score: nat): string {
    if score < |Colors| then Colors[score] else "text-red-500"
  }

  /** `getPasswordStrength(password)`: the score is accumulated one criterion at a time. */
  method GetPasswordStrength(password: string) returns (s: Strength)
    ensures s.score == Score(password) && s.score <= 5
    ensures s.labelText == LabelAt(s.score) && s.color == ColorAt(s.score)
  {
    var score := 0;
    if |password| >= MinLength { score := score + 1; }
    if HasLower(password) { score := score + 1; }
    if HasUpper(password) { score := score + 1; }
    if HasDigit(password) { score := score + 1; }
    if HasOther(password) { score := score + 1; }
    ScoreUnfolds(password);
    s := Strength(score, LabelAt(score), ColorAt(score));
  }

  /** The score is the sum of the five criteria, each counting one. */
  lemma ScoreUnfolds(p: string)
    ensures Score(p) ==
      (if |p| >= MinLength then 1 else 0) + (if HasLower(p) then 1 else 0) + (if HasUpper(p) then 1 else 0)
      + (if HasDigit(p) then 1 else 0) + (if HasOther(p) then 1 else 0)
  {
    var c := Criteria(p);
    assert CountTrue(c[4..]) == (if c[4] then 1 else 0) by { assert c[4..][1..] == []; }
    assert CountTrue(c[3..]) == (if c[3] then 1 else 0) + CountTrue(c[4..]) by { assert c[3..][1..] == c[4..]; }
    assert CountTrue(c[2..]) == (if c[2] then 1 else 0) + CountTrue(c[3..]) by { assert c[2..][1..] == c[3..]; }
    assert CountTrue(c[1..]) == (if c[1] then 1 else 0) + CountTrue(c[2..]) by { assert c[1..][1..] == c[2..]; }
  }

  /** Lines 85-90: the colour of the strength bar. */
  function BarColor(score: nat): (r: string)
    ensures score <= 1 ==> r == "bg-red-500"
    ensures score == 2 ==> r == "bg-orange-500"
    ensures score == 3 ==> r == "bg-yellow-500"
    ensures score == 4 ==> r == "bg-blue-500"
    ensures score >= 5 ==> r == "bg-green-500"
  {
    if score <= 1 then "bg-red-500"
    else if score <= 2 then "bg-orange-500"
    else if score <= 3 then "bg-yellow-500"
    else if score <= 4 then "bg-blue-500"
    else "bg-green-500"
  }

  /** Line 48: strength is computed and shown only for `showStrength` and a non-empty value. */
  function StrengthShown(showStrength: bool, value: string): (r: Option<nat>)
    ensures r.Some? <==> showStrength && value != ""
    ensures r.Some? ==> r.value == Score(value)
  {
    if showStrength && value != "" then Some(Score(value)) else None
  }

  /** A criterion met by `p` is met by every extension of it. */
  lemma {:induction false} CriteriaMonotone(p: string, q: string)
    ensures |p + q| >= MinLength || |p| < MinLength
    ensures HasLower(p) ==> HasLower(p + q)
    ensures HasUpper(p) ==> HasUpper(p + q)
    ensures HasDigit(p) ==> HasDigit(p + q)
    ensures HasOther(p) ==> HasOther(p + q)
  {
    forall k | 0 <= k < |p| ensures (p + q)[k] == p[k] { }
  }

  /** Appending characters never lowers the score. */
  lemma {:induction false} ScoreMonotone(p: string, q: string)
    ensures Score(p) <= Score(p + q)
  {
    CriteriaMonotone(p, q);
    ScoreUnfolds(p);
    ScoreUnfolds(p + q);
  }

  /** Each score below 5 gets the label and colour at its own index. */
  lemma LabelsByScore(score: nat)
    requires score < 5
    ensures LabelAt(score) == Labels[score] && ColorAt(score) == Colors[score]
    ensures LabelAt(0) == "Very Weak" && LabelAt(4) == "Strong"
  {
  }

  /**
   * A password meeting all five criteria scores 5, falls off the end of
   * both arrays and is labelled 'Very Weak' in red, while its bar is green.
   */
  lemma {:induction false} FullScoreLabelledVeryWeak(p: string)
    requires |p| >= MinLength && HasLower(p) && HasUpper(p) && HasDigit(p) && HasOther(p)
    ensures Score(p) == 5
    ensures LabelAt(Score(p)) == "Very Weak" && ColorAt(Score(p)) == "text-red-500"
    ensures BarColor(Score(p)) == "bg-green-500"
  {
    ScoreUnfolds(p);
  }

  /** A concrete such password. */
  lemma StrongExample()
    ensures Score("Abcdefg1!") == 5 && LabelAt(Score("Abcdefg1!")) == "Very Weak"
  {
    var p := "Abcdefg1!";
    assert 'a' <= p[1] <= 'z' && 'A' <= p[0] <= 'Z' && '0' <= p[7] <= '9' && !IsAlphanumeric(p[8]);
    FullScoreLabelledVeryWeak(p);
  }
}
