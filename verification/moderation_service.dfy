/** The outbound-message blocklist check
    (backend/dist/services/moderationService.js). */
module ModerationService {
  import opened Wrappers
  import opened Strings

  const Blocklist: seq<string> := ["badword1", "badword2"]
  const ProfanityReason := "profanity"

  /** `{flagged, reason?}` */
  datatype Verdict = Verdict(flagged: bool, reason: Option<string>)

  /** The first word of `words`, in list order, that `lower` contains. */
  function FirstBlocked(lower: string, words: seq<string>): (r: Option<string>)
    ensures r.Some? ==> r.value in words && Contains(lower, r.value)
    ensures r.None? <==> forall w :: w in words ==> !Contains(lower, w)
  {
    if |words| == 0 then None
    else if Contains(lower, words[0]) then Some(words[0])
    else
      assert words == [words[0]] + words[1..];
      FirstBlocked(lower, words[1..])
  }

  /** A text is blocked when its lower-cased form contains a blocked word. */
  predicate Blocked(text: string) {
    exists w :: w in Blocklist && Contains(ToLower(text), w)
  }

  /** `moderateText(text)`: `null`/`undefined` is read as the empty text; the
      verdict is flagged exactly when the lower-cased text contains
      `badword1` or `badword2`, and a flagged verdict, and only a flagged one,
      carries the reason `profanity`. */
  function ModerateText(text: Option<string>): (r: Verdict)
    ensures r.flagged <==> Blocked(text.GetOr(""))
    ensures r.flagged <==> (Contains(ToLower(text.GetOr("")), "badword1")
                            || Contains(ToLower(text.GetOr("")), "badword2"))
    ensures r.flagged ==> r.reason == Some(ProfanityReason)
    ensures !r.flagged ==> r.reason == None
  {
    var lower := ToLower(text.GetOr(""));
    match FirstBlocked(lower, Blocklist)
    case Some(_) => Verdict(true, Some(ProfanityReason))
    case None => Verdict(false, None)
  }

  /** A missing text is never flagged. */
  lemma MissingTextNotFlagged()
    ensures ModerateText(None) == Verdict(false, None)
  {
    assert !Contains(ToLower(""), "badword1");
    assert !Contains(ToLower(""), "badword2");
  }

  /** The verdict depends only on the lower-cased text. */
  lemma ModerationCaseInsensitive(a: string, b: string)
    requires ToLower(a) == ToLower(b)
    ensures ModerateText(Some(a)) == ModerateText(Some(b))
  {
  }

  /** Adding text around a flagged text keeps it flagged. */
  lemma {:induction false} ModerationMonotone(a: string, t: string, b: string)
    requires ModerateText(Some(t)).flagged
    ensures ModerateText(Some(a + t + b)).flagged
  {
    var w :| w in Blocklist && Contains(ToLower(t), w);
    ToLowerConcat(a + t, b);
    ToLowerConcat(a, t);
    ContainsInfix(ToLower(a), ToLower(t), ToLower(b), w);
    assert ToLower(a + t + b) == ToLower(a) + ToLower(t) + ToLower(b);
    assert Blocked(a + t + b);
  }
}
