/**
 * Whole calls followed through the adapter and the page: a JSON answer
 * wrapped in prose, a reply without JSON, the "could not identify" answer
 * the prompt asks for (app.py:46-54), and an empty object.
 */
module Scenarios {
  import opened Wrappers
  import opened Text
  import opened Json
  import opened Extraction
  import opened Identification
  import opened Display

  /**
   * An answer of the prompt's shape wrapped in prose ("Sure! Here you go:
   * {...} Hope that helps!") is cut out, returned as the parser produced it,
   * and drawn with its ingredients in order and its description.
   */
  lemma WrappedAnswerShown(pre: string, candidate: string, post: string, parse: string -> ParseOutcome, rec: FoodRecord)
    requires '{' !in pre && '}' !in post
    requires 2 <= |candidate| && candidate[0] == '{' && candidate[|candidate| - 1] == '}'
    requires NoOuterSpace(pre + candidate + post)
    requires parse(candidate) == Parsed(rec.ToDict())
    requires !IsUnknownFoodItem(rec.foodItem) && rec.description != ""
    ensures Identify(Ok(pre + candidate + post), parse) == Resolved(rec.ToDict())
    ensures Render(Identify(Ok(pre + candidate + post), parse).Returned())
            == Panel(IngredientValues(rec.ingredients), Some(JString(rec.description)))
  {
    WrappedCandidateDecides(pre, candidate, post, parse);
    RecordScreen(rec);
  }

  /**
   * A reply with no JSON in it ("I cannot tell what this is.") is drawn
   * with its stripped text as food item and description and no ingredients,
   * unless that text is empty (no description) or reads "unknown food item"
   * (nothing drawn).
   */
  lemma PlainReplyShown(raw: string, parse: string -> ParseOutcome)
    requires '{' !in raw
    ensures Render(Identify(Ok(raw), parse).Returned()) ==
      if IsUnknownFoodItem(Strip(raw)) then Blank
      else Panel([], if Strip(raw) == "" then None else Some(JString(Strip(raw))))
  {
    BracelessReplyDegrades(raw, parse);
    DegradedScreen(Strip(raw));
  }

  /**
   * The "could not identify" answer, wherever it sits in the reply, is a
   * successful identification that keeps the sentinel values, and the page
   * draws nothing for it.
   */
  lemma UnidentifiedAnswerHidden(raw: string, parse: string -> ParseOutcome, rec: FoodRecord)
    requires ExtractSpan(Strip(raw)).Some?
    requires parse(ExtractSpan(Strip(raw)).value) == Parsed(rec.ToDict())
    requires IsUnknownFoodItem(rec.foodItem)
    ensures Identify(Ok(raw), parse) == Resolved(rec.ToDict())
    ensures Render(Identify(Ok(raw), parse).Returned()) == Blank
  {
    RecordScreen(rec);
  }

  /** An empty object parses and is returned, but it is false in Python, so the page draws nothing. */
  lemma EmptyAnswerHidden(raw: string, parse: string -> ParseOutcome)
    requires ExtractSpan(Strip(raw)).Some?
    requires parse(ExtractSpan(Strip(raw)).value) == Parsed(JObject([]))
    ensures Identify(Ok(raw), parse) == Resolved(JObject([]))
    ensures Render(Identify(Ok(raw), parse).Returned()) == Blank
  {
  }
}
