/**
 * The food identification adapter `identify_food_with_gemini` (app.py:58-102)
 * from the moment the vision service has replied: strip the reply text, cut
 * out the JSON candidate, parse it, and return the parsed dict, the fallback
 * dict built from the text, or `None`.
 */
module Identification {
  import opened Wrappers
  import opened Text
  import opened Json
  import opened Extraction

  /**
   * What the steps before the parse produce.  `Err` stands for an exception
   * from any of them: the JPEG re-encoding of the image (app.py:61-63), the
   * `generate_content` call (app.py:69) or reading `response.text`
   * (app.py:72).  `Ok` carries the reply text as the service sent it.
   */
  datatype Reply = Ok(text: string) | Err

  /**
   * What `json.loads` does with a candidate: return a value, raise
   * `json.JSONDecodeError`, or raise some other exception (a `RecursionError`
   * on very deeply nested input), which the inner handler does not catch.
   */
  datatype ParseOutcome = Parsed(value: Value) | DecodeError | Raised

  /** A list of strings as the JSON array of those strings, in the same order. */
  function IngredientValues(names: seq<string>): (vs: seq<Value>)
    ensures |vs| == |names| && forall i :: 0 <= i < |names| ==> vs[i] == JString(names[i])
  {
    seq(|names|, i requires 0 <= i < |names| => JString(names[i]))
  }

  /** The six keys of the record dict, in the order the source writes them. */
  const RecordKeys := ["food_item", "state", "approximate_amount", "ingredients", "description", "preparation_method"]

  /** The six-field record the prompt asks for (app.py:37-44). */
  datatype FoodRecord = FoodRecord(
    foodItem: string,
    state: string,
    approximateAmount: string,
    ingredients: seq<string>,
    description: string,
    preparationMethod: string)
  {
    /** The record as the dict literal the adapter returns, keys in the source's order. */
    function ToDict(): (d: Value)
      ensures d.JObject? && |d.fields| == |RecordKeys|
      ensures forall k :: 0 <= k < |RecordKeys| ==> d.fields[k].key == RecordKeys[k]
      ensures && d.fields[0].value == JString(foodItem)
              && d.fields[1].value == JString(state)
              && d.fields[2].value == JString(approximateAmount)
              && d.fields[3].value == JArray(IngredientValues(ingredients))
              && d.fields[4].value == JString(description)
              && d.fields[5].value == JString(preparationMethod)
    {
      JObject([
        Field("food_item", JString(foodItem)),
        Field("state", JString(state)),
        Field("approximate_amount", JString(approximateAmount)),
        Field("ingredients", JArray(IngredientValues(ingredients))),
        Field("description", JString(description)),
        Field("preparation_method", JString(preparationMethod))
      ])
    }
  }

  /** Each of the six keys is the first field of its name in the dict, so `get` finds the k-th field's value. */
  lemma DictFieldAt(rec: FoodRecord, k: nat)
    requires k < |RecordKeys|
    ensures Get(rec.ToDict().fields, RecordKeys[k]) == Some(rec.ToDict().fields[k].value)
  {
    var fields := rec.ToDict().fields;
    assert forall j :: 0 <= j < k ==> fields[j].key != fields[k].key;
    GetFirst(fields, RecordKeys[k], k);
  }

  /** `get` on the record dict gives back each of the record's six values. */
  lemma DictField(rec: FoodRecord)
    ensures Get(rec.ToDict().fields, "food_item") == Some(JString(rec.foodItem))
    ensures Get(rec.ToDict().fields, "state") == Some(JString(rec.state))
    ensures Get(rec.ToDict().fields, "approximate_amount") == Some(JString(rec.approximateAmount))
    ensures Get(rec.ToDict().fields, "ingredients") == Some(JArray(IngredientValues(rec.ingredients)))
    ensures Get(rec.ToDict().fields, "description") == Some(JString(rec.description))
    ensures Get(rec.ToDict().fields, "preparation_method") == Some(JString(rec.preparationMethod))
  {
    DictFieldAt(rec, 0);
    DictFieldAt(rec, 1);
    DictFieldAt(rec, 2);
    DictFieldAt(rec, 3);
    DictFieldAt(rec, 4);
    DictFieldAt(rec, 5);
  }

  /** How one call ends (the three terminal states of the adapter). */
  datatype Outcome =
    | Resolved(obj: Value)      // the candidate parsed; its value is returned as is
    | Degraded(rec: FoodRecord) // no candidate, or it did not parse
    | Failed                    // an exception reached the outer handler
  {
    /** What `identify_food_with_gemini` returns to its caller: a dict, or `None`. */
    function Returned(): (r: Option<Value>)
      ensures r.None? <==> Failed?
      ensures Resolved? ==> r == Some(obj)
      ensures Degraded? ==> r == Some(rec.ToDict())
    {
      match this
      case Resolved(v) => Some(v)
      case Degraded(rec) => Some(rec.ToDict())
      case Failed => None
    }
  }

  const Unknown := "unknown"

  /** The dict both degraded paths return for the stripped reply `text` (app.py:82-89, 92-99). */
  function Fallback(text: string): (rec: FoodRecord)
    ensures rec.foodItem == rec.description == text
    ensures rec.state == rec.approximateAmount == rec.preparationMethod == "unknown"
    ensures rec.ingredients == []
  {
    FoodRecord(text, Unknown, Unknown, [], text, Unknown)
  }

  /**
   * One call of the adapter after the service replied, with `parse` standing
   * for `json.loads`.
   */
  function Identify(reply: Reply, parse: string -> ParseOutcome): (r: Outcome)
    // `None` comes only from an exception outside the parse, or one the parser
    // raised that is not a decode error.
    ensures r.Failed? <==>
      || reply.Err?
      || (ExtractSpan(Strip(reply.text)).Some? && parse(ExtractSpan(Strip(reply.text)).value).Raised?)
    // A parsed candidate is returned exactly as the parser produced it.
    ensures r.Resolved? ==>
      && reply.Ok?
      && ExtractSpan(Strip(reply.text)).Some?
      && parse(ExtractSpan(Strip(reply.text)).value) == Parsed(r.obj)
    // The fallback is used when there is no candidate or it fails to decode.
    ensures r.Degraded? <==>
      && reply.Ok?
      && (|| ExtractSpan(Strip(reply.text)).None?
          || parse(ExtractSpan(Strip(reply.text)).value).DecodeError?)
    // ... and it carries the stripped text twice and the "unknown"/empty defaults.
    ensures r.Degraded? ==>
      && r.rec.foodItem == r.rec.description == Strip(reply.text)
      && r.rec.state == r.rec.approximateAmount == r.rec.preparationMethod == "unknown"
      && r.rec.ingredients == []
      && NoOuterSpace(r.rec.foodItem)
  {
    match reply
    case Err => Failed
    case Ok(raw) =>
      var text := Strip(raw);
      match ExtractSpan(text)
      case None => Degraded(Fallback(text))
      case Some(candidate) =>
        match parse(candidate)
        case Parsed(v) => Resolved(v)
        case DecodeError => Degraded(Fallback(text))
        case Raised => Failed
  }

  /**
   * `json.loads` on a text whose first character is `{` either fails or
   * returns a dict: the first character decides the kind of value.
   */
  ghost predicate BraceGivesObject(parse: string -> ParseOutcome) {
    forall s :: 0 < |s| && s[0] == '{' && parse(s).Parsed? ==> parse(s).value.JObject?
  }

  /** Since the candidate starts with `{`, whatever the adapter resolves to is a dict. */
  lemma ResolvedIsDict(reply: Reply, parse: string -> ParseOutcome)
    requires BraceGivesObject(parse)
    ensures Identify(reply, parse).Resolved? ==> Identify(reply, parse).obj.JObject?
  {
    if Identify(reply, parse).Resolved? {
      var candidate := ExtractSpan(Strip(reply.text)).value;
      assert candidate[0] == '{';
    }
  }

  /**
   * The parser is consulted on the candidate only: two parsers that agree
   * there, or any two parsers when there is no candidate, give the same outcome.
   */
  lemma ParserSeesOnlyCandidate(raw: string, p1: string -> ParseOutcome, p2: string -> ParseOutcome)
    requires ExtractSpan(Strip(raw)).Some? ==> p1(ExtractSpan(Strip(raw)).value) == p2(ExtractSpan(Strip(raw)).value)
    ensures Identify(Ok(raw), p1) == Identify(Ok(raw), p2)
  {
  }

  /** Whitespace around the reply makes no difference: only the stripped text is looked at. */
  lemma SurroundingSpaceIgnored(w1: string, raw: string, w2: string, parse: string -> ParseOutcome)
    requires AllSpace(w1) && AllSpace(w2)
    ensures Identify(Ok(w1 + raw + w2), parse) == Identify(Ok(raw), parse)
  {
    StripIgnoresPadding(w1, raw, w2);
  }

  /** A reply with no `{` at all degrades to the fallback dict, whatever the parser would say. */
  lemma BracelessReplyDegrades(raw: string, parse: string -> ParseOutcome)
    requires '{' !in raw
    ensures Identify(Ok(raw), parse) == Degraded(Fallback(Strip(raw)))
  {
    var text := Strip(raw);
    var a, b :| StripBounds(raw, a, b) && text == raw[a..b];
    forall k | 0 <= k < |text| ensures text[k] != '{' { assert text[k] == raw[a + k]; }
    ExtractSpanIsSearch(text);
  }

  /**
   * A `{`...`}` candidate between prose with no `{` before it and no `}`
   * after it is handed to the parser, and its parse decides the outcome.
   */
  lemma WrappedCandidateDecides(pre: string, candidate: string, post: string, parse: string -> ParseOutcome)
    requires '{' !in pre && '}' !in post
    requires 2 <= |candidate| && candidate[0] == '{' && candidate[|candidate| - 1] == '}'
    requires NoOuterSpace(pre + candidate + post)
    ensures Identify(Ok(pre + candidate + post), parse) ==
      match parse(candidate)
      case Parsed(v) => Resolved(v)
      case DecodeError => Degraded(Fallback(pre + candidate + post))
      case Raised => Failed
  {
    StripKeeps(pre + candidate + post);
    SpanOfWrapped(pre, candidate, post);
  }
}
