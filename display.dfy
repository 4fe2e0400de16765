/**
 * The conditions under which the page shows a result, its ingredients and
 * its description (app.py:125, 134-142).  The widgets themselves are not
 * modelled; a `Screen` records what is decided.
 */
module Display {
  import opened Wrappers
  import opened Text
  import opened Json
  import opened Identification

  /** The name the prompt tells the service to use for food it cannot identify (app.py:48). */
  const UnknownFoodItem := "unknown food item"

  /** `s.lower() == "unknown food item"`. */
  predicate IsUnknownFoodItem(s: string) {
    Lower(s) == UnknownFoodItem
  }

  /** `c` is the lower-case ASCII character `t` written in either case (or, for `k`, as KELVIN SIGN). */
  predicate CaseVariant(c: char, t: char) {
    || c == t
    || ('a' <= t <= 'z' && c as int == t as int - 32)
    || (t == 'k' && c == '\U{212A}')
  }

  /** The outcome of the test at app.py:125. */
  datatype Gate =
    | Show   // the result panel is drawn
    | Hide   // nothing is drawn
    | Raise  // the test itself raises AttributeError

  /**
   * `food_info and food_info.get("food_item", "").lower() != "unknown food item"`:
   * `None` and an empty dict are false; `.get` exists only on a dict and
   * `.lower` only on a string.
   */
  function ResultGate(info: Option<Value>): (g: Gate)
    ensures g == Show <==>
      && info.Some? && info.value.JObject? && info.value.fields != []
      && GetOr(info.value.fields, "food_item", JString("")).JString?
      && !IsUnknownFoodItem(GetOr(info.value.fields, "food_item", JString("")).str)
    ensures g == Hide <==>
      || info.None?
      || !Truthy(info.value)
      || (&& info.value.JObject?
          && GetOr(info.value.fields, "food_item", JString("")).JString?
          && IsUnknownFoodItem(GetOr(info.value.fields, "food_item", JString("")).str))
  {
    match info
    case None => Hide
    case Some(v) =>
      if !Truthy(v) then Hide
      else if !v.JObject? then Raise
      else
        match GetOr(v.fields, "food_item", JString(""))
        case JString(s) => if IsUnknownFoodItem(s) then Hide else Show
        case _ => Raise
  }

  /**
   * What `for ingredient in ingredients` walks through (app.py:137): the
   * items of a list, the one-character strings of a string, the keys of a
   * dict; `None` when the value cannot be iterated (TypeError).
   */
  function Iterate(v: Value): (r: Option<seq<Value>>)
    ensures r.None? <==> v.JNull? || v.JBool? || v.JNumber?
    ensures v.JArray? ==> r == Some(v.items)
    ensures v.JString? ==> r == Some(seq(|v.str|, i requires 0 <= i < |v.str| => JString([v.str[i]])))
    ensures v.JObject? ==> r == Some(seq(|v.fields|, i requires 0 <= i < |v.fields| => JString(v.fields[i].key)))
    ensures r.Some? ==> (r.value != [] <==> Truthy(v))
  {
    match v
    case JArray(items) => Some(items)
    case JString(s) => Some(seq(|s|, i requires 0 <= i < |s| => JString([s[i]])))
    case JObject(fields) => Some(seq(|fields|, i requires 0 <= i < |fields| => JString(fields[i].key)))
    case _ => None
  }

  /**
   * The ingredient lines of a shown result (app.py:134-138): nothing unless
   * `food_info.get('ingredients', [])` is true, and then one line per element,
   * in order.  `None` when the loop raises.
   */
  function ListedIngredients(fields: seq<Field>): (r: Option<seq<Value>>)
    ensures var v := GetOr(fields, "ingredients", JArray([]));
      && (r == Some([]) <==> !Truthy(v))
      && (r.None? <==> Truthy(v) && Iterate(v).None?)
      && (Truthy(v) && v.JArray? ==> r == Some(v.items))
      && (Truthy(v) ==> r == Iterate(v))
  {
    var v := GetOr(fields, "ingredients", JArray([]));
    if Truthy(v) then Iterate(v) else Some([])
  }

  /** The description line (app.py:140-142): shown only when `food_info.get('description', '')` is true. */
  function ShownDescription(fields: seq<Field>): (r: Option<Value>)
    ensures var d := GetOr(fields, "description", JString(""));
      && (r.Some? <==> Truthy(d))
      && (r.Some? ==> r.value == d && Field("description", d) in fields)
  {
    var d := GetOr(fields, "description", JString(""));
    if Truthy(d) then Some(d) else None
  }

  /** What the page ends up showing for one result. */
  datatype Screen =
    | Blank                                                    // the gate is false
    | Panel(ingredients: seq<Value>, description: Option<Value>) // the result panel
    | Crash                                                    // the script raised

  /** The page for the value `identify_food_with_gemini` returned. */
  function Render(info: Option<Value>): (s: Screen)
    ensures s.Blank? <==> ResultGate(info) == Hide
    ensures s.Panel? ==> ResultGate(info) == Show
    ensures s.Crash? <==>
      || ResultGate(info) == Raise
      || (ResultGate(info) == Show && ListedIngredients(info.value.fields).None?)
    ensures s.Panel? ==> Some(s.ingredients) == ListedIngredients(info.value.fields)
    ensures s.Panel? ==> s.description == ShownDescription(info.value.fields)
  {
    match ResultGate(info)
    case Hide => Blank
    case Raise => Crash
    case Show =>
      match ListedIngredients(info.value.fields)
      case None => Crash
      case Some(lines) => Panel(lines, ShownDescription(info.value.fields))
  }

  /** `LowerChar` maps exactly the case variants of a lower-case ASCII letter or space onto it. */
  lemma LowerCharOnto(c: char, t: char)
    requires 'a' <= t <= 'z' || t == ' '
    ensures LowerChar(c) == t <==> CaseVariant(c, t)
  {
    if 'A' <= c <= 'Z' {
      assert LowerChar(c) as int == c as int + 32;
    }
  }

  /**
   * The sentinel test is case-insensitive and nothing more: a name is taken
   * for "unknown food item" exactly when it spells it letter by letter in
   * any mixture of cases.
   */
  lemma UnknownFoodItemAnyCase(s: string)
    ensures IsUnknownFoodItem(s) <==>
      |s| == |UnknownFoodItem| && forall i :: 0 <= i < |s| ==> CaseVariant(s[i], UnknownFoodItem[i])
  {
    if |s| == |UnknownFoodItem| {
      forall i | 0 <= i < |s| ensures LowerChar(s[i]) == UnknownFoodItem[i] <==> CaseVariant(s[i], UnknownFoodItem[i]) {
        LowerCharOnto(s[i], UnknownFoodItem[i]);
      }
      assert IsUnknownFoodItem(s) <==> forall i :: 0 <= i < |s| ==> Lower(s)[i] == UnknownFoodItem[i];
    }
  }

  /** A failed identification draws nothing. */
  lemma FailedDrawsNothing()
    ensures Render(Failed.Returned()) == Blank
  {
  }

  /** The gate reads the record's food item. */
  lemma RecordGate(rec: FoodRecord)
    ensures ResultGate(Some(rec.ToDict())) == if IsUnknownFoodItem(rec.foodItem) then Hide else Show
  {
    DictField(rec);
  }

  /** The ingredient lines are the record's ingredients, in order. */
  lemma RecordIngredients(rec: FoodRecord)
    ensures ListedIngredients(rec.ToDict().fields) == Some(IngredientValues(rec.ingredients))
  {
    var fields := rec.ToDict().fields;
    var items := IngredientValues(rec.ingredients);
    assert GetOr(fields, "ingredients", JArray([])) == JArray(items) by {
      DictField(rec);
    }
  }

  /** The description line is the record's description, unless it is empty. */
  lemma RecordDescription(rec: FoodRecord)
    ensures ShownDescription(rec.ToDict().fields) == if rec.description == "" then None else Some(JString(rec.description))
  {
    DictField(rec);
  }

  /**
   * A six-field record dict is drawn unless its food item reads "unknown
   * food item" in some letter case; its ingredients are listed in order, and
   * its description is shown unless it is empty.
   */
  lemma RecordScreen(rec: FoodRecord)
    ensures Render(Some(rec.ToDict())) ==
      if IsUnknownFoodItem(rec.foodItem) then Blank
      else Panel(IngredientValues(rec.ingredients), if rec.description == "" then None else Some(JString(rec.description)))
  {
    RecordGate(rec);
    RecordIngredients(rec);
    RecordDescription(rec);
  }

  /**
   * A degraded reply is drawn unless its text reads "unknown food item" in
   * some letter case; it never lists ingredients, and it shows the text as
   * description unless the text is empty.
   */
  lemma DegradedScreen(text: string)
    ensures Render(Degraded(Fallback(text)).Returned()) ==
      if IsUnknownFoodItem(text) then Blank
      else Panel([], if text == "" then None else Some(JString(text)))
  {
    RecordScreen(Fallback(text));
  }
}
