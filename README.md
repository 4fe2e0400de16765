# Food-Detection: the reply parser and the result display, in Dafny

The application sends an uploaded food photo to a vision model together with a
fixed prompt. The prompt asks for a six-field JSON answer: `food_item`, `state`,
`approximate_amount`, `ingredients`, `description` and `preparation_method`.
This project models what `identify_food_with_gemini` does after the service
replies (app.py:72-102):

- it strips the reply text;
- it cuts out the JSON candidate with the greedy regex `({[\s\S]*})`;
- it hands the candidate to `json.loads`;
- it returns one of three things: the parsed value unchanged, a fixed fallback
  dict built from the stripped text, or `None`.

It also models the tests that decide what the page shows for that value
(app.py:125, 134-142).

The code is pure, so the model is pure as well: datatypes, functions and
lemmas, one module per concern.

- `Text` (text.dfy): Python's `str.strip()` and `str.lower()`. Stripping is
  specified by `IsStripOf`, an independent description of "what is left once
  the whitespace at both ends is cut off". `Strip` is proved to meet it, and
  `StripUnique` shows that it is the only such text.
- `Json` (json.dfy): the values `json.loads` returns, `dict.get`, and Python
  truthiness.
- `Extraction` (extraction.dfy): the candidate span, defined through the first
  `{` and the last `}`. `ExtractSpanIsSearch` proves that it is exactly the
  match `re.search` reports: the leftmost start, and for that start the
  longest end.
- `Identification` (identification.dfy): the adapter. The reply is a value
  `Ok(text) | Err`. `json.loads` is a function parameter
  `parse: string -> ParseOutcome`. The result is
  `Resolved(obj) | Degraded(rec) | Failed`.
- `Display` (display.dfy): the gate at app.py:125, the ingredient loop and the
  description test.
- `Scenarios` (scenarios.dfy): whole calls followed from the reply to the page.

## Model

| member | source | states |
|---|---|---|
| `Text.Lower` | app.py:125 | `str.lower()` for the comparison with the sentinel: the length is kept, every ASCII capital becomes its lower-case letter, no ASCII capital is left, and every other character except KELVIN SIGN is kept |
| `Text.Strip` | app.py:72 | the result meets `IsStripOf`: it is a contiguous piece of the reply, everything cut away at either end is whitespace (Python's `str.isspace` set), and it neither starts nor ends with whitespace |
| `Text.StripUnique` | app.py:72 | at most one text meets `IsStripOf`, so `Strip` is fully determined by it |
| `Text.StripKeeps` | app.py:72 | stripping leaves a text unchanged exactly when it has no whitespace at either end |
| `Text.StripIdempotent` | app.py:72 | stripping an already stripped text changes nothing |
| `Text.StripIgnoresPadding` | app.py:72 | whitespace added around a reply does not change what is stripped from it |
| `Extraction.FirstIndex` | app.py:77 | the index of the first `{`: it holds the character, no earlier index does, and there is none exactly when the character does not occur |
| `Extraction.LastIndex` | app.py:77 | the index of the last `}`: it holds the character, no later index does, and there is none exactly when the character does not occur |
| `Extraction.ExtractSpan` | app.py:77-79 | a candidate is at least two characters long, begins with `{`, ends with `}` and is a contiguous substring of the stripped text |
| `Extraction.ExtractSpanIsSearch` | app.py:77-79 | a candidate exists if and only if some `{` stands before some `}`; when it exists it is exactly the leftmost-longest match that `re.search` reports for `({[\s\S]*})` |
| `Extraction.SpanOfWrapped` | app.py:77-79 | for prose with no `{` before a `{`...`}` text and no `}` after it, the candidate is that text, whatever braces it contains |
| `Json.Get` | app.py:125 | `dict.get(key)`: no value exactly when no field has that key, and otherwise the value of the first field with that key |
| `Json.GetOr` | app.py:134-140 | `dict.get(key, default)`: the default when no field has that key, and otherwise a value stored under that key |
| `Json.Truthy` | app.py:125 | Python's `bool()`: a value is false exactly when it is one of `None`, `False`, zero, `""`, `[]` and `{}` |
| `Identification.FoodRecord.ToDict` | app.py:82-89 | the record dict has exactly the six keys, in the order the source writes them, each holding the record's value; the ingredients are a list of strings in order |
| `Identification.DictField` | app.py:82-89 | `get` on the record dict gives back each of the record's six values under its key |
| `Identification.Fallback` | app.py:82-89 | the fallback record carries the text as `food_item` and `description`, `"unknown"` as `state`, `approximate_amount` and `preparation_method`, and no ingredients |
| `Identification.Outcome.Returned` | app.py:80-102 | the adapter returns `None` exactly on the failure path; a resolved value is returned as it is, and a degraded one as the dict of its record |
| `Identification.Identify` | app.py:72-102 | `None` happens exactly when an exception is raised outside the parse, or the parser raises something other than a decode error. A successful parse is returned as the parser produced it, with nothing added, defaulted, coerced or removed. The fallback is used exactly when there is no candidate or the candidate fails to decode. The fallback carries the stripped text as both `food_item` and `description`, `"unknown"` in the other three string fields and an empty ingredient list, and its text has no surrounding whitespace |
| `Identification.ResolvedIsDict` | app.py:77-80 | assume `json.loads` gives a dict or fails for input that starts with `{`. Then every resolved value is a dict, because the candidate starts with `{` |
| `Identification.ParserSeesOnlyCandidate` | app.py:77-89 | the parser is used on the candidate only; with no candidate the outcome is the same whatever the parser |
| `Identification.SurroundingSpaceIgnored` | app.py:72 | whitespace around a reply does not change the outcome |
| `Identification.BracelessReplyDegrades` | app.py:77-89 | a reply with no `{` gives the fallback dict of its stripped text, whatever the parser |
| `Identification.WrappedCandidateDecides` | app.py:77-99 | a JSON text wrapped in prose is given to the parser; a parsed value is returned, a decode error gives the fallback, and any other exception gives `None` |
| `Display.ResultGate` | app.py:125 | the result panel is drawn exactly when the value is a non-empty dict whose `food_item` is a string (an empty string when absent) that does not lower-case to `"unknown food item"`. Nothing is drawn for `None`, a false value or that sentinel. Every other case raises |
| `Display.UnknownFoodItemAnyCase` | app.py:125 | a name counts as the sentinel exactly when it spells `unknown food item` letter by letter in any mixture of cases |
| `Display.Iterate` | app.py:137-138 | a list is walked item by item in order, a string one character at a time, and a dict by its keys in order; `None`, booleans and numbers cannot be iterated; the walk is empty exactly when the value is false |
| `Display.ListedIngredients` | app.py:134-138 | nothing is listed exactly when `ingredients` (default `[]`) is false; a true value is listed as it is walked, so a list item by item and a string one character per line; a true value that cannot be iterated raises |
| `Display.ShownDescription` | app.py:140-142 | the description is shown exactly when `description` (default `""`) is true, and then it is the dict's own value |
| `Display.Render` | app.py:125-142 | nothing is drawn exactly when the gate is false; the script raises exactly when the gate raises or a shown result has ingredients that cannot be iterated; otherwise the panel holds the listed ingredients and the shown description |
| `Display.FailedDrawsNothing` | app.py:125 | the `None` returned after a failure (app.py:100-102) draws nothing |
| `Display.RecordScreen` | app.py:125-142 | a six-field record dict is drawn unless its food item is the sentinel in some case; its ingredients are listed in order, and its description is shown unless it is empty |
| `Display.DegradedScreen` | app.py:125-142 | a degraded reply (the fallback dict of app.py:82-99) is drawn unless its text is the sentinel in some case; it never lists ingredients, and it shows the text as description unless the text is empty |
| `Scenarios.WrappedAnswerShown` | app.py:72-142 | an answer wrapped in prose is cut out, returned unchanged, and drawn with its ingredients in order and its description |
| `Scenarios.PlainReplyShown` | app.py:72-142 | a reply with no JSON is drawn with its stripped text and no ingredients. It is hidden when that text is the sentinel in some case, and it shows no description when the text is empty |
| `Scenarios.UnidentifiedAnswerHidden` | app.py:125 | the "could not identify" answer asked for by the prompt (app.py:46-54) is a successful result that keeps its values, and nothing is drawn for it |
| `Scenarios.EmptyAnswerHidden` | app.py:125 | an empty JSON object is returned as a success, but it is false in Python, so nothing is drawn |

## Notes on the code's behaviour

- A parsed value is returned exactly as `json.loads` produced it
  (app.py:79-80). No field gets a default, nothing is coerced to a string or a
  list, missing fields stay missing, and extra keys are kept.
- The fallback dict holds the stripped reply text, not the raw one
  (app.py:72, 83, 87).
- Every exception other than a decode error ends in `st.error` and a returned
  `None` (app.py:100-102). This covers the JPEG encoding, the service call,
  reading the reply, and any exception `json.loads` raises other than
  `JSONDecodeError`, such as `RecursionError` on very deep nesting.

## Left out

- Streamlit calls (page setup, tabs, columns, image, spinner, `st.write`,
  `st.error`, `st.stop`) are presentation only. `Screen` records only what the
  gates decide.
- The text written for food item, state, amount and preparation method
  (app.py:128-132, with default `'Unknown'`) is left out. It is formatting and
  does not decide what is shown.
- `Display.Render`: when the ingredient loop raises, the lines already written
  on the page are not modelled. The result is just `Crash`.
- Gemini configuration and the `generate_content` call are an external service.
  Its reply is the `Reply` value, and any exception is `Err`.
- PIL's JPEG re-encoding into `io.BytesIO` (app.py:61-63) is a foreign library.
  Its failure is part of `Err`.
- `json.loads` is a library parser. It is the `parse` parameter, and its grammar
  is not modelled. `Identification.ResolvedIsDict` states as an explicit
  hypothesis the one fact about it that the code relies on.
- A JSON object is a sequence of fields, which can repeat a key where a
  Python dict cannot. For a repeated key, `json.loads` keeps the last value
  while `Json.Get` returns the first. Which value a repeated key takes is left
  to the `parse` parameter, which should produce distinct keys.
- JSON strings with lone surrogates (`"\ud800"`, which `json.loads` accepts)
  cannot be written as Dafny characters and are not modelled.
- JSON numbers are exact reals. `NaN` and `Infinity`, which `json.loads`
  accepts, are not modelled.
- `Text.Lower`: only the characters that can lower-case to a lower-case ASCII
  letter are modelled: `A`-`Z`, and KELVIN SIGN, which becomes `k`. Every other
  character is kept as it is. This is exact for the one comparison the code
  makes, against `"unknown food item"`. `İ` lower-cases to `i` followed by
  U+0307, and U+0307 never occurs in that text, so keeping `İ` as it is gives
  the same comparison.
- The wording of the prompt (app.py:35-55) is only a constant sent to the
  service. Its two JSON shapes appear as `FoodRecord` and in
  `Scenarios.UnidentifiedAnswerHidden`.
- Loading `.env` and the startup check for the API key (app.py:14, 24-29) are
  process setup. The unused imports are also left out.
