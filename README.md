# Record-shaping utilities, modelled in Dafny

This project models `examples/utilities.py`, the small toolkit that prepares
records before they go to a GraphQL API. Its six operations are:

- `normalize_value_inputs`: turns loose per-scenario records into
  `{scenario, series, constant}` value-input dicts, with numbers cast to float
  and None fields dropped.
- `prune_nones`: recursively drops dict entries whose value is None.
- `pick_keys`: projects a dict onto a list of allowed keys.
- `_to_float`: numeric coercion that accepts a decimal comma.
- `normalize_point` and its inner `get`: turn a dict with x/y keys in either
  case, a pair, or an object with `.x`/`.y` into `{"x": float, "y": float}`.
- `normalize_points`: maps `normalize_point` over a collection.

Python values are the datatype `PyValue.Value`. It has None, booleans, ints,
floats (as reals), strings, lists, tuples, dicts and attribute objects. A
dict is the sequence of its pairs in insertion order. Exceptions are
`PyValue.Result` values carrying TypeError, ValueError, KeyError or
AttributeError.

The modules follow the source:

- `PyValue`: the value tree, dict lookup and assignment, iteration and
  truthiness.
- `Builtins`: the string methods and the `float` built-in the utilities call.
- `Coerce`: `_to_float`.
- `Records`: `prune_nones` and `pick_keys`.
- `Points`: `normalize_point` and `normalize_points`.
- `ValueInputs`: `normalize_value_inputs`. Its loop is an imperative method
  proved against a specification function.

Three behaviours differ from what one might expect of such a toolkit, and
the model follows the code in each:

- A dict without an `x` (or `y`) key in either case raises KeyError, and a
  bad coordinate raises TypeError or ValueError. No single format error is
  raised.
- `prune_nones` keeps a None that is an element of a list, and it does not
  look inside tuples.
- `normalize_points` builds its whole list eagerly. The first point that fails
  ends the call.

## Model

| member | source | states |
|---|---|---|
| PyValue.Find | examples/utilities.py:47-48 | `d.get(k)`: nothing exactly when `k` is not a key of the dict, and otherwise a value paired with `k` in the dict |
| PyValue.FindUnique | examples/utilities.py:47-48 | in a dict with distinct keys, every pair is found by its own key |
| PyValue.FindSetItem | examples/utilities.py:26 | after `d[k] = v`, `k` maps to `v` and every other key maps to what it mapped to before |
| PyValue.SetItemUnique | examples/utilities.py:26 | `d[k] = v` keeps the dict's keys distinct |
| PyValue.SetItem | examples/utilities.py:26 | assigning an existing key leaves the key order unchanged, and assigning a new key appends it at the end |
| PyValue.Iterate | examples/utilities.py:6 | iteration fails with TypeError exactly for values that are not a list, tuple, dict or string; a list or tuple yields its elements, a dict its keys in order, and a string its characters as one-character strings |
| PyValue.FalsyValues | examples/utilities.py:6 | `arr or []` falls back to `[]` exactly for None, False, integer or float zero and the empty string, list, tuple or dict |
| PyValue.MapAll | examples/utilities.py:73 | a comprehension succeeds exactly when every element succeeds, element i of the result comes from input i, and a failure is the error of the first failing element |
| Builtins.LStrip | examples/utilities.py:32 | `lstrip` returns a suffix that does not start with whitespace, and everything it removed is whitespace |
| Builtins.RStrip | examples/utilities.py:32 | `rstrip` returns a prefix that does not end with whitespace, and everything it removed is whitespace |
| Builtins.AsciiSpace | examples/utilities.py:32 | the ASCII whitespace `strip` removes is exactly tab, line feed, vertical tab, form feed, carriage return, the separators 28 to 31 and space; the comma and the dot are not whitespace |
| Builtins.Strip | examples/utilities.py:32 | `strip` returns a slice of the text, only whitespace lies outside that slice, and the slice neither starts nor ends with whitespace |
| Builtins.StripIdempotent | examples/utilities.py:32 | stripping a second time changes nothing |
| Builtins.Replace | examples/utilities.py:32 | `replace` of one character keeps the length and changes exactly the positions that held that character |
| Builtins.ReplaceRemovesAll | examples/utilities.py:32 | no comma is left after replacing commas by dots, and a second replacement changes nothing |
| Builtins.StripReplace | examples/utilities.py:32 | replacing one non-whitespace character by another commutes with `strip` |
| Builtins.LowerChar | examples/utilities.py:50 | an upper-case ASCII letter becomes the matching lower-case letter and every other character stays as it is; so the result is a lower-case letter exactly when the input is an ASCII letter of either case |
| Builtins.Lower | examples/utilities.py:50 | `k.lower()` keeps the length and lowers each character on its own |
| Builtins.LowerIsLetter | examples/utilities.py:50 | a key lowers to `x` (or `y`) exactly when it is that letter in lower or upper case |
| Builtins.PyFloat | examples/utilities.py:30-32 | `float(v)` gives 1.0 or 0.0 for a bool, the value of an int or float, and the parsed value of a string that parses; it fails exactly for all other values, with ValueError for a string and TypeError otherwise |
| Coerce.DecimalText | examples/utilities.py:32 | the text handed to `float` is the input stripped with every comma made a dot; so it holds no comma, does not start or end with whitespace, and is no longer than the input |
| Coerce.DecimalTextIdempotent | examples/utilities.py:32 | preparing the text a second time changes nothing |
| Coerce.ToFloat | examples/utilities.py:28-33 | `_to_float` agrees with `float` on everything but strings; a string is converted as `float` of its stripped, comma-to-dot text |
| Coerce.ToFloatErrors | examples/utilities.py:28-33 | TypeError exactly when the value is neither a number (bool included) nor a string; ValueError exactly when it is a string whose prepared text does not parse; no other error |
| Coerce.ToFloatNumbers | examples/utilities.py:29-30 | a float gives itself, an int its value and a bool 1.0 or 0.0 |
| Coerce.ToFloatCommaInsensitive | examples/utilities.py:32 | a decimal comma and a decimal point give the same result |
| Coerce.ToFloatStripInsensitive | examples/utilities.py:32 | surrounding whitespace does not change the result |
| Records.Present | examples/utilities.py:19 | the kept pairs are exactly the pairs of the dict with a non-None value, and a dict with no None values is kept whole |
| Records.PresentKeyOrder | examples/utilities.py:19 | the kept pairs are in the dict's order |
| Records.Prune | examples/utilities.py:17-22 | the result is None, a dict or a list exactly when the input is; anything other than a dict or list comes back unchanged |
| Records.PruneList | examples/utilities.py:20-21 | a pruned list keeps its length and order, element i is element i pruned, and a None element stays where it was |
| Records.PruneDict | examples/utilities.py:18-19 | a pruned dict holds, for each pair with a non-None value, that key with the value pruned, and nothing else; its keys stay distinct and in their original relative order |
| Records.PruneLeavesNoNullEntries | examples/utilities.py:17-22 | no dict entry with a None value is left at any depth reached through dicts and lists |
| Records.PruneFixesNoNullEntries | examples/utilities.py:17-22 | a value with no None entries is its own pruning |
| Records.PruneIdempotent | examples/utilities.py:17-22 | pruning twice is pruning once |
| Records.PickKeys | examples/utilities.py:24-26 | `pick_keys` holds no more pairs than there are allowed keys, and only allowed keys; PickKeysSpec below gives its full contract |
| Records.PickKeysFind | examples/utilities.py:24-26 | in the result, an allowed key maps to what it maps to in `d` (or is absent when `d` lacks it), and a key that is not allowed is absent |
| Records.PickKeysUnique | examples/utilities.py:26 | the result's keys are distinct |
| Records.PickKeysOrder | examples/utilities.py:26 | the result's keys follow the order in which they first appear in `allowed` |
| Records.PickKeysSpec | examples/utilities.py:24-26 | the result holds exactly the keys that are both allowed and in `d`, each with its value in `d`, without repetition and in the order of `allowed` |
| Records.PickKeysCongruent | examples/utilities.py:24-26 | the result depends on `d` only through the allowed keys |
| Records.PickKeysIdempotent | examples/utilities.py:24-26 | picking the same keys again changes nothing |
| Points.FindCaseless | examples/utilities.py:49-51 | the loop of `get` finds nothing exactly when no key matches ignoring case, and otherwise gives the value of the first matching key |
| Points.Get | examples/utilities.py:46-52 | an exact key gives its value; otherwise the value of the first key, in insertion order, that matches ignoring case; KeyError(key) exactly when no key matches ignoring case |
| Points.GetCoordinate | examples/utilities.py:46-52 | looking up `x` or `y` fails exactly when the dict has no key that is that letter in either case |
| Points.PointOf | examples/utilities.py:56 | a point is built exactly when both coordinates convert; x is converted first, so its error is the one raised |
| Points.NormalizePoint | examples/utilities.py:35-67 | a result is always a dict with exactly the keys x then y, both floats; the only errors are TypeError, ValueError, and KeyError for x or y on a dict |
| Points.NormalizeDict | examples/utilities.py:54-56 | when both lookups succeed, a dict gives the point of what they found |
| Points.NormalizePointKeyErrors | examples/utilities.py:44-56 | a dict raises KeyError("x") exactly when it has no `x`/`X` key, and KeyError("y") exactly when it has one but no `y`/`Y` key; lookups come before conversion |
| Points.NormalizePointPrefersExactKey | examples/utilities.py:46-48 | with exact `x` and `y` keys, those values are used wherever differently cased keys stand |
| Points.NormalizeSequences | examples/utilities.py:59-61 | a two-element list or tuple gives the point of its elements, first as x |
| Points.NormalizeObject | examples/utilities.py:64-65 | every object with `x` and `y` attributes, whatever other attributes it has, gives the point of those two |
| Points.NormalizePointShapesAgree | examples/utilities.py:44-65 | the same coordinates give the same point as a lower-case dict, an upper-case dict, a list, a tuple or an object |
| Points.NormalizePointRejectsShape | examples/utilities.py:59-67 | a value that is not a dict, not a list or tuple of two, and has no x and y attributes raises ValueError; lists of any other length are included |
| Points.NormalizePoints | examples/utilities.py:69-73 | None gives `[]`; a non-iterable gives TypeError; otherwise element i is the point of input i, failure is the first failing point's error, and every result is a point |
| ValueInputs.Given | examples/utilities.py:8-13 | `v.get(name)` is present exactly when the key is in the record with a non-None value, and is then that value |
| ValueInputs.FloatSeries | examples/utilities.py:11 | a converted series has one float per element of the input, each equal to `float` of that element; it fails exactly when the input is not iterable (TypeError) or some element does not convert (the first such element's error) |
| ValueInputs.GetMissing | examples/utilities.py:8 | `v.get` on a value that is not a dict raises AttributeError, except on an object that has a `get` attribute (data, not callable), where it raises TypeError |
| ValueInputs.ScenarioPart | examples/utilities.py:8-9 | the scenario entry exists exactly when a scenario is given, and then holds it unchanged |
| ValueInputs.SeriesPart | examples/utilities.py:10-11 | the series entry exists exactly when a series is given, and then holds its conversion |
| ValueInputs.ConstantPart | examples/utilities.py:12-13 | the constant entry exists exactly when a constant is given, and then holds `float` of it |
| ValueInputs.ValueInput | examples/utilities.py:7-14 | a record that is not a dict fails at `v.get`; a successful record is a dict |
| ValueInputs.ValueInputParts | examples/utilities.py:7-14 | a successful record is its scenario, series and constant entries in that order |
| ValueInputs.ValueInputShape | examples/utilities.py:7-14 | a successful record holds only scenario, series and constant keys, each at most once and in that order; each exactly when given and not None; the scenario unchanged, the series converted element by element, and the constant a float |
| ValueInputs.ValueInputErrors | examples/utilities.py:10-13 | a dict record fails exactly when its given series or its given constant does not convert; a failing series raises its error first, and otherwise a failing constant raises its error |
| ValueInputs.ValueInputOnlyConstant | examples/utilities.py:12-14 | a record holding only a constant becomes `{"constant": float(c)}` |
| ValueInputs.NormalizeRecord | examples/utilities.py:7-14 | the loop body that builds `vi` key by key computes exactly the value-input record |
| ValueInputs.NormalizeValueInputs | examples/utilities.py:3-15 | a falsy input gives `[]`; a non-iterable gives TypeError; otherwise output i is the value-input record of input i, and failure is the first failing record's error |

## Left out

- The decimal parsing inside `float(...)` for strings is the parameter `parse`. Rounding to IEEE doubles, infinities and NaN are not modelled; floats are reals.
- Builtins.Lower: lower-cases ASCII letters only. Only the targets `x` and `y` are compared, and only `x`/`X` and `y`/`Y` lower to them.
- Dict keys are strings or integers. Bool, float and tuple keys, which Python may hash equal to integers, are not modelled.
- Objects with custom `__iter__`, `__float__`, `__eq__` or a callable `get` method are not modelled. An attribute object's `get` counts as data, so calling it raises TypeError.
- Records.PickKeys: `d` is always a dict. Passing a list or string as `d` (where `in` and indexing mean something else) is not modelled.
- ValueInputs.FloatSeries: a generator or other lazy iterable as `series` is not modelled; only lists, tuples, dicts and strings iterate.
- OverflowError from `float` of a very large int is not modelled, because ints convert to reals exactly.
- `examples/input_data.py` and `examples/build_model.py` are not part of this model. They set up the GraphQL client, load JSON files and send hard-coded mutations.
- Submission ordering and required-field validation do not exist as code, so they are not modelled.
