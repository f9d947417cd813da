# Search index updater — verified model

A model of `SearchIndexUpdater` from `update.py`, a thin layer over an
Elasticsearch client. What it does on its own is small. It holds an index name
and a document type fixed at construction. It translates each
`(identifier, partial document)` item into a bulk "update" action. It hands the
lazy sequence of actions to the client's parallel bulk helper. It walks the
outcomes that helper yields and collects the responses of the failed ones.

Modules:

- `Wrappers` (`wrappers.dfy`): `Option` and `Result`.
- `Values` (`values.dfy`): `Value`, the schema-less Python objects that
  identifiers, partial documents and engine responses are made of. These are
  None, bools, ints, finite floats (exact reals), strings, lists and dicts with
  string keys.
- `IntCoercion` (`int_coercion.dfy`): Python's `int(x)` on those values, which
  the translator applies to every identifier. A bool gives 0 or 1 and an int
  gives itself. A float is truncated toward zero. A string is read as a
  base-10 literal: ASCII whitespace around it, an optional sign, and digits in
  which single underscores may separate two digits. None, lists and dicts raise
  `TypeError`. A malformed string raises `ValueError`. So does a string with
  more than `MaxStrDigits` digits: 4300, CPython's default limit on integer
  string conversion since 3.11 and the 2022 security releases 3.7.14, 3.8.14,
  3.9.14 and 3.10.7. The value 0, meaning no limit, is also handled by the
  definitions. `ShowInt`, the decimal rendering of an integer, is the partner
  for the round-trip lemma. It has no digit limit, whereas Python's `str`
  raises past the limit.
- `Update` (`update.dfy`): the `Action` record and its dictionary form, the
  bulk outcomes, the error aggregation `FailedResponses` with its lemmas, and
  the class `SearchIndexUpdater`.

Design choices:

- `index_name`, `doc_type` and `scroll_ttl` are `const` fields set by the
  constructor, so "never reassigned" holds by construction. `doc_type` defaults
  to `"item"` and `scroll_ttl` to `"5m"`.
- `_prepare_update` is the function `PrepareUpdate`. An identifier that `int`
  refuses gives `Failure(TypeError | ValueError)`: the exception that means no
  action is produced.
- `map(...)` in `index_items` is lazy, so an identifier fails only when the
  bulk helper pulls that action. `UpdateActions` therefore yields one
  `Result` per item, in input order. Element i is what pulling the i-th action
  gives.
- The bulk helper `parallel_bulk` is external. It is a parameter of
  `IndexItems`: a function from the actions and the `raise_on_error` flag to a
  `BulkRun`. A `BulkRun` holds the outcomes it yields and, optionally, the
  exception it raises after them. That exception is a `Raised`: either the
  `int` error raised while the helper pulled an action from the lazy sequence
  (`Coercion`), or one of the engine client's own (`Engine`). The model claims
  nothing about how outcomes relate to actions in order or number.
- If the helper raises, `index_items` propagates the exception and returns no
  list. The model returns `Failure(exception)` in that case.
- The progress display's error count (`set_postfix`) is the ghost
  out-parameter `postfix` of `IndexItems`.

## Model

| member | source | states |
|---|---|---|
| `Update.SearchIndexUpdater.constructor` | update.py:7-11 | the index name, the document type (default `"item"`) and the scroll keep-alive (default `"5m"`) are the arguments given; they are constants, never reassigned |
| `Update.SearchIndexUpdater.PrepareUpdate` | update.py:43-50 | an action exists exactly when `int(item_id)` succeeds; it is an operation `"update"` on the updater's index and type, with id `int(item_id)` and the partial document unchanged; otherwise the error is the one `int` raises |
| `Update.SearchIndexUpdater.DecimalStringId` | update.py:48 | an identifier given as the decimal string of n yields the update action for document n, or `ValueError` when the string has more digits than the limit |
| `Update.SearchIndexUpdater.UpdateActions` | update.py:25 | exactly one action per input item, in input order, the i-th being `_prepare_update(x[0], x[1])` of the i-th item |
| `Update.SearchIndexUpdater.ActionsTargetConfiguredIndex` | update.py:25 | every action built for a bulk call is an `"update"` of the configured index and type and carries the item's document; an item yields an action exactly when its identifier converts |
| `Update.SearchIndexUpdater.IndexItems` | update.py:24-38 | returns exactly the responses of the failed outcomes, in the order the helper yields them, or propagates the helper's exception (an `int` error from the lazy actions or an engine error) with no list; the displayed error count ends at the number of errors when verbose |
| `Update.ToDict` | update.py:44-50 | the action dictionary has exactly the keys `_index`, `_type`, `_op_type`, `_id`, `doc` |
| `Update.DictRoundTrip` | update.py:44-50 | reading an action back from its dictionary form gives the same action |
| `Update.DictRoundTripBack` | update.py:44-50 | a dictionary that reads back as an action is that action's dictionary form |
| `Update.FailedResponsesAppend` | update.py:33-35 | the errors of two consecutive stretches of outcomes are the errors of the first followed by those of the second |
| `Update.ErrorsOnlyGrow` | update.py:28-35 | the error list starts empty and only grows by appends: what was collected after k outcomes is a prefix of the final list |
| `Update.FailedResponsesMembership` | update.py:33-35 | a response is in the error list exactly when some failed outcome carries it |
| `Update.NoFailuresNoErrors` | update.py:28-38 | the error list is empty exactly when every outcome succeeded, so no outcomes give an empty list |
| `Update.ErrorCountIsFailureCount` | update.py:33-37 | the error list, and so the displayed count, has one entry per failed outcome |
| `Update.FailuresIgnoreCompletionOrder` | update.py:29-35 | outcomes that are a permutation of each other, as parallel completion may produce, give the same errors as a multiset |
| `IntCoercion.TruncateTowardZero` | update.py:48 | `int` of a finite float is the integer nearest to it on the side of zero |
| `IntCoercion.ParseShowRoundTrip` | update.py:48 | reading back the decimal rendering of an integer gives that integer when its digits are within the limit, and is refused when they are not |
| `IntCoercion.DigitLimitRefuses` | update.py:48 | 10^4300, written out with 4301 digits, is refused |
| `IntCoercion.ParseTrimmed` | update.py:48 | a string with no whitespace at either end is read as it stands |
| `IntCoercion.BlankStringsRefused` | update.py:48 | the empty string and any all-whitespace string are refused |
| `IntCoercion.ParseIgnoresSurroundingSpace` | update.py:48 | ASCII whitespace around a literal never changes what `int` makes of it |
| `IntCoercion.ParseLiteralExamples` | update.py:48 | signed and zero-padded literals and literals with single underscores are read; empty bodies, double, leading or trailing underscores, a space after the sign, a decimal point and a hex prefix are refused |
| `IntCoercion.IntOfDecimalString` | update.py:48 | `int` of the decimal string of n is n, or `ValueError` past the digit limit |
| `IntCoercion.IntOfIdempotent` | update.py:48 | converting an already converted identifier changes nothing |

## Left out

- The Elasticsearch client: building `Elasticsearch(hosts=...)` from the host list (update.py:8), the `mapping` property (update.py:14-15), `update_mapping` (update.py:17-19), `index_item` (update.py:21-22) and `refresh` (update.py:40-41). Each is one network call into a library that is not part of this model. The host list is therefore not a constructor parameter.
- `parallel_bulk` itself (update.py:29): its threads, chunking and `raise_on_error` policy are the library's. It is modelled only as the injected function that yields a `BulkRun`.
- The `tqdm` wrapper (update.py:29-32, 37): the display, its total and its disabling are UI. Only the error count it is last given is kept, as a ghost value.
- `items_count` (update.py:26): it only sets the progress total.
- `scroll_ttl` (update.py:11) is stored and never used.
- Items are modelled as pairs. An item with fewer than two elements would raise `IndexError` in the lambda (update.py:25); that is not modelled.
- `IntCoercion.IntOf`: the digit limit is the fixed default, 4300. A program that changes it with `sys.set_int_max_str_digits`, or a Python older than the releases named above, which has no limit, is not modelled.
- `IntCoercion.IntOf` covers only the value shapes listed above. Non-ASCII digits and whitespace, which Python's `int` also accepts, are treated as malformed. Infinite and NaN floats are not representable. `bytes` and objects with `__int__`, `__index__` or `__trunc__` are not modelled.
- `Update.ToDict`: the dictionary is a map, so the insertion order of its keys is not kept. The bulk helper looks keys up by name.
