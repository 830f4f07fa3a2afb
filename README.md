# jq-like path query: tokenizer and evaluator

The program takes a JSON file and a query such as `user.addresses[0].city`. It prints the value the query selects, or says that the query returned no result. Its core has two loops in `main`:

- **The query tokenizer** (main.rs:21, 28-38). It collects the left-to-right, non-overlapping matches of `([a-zA-Z0-9_]+)|\[(\d+)\]`. It pushes a `Key` step for each identifier and an `Index` step for each bracketed number. The digits of an index are parsed as a `usize`, and a failed parse ends the run with a panic.
- **The tree evaluator** (main.rs:40-57). It keeps one "current" reference, starting at the document root, and moves it one step at a time:
  - a key needs an object, and a missing key gives Null;
  - an index needs an array, and an index past the end panics;
  - landing on Null stops the walk;
  - a final Null is reported as "no result".

The model is written in the program's own terms:

- `wrappers.dfy`: `Option` and `Result`.
- `json.dfy`: the parsed JSON value.
- `tokenizer.dfy`:
  - the step type;
  - the character classes of the pattern;
  - the specification function `Scan`, a leftmost-first scanner with the regular expression's semantics;
  - the `usize` parse;
  - the imperative tokenizing loop `Compile` and the digit loop `ParseIndex`, each proved equal to its specification function.
- `tokenizer_laws.dfy`: what the tokenizer promises. It is stated against a reference renderer that writes a step list back in the conventional notation, and covers:
  - the round trip;
  - well-formedness of the output;
  - the split of a query at a separator;
  - how brackets, overflow and keys are tokenized.
- `evaluator.dfy`: `ApplyStep`, the specification function `Walk`, and the imperative loop `Evaluate`, proved equal to `Walk`.
- `evaluator_laws.dfy`: the evaluator against a reference definition of path following with no early stop (`Follow`). It covers:
  - the Null short-circuit;
  - the "no result" condition;
  - composition of paths.
- `program.dfy`: one run, from a parsed document and a query to a value, "no result", or failure.
- `examples_model.dfy`: small worked queries and documents.

The program panics when an index's digits do not parse and when a step does not fit the current value. Here those panics are the `Failed` outcomes:

- a bad index is `QueryFailure(BadIndex(digits))`;
- a key on a non-object is `StepFailure(KeyOnNonObject)`;
- an index on a non-array is `StepFailure(IndexOnNonArray)`;
- an index past the end is `StepFailure(IndexOutOfBounds(index, length))`.

The panic message at main.rs:35 ("An invalid index was matched by the regex") treats a failed parse as impossible, because the pattern only admits digits. The code can reach it, in two ways:

- an index too large for a `usize`;
- a non-ASCII decimal digit, since the regex crate's `\d` is Unicode-aware while `str::parse` accepts only ASCII digits.

The model follows the code and makes this failure an outcome. `ScanBracketedDigits` states when it happens for any bracketed digit run, and `ScanIndexOverflow` and `ArabicIndicDigit` exhibit it.

## Model

| member | source | states |
|---|---|---|
| Tokenizer.Scan | main.rs:28-38 | definition: the steps `captures_iter` yields, left to right, or the first index whose digits do not parse; its laws are `Compile`, `ScanRender`, `ScanWellFormed`, `ScanSplit` and `ScanBracketedDigits` |
| Tokenizer.ScanAt | main.rs:30-36 | definition: one match attempt at the current position, the identifier alternative before the bracket alternative, and no match otherwise; its laws are `ScanKeyThen`, `BracketedKey` and `ScanBracketedDigits` |
| Tokenizer.IsWordChar | main.rs:21 | definition: the class `[a-zA-Z0-9_]`; its laws are `ScanKeyThen`, `ScanWellFormed` and `BracketedKey` |
| Tokenizer.IsDecimalDigit | main.rs:21 | definition: the regex crate's Unicode `\d`, an ASCII digit or a code point in one of the 36 Basic Multilingual Plane blocks of general category Nd (Arabic-Indic to Fullwidth); its laws are `ScanBracketedDigits` and `ArabicIndicDigit` |
| Tokenizer.StartsIndexToken | main.rs:21 | definition: the alternative `\[(\d+)\]` matches at the first character, a `[`, the greedy run of one or more `\d`, then `]`; its laws are `ScanBracketedDigits`, `NoIndexTokenAtBracketedKey` and `IndexTokenBeforeSeparator` |
| Tokenizer.RunLength | main.rs:21 | the greedy `+` run: never longer than the input, and non-empty exactly when the first character is in the class |
| Tokenizer.RunLengthSpec | main.rs:21 | every character of the run is in the class, and the character right after it is not (the run is maximal) |
| Tokenizer.RunLengthIs | main.rs:21 | a prefix of class characters followed by a non-class character or the end is exactly the run |
| Tokenizer.RunLengthStopsAt | main.rs:21 | a run cannot extend past a character outside its class |
| Tokenizer.MatchRun | main.rs:21 | the scanning loop stops at the end of the maximal run of the class that begins at the start position |
| Tokenizer.ParseDigits | main.rs:35 | definition: the checked multiply-and-add of `str::parse::<usize>`, digit by digit; its laws are `ParseUsizeValue` and `ParseDigitsStaysNone` |
| Tokenizer.ParseUsize | main.rs:35 | definition: `str::parse::<usize>`, which also rejects the empty string; its closed form is `ParseUsizeValue` and its loop is `ParseIndex` |
| Tokenizer.ParseUsizeValue | main.rs:35 | `parse::<usize>` gives a value exactly when the digits are non-empty, all ASCII and at most 2^64-1, and then their decimal value; otherwise an error (empty, other character, overflow) |
| Tokenizer.ParseDigitsStaysNone | main.rs:35 | once a prefix of the digits fails the checked multiply-and-add, the whole parse fails |
| Tokenizer.ParseIndex | main.rs:35 | the digit-by-digit parse loop with its overflow check returns exactly the `usize` parse of its input |
| Tokenizer.Compile | main.rs:28-38 | the tokenizing loop pushes exactly the steps of the leftmost-first scan, in order, or returns the first index whose digits do not parse |
| TokenizerLaws.ParseDecimalString | main.rs:35 | the decimal notation of any value that fits a `usize` parses back to that value |
| TokenizerLaws.ScanKeyThen | main.rs:30-33 | a key followed by a non-word character (or nothing) yields that key first, then the steps of the rest |
| TokenizerLaws.ScanIndexThen | main.rs:34-36 | `[n]` for any `usize` value `n` yields `Index(n)` first, then the steps of the rest |
| TokenizerLaws.ScanBracketedDigits | main.rs:34-36 | `[ds]` for any non-empty run of decimal digits (leading zeros and non-ASCII digits included) yields `Index` of its decimal value first when `ds` is all ASCII and at most 2^64-1, and otherwise ends tokenizing with `BadIndex(ds)` |
| TokenizerLaws.ScanIndexOverflow | main.rs:35 | `[n]` for any `n` above 2^64-1 makes tokenizing fail with the digits of `n` |
| TokenizerLaws.NoIndexTokenAtBracketedKey | main.rs:21 | a bracket before a word that has a non-digit starts no index token |
| TokenizerLaws.BracketedKey | main.rs:21 | `[w]` with `w` a word that is not all digits yields the single key `w`: the bracket alternative fails and the identifier alternative takes the run |
| TokenizerLaws.ScanRender | main.rs:28-38 | tokenizing the conventional rendering of any well-formed step list (keys joined by dots, indices in brackets) gives back exactly that list, in order |
| TokenizerLaws.ScanWellFormed | main.rs:30-36 | every step the tokenizer produces is well formed: a non-empty `[A-Za-z0-9_]` key or an index at most 2^64-1 |
| TokenizerLaws.RenderNormalizes | main.rs:28-38 | rendering the steps of any query and tokenizing again gives the same steps |
| TokenizerLaws.SkipsUnmatched | main.rs:30 | text with no word character and no `[` is skipped wherever it occurs: `u` followed by `v` yields exactly the steps of `v`, or its failure |
| TokenizerLaws.SkipsSeparators | main.rs:30 | a query with no word character and no bracket yields no steps |
| TokenizerLaws.IndexTokenBeforeSeparator | main.rs:21 | text after a separator neither extends nor completes a `[digits]` token that starts before it |
| TokenizerLaws.ScanSplit | main.rs:30-38 | a separator splits a query: the steps of `s c t` are those of `s` followed by those of `t`, and tokenizing fails exactly when a part fails, with the leftmost failure |
| Evaluator.Lookup | main.rs:46 | definition: the `json` crate's object indexing, the field's value or the shared Null when the key is absent; `ApplyStep` states what a key step selects with it |
| Evaluator.Walk | main.rs:40-55 | definition: the evaluating loop's result, step by step with the early stop on Null; its loop is `Evaluate` and its laws against `Follow` are `WalkIsFollowUntilNull`, `FoundIsSubtree`, `NoResultIff`, `WalkAppend` and `ShortCircuit` |
| Evaluator.ApplyStep | main.rs:43-54 | a key on an object selects the field of that name, and Null exactly when the key is absent or maps to Null; an index on an array within bounds selects the element at that 0-based position; a key on a non-object fails with `KeyOnNonObject`, an index on a non-array with `IndexOnNonArray`, and an index past the end with `IndexOutOfBounds(index, length)`; a successful step gives Null or a child of the current value |
| Evaluator.Evaluate | main.rs:40-55 | the evaluating loop, with its early returns and its break on Null, returns exactly the short-circuiting walk of the steps from the root |
| EvaluatorLaws.FollowCons | main.rs:42-55 | following a path is applying its first step, then following the rest from there |
| EvaluatorLaws.FollowFromNull | main.rs:45-50 | no step can be followed out of Null |
| EvaluatorLaws.WalkIsFollowUntilNull | main.rs:42-55 | the evaluator's result is Null when some step lands on Null, and otherwise exactly what following every step in turn gives, value or error |
| EvaluatorLaws.FoundIsSubtree | main.rs:42-55 | a non-Null result is found exactly when it is the subtree that applying each step in turn reaches |
| EvaluatorLaws.NoResultIff | main.rs:57 | the result is Null exactly when the path is empty and the document is Null, or some step lands on Null |
| EvaluatorLaws.FollowAppend | main.rs:42-55 | following `p` then `q` is following `p`, then `q` from where `p` arrived |
| EvaluatorLaws.WalkAppend | main.rs:42-55 | evaluating `p` then `q` is evaluating `p`, then, unless it failed or stopped at Null, `q` from where `p` arrived |
| EvaluatorLaws.ShortCircuit | main.rs:47-52 | once a non-empty prefix of the path reaches Null, the remaining steps are not evaluated and the result is Null, even where they would fail |
| EvaluatorLaws.WalkFromNull | main.rs:45-50 | on a Null document with steps to go the first step fails, since the early stop needs a step to land on Null |
| Program.Answer | main.rs:28-58 | a value is found exactly when the query tokenizes and its walk gives a non-Null value, and the found value is that value; "no result" exactly when the walk gives Null; a query failure exactly when tokenizing fails, with its error; a step failure exactly when the query tokenizes and the walk fails, with the walk's error |
| Program.FoundIff | main.rs:28-58 | the run prints `w` exactly when `w` is not Null and following every step of the tokenized query from the document reaches `w` |
| Program.StepFailureIff | main.rs:40-55 | the run panics on a step with error `e` exactly when the tokenized query lands on no Null along the way and following it fails with `e` |
| Program.Run | main.rs:28-58 | tokenizing with the loop and then evaluating with the loop gives exactly the outcome `Answer` defines |
| QueryExamples.BracketWithoutIndex | main.rs:21 | `[12x]` yields the single key `12x` |
| QueryExamples.DottedKeys | main.rs:28-38 | `a.b.c` yields the keys `a`, `b`, `c` in order |
| QueryExamples.KeyIndexKey | main.rs:28-38 | `items[2].name` yields `Key(items)`, `Index(2)`, `Key(name)` in order |
| QueryExamples.StrayBracket | main.rs:30 | `]a` yields the single key `a`: the stray `]` is skipped |
| QueryExamples.LeadingZeros | main.rs:34-36 | `[007]` yields `Index(7)` |
| QueryExamples.ArabicIndicDigit | main.rs:35 | `[٣]` is matched as an index token by `\d` but its digit does not parse, so tokenizing fails |
| DocumentExamples.NestedLookup | main.rs:42-55 | `{"a":{"b":5}}` with `a.b` gives 5 |
| DocumentExamples.NullStopsTheWalk | main.rs:47 | `{"a":null}` with `a.b` gives Null, not a type mismatch |
| DocumentExamples.MissingKeyIsNull | main.rs:46 | a missing key gives Null |
| DocumentExamples.IndexPastEnd | main.rs:51 | `[5]` on a three-element array fails with the index and the length |
| DocumentExamples.IndexSelectsElement | main.rs:51 | `[1]` on `[1,2,3]` gives 2, the element at 0-based position 1 |
| DocumentExamples.KeySelectsField | main.rs:46 | `b` on `{"a":1,"b":2}` gives 2, its own field |
| DocumentExamples.WalkItemsIndexName | main.rs:42-55 | `items[2].name` on a document with three named items walks to the third name |
| DocumentExamples.IndexOnObject | main.rs:50 | an index on an object fails |
| DocumentExamples.RunNestedLookup | main.rs:28-58 | the whole run on `{"a":{"b":5}}` with the query `a.b` finds 5 |
| DocumentExamples.RunItemsIndexName | main.rs:28-58 | the whole run of `items[2].name` on that document finds the third name |

## Left out

- Command-line arguments and their panics (main.rs:13-19): process input. The query and the document are parameters of `Run`.
- Reading the file and parsing it with the `json` crate, with the `expect` on the parse (main.rs:23-27, 40): file I/O and a foreign crate. The model starts from an already parsed `Json` value.
- Printing the result with `dump()` and `println!` (main.rs:57-58): output formatting from a foreign library. The model returns the outcome that decides what is printed.
- The regex engine itself (main.rs:21): it is replaced by a hand-written scanner with the same leftmost-first, non-overlapping semantics for this one pattern.
- Tokenizer.IsDecimalDigit: `\d` is Unicode's general category Nd. The model lists the decimal-digit blocks of the Basic Multilingual Plane only; digits above U+FFFF are not classified as digits.
- Tokenizer.USIZE_MAX: `usize` is fixed at 64 bits. A 32-bit target would overflow at 2^32-1.
- Tokenizer.ParseUsize: the leading `+` that `str::parse` accepts is not modelled. A matched index never contains one, since `+` is not a decimal digit.
- JSON numbers: an opaque payload that is never inspected. The evaluator does not look inside numbers.
- Object key order and duplicate keys in the `json` crate: the evaluator only looks keys up, so objects are maps.
- The `json` crate's separate short and long string representations are one `Str` case.
- Rust's lifetime-bound `&str` keys and references into the document: all values here are immutable copies. The program never mutates the document, so evaluation has no aliasing to model.
