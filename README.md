# happypanda search commands in Dafny

This project models the search-query pipeline of happypanda's server,
`happypanda/server/core/commands/search_cmd.py`. The pipeline has four commands:

- **ParseSearchFilter** turns a free-text filter such as `artist:"name" tag:[a, -b] -red` into `ns:tag` atoms.
  - Its default `parse` implementation, `_get_terms`, is one left-to-right scan.
  - The scan tracks quotes, brackets and an end-of-bracket flag.
  - Bracket groups are expanded after the scan.
  - `main` unions what every `parse` implementation returns.
- **PartialFilter** checks a model against the union of the `models` results, then unions what the `match_model` implementations return for one term.
- **OperatorFilter** declines every term: its `main` returns `None` at once.
- **ModelFilter** runs the whole query:
  - it parses the filter;
  - it splits the atoms into include and exclude terms with the `separate` entry;
  - it matches each group through the `include` and `exclude` entries, whose defaults run `_match`;
  - it returns the included ids minus the excluded ids.

The commands that update fields in place are classes:

- `ParseSearchFilter`, `PartialFilter`, `OperatorFilter` and `ModelFilter`;
- the method `Run` of each class is its `main`, and it states the new fields and the result.

The loops of the source are methods with loop invariants:

- the scan (`GetTerms`) and the bracket expansion (`ExpandTags`);
- `_separate` (`Separate`);
- the `separate` loop (`SeparateAll`);
- `_match` (`Match`);
- the `parse` loop of `ParseSearchFilter.main` (`ParseSearchFilter.Run`);
- the `models` and `match_model` loops of `PartialFilter.main` (`PartialFilter.AddSupported`, `PartialFilter.AddMatched`);
- the `include` and `exclude` loops.

Each loop method is proved equal to a specification function:

- `Terms` is built from `Step`, `Scan` and `Expand`.
- `Included` and `Excluded` specify `_separate`.
- `MatchSpec` specifies `_match`.
- `Filtered` specifies `ModelFilter.main`.
- `Supported`, `Matched` and `PartialResult` specify `PartialFilter.main`.
- `Collect` specifies the `parse`, `include` and `exclude` loops.

The lemmas state what the source promises about those functions.

An entry point (`CommandEntry`) is dispatched by a command framework that is not part of this model. Every entry therefore becomes a parameter:

- `parse`, `separate`, `include`, `exclude` and `match_model` take the sequence of implementation functions that `plg.all()` runs, in the order it runs them.
- `models` takes no arguments, so it takes the tuples its implementations return.

Folding the `parse`, `include` and `exclude` results is `Dispatch.Collect`. The `models`, `match_model` and `separate` results are folded by `PartialFilters.Supported`, `PartialFilters.Matched` and `ModelFilters.IncludeTerms`/`ModelFilters.ExcludeTerms`; these folds cannot fail, because a raising implementation of those entries is not modelled (see "## Left out"). The dispatcher behind `plg.all()` is not part of this model, so `Collect` assumes that `plg.all()` runs the implementations one at a time as the loop reads them, and lets an implementation's own exception through unchanged. Under that assumption:

- it unions the results in order;
- the first implementation that raises stops the loop, and its exception propagates;
- `Absorbed` is what the accumulating field already holds at that point.

Files:

| file | module | contents |
|---|---|---|
| wrappers.dfy | Wrappers | Option and Result |
| db.dfy | Db | the model classes as a datatype; `__name__` and lookup by name |
| dispatch.dfy | Dispatch | the errors; folding the results of an entry |
| parse_filter.dfy | ParseFilter | the tokenizer: `Step`, `Scan`, `Expand`, `Terms`, `GetTerms`, class `ParseSearchFilter` |
| parse_filter_facts.dfy | ParseFilterFacts | tokenizer properties: clean atoms, quotes, brackets, expansion, the crash, the round trip of space-separated atoms |
| parse_filter_examples.dfy | ParseFilterExamples | the tokenizer evaluated on twelve concrete filters |
| partial_filter.dfy | PartialFilters | class `PartialFilter`, class `OperatorFilter`, the default models and matchers |
| model_filter.dfy | ModelFilters | `_separate`, `_match`, class `ModelFilter` |
| scenarios.dfy | Scenarios | end-to-end results for `red -blue` and for the empty filter |

## Model

All source paths are `happypanda/server/core/commands/search_cmd.py`.

| member | source | states |
|---|---|---|
| Db.ModelNamed | happypanda/server/core/commands/search_cmd.py:277 | the model class found for a name carries that name |
| Db.NameRoundTrip | happypanda/server/core/commands/search_cmd.py:303 | looking up `model.__name__` finds the model again; the names are distinct |
| Dispatch.CollectFails | happypanda/server/core/commands/search_cmd.py:319-322 | an entry loop fails exactly when some implementation raises, and it reports the first exception raised |
| Dispatch.CollectMembers | happypanda/server/core/commands/search_cmd.py:108-111 | with no exception, an element is in the union exactly when some implementation returned it, and the accumulated field holds exactly the union |
| Dispatch.CollectKeepsError | happypanda/server/core/commands/search_cmd.py:319-322 | after an implementation raises, later implementations change nothing |
| Dispatch.AbsorbedStops | happypanda/server/core/commands/search_cmd.py:321-322 | after an implementation raises, no later result reaches the accumulated field |
| ParseFilter.ExpandTags | happypanda/server/core/commands/search_cmd.py:85-98 | the expansion loop, in any set order, returns `Expand`: IndexError when a tag crashes, else one atom per collected tag |
| ParseFilter.GetTerms | happypanda/server/core/commands/search_cmd.py:26-100 | the scanning loop and the expansion return `Terms`, the fold of `Step` over the filter followed by `Expand` |
| ParseFilter.ToTuple | happypanda/server/core/commands/search_cmd.py:112 | `tuple(set)` lists every element of the set exactly once |
| ParseFilter.ParseSearchFilter.constructor | happypanda/server/core/commands/search_cmd.py:20-23 | the filter is empty and there are no pieces |
| ParseFilter.ParseSearchFilter.Run | happypanda/server/core/commands/search_cmd.py:102-116 | the filter is stored; if a parser raises, the error propagates and the pieces are unchanged; otherwise the pieces list the union of every parse result, each atom once, and are returned |
| ParseFilterFacts.FlushTidy | happypanda/server/core/commands/search_cmd.py:62-74 | a flush keeps every atom, namespace and tag free of `[ ] " ,`, keeps atoms and tags non-empty, and keeps everything space-free outside quotes |
| ParseFilterFacts.BracketTidy | happypanda/server/core/commands/search_cmd.py:40-46 | opening or closing a bracket keeps the scan state clean |
| ParseFilterFacts.QuoteTidy | happypanda/server/core/commands/search_cmd.py:49-53 | toggling the quote level keeps the scan state clean |
| ParseFilterFacts.ConsumeTidy | happypanda/server/core/commands/search_cmd.py:57-82 | flushing or copying a character keeps the scan state clean; a blacklisted character is never copied |
| ParseFilterFacts.StepTidy | happypanda/server/core/commands/search_cmd.py:38-82 | one loop iteration preserves the clean-state invariant, and preserves space-freedom on any character but `"` |
| ParseFilterFacts.ScanTidy | happypanda/server/core/commands/search_cmd.py:38-82 | the clean-state invariant holds after every prefix of the filter; before the first `"`, nothing holds a space |
| ParseFilterFacts.AtomTidy | happypanda/server/core/commands/search_cmd.py:87-95 | an expanded atom built from a clean namespace and a clean tag is non-empty and clean, and space-free when both parts are |
| ParseFilterFacts.FinishClean | happypanda/server/core/commands/search_cmd.py:85-100 | every atom returned from a clean end state is non-empty and clean, and space-free when the state is |
| ParseFilterFacts.AtomsClean | happypanda/server/core/commands/search_cmd.py:26-100 | every atom of a filter is non-empty and holds none of `[ ] " ,`; if the filter has no `"`, no atom holds a space |
| ParseFilterFacts.ExpandNothing | happypanda/server/core/commands/search_cmd.py:85-86 | with no bracket group, expansion adds no atoms |
| ParseFilterFacts.EmptyFilter | happypanda/server/core/commands/search_cmd.py:29-38 | the empty filter parses to no atoms |
| ParseFilterFacts.TidyTag | happypanda/server/core/commands/search_cmd.py:67-69 | every collected tag is non-empty and clean |
| ParseFilterFacts.FinishCrash | happypanda/server/core/commands/search_cmd.py:86-92 | from a clean end state, expansion raises only IndexError, and raises exactly when an excluded tag is collected under the empty namespace |
| ParseFilterFacts.TermsCrash | happypanda/server/core/commands/search_cmd.py:85-92 | parsing raises only IndexError, and raises exactly when an excluded tag is collected under the empty namespace |
| ParseFilterFacts.QuoteParity | happypanda/server/core/commands/search_cmd.py:49-53 | after any prefix, the quote level is the number of `"` read so far, mod 2 |
| ParseFilterFacts.StepQuoteLevel | happypanda/server/core/commands/search_cmd.py:49-53 | only a `"` changes the quote level, and it toggles it |
| ParseFilterFacts.QuotedSpaceKept | happypanda/server/core/commands/search_cmd.py:57-80 | inside quotes, a space that is not the last character is copied and flushes nothing |
| ParseFilterFacts.QuotedCommaDropped | happypanda/server/core/commands/search_cmd.py:57-78 | inside quotes, a comma neither flushes nor is copied |
| ParseFilterFacts.OpenQuoteFlushesNothing | happypanda/server/core/commands/search_cmd.py:49-82 | after a `"` that is never closed, no flat atom is added and no bracket group gains a tag, so the quoted text is lost |
| ParseFilterFacts.ClosingQuoteFlushes | happypanda/server/core/commands/search_cmd.py:49-75 | a `"` that closes a quote as the last character flushes the buffer, without the quote |
| ParseFilterFacts.PrefixStripped | happypanda/server/core/commands/search_cmd.py:63-69 | inside a bracket, a piece that starts with the namespace text joins the group without that text, and adds no flat atom |
| ParseFilterFacts.ReopenResets | happypanda/server/core/commands/search_cmd.py:40-43 | `[` opens the namespace held by the buffer with an empty tag set, discarding earlier tags under that name, and makes it the active namespace |
| ParseFilterFacts.StrayCloseDrops | happypanda/server/core/commands/search_cmd.py:44-71 | before any `[`, the piece that a `]` ends is dropped: it becomes neither an atom nor a tag |
| ParseFilterFacts.NoBracketNoTags | happypanda/server/core/commands/search_cmd.py:40-100 | with no `[` in the filter, no tag is collected and the atoms are exactly the flat pieces |
| ParseFilterFacts.EndOfBracketClearedOnlyByFlush | happypanda/server/core/commands/search_cmd.py:57-75 | the end-of-bracket flag is cleared only by flushing a non-empty buffer outside quotes |
| ParseFilterFacts.AtomMarking | happypanda/server/core/commands/search_cmd.py:87-95 | an expanded atom is excluded exactly when its namespace or its tag was; without the marker it is the namespace followed by the tag, each without its own marker |
| ParseFilterFacts.JoinedRoundTrip | happypanda/server/core/commands/search_cmd.py:57-82 | round trip: non-empty atoms with no space and none of `[`, `]`, `"` or `,`, written with single spaces between them, parse back to exactly the set of those atoms |
| ParseFilterExamples.StrayCloseExample | happypanda/server/core/commands/search_cmd.py:44-71 | `foo] bar` parses to `{bar}` |
| ParseFilterExamples.ClientQueryExample | happypanda/server/core/commands/search_cmd.py:49-61 | `artist:"name"`, the form the client sends, parses to `{artist:name}` |
| ParseFilterExamples.QuotedPhraseExample | happypanda/server/core/commands/search_cmd.py:57-82 | `"a b" c` parses to `{a b, c}` |
| ParseFilterExamples.QuotedCommaExample | happypanda/server/core/commands/search_cmd.py:57-82 | `"a,b" c` parses to `{ab, c}` |
| ParseFilterExamples.UnterminatedQuoteExample | happypanda/server/core/commands/search_cmd.py:49-82 | `a "bc` parses to `{a}` |
| ParseFilterExamples.BracketExample | happypanda/server/core/commands/search_cmd.py:40-98 | `tag:[a, -b]` parses to `{tag:a, -tag:b}` |
| ParseFilterExamples.ReopenExample | happypanda/server/core/commands/search_cmd.py:40-43 | `t:[a] t:[b]` parses to `{t:b}` |
| ParseFilterExamples.EndOfBracketExample | happypanda/server/core/commands/search_cmd.py:44-74 | `x[y ] z` parses to `{xy, xz}` |
| ParseFilterExamples.EmptyNamespaceCrashExample | happypanda/server/core/commands/search_cmd.py:89-90 | `[-a]` raises IndexError |
| ParseFilterExamples.UnqualifiedBracketExample | happypanda/server/core/commands/search_cmd.py:40-95 | `t["a", -c]` parses to `{ta, -tc}` |
| ParseFilterExamples.PlainAtomExample | happypanda/server/core/commands/search_cmd.py:57-73 | `artist:oda` parses to `{artist:oda}` |
| ParseFilterExamples.ExclusionExample | happypanda/server/core/commands/search_cmd.py:57-73 | `red -blue` parses to `{red, -blue}` |
| PartialFilters.DefaultModelsCover | happypanda/server/core/commands/search_cmd.py:157-173 | the default `models` tuple lists 13 distinct models: every modelled class but User |
| PartialFilters.SupportedMembers | happypanda/server/core/commands/search_cmd.py:188-190 | a model is supported exactly when some `models` result lists it |
| PartialFilters.MatchedMembers | happypanda/server/core/commands/search_cmd.py:195-197 | an id is matched exactly when some matcher returns it |
| PartialFilters.PartialResultMeaning | happypanda/server/core/commands/search_cmd.py:183-201 | the result is the unsupported-model error exactly when no `models` result lists the model; otherwise an id is in it exactly when some matcher returns it |
| PartialFilters.DefaultMatchersEmpty | happypanda/server/core/commands/search_cmd.py:175-181 | the default matchers match nothing |
| PartialFilters.DefaultsMatchNothing | happypanda/server/core/commands/search_cmd.py:157-201 | with the defaults, User raises the unsupported-model error and every other modelled class matches nothing |
| PartialFilters.PartialFilter.constructor | happypanda/server/core/commands/search_cmd.py:150-155 | no model, an empty term, and no supported models or matched ids |
| PartialFilters.PartialFilter.Run | happypanda/server/core/commands/search_cmd.py:183-201 | model and term are stored and the supported set grows by every `models` result; an unsupported model raises and the matched ids are unchanged; otherwise the matched ids grow by every matcher's result and are returned; on a fresh instance the result is `PartialResult` |
| PartialFilters.PartialFilter.AddSupported | happypanda/server/core/commands/search_cmd.py:188-190 | the supported set grows by exactly the models that some `models` result lists; the other fields are unchanged |
| PartialFilters.PartialFilter.AddMatched | happypanda/server/core/commands/search_cmd.py:195-197 | the matched ids grow by exactly the ids that some matcher returns; the other fields are unchanged |
| PartialFilters.OperatorFilter.constructor | happypanda/server/core/commands/search_cmd.py:218-220 | the fields of a fresh PartialFilter, plus an empty operator set |
| PartialFilters.OperatorFilter.Run | happypanda/server/core/commands/search_cmd.py:226-227 | returns None for every model and term, and changes nothing |
| ModelFilters.Separate | happypanda/server/core/commands/search_cmd.py:260-272 | the loop returns `Included` and `Excluded` of the pieces |
| ModelFilters.SeparateConcat | happypanda/server/core/commands/search_cmd.py:266-270 | separating works piece by piece, in input order |
| ModelFilters.SeparatePartition | happypanda/server/core/commands/search_cmd.py:260-272 | every piece goes to exactly one side: the two outputs together have the input's length; with `-` restored on the excluded side, they are a permutation of the input; no included piece starts with `-` |
| ModelFilters.SeparateMembers | happypanda/server/core/commands/search_cmd.py:266-270 | `x` is included exactly when it is a piece without a leading `-`; `x` is excluded exactly when `-x` is a piece |
| ModelFilters.TermsMembers | happypanda/server/core/commands/search_cmd.py:312-317 | a term is included or excluded exactly when some pair-shaped `separate` result lists it on that side |
| ModelFilters.OnlyPairsCount | happypanda/server/core/commands/search_cmd.py:315 | a `separate` result that is not a pair contributes no terms |
| ModelFilters.DefaultTerms | happypanda/server/core/commands/search_cmd.py:309-317 | with the default `separate` alone, the include terms are the pieces without a leading `-`, and `x` is an exclude term exactly when `-x` is a piece |
| ModelFilters.SeparateAll | happypanda/server/core/commands/search_cmd.py:309-317 | the loop over the `separate` results returns the include and the exclude terms |
| ModelFilters.MatchedAllAdd | happypanda/server/core/commands/search_cmd.py:282-287 | each term adds exactly what the matchers return for it |
| ModelFilters.MatchMeaning | happypanda/server/core/commands/search_cmd.py:274-289 | `_match` fails exactly for an unknown model name, or for an unsupported model with at least one term; otherwise an id is returned exactly when a matcher returns it for some term |
| ModelFilters.Match | happypanda/server/core/commands/search_cmd.py:274-289 | the per-term loop, in any set order, asks OperatorFilter first, falls back to one PartialFilter, and returns `MatchSpec` |
| ModelFilters.ExcludeWins | happypanda/server/core/commands/search_cmd.py:319-334 | when nothing raises, an id is returned exactly when some includer returns it and no excluder does |
| ModelFilters.FilteredFails | happypanda/server/core/commands/search_cmd.py:319-329 | `main` fails exactly when some includer or excluder raises; an includer's exception wins over an excluder's |
| ModelFilters.EmptyFilterMatchesNothing | happypanda/server/core/commands/search_cmd.py:299-338 | with the default `separate` and `_match` as intended, a filter with no atoms matches nothing |
| ModelFilters.AsWrittenAlwaysRaises | happypanda/server/core/commands/search_cmd.py:291-293 | as written, the default `_include` raises TypeError, so a `main` whose `include` dispatch runs the default `_include` fails with TypeError for every filter |
| ModelFilters.ModelFilter.constructor | happypanda/server/core/commands/search_cmd.py:252-258 | no model, no parser, and empty id sets |
| ModelFilters.ModelFilter.Include | happypanda/server/core/commands/search_cmd.py:319-322 | returns the fold of the include results; the included ids grow by what was absorbed before any exception; the matched ids grow with them exactly when an earlier call made them one set; nothing else changes |
| ModelFilters.ModelFilter.Exclude | happypanda/server/core/commands/search_cmd.py:326-329 | returns the fold of the exclude results; the excluded ids grow by what was absorbed before any exception; nothing else changes |
| ModelFilters.ModelFilter.Run | happypanda/server/core/commands/search_cmd.py:299-338 | a parse error propagates and leaves the id sets unchanged; otherwise the fields settle as `Settled` says, including the matched ids that an earlier call made one set with the included ids; on a fresh instance the result is `Filtered`, the included ids minus the excluded ids |
| ModelFilters.FreshSettlesWhen | happypanda/server/core/commands/search_cmd.py:309-338 | from empty id sets, the settled result equals `Filtered` |
| ModelFilters.SettledAliases | happypanda/server/core/commands/search_cmd.py:319-334 | after a call, the matched and included ids are one set exactly when this or an earlier call returned; then the matched ids also take in what a raising call absorbed; otherwise a raising call leaves them unchanged |
| ModelFilters.ReusedInstanceMatchedGrows | happypanda/server/core/commands/search_cmd.py:319-334 | on an instance whose first call returned {1}, a call whose includers return {2} and then raise leaves the matched ids {1, 2} |
| Scenarios.RedNotBlueParses | happypanda/server/core/commands/search_cmd.py:102-112 | the default parser alone reads `red -blue` as `{red, -blue}` |
| Scenarios.RedNotBlueTerms | happypanda/server/core/commands/search_cmd.py:309-317 | the default `separate` makes `red` the include term and `blue` the exclude term |
| Scenarios.StubMatches | happypanda/server/core/commands/search_cmd.py:274-289 | `_match` for Tag and one term returns what the catalogue stub gives for it |
| Scenarios.RedNotBlue | happypanda/server/core/commands/search_cmd.py:299-338 | with `_match` as intended, for Tag and `red -blue`, with a stub where `red` matches 1, 2 and 3 and `blue` matches 4, the result is `{1, 2, 3}` in any iteration order |
| Scenarios.EmptyFilterEndToEnd | happypanda/server/core/commands/search_cmd.py:299-338 | the empty filter parses to no atoms and, with `_match` as intended, matches nothing, for any model |

## Left out

- Events: `parsed`, `matched`, `included` and `excluded` (lines 114, 199, 324, 331 and 336) only notify observers, so they are not modelled.
- The command framework (`CommandEntry`, `plg.all()`, `call_capture`, `Command.run`) is not part of this model.
  - Which implementations run, and in what order, is a parameter: the sequence the caller supplies.
  - That covers default inclusion, registration order and capture matching (`_match_gallery` for Gallery, `_match_models` for the default models).
  - `ModelFilter.Run` calls `ParseSearchFilter.Run` directly where the source calls `run`, which runs `main`.
- `database_cmd.GetModel` and the `db` classes are not part of this model.
  - A model is a datatype constructor, and its name is `Db.Name`.
  - Looking a name up is `Db.ModelNamed`; an unknown name gives `UnknownModel`.
  - The database substring matching is not in this code: the default matchers return empty sets.
  - Only the 14 classes that the source names are modelled. A `db.Base` class the source does not name is not modelled; PartialFilter would treat it as it treats User and raise the unsupported-model error whenever there is a term.
- `assert isinstance(model, db.Base)` (line 300) is assumed to pass. `main` reads `model.__name__` (line 303), so `model` is a class; whether the assert accepts a class depends on `db.Base`, which is not part of this model. Every model here is a `Model` constructor, and no path raises AssertionError.
- OperatorFilter is a subclass of PartialFilter. Here it is its own class, with the same fields plus `ops`; Dafny classes here have no inheritance.
- OperatorFilter's code after `return None` (lines 228-235) never runs, and neither do its `operators`, `accept` and `match` entries, so none of them is modelled.
- ModelFilters.ModelFilter.Include: assumes `plg.all()` runs the `include` implementations one at a time and lets each one's exception through unchanged, so the ids returned before a raising implementation stay in `includedIds`, and in `matchedIds` when the two are one set. A dispatcher that builds the whole result sequence before the loop reads it would leave both sets unchanged when an implementation raises; one that wraps the failure would raise `ExtensionExecutionError` instead of the implementation's own error.
- ModelFilters.ModelFilter.Exclude: rests on the same assumption about `plg.all()`. Under an eager dispatcher `excludedIds` would stay unchanged when an implementation raises; under a wrapping one the error would be `ExtensionExecutionError`.
- ModelFilters.ReusedInstanceMatchedGrows: the matched ids {1, 2} after a raising call follow from the same assumption. Under an eager dispatcher they would stay {1}.
- ModelFilters.AsWrittenAlwaysRaises: it assumes that the `include` dispatch runs the default `_include`. Lines 314, 321 and 328 call a bare `plg.all()`, while lines 109, 189 and 232 pass `default=True`, and whether a bare call includes the default depends on the framework, which is not part of this model. If it does not, no TypeError arises, and with no other implementation registered `main` returns the empty set. The same holds for the default `_separate` (line 314) and for the default matchers at line 196, which `DefaultTerms`, `DefaultsMatchNothing` and the scenarios pass in as parameters. Under a dispatcher that wraps failures, the TypeError would reach the caller as `ExtensionExecutionError`, and so would an IndexError raised by the parser's implementations.
- PartialFilters.PartialFilter.Run: a `models` or `match_model` implementation that raises is not modelled, because those results are plain values.
- ModelFilters.Match: because of the above, `Match` never raises because a `models` or `match_model` implementation raises. It still returns PartialFilter's unsupported-model error.
- ModelFilters.SeparateAll: a `separate` implementation that raises inside the loop at line 314 is not modelled. A `Separator` is a plain function, so it cannot fail.
- The order of tuples is left open:
  - `tuple(pieces)` (line 112) and the order of bracket atoms (line 86) follow Python's set iteration order;
  - `ToTuple` and the loops over sets may pick any order, and every contract holds for all of them.
- `_get_terms` returns a tuple that may repeat an atom. Its only consumer, `ParseSearchFilter.main`, adds the atoms to a set, so `Terms` is a set.
- The `UnsupportedModel` error carries the model. The CoreError message text is not modelled.
- The model follows the code, including behaviour that its comments and its query grammar do not suggest:
  - A comma inside quotes is dropped from the piece (line 78): it does not split and is not copied.
  - An atom is the namespace text followed by the tag, with no `:` added. So `tag["a"]` gives `taga`.
  - The `-` of an excluded tag is not doubled when the namespace already starts with `-` (line 90).
  - An excluded tag under the empty namespace raises IndexError (line 90).
  - The final piece is flushed by the last character, not after the end. So a piece inside an unterminated quote is lost.
  - `main` leaves the included ids equal to the matched ids (lines 333-334), so they lose the excluded ids too. `Settled` states this.
- Integers are unbounded: ids are `int`, and the quote and bracket levels are `int`, as in Python.

## Findings

| source | as written | input that shows it | evidently intended | confidence | as-written member | corrected member |
|---|---|---|---|---|---|---|
| happypanda/server/core/commands/search_cmd.py:274-297 | `_match` is a `@classmethod` with parameters `(model_name, pieces)`, so `ModelFilter._match(model_name, pieces)` passes the class plus two arguments to two parameters and raises TypeError before any term is read | `ModelFilter.main(db.Tag, "")`, or any other filter, when the `include` dispatch runs the default `_include` | `_match` runs its per-term loop (a `@staticmethod`, or a classmethod with a `cls` parameter), so the empty filter matches nothing | high; not executed | ModelFilters.AsWrittenAlwaysRaises | ModelFilters.EmptyFilterMatchesNothing |

`MatchAsWritten` models the as-written `include` implementation. `Matching`, specified by `MatchSpec` and implemented by the method `Match`, is the corrected one, and the rest of the model uses it.
