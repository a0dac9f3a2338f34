// Whole-pipeline scenarios: a filter parsed by the default tokenizer,
// separated by the default `separate` implementation and matched through
// `_match` against a catalogue stub.

module Scenarios {
  import opened Wrappers
  import opened Db
  import opened Dispatch
  import opened ParseFilter
  import opened ParseFilterFacts
  import opened ParseFilterExamples
  import opened PartialFilters
  import opened ModelFilters

  /** A catalogue stub for the Tag model: "red" matches items 1, 2 and 3, "blue" matches item 4. */
  const TagStub: Matcher := (m, term) =>
    if m == Tag && term == "red" then {1, 2, 3}
    else if m == Tag && term == "blue" then {4}
    else {}

  /** The default tokenizer alone reads `red -blue` as the two pieces `red` and `-blue`. */
  lemma RedNotBlueParses()
    ensures Collect(ParseResults([DefaultParser], "red -blue")) == Ok({"-blue", "red"})
  {
    var rs := ParseResults([DefaultParser], "red -blue");
    ExclusionExample("red -blue");
    assert rs == [Ok({"-blue", "red"})];
    assert rs[..0] == [];
    var none: set<string> := {};
    assert none + {"-blue", "red"} == {"-blue", "red"};
  }

  /** `-` followed by `x` spells `-blue` only for `x` = `blue`. */
  lemma MarkedBlue(x: string)
    ensures "-" + x == "-blue" <==> x == "blue"
  {
    if "-" + x == "-blue" {
      assert x == ("-" + x)[1..];
    }
  }

  /** The default separator splits the pieces of `red -blue` into the include term `red` and the exclude term `blue`. */
  lemma RedNotBlueTerms(pieces: seq<string>)
    requires Enumerates(pieces, {"-blue", "red"})
    ensures IncludeTerms(SeparateResults([DefaultSeparator], pieces)) == {"red"}
    ensures ExcludeTerms(SeparateResults([DefaultSeparator], pieces)) == {"blue"}
  {
    var rs := SeparateResults([DefaultSeparator], pieces);
    forall x
      ensures x in IncludeTerms(rs) <==> x == "red"
      ensures x in ExcludeTerms(rs) <==> x == "blue"
    {
      DefaultTerms(pieces, x);
      MarkedBlue(x);
    }
  }

  /** `_match` over the default models and the stub, for one term: the stub's ids for it. */
  lemma StubMatches(term: string)
    ensures Matching([DefaultModels], [TagStub])(Name(Tag), {term}) == Ok(TagStub(Tag, term))
  {
    NameRoundTrip(Tag);
    DefaultModelsCover(Tag);
    SupportedMembers([DefaultModels], Tag);
    var empty: set<string> := {};
    MatchedAllAdd(Tag, empty, term, [TagStub]);
    assert empty + {term} == {term};
    assert MatchedAll(Tag, empty, [TagStub]) == {};
    assert Matched(Tag, term, [TagStub]) == {} + TagStub(Tag, term);
    assert term in {term};
    assert MatchSpec(Name(Tag), {term}, [DefaultModels], [TagStub]) == Ok(MatchedAll(Tag, {term}, [TagStub]));
  }

  /**
   * `ModelFilter.main(Tag, "red -blue")` with the default parser, the default
   * separator and `_match` as intended, over the default models and the stub, whatever
   * order the parsed set is iterated in: the ids of `red`, none of which is
   * an id of `blue`.
   */
  lemma RedNotBlue(pieces: seq<string>)
    requires Collect(ParseResults([DefaultParser], "red -blue")).Ok?
    requires Enumerates(pieces, Collect(ParseResults([DefaultParser], "red -blue")).value)
    ensures Filtered(Name(Tag), pieces, [DefaultSeparator], [Matching([DefaultModels], [TagStub])], [Matching([DefaultModels], [TagStub])]) == Ok({1, 2, 3})
  {
    RedNotBlueParses();
    RedNotBlueTerms(pieces);
    StubMatches("red");
    StubMatches("blue");
    var matching := Matching([DefaultModels], [TagStub]);
    var inc := IncludeResults(Name(Tag), pieces, [DefaultSeparator], [matching]);
    var exc := ExcludeResults(Name(Tag), pieces, [DefaultSeparator], [matching]);
    assert inc == [Ok({1, 2, 3})] && inc[..0] == [];
    assert exc == [Ok({4})] && exc[..0] == [];
    var none: set<int> := {};
    assert none + {1, 2, 3} == {1, 2, 3} && none + {4} == {4};
    assert Collect(inc) == Ok({1, 2, 3});
    assert Collect(exc) == Ok({4});
    assert {1, 2, 3} - {4} == {1, 2, 3};
  }

  /** The empty filter parses to nothing and then, with `_match` as intended, matches nothing, for any model, models list and matchers. */
  lemma EmptyFilterEndToEnd(m: Model, pieces: seq<string>, modelsResults: seq<seq<Model>>, matchers: seq<Matcher>)
    requires Collect(ParseResults([DefaultParser], "")).Ok?
    requires Enumerates(pieces, Collect(ParseResults([DefaultParser], "")).value)
    ensures Collect(ParseResults([DefaultParser], "")) == Ok({})
    ensures Filtered(Name(m), pieces, [DefaultSeparator], [Matching(modelsResults, matchers)], [Matching(modelsResults, matchers)]) == Ok({})
  {
    EmptyFilter();
    var rs := ParseResults([DefaultParser], "");
    assert rs == [Ok({})] && rs[..0] == [];
    var none: set<string> := {};
    assert none + none == none;
    EmptyFilterMatchesNothing(m, pieces, modelsResults, matchers);
  }
}
