// ModelFilter: the full search of one model
// (happypanda/server/core/commands/search_cmd.py:237-338).
//
// Every entry ModelFilter dispatches is given as the implementations that run,
// in the order they run: separators map the parsed pieces to tuples,
// includers and excluders map a model name and a set of terms to ids.

module ModelFilters {
  import opened Wrappers
  import opened Db
  import opened Dispatch
  import opened ParseFilter
  import opened PartialFilters

  /** The pieces the default `separate` puts in the include tuple: the unmarked ones, unchanged, in order. */
  function Included(pieces: seq<string>): seq<string>
  {
    if pieces == [] then []
    else
      var p := pieces[|pieces| - 1];
      Included(pieces[..|pieces| - 1]) + (if Marked(p) then [] else [p])
  }

  /** The pieces the default `separate` puts in the exclude tuple: the marked ones without their `-`, in order. */
  function Excluded(pieces: seq<string>): seq<string>
  {
    if pieces == [] then []
    else
      var p := pieces[|pieces| - 1];
      Excluded(pieces[..|pieces| - 1]) + (if Marked(p) then [p[1..]] else [])
  }

  /** `_separate`, the default implementation of the `separate` entry (search_cmd.py:260-272). */
  method Separate(pieces: seq<string>) returns (includes: seq<string>, excludes: seq<string>)
    ensures includes == Included(pieces) && excludes == Excluded(pieces)
  {
    includes := [];
    excludes := [];
    var i := 0;
    while i < |pieces|
      invariant 0 <= i <= |pieces|
      invariant includes == Included(pieces[..i]) && excludes == Excluded(pieces[..i])
    {
      assert pieces[..i + 1][..i] == pieces[..i];
      var p := pieces[i];
      if |p| > 0 && p[0] == '-' {
        excludes := excludes + [p[1..]];
      } else {
        includes := includes + [p];
      }
      i := i + 1;
    }
    assert pieces[..i] == pieces;
  }

  /** Putting the `-` back on every excluded piece. */
  function Remarked(excluded: seq<string>): seq<string>
  {
    seq(|excluded|, i requires 0 <= i < |excluded| => "-" + excluded[i])
  }

  /** Separating a concatenation separates each part: the order of the input is kept in both tuples. */
  lemma {:induction false} SeparateConcat(a: seq<string>, b: seq<string>)
    ensures Included(a + b) == Included(a) + Included(b)
    ensures Excluded(a + b) == Excluded(a) + Excluded(b)
  {
    if b != [] {
      var b' := b[..|b| - 1];
      assert (a + b)[..|a + b| - 1] == a + b';
      SeparateConcat(a, b');
    } else {
      assert a + b == a;
    }
  }

  /** Every piece lands in exactly one tuple: unmarked in the include tuple, marked in the exclude tuple with one `-` removed. */
  lemma {:induction false} SeparatePartition(pieces: seq<string>)
    ensures |Included(pieces)| + |Excluded(pieces)| == |pieces|
    ensures multiset(Included(pieces)) + multiset(Remarked(Excluded(pieces))) == multiset(pieces)
    ensures forall p :: p in Included(pieces) ==> !Marked(p)
  {
    if pieces != [] {
      var init := pieces[..|pieces| - 1];
      var p := pieces[|pieces| - 1];
      SeparatePartition(init);
      assert pieces == init + [p];
      if Marked(p) {
        assert Remarked(Excluded(pieces)) == Remarked(Excluded(init)) + ["-" + p[1..]];
        assert "-" + p[1..] == p;
      } else {
        assert Remarked(Excluded(pieces)) == Remarked(Excluded(init));
      }
    }
  }

  /** Membership in the two tuples, in terms of the input pieces. */
  lemma {:induction false} SeparateMembers(pieces: seq<string>, x: string)
    ensures x in Included(pieces) <==> x in pieces && !Marked(x)
    ensures x in Excluded(pieces) <==> "-" + x in pieces
  {
    if pieces != [] {
      var init := pieces[..|pieces| - 1];
      var p := pieces[|pieces| - 1];
      SeparateMembers(init, x);
      assert pieces == init + [p];
      if Marked(p) {
        assert p == "-" + p[1..];
        if "-" + x == p {
          assert x == ("-" + x)[1..];
        }
      }
    }
  }

  /** An implementation of the `separate` entry: the parsed pieces to a tuple of tuples. */
  type Separator = seq<string> -> seq<seq<string>>

  /** The default separator returns the pair of the include and the exclude tuple. */
  const DefaultSeparator: Separator := pieces => [Included(pieces), Excluded(pieces)]

  function SeparateResults(separators: seq<Separator>, pieces: seq<string>): seq<seq<seq<string>>>
  {
    seq(|separators|, i requires 0 <= i < |separators| => separators[i](pieces))
  }

  /** The include terms: the union of the first tuple of every result that is a pair; other results are ignored. */
  function IncludeTerms(rs: seq<seq<seq<string>>>): set<string>
  {
    if rs == [] then {}
    else
      var p := rs[|rs| - 1];
      IncludeTerms(rs[..|rs| - 1]) + (if |p| == 2 then var first := p[0]; set x | x in first else {})
  }

  /** The exclude terms: the union of the second tuple of every result that is a pair. */
  function ExcludeTerms(rs: seq<seq<seq<string>>>): set<string>
  {
    if rs == [] then {}
    else
      var p := rs[|rs| - 1];
      ExcludeTerms(rs[..|rs| - 1]) + (if |p| == 2 then var second := p[1]; set x | x in second else {})
  }

  /** A term is included (excluded) exactly when some pair result lists it in its first (second) tuple. */
  lemma {:induction false} TermsMembers(rs: seq<seq<seq<string>>>, x: string)
    ensures x in IncludeTerms(rs) <==> exists i :: 0 <= i < |rs| && |rs[i]| == 2 && x in rs[i][0]
    ensures x in ExcludeTerms(rs) <==> exists i :: 0 <= i < |rs| && |rs[i]| == 2 && x in rs[i][1]
  {
    if rs != [] {
      var init := rs[..|rs| - 1];
      TermsMembers(init, x);
      if exists i :: 0 <= i < |rs| && |rs[i]| == 2 && x in rs[i][0] {
        var i :| 0 <= i < |rs| && |rs[i]| == 2 && x in rs[i][0];
        if i < |init| {
          assert init[i] == rs[i];
        }
      }
      if exists i :: 0 <= i < |rs| && |rs[i]| == 2 && x in rs[i][1] {
        var i :| 0 <= i < |rs| && |rs[i]| == 2 && x in rs[i][1];
        if i < |init| {
          assert init[i] == rs[i];
        }
      }
      if x in IncludeTerms(init) {
        var i :| 0 <= i < |init| && |init[i]| == 2 && x in init[i][0];
        assert rs[i] == init[i];
      }
      if x in ExcludeTerms(init) {
        var i :| 0 <= i < |init| && |init[i]| == 2 && x in init[i][1];
        assert rs[i] == init[i];
      }
    }
  }

  /** With the default separator alone, the include terms are the unmarked pieces and the exclude terms the marked ones without their `-`. */
  lemma DefaultTerms(pieces: seq<string>, x: string)
    ensures x in IncludeTerms(SeparateResults([DefaultSeparator], pieces)) <==> x in pieces && !Marked(x)
    ensures x in ExcludeTerms(SeparateResults([DefaultSeparator], pieces)) <==> "-" + x in pieces
  {
    var rs := SeparateResults([DefaultSeparator], pieces);
    assert rs == [[Included(pieces), Excluded(pieces)]];
    TermsMembers(rs, x);
    SeparateMembers(pieces, x);
  }

  /** An implementation of the `include` or `exclude` entry: a model name and terms to the ids they match. */
  type IdMatcher = (string, set<string>) -> Outcome<set<int>>

  function IdResults(matchers: seq<IdMatcher>, name: string, terms: set<string>): seq<Outcome<set<int>>>
  {
    seq(|matchers|, i requires 0 <= i < |matchers| => matchers[i](name, terms))
  }

  /** The ids some matcher returns for some term. */
  function MatchedAll(model: Model, terms: set<string>, matchers: seq<Matcher>): set<int>
  {
    set t, id | t in terms && id in Matched(model, t, matchers) :: id
  }

  lemma MatchedAllAdd(model: Model, terms: set<string>, t: string, matchers: seq<Matcher>)
    ensures MatchedAll(model, terms + {t}, matchers) == MatchedAll(model, terms, matchers) + Matched(model, t, matchers)
  {
    forall id | id in Matched(model, t, matchers)
      ensures id in MatchedAll(model, terms + {t}, matchers)
    {
      assert t in terms + {t};
    }
  }

  /**
   * The per-term rule of `_match` (search_cmd.py:276-289): the model is
   * looked up by name; then, for each term, OperatorFilter is asked first and
   * PartialFilter, one instance for all terms, answers whenever it declines.
   * With no terms nothing is asked, so even an unsupported model matches
   * nothing.
   */
  function MatchSpec(name: string, terms: set<string>, modelsResults: seq<seq<Model>>, matchers: seq<Matcher>): Outcome<set<int>>
  {
    match ModelNamed(name)
    case None => Err(UnknownModel(name))
    case Some(model) =>
      if terms == {} then Ok({})
      else if model !in Supported(modelsResults) then Err(UnsupportedModel(model))
      else Ok(MatchedAll(model, terms, matchers))
  }

  /** `_match` fails exactly for an unknown name, or for an unsupported model with some term; otherwise it returns exactly the ids a matcher returns for a term. */
  lemma MatchMeaning(name: string, terms: set<string>, modelsResults: seq<seq<Model>>, matchers: seq<Matcher>, id: int)
    ensures MatchSpec(name, terms, modelsResults, matchers).Err? <==>
      ModelNamed(name).None? || (terms != {} && forall i :: 0 <= i < |modelsResults| ==> ModelNamed(name).value !in modelsResults[i])
    ensures MatchSpec(name, terms, modelsResults, matchers).Ok? ==>
      (id in MatchSpec(name, terms, modelsResults, matchers).value <==>
        exists t, i :: t in terms && 0 <= i < |matchers| && id in matchers[i](ModelNamed(name).value, t))
  {
    if ModelNamed(name).Some? {
      var model := ModelNamed(name).value;
      SupportedMembers(modelsResults, model);
      if id in MatchedAll(model, terms, matchers) {
        var t :| t in terms && id in Matched(model, t, matchers);
        MatchedMembers(model, t, matchers, id);
      }
      if exists t, i :: t in terms && 0 <= i < |matchers| && id in matchers[i](model, t) {
        var t, i :| t in terms && 0 <= i < |matchers| && id in matchers[i](model, t);
        MatchedMembers(model, t, matchers, id);
      }
    }
  }

  /** `_match` as a loop over the terms, in whatever order the set is iterated. */
  method Match(name: string, terms: set<string>, modelsResults: seq<seq<Model>>, matchers: seq<Matcher>) returns (r: Outcome<set<int>>)
    ensures r == MatchSpec(name, terms, modelsResults, matchers)
  {
    var found := ModelNamed(name);
    if found.None? {
      return Err(UnknownModel(name));
    }
    var model := found.value;
    var operatorFilter := new OperatorFilter();
    var partialFilter := new PartialFilter();
    var matched: set<int> := {};
    var rest := terms;
    ghost var done: set<string> := {};
    while rest != {}
      invariant fresh(partialFilter)
      invariant rest + done == terms && rest !! done
      invariant partialFilter.supportedModels == if done == {} then {} else Supported(modelsResults)
      invariant done != {} ==> model in Supported(modelsResults)
      invariant matched == partialFilter.matchedIds == MatchedAll(model, done, matchers)
      decreases rest
    {
      var t :| t in rest;
      var m := operatorFilter.Run(model, t);
      var ids: set<int>;
      match m {
        case Some(v) =>
          ids := v;
        case None =>
          var res := partialFilter.Run(model, t, modelsResults, matchers);
          if res.Err? {
            return Err(res.error);
          }
          ids := res.value;
      }
      MatchedAllAdd(model, done, t, matchers);
      matched := matched + ids;
      rest := rest - {t};
      done := done + {t};
    }
    assert done == terms;
    return Ok(matched);
  }

  /** The default `include` and `exclude` implementations, `_include` and `_exclude`, both delegate to `_match`. */
  function Matching(modelsResults: seq<seq<Model>>, matchers: seq<Matcher>): IdMatcher
  {
    (name, terms) => MatchSpec(name, terms, modelsResults, matchers)
  }

  /**
   * What `_include` and `_exclude` do as written: `_match` is a classmethod
   * whose two parameters do not include the class, so the call passes three
   * arguments to two parameters and raises TypeError before any term is read.
   */
  const MatchAsWritten: IdMatcher := (name, terms) => Err(Raised("TypeError"))

  /** What the include implementations return for the include terms of `pieces`. */
  function IncludeResults(name: string, pieces: seq<string>, separators: seq<Separator>, includers: seq<IdMatcher>): seq<Outcome<set<int>>>
  {
    IdResults(includers, name, IncludeTerms(SeparateResults(separators, pieces)))
  }

  /** What the exclude implementations return for the exclude terms of `pieces`. */
  function ExcludeResults(name: string, pieces: seq<string>, separators: seq<Separator>, excluders: seq<IdMatcher>): seq<Outcome<set<int>>>
  {
    IdResults(excluders, name, ExcludeTerms(SeparateResults(separators, pieces)))
  }

  /** The result of `main` on a fresh ModelFilter, once the filter has been parsed into `pieces`. */
  function Filtered(name: string, pieces: seq<string>, separators: seq<Separator>, includers: seq<IdMatcher>, excluders: seq<IdMatcher>): Outcome<set<int>>
  {
    match Collect(IncludeResults(name, pieces, separators, includers))
    case Err(e) => Err(e)
    case Ok(included) =>
      match Collect(ExcludeResults(name, pieces, separators, excluders))
      case Err(e) => Err(e)
      case Ok(excluded) => Ok(included - excluded)
  }

  /** Exclusion wins: an id is returned exactly when some includer returns it and no excluder does. */
  lemma ExcludeWins(name: string, pieces: seq<string>, separators: seq<Separator>, includers: seq<IdMatcher>, excluders: seq<IdMatcher>, id: int)
    requires Filtered(name, pieces, separators, includers, excluders).Ok?
    ensures id in Filtered(name, pieces, separators, includers, excluders).value <==>
      (exists i :: 0 <= i < |includers| && IncludeResults(name, pieces, separators, includers)[i].Ok? &&
        id in IncludeResults(name, pieces, separators, includers)[i].value) &&
      forall j :: 0 <= j < |excluders| ==>
        ExcludeResults(name, pieces, separators, excluders)[j].Ok? &&
        id !in ExcludeResults(name, pieces, separators, excluders)[j].value
  {
    var inc := IncludeResults(name, pieces, separators, includers);
    var exc := ExcludeResults(name, pieces, separators, excluders);
    assert Collect(inc).Ok? && Collect(exc).Ok?;
    CollectMembers(inc, id);
    CollectMembers(exc, id);
  }

  /** `main` fails exactly when an includer raises, or when no includer raises and an excluder does; the first exception raised is the one reported. */
  lemma FilteredFails(name: string, pieces: seq<string>, separators: seq<Separator>, includers: seq<IdMatcher>, excluders: seq<IdMatcher>)
    ensures Filtered(name, pieces, separators, includers, excluders).Err? <==>
      (exists i :: 0 <= i < |includers| && IncludeResults(name, pieces, separators, includers)[i].Err?) ||
      (exists j :: 0 <= j < |excluders| && ExcludeResults(name, pieces, separators, excluders)[j].Err?)
    ensures Collect(IncludeResults(name, pieces, separators, includers)).Err? ==>
      Filtered(name, pieces, separators, includers, excluders) == Collect(IncludeResults(name, pieces, separators, includers))
  {
    var inc := IncludeResults(name, pieces, separators, includers);
    var exc := ExcludeResults(name, pieces, separators, excluders);
    CollectFails(inc);
    CollectFails(exc);
    if Collect(inc).Err? {
      assert Filtered(name, pieces, separators, includers, excluders) == Collect(inc);
    } else if Collect(exc).Err? {
      assert Filtered(name, pieces, separators, includers, excluders) == Collect(exc);
    } else {
      assert Filtered(name, pieces, separators, includers, excluders) == Ok(Collect(inc).value - Collect(exc).value);
    }
  }

  /** Separator results that are not pairs contribute nothing: dropping them does not change the terms. */
  lemma {:induction false} OnlyPairsCount(rs: seq<seq<seq<string>>>, other: seq<seq<string>>)
    requires |other| != 2
    ensures IncludeTerms(rs + [other]) == IncludeTerms(rs) && ExcludeTerms(rs + [other]) == ExcludeTerms(rs)
  {
    assert (rs + [other])[..|rs + [other]| - 1] == rs;
  }

  /** The filter with no pieces matches nothing, with the default separator and `_match` as its callers intend. */
  lemma EmptyFilterMatchesNothing(m: Model, pieces: seq<string>, modelsResults: seq<seq<Model>>, matchers: seq<Matcher>)
    requires Enumerates(pieces, {})
    ensures Filtered(Name(m), pieces, [DefaultSeparator], [Matching(modelsResults, matchers)], [Matching(modelsResults, matchers)]) == Ok({})
  {
    NameRoundTrip(m);
    var rs := SeparateResults([DefaultSeparator], pieces);
    forall x
      ensures x !in IncludeTerms(rs) && x !in ExcludeTerms(rs)
    {
      DefaultTerms(pieces, x);
    }
    assert IncludeTerms(rs) == {} && ExcludeTerms(rs) == {};
    var matching := Matching(modelsResults, matchers);
    assert matching(Name(m), {}) == Ok({});
    var inc := IdResults([matching], Name(m), {});
    assert inc == [Ok({})];
    assert inc[..0] == [];
    var none: set<int> := {};
    assert none + none == none;
    assert Collect(inc) == Ok({});
  }

  /** As written, every call of `main` that reaches the default `include` implementation raises TypeError, even for the empty filter. */
  lemma AsWrittenAlwaysRaises(name: string, pieces: seq<string>, separators: seq<Separator>, excluders: seq<IdMatcher>)
    ensures Filtered(name, pieces, separators, [MatchAsWritten], excluders) == Err(Raised("TypeError"))
  {
    var inc := IncludeResults(name, pieces, separators, [MatchAsWritten]);
    assert inc == [Err(Raised("TypeError"))];
    assert inc[..0] == [];
    assert Collect(inc) == Err(Raised("TypeError"));
  }

  /** The loop over the `separate` results (search_cmd.py:309-315): the union of the tuples of every pair. */
  method SeparateAll(separators: seq<Separator>, pieces: seq<string>) returns (includes: set<string>, excludes: set<string>)
    ensures includes == IncludeTerms(SeparateResults(separators, pieces))
    ensures excludes == ExcludeTerms(SeparateResults(separators, pieces))
  {
    includes := {};
    excludes := {};
    ghost var rs := SeparateResults(separators, pieces);
    var i := 0;
    while i < |separators|
      invariant 0 <= i <= |separators|
      invariant includes == IncludeTerms(rs[..i]) && excludes == ExcludeTerms(rs[..i])
    {
      assert rs[..i + 1][..i] == rs[..i];
      var p := separators[i](pieces);
      if |p| == 2 {
        var first := p[0];
        var second := p[1];
        includes := includes + set x | x in first;
        excludes := excludes + set x | x in second;
      }
      i := i + 1;
    }
    assert rs[..i] == rs;
  }

  /** The ModelFilter command (search_cmd.py:237-338). */
  class ModelFilter {
    var model: Option<Model>
    var parseFilter: ParseSearchFilter?
    var includedIds: set<int>
    var excludedIds: set<int>
    var matchedIds: set<int>
    /** Whether `matched_ids` and `included_ids` are one set object, as they are once a call of `main` has returned. */
    var aliased: bool

    /** Two id sets that are one object hold the same ids. */
    predicate Valid()
      reads this
    {
      aliased ==> matchedIds == includedIds
    }

    constructor ()
      ensures model == None && parseFilter == null && includedIds == {} && excludedIds == {} && matchedIds == {}
      ensures !aliased && Valid()
    {
      model := None;
      parseFilter := null;
      includedIds := {};
      excludedIds := {};
      matchedIds := {};
      aliased := false;
    }

    /**
     * The include loop (search_cmd.py:317-322): every result is added to the
     * included ids until one raises; matched ids that are the same object
     * grow with them.
     */
    method Include(name: string, terms: set<string>, includers: seq<IdMatcher>) returns (r: Outcome<set<int>>)
      requires Valid()
      modifies this
      ensures Valid() && aliased == old(aliased)
      ensures r == Collect(IdResults(includers, name, terms))
      ensures includedIds == old(includedIds) + Absorbed(IdResults(includers, name, terms))
      ensures matchedIds == if aliased then includedIds else old(matchedIds)
      ensures model == old(model) && parseFilter == old(parseFilter) && excludedIds == old(excludedIds)
    {
      ghost var results := IdResults(includers, name, terms);
      var acc: set<int> := {};
      var i := 0;
      while i < |includers|
        invariant 0 <= i <= |includers|
        invariant Collect(results[..i]) == Ok(acc)
        invariant includedIds == old(includedIds) + acc
        invariant matchedIds == if aliased then includedIds else old(matchedIds)
        invariant aliased == old(aliased)
        invariant model == old(model) && parseFilter == old(parseFilter) && excludedIds == old(excludedIds)
      {
        assert results[..i + 1][..i] == results[..i];
        var ids := includers[i](name, terms);
        if ids.Err? {
          CollectKeepsError(results, i + 1);
          CollectMembers(results[..i], 0);
          AbsorbedStops(results, i + 1);
          return Err(ids.error);
        }
        includedIds := includedIds + ids.value;
        if aliased {
          matchedIds := includedIds;
        }
        acc := acc + ids.value;
        i := i + 1;
      }
      assert results[..i] == results;
      CollectMembers(results, 0);
      r := Ok(acc);
    }

    /** The exclude loop (search_cmd.py:326-329): every result is added to the excluded ids until one raises. */
    method Exclude(name: string, terms: set<string>, excluders: seq<IdMatcher>) returns (r: Outcome<set<int>>)
      modifies this
      ensures r == Collect(IdResults(excluders, name, terms))
      ensures excludedIds == old(excludedIds) + Absorbed(IdResults(excluders, name, terms))
      ensures model == old(model) && parseFilter == old(parseFilter) && aliased == old(aliased)
      ensures includedIds == old(includedIds) && matchedIds == old(matchedIds)
    {
      ghost var results := IdResults(excluders, name, terms);
      var acc: set<int> := {};
      var i := 0;
      while i < |excluders|
        invariant 0 <= i <= |excluders|
        invariant Collect(results[..i]) == Ok(acc)
        invariant excludedIds == old(excludedIds) + acc
        invariant model == old(model) && parseFilter == old(parseFilter) && aliased == old(aliased)
        invariant includedIds == old(includedIds) && matchedIds == old(matchedIds)
      {
        assert results[..i + 1][..i] == results[..i];
        var ids := excluders[i](name, terms);
        if ids.Err? {
          CollectKeepsError(results, i + 1);
          CollectMembers(results[..i], 0);
          AbsorbedStops(results, i + 1);
          return Err(ids.error);
        }
        excludedIds := excludedIds + ids.value;
        acc := acc + ids.value;
        i := i + 1;
      }
      assert results[..i] == results;
      CollectMembers(results, 0);
      r := Ok(acc);
    }

    /**
     * `main`: parses the filter with a new ParseSearchFilter, unions the
     * terms of every pair the separators return, adds the ids of every
     * includer to the included set and of every excluder to the excluded
     * set, and removes the excluded from the included. The matched set
     * becomes the included set itself, so the included set loses the
     * excluded ids too, and a later call that adds to the included set adds
     * to the matched set. The `included`, `excluded` and `matched` events are
     * not modelled.
     */
    method Run(m: Model, searchFilter: string, parsers: seq<Parser>, separators: seq<Separator>, includers: seq<IdMatcher>, excluders: seq<IdMatcher>)
      returns (r: Outcome<set<int>>)
      requires Valid()
      modifies this
      ensures Valid()
      ensures model == Some(m) && parseFilter != null && fresh(parseFilter) && parseFilter.filter == searchFilter
      ensures Collect(ParseResults(parsers, searchFilter)).Err? ==>
        r == Err(Collect(ParseResults(parsers, searchFilter)).error) && aliased == old(aliased) &&
        includedIds == old(includedIds) && excludedIds == old(excludedIds) && matchedIds == old(matchedIds)
      ensures Collect(ParseResults(parsers, searchFilter)).Ok? ==>
        Enumerates(parseFilter.pieces, Collect(ParseResults(parsers, searchFilter)).value)
      ensures Collect(ParseResults(parsers, searchFilter)).Ok? ==>
        Settled(old(includedIds), old(excludedIds), old(matchedIds), old(aliased), includedIds, excludedIds, matchedIds, aliased,
          IncludeResults(Name(m), parseFilter.pieces, separators, includers),
          ExcludeResults(Name(m), parseFilter.pieces, separators, excluders), r)
      ensures Collect(ParseResults(parsers, searchFilter)).Ok? && old(includedIds) == {} && old(excludedIds) == {} ==>
        r == Filtered(Name(m), parseFilter.pieces, separators, includers, excluders)
    {
      model := Some(m);
      var name := Name(m);
      var parser := new ParseSearchFilter();
      parseFilter := parser;
      var parsed := parser.Run(searchFilter, parsers);
      if parsed.Err? {
        return Err(parsed.error);
      }
      var pieces := parsed.value;
      ghost var inc := IncludeResults(name, pieces, separators, includers);
      ghost var exc := ExcludeResults(name, pieces, separators, excluders);
      var includes, excludes := SeparateAll(separators, pieces);
      var included := Include(name, includes, includers);
      if included.Err? {
        r := Err(included.error);
        FreshSettlesWhen(old(includedIds), old(excludedIds), old(matchedIds), old(aliased), includedIds, excludedIds, matchedIds, aliased, name, pieces, separators, includers, excluders, r);
        return;
      }
      CollectMembers(inc, 0);
      var excluded := Exclude(name, excludes, excluders);
      if excluded.Err? {
        r := Err(excluded.error);
        FreshSettlesWhen(old(includedIds), old(excludedIds), old(matchedIds), old(aliased), includedIds, excludedIds, matchedIds, aliased, name, pieces, separators, includers, excluders, r);
        return;
      }
      CollectMembers(exc, 0);
      matchedIds := includedIds;
      aliased := true;
      matchedIds := matchedIds - excludedIds;
      includedIds := matchedIds;
      r := Ok(matchedIds);
      FreshSettlesWhen(old(includedIds), old(excludedIds), old(matchedIds), old(aliased), includedIds, excludedIds, matchedIds, aliased, name, pieces, separators, includers, excluders, r);
    }
  }

  /**
   * The fields `main` leaves and what it returns once the filter has parsed,
   * from the fields it started with and what the include and exclude
   * implementations return: the exception of the first one that raises, with
   * the ids absorbed before it (which the matched ids absorb too when they
   * are the included set); otherwise the union of the included ids minus the
   * union of the excluded ids, which the included and the matched ids both
   * become, as one set.
   */
  predicate Settled(included0: set<int>, excluded0: set<int>, matched0: set<int>, aliased0: bool,
                    included: set<int>, excluded: set<int>, matched: set<int>, aliased: bool,
                    inc: seq<Outcome<set<int>>>, exc: seq<Outcome<set<int>>>, r: Outcome<set<int>>)
  {
    if Collect(inc).Err? then
      r == Collect(inc) && included == included0 + Absorbed(inc) && excluded == excluded0 &&
      matched == (if aliased0 then included else matched0) && aliased == aliased0
    else if Collect(exc).Err? then
      r == Collect(exc) && included == included0 + Collect(inc).value &&
      excluded == excluded0 + Absorbed(exc) &&
      matched == (if aliased0 then included else matched0) && aliased == aliased0
    else
      r == Ok(matched) && excluded == excluded0 + Collect(exc).value &&
      matched == (included0 + Collect(inc).value) - excluded && included == matched && aliased
  }

  /** On a fresh ModelFilter, what `main` returns is Filtered. */
  lemma FreshSettlesWhen(included0: set<int>, excluded0: set<int>, matched0: set<int>, aliased0: bool,
                         included: set<int>, excluded: set<int>, matched: set<int>, aliased: bool, name: string, pieces: seq<string>,
                         separators: seq<Separator>, includers: seq<IdMatcher>, excluders: seq<IdMatcher>, r: Outcome<set<int>>)
    requires Settled(included0, excluded0, matched0, aliased0, included, excluded, matched, aliased,
      IncludeResults(name, pieces, separators, includers), ExcludeResults(name, pieces, separators, excluders), r)
    ensures included0 == {} && excluded0 == {} ==> r == Filtered(name, pieces, separators, includers, excluders)
  {
    var inc := IncludeResults(name, pieces, separators, includers);
    var exc := ExcludeResults(name, pieces, separators, excluders);
    if included0 == {} && excluded0 == {} && Collect(inc).Ok? && Collect(exc).Ok? {
      assert included0 + Collect(inc).value == Collect(inc).value;
      assert excluded0 + Collect(exc).value == Collect(exc).value;
      assert Filtered(name, pieces, separators, includers, excluders) == Ok(Collect(inc).value - Collect(exc).value);
    }
  }

  /**
   * Across calls on one instance: once a call has returned, the matched and
   * the included ids stay one set, so the matched ids also take in what a
   * later call's includers return before one of them raises.
   */
  lemma SettledAliases(included0: set<int>, excluded0: set<int>, matched0: set<int>, aliased0: bool,
                       included: set<int>, excluded: set<int>, matched: set<int>, aliased: bool,
                       inc: seq<Outcome<set<int>>>, exc: seq<Outcome<set<int>>>, r: Outcome<set<int>>)
    requires Settled(included0, excluded0, matched0, aliased0, included, excluded, matched, aliased, inc, exc, r)
    ensures aliased <==> aliased0 || r.Ok?
    ensures aliased ==> matched == included
    ensures aliased0 && Collect(inc).Err? ==> matched == included0 + Absorbed(inc)
    ensures !aliased0 && r.Err? ==> matched == matched0
  {
    if r.Ok? {
      assert Collect(inc).Ok?;
    }
  }

  /**
   * A second call on an instance whose first call returned {1}: its first
   * includer returns {2} and its second raises, so the matched ids become
   * {1, 2} although the call raised.
   */
  lemma ReusedInstanceMatchedGrows(excluded0: set<int>, included: set<int>, excluded: set<int>, matched: set<int>, aliased: bool,
                                   e: Error, exc: seq<Outcome<set<int>>>, r: Outcome<set<int>>)
    requires Settled({1}, excluded0, {1}, true, included, excluded, matched, aliased, [Ok({2}), Err(e)], exc, r)
    ensures r == Err(e) && matched == {1, 2} && included == matched
  {
    var inc: seq<Outcome<set<int>>> := [Ok({2}), Err(e)];
    CollectFails(inc);
    AbsorbedStops(inc, 2);
    assert inc[..1] == [Ok({2})];
    CollectMembers(inc[..1], 0);
  }
}
