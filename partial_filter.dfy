// PartialFilter and OperatorFilter: matching one search term against one
// model (happypanda/server/core/commands/search_cmd.py:118-235).
//
// The `models` entry takes no arguments, so the caller passes the tuples its
// implementations return. The `match_model` entry is called with the model
// and the term, so the caller passes the matchers that apply to the model,
// in the order they run.

module PartialFilters {
  import opened Wrappers
  import opened Db
  import opened Dispatch

  /** The default `models` implementation: every model class but User, despite the class documentation. */
  const DefaultModels: seq<Model> := [
    NamespaceTags, Tag, Namespace, Artist, Circle, Status, Grouping,
    Language, Category, Collection, Gallery, Title, GalleryUrl
  ]

  /** The default list names thirteen distinct models: every model except User. */
  lemma DefaultModelsCover(m: Model)
    ensures |DefaultModels| == 13
    ensures forall i, j :: 0 <= i < j < |DefaultModels| ==> DefaultModels[i] != DefaultModels[j]
    ensures m in DefaultModels <==> m != User
  {
    match m
    case User =>
    case NamespaceTags =>
      assert DefaultModels[0] == m;
    case Tag =>
      assert DefaultModels[1] == m;
    case Namespace =>
      assert DefaultModels[2] == m;
    case Artist =>
      assert DefaultModels[3] == m;
    case Circle =>
      assert DefaultModels[4] == m;
    case Status =>
      assert DefaultModels[5] == m;
    case Grouping =>
      assert DefaultModels[6] == m;
    case Language =>
      assert DefaultModels[7] == m;
    case Category =>
      assert DefaultModels[8] == m;
    case Collection =>
      assert DefaultModels[9] == m;
    case Gallery =>
      assert DefaultModels[10] == m;
    case Title =>
      assert DefaultModels[11] == m;
    case GalleryUrl =>
      assert DefaultModels[12] == m;
  }

  /** An implementation of the `match_model` entry: the ids of the items of a model that match a term. */
  type Matcher = (Model, string) -> set<int>

  /** The two default matchers, `_match_gallery` and `_match_models`: neither matches anything. */
  const MatchGallery: Matcher := (m, term) => {}
  const MatchModels: Matcher := (m, term) => {}

  /** The union of the model tuples the `models` implementations returned. */
  function Supported(rs: seq<seq<Model>>): set<Model>
  {
    if rs == [] then {}
    else
      var last := rs[|rs| - 1];
      Supported(rs[..|rs| - 1]) + (set m | m in last)
  }

  /** A model is supported exactly when some implementation of `models` lists it. */
  lemma {:induction false} SupportedMembers(rs: seq<seq<Model>>, m: Model)
    ensures m in Supported(rs) <==> exists i :: 0 <= i < |rs| && m in rs[i]
  {
    if rs != [] {
      var init := rs[..|rs| - 1];
      SupportedMembers(init, m);
      if m in Supported(init) {
        var i :| 0 <= i < |init| && m in init[i];
        assert rs[i] == init[i];
      }
      if exists i :: 0 <= i < |rs| && m in rs[i] {
        var i :| 0 <= i < |rs| && m in rs[i];
        if i < |init| {
          assert m in init[i];
        }
      }
    }
  }

  /** The union of what the matchers return for `model` and `term`. */
  function Matched(model: Model, term: string, matchers: seq<Matcher>): set<int>
  {
    if matchers == [] then {}
    else Matched(model, term, matchers[..|matchers| - 1]) + matchers[|matchers| - 1](model, term)
  }

  /** An id is matched exactly when some matcher returns it. */
  lemma {:induction false} MatchedMembers(model: Model, term: string, matchers: seq<Matcher>, id: int)
    ensures id in Matched(model, term, matchers) <==> exists i :: 0 <= i < |matchers| && id in matchers[i](model, term)
  {
    if matchers != [] {
      var init := matchers[..|matchers| - 1];
      MatchedMembers(model, term, init, id);
      if id in Matched(model, term, init) {
        var i :| 0 <= i < |init| && id in init[i](model, term);
        assert matchers[i] == init[i];
      }
      if exists i :: 0 <= i < |matchers| && id in matchers[i](model, term) {
        var i :| 0 <= i < |matchers| && id in matchers[i](model, term);
        if i < |init| {
          assert id in init[i](model, term);
        }
      }
    }
  }

  /** What `main` returns on a fresh PartialFilter. */
  function PartialResult(model: Model, term: string, modelsResults: seq<seq<Model>>, matchers: seq<Matcher>): Outcome<set<int>>
  {
    if model in Supported(modelsResults) then Ok(Matched(model, term, matchers))
    else Err(UnsupportedModel(model))
  }

  /** PartialFilter rejects exactly the models no `models` implementation lists, and otherwise returns exactly what some matcher returns. */
  lemma PartialResultMeaning(model: Model, term: string, modelsResults: seq<seq<Model>>, matchers: seq<Matcher>, id: int)
    ensures PartialResult(model, term, modelsResults, matchers) == Err(UnsupportedModel(model)) <==>
      forall i :: 0 <= i < |modelsResults| ==> model !in modelsResults[i]
    ensures PartialResult(model, term, modelsResults, matchers).Ok? ==>
      (id in PartialResult(model, term, modelsResults, matchers).value <==>
        exists i :: 0 <= i < |matchers| && id in matchers[i](model, term))
  {
    SupportedMembers(modelsResults, model);
    MatchedMembers(model, term, matchers, id);
  }

  /** With the default models and any of the default matchers, every model but User is supported and nothing matches. */
  lemma {:induction false} DefaultsMatchNothing(model: Model, term: string, matchers: seq<Matcher>)
    requires forall i :: 0 <= i < |matchers| ==> matchers[i] == MatchGallery || matchers[i] == MatchModels
    ensures PartialResult(model, term, [DefaultModels], matchers) ==
      if model == User then Err(UnsupportedModel(User)) else Ok({})
  {
    DefaultModelsCover(model);
    SupportedMembers([DefaultModels], model);
    DefaultMatchersEmpty(model, term, matchers);
  }

  lemma {:induction false} DefaultMatchersEmpty(model: Model, term: string, matchers: seq<Matcher>)
    requires forall i :: 0 <= i < |matchers| ==> matchers[i] == MatchGallery || matchers[i] == MatchModels
    ensures Matched(model, term, matchers) == {}
  {
    if matchers != [] {
      DefaultMatchersEmpty(model, term, matchers[..|matchers| - 1]);
    }
  }

  /** The PartialFilter command (search_cmd.py:118-201). */
  class PartialFilter {
    var model: Option<Model>
    var term: string
    var supportedModels: set<Model>
    var matchedIds: set<int>

    constructor ()
      ensures model == None && term == "" && supportedModels == {} && matchedIds == {}
    {
      model := None;
      term := "";
      supportedModels := {};
      matchedIds := {};
    }

    /**
     * `main`: adds every model the `models` implementations list to the
     * supported set, raises when `m` is not in it, and otherwise adds what
     * every matcher returns to the matched ids and returns them. Both sets
     * accumulate over calls on the same instance. The `matched` event is not
     * modelled.
     */
    method Run(m: Model, t: string, modelsResults: seq<seq<Model>>, matchers: seq<Matcher>) returns (r: Outcome<set<int>>)
      modifies this
      ensures model == Some(m) && term == t
      ensures supportedModels == old(supportedModels) + Supported(modelsResults)
      ensures m !in supportedModels ==> r == Err(UnsupportedModel(m)) && matchedIds == old(matchedIds)
      ensures m in supportedModels ==> matchedIds == old(matchedIds) + Matched(m, t, matchers) && r == Ok(matchedIds)
      ensures old(supportedModels) == {} && old(matchedIds) == {} ==> r == PartialResult(m, t, modelsResults, matchers)
    {
      model := Some(m);
      term := t;
      AddSupported(modelsResults);
      if m !in supportedModels {
        return Err(UnsupportedModel(m));
      }
      AddMatched(m, t, matchers);
      r := Ok(matchedIds);
      assert old(supportedModels) == {} ==> supportedModels == Supported(modelsResults);
      assert old(matchedIds) == {} ==> matchedIds == Matched(m, t, matchers);
    }

    /** The loop over the `models` results (search_cmd.py:188-190): each adds its models to the supported set. */
    method AddSupported(modelsResults: seq<seq<Model>>)
      modifies this
      ensures supportedModels == old(supportedModels) + Supported(modelsResults)
      ensures model == old(model) && term == old(term) && matchedIds == old(matchedIds)
    {
      var i := 0;
      while i < |modelsResults|
        invariant 0 <= i <= |modelsResults|
        invariant model == old(model) && term == old(term) && matchedIds == old(matchedIds)
        invariant supportedModels == old(supportedModels) + Supported(modelsResults[..i])
      {
        assert modelsResults[..i + 1][..i] == modelsResults[..i];
        var listed := modelsResults[i];
        supportedModels := supportedModels + set x | x in listed;
        i := i + 1;
      }
      assert modelsResults[..i] == modelsResults;
    }

    /** The loop over the `match_model` results (search_cmd.py:195-197): each adds its ids to the matched set. */
    method AddMatched(m: Model, t: string, matchers: seq<Matcher>)
      modifies this
      ensures matchedIds == old(matchedIds) + Matched(m, t, matchers)
      ensures model == old(model) && term == old(term) && supportedModels == old(supportedModels)
    {
      var j := 0;
      while j < |matchers|
        invariant 0 <= j <= |matchers|
        invariant model == old(model) && term == old(term) && supportedModels == old(supportedModels)
        invariant matchedIds == old(matchedIds) + Matched(m, t, matchers[..j])
      {
        assert matchers[..j + 1][..j] == matchers[..j];
        matchedIds := matchedIds + matchers[j](m, t);
        j := j + 1;
      }
      assert matchers[..j] == matchers;
    }
  }

  /** The OperatorFilter command (search_cmd.py:203-235). */
  class OperatorFilter {
    var model: Option<Model>
    var term: string
    var supportedModels: set<Model>
    var matchedIds: set<int>
    var ops: set<string>

    constructor ()
      ensures model == None && term == "" && supportedModels == {} && matchedIds == {} && ops == {}
    {
      model := None;
      term := "";
      supportedModels := {};
      matchedIds := {};
      ops := {};
    }

    /** `main` returns None at once: no term is ever handled by an operator, and nothing changes. */
    method Run(m: Model, t: string) returns (r: Option<set<int>>)
      ensures r == None
    {
      return None;
    }
  }
}
