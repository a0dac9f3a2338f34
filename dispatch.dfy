// How the search commands fold the results of an entry's implementations
// (`for p in plg.all(): acc.update(p)`), and the errors those calls raise.
// Which implementations an entry runs, and in what order, belongs to the
// command framework; here the caller supplies them in the order they run.

module Dispatch {
  import opened Wrappers
  import opened Db

  /** The exceptions the search pipeline raises. */
  datatype Error =
    | IndexError                  // `ns_tag[0]` or `tag[0]` on an empty string while expanding brackets
    | UnsupportedModel(model: Model)  // CoreError "Model '…' is not supported" from PartialFilter
    | UnknownModel(name: string)  // GetModel on a name no model class has
    | Raised(message: string)     // anything an extension's implementation raises

  type Outcome<T> = Result<T, Error>

  /**
   * Running the implementations in order and unioning what they return: the
   * first one that raises ends the loop and its exception propagates.
   */
  function Collect<T>(rs: seq<Outcome<set<T>>>): Outcome<set<T>>
  {
    if rs == [] then Ok({})
    else
      match Collect(rs[..|rs| - 1])
      case Err(e) => Err(e)
      case Ok(s) =>
        match rs[|rs| - 1]
        case Err(e) => Err(e)
        case Ok(t) => Ok(s + t)
  }

  /** What the accumulating field holds when Collect stops: the union of the results before the first exception. */
  function Absorbed<T>(rs: seq<Outcome<set<T>>>): set<T>
  {
    if rs == [] then {}
    else
      var init := rs[..|rs| - 1];
      if Collect(init).Err? || rs[|rs| - 1].Err? then Absorbed(init)
      else Absorbed(init) + rs[|rs| - 1].value
  }

  /** Collect fails exactly when some implementation raised, and then with the first exception raised. */
  lemma {:induction false} CollectFails<T>(rs: seq<Outcome<set<T>>>)
    ensures Collect(rs).Err? <==> exists i :: 0 <= i < |rs| && rs[i].Err?
    ensures Collect(rs).Err? ==>
      exists i :: 0 <= i < |rs| && rs[i] == Err(Collect(rs).error) && forall j :: 0 <= j < i ==> rs[j].Ok?
  {
    if rs != [] {
      var init := rs[..|rs| - 1];
      CollectFails(init);
      if Collect(init).Err? {
        var i :| 0 <= i < |init| && init[i] == Err(Collect(init).error) && forall j :: 0 <= j < i ==> init[j].Ok?;
        assert rs[i] == init[i];
      } else if exists i :: 0 <= i < |rs| && rs[i].Err? {
        var i :| 0 <= i < |rs| && rs[i].Err?;
        if i < |init| {
          assert init[i].Err?;
        }
      }
    }
  }

  /** When nothing raised, the result holds exactly what some implementation returned, and it is what was absorbed. */
  lemma {:induction false} CollectMembers<T>(rs: seq<Outcome<set<T>>>, x: T)
    requires Collect(rs).Ok?
    ensures forall i :: 0 <= i < |rs| ==> rs[i].Ok?
    ensures x in Collect(rs).value <==> exists i :: 0 <= i < |rs| && x in rs[i].value
    ensures Absorbed(rs) == Collect(rs).value
  {
    CollectFails(rs);
    if rs != [] {
      var init := rs[..|rs| - 1];
      CollectMembers(init, x);
      if x in Collect(init).value {
        var i :| 0 <= i < |init| && x in init[i].value;
        assert rs[i] == init[i];
      }
      if exists i :: 0 <= i < |rs| && x in rs[i].value {
        var i :| 0 <= i < |rs| && x in rs[i].value;
        if i < |init| {
          assert x in init[i].value;
        }
      }
    }
  }

  /** Once an implementation has raised, the ones after it change nothing. */
  lemma {:induction false} CollectKeepsError<T>(rs: seq<Outcome<set<T>>>, k: nat)
    requires k <= |rs| && Collect(rs[..k]).Err?
    ensures Collect(rs) == Collect(rs[..k])
  {
    if k < |rs| {
      assert rs[..|rs| - 1][..k] == rs[..k];
      CollectKeepsError(rs[..|rs| - 1], k);
    } else {
      assert rs[..k] == rs;
    }
  }

  /** Once an implementation has raised, the results after it are not absorbed either. */
  lemma {:induction false} AbsorbedStops<T>(rs: seq<Outcome<set<T>>>, k: nat)
    requires k <= |rs| && Collect(rs[..k]).Err?
    ensures Absorbed(rs) == Absorbed(rs[..k])
  {
    if k < |rs| {
      var init := rs[..|rs| - 1];
      assert init[..k] == rs[..k];
      CollectKeepsError(init, k);
      AbsorbedStops(init, k);
    } else {
      assert rs[..k] == rs;
    }
  }
}
