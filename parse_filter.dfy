// ParseSearchFilter: the tokenizer that turns a free-text search filter into
// `ns:tag` atoms (happypanda/server/core/commands/search_cmd.py:10-116).
//
// The scan is specified one character at a time by Step, and Scan folds Step
// over a prefix of the term; GetTerms is the loop the source runs, proved to
// compute Terms.

module ParseFilter {
  import opened Wrappers
  import opened Dispatch

  /** Characters never copied into a piece buffer. */
  const Blacklist: set<char> := {'[', ']', '"', ','}

  predicate Clean(s: string)
  {
    forall i :: 0 <= i < |s| ==> s[i] !in Blacklist
  }

  predicate NoSpace(s: string)
  {
    forall i :: 0 <= i < |s| ==> s[i] != ' '
  }

  predicate StartsWith(s: string, prefix: string)
  {
    |prefix| <= |s| && s[..|prefix|] == prefix
  }

  /** An excluded piece, tag or atom: it starts with `-`. */
  predicate Marked(s: string)
  {
    |s| > 0 && s[0] == '-'
  }

  /** The variables of the scanning loop. */
  datatype ScanState = ScanState(
    pieces: seq<string>,                       // atoms outside brackets, in order
    piece: string,                             // the buffer being filled
    quoteLevel: int,
    bracketLevel: int,
    bracketsTags: map<string, set<string>>,    // bracket namespace to the tags collected under it
    currentNs: string,                         // the namespace of the last `[`
    endOfBracket: bool)

  const Start := ScanState([], "", 0, 0, map[], "", false)

  /**
   * Flushing the buffer, whose text is now `p`: a non-empty piece goes to the
   * tag set of the current bracket namespace (without that namespace as a
   * prefix, and silently nowhere when no `[` was ever seen) while a bracket is
   * open or has just closed, and to the flat atoms otherwise.
   */
  function Flush(st: ScanState, p: string): ScanState
  {
    if p == "" then st.(piece := "")
    else if st.bracketLevel > 0 || st.endOfBracket then
      var tag := if StartsWith(p, st.currentNs) then p[|st.currentNs|..] else p;
      var tags :=
        if tag != "" && st.currentNs in st.bracketsTags
        then st.bracketsTags[st.currentNs := st.bracketsTags[st.currentNs] + {tag}]
        else st.bracketsTags;
      st.(piece := "", bracketsTags := tags, endOfBracket := false)
    else
      st.(pieces := st.pieces + [p], piece := "")
  }

  /** The bracket bookkeeping of one iteration: `[` opens a group named by the buffer, `]` closes one. */
  function Bracket(st: ScanState, x: char): ScanState
  {
    if x == '[' then
      st.(bracketLevel := st.bracketLevel + 1, bracketsTags := st.bracketsTags[st.piece := {}], currentNs := st.piece)
    else if x == ']' then
      st.(bracketLevel := st.bracketLevel - 1, endOfBracket := true)
    else st
  }

  /** The quote bookkeeping of one iteration: `"` toggles the quote level. */
  function Quote(st: ScanState, x: char): ScanState
  {
    if x == '"' then st.(quoteLevel := if st.quoteLevel > 0 then st.quoteLevel - 1 else st.quoteLevel + 1)
    else st
  }

  /**
   * The rest of one iteration: outside quotes, a space, a comma or the last
   * character flushes the buffer (the last character joining it first unless
   * it is blacklisted or a space); otherwise `x` is copied into the buffer
   * unless it is blacklisted, or a space outside quotes.
   */
  function Consume(st: ScanState, x: char, last: bool): ScanState
  {
    if (x == ' ' || x == ',' || last) && st.quoteLevel == 0 then
      Flush(st, if last && x !in Blacklist && x != ' ' then st.piece + [x] else st.piece)
    else if x !in Blacklist && (st.quoteLevel > 0 || x != ' ') then
      st.(piece := st.piece + [x])
    else
      st
  }

  /** One iteration of the scanning loop, on character `x`; `last` tells whether it is the term's last character. */
  function Step(st: ScanState, x: char, last: bool): ScanState
  {
    Consume(Quote(Bracket(st, x), x), x, last)
  }

  /** The loop variables after the first `n` characters of `term`. */
  function Scan(term: string, n: nat): ScanState
    requires n <= |term|
  {
    if n == 0 then Start
    else Step(Scan(term, n - 1), term[n - 1], n == |term|)
  }

  /** Expanding a bracket tag indexes `tag[0]`, and `ns[0]` when the tag is excluded: these raise IndexError on "". */
  predicate Crashes(ns: string, tag: string)
  {
    tag == "" || (tag[0] == '-' && ns == "")
  }

  /** The atom for tag `tag` collected under namespace `ns`; an exclusion `-` on the tag moves to the front of the atom. */
  function Atom(ns: string, tag: string): string
    requires !Crashes(ns, tag)
  {
    if tag[0] == '-' then (if ns[0] != '-' then "-" + ns else ns) + tag[1..]
    else ns + tag
  }

  function TagAtoms(ns: string, tags: set<string>): set<string>
  {
    set tag | tag in tags && !Crashes(ns, tag) :: Atom(ns, tag)
  }

  /** The atoms of the namespaces in `keys`. */
  function AtomsOf(m: map<string, set<string>>, keys: set<string>): set<string>
  {
    set ns, tag | ns in keys && ns in m && tag in m[ns] && !Crashes(ns, tag) :: Atom(ns, tag)
  }

  predicate CrashesIn(m: map<string, set<string>>)
  {
    exists ns, tag :: ns in m && tag in m[ns] && Crashes(ns, tag)
  }

  /** Expanding every collected bracket group; any tag whose expansion raises makes the whole parse raise. */
  function Expand(m: map<string, set<string>>): Outcome<set<string>>
  {
    if CrashesIn(m) then Err(IndexError) else Ok(AtomsOf(m, m.Keys))
  }

  /** The parse result once the whole filter is scanned: the flat atoms and the expanded bracket atoms. */
  function Finish(st: ScanState): Outcome<set<string>>
  {
    match Expand(st.bracketsTags)
    case Err(e) => Err(e)
    case Ok(atoms) => Ok((set p | p in st.pieces) + atoms)
  }

  /** What the default `parse` implementation returns for `term`, as a set of atoms. */
  function Terms(term: string): Outcome<set<string>>
  {
    Finish(Scan(term, |term|))
  }

  lemma AtomsOfAddKey(m: map<string, set<string>>, keys: set<string>, ns: string)
    requires ns in m
    ensures AtomsOf(m, keys + {ns}) == AtomsOf(m, keys) + TagAtoms(ns, m[ns])
  {
  }

  lemma TagAtomsAdd(ns: string, tags: set<string>, tag: string)
    requires !Crashes(ns, tag)
    ensures TagAtoms(ns, tags + {tag}) == TagAtoms(ns, tags) + {Atom(ns, tag)}
  {
  }

  /** The loop that expands the bracket groups (search_cmd.py:85-98), in whatever order the sets are iterated. */
  method ExpandTags(m: map<string, set<string>>) returns (r: Outcome<set<string>>)
    ensures r == Expand(m)
  {
    var atoms: set<string> := {};
    var keys := m.Keys;
    ghost var done: set<string> := {};
    while keys != {}
      invariant keys + done == m.Keys && keys !! done
      invariant atoms == AtomsOf(m, done)
      invariant forall ns, tag :: ns in done && tag in m[ns] ==> !Crashes(ns, tag)
      decreases keys
    {
      var ns :| ns in keys;
      var tags := m[ns];
      ghost var seen: set<string> := {};
      while tags != {}
        invariant tags + seen == m[ns] && tags !! seen
        invariant atoms == AtomsOf(m, done) + TagAtoms(ns, seen)
        invariant forall tag :: tag in seen ==> !Crashes(ns, tag)
        decreases tags
      {
        var tag :| tag in tags;
        if |tag| == 0 || (tag[0] == '-' && |ns| == 0) {
          assert ns in m && tag in m[ns] && Crashes(ns, tag);
          return Err(IndexError);
        }
        var nsTag := ns;
        var rest := tag;
        if tag[0] == '-' {
          if nsTag[0] != '-' {
            nsTag := "-" + ns;
          }
          rest := tag[1..];
        }
        nsTag := nsTag + rest;
        TagAtomsAdd(ns, seen, tag);
        atoms := atoms + {nsTag};
        tags := tags - {tag};
        seen := seen + {tag};
      }
      AtomsOfAddKey(m, done, ns);
      keys := keys - {ns};
      done := done + {ns};
    }
    assert done == m.Keys;
    return Ok(atoms);
  }

  /** `_get_terms`: the default implementation of the `parse` entry (search_cmd.py:26-100). */
  method GetTerms(term: string) returns (r: Outcome<set<string>>)
    ensures r == Terms(term)
  {
    var pieces: seq<string> := [];
    var piece := "";
    var quoteLevel := 0;
    var bracketLevel := 0;
    var bracketsTags: map<string, set<string>> := map[];
    var currentNs := "";
    var endOfBracket := false;
    var n := 0;
    while n < |term|
      invariant 0 <= n <= |term|
      invariant ScanState(pieces, piece, quoteLevel, bracketLevel, bracketsTags, currentNs, endOfBracket) == Scan(term, n)
    {
      var x := term[n];
      ghost var before := Scan(term, n);
      if x == '[' {
        bracketLevel := bracketLevel + 1;
        bracketsTags := bracketsTags[piece := {}];
        currentNs := piece;
      } else if x == ']' {
        bracketLevel := bracketLevel - 1;
        endOfBracket := true;
      }
      ghost var bracketed := ScanState(pieces, piece, quoteLevel, bracketLevel, bracketsTags, currentNs, endOfBracket);
      assert bracketed == Bracket(before, x);
      if x == '"' {
        if quoteLevel > 0 {
          quoteLevel := quoteLevel - 1;
        } else {
          quoteLevel := quoteLevel + 1;
        }
      }
      ghost var quoted := ScanState(pieces, piece, quoteLevel, bracketLevel, bracketsTags, currentNs, endOfBracket);
      assert quoted == Quote(bracketed, x);
      if (x == ' ' || x == ',' || n == |term| - 1) && quoteLevel == 0 {
        if n == |term| - 1 && x !in Blacklist && x != ' ' {
          piece := piece + [x];
        }
        ghost var flushed := piece;
        if piece != "" {
          if bracketLevel > 0 || endOfBracket {
            endOfBracket := false;
            if StartsWith(piece, currentNs) {
              piece := piece[|currentNs|..];
            }
            // a KeyError here (a `]` before any `[`) is swallowed
            if piece != "" && currentNs in bracketsTags {
              bracketsTags := bracketsTags[currentNs := bracketsTags[currentNs] + {piece}];
            }
          } else {
            pieces := pieces + [piece];
          }
        }
        piece := "";
        assert ScanState(pieces, piece, quoteLevel, bracketLevel, bracketsTags, currentNs, endOfBracket) == Flush(quoted, flushed);
      } else if x !in Blacklist {
        if quoteLevel > 0 {
          piece := piece + [x];
        } else if x != ' ' {
          piece := piece + [x];
        }
      }
      assert ScanState(pieces, piece, quoteLevel, bracketLevel, bracketsTags, currentNs, endOfBracket) == Consume(quoted, x, n == |term| - 1);
      assert Scan(term, n + 1) == Step(before, x, n + 1 == |term|);
      n := n + 1;
    }
    var atoms := ExpandTags(bracketsTags);
    match atoms
    case Err(e) =>
      r := Err(e);
    case Ok(bracketAtoms) =>
      r := Ok((set p | p in pieces) + bracketAtoms);
  }

  /** An implementation of the `parse` entry: a filter text to its atoms, or an exception. */
  type Parser = string -> Outcome<set<string>>

  /** The default implementation of the `parse` entry. */
  const DefaultParser: Parser := text => Terms(text)

  /** What the parse entry's implementations return for `text`, in the order they run. */
  function ParseResults(parsers: seq<Parser>, text: string): seq<Outcome<set<string>>>
  {
    seq(|parsers|, i requires 0 <= i < |parsers| => parsers[i](text))
  }

  /** `t` lists the elements of `s`, each once. */
  ghost predicate Enumerates(t: seq<string>, s: set<string>)
  {
    (forall x :: x in t <==> x in s) && forall i, j :: 0 <= i < j < |t| ==> t[i] != t[j]
  }

  /** `tuple(pieces)` of a set: its elements in the order the set is iterated. */
  method ToTuple(s: set<string>) returns (t: seq<string>)
    ensures Enumerates(t, s) && |t| == |s|
  {
    t := [];
    var rest := s;
    while rest != {}
      invariant rest <= s
      invariant forall x :: x in t <==> x in s && x !in rest
      invariant forall i, j :: 0 <= i < j < |t| ==> t[i] != t[j]
      invariant |t| + |rest| == |s|
      decreases rest
    {
      var x :| x in rest;
      t := t + [x];
      rest := rest - {x};
    }
  }

  /** The ParseSearchFilter command (search_cmd.py:10-116). */
  class ParseSearchFilter {
    var filter: string
    var pieces: seq<string>

    constructor ()
      ensures filter == "" && pieces == []
    {
      filter := "";
      pieces := [];
    }

    /**
     * `main`: runs every implementation of the `parse` entry on the filter and
     * stores the union of their atoms, each once, as `pieces`. The `parsed`
     * event it emits is not modelled.
     */
    method Run(searchFilter: string, parsers: seq<Parser>) returns (r: Outcome<seq<string>>)
      modifies this
      ensures filter == searchFilter
      ensures Collect(ParseResults(parsers, searchFilter)).Err? ==>
        r == Err(Collect(ParseResults(parsers, searchFilter)).error) && pieces == old(pieces)
      ensures Collect(ParseResults(parsers, searchFilter)).Ok? ==>
        r == Ok(pieces) && Enumerates(pieces, Collect(ParseResults(parsers, searchFilter)).value)
    {
      filter := searchFilter;
      ghost var results := ParseResults(parsers, searchFilter);
      var acc: set<string> := {};
      var i := 0;
      while i < |parsers|
        invariant 0 <= i <= |parsers|
        invariant filter == searchFilter && pieces == old(pieces)
        invariant Collect(results[..i]) == Ok(acc)
      {
        var p := parsers[i](searchFilter);
        assert results[..i + 1][..i] == results[..i];
        if p.Err? {
          CollectKeepsError(results, i + 1);
          return Err(p.error);
        }
        acc := acc + p.value;
        i := i + 1;
      }
      assert results[..i] == results;
      pieces := ToTuple(acc);
      r := Ok(pieces);
    }
  }
}
