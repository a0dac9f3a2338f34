// Scans of particular filters, evaluated one token at a time: the edge cases
// of the tokenizer in search_cmd.py:26-100 on concrete input.
//
// The first lemmas give the effect on the loop variables of a run of ordinary
// characters, of each special character and of each kind of flush. For each
// example, one lemma per token names the state the scan reaches; a `...Terms`
// lemma chains them for any filter with the example's characters, and the
// `...Example` lemma applies it to the literal filter.

module ParseFilterExamples {
  import opened Wrappers
  import opened Dispatch
  import opened ParseFilter
  import opened ParseFilterFacts

  // ----- the scan, several characters at a time -----

  /** The run `w` of ordinary characters from the state `prev`. */
  lemma CopyWord(t: string, k: nat, prev: ScanState, w: string)
    requires k + |w| <= |t| && (k + |w| < |t| || prev.quoteLevel > 0)
    requires Scan(t, k) == prev && t[k..k + |w|] == w
    requires forall i :: 0 <= i < |w| ==> w[i] !in Blacklist && (w[i] != ' ' || prev.quoteLevel > 0)
    ensures Scan(t, k + |w|) == prev.(piece := prev.piece + w)
  {
    assert forall i :: k <= i < k + |w| ==> t[i] == w[i - k];
    CopyRun(t, k, k + |w|);
  }

  /** A `[` that does not end the filter opens a group named by the buffer. */
  lemma OpenAt(t: string, k: nat, prev: ScanState)
    requires k + 1 < |t| && t[k] == '[' && Scan(t, k) == prev
    ensures Scan(t, k + 1) == prev.(bracketLevel := prev.bracketLevel + 1,
      bracketsTags := prev.bracketsTags[prev.piece := {}], currentNs := prev.piece)
  {
  }

  /** A `]` that does not end the filter closes a bracket and keeps the buffer. */
  lemma CloseAt(t: string, k: nat, prev: ScanState)
    requires k + 1 < |t| && t[k] == ']' && Scan(t, k) == prev
    ensures Scan(t, k + 1) == prev.(bracketLevel := prev.bracketLevel - 1, endOfBracket := true)
  {
  }

  /** A `"` that does not end the filter toggles the quote level. */
  lemma QuoteAt(t: string, k: nat, prev: ScanState)
    requires k + 1 < |t| && t[k] == '"' && Scan(t, k) == prev && 0 <= prev.quoteLevel <= 1
    ensures Scan(t, k + 1) == prev.(quoteLevel := 1 - prev.quoteLevel)
  {
  }

  /** A comma inside quotes changes nothing. */
  lemma DropAt(t: string, k: nat, prev: ScanState)
    requires k < |t| && t[k] == ',' && Scan(t, k) == prev && prev.quoteLevel > 0
    ensures Scan(t, k + 1) == prev
  {
    QuotedCommaDropped(prev, k + 1 == |t|);
  }

  /** An ordinary last character right after a flush becomes a flat piece of its own. */
  lemma LastLetter(t: string, ps: seq<string>)
    requires |t| > 0 && t[|t| - 1] !in Blacklist && t[|t| - 1] != ' '
    requires Scan(t, |t| - 1) == Start.(pieces := ps)
    ensures Scan(t, |t|) == Start.(pieces := ps + [[t[|t| - 1]]])
  {
    StepLastPlain(ps, "", t[|t| - 1]);
    assert "" + [t[|t| - 1]] == [t[|t| - 1]];
  }

  /** A `]` that ends the filter outside quotes closes a bracket and flushes the buffer into it. */
  lemma LastCloseAt(t: string, prev: ScanState)
    requires |t| > 0 && t[|t| - 1] == ']' && Scan(t, |t| - 1) == prev && prev.quoteLevel == 0
    ensures Scan(t, |t|) == Flush(prev.(bracketLevel := prev.bracketLevel - 1, endOfBracket := true), prev.piece)
  {
    var closed := prev.(bracketLevel := prev.bracketLevel - 1, endOfBracket := true);
    assert Bracket(prev, ']') == closed;
    assert Quote(closed, ']') == closed;
    assert Consume(closed, ']', true) == Flush(closed, closed.piece);
  }

  /** A `"` that ends the filter and closes a quote flushes the buffer. */
  lemma LastQuoteAt(t: string, prev: ScanState)
    requires |t| > 0 && t[|t| - 1] == '"' && Scan(t, |t| - 1) == prev && prev.quoteLevel == 1
    ensures Scan(t, |t|) == Flush(prev.(quoteLevel := 0), prev.piece)
  {
    ClosingQuoteFlushes(prev);
  }

  // ----- flushes -----

  /** Flushing an empty buffer only empties it. */
  lemma FlushEmpty(st: ScanState)
    ensures Flush(st, "") == st.(piece := "")
  {
  }

  /** Inside (or just after) a bracket a piece joins the current group, as `tag` once the namespace prefix is stripped. */
  lemma FlushGroup(st: ScanState, p: string, tag: string)
    requires p != "" && (st.bracketLevel > 0 || st.endOfBracket) && st.currentNs in st.bracketsTags
    requires tag != "" && tag == if StartsWith(p, st.currentNs) then p[|st.currentNs|..] else p
    ensures Flush(st, p) == st.(piece := "", endOfBracket := false,
      bracketsTags := st.bracketsTags[st.currentNs := st.bracketsTags[st.currentNs] + {tag}])
  {
  }

  /** Inside (or just after) a bracket, a piece is dropped when no `[` opened a group: the KeyError is swallowed. */
  lemma FlushDropped(st: ScanState, p: string)
    requires p != "" && (st.bracketLevel > 0 || st.endOfBracket) && st.currentNs !in st.bracketsTags
    ensures Flush(st, p) == st.(piece := "", endOfBracket := false)
  {
  }

  /** A piece whose first character differs from the namespace's does not start with it. */
  lemma NotPrefixed(p: string, ns: string)
    requires |p| > 0 && |ns| > 0 && p[0] != ns[0]
    ensures !StartsWith(p, ns)
  {
    if |ns| <= |p| {
      assert p[..|ns|][0] == p[0];
    }
  }

  /** A single group of two tags expands to the atoms of both. */
  lemma TwoTagGroup(ns: string, x: string, y: string)
    requires !Crashes(ns, x) && !Crashes(ns, y)
    ensures Expand(map[ns := {x, y}]) == Ok({Atom(ns, x), Atom(ns, y)})
  {
    ExpandSingle(map[ns := {x, y}], ns, {x, y});
    TagAtomsNone(ns);
    TagAtomsAdd(ns, {}, x);
    assert {x} == {} + {x};
    assert TagAtoms(ns, {x}) == {Atom(ns, x)};
    TagAtomsAdd(ns, {x}, y);
    assert {x, y} == {x} + {y};
    assert TagAtoms(ns, {x, y}) == {Atom(ns, x), Atom(ns, y)};
  }

  /** The atoms of a filter whose scan left no flat piece are those its bracket groups expand to. */
  lemma GroupTerms(t: string, s: ScanState, atoms: set<string>)
    requires Scan(t, |t|) == s && s.pieces == [] && Expand(s.bracketsTags) == Ok(atoms)
    ensures Terms(t) == Ok(atoms)
  {
    assert (set p | p in s.pieces) + atoms == atoms;
  }

  // ----- `foo] bar` -----

  /** `foo`, copied into the buffer. */
  lemma StrayCloseScan3(t: string)
    requires |t| == 8 && t[0..3] == "foo"
    ensures Scan(t, 3) == ScanState([], "foo", 0, 0, map[], "", false)
  {
    assert Start.piece + "foo" == "foo";
    CopyWord(t, 0, Start, "foo");
  }

  /** `]` and the space: `]` marks the end of a bracket never opened, so the flush drops `foo`. */
  lemma StrayCloseScan5(t: string)
    requires |t| == 8 && t[3] == ']' && t[4] == ' '
    requires Scan(t, 3) == ScanState([], "foo", 0, 0, map[], "", false)
    ensures Scan(t, 5) == ScanState([], "", 0, -1, map[], "", false)
  {
    var s3 := ScanState([], "foo", 0, 0, map[], "", false);
    CloseAt(t, 3, s3);
    var s4 := s3.(bracketLevel := -1, endOfBracket := true);
    SplitAt(t, 4, s4);
    FlushDropped(s4, "foo");
  }

  /** `ba`, copied into the buffer. */
  lemma StrayCloseScan7(t: string)
    requires |t| == 8 && t[5..7] == "ba"
    requires Scan(t, 5) == ScanState([], "", 0, -1, map[], "", false)
    ensures Scan(t, 7) == ScanState([], "ba", 0, -1, map[], "", false)
  {
    var s5 := ScanState([], "", 0, -1, map[], "", false);
    assert s5.piece + "ba" == "ba";
    CopyWord(t, 5, s5, "ba");
  }

  /** `r` ends the filter: the flag is clear again, so `bar` becomes an atom. */
  lemma StrayCloseScan8(t: string)
    requires |t| == 8 && t[7] == 'r'
    requires Scan(t, 7) == ScanState([], "ba", 0, -1, map[], "", false)
    ensures Scan(t, |t|) == ScanState(["bar"], "", 0, -1, map[], "", false)
  {
    var s7 := ScanState([], "ba", 0, -1, map[], "", false);
    assert s7.piece + ['r'] == "bar";
    LastAt(t, s7);
    FlushFlat(s7, "bar");
    assert s7.pieces + ["bar"] == ["bar"];
  }

  /** Any filter spelled `foo] bar`, walked one character or run at a time. */
  lemma StrayCloseTerms(t: string)
    requires |t| == 8 && t[0..3] == "foo" && t[3] == ']' && t[4] == ' ' && t[5..7] == "ba"
    requires t[7] == 'r'
    ensures Terms(t) == Ok({"bar"})
  {
    StrayCloseScan3(t);
    StrayCloseScan5(t);
    StrayCloseScan7(t);
    StrayCloseScan8(t);
    var s := ScanState(["bar"], "", 0, -1, map[], "", false);
    FlatTerms(t, s);
    assert (set p | p in s.pieces) == {"bar"};
  }

  /** A `]` before any `[` drops the piece it ends; later pieces are unaffected. */
  lemma StrayCloseExample(t: string)
    requires t == "foo] bar"
    ensures Terms(t) == Ok({"bar"})
  {
    StrayCloseTerms(t);
  }

  // ----- `artist:"name"` -----

  /** `artist:` and the opening quote. */
  lemma ClientQueryScan8(t: string)
    requires |t| == 13 && t[0..7] == "artist:" && t[7] == '"'
    ensures Scan(t, 8) == ScanState([], "artist:", 1, 0, map[], "", false)
  {
    assert Start.piece + "artist:" == "artist:";
    CopyWord(t, 0, Start, "artist:");
    QuoteAt(t, 7, Start.(piece := "artist:"));
  }

  /** `name`, copied inside the quotes. */
  lemma ClientQueryScan12(t: string)
    requires |t| == 13 && t[8..12] == "name"
    requires Scan(t, 8) == ScanState([], "artist:", 1, 0, map[], "", false)
    ensures Scan(t, 12) == ScanState([], "artist:name", 1, 0, map[], "", false)
  {
    var s8 := ScanState([], "artist:", 1, 0, map[], "", false);
    assert s8.piece + "name" == "artist:name";
    CopyWord(t, 8, s8, "name");
  }

  /** The closing quote ends the filter and flushes the buffer. */
  lemma ClientQueryScan13(t: string)
    requires |t| == 13 && t[12] == '"'
    requires Scan(t, 12) == ScanState([], "artist:name", 1, 0, map[], "", false)
    ensures Scan(t, |t|) == ScanState(["artist:name"], "", 0, 0, map[], "", false)
  {
    var s12 := ScanState([], "artist:name", 1, 0, map[], "", false);
    LastQuoteAt(t, s12);
    FlushFlat(s12.(quoteLevel := 0), "artist:name");
    assert s12.pieces + ["artist:name"] == ["artist:name"];
  }

  /** Any filter spelled `artist:"name"`, walked one character or run at a time. */
  lemma ClientQueryTerms(t: string)
    requires |t| == 13 && t[0..7] == "artist:" && t[7] == '"' && t[8..12] == "name" && t[12] == '"'
    ensures Terms(t) == Ok({"artist:name"})
  {
    ClientQueryScan8(t);
    ClientQueryScan12(t);
    ClientQueryScan13(t);
    var s := ScanState(["artist:name"], "", 0, 0, map[], "", false);
    FlatTerms(t, s);
    assert (set p | p in s.pieces) == {"artist:name"};
  }

  /** The form the client sends (`artist:"name"`): the closing quote is the last character and flushes the piece. */
  lemma ClientQueryExample(t: string)
    requires t == "artist:\"name\""
    ensures Terms(t) == Ok({"artist:name"})
  {
    ClientQueryTerms(t);
  }

  // ----- `"a b" c` -----

  /** The opening quote and `a b`, copied with its space. */
  lemma QuotedPhraseScan4(t: string)
    requires |t| == 7 && t[0] == '"' && t[1..4] == "a b"
    ensures Scan(t, 4) == ScanState([], "a b", 1, 0, map[], "", false)
  {
    QuoteAt(t, 0, Start);
    var s1 := Start.(quoteLevel := 1);
    assert s1.piece + "a b" == "a b";
    CopyWord(t, 1, s1, "a b");
  }

  /** The closing quote and the space after it, which flushes the span. */
  lemma QuotedPhraseScan6(t: string)
    requires |t| == 7 && t[4] == '"' && t[5] == ' '
    requires Scan(t, 4) == ScanState([], "a b", 1, 0, map[], "", false)
    ensures Scan(t, 6) == ScanState(["a b"], "", 0, 0, map[], "", false)
  {
    var s4 := ScanState([], "a b", 1, 0, map[], "", false);
    QuoteAt(t, 4, s4);
    var s5 := s4.(quoteLevel := 0);
    SplitAt(t, 5, s5);
    FlushFlat(s5, "a b");
    assert s5.pieces + ["a b"] == ["a b"];
  }

  /** Any filter spelled `"a b" c`, walked one character or run at a time. */
  lemma QuotedPhraseTerms(t: string)
    requires |t| == 7 && t[0] == '"' && t[1..4] == "a b" && t[4] == '"' && t[5] == ' '
    requires t[6] == 'c'
    ensures Terms(t) == Ok({"a b", "c"})
  {
    assert ["a b"] + [[t[6]]] == ["a b", "c"];
    QuotedPhraseScan4(t);
    QuotedPhraseScan6(t);
    LastLetter(t, ["a b"]);
    var s := ScanState(["a b", "c"], "", 0, 0, map[], "", false);
    FlatTerms(t, s);
    assert (set p | p in s.pieces) == {"a b", "c"};
  }

  /** A quoted span keeps its spaces. */
  lemma QuotedPhraseExample(t: string)
    requires t == "\"a b\" c"
    ensures Terms(t) == Ok({"a b", "c"})
  {
    QuotedPhraseTerms(t);
  }

  // ----- `"a,b" c` -----

  /** The opening quote and `a`. */
  lemma QuotedCommaScan2(t: string)
    requires |t| == 7 && t[0] == '"' && t[1..2] == "a"
    ensures Scan(t, 2) == ScanState([], "a", 1, 0, map[], "", false)
  {
    QuoteAt(t, 0, Start);
    var s1 := Start.(quoteLevel := 1);
    assert s1.piece + "a" == "a";
    CopyWord(t, 1, s1, "a");
  }

  /** The comma inside the quotes, which neither splits nor is copied, and `b`. */
  lemma QuotedCommaScan4(t: string)
    requires |t| == 7 && t[2] == ',' && t[3..4] == "b"
    requires Scan(t, 2) == ScanState([], "a", 1, 0, map[], "", false)
    ensures Scan(t, 4) == ScanState([], "ab", 1, 0, map[], "", false)
  {
    var s2 := ScanState([], "a", 1, 0, map[], "", false);
    DropAt(t, 2, s2);
    assert s2.piece + "b" == "ab";
    CopyWord(t, 3, s2, "b");
  }

  /** The closing quote and the space after it, which flushes `ab`. */
  lemma QuotedCommaScan6(t: string)
    requires |t| == 7 && t[4] == '"' && t[5] == ' '
    requires Scan(t, 4) == ScanState([], "ab", 1, 0, map[], "", false)
    ensures Scan(t, 6) == ScanState(["ab"], "", 0, 0, map[], "", false)
  {
    var s4 := ScanState([], "ab", 1, 0, map[], "", false);
    QuoteAt(t, 4, s4);
    var s5 := s4.(quoteLevel := 0);
    SplitAt(t, 5, s5);
    FlushFlat(s5, "ab");
    assert s5.pieces + ["ab"] == ["ab"];
  }

  /** Any filter spelled `"a,b" c`, walked one character or run at a time. */
  lemma QuotedCommaTerms(t: string)
    requires |t| == 7 && t[0] == '"' && t[1..2] == "a" && t[2] == ',' && t[3..4] == "b"
    requires t[4] == '"' && t[5] == ' ' && t[6] == 'c'
    ensures Terms(t) == Ok({"ab", "c"})
  {
    assert ["ab"] + [[t[6]]] == ["ab", "c"];
    QuotedCommaScan2(t);
    QuotedCommaScan4(t);
    QuotedCommaScan6(t);
    LastLetter(t, ["ab"]);
    var s := ScanState(["ab", "c"], "", 0, 0, map[], "", false);
    FlatTerms(t, s);
    assert (set p | p in s.pieces) == {"ab", "c"};
  }

  /** A comma inside quotes neither splits nor is copied. */
  lemma QuotedCommaExample(t: string)
    requires t == "\"a,b\" c"
    ensures Terms(t) == Ok({"ab", "c"})
  {
    QuotedCommaTerms(t);
  }

  // ----- `a "bc` -----

  /** `a` and the space that flushes it. */
  lemma UnterminatedQuoteScan2(t: string)
    requires |t| == 5 && t[0..1] == "a" && t[1] == ' '
    ensures Scan(t, 2) == ScanState(["a"], "", 0, 0, map[], "", false)
  {
    assert Start.piece + "a" == "a";
    CopyWord(t, 0, Start, "a");
    var s1 := Start.(piece := "a");
    SplitAt(t, 1, s1);
    FlushFlat(s1, "a");
    assert s1.pieces + ["a"] == ["a"];
  }

  /** The quote that is never closed. */
  lemma UnterminatedQuoteScan3(t: string)
    requires |t| == 5 && t[2] == '"'
    requires Scan(t, 2) == ScanState(["a"], "", 0, 0, map[], "", false)
    ensures Scan(t, 3) == ScanState(["a"], "", 1, 0, map[], "", false)
  {
    QuoteAt(t, 2, ScanState(["a"], "", 0, 0, map[], "", false));
  }

  /** The rest of the filter stays in the buffer, which is never flushed. */
  lemma UnterminatedQuoteScan5(t: string)
    requires |t| == 5 && t[3..5] == "bc"
    requires Scan(t, 3) == ScanState(["a"], "", 1, 0, map[], "", false)
    ensures Scan(t, |t|) == ScanState(["a"], "bc", 1, 0, map[], "", false)
  {
    var s3 := ScanState(["a"], "", 1, 0, map[], "", false);
    assert s3.piece + "bc" == "bc";
    CopyWord(t, 3, s3, "bc");
  }

  /** Any filter spelled `a "bc`, walked one character or run at a time. */
  lemma UnterminatedQuoteTerms(t: string)
    requires |t| == 5 && t[0..1] == "a" && t[1] == ' ' && t[2] == '"' && t[3..5] == "bc"
    ensures Terms(t) == Ok({"a"})
  {
    UnterminatedQuoteScan2(t);
    UnterminatedQuoteScan3(t);
    UnterminatedQuoteScan5(t);
    var s := ScanState(["a"], "bc", 1, 0, map[], "", false);
    FlatTerms(t, s);
    assert (set p | p in s.pieces) == {"a"};
  }

  /** A quote left open loses the text after it. */
  lemma UnterminatedQuoteExample(t: string)
    requires t == "a \"bc"
    ensures Terms(t) == Ok({"a"})
  {
    UnterminatedQuoteTerms(t);
  }

  // ----- `tag:[a, -b]` -----

  /** `tag:[`: the group is named by the buffer, which keeps its text. */
  lemma BracketScan5(t: string)
    requires |t| == 11 && t[0..4] == "tag:" && t[4] == '['
    ensures Scan(t, 5) == ScanState([], "tag:", 0, 1, map["tag:" := {}], "tag:", false)
  {
    assert Start.piece + "tag:" == "tag:";
    CopyWord(t, 0, Start, "tag:");
    OpenAt(t, 4, Start.(piece := "tag:"));
  }

  /** `a`: the buffer holds `tag:a`. */
  lemma BracketScan6(t: string)
    requires |t| == 11 && t[5..6] == "a"
    requires Scan(t, 5) == ScanState([], "tag:", 0, 1, map["tag:" := {}], "tag:", false)
    ensures Scan(t, 6) == ScanState([], "tag:a", 0, 1, map["tag:" := {}], "tag:", false)
  {
    var s5 := ScanState([], "tag:", 0, 1, map["tag:" := {}], "tag:", false);
    assert s5.piece + "a" == "tag:a";
    CopyWord(t, 5, s5, "a");
  }

  /** `, `: the comma flushes `tag:a` into the group as `a`, and the space flushes nothing. */
  lemma BracketScan8(t: string)
    requires |t| == 11 && t[6] == ',' && t[7] == ' '
    requires Scan(t, 6) == ScanState([], "tag:a", 0, 1, map["tag:" := {}], "tag:", false)
    ensures Scan(t, 8) == ScanState([], "", 0, 1, map["tag:" := {"a"}], "tag:", false)
  {
    var s6 := ScanState([], "tag:a", 0, 1, map["tag:" := {}], "tag:", false);
    SplitAt(t, 6, s6);
    PrefixSplit("tag:", "a");
    FlushGroup(s6, "tag:" + "a", "a");
    assert {} + {"a"} == {"a"};
    var s7 := ScanState([], "", 0, 1, map["tag:" := {"a"}], "tag:", false);
    SplitAt(t, 7, s7);
    FlushEmpty(s7);
  }

  /** `-b`, copied into the buffer. */
  lemma BracketScan10(t: string)
    requires |t| == 11 && t[8..10] == "-b"
    requires Scan(t, 8) == ScanState([], "", 0, 1, map["tag:" := {"a"}], "tag:", false)
    ensures Scan(t, 10) == ScanState([], "-b", 0, 1, map["tag:" := {"a"}], "tag:", false)
  {
    var s8 := ScanState([], "", 0, 1, map["tag:" := {"a"}], "tag:", false);
    assert s8.piece + "-b" == "-b";
    CopyWord(t, 8, s8, "-b");
  }

  /** `]` ends the filter and flushes `-b` into the group. */
  lemma BracketScan11(t: string)
    requires |t| == 11 && t[10] == ']'
    requires Scan(t, 10) == ScanState([], "-b", 0, 1, map["tag:" := {"a"}], "tag:", false)
    ensures Scan(t, |t|) == ScanState([], "", 0, 0, map["tag:" := {"-b", "a"}], "tag:", false)
  {
    var s10 := ScanState([], "-b", 0, 1, map["tag:" := {"a"}], "tag:", false);
    LastCloseAt(t, s10);
    NotPrefixed("-b", "tag:");
    FlushGroup(s10.(bracketLevel := 0, endOfBracket := true), "-b", "-b");
    assert {"a"} + {"-b"} == {"-b", "a"};
  }

  /** Any filter spelled `tag:[a, -b]`, walked one character or run at a time. */
  lemma BracketTerms(t: string)
    requires |t| == 11 && t[0..4] == "tag:" && t[4] == '[' && t[5..6] == "a" && t[6] == ','
    requires t[7] == ' ' && t[8..10] == "-b" && t[10] == ']'
    ensures Terms(t) == Ok({"-tag:b", "tag:a"})
  {
    TwoTagGroup("tag:", "-b", "a");
    assert Atom("tag:", "-b") == "-tag:b" && Atom("tag:", "a") == "tag:a";
    BracketScan5(t);
    BracketScan6(t);
    BracketScan8(t);
    BracketScan10(t);
    BracketScan11(t);
    GroupTerms(t, ScanState([], "", 0, 0, map["tag:" := {"-b", "a"}], "tag:", false), {"-tag:b", "tag:a"});
  }

  /** Bracket members: the namespace the buffer already holds is stripped from the first member, every member is prefixed with it, and an excluded member yields an excluded atom. */
  lemma BracketExample(t: string)
    requires t == "tag:[a, -b]"
    ensures Terms(t) == Ok({"-tag:b", "tag:a"})
  {
    BracketTerms(t);
  }

  // ----- `t:[a] t:[b]` -----

  /** `t:[`: the group `t:` is opened. */
  lemma ReopenScan3(t: string)
    requires |t| == 11 && t[0..2] == "t:" && t[2] == '['
    ensures Scan(t, 3) == ScanState([], "t:", 0, 1, map["t:" := {}], "t:", false)
  {
    assert Start.piece + "t:" == "t:";
    CopyWord(t, 0, Start, "t:");
    OpenAt(t, 2, Start.(piece := "t:"));
  }

  /** `a]`: the bracket closes with `t:a` still in the buffer. */
  lemma ReopenScan5(t: string)
    requires |t| == 11 && t[3..4] == "a" && t[4] == ']'
    requires Scan(t, 3) == ScanState([], "t:", 0, 1, map["t:" := {}], "t:", false)
    ensures Scan(t, 5) == ScanState([], "t:a", 0, 0, map["t:" := {}], "t:", true)
  {
    var s3 := ScanState([], "t:", 0, 1, map["t:" := {}], "t:", false);
    assert s3.piece + "a" == "t:a";
    CopyWord(t, 3, s3, "a");
    CloseAt(t, 4, s3.(piece := "t:a"));
  }

  /** The space flushes `t:a` into the closed group as `a`. */
  lemma ReopenScan6(t: string)
    requires |t| == 11 && t[5] == ' '
    requires Scan(t, 5) == ScanState([], "t:a", 0, 0, map["t:" := {}], "t:", true)
    ensures Scan(t, 6) == ScanState([], "", 0, 0, map["t:" := {"a"}], "t:", false)
  {
    var s5 := ScanState([], "t:a", 0, 0, map["t:" := {}], "t:", true);
    SplitAt(t, 5, s5);
    PrefixSplit("t:", "a");
    FlushGroup(s5, "t:" + "a", "a");
    assert {} + {"a"} == {"a"};
  }

  /** `t:` again, copied into the buffer. */
  lemma ReopenScan8(t: string)
    requires |t| == 11 && t[6] == 't' && t[7] == ':'
    requires Scan(t, 6) == ScanState([], "", 0, 0, map["t:" := {"a"}], "t:", false)
    ensures Scan(t, 8) == ScanState([], "t:", 0, 0, map["t:" := {"a"}], "t:", false)
  {
    assert t[6..8] == "t:";
    var s6 := ScanState([], "", 0, 0, map["t:" := {"a"}], "t:", false);
    assert s6.piece + "t:" == "t:";
    CopyWord(t, 6, s6, "t:");
  }

  /** The second `[`: the group `t:` is reopened with no tags. */
  lemma ReopenScan9(t: string)
    requires |t| == 11 && t[8] == '['
    requires Scan(t, 8) == ScanState([], "t:", 0, 0, map["t:" := {"a"}], "t:", false)
    ensures Scan(t, 9) == ScanState([], "t:", 0, 1, map["t:" := {}], "t:", false)
  {
    OpenAt(t, 8, ScanState([], "t:", 0, 0, map["t:" := {"a"}], "t:", false));
    assert map["t:" := {"a"}]["t:" := {}] == map["t:" := {}];
  }

  /** `b`: the buffer holds `t:b`. */
  lemma ReopenScan10(t: string)
    requires |t| == 11 && t[9..10] == "b"
    requires Scan(t, 9) == ScanState([], "t:", 0, 1, map["t:" := {}], "t:", false)
    ensures Scan(t, 10) == ScanState([], "t:b", 0, 1, map["t:" := {}], "t:", false)
  {
    var s9 := ScanState([], "t:", 0, 1, map["t:" := {}], "t:", false);
    assert s9.piece + "b" == "t:b";
    CopyWord(t, 9, s9, "b");
  }

  /** `]` ends the filter and flushes `t:b` into the group as `b`. */
  lemma ReopenScan11(t: string)
    requires |t| == 11 && t[10] == ']'
    requires Scan(t, 10) == ScanState([], "t:b", 0, 1, map["t:" := {}], "t:", false)
    ensures Scan(t, |t|) == ScanState([], "", 0, 0, map["t:" := {"b"}], "t:", false)
  {
    var s10 := ScanState([], "t:b", 0, 1, map["t:" := {}], "t:", false);
    LastCloseAt(t, s10);
    PrefixSplit("t:", "b");
    FlushGroup(s10.(bracketLevel := 0, endOfBracket := true), "t:" + "b", "b");
    assert {} + {"b"} == {"b"};
  }

  /** The group `t:` holding only `b` expands to `t:b`. */
  lemma ReopenGroups()
    ensures Expand(map["t:" := {"b"}]) == Ok({"t:b"})
  {
    ExpandSingle(map["t:" := {"b"}], "t:", {"b"});
    TagAtomsNone("t:");
    TagAtomsAdd("t:", {}, "b");
    assert Atom("t:", "b") == "t:b";
    assert {"b"} == {} + {"b"};
    assert TagAtoms("t:", {"b"}) == {"t:b"};
  }

  /** Any filter spelled `t:[a] t:[b]`, walked one character or run at a time. */
  lemma ReopenTerms(t: string)
    requires |t| == 11 && t[0..2] == "t:" && t[2] == '[' && t[3..4] == "a" && t[4] == ']'
    requires t[5] == ' ' && t[6] == 't' && t[7] == ':' && t[8] == '[' && t[9..10] == "b" && t[10] == ']'
    ensures Terms(t) == Ok({"t:b"})
  {
    ReopenScan3(t);
    ReopenScan5(t);
    ReopenScan6(t);
    ReopenScan8(t);
    ReopenScan9(t);
    ReopenScan10(t);
    ReopenScan11(t);
    ReopenGroups();
    GroupTerms(t, ScanState([], "", 0, 0, map["t:" := {"b"}], "t:", false), {"t:b"});
  }

  /** Reopening a namespace discards the tags collected under it before. */
  lemma ReopenExample(t: string)
    requires t == "t:[a] t:[b]"
    ensures Terms(t) == Ok({"t:b"})
  {
    ReopenTerms(t);
  }

  // ----- `x[y ] z` -----

  /** `x[`: the group `x` is opened. */
  lemma EndOfBracketScan2(t: string)
    requires |t| == 7 && t[0..1] == "x" && t[1] == '['
    ensures Scan(t, 2) == ScanState([], "x", 0, 1, map["x" := {}], "x", false)
  {
    assert Start.piece + "x" == "x";
    CopyWord(t, 0, Start, "x");
    OpenAt(t, 1, Start.(piece := "x"));
  }

  /** `y `: the space flushes `xy` into the group as `y`. */
  lemma EndOfBracketScan4(t: string)
    requires |t| == 7 && t[2..3] == "y" && t[3] == ' '
    requires Scan(t, 2) == ScanState([], "x", 0, 1, map["x" := {}], "x", false)
    ensures Scan(t, 4) == ScanState([], "", 0, 1, map["x" := {"y"}], "x", false)
  {
    var s2 := ScanState([], "x", 0, 1, map["x" := {}], "x", false);
    assert s2.piece + "y" == "xy";
    CopyWord(t, 2, s2, "y");
    var s3 := s2.(piece := "xy");
    SplitAt(t, 3, s3);
    PrefixSplit("x", "y");
    FlushGroup(s3, "x" + "y", "y");
    assert {} + {"y"} == {"y"};
  }

  /** `] `: the bracket closes, and the flush of the empty buffer leaves the end-of-bracket flag set. */
  lemma EndOfBracketScan6(t: string)
    requires |t| == 7 && t[4] == ']' && t[5] == ' '
    requires Scan(t, 4) == ScanState([], "", 0, 1, map["x" := {"y"}], "x", false)
    ensures Scan(t, 6) == ScanState([], "", 0, 0, map["x" := {"y"}], "x", true)
  {
    var s4 := ScanState([], "", 0, 1, map["x" := {"y"}], "x", false);
    CloseAt(t, 4, s4);
    var s5 := s4.(bracketLevel := 0, endOfBracket := true);
    SplitAt(t, 5, s5);
    FlushEmpty(s5);
  }

  /** `z` ends the filter and, with the flag still set, joins the closed group. */
  lemma EndOfBracketScan7(t: string)
    requires |t| == 7 && t[6] == 'z'
    requires Scan(t, 6) == ScanState([], "", 0, 0, map["x" := {"y"}], "x", true)
    ensures Scan(t, |t|) == ScanState([], "", 0, 0, map["x" := {"y", "z"}], "x", false)
  {
    var s6 := ScanState([], "", 0, 0, map["x" := {"y"}], "x", true);
    assert s6.piece + ['z'] == "z";
    LastAt(t, s6);
    NotPrefixed("z", "x");
    FlushGroup(s6, "z", "z");
    assert {"y"} + {"z"} == {"y", "z"};
  }

  /** Any filter spelled `x[y ] z`, walked one character or run at a time. */
  lemma EndOfBracketTerms(t: string)
    requires |t| == 7 && t[0..1] == "x" && t[1] == '[' && t[2..3] == "y" && t[3] == ' '
    requires t[4] == ']' && t[5] == ' ' && t[6] == 'z'
    ensures Terms(t) == Ok({"xy", "xz"})
  {
    TwoTagGroup("x", "y", "z");
    assert Atom("x", "y") == "xy" && Atom("x", "z") == "xz";
    EndOfBracketScan2(t);
    EndOfBracketScan4(t);
    EndOfBracketScan6(t);
    EndOfBracketScan7(t);
    GroupTerms(t, ScanState([], "", 0, 0, map["x" := {"y", "z"}], "x", false), {"xy", "xz"});
  }

  /** An empty flush after `]` leaves the end-of-bracket flag set, so the next piece joins the bracket. */
  lemma EndOfBracketExample(t: string)
    requires t == "x[y ] z"
    ensures Terms(t) == Ok({"xy", "xz"})
  {
    EndOfBracketTerms(t);
  }

  // ----- `[-a]` -----

  /** `[-a`: the group has the empty name, and the buffer holds `-a`. */
  lemma EmptyNamespaceCrashScan3(t: string)
    requires |t| == 4 && t[0] == '[' && t[1..3] == "-a"
    ensures Scan(t, 3) == ScanState([], "-a", 0, 1, map["" := {}], "", false)
  {
    OpenAt(t, 0, Start);
    var s1 := ScanState([], "", 0, 1, map["" := {}], "", false);
    assert s1.piece + "-a" == "-a";
    CopyWord(t, 1, s1, "-a");
  }

  /** The closing bracket ends the filter and flushes `-a` into the group. */
  lemma EmptyNamespaceCrashScan4(t: string)
    requires |t| == 4 && t[3] == ']'
    requires Scan(t, 3) == ScanState([], "-a", 0, 1, map["" := {}], "", false)
    ensures Scan(t, |t|) == ScanState([], "", 0, 0, map["" := {"-a"}], "", false)
  {
    var s3 := ScanState([], "-a", 0, 1, map["" := {}], "", false);
    LastCloseAt(t, s3);
    PrefixSplit("", "-a");
    FlushGroup(s3.(bracketLevel := 0, endOfBracket := true), "" + "-a", "-a");
    assert {} + {"-a"} == {"-a"};
  }

  /** Any filter spelled `[-a]`, walked one character or run at a time. */
  lemma EmptyNamespaceCrashTerms(t: string)
    requires |t| == 4 && t[0] == '[' && t[1..3] == "-a" && t[3] == ']'
    ensures Terms(t) == Err(IndexError)
  {
    EmptyNamespaceCrashScan3(t);
    EmptyNamespaceCrashScan4(t);
    var s := ScanState([], "", 0, 0, map["" := {"-a"}], "", false);
    ExpandRaises(s.bracketsTags, "", "-a");
  }

  /** An excluded tag in a bracket with no namespace raises IndexError. */
  lemma EmptyNamespaceCrashExample(t: string)
    requires t == "[-a]"
    ensures Terms(t) == Err(IndexError)
  {
    EmptyNamespaceCrashTerms(t);
  }

  // ----- `t["a", -c]` -----

  /** `t[`: the group `t` is opened. */
  lemma UnqualifiedBracketScan2(t: string)
    requires |t| == 10 && t[0..1] == "t" && t[1] == '['
    ensures Scan(t, 2) == ScanState([], "t", 0, 1, map["t" := {}], "t", false)
  {
    assert Start.piece + "t" == "t";
    CopyWord(t, 0, Start, "t");
    OpenAt(t, 1, Start.(piece := "t"));
  }

  /** The opening quote and `a`: the buffer holds `ta`. */
  lemma UnqualifiedBracketScan4(t: string)
    requires |t| == 10 && t[2] == '"' && t[3..4] == "a"
    requires Scan(t, 2) == ScanState([], "t", 0, 1, map["t" := {}], "t", false)
    ensures Scan(t, 4) == ScanState([], "ta", 1, 1, map["t" := {}], "t", false)
  {
    var s2 := ScanState([], "t", 0, 1, map["t" := {}], "t", false);
    QuoteAt(t, 2, s2);
    var s3 := s2.(quoteLevel := 1);
    assert s3.piece + "a" == "ta";
    CopyWord(t, 3, s3, "a");
  }

  /** The closing quote and the comma, which flushes `ta` into the group as `a`. */
  lemma UnqualifiedBracketScan6(t: string)
    requires |t| == 10 && t[4] == '"' && t[5] == ','
    requires Scan(t, 4) == ScanState([], "ta", 1, 1, map["t" := {}], "t", false)
    ensures Scan(t, 6) == ScanState([], "", 0, 1, map["t" := {"a"}], "t", false)
  {
    var s4 := ScanState([], "ta", 1, 1, map["t" := {}], "t", false);
    QuoteAt(t, 4, s4);
    var s5 := s4.(quoteLevel := 0);
    SplitAt(t, 5, s5);
    PrefixSplit("t", "a");
    FlushGroup(s5, "t" + "a", "a");
    assert {} + {"a"} == {"a"};
  }

  /** The space flushes nothing, and `-c` is copied into the buffer. */
  lemma UnqualifiedBracketScan9(t: string)
    requires |t| == 10 && t[6] == ' ' && t[7..9] == "-c"
    requires Scan(t, 6) == ScanState([], "", 0, 1, map["t" := {"a"}], "t", false)
    ensures Scan(t, 9) == ScanState([], "-c", 0, 1, map["t" := {"a"}], "t", false)
  {
    var s6 := ScanState([], "", 0, 1, map["t" := {"a"}], "t", false);
    SplitAt(t, 6, s6);
    FlushEmpty(s6);
    assert s6.piece + "-c" == "-c";
    CopyWord(t, 7, s6, "-c");
  }

  /** `]` ends the filter and flushes `-c` into the group. */
  lemma UnqualifiedBracketScan10(t: string)
    requires |t| == 10 && t[9] == ']'
    requires Scan(t, 9) == ScanState([], "-c", 0, 1, map["t" := {"a"}], "t", false)
    ensures Scan(t, |t|) == ScanState([], "", 0, 0, map["t" := {"-c", "a"}], "t", false)
  {
    var s9 := ScanState([], "-c", 0, 1, map["t" := {"a"}], "t", false);
    LastCloseAt(t, s9);
    NotPrefixed("-c", "t");
    FlushGroup(s9.(bracketLevel := 0, endOfBracket := true), "-c", "-c");
    assert {"a"} + {"-c"} == {"-c", "a"};
  }

  /** Any filter spelled `t["a", -c]`, one character or run at a time. */
  lemma UnqualifiedBracketTerms(t: string)
    requires |t| == 10 && t[0..1] == "t" && t[1] == '[' && t[2] == '"' && t[3..4] == "a" && t[4] == '"'
    requires t[5] == ',' && t[6] == ' ' && t[7..9] == "-c" && t[9] == ']'
    ensures Terms(t) == Ok({"-tc", "ta"})
  {
    TwoTagGroup("t", "-c", "a");
    assert Atom("t", "-c") == "-tc" && Atom("t", "a") == "ta";
    UnqualifiedBracketScan2(t);
    UnqualifiedBracketScan4(t);
    UnqualifiedBracketScan6(t);
    UnqualifiedBracketScan9(t);
    UnqualifiedBracketScan10(t);
    GroupTerms(t, ScanState([], "", 0, 0, map["t" := {"-c", "a"}], "t", false), {"-tc", "ta"});
  }

  /** Without a `:` before the bracket the namespace is the bare name: the members become `ta` and `-tc`, not `t:a` and `-t:c`. */
  lemma UnqualifiedBracketExample(t: string)
    requires t == "t[\"a\", -c]"
    ensures Terms(t) == Ok({"-tc", "ta"})
  {
    UnqualifiedBracketTerms(t);
  }

  // ----- `artist:oda` and `red -blue` -----

  /** All but the last character, copied into the buffer. */
  lemma PlainAtomScan9(t: string)
    requires |t| == 10 && t[0..9] == "artist:od"
    ensures Scan(t, 9) == ScanState([], "artist:od", 0, 0, map[], "", false)
  {
    assert Start.piece + "artist:od" == "artist:od";
    CopyWord(t, 0, Start, "artist:od");
  }

  /** The last character joins the buffer, which is flushed as one atom. */
  lemma PlainAtomScan10(t: string)
    requires |t| == 10 && t[9] == 'a'
    requires Scan(t, 9) == ScanState([], "artist:od", 0, 0, map[], "", false)
    ensures Scan(t, |t|) == ScanState(["artist:oda"], "", 0, 0, map[], "", false)
  {
    var s9 := ScanState([], "artist:od", 0, 0, map[], "", false);
    assert t[|t| - 1] == 'a';
    LastAt(t, s9);
    assert s9.piece + ['a'] == "artist:oda";
    FlushFlat(s9, "artist:oda");
    assert s9.pieces + ["artist:oda"] == ["artist:oda"];
  }

  /** Any filter spelled `artist:oda`, walked one character or run at a time. */
  lemma PlainAtomTerms(t: string)
    requires |t| == 10 && t[0..9] == "artist:od" && t[9] == 'a'
    ensures Terms(t) == Ok({"artist:oda"})
  {
    PlainAtomScan9(t);
    PlainAtomScan10(t);
    var s := ScanState(["artist:oda"], "", 0, 0, map[], "", false);
    FlatTerms(t, s);
    assert (set p | p in s.pieces) == {"artist:oda"};
  }

  /** A piece with no space, quote or bracket is one atom. */
  lemma PlainAtomExample(t: string)
    requires t == "artist:oda"
    ensures Terms(t) == Ok({"artist:oda"})
  {
    PlainAtomTerms(t);
  }

  /** `red` and the space that flushes it. */
  lemma ExclusionScan4(t: string)
    requires |t| == 9 && t[0..3] == "red" && t[3] == ' '
    ensures Scan(t, 4) == ScanState(["red"], "", 0, 0, map[], "", false)
  {
    assert Start.piece + "red" == "red";
    CopyWord(t, 0, Start, "red");
    var s3 := Start.(piece := "red");
    SplitAt(t, 3, s3);
    FlushFlat(s3, "red");
    assert s3.pieces + ["red"] == ["red"];
  }

  /** `-blu`, copied into the buffer. */
  lemma ExclusionScan8(t: string)
    requires |t| == 9 && t[4..8] == "-blu"
    requires Scan(t, 4) == ScanState(["red"], "", 0, 0, map[], "", false)
    ensures Scan(t, 8) == ScanState(["red"], "-blu", 0, 0, map[], "", false)
  {
    var s4 := ScanState(["red"], "", 0, 0, map[], "", false);
    assert s4.piece + "-blu" == "-blu";
    CopyWord(t, 4, s4, "-blu");
  }

  /** `e` ends the filter, which flushes `-blue` with its marker. */
  lemma ExclusionScan9(t: string)
    requires |t| == 9 && t[8] == 'e'
    requires Scan(t, 8) == ScanState(["red"], "-blu", 0, 0, map[], "", false)
    ensures Scan(t, |t|) == ScanState(["red", "-blue"], "", 0, 0, map[], "", false)
  {
    var s8 := ScanState(["red"], "-blu", 0, 0, map[], "", false);
    assert s8.piece + ['e'] == "-blue";
    LastAt(t, s8);
    FlushFlat(s8, "-blue");
    assert s8.pieces + ["-blue"] == ["red", "-blue"];
  }

  /** Any filter spelled `red -blue`, walked one character or run at a time. */
  lemma ExclusionTerms(t: string)
    requires |t| == 9 && t[0..3] == "red" && t[3] == ' ' && t[4..8] == "-blu" && t[8] == 'e'
    ensures Terms(t) == Ok({"-blue", "red"})
  {
    ExclusionScan4(t);
    ExclusionScan8(t);
    ExclusionScan9(t);
    var s := ScanState(["red", "-blue"], "", 0, 0, map[], "", false);
    FlatTerms(t, s);
    assert (set p | p in s.pieces) == {"-blue", "red"};
  }

  /** Plain pieces keep their exclusion marker. */
  lemma ExclusionExample(t: string)
    requires t == "red -blue"
    ensures Terms(t) == Ok({"-blue", "red"})
  {
    ExclusionTerms(t);
  }
}
