// Properties of the search-filter tokenizer (ParseFilter.Terms and the scan it
// is built from), search_cmd.py:26-100.

module ParseFilterFacts {
  import opened Wrappers
  import opened Dispatch
  import opened ParseFilter

  /** No double quote in `s`. */
  predicate Unquoted(s: string)
  {
    forall i :: 0 <= i < |s| ==> s[i] != '"'
  }

  /** Every buffer, atom, namespace and tag of the scan is free of blacklisted characters, and atoms and tags are non-empty. */
  ghost predicate Tidy(st: ScanState)
  {
    TidyParts(st.pieces, st.piece, st.currentNs, st.bracketsTags)
  }

  /** Tidy, on the four loop variables it reads. */
  ghost predicate TidyParts(pieces: seq<string>, piece: string, currentNs: string, groups: map<string, set<string>>)
  {
    (forall i :: 0 <= i < |pieces| ==> pieces[i] != "" && Clean(pieces[i]))
    && Clean(piece) && Clean(currentNs) && CleanGroups(groups)
  }

  /** Every namespace and tag of the bracket groups is clean, and every tag is non-empty. */
  ghost predicate CleanGroups(groups: map<string, set<string>>)
  {
    (forall ns :: ns in groups ==> Clean(ns))
    && (forall ns :: ns in groups ==> forall tag :: tag in groups[ns] ==> tag != "" && Clean(tag))
  }

  /** Outside quotes: no buffer, atom, namespace or tag of the scan holds a space. */
  ghost predicate Spaceless(st: ScanState)
  {
    st.quoteLevel == 0 && SpacelessParts(st.pieces, st.piece, st.currentNs, st.bracketsTags)
  }

  /** Spaceless, on the four loop variables it reads besides the quote level. */
  ghost predicate SpacelessParts(pieces: seq<string>, piece: string, currentNs: string, groups: map<string, set<string>>)
  {
    (forall i :: 0 <= i < |pieces| ==> NoSpace(pieces[i]))
    && NoSpace(piece) && NoSpace(currentNs) && SpacelessGroups(groups)
  }

  /** No namespace or tag of the bracket groups holds a space. */
  ghost predicate SpacelessGroups(groups: map<string, set<string>>)
  {
    (forall ns :: ns in groups ==> NoSpace(ns))
    && (forall ns :: ns in groups ==> forall tag :: tag in groups[ns] ==> NoSpace(tag))
  }

  /** Opening (or reopening) the group `ns` with no tags keeps the groups clean. */
  lemma OpenGroup(groups: map<string, set<string>>, ns: string)
    requires CleanGroups(groups) && Clean(ns)
    ensures CleanGroups(groups[ns := {}])
    ensures SpacelessGroups(groups) && NoSpace(ns) ==> SpacelessGroups(groups[ns := {}])
  {
    var m := groups[ns := {}];
    forall n, tag | n in m && tag in m[n]
      ensures n in groups && tag in groups[n]
    {
      assert n != ns;
    }
  }

  /** Adding a clean, non-empty tag to an existing group keeps the groups clean. */
  lemma AddToGroup(groups: map<string, set<string>>, ns: string, tag: string)
    requires ns in groups && CleanGroups(groups) && tag != "" && Clean(tag)
    ensures CleanGroups(groups[ns := groups[ns] + {tag}])
    ensures SpacelessGroups(groups) && NoSpace(tag) ==> SpacelessGroups(groups[ns := groups[ns] + {tag}])
  {
    var m := groups[ns := groups[ns] + {tag}];
    forall n, t | n in m && t in m[n]
      ensures t == tag || (n in groups && t in groups[n])
    {
    }
  }

  lemma SuffixKeeps(p: string, k: nat)
    requires k <= |p|
    ensures Clean(p) ==> Clean(p[k..])
    ensures NoSpace(p) ==> NoSpace(p[k..])
  {
    assert forall i :: 0 <= i < |p| - k ==> p[k..][i] == p[k + i];
  }

  lemma FlushTidy(st: ScanState, p: string)
    requires Tidy(st) && Clean(p)
    ensures Tidy(Flush(st, p))
    ensures Spaceless(st) && NoSpace(p) ==> Spaceless(Flush(st, p))
  {
    if p != "" && (st.bracketLevel > 0 || st.endOfBracket) {
      var tag := if StartsWith(p, st.currentNs) then p[|st.currentNs|..] else p;
      if StartsWith(p, st.currentNs) {
        SuffixKeeps(p, |st.currentNs|);
      }
      if tag != "" && st.currentNs in st.bracketsTags {
        AddToGroup(st.bracketsTags, st.currentNs, tag);
      }
    }
  }

  lemma PieceUpdateTidy(st: ScanState, p: string)
    requires Tidy(st) && Clean(p)
    ensures Tidy(st.(piece := p))
    ensures Spaceless(st) && NoSpace(p) ==> Spaceless(st.(piece := p))
  {
  }

  lemma BracketTidy(st: ScanState, x: char)
    requires Tidy(st)
    ensures Tidy(Bracket(st, x))
    ensures Spaceless(st) ==> Spaceless(Bracket(st, x))
  {
    if x == '[' {
      OpenGroup(st.bracketsTags, st.piece);
    } else {
      TidyFields(st, Bracket(st, x));
    }
  }

  /** Tidy reads only the buffer, the atoms, the namespace and the groups. */
  lemma TidyFields(st: ScanState, other: ScanState)
    requires Tidy(st)
    requires other.pieces == st.pieces && other.piece == st.piece
    requires other.bracketsTags == st.bracketsTags && other.currentNs == st.currentNs
    ensures Tidy(other)
    ensures Spaceless(st) && other.quoteLevel == 0 ==> Spaceless(other)
  {
  }

  lemma QuoteTidy(st: ScanState, x: char)
    requires Tidy(st)
    ensures Tidy(Quote(st, x))
    ensures Spaceless(st) && x != '"' ==> Spaceless(Quote(st, x))
  {
    if x == '"' {
      TidyFields(st, Quote(st, x));
    }
  }

  lemma ConsumeTidy(st: ScanState, x: char, last: bool)
    requires Tidy(st)
    ensures Tidy(Consume(st, x, last))
    ensures Spaceless(st) ==> Spaceless(Consume(st, x, last))
  {
    if (x == ' ' || x == ',' || last) && st.quoteLevel == 0 {
      var p := if last && x !in Blacklist && x != ' ' then st.piece + [x] else st.piece;
      FlushTidy(st, p);
    } else if x !in Blacklist && (st.quoteLevel > 0 || x != ' ') {
      PieceUpdateTidy(st, st.piece + [x]);
    }
  }

  lemma StepTidy(st: ScanState, x: char, last: bool)
    requires Tidy(st)
    ensures Tidy(Step(st, x, last))
    ensures Spaceless(st) && x != '"' ==> Spaceless(Step(st, x, last))
  {
    BracketTidy(st, x);
    QuoteTidy(Bracket(st, x), x);
    ConsumeTidy(Quote(Bracket(st, x), x), x, last);
  }

  /** The scan keeps every piece, namespace and tag clean and non-empty; with no `"` read yet, nothing holds a space. */
  lemma {:induction false} ScanTidy(term: string, n: nat)
    requires n <= |term|
    ensures Tidy(Scan(term, n))
    ensures Unquoted(term[..n]) ==> Spaceless(Scan(term, n))
  {
    if n > 0 {
      ScanTidy(term, n - 1);
      assert term[..n][..n - 1] == term[..n - 1];
      assert term[..n][n - 1] == term[n - 1];
      StepTidy(Scan(term, n - 1), term[n - 1], n == |term|);
    }
  }

  lemma AtomTidy(ns: string, tag: string)
    requires !Crashes(ns, tag)
    ensures Clean(ns) && Clean(tag) ==> Atom(ns, tag) != "" && Clean(Atom(ns, tag))
    ensures NoSpace(ns) && NoSpace(tag) ==> NoSpace(Atom(ns, tag))
  {
    SuffixKeeps(tag, 1);
  }

  /** On a tidy state, every atom finishing returns is non-empty and clean, and space-free when the state is. */
  lemma FinishClean(st: ScanState, a: string)
    requires Tidy(st) && Finish(st).Ok? && a in Finish(st).value
    ensures a != "" && Clean(a)
    ensures Spaceless(st) ==> NoSpace(a)
  {
    if a !in st.pieces {
      var ns, tag :| ns in st.bracketsTags && tag in st.bracketsTags[ns] && !Crashes(ns, tag) && a == Atom(ns, tag);
      AtomTidy(ns, tag);
    }
  }

  /**
   * Every atom the tokenizer returns is non-empty and holds none of `[`, `]`,
   * `"` or `,`; when the filter has no `"`, no atom holds a space either.
   */
  lemma AtomsClean(term: string, a: string)
    requires Terms(term).Ok? && a in Terms(term).value
    ensures a != "" && Clean(a)
    ensures Unquoted(term) ==> NoSpace(a)
  {
    ScanTidy(term, |term|);
    assert term[..|term|] == term;
    FinishClean(Scan(term, |term|), a);
  }

  lemma ExpandNothing(m: map<string, set<string>>)
    requires m.Keys == {}
    ensures Expand(m) == Ok({})
  {
    assert !CrashesIn(m);
    assert AtomsOf(m, {}) == {};
  }

  /** The empty filter parses to no atoms. */
  lemma EmptyFilter()
    ensures Terms("") == Ok({})
  {
    ExpandNothing(map[]);
    assert Scan("", |""|) == Start;
    var flat := set p | p in Start.pieces;
    assert flat == {};
    assert Scan("", 0).bracketsTags == map[];
    assert Expand(Scan("", 0).bracketsTags) == Ok({});
    assert Terms("") == Ok(flat + {});
    assert flat + {} == {};
  }

  lemma TidyTag(st: ScanState, ns: string, tag: string)
    requires Tidy(st) && ns in st.bracketsTags && tag in st.bracketsTags[ns]
    ensures tag != "" && Clean(tag)
  {
    assert TidyParts(st.pieces, st.piece, st.currentNs, st.bracketsTags);
    assert CleanGroups(st.bracketsTags);
  }

  /** On a tidy state, finishing raises IndexError exactly when an excluded tag sits under the empty namespace. */
  lemma FinishCrash(st: ScanState)
    requires Tidy(st)
    ensures Finish(st).Err? ==> Finish(st).error == IndexError
    ensures Finish(st).Err? <==>
      "" in st.bracketsTags && exists tag :: tag in st.bracketsTags[""] && |tag| > 0 && tag[0] == '-'
  {
    var tags := st.bracketsTags;
    if CrashesIn(tags) {
      var ns, tag :| ns in tags && tag in tags[ns] && Crashes(ns, tag);
      TidyTag(st, ns, tag);
      assert ns == "" && tag[0] == '-';
    }
    if "" in tags && exists tag :: tag in tags[""] && |tag| > 0 && tag[0] == '-' {
      var tag :| tag in tags[""] && |tag| > 0 && tag[0] == '-';
      assert Crashes("", tag);
      assert CrashesIn(tags);
    }
  }

  /** Parsing raises IndexError exactly when an excluded tag was collected under the empty namespace. */
  lemma TermsCrash(term: string)
    ensures Terms(term).Err? ==> Terms(term).error == IndexError
    ensures Terms(term).Err? <==>
      var tags := Scan(term, |term|).bracketsTags;
      "" in tags && exists tag :: tag in tags[""] && |tag| > 0 && tag[0] == '-'
  {
    ScanTidy(term, |term|);
    FinishCrash(Scan(term, |term|));
  }

  // ----- quotes -----

  /** The number of double quotes in `s`. */
  function QuoteCount(s: string): nat
  {
    if s == [] then 0 else QuoteCount(s[..|s| - 1]) + (if s[|s| - 1] == '"' then 1 else 0)
  }

  /** Each `"` toggles the quote level, so it is the parity of the quotes read so far. */
  lemma {:induction false} QuoteParity(term: string, n: nat)
    requires n <= |term|
    ensures Scan(term, n).quoteLevel == QuoteCount(term[..n]) % 2
  {
    if n > 0 {
      QuoteParity(term, n - 1);
      StepQuoteLevel(Scan(term, n - 1), term[n - 1], n == |term|);
      assert term[..n][..n - 1] == term[..n - 1];
      assert QuoteCount(term[..n]) == QuoteCount(term[..n - 1]) + (if term[n - 1] == '"' then 1 else 0);
    }
  }

  /** One iteration changes the quote level only on `"`. */
  lemma StepQuoteLevel(st: ScanState, x: char, last: bool)
    ensures Step(st, x, last).quoteLevel ==
      if x != '"' then st.quoteLevel
      else if st.quoteLevel > 0 then st.quoteLevel - 1
      else st.quoteLevel + 1
  {
    assert Bracket(st, x).quoteLevel == st.quoteLevel;
    assert Consume(Quote(Bracket(st, x), x), x, last).quoteLevel == Quote(Bracket(st, x), x).quoteLevel;
  }

  /** Inside quotes a space is copied into the buffer and flushes nothing (unless it is the last character). */
  lemma QuotedSpaceKept(st: ScanState)
    requires st.quoteLevel > 0
    ensures Step(st, ' ', false) == st.(piece := st.piece + " ")
  {
  }

  /** Inside quotes a comma neither flushes the buffer nor is copied into it. */
  lemma QuotedCommaDropped(st: ScanState, last: bool)
    requires st.quoteLevel > 0
    ensures Step(st, ',', last) == st
  {
  }

  /**
   * A `"` that opens a quote which is never closed: nothing is flushed from
   * there to the end of the filter, so the buffer holding the quoted text is
   * lost: the atoms outside brackets are those read before the quote, and
   * no bracket namespace gains a tag (a `[` inside the quote may still
   * reopen one with no tags).
   */
  lemma {:induction false} OpenQuoteFlushesNothing(term: string, k: nat, j: nat)
    requires k < j <= |term| && term[k] == '"' && QuoteCount(term[..k]) % 2 == 0
    requires forall i :: k < i < |term| ==> term[i] != '"'
    ensures Scan(term, j).pieces == Scan(term, k).pieces && Scan(term, j).quoteLevel == 1
    ensures forall ns :: ns in Scan(term, j).bracketsTags ==>
      Scan(term, j).bracketsTags[ns] <= (if ns in Scan(term, k).bracketsTags then Scan(term, k).bracketsTags[ns] else {})
  {
    QuoteParity(term, k);
    if j > k + 1 {
      OpenQuoteFlushesNothing(term, k, j - 1);
    }
  }

  /** A `"` that closes a quote on the last character of the filter flushes the buffer, as any last character does outside quotes. */
  lemma ClosingQuoteFlushes(st: ScanState)
    requires st.quoteLevel == 1
    ensures Step(st, '"', true) == Flush(st.(quoteLevel := 0), st.piece)
  {
  }

  // ----- brackets -----

  /** `[` opens (or reopens) the namespace named by the buffer with an empty tag set, discarding tags collected under it before. */
  lemma ReopenResets(st: ScanState, last: bool)
    ensures Step(st, '[', last).bracketsTags == st.bracketsTags[st.piece := {}]
    ensures Step(st, '[', last).currentNs == st.piece
    ensures Step(st, '[', last).bracketLevel == st.bracketLevel + 1
  {
    assert st.piece[..|st.piece|] == st.piece;
  }

  /** Before any `[`, the piece a `]` terminates is dropped: it is neither an atom nor a tag. */
  lemma StrayCloseDrops(st: ScanState, x: char, last: bool)
    requires st.bracketsTags == map[] && x != '['
    requires st.endOfBracket || x == ']'
    ensures Step(st, x, last).pieces == st.pieces
    ensures Step(st, x, last).bracketsTags == map[]
  {
  }

  /** With no `[` in the filter, no tag is ever collected, so the atoms are exactly the flat pieces. */
  lemma {:induction false} NoBracketNoTags(term: string, n: nat)
    requires n <= |term| && forall i :: 0 <= i < |term| ==> term[i] != '['
    ensures Scan(term, n).bracketsTags == map[]
    ensures n == |term| ==> Terms(term) == Ok(set p | p in Scan(term, n).pieces)
  {
    if n > 0 {
      NoBracketNoTags(term, n - 1);
    }
    if n == |term| {
      ExpandNothing(map[]);
      var flat := set p | p in Scan(term, n).pieces;
      assert Terms(term) == Ok(flat + {});
      assert flat + {} == flat;
    }
  }

  /** The end-of-bracket flag, once set, is cleared only by flushing a non-empty buffer outside quotes. */
  lemma EndOfBracketClearedOnlyByFlush(st: ScanState, x: char, last: bool)
    requires st.endOfBracket && x != ']' && !Step(st, x, last).endOfBracket
    ensures (x == ' ' || x == ',' || last) && Step(st, x, last).quoteLevel == 0
    ensures st.piece != "" || (last && x !in Blacklist && x != ' ')
  {
  }

  /**
   * A piece flushed while a bracket is open, or just after it closed, that
   * starts with the namespace text is collected without that prefix: the
   * buffer still holds the namespace, since `[` does not empty it.
   */
  lemma PrefixStripped(st: ScanState, rest: string)
    requires st.bracketLevel > 0 || st.endOfBracket
    requires st.currentNs in st.bracketsTags && rest != ""
    ensures Flush(st, st.currentNs + rest).bracketsTags ==
      st.bracketsTags[st.currentNs := st.bracketsTags[st.currentNs] + {rest}]
    ensures Flush(st, st.currentNs + rest).pieces == st.pieces
  {
    PrefixSplit(st.currentNs, rest);
  }

  // ----- bracket expansion -----

  function Unmarked(s: string): string
  {
    if Marked(s) then s[1..] else s
  }

  /**
   * Expanding a tag collected under a namespace: the atom is excluded when the
   * namespace or the tag was, and without its marker it is the namespace
   * followed by the tag, each without its own marker.
   */
  lemma AtomMarking(ns: string, tag: string)
    requires !Crashes(ns, tag)
    ensures Marked(Atom(ns, tag)) <==> Marked(ns) || Marked(tag)
    ensures Unmarked(Atom(ns, tag)) == Unmarked(ns) + Unmarked(tag)
  {
    if Marked(tag) {
      if Marked(ns) {
        assert Unmarked(Atom(ns, tag)) == ns[1..] + tag[1..];
      } else {
        assert ("-" + ns + tag[1..])[1..] == ns + tag[1..];
      }
    } else if Marked(ns) {
      assert (ns + tag)[1..] == ns[1..] + tag;
    }
  }

  // ----- helpers for evaluating the scan on given filters -----

  lemma PrefixSplit(ns: string, rest: string)
    ensures StartsWith(ns + rest, ns) && (ns + rest)[|ns|..] == rest
  {
    assert (ns + rest)[..|ns|] == ns;
  }

  lemma ExpandSingle(m: map<string, set<string>>, ns: string, tags: set<string>)
    requires m.Keys == {ns} && m[ns] == tags
    requires forall tag :: tag in tags ==> !Crashes(ns, tag)
    ensures Expand(m) == Ok(TagAtoms(ns, tags))
  {
    assert AtomsOf(m, m.Keys) == TagAtoms(ns, tags);
  }

  lemma ExpandRaises(m: map<string, set<string>>, ns: string, tag: string)
    requires ns in m && tag in m[ns] && Crashes(ns, tag)
    ensures Expand(m) == Err(IndexError)
  {
  }

  lemma TagAtomsNone(ns: string)
    ensures TagAtoms(ns, {}) == {}
  {
  }

  // ----- atoms joined by spaces -----

  /**
   * A run of characters that are neither blacklisted nor, outside quotes,
   * spaces is copied into the buffer; the run may end the filter only inside
   * quotes, where the last character does not flush.
   */
  lemma {:induction false} CopyRun(t: string, k: nat, n: nat)
    requires k <= n <= |t| && (n < |t| || Scan(t, k).quoteLevel > 0)
    requires forall i :: k <= i < n ==> t[i] !in Blacklist && (t[i] != ' ' || Scan(t, k).quoteLevel > 0)
    ensures Scan(t, n) == Scan(t, k).(piece := Scan(t, k).piece + t[k..n])
  {
    if n > k {
      CopyRun(t, k, n - 1);
      assert Scan(t, k).piece + t[k..n] == Scan(t, k).piece + t[k..n - 1] + [t[n - 1]];
    } else {
      assert Scan(t, k).piece + t[k..n] == Scan(t, k).piece;
    }
  }

  /** A space or a comma outside quotes flushes the buffer. */
  lemma SplitAt(t: string, k: nat, prev: ScanState)
    requires k < |t| && (t[k] == ' ' || t[k] == ',') && Scan(t, k) == prev && prev.quoteLevel == 0
    ensures Scan(t, k + 1) == Flush(prev, prev.piece)
  {
  }

  /** An ordinary last character outside quotes joins the buffer, which is flushed. */
  lemma LastAt(t: string, prev: ScanState)
    requires |t| > 0 && t[|t| - 1] !in Blacklist && t[|t| - 1] != ' '
    requires Scan(t, |t| - 1) == prev && prev.quoteLevel == 0
    ensures Scan(t, |t|) == Flush(prev, prev.piece + [t[|t| - 1]])
  {
  }

  /** Outside brackets a non-empty piece becomes a flat atom. */
  lemma FlushFlat(st: ScanState, p: string)
    requires p != "" && st.bracketLevel <= 0 && !st.endOfBracket
    ensures Flush(st, p) == st.(pieces := st.pieces + [p], piece := "")
  {
  }

  /** The atoms of a filter whose scan collected no bracket group are its flat pieces. */
  lemma FlatTerms(t: string, s: ScanState)
    requires Scan(t, |t|) == s && s.bracketsTags == map[]
    ensures Terms(t) == Ok(set p | p in s.pieces)
  {
    ExpandNothing(s.bracketsTags);
    assert (set p | p in s.pieces) + {} == (set p | p in s.pieces);
  }

  /** An atom that needs neither brackets nor quotes: non-empty, clean and free of spaces. */
  predicate PlainAtom(a: string)
  {
    a != "" && Clean(a) && NoSpace(a)
  }

  /** Every atom of the sequence is plain. */
  predicate AllPlain(atoms: seq<string>)
  {
    |atoms| == 0 || (PlainAtom(atoms[0]) && AllPlain(atoms[1..]))
  }

  lemma {:induction false} AllPlainEach(atoms: seq<string>)
    requires forall i :: 0 <= i < |atoms| ==> PlainAtom(atoms[i])
    ensures AllPlain(atoms)
  {
    if |atoms| > 0 {
      AllPlainEach(atoms[1..]);
    }
  }

  /** The atoms written one after another, separated by single spaces. */
  function Joined(atoms: seq<string>): string
  {
    if |atoms| == 0 then "" else if |atoms| == 1 then atoms[0] else atoms[0] + " " + Joined(atoms[1..])
  }

  /** The loop variables after scanning `s` from the state `st`; `ends` tells whether the term ends with `s`. */
  ghost function Run(st: ScanState, s: string, ends: bool): ScanState
    decreases |s|
  {
    if s == [] then st else Run(Step(st, s[0], ends && |s| == 1), s[1..], ends)
  }

  /** Scanning a whole term is scanning its first `k` characters and then running the rest. */
  lemma {:induction false} ScanRun(t: string, k: nat)
    requires k <= |t|
    ensures Scan(t, |t|) == Run(Scan(t, k), t[k..], true)
    decreases |t| - k
  {
    if k < |t| {
      ScanRun(t, k + 1);
      assert t[k..][0] == t[k] && t[k..][1..] == t[k + 1..];
    }
  }

  /** Running `u` and then a non-empty `v` is running `u + v`: only the very last character ends the term. */
  lemma {:induction false} RunAppend(st: ScanState, u: string, v: string, ends: bool)
    requires v != []
    ensures Run(st, u + v, ends) == Run(Run(st, u, false), v, ends)
    decreases |u|
  {
    if u == [] {
      assert u + v == v;
    } else {
      var next := Step(st, u[0], false);
      RunAppend(next, u[1..], v, ends);
      assert (u + v)[0] == u[0] && (u + v)[1..] == u[1..] + v && |u + v| > 1;
      assert Run(st, u + v, ends) == Run(next, u[1..] + v, ends);
      assert Run(st, u, false) == Run(next, u[1..], false);
    }
  }

  /** The characters of a clean, space-free word, none of them the last, are copied into the buffer. */
  lemma {:induction false} RunWord(st: ScanState, a: string)
    requires Clean(a) && NoSpace(a)
    ensures Run(st, a, false) == st.(piece := st.piece + a)
    decreases |a|
  {
    if a == [] {
      assert st.piece + a == st.piece;
    } else {
      var next := st.(piece := st.piece + [a[0]]);
      assert Step(st, a[0], false) == next;
      RunWord(next, a[1..]);
      assert st.piece + [a[0]] + a[1..] == st.piece + a;
    }
  }

  /** An ordinary last character completes the buffer, which becomes a flat piece. */
  lemma StepLastPlain(ps: seq<string>, init: string, x: char)
    requires x !in Blacklist && x != ' '
    ensures Step(Start.(pieces := ps, piece := init), x, true) == Start.(pieces := ps + [init + [x]])
  {
    var mid := Start.(pieces := ps, piece := init);
    assert Consume(mid, x, true) == Flush(mid, init + [x]);
    FlushFlat(mid, init + [x]);
  }

  /** A plain atom that ends the term is appended to the flat pieces. */
  lemma RunLastAtom(ps: seq<string>, a: string)
    requires PlainAtom(a)
    ensures Run(Start.(pieces := ps), a, true) == Start.(pieces := ps + [a])
  {
    var st := Start.(pieces := ps);
    var init, x := a[..|a| - 1], a[|a| - 1];
    assert init + [x] == a;
    assert Clean(init) && NoSpace(init);
    RunAppend(st, init, [x], true);
    RunWord(st, init);
    assert st.piece + init == init;
    assert Run(st.(piece := init), [x], true) == Step(st.(piece := init), x, true);
    StepLastPlain(ps, init, x);
  }

  /** A plain atom followed by a space is appended to the flat pieces before the rest runs. */
  lemma RunAtomSpace(ps: seq<string>, a: string, rest: string)
    requires PlainAtom(a) && rest != []
    ensures Run(Start.(pieces := ps), a + " " + rest, true) == Run(Start.(pieces := ps + [a]), rest, true)
  {
    var st := Start.(pieces := ps);
    assert a + " " + rest == a + (" " + rest);
    RunAppend(st, a, " " + rest, true);
    RunWord(st, a);
    assert st.piece + a == a;
    assert (" " + rest)[0] == ' ' && (" " + rest)[1..] == rest && |" " + rest| > 1;
    var mid := st.(piece := a);
    assert Run(mid, " " + rest, true) == Run(Step(mid, ' ', false), rest, true);
    assert Step(mid, ' ', false) == Flush(mid, a);
    FlushFlat(mid, a);
    assert Flush(mid, a) == Start.(pieces := ps + [a]);
  }

  /**
   * From a state that only holds the flat pieces `ps`, running plain atoms
   * joined by spaces to the end of the term appends every atom to the
   * pieces, in order, and leaves nothing else behind.
   */
  lemma {:induction false} JoinedRun(ps: seq<string>, atoms: seq<string>)
    requires |atoms| > 0 && AllPlain(atoms)
    ensures Run(Start.(pieces := ps), Joined(atoms), true) == Start.(pieces := ps + atoms)
    decreases |atoms|
  {
    if |atoms| == 1 {
      RunLastAtom(ps, atoms[0]);
      assert ps + atoms == ps + [atoms[0]];
    } else {
      RunAtomSpace(ps, atoms[0], Joined(atoms[1..]));
      JoinedRun(ps + [atoms[0]], atoms[1..]);
      assert ps + [atoms[0]] + atoms[1..] == ps + atoms;
    }
  }

  /**
   * Round trip: clean, space-free atoms written with single spaces between
   * them tokenize back to exactly those atoms.
   */
  lemma JoinedRoundTrip(atoms: seq<string>)
    requires forall i :: 0 <= i < |atoms| ==> PlainAtom(atoms[i])
    ensures Terms(Joined(atoms)) == Ok(set a | a in atoms)
  {
    if atoms == [] {
      EmptyFilter();
      assert (set a | a in atoms) == {};
    } else {
      var t := Joined(atoms);
      ScanRun(t, 0);
      assert t[0..] == t;
      assert Start.(pieces := []) == Start;
      AllPlainEach(atoms);
      JoinedRun([], atoms);
      assert [] + atoms == atoms;
      FlatTerms(t, Start.(pieces := atoms));
    }
  }
}
