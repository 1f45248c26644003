/** The verdict translator and message rewriter: what the filter sends back
    to the daemon once the analysis engine has answered (or failed), and the
    SMTP disposition the commit event then reports.

    The functions here give the sequence of `filter-dataline` payloads for
    one message; the methods of `Filter.Filter` emit exactly these lines one
    by one. */
module Translator {
  import opened Text
  import opened Codec
  import opened Wrappers

  /** The `dkim-signature` member of the engine's answer: absent (or of a
      JSON type the filter ignores), one string, or a list whose elements
      are strings (Some) or something else (None). */
  datatype DkimField = NoSignature | Signature(text: string) | Signatures(entries: seq<Option<string>>)

  /** A value of `milter.add_headers`: a plain string, an object whose
      `value` member is a string (Some) or missing or not a string (None),
      or any other JSON value. */
  datatype AddValue = Plain(text: string) | Structured(value: Option<string>) | Unusable

  /** The decoded answer of the analysis engine.  Scores are kept as the
      text Go renders for them: `%v` for the X-Spam-Score header, `%.3f`
      for X-Spam-Status and for each symbol. */
  datatype Verdict = Verdict(
    score: string,
    requiredScore: string,
    scoreFixed: string,
    requiredFixed: string,
    subject: string,
    action: string,
    smtpMessage: string,
    dkim: DkimField,
    remove: set<string>,
    add: map<string, AddValue>,
    symbols: map<string, string>)

  /** What the analysis step produced: a transport, request or decoding
      failure, or a decoded verdict. */
  datatype Outcome = LocalFailure | Answered(verdict: Verdict)

  /** The order in which Go's map iteration visits the symbols and the
      add-headers of one verdict.  Go leaves it unspecified. */
  datatype MapOrder = MapOrder(symbols: seq<string>, add: seq<string>)

  predicate IterationOf(order: MapOrder, v: Verdict) {
    Enumerates(order.symbols, v.symbols.Keys) && Enumerates(order.add, v.add.Keys)
  }

  const AddHeader: string := "add header"
  const RewriteSubject: string := "rewrite subject"

  /** Verdict actions that decide the transaction instead of rewriting the
      message.  `greylist` is not one of them. */
  predicate RejectClass(action: string) {
    action == "reject" || action == "soft reject"
  }

  // ---------------------------------------------------------------------
  // writeHeader

  /** A header as physical lines: the name on the first `\n`-segment only. */
  function HeaderLines(name: string, text: string): (r: seq<string>)
    ensures |r| == |Split(text, '\n')|
  {
    var parts := Split(text, '\n');
    [name + ": " + parts[0]] + parts[1..]
  }

  /** The physical lines of a header re-join to `Name: value`. */
  lemma HeaderLinesJoin(name: string, text: string)
    ensures Join(HeaderLines(name, text), "\n") == name + ": " + text
  {
    var parts := Split(text, '\n');
    JoinSplit(text, '\n');
    if |parts| > 1 {
      assert HeaderLines(name, text)[1..] == parts[1..];
    }
  }

  // ---------------------------------------------------------------------
  // DKIM signatures

  function SignatureLines(entry: Option<string>): seq<string> {
    if entry.Some? && entry.value != "" then HeaderLines("DKIM-Signature", entry.value) else []
  }

  function SignatureListLines(entries: seq<Option<string>>): seq<string>
    decreases |entries|
  {
    if |entries| == 0 then []
    else SignatureListLines(entries[..|entries| - 1]) + SignatureLines(entries[|entries| - 1])
  }

  /** The DKIM-Signature headers: each non-empty string signature, in order. */
  function DkimLines(d: DkimField): seq<string> {
    match d
    case NoSignature => []
    case Signature(t) => SignatureLines(Some(t))
    case Signatures(es) => SignatureListLines(es)
  }

  // ---------------------------------------------------------------------
  // The folded `tests=[...]` list

  /** Symbols are added to a line while its length plus the next symbol's
      stays within this many characters. */
  const Budget: nat := 68

  /** Line `j` of the list holding the symbols `g`; the first line starts
      with `tests=[`. */
  function TestsLine(j: nat, g: seq<string>): string {
    (if j == 0 then "tests=[" else "") + Join(g, ", ")
  }

  /** Adding one symbol to the lines so far: a new line is started when the
      open one is non-empty and its length plus the symbol's exceeds the
      budget.  The separator is not counted. */
  function Push(gs: seq<seq<string>>, x: string): (gs': seq<seq<string>>)
    requires |gs| >= 1
    ensures |gs'| >= 1
  {
    var last := |gs| - 1;
    var cur := TestsLine(last, gs[last]);
    if |cur| > 0 && |x| + |cur| > Budget then gs + [[x]]
    else gs[..last] + [gs[last] + [x]]
  }

  /** How the symbols are grouped into lines, one symbol at a time. */
  function Fold(items: seq<string>): (gs: seq<seq<string>>)
    ensures |gs| >= 1
    decreases |items|
  {
    if |items| == 0 then [[]] else Push(Fold(items[..|items| - 1]), items[|items| - 1])
  }

  /** The lines flushed before the last one, tab-indented. */
  function FlushedLines(gs: seq<seq<string>>): (r: seq<string>)
    requires |gs| >= 1
    ensures |r| == |gs| - 1
  {
    seq(|gs| - 1, j requires 0 <= j < |gs| - 1 => "\t" + TestsLine(j, gs[j]))
  }

  /** All lines of the list: the flushed ones and the last one closed by `]`. */
  function TestsLines(items: seq<string>): seq<string> {
    var gs := Fold(items);
    FlushedLines(gs) + ["\t" + TestsLine(|gs| - 1, gs[|gs| - 1]) + "]"]
  }

  lemma FoldSnoc(items: seq<string>, x: string)
    ensures Fold(items + [x]) == Push(Fold(items), x)
  {
    assert (items + [x])[..|items|] == items;
  }

  lemma FlattenSnoc<T>(xss: seq<seq<T>>, ys: seq<T>)
    ensures Flatten(xss + [ys]) == Flatten(xss) + ys
  {
    assert (xss + [ys])[..|xss|] == xss;
  }

  /** Pushing a symbol lists it after all the others. */
  lemma PushFlatten(gs: seq<seq<string>>, x: string)
    requires |gs| >= 1
    ensures Flatten(Push(gs, x)) == Flatten(gs) + [x]
  {
    var last := |gs| - 1;
    if Push(gs, x) == gs + [[x]] {
      FlattenSnoc(gs, [x]);
    } else {
      ExtendFlatten(gs, x);
    }
  }

  lemma ExtendFlatten(gs: seq<seq<string>>, x: string)
    requires |gs| >= 1
    ensures var last := |gs| - 1; Flatten(gs[..last] + [gs[last] + [x]]) == Flatten(gs) + [x]
  {
    var last := |gs| - 1;
    var front, g := gs[..last], gs[last];
    assert Flatten(gs) == Flatten(front) + g;
    assert Flatten(front + [g + [x]]) == Flatten(front) + (g + [x]) by {
      FlattenSnoc(front, g + [x]);
    }
    assert Flatten(front) + (g + [x]) == Flatten(front) + g + [x];
  }

  /** Every symbol is listed exactly once, in the given order. */
  lemma {:induction false} FoldFlatten(items: seq<string>)
    ensures Flatten(Fold(items)) == items
    decreases |items|
  {
    if |items| > 0 {
      var init, x := items[..|items| - 1], items[|items| - 1];
      assert Flatten(Fold(items)) == Flatten(Fold(init)) + [x] by {
        PushFlatten(Fold(init), x);
      }
      FoldFlatten(init);
      assert init + [x] == items;
    }
  }

  predicate AllNonEmpty(items: seq<string>) {
    forall i | 0 <= i < |items| :: |items[i]| > 0
  }

  /** Lines as the folding loop leaves them: symbols are non-empty, every
      line after the first holds one at least, a line ends only because the
      next symbol does not fit, and a symbol that does not open a
      continuation line fitted when it was added. */
  predicate WellFolded(gs: seq<seq<string>>) {
    FoldedSymbols(gs) && FoldedBreaks(gs)
  }

  predicate FoldedSymbols(gs: seq<seq<string>>) {
    && (forall j, k | 0 <= j < |gs| && 0 <= k < |gs[j]| :: |gs[j][k]| > 0)
    && (forall j | 1 <= j < |gs| :: |gs[j]| > 0)
  }

  predicate FoldedBreaks(gs: seq<seq<string>>)
    requires FoldedSymbols(gs)
  {
    && (forall j | 0 <= j < |gs| - 1 :: |TestsLine(j, gs[j])| + |gs[j + 1][0]| > Budget)
    && (forall j, k | 0 <= j < |gs| && 0 <= k < |gs[j]| && (j == 0 || k > 0) ::
          |TestsLine(j, gs[j][..k])| + |gs[j][k]| <= Budget)
  }

  lemma PushSymbols(gs: seq<seq<string>>, x: string)
    requires |gs| >= 1 && FoldedSymbols(gs) && |x| > 0
    ensures FoldedSymbols(Push(gs, x))
  {
    var last := |gs| - 1;
    var g := gs[last];
    var gs' := Push(gs, x);
    if gs' == gs + [[x]] {
      forall j, k | 0 <= j < |gs'| && 0 <= k < |gs'[j]| ensures |gs'[j][k]| > 0 {
        if j < |gs| { assert gs'[j] == gs[j]; } else { assert gs'[j] == [x]; }
      }
      forall j | 1 <= j < |gs'| ensures |gs'[j]| > 0 {
        if j < |gs| { assert gs'[j] == gs[j]; } else { assert gs'[j] == [x]; }
      }
    } else {
      var g' := g + [x];
      assert gs' == gs[..last] + [g'];
      forall j, k | 0 <= j < |gs'| && 0 <= k < |gs'[j]| ensures |gs'[j][k]| > 0 {
        if j < last { assert gs'[j] == gs[j]; }
        else if k < |g| { assert gs'[j][k] == g[k]; }
        else { assert gs'[j][k] == x; }
      }
      forall j | 1 <= j < |gs'| ensures |gs'[j]| > 0 {
        if j < last { assert gs'[j] == gs[j]; } else { assert gs'[j] == g'; }
      }
    }
  }

  lemma PushBreaks(gs: seq<seq<string>>, x: string)
    requires |gs| >= 1 && FoldedSymbols(gs) && FoldedBreaks(gs) && |x| > 0
    ensures FoldedSymbols(Push(gs, x)) && FoldedBreaks(Push(gs, x))
  {
    PushSymbols(gs, x);
    var last := |gs| - 1;
    var g := gs[last];
    var cur := TestsLine(last, g);
    var gs' := Push(gs, x);
    if |cur| > 0 && |x| + |cur| > Budget {
      assert gs' == gs + [[x]];
      forall j | 0 <= j < |gs'| - 1 ensures |TestsLine(j, gs'[j])| + |gs'[j + 1][0]| > Budget {
        assert gs'[j] == gs[j];
        if j + 1 < |gs| { assert gs'[j + 1] == gs[j + 1]; }
      }
      forall j, k | 0 <= j < |gs'| && 0 <= k < |gs'[j]| && (j == 0 || k > 0)
        ensures |TestsLine(j, gs'[j][..k])| + |gs'[j][k]| <= Budget
      {
        if j < |gs| { assert gs'[j] == gs[j]; }
      }
    } else {
      var g' := g + [x];
      assert gs' == gs[..last] + [g'];
      if last > 0 {
        assert |g| > 0;
        JoinFirst(g, ", ");
      }
      forall j | 0 <= j < |gs'| - 1 ensures |TestsLine(j, gs'[j])| + |gs'[j + 1][0]| > Budget {
        assert gs'[j] == gs[j];
        if j + 1 < last { assert gs'[j + 1] == gs[j + 1]; }
        else { assert gs'[j + 1] == g'; assert g'[0] == g[0]; }
      }
      forall j, k | 0 <= j < |gs'| && 0 <= k < |gs'[j]| && (j == 0 || k > 0)
        ensures |TestsLine(j, gs'[j][..k])| + |gs'[j][k]| <= Budget
      {
        if j < last { assert gs'[j] == gs[j]; }
        else if k < |g| {
          assert g'[..k] == g[..k];
          assert g'[k] == g[k];
        } else {
          assert g'[..k] == g;
        }
      }
    }
  }

  /** The shape of the folded list: every line after the first holds at
      least one symbol; a line was ended only because the next symbol did
      not fit; and every symbol that starts no continuation line fitted
      within the budget when it was added. */
  lemma {:induction false} FoldShape(items: seq<string>)
    requires AllNonEmpty(items)
    ensures WellFolded(Fold(items))
    decreases |items|
  {
    if |items| > 0 {
      var init := items[..|items| - 1];
      assert AllNonEmpty(init) by {
        forall i | 0 <= i < |init| ensures |init[i]| > 0 { assert init[i] == items[i]; }
      }
      FoldShape(init);
      PushBreaks(Fold(init), items[|items| - 1]);
    }
  }

  lemma JoinFirst(g: seq<string>, sep: string)
    requires |g| > 0
    ensures |Join(g, sep)| >= |g[0]|
  {
  }

  lemma {:induction false} JoinSnoc(g: seq<string>, sep: string, x: string)
    ensures Join(g + [x], sep) == if |g| == 0 then x else Join(g, sep) + sep + x
    decreases |g|
  {
    if |g| > 1 {
      JoinSnoc(g[1..], sep, x);
      assert (g + [x])[1..] == g[1..] + [x];
    } else if |g| == 1 {
      assert (g + [x])[1..] == [x];
    }
  }

  /** A line holding two or more symbols (or the first line with at least
      one) is at most two characters over the budget: the uncounted `, `. */
  lemma FoldLineWidth(items: seq<string>, j: nat)
    requires AllNonEmpty(items)
    requires j < |Fold(items)|
    requires |Fold(items)[j]| >= 2 || (j == 0 && |Fold(items)[j]| >= 1)
    ensures |TestsLine(j, Fold(items)[j])| <= Budget + 2
  {
    FoldShape(items);
    var g := Fold(items)[j];
    var k := |g| - 1;
    assert g == g[..k] + [g[k]];
    JoinSnoc(g[..k], ", ", g[k]);
  }

  /** The open line of `gs` after `i` symbols, as the folding loop's buffer. */
  function OpenLine(gs: seq<seq<string>>): string
    requires |gs| >= 1
  {
    TestsLine(|gs| - 1, gs[|gs| - 1])
  }

  /** One turn of the folding loop over symbol `x`, the `i`-th: the buffer
      holds the open line; it is flushed (tab-prefixed) when it is non-empty
      and the symbol would take it over the budget; `, ` is written only
      when the buffer is non-empty and the symbol is not the first; then
      the symbol is appended.  The result is the next open line, and the
      flushed lines grow by the one flushed. */
  lemma PushBuffer(gs: seq<seq<string>>, x: string, i: nat)
    requires |gs| >= 1 && FoldedSymbols(gs)
    requires |gs[|gs| - 1]| == 0 ==> i == 0
    requires |gs[|gs| - 1]| > 0 ==> i > 0
    ensures var buf := OpenLine(gs);
      var flush := |buf| > 0 && |x| + |buf| > Budget;
      var b1 := if flush then "" else buf;
      var b2 := if |b1| > 0 && i > 0 then b1 + ", " else b1;
      && OpenLine(Push(gs, x)) == b2 + x
      && FlushedLines(Push(gs, x)) == FlushedLines(gs) + (if flush then ["\t" + buf] else [])
  {
    var last := |gs| - 1;
    var g := gs[last];
    var buf := OpenLine(gs);
    if |buf| > 0 && |x| + |buf| > Budget {
      assert Push(gs, x) == gs + [[x]];
      FlushedSnoc(gs, [x]);
    } else {
      assert Push(gs, x) == gs[..last] + [g + [x]];
      JoinSnoc(g, ", ", x);
      FlushedReplaceLast(gs, g + [x]);
      if |g| > 0 {
        JoinFirst(g, ", ");
      }
    }
  }

  lemma FlushedSnoc(gs: seq<seq<string>>, g: seq<string>)
    requires |gs| >= 1
    ensures FlushedLines(gs + [g]) == FlushedLines(gs) + ["\t" + TestsLine(|gs| - 1, gs[|gs| - 1])]
  {
    var f, f' := FlushedLines(gs), FlushedLines(gs + [g]);
    forall j | 0 <= j < |f'| ensures f'[j] == (f + ["\t" + TestsLine(|gs| - 1, gs[|gs| - 1])])[j] {
      assert (gs + [g])[j] == gs[j];
    }
  }

  lemma FlushedReplaceLast(gs: seq<seq<string>>, g: seq<string>)
    requires |gs| >= 1
    ensures FlushedLines(gs[..|gs| - 1] + [g]) == FlushedLines(gs)
  {
    var f, f' := FlushedLines(gs), FlushedLines(gs[..|gs| - 1] + [g]);
    forall j | 0 <= j < |f'| ensures f'[j] == f[j] {
      assert (gs[..|gs| - 1] + [g])[j] == gs[j];
    }
  }

  /** The open line after some symbols holds one exactly when there were
      any. */
  lemma OpenLineHolds(items: seq<string>)
    requires AllNonEmpty(items)
    ensures var gs := Fold(items); var g := gs[|gs| - 1];
      && FoldedSymbols(gs)
      && (|g| == 0 <==> |items| == 0)
  {
    FoldShape(items);
    FoldFlatten(items);
    var gs := Fold(items);
    var last := |gs| - 1;
    var g := gs[last];
    assert gs == gs[..last] + [g];
    FlattenSnoc(gs[..last], g);
    if |g| == 0 {
      assert gs[..last] == [];
    }
  }

  /** Whether the buffer is flushed before symbol `x`. */
  predicate Breaks(buf: string, x: string) {
    |buf| > 0 && |x| + |buf| > Budget
  }

  /** The buffer after symbol `x`, the `i`-th: emptied when it breaks,
      `, ` written only after a symbol on the same line, then `x`. */
  function NextBuffer(buf: string, x: string, i: nat): string {
    var b1 := if Breaks(buf, x) then "" else buf;
    (if |b1| > 0 && i > 0 then b1 + ", " else b1) + x
  }

  /** The folding loop's turn for the `i`-th symbol, stated on the symbols
      themselves: the buffer before it is the open line of the first `i`. */
  lemma FoldTurn(items: seq<string>, i: nat)
    requires AllNonEmpty(items) && i < |items|
    ensures OpenLine(Fold(items[..i + 1])) == NextBuffer(OpenLine(Fold(items[..i])), items[i], i)
    ensures FlushedLines(Fold(items[..i + 1])) == FlushedLines(Fold(items[..i]))
      + (if Breaks(OpenLine(Fold(items[..i])), items[i]) then ["\t" + OpenLine(Fold(items[..i]))] else [])
  {
    assert items[..i + 1] == items[..i] + [items[i]];
    FoldSnoc(items[..i], items[i]);
    assert AllNonEmpty(items[..i]);
    OpenLineHolds(items[..i]);
    PushBuffer(Fold(items[..i]), items[i], i);
  }

  /** Two symbols whose lengths fit the budget together share the first
      line, separated by `, ` and closed by `]`. */
  lemma TwoSymbolsOneLine(a: string, b: string)
    requires 7 + |a| + |b| <= Budget
    ensures TestsLines([a, b]) == ["\ttests=[" + a + ", " + b + "]"]
  {
    FoldTwo(a, b);
    assert FlushedLines([[a, b]]) == [];
    assert Join([a, b], ", ") == a + ", " + b by {
      assert [a, b][1..] == [b];
    }
    assert TestsLine(0, [a, b]) == "tests=[" + (a + ", " + b);
    assert TestsLines([a, b]) == [] + ["\t" + TestsLine(0, [a, b]) + "]"];
    assert "\t" + ("tests=[" + (a + ", " + b)) + "]" == "\ttests=[" + a + ", " + b + "]";
  }

  lemma FoldOne(a: string)
    requires 7 + |a| <= Budget
    ensures Fold([a]) == [[a]]
  {
    assert [a][..0] == [];
    var none: seq<string> := [];
    assert Fold([]) == [none];
    assert TestsLine(0, none) == "tests=[";
    assert Push([none], a) == [none][..0] + [none + [a]];
    assert [none][..0] == [] && none + [a] == [a];
  }

  lemma FoldTwo(a: string, b: string)
    requires 7 + |a| + |b| <= Budget
    ensures Fold([a, b]) == [[a, b]]
  {
    FoldOne(a);
    assert [a, b][..1] == [a];
    assert Join([a], ", ") == a;
    assert TestsLine(0, [a]) == "tests=[" + a;
    assert Push([[a]], b) == [[a]][..0] + [[a] + [b]];
    assert [[a]][..0] == [] && [a] + [b] == [a, b];
  }

  /** The symbol names in `sort.Strings` order. */
  function SortedNames(order: MapOrder): seq<string> {
    SortStrings(order.symbols)
  }

  /** `name=score` for each of `names`. */
  function Symbols(names: seq<string>, scores: map<string, string>): (items: seq<string>)
    requires forall i | 0 <= i < |names| :: names[i] in scores
    ensures |items| == |names|
    ensures AllNonEmpty(items)
  {
    seq(|names|, i requires 0 <= i < |names| => names[i] + "=" + scores[names[i]])
  }

  /** `name=score` for each symbol, in sorted order. */
  function SymbolItems(v: Verdict, order: MapOrder): (items: seq<string>)
    requires IterationOf(order, v)
    ensures |items| == |SortedNames(order)|
    ensures AllNonEmpty(items)
  {
    var names := SortedNames(order);
    assert forall i | 0 <= i < |names| :: names[i] in v.symbols by {
      forall i | 0 <= i < |names| ensures names[i] in v.symbols {
        assert names[i] in multiset(names);
      }
    }
    Symbols(names, v.symbols)
  }

  /** The sorted names list every symbol of the verdict exactly once, in
      ascending order, whatever order the map was visited in. */
  lemma SortedNamesEnumerate(v: Verdict, order: MapOrder)
    requires IterationOf(order, v)
    ensures Sorted(SortedNames(order))
    ensures Enumerates(SortedNames(order), v.symbols.Keys)
  {
    EnumeratesMultiset(order.symbols, v.symbols.Keys);
    MultisetEnumerates(SortedNames(order), v.symbols.Keys);
  }

  /** A sequence with the same elements as a set lists that set. */
  lemma MultisetEnumerates(s: seq<string>, keys: set<string>)
    requires multiset(s) == multiset(keys)
    ensures Enumerates(s, keys)
  {
    assert |s| == |keys| by {
      assert |multiset(s)| == |multiset(keys)|;
    }
    forall i | 0 <= i < |s| ensures s[i] in keys {
      assert s[i] in multiset(s);
    }
    forall i, j | 0 <= i < j < |s| ensures s[i] != s[j] {
      if s[i] == s[j] {
        CountTwice(s, i, j);
      }
    }
  }

  lemma CountTwice(s: seq<string>, i: nat, j: nat)
    requires i < j < |s| && s[i] == s[j]
    ensures multiset(s)[s[i]] >= 2
  {
    var x := s[i];
    assert s == s[..j] + [s[j]] + s[j + 1..];
    assert s[..j][i] == x;
    assert x in multiset(s[..j]);
    assert multiset(s) == multiset(s[..j]) + multiset{x} + multiset(s[j + 1..]);
  }

  // ---------------------------------------------------------------------
  // The spam headers

  /** X-Spam and X-Spam-Score, sent for every `add header` verdict. */
  function SpamHeaders(v: Verdict): seq<string> {
    ["X-Spam: yes", "X-Spam-Score: " + v.score + " / " + v.requiredScore]
  }

  function StatusHeader(v: Verdict): string {
    "X-Spam-Status: Yes, score=" + v.scoreFixed + " required=" + v.requiredFixed
  }

  /** X-Spam-Status and the folded list, when the verdict has symbols. */
  function StatusLines(v: Verdict, order: MapOrder): seq<string>
    requires IterationOf(order, v)
  {
    if |v.symbols| != 0 then [StatusHeader(v)] + TestsLines(SymbolItems(v, order)) else []
  }

  /** For `add header`: X-Spam, X-Spam-Score, and when symbols exist
      X-Spam-Status and the folded list. */
  function SpamLines(v: Verdict, order: MapOrder): seq<string>
    requires IterationOf(order, v)
  {
    if v.action != AddHeader then [] else SpamHeaders(v) + StatusLines(v, order)
  }

  // ---------------------------------------------------------------------
  // Added headers

  /** The lines one added header contributes in the map-order loop: its
      own lines when it is plain, none otherwise. */
  function PlainOf(v: Verdict, h: string): seq<string> {
    if h in v.add && v.add[h].Plain? then HeaderLines(h, v.add[h].text) else []
  }

  function PlainLines(v: Verdict, names: seq<string>): seq<string>
    decreases |names|
  {
    if |names| == 0 then []
    else PlainLines(v, names[..|names| - 1]) + PlainOf(v, names[|names| - 1])
  }

  lemma PlainLinesSnoc(v: Verdict, names: seq<string>, i: nat)
    requires i < |names|
    ensures PlainLines(v, names[..i + 1]) == PlainLines(v, names[..i]) + PlainOf(v, names[i])
  {
    assert names[..i + 1][..i] == names[..i];
  }

  /** The structured headers the filter re-emits, in this fixed order. */
  const AuthOrder: seq<string> :=
    ["ARC-Seal", "ARC-Message-Signature", "ARC-Authentication-Results", "Authentication-Results"]

  /** The structured value collected for a header name; "" when absent. */
  function AuthValue(v: Verdict, h: string): string {
    if h in v.add && v.add[h].Structured? && v.add[h].value.Some? then v.add[h].value.value else ""
  }

  /** The lines one structured header contributes: none when it has no
      collected value. */
  function AuthOf(v: Verdict, h: string): seq<string> {
    if AuthValue(v, h) != "" then HeaderLines(h, AuthValue(v, h)) else []
  }

  function AuthLinesFrom(v: Verdict, names: seq<string>): seq<string>
    decreases |names|
  {
    if |names| == 0 then []
    else AuthLinesFrom(v, names[..|names| - 1]) + AuthOf(v, names[|names| - 1])
  }

  lemma AuthLinesSnoc(v: Verdict, names: seq<string>, i: nat)
    requires i < |names|
    ensures AuthLinesFrom(v, names[..i + 1]) == AuthLinesFrom(v, names[..i]) + AuthOf(v, names[i])
  {
    assert names[..i + 1][..i] == names[..i];
  }

  function AuthLines(v: Verdict): seq<string> {
    AuthLinesFrom(v, AuthOrder)
  }

  /** All headers the verdict adds: the plain ones in map order, then the
      structured ones in the fixed order. */
  function AddedLines(v: Verdict, order: MapOrder): seq<string> {
    PlainLines(v, order.add) + AuthLines(v)
  }

  // ---------------------------------------------------------------------
  // Replay of the original message

  /** `inhdr` and `rmhdr` of the replay loop. */
  datatype ReplayState = ReplayState(inHeaders: bool, removing: bool)

  const ReplayStart: ReplayState := ReplayState(true, false)

  /** The line starts a header the verdict asks to remove. */
  predicate Removed(remove: set<string>, line: string) {
    exists h | h in remove :: HasPrefix(line, h + ":")
  }

  /** A folded continuation line of the header above it. */
  predicate Continuation(line: string) {
    HasPrefix(line, "\t") || HasPrefix(line, " ")
  }

  /** One turn of the replay loop: the new state and the payloads sent. */
  function ReplayStep(v: Verdict, st: ReplayState, line: string): (ReplayState, seq<string>) {
    var inHeaders := st.inHeaders && line != "";
    var removing := st.removing && line != "";
    if inHeaders && removing && Continuation(line) then (ReplayState(true, true), [])
    else if inHeaders && Removed(v.remove, line) then (ReplayState(true, true), [])
    else if v.action == RewriteSubject && inHeaders && HasPrefix(line, "Subject: ") then
      (ReplayState(inHeaders, false), ["Subject: " + v.subject])
    else (ReplayState(inHeaders, false), [Escape(line)])
  }

  function ReplayFrom(v: Verdict, st: ReplayState, lines: seq<string>): seq<string>
    decreases |lines|
  {
    if |lines| == 0 then []
    else
      var (st', out) := ReplayStep(v, st, lines[0]);
      out + ReplayFrom(v, st', lines[1..])
  }

  function ReplayEnd(v: Verdict, st: ReplayState, lines: seq<string>): ReplayState
    decreases |lines|
  {
    if |lines| == 0 then st else ReplayEnd(v, ReplayStep(v, st, lines[0]).0, lines[1..])
  }

  /** Replaying two runs of lines is replaying the first and then the second
      from the state the first left. */
  lemma {:induction false} ReplayConcat(v: Verdict, st: ReplayState, a: seq<string>, b: seq<string>)
    ensures ReplayFrom(v, st, a + b) == ReplayFrom(v, st, a) + ReplayFrom(v, ReplayEnd(v, st, a), b)
    decreases |a|
  {
    if |a| > 0 {
      assert (a + b)[0] == a[0];
      assert (a + b)[1..] == a[1..] + b;
      ReplayConcat(v, ReplayStep(v, st, a[0]).0, a[1..], b);
    } else {
      assert a + b == b;
    }
  }

  /** The state after two runs of lines. */
  lemma {:induction false} ReplayEndConcat(v: Verdict, st: ReplayState, a: seq<string>, b: seq<string>)
    ensures ReplayEnd(v, st, a + b) == ReplayEnd(v, ReplayEnd(v, st, a), b)
    decreases |a|
  {
    if |a| > 0 {
      assert (a + b)[0] == a[0];
      assert (a + b)[1..] == a[1..] + b;
      ReplayEndConcat(v, ReplayStep(v, st, a[0]).0, a[1..], b);
    } else {
      assert a + b == b;
    }
  }

  /** One more turn of the replay loop: the lines sent and the state it
      leaves extend those of the lines before it by one step. */
  lemma ReplayPrefix(v: Verdict, lines: seq<string>, i: nat)
    requires i < |lines|
    ensures var st := ReplayEnd(v, ReplayStart, lines[..i]);
      && ReplayFrom(v, ReplayStart, lines[..i + 1]) == ReplayFrom(v, ReplayStart, lines[..i]) + ReplayStep(v, st, lines[i]).1
      && ReplayEnd(v, ReplayStart, lines[..i + 1]) == ReplayStep(v, st, lines[i]).0
  {
    assert lines[..i + 1] == lines[..i] + [lines[i]];
    ReplayConcat(v, ReplayStart, lines[..i], [lines[i]]);
    ReplayEndConcat(v, ReplayStart, lines[..i], [lines[i]]);
    var st := ReplayEnd(v, ReplayStart, lines[..i]);
    assert [lines[i]][1..] == [];
    assert ReplayFrom(v, st, [lines[i]]) == ReplayStep(v, st, lines[i]).1 + [];
  }

  /** Outside the header section every line is sent escaped and unchanged. */
  lemma {:induction false} ReplayBody(v: Verdict, removing: bool, lines: seq<string>)
    ensures ReplayFrom(v, ReplayState(false, removing), lines) == EscapeAll(lines)
    decreases |lines|
  {
    if |lines| > 0 {
      ReplayBody(v, false, lines[1..]);
      assert EscapeAll(lines) == [Escape(lines[0])] + EscapeAll(lines[1..]);
    }
  }

  /** With nothing to remove and no subject to rewrite, the whole message is
      sent escaped and unchanged. */
  lemma {:induction false} ReplayUnmodified(v: Verdict, st: ReplayState, lines: seq<string>)
    requires v.remove == {} && v.action != RewriteSubject
    requires !st.removing
    ensures ReplayFrom(v, st, lines) == EscapeAll(lines)
    decreases |lines|
  {
    if |lines| > 0 {
      ReplayUnmodified(v, ReplayStep(v, st, lines[0]).0, lines[1..]);
      assert EscapeAll(lines) == [Escape(lines[0])] + EscapeAll(lines[1..]);
    }
  }

  /** The header section ends at the first empty line: that line and every
      line after it are sent escaped and unchanged, whatever the verdict
      asks for. */
  lemma ReplaySections(v: Verdict, headers: seq<string>, body: seq<string>)
    ensures ReplayFrom(v, ReplayStart, headers + [""] + body)
         == ReplayFrom(v, ReplayStart, headers) + [""] + EscapeAll(body)
  {
    var st := ReplayEnd(v, ReplayStart, headers);
    ReplayConcat(v, ReplayStart, headers, [""] + body);
    assert headers + [""] + body == headers + ([""] + body);
    assert ([""] + body)[1..] == body;
    ReplayBody(v, false, body);
  }

  /** A line the replay may send from `headers`: a header line that is not
      being removed, escaped, or the substituted subject. */
  predicate SentFrom(v: Verdict, headers: seq<string>, x: string) {
    || (exists i | 0 <= i < |headers| :: x == Escape(headers[i]) && !Removed(v.remove, headers[i]))
    || (v.action == RewriteSubject && x == "Subject: " + v.subject)
  }

  /** In the header section, every line sent is either a kept line, escaped,
      or the substituted subject; a removed header never reaches the output,
      and no line sent is the `.` terminator. */
  lemma {:induction false} ReplayHeaderLines(v: Verdict, st: ReplayState, headers: seq<string>)
    requires st.inHeaders
    requires "" !in headers
    ensures forall x | x in ReplayFrom(v, st, headers) :: SentFrom(v, headers, x) && x != "."
    decreases |headers|
  {
    if |headers| > 0 {
      var l := headers[0];
      var (st', out) := ReplayStep(v, st, l);
      assert l != "" && st'.inHeaders;
      assert "" !in headers[1..];
      ReplayHeaderLines(v, st', headers[1..]);
      var rest := ReplayFrom(v, st', headers[1..]);
      assert ReplayFrom(v, st, headers) == out + rest;
      forall x | x in out ensures SentFrom(v, headers, x) && x != "." {
        if x == Escape(l) {
          EscapeRoundTrip(l);
          assert !Removed(v.remove, l);
          assert headers[0] == l;
        } else {
          assert x == "Subject: " + v.subject;
          assert |x| >= 9;
        }
      }
      forall x | x in rest ensures SentFrom(v, headers, x) && x != "." {
        if !(v.action == RewriteSubject && x == "Subject: " + v.subject) {
          var i :| 0 <= i < |headers[1..]| && x == Escape(headers[1..][i]) && !Removed(v.remove, headers[1..][i]);
          assert headers[1..][i] == headers[i + 1];
        }
      }
    }
  }

  /** With `rewrite subject`, every `Subject: ` line sent from the header
      section carries the verdict's subject. */
  lemma {:induction false} ReplaySubject(v: Verdict, st: ReplayState, headers: seq<string>)
    requires v.action == RewriteSubject
    requires st.inHeaders
    requires "" !in headers
    ensures forall x | x in ReplayFrom(v, st, headers) && HasPrefix(x, "Subject: ") ::
      x == "Subject: " + v.subject
    decreases |headers|
  {
    if |headers| > 0 {
      var l := headers[0];
      var (st', out) := ReplayStep(v, st, l);
      assert l != "" && st'.inHeaders;
      assert "" !in headers[1..];
      ReplaySubject(v, st', headers[1..]);
      assert ReplayFrom(v, st, headers) == out + ReplayFrom(v, st', headers[1..]);
      if !(st.removing && Continuation(l)) && !Removed(v.remove, l) && !HasPrefix(l, "Subject: ") {
        assert out == [Escape(l)];
        EscapeNotSubject(l);
      }
    }
  }

  /** Stuffing a line never makes it a `Subject: ` line. */
  lemma EscapeNotSubject(l: string)
    requires !HasPrefix(l, "Subject: ")
    ensures !HasPrefix(Escape(l), "Subject: ")
  {
    if HasPrefix(l, ".") {
      assert Escape(l)[0] == '.' != "Subject: "[0];
    }
  }

  /** The replay sends at most one line per original line. */
  lemma {:induction false} ReplayLength(v: Verdict, st: ReplayState, lines: seq<string>)
    ensures |ReplayFrom(v, st, lines)| <= |lines|
    decreases |lines|
  {
    if |lines| > 0 { ReplayLength(v, ReplayStep(v, st, lines[0]).0, lines[1..]); }
  }

  /** The example header block: `X-Foo: a`, its continuation `\tb`,
      `X-Bar: c`, an empty line, with X-Foo to be removed. */
  lemma RemoveFoldedHeader(v: Verdict)
    requires v.remove == {"X-Foo"} && v.action != RewriteSubject
    ensures ReplayFrom(v, ReplayStart, ["X-Foo: a", "\tb", "X-Bar: c", "", "body"])
         == ["X-Bar: c", "", "body"]
  {
    var lines := ["X-Foo: a", "\tb", "X-Bar: c", "", "body"];
    assert "X-Foo: a"[..6] == "X-Foo:";
    assert Removed(v.remove, "X-Foo: a");
    assert "\tb"[..1] == "\t";
    assert !Removed(v.remove, "X-Bar: c") by {
      assert "X-Bar: c"[..6] != "X-Foo:" by { assert "X-Bar: c"[..6][2] == 'B'; }
    }
    assert !Continuation("X-Bar: c") by {
      assert "X-Bar: c"[..1] != "\t" && "X-Bar: c"[..1] != " " by { assert "X-Bar: c"[..1][0] == 'X'; }
    }
    assert !HasPrefix("X-Bar: c", ".") by { assert "X-Bar: c"[..1][0] == 'X'; }
    assert !HasPrefix("body", ".") by { assert "body"[..1][0] == 'b'; }
    assert lines[1..] == ["\tb", "X-Bar: c", "", "body"];
    assert lines[1..][1..] == ["X-Bar: c", "", "body"];
    assert lines[1..][1..][1..] == ["", "body"];
    assert lines[1..][1..][1..][1..] == ["body"];
  }

  /** The header lines that survive removal, in order: a line that starts
      a header of `remove` is dropped, and so is every continuation line
      right after a dropped line.  `dropping` says whether the line before
      the first one was dropped. */
  function KeptHeaders(remove: set<string>, dropping: bool, headers: seq<string>): seq<string>
    decreases |headers|
  {
    if |headers| == 0 then []
    else
      var line := headers[0];
      if Removed(remove, line) || (dropping && Continuation(line)) then KeptHeaders(remove, true, headers[1..])
      else [line] + KeptHeaders(remove, false, headers[1..])
  }

  /** A removed header goes together with all its continuation lines,
      however many; what follows is kept or dropped on its own. */
  lemma RemovedWithContinuations(remove: set<string>, dropping: bool, line: string,
                                 conts: seq<string>, rest: seq<string>)
    requires Removed(remove, line)
    requires forall i | 0 <= i < |conts| :: Continuation(conts[i])
    ensures KeptHeaders(remove, dropping, [line] + conts + rest) == KeptHeaders(remove, true, rest)
  {
    assert ([line] + conts + rest)[1..] == conts + rest;
    DropContinuations(remove, conts, rest);
  }

  lemma {:induction false} DropContinuations(remove: set<string>, conts: seq<string>, rest: seq<string>)
    requires forall i | 0 <= i < |conts| :: Continuation(conts[i])
    ensures KeptHeaders(remove, true, conts + rest) == KeptHeaders(remove, true, rest)
    decreases |conts|
  {
    if |conts| > 0 {
      assert (conts + rest)[1..] == conts[1..] + rest;
      DropContinuations(remove, conts[1..], rest);
    } else {
      assert conts + rest == rest;
    }
  }

  /** A line that starts no removed header and continues no dropped one is
      kept, and removal stops there. */
  lemma KeptLine(remove: set<string>, dropping: bool, line: string, rest: seq<string>)
    requires !Removed(remove, line) && (dropping ==> !Continuation(line))
    ensures KeptHeaders(remove, dropping, [line] + rest) == [line] + KeptHeaders(remove, false, rest)
  {
    assert ([line] + rest)[1..] == rest;
  }

  /** How one kept header line is sent: the substituted subject for a
      `Subject: ` line under `rewrite subject`, the escaped line otherwise. */
  function SendHeader(v: Verdict, line: string): string {
    if v.action == RewriteSubject && HasPrefix(line, "Subject: ") then "Subject: " + v.subject else Escape(line)
  }

  function SendHeaders(v: Verdict, lines: seq<string>): (r: seq<string>)
    ensures |r| == |lines|
    decreases |lines|
  {
    if |lines| == 0 then [] else [SendHeader(v, lines[0])] + SendHeaders(v, lines[1..])
  }

  /** The header section's replay sends exactly the kept header lines, in
      their order, each as `SendHeader` says: no kept line is lost, and no
      removed header or continuation of one is sent. */
  lemma {:induction false} ReplayKeptHeaders(v: Verdict, removing: bool, headers: seq<string>)
    requires "" !in headers
    ensures ReplayFrom(v, ReplayState(true, removing), headers)
         == SendHeaders(v, KeptHeaders(v.remove, removing, headers))
    decreases |headers|
  {
    if |headers| > 0 {
      var line, rest := headers[0], headers[1..];
      assert line != "" && "" !in rest;
      if Removed(v.remove, line) || (removing && Continuation(line)) {
        ReplayKeptHeaders(v, true, rest);
      } else {
        ReplayKeptHeaders(v, false, rest);
        var kept := KeptHeaders(v.remove, false, rest);
        assert ([line] + kept)[1..] == kept;
      }
    }
  }

  /** Without a subject to rewrite, the kept header lines are sent escaped;
      the body after the first empty line follows unchanged. */
  lemma ReplayRemovesHeaders(v: Verdict, headers: seq<string>, body: seq<string>)
    requires "" !in headers && v.action != RewriteSubject
    ensures ReplayFrom(v, ReplayStart, headers + [""] + body)
         == EscapeAll(KeptHeaders(v.remove, false, headers)) + [""] + EscapeAll(body)
  {
    ReplaySections(v, headers, body);
    ReplayKeptHeaders(v, false, headers);
    SendEscaped(v, KeptHeaders(v.remove, false, headers));
  }

  lemma {:induction false} SendEscaped(v: Verdict, lines: seq<string>)
    requires v.action != RewriteSubject
    ensures SendHeaders(v, lines) == EscapeAll(lines)
    decreases |lines|
  {
    if |lines| > 0 {
      SendEscaped(v, lines[1..]);
    }
  }

  // ---------------------------------------------------------------------
  // The whole answer

  /** The payloads sent for a pass-class verdict: DKIM signatures, spam
      headers, plain added headers in map order, the structured headers in
      canonical order, the replayed message and the terminator. */
  function Rewrite(v: Verdict, message: seq<string>, order: MapOrder): seq<string>
    requires IterationOf(order, v)
  {
    DkimLines(v.dkim) + SpamLines(v, order) + AddedLines(v, order)
    + ReplayFrom(v, ReplayStart, message) + ["."]
  }

  /** The payloads sent for one analysis outcome. */
  function Answer(outcome: Outcome, message: seq<string>, order: MapOrder): seq<string>
    requires outcome.Answered? ==> IterationOf(order, outcome.verdict)
  {
    match outcome
    case LocalFailure => EscapeAll(message) + ["."]
    case Answered(v) =>
      if RejectClass(v.action) then EscapeAll(message) + ["."] else Rewrite(v, message, order)
  }

  /** The transaction's (action, response) after the analysis outcome. */
  function Decide(outcome: Outcome, action: string, response: string): (string, string) {
    match outcome
    case LocalFailure => ("tempfail", "server internal error")
    case Answered(v) => if RejectClass(v.action) then (v.action, v.smtpMessage) else (action, response)
  }

  /** After a failure or a reject-class verdict the daemon receives exactly
      the original message back. */
  lemma UnrewrittenAnswer(outcome: Outcome, message: seq<string>, order: MapOrder)
    requires outcome.LocalFailure? || RejectClass(outcome.verdict.action)
    requires outcome.Answered? ==> IterationOf(order, outcome.verdict)
    ensures Receive(Answer(outcome, message, order)) == Some(message)
  {
    FlushReceive(message, []);
    assert EscapeAll(message) + ["."] + [] == EscapeAll(message) + ["."];
  }

  /** A verdict that asks for nothing (no signature, no header to add or
      remove, an action other than the rewriting and rejecting ones) sends
      the message back unchanged. */
  lemma NothingToDo(v: Verdict, message: seq<string>, order: MapOrder)
    requires IterationOf(order, v)
    requires v.dkim == NoSignature && v.add == map[] && v.remove == {}
    requires v.action != AddHeader && v.action != RewriteSubject
    ensures Rewrite(v, message, order) == EscapeAll(message) + ["."]
    ensures Receive(Rewrite(v, message, order)) == Some(message)
  {
    assert Rewrite(v, message, order) == EscapeAll(message) + ["."] by {
      NoAddedHeaders(v, order);
      ReplayUnmodified(v, ReplayStart, message);
      assert DkimLines(v.dkim) == [] && SpamLines(v, order) == [];
      assert Rewrite(v, message, order) == [] + [] + [] + EscapeAll(message) + ["."];
    }
    FlushReceive(message, []);
    assert EscapeAll(message) + ["."] + [] == EscapeAll(message) + ["."];
  }

  /** `add header` without symbols adds exactly
      the two spam headers ahead of the unchanged message. */
  lemma AddHeaderWithoutSymbols(v: Verdict, message: seq<string>, order: MapOrder)
    requires IterationOf(order, v)
    requires v.action == AddHeader
    requires v.symbols == map[] && v.dkim == NoSignature && v.add == map[] && v.remove == {}
    ensures Rewrite(v, message, order)
         == ["X-Spam: yes", "X-Spam-Score: " + v.score + " / " + v.requiredScore] + EscapeAll(message) + ["."]
  {
    SpamWithoutSymbols(v, order);
    NoAddedHeaders(v, order);
    ReplayUnmodified(v, ReplayStart, message);
    DropEmpty(DkimLines(v.dkim), SpamLines(v, order), AddedLines(v, order),
              ReplayFrom(v, ReplayStart, message), ["."]);
  }

  /** Empty runs of lines drop out of the concatenation. */
  lemma DropEmpty(a: seq<string>, b: seq<string>, c: seq<string>, d: seq<string>, e: seq<string>)
    requires a == [] && c == []
    ensures a + b + c + d + e == b + d + e
  {
    assert a + b == b;
    assert b + c == b;
  }

  /** Without symbols, `add header` sends only X-Spam and X-Spam-Score. */
  lemma SpamWithoutSymbols(v: Verdict, order: MapOrder)
    requires IterationOf(order, v)
    requires v.action == AddHeader && v.symbols == map[]
    ensures SpamLines(v, order) == SpamHeaders(v)
  {
    assert |v.symbols| == 0;
    assert SpamLines(v, order) == SpamHeaders(v) + [];
  }

  /** A verdict without headers to add makes the filter add none. */
  lemma NoAddedHeaders(v: Verdict, order: MapOrder)
    requires IterationOf(order, v)
    requires v.add == map[]
    ensures AddedLines(v, order) == []
  {
    assert |order.add| == 0;
    assert forall i | 0 <= i < |AuthOrder| :: AuthValue(v, AuthOrder[i]) == "";
    NoAuthLines(v, AuthOrder);
  }

  /** Without structured values there are no structured headers to
      re-emit. */
  lemma {:induction false} NoAuthLines(v: Verdict, names: seq<string>)
    requires forall i | 0 <= i < |names| :: AuthValue(v, names[i]) == ""
    ensures AuthLinesFrom(v, names) == []
    decreases |names|
  {
    if |names| > 0 { NoAuthLines(v, names[..|names| - 1]); }
  }

  /** The symbols' map order does not change anything that is sent. */
  lemma SymbolOrderIrrelevant(v: Verdict, message: seq<string>, o1: MapOrder, o2: MapOrder)
    requires IterationOf(o1, v) && IterationOf(o2, v)
    requires o1.add == o2.add
    ensures Rewrite(v, message, o1) == Rewrite(v, message, o2)
  {
    EnumeratesMultiset(o1.symbols, v.symbols.Keys);
    EnumeratesMultiset(o2.symbols, v.symbols.Keys);
    SortedUnique(SortedNames(o1), SortedNames(o2));
  }

  /** Every header segment the verdict makes the filter send as is (these
      lines are not dot-stuffed) differs from the lone `.`. */
  predicate HeadersSafe(v: Verdict) {
    && (forall h | h in v.add :: v.add[h].Plain? ==> "." !in Split(v.add[h].text, '\n'))
    && (forall h | h in AuthOrder :: "." !in Split(AuthValue(v, h), '\n'))
    && (match v.dkim
        case NoSignature => true
        case Signature(t) => "." !in Split(t, '\n')
        case Signatures(es) => forall i | 0 <= i < |es| :: es[i].Some? ==> "." !in Split(es[i].value, '\n'))
  }

  lemma HeaderLinesNoDot(name: string, text: string)
    requires "." !in Split(text, '\n')
    ensures "." !in HeaderLines(name, text)
  {
    var parts := Split(text, '\n');
    assert forall i | 1 <= i < |parts| :: parts[i] in parts;
    assert |name + ": " + parts[0]| >= 2;
  }

  lemma {:induction false} PlainLinesNoDot(v: Verdict, names: seq<string>)
    requires HeadersSafe(v)
    ensures "." !in PlainLines(v, names)
    decreases |names|
  {
    if |names| > 0 {
      PlainLinesNoDot(v, names[..|names| - 1]);
      var h := names[|names| - 1];
      if h in v.add && v.add[h].Plain? { HeaderLinesNoDot(h, v.add[h].text); }
    }
  }

  lemma {:induction false} AuthLinesNoDot(v: Verdict, names: seq<string>)
    requires HeadersSafe(v)
    requires forall i | 0 <= i < |names| :: names[i] in AuthOrder
    ensures "." !in AuthLinesFrom(v, names)
    decreases |names|
  {
    if |names| > 0 {
      AuthLinesNoDot(v, names[..|names| - 1]);
      var h := names[|names| - 1];
      if AuthValue(v, h) != "" { HeaderLinesNoDot(h, AuthValue(v, h)); }
    }
  }

  lemma {:induction false} SignatureListNoDot(es: seq<Option<string>>)
    requires forall i | 0 <= i < |es| :: es[i].Some? ==> "." !in Split(es[i].value, '\n')
    ensures "." !in SignatureListLines(es)
    decreases |es|
  {
    if |es| > 0 {
      SignatureListNoDot(es[..|es| - 1]);
      var e := es[|es| - 1];
      if e.Some? && e.value != "" { HeaderLinesNoDot("DKIM-Signature", e.value); }
    }
  }

  lemma TestsLinesNoDot(items: seq<string>)
    ensures "." !in TestsLines(items)
  {
    var ls := TestsLines(items);
    forall i | 0 <= i < |ls| ensures ls[i] != "." {
      assert ls[i][0] == '\t';
    }
  }

  /** When no header segment is a lone `.`, the rewritten message carries
      exactly one terminator, at its end, so the daemon reads the whole
      block. */
  lemma RewriteTerminator(v: Verdict, message: seq<string>, order: MapOrder)
    requires IterationOf(order, v)
    requires HeadersSafe(v)
    ensures var out := Rewrite(v, message, order);
      out[|out| - 1] == "." && "." !in out[..|out| - 1]
  {
    AddedLinesNoDot(v, order);
    ReplayNoDot(v, message);
    var out := Rewrite(v, message, order);
    assert out[..|out| - 1] == DkimLines(v.dkim) + SpamLines(v, order) + AddedLines(v, order)
      + ReplayFrom(v, ReplayStart, message);
  }

  /** No header line the filter adds is the lone `.`. */
  lemma AddedLinesNoDot(v: Verdict, order: MapOrder)
    requires IterationOf(order, v)
    requires HeadersSafe(v)
    ensures "." !in DkimLines(v.dkim) + SpamLines(v, order) + AddedLines(v, order)
  {
    match v.dkim {
      case NoSignature =>
      case Signature(t) => if t != "" { HeaderLinesNoDot("DKIM-Signature", t); }
      case Signatures(es) => SignatureListNoDot(es);
    }
    SpamLinesNoDot(v, order);
    PlainLinesNoDot(v, order.add);
    AuthLinesNoDot(v, AuthOrder);
  }

  lemma SpamLinesNoDot(v: Verdict, order: MapOrder)
    requires IterationOf(order, v)
    ensures "." !in SpamLines(v, order)
  {
    if v.action == AddHeader {
      var head := SpamHeaders(v);
      assert |head[0]| > 1 && |head[1]| > 1;
      if |v.symbols| != 0 {
        assert |StatusHeader(v)| > 1;
        TestsLinesNoDot(SymbolItems(v, order));
      } else {
        assert StatusLines(v, order) == [];
      }
    }
  }

  /** The replay of a message never sends the lone `.`, whether or not the
      message has a header/body separator. */
  lemma ReplayNoDot(v: Verdict, message: seq<string>)
    ensures "." !in ReplayFrom(v, ReplayStart, message)
  {
    if "" in message {
      var k :| 0 <= k < |message| && message[k] == "";
      var first := FirstEmpty(message, k);
      var headers, body := message[..first], message[first + 1..];
      assert message == headers + [""] + body;
      ReplaySections(v, headers, body);
      ReplayHeaderLines(v, ReplayStart, headers);
      forall i | 0 <= i < |body| ensures EscapeAll(body)[i] != "." {
        EscapeRoundTrip(body[i]);
      }
    } else {
      ReplayHeaderLines(v, ReplayStart, message);
    }
  }

  /** The index of the first empty line, at or before a known one. */
  function FirstEmpty(lines: seq<string>, k: nat): (first: nat)
    requires k < |lines| && lines[k] == ""
    ensures first <= k && lines[first] == "" && "" !in lines[..first]
    decreases k
  {
    if lines[0] == "" then 0
    else
      var f := FirstEmpty(lines[1..], k - 1);
      assert lines[..f + 1] == [lines[0]] + lines[1..][..f];
      f + 1
  }

  /** Header values are sent without dot-stuffing: a plain added header
      whose value has a line holding only `.` puts the terminator right
      after its first line, ahead of the message. */
  lemma DotInHeaderEndsMessage(v: Verdict, message: seq<string>, order: MapOrder, h: string, a: string)
    requires IterationOf(order, v)
    requires v.dkim == NoSignature && v.action != AddHeader
    requires order.add == [h] && h in v.add && v.add[h] == Plain(a + "\n.") && '\n' !in a
    ensures var out := Rewrite(v, message, order); out[1] == "." && |out| > 2
  {
    var added := AddedLines(v, order);
    assert added == [h + ": " + a, "."] + AuthLines(v) by {
      DotPlainLines(v, order.add, h, a);
    }
    assert |DkimLines(v.dkim) + SpamLines(v, order)| == 0 by {
      assert DkimLines(v.dkim) == [] && SpamLines(v, order) == [];
    }
    var out := Rewrite(v, message, order);
    assert out == DkimLines(v.dkim) + SpamLines(v, order) + added + ReplayFrom(v, ReplayStart, message) + ["."];
    assert (DkimLines(v.dkim) + SpamLines(v, order) + added)[1] == ".";
  }

  lemma DotPlainLines(v: Verdict, names: seq<string>, h: string, a: string)
    requires names == [h] && h in v.add && v.add[h] == Plain(a + "\n.") && '\n' !in a
    ensures PlainLines(v, names) == [h + ": " + a, "."]
  {
    DotHeaderLines(h, a);
    assert names[..0] == [];
  }

  lemma DotHeaderLines(h: string, a: string)
    requires '\n' !in a
    ensures HeaderLines(h, a + "\n.") == [h + ": " + a, "."]
  {
    assert a + "\n." == a + ['\n'] + ".";
    SplitConcat(a, '\n', ".");
    SplitFree(a, '\n');
    SplitFree(".", '\n');
  }

  /** A replay whose message lines and subject hold no newline sends
      strings that each arrive as one line, so no lone `.` reaches the
      reader from the replay. */
  lemma ReplayWireNoDot(v: Verdict, message: seq<string>)
    requires v.action == RewriteSubject ==> '\n' !in v.subject
    requires forall i | 0 <= i < |message| :: '\n' !in message[i]
    ensures Printed(ReplayFrom(v, ReplayStart, message)) == ReplayFrom(v, ReplayStart, message)
    ensures "." !in Printed(ReplayFrom(v, ReplayStart, message))
  {
    ReplayOneLine(v, ReplayStart, message);
    PrintedOneLine(ReplayFrom(v, ReplayStart, message));
    ReplayNoDot(v, message);
  }

  lemma {:induction false} ReplayOneLine(v: Verdict, st: ReplayState, lines: seq<string>)
    requires v.action == RewriteSubject ==> '\n' !in v.subject
    requires forall i | 0 <= i < |lines| :: '\n' !in lines[i]
    ensures forall i | 0 <= i < |ReplayFrom(v, st, lines)| :: '\n' !in ReplayFrom(v, st, lines)[i]
    decreases |lines|
  {
    if |lines| > 0 {
      var (st', out) := ReplayStep(v, st, lines[0]);
      ReplayOneLine(v, st', lines[1..]);
      assert forall i | 0 <= i < |out| :: '\n' !in out[i] by {
        if |out| > 0 && out[0] == Escape(lines[0]) && HasPrefix(lines[0], ".") {
          assert Escape(lines[0]) == "." + lines[0];
        }
      }
      assert ReplayFrom(v, st, lines) == out + ReplayFrom(v, st', lines[1..]);
    }
  }

  /** The `Subject: ` replacement is not split like an added header: a
      subject ending in a line holding only `.` makes the replay print a
      lone `.` line, ahead of the message's terminator. */
  lemma SubjectNewlinePrintsDot(v: Verdict, a: string, b: string)
    requires v.action == RewriteSubject && v.subject == a + "\n." && '\n' !in a
    requires v.remove == {}
    ensures ReplayFrom(v, ReplayStart, ["Subject: " + b]) == ["Subject: " + a + "\n."]
    ensures Printed(ReplayFrom(v, ReplayStart, ["Subject: " + b])) == ["Subject: " + a, "."]
  {
    var subject := "Subject: " + b;
    assert HasPrefix(subject, "Subject: ");
    assert !Removed(v.remove, subject);
    assert subject != "" by { assert |subject| >= 9; }
    assert ReplayStep(v, ReplayStart, subject) == (ReplayState(true, false), ["Subject: " + v.subject]);
    assert [subject][1..] == [];
    assert "Subject: " + v.subject == "Subject: " + a + "\n.";
    assert "Subject: " + a + "\n." == ("Subject: " + a) + ['\n'] + ".";
    SplitConcat("Subject: " + a, '\n', ".");
    SplitFree("Subject: " + a, '\n');
    SplitFree(".", '\n');
  }

  /** The same on the lines the daemon reads: with newline-free message
      lines, subject, kind, id and token, the framed replay is printed
      line for line, and none of its lines is the terminator's frame. */
  lemma ReplayFramedNoDot(v: Verdict, message: seq<string>, version: string, kind: string, id: string, token: string)
    requires v.action == RewriteSubject ==> '\n' !in v.subject
    requires forall i | 0 <= i < |message| :: '\n' !in message[i]
    requires '\n' !in kind && '\n' !in id && '\n' !in token
    ensures var framed := Frames(version, kind, id, token, ReplayFrom(v, ReplayStart, message));
      Printed(framed) == framed && Frame(version, kind, id, token, ".") !in Printed(framed)
  {
    var replay := ReplayFrom(v, ReplayStart, message);
    var framed := Frames(version, kind, id, token, replay);
    ReplayOneLine(v, ReplayStart, message);
    FramedOneLine(version, kind, id, token, replay);
    ReplayNoDot(v, message);
    FramesIndex(version, kind, id, token, replay);
    forall i | 0 <= i < |framed| ensures framed[i] != Frame(version, kind, id, token, ".") {
      FramePayload(version, kind, id, token, replay[i], ".");
    }
  }

  /** On the wire, the subject `a` + `\n.` prints its frame with
      `Subject: a` and then a bare `.` line without a frame, which is not
      a data line at all. */
  lemma SubjectNewlineUnframedDot(v: Verdict, a: string, b: string, version: string, kind: string, id: string, token: string)
    requires v.action == RewriteSubject && v.subject == a + "\n." && '\n' !in a
    requires v.remove == {}
    requires '\n' !in kind && '\n' !in id && '\n' !in token
    ensures Printed(Frames(version, kind, id, token, ReplayFrom(v, ReplayStart, ["Subject: " + b])))
         == [Frame(version, kind, id, token, "Subject: " + a), "."]
  {
    SubjectNewlinePrintsDot(v, a, b);
    assert "Subject: " + a + "\n." == ("Subject: " + a) + "\n" + ".";
    assert '\n' !in "Subject: " + a;
    PrintedFrameSplit(version, kind, id, token, "Subject: " + a, ".");
    SplitFree(".", '\n');
  }

  // ---------------------------------------------------------------------
  // Commit

  /** The `filter-result` payload for a transaction's action and response,
      and the response as the transaction keeps it (empty text replaced by
      the default for the action). */
  function CommitReply(action: string, response: string): (string, string) {
    if action == "tempfail" then
      var text := if response == "" then "server internal error" else response;
      ("reject|421 " + text, text)
    else if action == "reject" then
      var text := if response == "" then "message rejected" else response;
      ("reject|550 " + text, text)
    else if action == "soft reject" then
      var text := if response == "" then "try again later" else response;
      ("reject|451 " + text, text)
    else ("proceed", response)
  }

  /** The commit reply proceeds exactly for actions other than the three
      rejecting ones; a rejection always carries a non-empty text, the
      transaction's own when it has one. */
  lemma CommitReplyShape(action: string, response: string)
    ensures var (payload, kept) := CommitReply(action, response);
      && (payload == "proceed" <==> action != "tempfail" && action != "reject" && action != "soft reject")
      && (payload != "proceed" ==> kept != "" && (response != "" ==> kept == response)
                                   && payload[..7] == "reject|" && payload[11..] == kept)
  {
  }

  /** A failed analysis makes the commit defer the message with 421. */
  lemma FailureDefers(action: string, response: string)
    ensures var (a, r) := Decide(LocalFailure, action, response);
      CommitReply(a, r).0 == "reject|421 server internal error"
  {
  }

  /** A reject-class verdict decides the commit reply: 550 for `reject`, 451
      for `soft reject`, with the engine's text or the default. */
  lemma VerdictDecides(v: Verdict, action: string, response: string)
    requires RejectClass(v.action)
    ensures var (a, r) := Decide(Answered(v), action, response);
      CommitReply(a, r).0 ==
        if v.action == "reject" then "reject|550 " + (if v.smtpMessage == "" then "message rejected" else v.smtpMessage)
        else "reject|451 " + (if v.smtpMessage == "" then "try again later" else v.smtpMessage)
  {
  }

  /** Any other verdict, `greylist` included, leaves the transaction's
      action alone: a transaction begun afresh proceeds. */
  lemma OtherVerdictsProceed(v: Verdict)
    requires !RejectClass(v.action)
    ensures var (a, r) := Decide(Answered(v), "", "");
      CommitReply(a, r).0 == "proceed"
  {
  }
}
