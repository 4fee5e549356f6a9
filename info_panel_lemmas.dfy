/**
 * What the info panel's rendering promises, proved about the model in
 * module InfoPanel.
 */
module InfoPanelLemmas {
  import opened Wrappers
  import opened Text
  import opened InfoPanel

  /** A character no rule's markup contains and no pattern's delimiter is. */
  predicate Inert(c: char) {
    c != '*' && c != '`' && c != '#' && !IsLineTerminator(c)
  }

  // Each tag is checked piece by piece, as its constant is written.

  lemma H1TagInert()
    ensures forall c | c in H1_OPEN :: Inert(c)
  {
    var a, b := "<h1 class=\"text-2xl ", "font-bold mt-5 mb-3\">";
    assert forall i | 0 <= i < |a| :: Inert(a[i]);
    assert forall i | 0 <= i < |b| :: Inert(b[i]);
    assert H1_OPEN == a + b;
  }

  lemma H2TagInert()
    ensures forall c | c in H2_OPEN :: Inert(c)
  {
    var a, b := "<h2 class=\"text-xl ", "font-semibold mt-5 mb-2\">";
    assert forall i | 0 <= i < |a| :: Inert(a[i]);
    assert forall i | 0 <= i < |b| :: Inert(b[i]);
    assert H2_OPEN == a + b;
  }

  lemma H3TagInert()
    ensures forall c | c in H3_OPEN :: Inert(c)
  {
    var a, b := "<h3 class=\"text-lg ", "font-semibold mt-4 mb-2\">";
    assert forall i | 0 <= i < |a| :: Inert(a[i]);
    assert forall i | 0 <= i < |b| :: Inert(b[i]);
    assert H3_OPEN == a + b;
  }

  lemma HeadingTagsInert()
    ensures forall c | c in H3_OPEN :: Inert(c)
    ensures forall c | c in H2_OPEN :: Inert(c)
    ensures forall c | c in H1_OPEN :: Inert(c)
  {
    H1TagInert();
    H2TagInert();
    H3TagInert();
  }

  lemma PreTagInert()
    ensures forall c | c in PRE_OPEN :: Inert(c)
  {
    var a, b := "<pre class=\"bg-muted p-4 ", "rounded-md my-4 ";
    var c, d := "overflow-auto text-sm\">", "<code>";
    assert forall i | 0 <= i < |a| :: Inert(a[i]);
    assert forall i | 0 <= i < |b| :: Inert(b[i]);
    assert forall i | 0 <= i < |c| :: Inert(c[i]);
    assert forall i | 0 <= i < |d| :: Inert(d[i]);
    assert PRE_OPEN == a + b + c + d;
  }

  lemma CodeTagInert()
    ensures forall c | c in CODE_OPEN :: Inert(c)
  {
    var a, b := "<code class=\"bg-muted ", "px-1 py-0.5 rounded text-sm\">";
    assert forall i | 0 <= i < |a| :: Inert(a[i]);
    assert forall i | 0 <= i < |b| :: Inert(b[i]);
    assert CODE_OPEN == a + b;
  }

  lemma QuoteTagInert()
    ensures forall c | c in QUOTE_OPEN :: Inert(c)
  {
    var a, b := "<blockquote ", "class=\"border-l-4 ";
    var c, d, e := "border-muted-", "foreground/30 ", "pl-4 italic my-4\">";
    assert forall i | 0 <= i < |a| :: Inert(a[i]);
    assert forall i | 0 <= i < |b| :: Inert(b[i]);
    assert forall i | 0 <= i < |c| :: Inert(c[i]);
    assert forall i | 0 <= i < |d| :: Inert(d[i]);
    assert forall i | 0 <= i < |e| :: Inert(e[i]);
    assert QUOTE_OPEN == a + b + c + d + e;
  }

  lemma BlockTagsInert()
    ensures forall c | c in PRE_OPEN :: Inert(c)
    ensures forall c | c in CODE_OPEN :: Inert(c)
    ensures forall c | c in QUOTE_OPEN :: Inert(c)
  {
    PreTagInert();
    CodeTagInert();
    QuoteTagInert();
  }

  lemma MarkupInert(rule: LineRule)
    ensures forall c | c in Markup(rule) :: Inert(c)
  {
    HeadingTagsInert();
    BlockTagsInert();
  }

  lemma PairMarkupInert(rule: PairRule)
    ensures forall c | c in PairOpen(rule) + PairClose(rule) :: Inert(c)
  {
    BlockTagsInert();
  }

  // ---------------------------------------------------------------------------
  // Line structure

  lemma {:induction false} LineEndConcat(a: string, b: string)
    ensures LineEnd(a + b) == if LineEnd(a) < |a| then LineEnd(a) else |a| + LineEnd(b)
  {
    if a == [] {
      assert a + b == b;
    } else if !IsLineTerminator(a[0]) {
      assert (a + b)[1..] == a[1..] + b;
      LineEndConcat(a[1..], b);
    }
  }

  /** A string without terminators is one line: the rule applies to it whole. */
  lemma MapLinesOneLine(rule: LineRule, line: string)
    requires NoTerminator(line)
    ensures MapLines(rule, line) == RewriteLine(rule, line)
  {
  }

  lemma MapLinesUnfold(rule: LineRule, s: string)
    requires LineEnd(s) < |s|
    ensures var k := LineEnd(s);
      MapLines(rule, s) == RewriteLine(rule, s[..k]) + [s[k]] + MapLines(rule, s[k + 1..])
  {
  }

  lemma SplitFirstLine(rule: LineRule, a: string, t: char, b: string)
    requires IsLineTerminator(t) && NoTerminator(a)
    ensures MapLines(rule, a + [t] + b) == RewriteLine(rule, a) + [t] + MapLines(rule, b)
  {
    var s := a + [t] + b;
    assert LineEnd(s) == |a| && s[..|a|] == a && s[|a|] == t && s[|a| + 1..] == b by {
      assert s == a + ([t] + b);
      LineEndConcat(a, [t] + b);
    }
    MapLinesUnfold(rule, s);
  }

  lemma SplitLaterLine(rule: LineRule, a: string, t: char, b: string)
    requires IsLineTerminator(t) && LineEnd(a) < |a|
    ensures var k := LineEnd(a);
      MapLines(rule, a + [t] + b)
      == RewriteLine(rule, a[..k]) + [a[k]] + MapLines(rule, a[k + 1..] + [t] + b)
  {
    LaterLineParts(a, t, b);
    MapLinesUnfold(rule, a + [t] + b);
  }

  lemma LaterLineParts(a: string, t: char, b: string)
    requires LineEnd(a) < |a|
    ensures LineEnd(a + [t] + b) == LineEnd(a)
    ensures (a + [t] + b)[..LineEnd(a)] == a[..LineEnd(a)]
    ensures (a + [t] + b)[LineEnd(a)] == a[LineEnd(a)]
    ensures (a + [t] + b)[LineEnd(a) + 1..] == a[LineEnd(a) + 1..] + [t] + b
  {
    var c := [t] + b;
    var k := LineEnd(a);
    assert a + [t] + b == a + c;
    LineEndConcat(a, c);
    PrefixOfConcat(a, c, k);
    SuffixOfConcat(a, c, k + 1);
  }

  lemma PrefixOfConcat(a: string, c: string, k: nat)
    requires k <= |a|
    ensures (a + c)[..k] == a[..k]
  {
  }

  lemma SuffixOfConcat(a: string, c: string, k: nat)
    requires k <= |a|
    ensures (a + c)[k..] == a[k..] + c
  {
  }

  /** The line rules are local to lines: whatever stands on either side of a
      line terminator is rewritten as if the other side were not there. */
  lemma {:induction false} MapLinesSplit(rule: LineRule, a: string, t: char, b: string)
    requires IsLineTerminator(t)
    ensures MapLines(rule, a + [t] + b) == MapLines(rule, a) + [t] + MapLines(rule, b)
    decreases |a|
  {
    var k := LineEnd(a);
    if k == |a| {
      SplitFirstLine(rule, a, t, b);
      MapLinesOneLine(rule, a);
    } else {
      var rest := a[k + 1..];
      SplitLaterLine(rule, a, t, b);
      MapLinesSplit(rule, rest, t, b);
      MapLinesUnfold(rule, a);
      Regroup(RewriteLine(rule, a[..k]) + [a[k]], MapLines(rule, rest), t, MapLines(rule, b));
    }
  }

  lemma Regroup(x: string, y: string, t: char, z: string)
    ensures x + (y + [t] + z) == x + y + [t] + z
  {
  }

  /** Where a greedy rule matches, given the first opener and the last
      closer of the line. */
  lemma {:induction false} GreedyRewriteAt(line: string, a: string, b: string, keep: bool, open: string, close: string, p: nat, q: nat)
    requires MatchAt(line, p, a) && forall i: nat | i < p :: !MatchAt(line, i, a)
    requires MatchAt(line, q, b) && forall j: nat | q < j :: !MatchAt(line, j, b)
    requires p + |a| <= q
    ensures GreedyRewrite(line, a, b, keep, open, close)
      == line[..p] + open + (if keep then line[p..q + |b|] else line[p + |a|..q]) + close + line[q + |b|..]
  {
  }

  lemma PairSpanIs(s: string, d: string, p: nat, q: nat)
    requires MatchAt(s, p, d) && (forall i: nat | i < p :: !MatchAt(s, i, d))
    requires p + |d| <= q && MatchAt(s, q, d) && (forall i: nat | p + |d| <= i < q :: !MatchAt(s, i, d))
    ensures PairSpan(s, d) == Some((p, q))
  {
    FirstMatchIs(s, d, 0, p);
    FirstMatchIs(s, d, p + |d|, q);
  }

  lemma {:induction false} PairsStep(rule: PairRule, s: string, p: nat, q: nat)
    requires PairSpan(s, Delimiter(rule)) == Some((p, q))
    ensures Pairs(rule, s) == Emit(rule, s, p, q) + Pairs(rule, s[q + |Delimiter(rule)|..])
  {
    var span := PairSpan(s, Delimiter(rule));
    assert span.Some? && span.value == (p, q);
  }

  /** `PairsStep` with the three pieces of `s` named. */
  lemma {:induction false} PairsStepAt(rule: PairRule, s: string, p: nat, q: nat, before: string, inside: string, after: string)
    requires PairSpan(s, Delimiter(rule)) == Some((p, q))
    requires s[..p] == before && s[p + |Delimiter(rule)|..q] == inside && s[q + |Delimiter(rule)|..] == after
    ensures Pairs(rule, s) == before + PairOpen(rule) + inside + PairClose(rule) + Pairs(rule, after)
  {
    PairsStep(rule, s, p, q);
  }

  /** Both code delimiters start with a backtick, so text without one is
      left as it is. */
  lemma PairsWithoutBacktick(rule: PairRule, s: string)
    requires '`' !in s
    ensures Pairs(rule, s) == s
  {
    assert Delimiter(rule)[0] == '`';
    NoMatchWithoutHead(s, Delimiter(rule));
    PairSpanAbsent(s, Delimiter(rule));
  }

  /** With no complete pair left, a code rule leaves the text as it is. */
  lemma PairsDone(rule: PairRule, s: string)
    requires PairSpan(s, Delimiter(rule)) == None
    ensures Pairs(rule, s) == s
  {
    assert Delimiter(rule) != [];
  }

  /** An opener with no closer after it: no pair. */
  lemma PairSpanUnclosed(s: string, d: string, p: nat)
    requires MatchAt(s, p, d) && (forall i: nat | i < p :: !MatchAt(s, i, d))
    requires forall i: nat | p + |d| <= i :: !MatchAt(s, i, d)
    ensures PairSpan(s, d) == None
  {
    FirstMatchIs(s, d, 0, p);
    FirstMatchNone(s, d, p + |d|);
  }

  /** No delimiter at all: no pair. */
  lemma PairSpanAbsent(s: string, d: string)
    requires forall i: nat :: !MatchAt(s, i, d)
    ensures PairSpan(s, d) == None
  {
    FirstMatchNone(s, d, 0);
  }

  /** One line rule applied to the first line of `x + "\n" + y`, with the
      facts the next rule needs about what it produced. */
  lemma StepFirstLine(rule: LineRule, x: string, y: string)
    requires NoTerminator(x)
    ensures MapLines(rule, x + "\n" + y) == RewriteLine(rule, x) + "\n" + MapLines(rule, y)
    ensures NoTerminator(RewriteLine(rule, x))
    ensures '`' !in x ==> '`' !in RewriteLine(rule, x)
    ensures '`' !in y ==> '`' !in MapLines(rule, y)
  {
    SplitFirstLine(rule, x, '\n', y);
    MarkupInert(rule);
    var r := RewriteLine(rule, x);
    forall i | 0 <= i < |r| ensures !IsLineTerminator(r[i]) {
      assert r[i] in r;
    }
  }

  /** The seven line rules of the chain, in order, applied to one line. */
  function LineSteps(line: string): string {
    var h := RewriteLine(H1, RewriteLine(H2, RewriteLine(H3, line)));
    RewriteLine(ListWrap, RewriteLine(ListItem, RewriteLine(Italic, RewriteLine(Bold, h))))
  }

  lemma LineStagesFirstLine(x: string, y: string)
    requires NoTerminator(x) && '`' !in x && '`' !in y
    ensures LineStages(x + "\n" + y) == LineSteps(x) + "\n" + LineStages(y)
    ensures NoTerminator(LineSteps(x)) && '`' !in LineSteps(x) && '`' !in LineStages(y)
  {
    var x1, y1 := x, y;
    StepFirstLine(H3, x1, y1);
    x1, y1 := RewriteLine(H3, x1), MapLines(H3, y1);
    StepFirstLine(H2, x1, y1);
    x1, y1 := RewriteLine(H2, x1), MapLines(H2, y1);
    StepFirstLine(H1, x1, y1);
    x1, y1 := RewriteLine(H1, x1), MapLines(H1, y1);
    StepFirstLine(Bold, x1, y1);
    x1, y1 := RewriteLine(Bold, x1), MapLines(Bold, y1);
    StepFirstLine(Italic, x1, y1);
    x1, y1 := RewriteLine(Italic, x1), MapLines(Italic, y1);
    StepFirstLine(ListItem, x1, y1);
    x1, y1 := RewriteLine(ListItem, x1), MapLines(ListItem, y1);
    StepFirstLine(ListWrap, x1, y1);
  }

  lemma LineStagesOneLine(x: string)
    requires NoTerminator(x)
    ensures LineStages(x) == LineSteps(x)
    ensures NoTerminator(LineSteps(x))
    ensures '`' !in x ==> '`' !in LineSteps(x)
  {
    var x1 := x;
    MapLinesOneLine(H3, x1);
    StepFirstLine(H3, x1, "");
    x1 := RewriteLine(H3, x1);
    MapLinesOneLine(H2, x1);
    StepFirstLine(H2, x1, "");
    x1 := RewriteLine(H2, x1);
    MapLinesOneLine(H1, x1);
    StepFirstLine(H1, x1, "");
    x1 := RewriteLine(H1, x1);
    MapLinesOneLine(Bold, x1);
    StepFirstLine(Bold, x1, "");
    x1 := RewriteLine(Bold, x1);
    MapLinesOneLine(Italic, x1);
    StepFirstLine(Italic, x1, "");
    x1 := RewriteLine(Italic, x1);
    MapLinesOneLine(ListItem, x1);
    StepFirstLine(ListItem, x1, "");
    x1 := RewriteLine(ListItem, x1);
    MapLinesOneLine(ListWrap, x1);
    StepFirstLine(ListWrap, x1, "");
  }

  // ---------------------------------------------------------------------------
  // The whole-string steps and the whole chain

  /** When the line rules leave no backtick, the code rules do nothing. */
  lemma RenderWithoutCode(s: string)
    requires '`' !in LineStages(s)
    ensures Render(s) == BreakLines(MapLines(Quote, LineStages(s)))
  {
    PairsWithoutBacktick(Fence, LineStages(s));
    PairsWithoutBacktick(InlineCode, LineStages(s));
  }

  lemma {:induction false} BreakLinesConcat(a: string, b: string)
    ensures BreakLines(a + b) == BreakLines(a) + BreakLines(b)
  {
    if a == [] {
      assert a + b == b;
    } else {
      assert (a + b)[1..] == a[1..] + b;
      BreakLinesConcat(a[1..], b);
    }
  }

  lemma BreakLinesJoin(a: string, b: string)
    requires '\n' !in a
    ensures BreakLines(a + "\n" + b) == a + BR + BreakLines(b)
  {
    BreakLinesConcat(a + "\n", b);
    BreakLinesConcat(a, "\n");
  }

  /** A single line without backticks goes through the seven line rules and
      the blockquote rule and nothing else touches it. */
  lemma RenderOneLine(line: string)
    requires NoTerminator(line) && '`' !in line
    ensures Render(line) == RewriteLine(Quote, LineSteps(line))
  {
    LineStagesOneLine(line);
    var x := LineSteps(line);
    RenderWithoutCode(line);
    MapLinesOneLine(Quote, x);
    StepFirstLine(Quote, x, "");
  }

  /** Without backticks, two lines render independently and are joined by
      `<br />`. */
  lemma RenderLineByLine(x: string, y: string)
    requires NoTerminator(x) && '`' !in x && '`' !in y
    ensures Render(x + "\n" + y) == Render(x) + BR + Render(y)
  {
    LineStagesFirstLine(x, y);
    var x1, y1 := LineSteps(x), LineStages(y);
    RenderWithoutCode(x + "\n" + y);
    RenderWithoutCode(y);
    StepFirstLine(Quote, x1, y1);
    var x2, y2 := RewriteLine(Quote, x1), MapLines(Quote, y1);
    RenderOneLine(x);
    assert '\n' !in x2;
    BreakLinesJoin(x2, y2);
  }
}
