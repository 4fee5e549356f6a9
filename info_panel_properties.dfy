/**
 * The behaviour of the info panel's Markdown conversion that a reader of the
 * panel relies on: plain text is only broken into lines, headers, emphasis
 * and list items become the documented tags, and code spans pair up as the
 * source's patterns make them.
 */
module InfoPanelProperties {
  import opened Wrappers
  import opened Text
  import opened InfoPanel
  import opened InfoPanelLemmas

  // ---------------------------------------------------------------------------
  // Plain text

  /** `i` is where a line of `s` starts. */
  predicate LineStart(s: string, i: nat) {
    i <= |s| && (i == 0 || IsLineTerminator(s[i - 1]))
  }

  /** Text no rule applies to: no `#`, `*` or backtick, no line starting with
      `- ` or `> `, and no `<li` (the list wrapper matches any `<li … </li>`
      already in the input, in any case). */
  predicate Plain(s: string) {
    && '#' !in s && '*' !in s && '`' !in s
    && (forall i: nat | i < |s| :: !MatchAt(s, i, "<li"))
    && (forall i: nat | i < |s| && LineStart(s, i) :: !MatchAt(s, i, "- ") && !MatchAt(s, i, "> "))
  }

  lemma MatchInPrefix(s: string, k: nat, i: nat, pat: string)
    requires k <= |s| && i + |pat| <= k
    ensures MatchAt(s[..k], i, pat) <==> MatchAt(s, i, pat)
  {
  }

  lemma MatchInSuffix(s: string, k: nat, i: nat, pat: string)
    requires k <= |s|
    ensures MatchAt(s[k..], i, pat) <==> MatchAt(s, k + i, pat)
  {
  }

  lemma PlainFirstLine(s: string, k: nat)
    requires Plain(s) && k <= |s|
    ensures Plain(s[..k])
  {
    var a := s[..k];
    forall i: nat | i < |a| ensures !MatchAt(a, i, "<li") {
      if i + 3 <= k {
        MatchInPrefix(s, k, i, "<li");
      }
    }
    forall i: nat | i < |a| && LineStart(a, i) ensures !MatchAt(a, i, "- ") && !MatchAt(a, i, "> ") {
      assert LineStart(s, i);
      if i + 2 <= k {
        MatchInPrefix(s, k, i, "- ");
        MatchInPrefix(s, k, i, "> ");
      }
    }
  }

  lemma PlainLaterLines(s: string, k: nat)
    requires Plain(s) && k < |s| && IsLineTerminator(s[k])
    ensures Plain(s[k + 1..])
  {
    var b := s[k + 1..];
    forall i: nat | i < |b| ensures !MatchAt(b, i, "<li") {
      MatchInSuffix(s, k + 1, i, "<li");
    }
    forall i: nat | i < |b| && LineStart(b, i) ensures !MatchAt(b, i, "- ") && !MatchAt(b, i, "> ") {
      assert LineStart(s, k + 1 + i);
      MatchInSuffix(s, k + 1, i, "- ");
      MatchInSuffix(s, k + 1, i, "> ");
    }
  }

  /** No rule matches a plain line. */
  lemma RewritePlainLine(rule: LineRule, line: string)
    requires Plain(line)
    ensures RewriteLine(rule, line) == line
  {
    assert LineStart(line, 0);
    if line != [] {
      assert line[0] != '#' && line[0] != '*';
      assert !MatchAt(line, 0, "### ") && !MatchAt(line, 0, "## ") && !MatchAt(line, 0, "# ") by {
        assert "### "[0] == '#' && "## "[0] == '#' && "# "[0] == '#';
      }
    }
    NoMatchWithoutHead(line, "*");
    forall i: nat ensures !MatchAt(line, i, "**") {
      assert !MatchAt(line, i, "*");
      assert "**"[0] == '*';
    }
  }

  lemma {:induction false} MapLinesPlain(rule: LineRule, s: string)
    requires Plain(s)
    ensures MapLines(rule, s) == s
    decreases |s|
  {
    var k := LineEnd(s);
    if k == |s| {
      RewritePlainLine(rule, s);
    } else {
      PlainFirstLine(s, k);
      RewritePlainLine(rule, s[..k]);
      PlainLaterLines(s, k);
      MapLinesPlain(rule, s[k + 1..]);
      assert s == s[..k] + [s[k]] + s[k + 1..];
    }
  }

  /** Plain text comes out as it went in, with every `'\n'` turned into a
      `<br />`. */
  lemma RenderPlain(s: string)
    requires Plain(s)
    ensures Render(s) == BreakLines(s)
  {
    MapLinesPlain(H3, s);
    MapLinesPlain(H2, s);
    MapLinesPlain(H1, s);
    MapLinesPlain(Bold, s);
    MapLinesPlain(Italic, s);
    MapLinesPlain(ListItem, s);
    MapLinesPlain(ListWrap, s);
    RenderWithoutCode(s);
    MapLinesPlain(Quote, s);
  }

  // ---------------------------------------------------------------------------
  // Lines the rules have finished with

  /** Every `<` of `x` is followed, inside `x`, by something other than `l`
      or `L`: no `<li` can start in `x`, whatever is written after it. */
  predicate ClosedAngles(x: string) {
    forall i | 0 <= i < |x| && x[i] == '<' :: i + 1 < |x| && x[i + 1] != 'l' && x[i + 1] != 'L'
  }

  lemma ClosedAnglesConcat(a: string, b: string)
    requires ClosedAngles(a) && ClosedAngles(b)
    ensures ClosedAngles(a + b)
  {
    forall i | 0 <= i < |a + b| && (a + b)[i] == '<'
      ensures i + 1 < |a + b| && (a + b)[i + 1] != 'l' && (a + b)[i + 1] != 'L'
    {
      if i < |a| {
        assert a[i] == '<';
      } else {
        assert b[i - |a|] == '<';
      }
    }
  }

  lemma ClosedAnglesNoListTag(x: string)
    requires ClosedAngles(x)
    ensures forall i: nat :: !MatchAt(x, i, "<li")
  {
    assert "<li"[0] == '<' && "<li"[1] == 'l';
    forall i: nat | i < |x| ensures !MatchAt(x, i, "<li") {
      if x[i] == '<' {
        assert i + 1 < |x| && Upper(x[i + 1]) != 'L';
      }
    }
  }

  lemma H1TagClosed()
    ensures ClosedAngles(H1_OPEN) && ClosedAngles(H1_CLOSE)
  {
    var a, b := "<h1 class=\"text-2xl ", "font-bold mt-5 mb-3\">";
    assert forall i | 1 <= i < |a| :: a[i] != '<';
    assert forall i | 0 <= i < |b| :: b[i] != '<';
    ClosedAnglesConcat(a, b);
    assert H1_OPEN == a + b;
    assert H1_CLOSE[1] == '/';
  }

  lemma H2TagClosed()
    ensures ClosedAngles(H2_OPEN) && ClosedAngles(H2_CLOSE)
  {
    var a, b := "<h2 class=\"text-xl ", "font-semibold mt-5 mb-2\">";
    assert forall i | 1 <= i < |a| :: a[i] != '<';
    assert forall i | 0 <= i < |b| :: b[i] != '<';
    ClosedAnglesConcat(a, b);
    assert H2_OPEN == a + b;
    assert H2_CLOSE[1] == '/';
  }

  lemma H3TagClosed()
    ensures ClosedAngles(H3_OPEN) && ClosedAngles(H3_CLOSE)
  {
    var a, b := "<h3 class=\"text-lg ", "font-semibold mt-4 mb-2\">";
    assert forall i | 1 <= i < |a| :: a[i] != '<';
    assert forall i | 0 <= i < |b| :: b[i] != '<';
    ClosedAnglesConcat(a, b);
    assert H3_OPEN == a + b;
    assert H3_CLOSE[1] == '/';
  }

  /** A line that starts with a tag and holds no `*`, backtick or `<li`: no
      line rule changes it any more. */
  lemma SettledLine(rule: LineRule, u: string)
    requires u != [] && u[0] == '<'
    requires '*' !in u && ClosedAngles(u)
    ensures RewriteLine(rule, u) == u
  {
    assert "### "[0] == '#' && "## "[0] == '#' && "# "[0] == '#';
    assert "- "[0] == '-' && "> "[0] == '>';
    NoMatchWithoutHead(u, "*");
    forall i: nat ensures !MatchAt(u, i, "**") {
      assert !MatchAt(u, i, "*");
      assert "**"[0] == '*';
    }
    ClosedAnglesNoListTag(u);
  }

  /** `open + t + close` for a line of text `t` without `*`, backtick or `<`
      passes the remaining line rules and the code rules unchanged. */
  lemma TaggedLineSettles(open: string, t: string, close: string)
    requires open != [] && open[0] == '<' && ClosedAngles(open) && ClosedAngles(close)
    requires forall c | c in open + close :: Inert(c)
    requires NoTerminator(t) && '*' !in t && '`' !in t && '<' !in t
    ensures var u := open + t + close;
      && NoTerminator(u) && '`' !in u && '*' !in u && '\n' !in u
      && forall rule :: RewriteLine(rule, u) == u
  {
    var u := open + t + close;
    assert ClosedAngles(t);
    ClosedAnglesConcat(open, t);
    ClosedAnglesConcat(open + t, close);
    forall i | 0 <= i < |u| ensures Inert(u[i]) || u[i] in t {
      if i < |open| {
        assert u[i] in open + close;
      } else if i >= |open| + |t| {
        assert u[i] == close[i - |open| - |t|];
        assert u[i] in open + close;
      }
    }
    forall rule { SettledLine(rule, u); }
  }

  // ---------------------------------------------------------------------------
  // Headers

  /** A line `# T` becomes exactly the `h1` element around `T`. */
  lemma {:induction false} RenderH1(t: string)
    requires NoTerminator(t) && '*' !in t && '`' !in t && '<' !in t
    ensures Render("# " + t) == H1_OPEN + t + H1_CLOSE
  {
    var line, u := "# " + t, H1_OPEN + t + H1_CLOSE;
    assert !MatchAt(line, 0, "### ") && !MatchAt(line, 0, "## ") by {
      assert "### "[1] == '#' && "## "[1] == '#' && line[1] == ' ';
    }
    assert MatchAt(line, 0, "# ") && line[2..] == t;
    assert RewriteLine(H1, RewriteLine(H2, RewriteLine(H3, line))) == u;
    H1TagInert();
    H1TagClosed();
    TaggedLineSettles(H1_OPEN, t, H1_CLOSE);
    assert LineSteps(line) == u;
    RenderOneLine(line);
  }

  /** A line `## T` becomes exactly the `h2` element around `T`. */
  lemma {:induction false} RenderH2(t: string)
    requires NoTerminator(t) && '*' !in t && '`' !in t && '<' !in t
    ensures Render("## " + t) == H2_OPEN + t + H2_CLOSE
  {
    var line, u := "## " + t, H2_OPEN + t + H2_CLOSE;
    assert !MatchAt(line, 0, "### ") by {
      assert "### "[2] == '#' && line[2] == ' ';
    }
    assert MatchAt(line, 0, "## ") && line[3..] == t;
    H2TagInert();
    H2TagClosed();
    TaggedLineSettles(H2_OPEN, t, H2_CLOSE);
    assert RewriteLine(H1, RewriteLine(H2, RewriteLine(H3, line))) == u;
    assert LineSteps(line) == u;
    RenderOneLine(line);
  }

  /** A line `### T` becomes exactly the `h3` element around `T`: the `h2`
      and `h1` rules, which run later, no longer see a `#` at its start. */
  lemma {:induction false} RenderH3(t: string)
    requires NoTerminator(t) && '*' !in t && '`' !in t && '<' !in t
    ensures Render("### " + t) == H3_OPEN + t + H3_CLOSE
  {
    var line, u := "### " + t, H3_OPEN + t + H3_CLOSE;
    assert MatchAt(line, 0, "### ") && line[4..] == t;
    H3TagInert();
    H3TagClosed();
    TaggedLineSettles(H3_OPEN, t, H3_CLOSE);
    assert RewriteLine(H1, RewriteLine(H2, RewriteLine(H3, line))) == u;
    assert LineSteps(line) == u;
    RenderOneLine(line);
  }

  /** The header rules together leave a line alone exactly when it starts
      with none of `# `, `## ` and `### `; in particular `#T` stays as it is. */
  lemma HeadersIdleIff(line: string)
    ensures RewriteLine(H1, RewriteLine(H2, RewriteLine(H3, line))) == line
      <==> !MatchAt(line, 0, "# ") && !MatchAt(line, 0, "## ") && !MatchAt(line, 0, "### ")
  {
    var r := RewriteLine(H1, RewriteLine(H2, RewriteLine(H3, line)));
    assert H3_OPEN[0] == '<' && H2_OPEN[0] == '<' && H1_OPEN[0] == '<';
    assert "### "[0] == '#' && "## "[0] == '#' && "# "[0] == '#';
    if MatchAt(line, 0, "### ") || MatchAt(line, 0, "## ") || MatchAt(line, 0, "# ") {
      assert r[0] == '<' && line[0] == '#';
    }
  }

  // ---------------------------------------------------------------------------
  // Blockquotes

  /** The blockquote rule changes a line exactly when it starts with `> `. */
  lemma QuoteChangesIff(line: string)
    ensures RewriteLine(Quote, line) != line <==> MatchAt(line, 0, "> ")
  {
    if MatchAt(line, 0, "> ") {
      assert "> "[0] == '>' && QUOTE_OPEN[0] == '<';
      assert RewriteLine(Quote, line)[0] != line[0];
    }
  }

  // ---------------------------------------------------------------------------
  // Lists

  /** The HTML a list line `- a` turns into. */
  function ListHtml(a: string): string {
    UL_OPEN + LI_OPEN + a + LI_CLOSE + UL_CLOSE
  }

  /** `<li` … `</li>` wrapped whole: the first `<li` is at the start and the
      last `</li>` at the end. */
  lemma {:induction false} WrapListItem(a: string)
    ensures RewriteLine(ListWrap, LI_OPEN + a + LI_CLOSE) == ListHtml(a)
  {
    var v := LI_OPEN + a + LI_CLOSE;
    assert v[0] == '<' && v[1] == 'l' && v[2] == 'i';
    assert v[|v| - 5..] == LI_CLOSE;
    WrapWhole(v);
  }

  /** A line that starts with `<li` and ends with `</li>` is wrapped whole. */
  lemma {:induction false} WrapWhole(v: string)
    requires |v| >= 8 && v[0] == '<' && v[1] == 'l' && v[2] == 'i'
    requires v[|v| - 5..] == "</li>"
    ensures RewriteLine(ListWrap, v) == UL_OPEN + v + UL_CLOSE
  {
    var q := |v| - 5;
    ListTagEnds(v);
    GreedyRewriteAt(v, "<li", "</li>", true, UL_OPEN, UL_CLOSE, 0, q);
    assert v[0..q + 5] == v && v[..0] == [] && v[q + 5..] == [];
  }

  /** Where such a line's first `<li` and last `</li>` are. */
  lemma ListTagEnds(v: string)
    requires |v| >= 8 && v[0] == '<' && v[1] == 'l' && v[2] == 'i'
    requires v[|v| - 5..] == "</li>"
    ensures MatchAt(v, 0, "<li") && MatchAt(v, |v| - 5, "</li>")
    ensures forall j: nat | |v| - 5 < j :: !MatchAt(v, j, "</li>")
  {
    var q := |v| - 5;
    forall k | q <= k < q + 5 ensures v[k] == "</li>"[k - q] {
      assert v[k] == v[q..][k - q];
    }
  }

  /** Headers, bold and italic leave a line alone that starts with `-` and
      holds no `*`. */
  lemma {:induction false} EarlyRulesIdle(line: string)
    requires line != [] && line[0] == '-' && '*' !in line
    ensures RewriteLine(Italic, RewriteLine(Bold, RewriteLine(H1, RewriteLine(H2, RewriteLine(H3, line))))) == line
  {
    HeadersIdle(line);
    StarlessIdle(line);
  }

  /** Bold and italic leave a line without `*` alone. */
  lemma StarlessIdle(line: string)
    requires '*' !in line
    ensures RewriteLine(Bold, line) == line && RewriteLine(Italic, line) == line
  {
    assert "*"[0] == '*' && "**"[0] == '*';
    NoMatchWithoutHead(line, "*");
    NoMatchWithoutHead(line, "**");
  }

  lemma ListLineSteps(a: string)
    requires '*' !in a
    ensures LineSteps("- " + a) == ListHtml(a)
  {
    var line := "- " + a;
    EarlyRulesIdle(line);
    assert MatchAt(line, 0, "- ") && line[2..] == a;
    assert RewriteLine(ListItem, line) == LI_OPEN + a + LI_CLOSE;
    WrapListItem(a);
  }

  /** A line `- a` becomes its own list: `<ul class="my-2"><li class="ml-4">a</li></ul>`. */
  lemma RenderListItem(a: string)
    requires NoTerminator(a) && '*' !in a && '`' !in a
    ensures Render("- " + a) == ListHtml(a)
  {
    var line := "- " + a;
    assert NoTerminator(line);
    ListLineSteps(a);
    assert UL_OPEN[0] == '<' && "> "[0] == '>';
    assert ListHtml(a)[0] == '<';
    assert !MatchAt(ListHtml(a), 0, "> ");
    RenderOneLine(line);
  }

  /** Two adjacent list lines give two separate lists joined by `<br />`. */
  lemma RenderTwoListItems(a: string, b: string)
    requires NoTerminator(a) && '*' !in a && '`' !in a
    requires NoTerminator(b) && '*' !in b && '`' !in b
    ensures Render("- " + a + "\n- " + b) == ListHtml(a) + BR + ListHtml(b)
  {
    assert "- " + a + "\n- " + b == ("- " + a) + "\n" + ("- " + b);
    assert NoTerminator("- " + a);
    RenderLineByLine("- " + a, "- " + b);
    RenderListItem(a);
    RenderListItem(b);
  }

  // ---------------------------------------------------------------------------
  // Bold and italic

  /** A greedy rule whose replacement starts with a character its opener
      cannot match changes a line exactly when the line holds an opener and,
      at or after its end, a closer. */
  lemma GreedyChangesIff(line: string, a: string, b: string, open: string, close: string)
    requires a != [] && open != [] && !CharMatches(open[0], a[0])
    ensures GreedyRewrite(line, a, b, false, open, close) != line
      <==> exists i: nat, j: nat :: MatchAt(line, i, a) && MatchAt(line, j, b) && i + |a| <= j
  {
    var r := GreedyRewrite(line, a, b, false, open, close);
    match GreedySpan(line, a, b)
    case None =>
    case Some((p, q)) =>
      assert r[p] == open[0];
      assert CharMatches(line[p + 0], a[0]);
  }

  /** Bold changes a line exactly when it holds two `**` that do not overlap. */
  lemma BoldChangesIff(line: string)
    ensures RewriteLine(Bold, line) != line
      <==> exists i: nat, j: nat :: MatchAt(line, i, "**") && MatchAt(line, j, "**") && i + 2 <= j
  {
    assert STRONG_OPEN[0] == '<' && "**"[0] == '*';
    GreedyChangesIff(line, "**", "**", STRONG_OPEN, STRONG_CLOSE);
  }

  /** Italic changes a line exactly when it holds two `*`. */
  lemma ItalicChangesIff(line: string)
    ensures RewriteLine(Italic, line) != line
      <==> exists i: nat, j: nat :: MatchAt(line, i, "*") && MatchAt(line, j, "*") && i + 1 <= j
  {
    assert EM_OPEN[0] == '<' && "*"[0] == '*';
    GreedyChangesIff(line, "*", "*", EM_OPEN, EM_CLOSE);
  }

  /** Bold is greedy: from the first `**` of a line to its last, whatever
      `**` stand between them (they stay in the text). */
  lemma BoldGreedy(w: string)
    ensures RewriteLine(Bold, "**" + w + "**") == STRONG_OPEN + w + STRONG_CLOSE
  {
    var line := "**" + w + "**";
    var q := |w| + 2;
    assert MatchAt(line, 0, "**");
    assert line[q..] == "**";
    assert MatchAt(line, q, "**");
    assert line[2..q] == w && line[..0] == [] && line[q + 2..] == [];
  }

  /** After the `**` that closes `a`, the rest of `**a**m*b*` holds no
      `**`: `m` and `b` are not empty and hold no `*`. */
  lemma TailHasNoDoubleStar(m: string, b: string)
    requires '*' !in m && '*' !in b && m != [] && b != []
    ensures forall j: nat :: !MatchAt("*" + m + "*" + b + "*", j, "**")
  {
    var t := "*" + m + "*" + b + "*";
    var s1 := 1 + |m|;
    assert "**"[0] == '*' && "**"[1] == '*';
    forall j: nat | j + 2 <= |t| ensures !MatchAt(t, j, "**") {
      if j == 0 {
        assert t[1] == m[0];
      } else if j < s1 {
        assert t[j] == m[j - 1];
      } else if j == s1 {
        assert t[j + 1] == b[0];
      } else {
        assert t[j] == b[j - s1 - 1];
      }
    }
  }

  /** The bold step on `**a**m*b*`: the last `**` of the line is the one
      after `a`. */
  lemma {:induction false} BoldStep(a: string, m: string, b: string)
    requires '*' !in a && '*' !in m && '*' !in b && m != [] && b != []
    ensures RewriteLine(Bold, "**" + a + "**" + m + "*" + b + "*")
      == STRONG_OPEN + a + STRONG_CLOSE + m + "*" + b + "*"
  {
    var line := "**" + a + "**" + m + "*" + b + "*";
    var q := |a| + 2;
    BoldDelimiters(a, m, b);
    GreedyRewriteAt(line, "**", "**", false, STRONG_OPEN, STRONG_CLOSE, 0, q);
    BoldSlices(a, m + "*" + b + "*");
    assert "**" + a + "**" + (m + "*" + b + "*") == line;
  }

  /** The pieces of `**a**z` around its first two `**`. */
  lemma BoldSlices(a: string, z: string)
    ensures var line, q := "**" + a + "**" + z, |a| + 2;
      line[2..q] == a && line[..0] == [] && line[q + 2..] == z
  {
  }

  lemma BoldDelimiters(a: string, m: string, b: string)
    requires '*' !in a && '*' !in m && '*' !in b && m != [] && b != []
    ensures var line, q := "**" + a + "**" + m + "*" + b + "*", |a| + 2;
      MatchAt(line, 0, "**") && MatchAt(line, q, "**") && forall j: nat | q < j :: !MatchAt(line, j, "**")
  {
    var line := "**" + a + "**" + m + "*" + b + "*";
    var q := |a| + 2;
    assert line[..2] == "**" && line[q..q + 2] == "**";
    assert MatchAt(line, 0, "**") && MatchAt(line, q, "**");
    TailHasNoDoubleStar(m, b);
    assert line[q + 1..] == "*" + m + "*" + b + "*";
    forall j: nat | q < j ensures !MatchAt(line, j, "**") {
      MatchInSuffix(line, q + 1, j - q - 1, "**");
    }
  }

  /** The italic step on `x*b*` where `x` holds no `*`. */
  lemma ItalicStep(x: string, b: string)
    requires '*' !in x && '*' !in b
    ensures RewriteLine(Italic, x + "*" + b + "*") == x + EM_OPEN + b + EM_CLOSE
  {
    var line := x + "*" + b + "*";
    var p, q := |x|, |x| + 1 + |b|;
    assert "*"[0] == '*';
    assert MatchAt(line, p, "*") && MatchAt(line, q, "*");
    forall i: nat | i < p ensures !MatchAt(line, i, "*") {
      assert line[i] == x[i];
    }
    GreedyRewriteAt(line, "*", "*", false, EM_OPEN, EM_CLOSE, p, q);
    assert line[..p] == x && line[p + 1..q] == b && line[q + 1..] == [];
  }

  /** No header rule touches a line that does not start with `#`. */
  lemma HeadersIdle(line: string)
    requires line != [] && line[0] != '#'
    ensures RewriteLine(H1, RewriteLine(H2, RewriteLine(H3, line))) == line
  {
    assert "### "[0] == '#' && "## "[0] == '#' && "# "[0] == '#';
  }

  lemma {:induction false} BoldThenItalicSteps(a: string, m: string, b: string)
    requires '*' !in a && '*' !in m && '*' !in b && m != [] && b != []
    requires '<' !in a && '<' !in m && '<' !in b
    ensures LineSteps("**" + a + "**" + m + "*" + b + "*")
      == STRONG_OPEN + a + STRONG_CLOSE + m + EM_OPEN + b + EM_CLOSE
  {
    var line := "**" + a + "**" + m + "*" + b + "*";
    var x := STRONG_OPEN + a + STRONG_CLOSE + m;
    var u := x + EM_OPEN + b + EM_CLOSE;
    HeadersIdle(line);
    var r1 := RewriteLine(Bold, line);
    BoldStep(a, m, b);
    assert r1 == x + "*" + b + "*";
    var r2 := RewriteLine(Italic, r1);
    ItalicStep(x, b);
    assert r2 == u;
    EmphasisClosed(a, m, b);
    SettledLine(ListItem, u);
    SettledLine(ListWrap, u);
  }

  lemma EmphasisClosed(a: string, m: string, b: string)
    requires '<' !in a && '<' !in m && '<' !in b && '*' !in a && '*' !in m && '*' !in b
    ensures var u := STRONG_OPEN + a + STRONG_CLOSE + m + EM_OPEN + b + EM_CLOSE;
      ClosedAngles(u) && '*' !in u && u[0] == '<'
  {
    var x := STRONG_OPEN + a + STRONG_CLOSE + m;
    assert ClosedAngles(STRONG_OPEN) && ClosedAngles(STRONG_CLOSE);
    assert ClosedAngles(EM_OPEN) && ClosedAngles(EM_CLOSE);
    assert ClosedAngles(a) && ClosedAngles(m) && ClosedAngles(b);
    ClosedAnglesConcat(STRONG_OPEN, a);
    ClosedAnglesConcat(STRONG_OPEN + a, STRONG_CLOSE);
    ClosedAnglesConcat(STRONG_OPEN + a + STRONG_CLOSE, m);
    ClosedAnglesConcat(x, EM_OPEN);
    ClosedAnglesConcat(x + EM_OPEN, b);
    ClosedAnglesConcat(x + EM_OPEN + b, EM_CLOSE);
  }

  /** `**a**m*b*` renders as one bold `a` followed by `m` and one italic `b`. */
  lemma RenderBoldThenItalic(a: string, m: string, b: string)
    requires NoTerminator(a) && NoTerminator(m) && NoTerminator(b)
    requires '*' !in a && '*' !in m && '*' !in b && m != [] && b != []
    requires '`' !in a && '`' !in m && '`' !in b
    requires '<' !in a && '<' !in m && '<' !in b
    ensures Render("**" + a + "**" + m + "*" + b + "*")
      == STRONG_OPEN + a + STRONG_CLOSE + m + EM_OPEN + b + EM_CLOSE
  {
    var line := "**" + a + "**" + m + "*" + b + "*";
    var u := STRONG_OPEN + a + STRONG_CLOSE + m + EM_OPEN + b + EM_CLOSE;
    assert NoTerminator(line) && '`' !in line;
    BoldThenItalicSteps(a, m, b);
    EmphasisClosed(a, m, b);
    SettledLine(Quote, u);
    RenderOneLine(line);
  }

  /** The example of the renderer's documentation. */
  lemma {:induction false} RenderBoldAndItalicExample()
    ensures Render("**bold** and *italic*")
      == STRONG_OPEN + "bold" + STRONG_CLOSE + " and " + EM_OPEN + "italic" + EM_CLOSE
  {
    assert "**bold** and *italic*" == "**" + "bold" + "**" + " and " + "*" + "italic" + "*";
    RenderBoldThenItalic("bold", " and ", "italic");
  }

  // ---------------------------------------------------------------------------
  // Code

  /** In `a + d + b + d + c`, where `d` starts with a backtick and `a`, `b`
      hold none, the first two occurrences of `d` are the written ones. */
  lemma NearestDelimiters(a: string, d: string, b: string, c: string)
    requires d != [] && d[0] == '`' && '`' !in a && '`' !in b
    ensures PairSpan(a + d + b + d + c, d) == Some((|a|, |a| + |d| + |b|))
  {
    var s := a + d + b + d + c;
    var p, q := |a|, |a| + |d| + |b|;
    assert s[p..p + |d|] == d && s[q..q + |d|] == d;
    assert MatchAt(s, p, d) && MatchAt(s, q, d);
    forall i: nat | i < p ensures !MatchAt(s, i, d) {
      assert s[i] == a[i];
    }
    forall i: nat | p + |d| <= i < q ensures !MatchAt(s, i, d) {
      assert s[i] == b[i - p - |d|];
    }
    PairSpanIs(s, d, p, q);
  }

  /** An opener pairs with the nearest following delimiter, whatever lies
      between them (line terminators included). */
  lemma {:induction false} PairNearest(rule: PairRule, a: string, b: string, c: string)
    requires '`' !in a && '`' !in b
    ensures var d := Delimiter(rule);
      Pairs(rule, a + d + b + d + c) == a + PairOpen(rule) + b + PairClose(rule) + Pairs(rule, c)
  {
    var d := Delimiter(rule);
    assert d[0] == '`';
    NearestDelimiters(a, d, b, c);
    SliceParts(a, d, b, c);
    PairsStepAt(rule, a + d + b + d + c, |a|, |a| + |d| + |b|, a, b, c);
  }

  lemma SliceParts(a: string, d: string, b: string, c: string)
    ensures var s := a + d + b + d + c;
      && s[..|a|] == a && s[|a| + |d|..|a| + |d| + |b|] == b
      && s[|a| + |d| + |b| + |d|..] == c
  {
    var s := a + d + b + d + c;
    assert s == a + (d + b + d + c);
    assert s[|a|..] == d + b + d + c;
    assert s[|a| + |d|..] == b + d + c;
  }

  // ---------------------------------------------------------------------------
  // Fences see text the line rules have already rewritten

  /** Bold on ```` ```**w**``` ````: the `**` pair inside the fence matches. */
  lemma {:induction false} FenceBoldStep(w: string)
    requires '*' !in w && '`' !in w
    ensures RewriteLine(Bold, "```**" + w + "**```") == "```" + (STRONG_OPEN + w + STRONG_CLOSE) + "```"
  {
    var line := "```**" + w + "**```";
    var q := 5 + |w|;
    assert "**"[0] == '*' && "**"[1] == '*';
    assert line[3..5] == "**" && line[q..q + 2] == "**";
    assert MatchAt(line, 3, "**") && MatchAt(line, q, "**");
    forall i: nat | i < 3 ensures !MatchAt(line, i, "**") {
      assert line[i] == '`';
    }
    forall j: nat | q < j ensures !MatchAt(line, j, "**") {
      if j + 2 <= |line| {
        assert line[j + 1] == '`';
      }
    }
    GreedyRewriteAt(line, "**", "**", false, STRONG_OPEN, STRONG_CLOSE, 3, q);
    assert line[..3] == "```" && line[5..q] == w && line[q + 2..] == "```";
    Regroup5("```", STRONG_OPEN, w, STRONG_CLOSE, "```");
  }

  /** A line without `*` or `<li` that does not start with `-`: italic and
      the list rules leave it alone. */
  lemma LateRulesIdle(u: string)
    requires u != [] && u[0] != '-' && '*' !in u && ClosedAngles(u)
    ensures RewriteLine(Italic, u) == u && RewriteLine(ListItem, u) == u && RewriteLine(ListWrap, u) == u
  {
    NoMatchWithoutHead(u, "*");
    assert "*"[0] == '*' && "- "[0] == '-';
    ClosedAnglesNoListTag(u);
  }

  lemma Regroup5(a: string, b: string, c: string, d: string, e: string)
    ensures a + b + c + d + e == a + (b + c + d) + e
  {
  }

  lemma FenceBodyClosed(w: string)
    requires '*' !in w && '<' !in w
    ensures var u := "```" + (STRONG_OPEN + w + STRONG_CLOSE) + "```";
      ClosedAngles(u) && '*' !in u
  {
    var b := STRONG_OPEN + w + STRONG_CLOSE;
    assert '*' !in STRONG_OPEN && '*' !in STRONG_CLOSE;
    assert ClosedAngles("```") && ClosedAngles(STRONG_OPEN) && ClosedAngles(STRONG_CLOSE) && ClosedAngles(w);
    ClosedAnglesConcat(STRONG_OPEN, w);
    ClosedAnglesConcat(STRONG_OPEN + w, STRONG_CLOSE);
    ClosedAnglesConcat("```", b);
    ClosedAnglesConcat("```" + b, "```");
  }

  lemma FenceLineSteps(w: string)
    requires '*' !in w && '`' !in w && '<' !in w
    ensures LineSteps("```**" + w + "**```") == "```" + (STRONG_OPEN + w + STRONG_CLOSE) + "```"
  {
    var line := "```**" + w + "**```";
    var u := "```" + (STRONG_OPEN + w + STRONG_CLOSE) + "```";
    assert line[0] == '`';
    HeadersIdle(line);
    FenceBoldStep(w);
    FenceBodyClosed(w);
    assert u[0] == '`';
    LateRulesIdle(u);
  }

  /** A single pair of delimiters around `b`, with nothing before or after. */
  lemma LonePair(rule: PairRule, b: string)
    requires '`' !in b
    ensures var d := Delimiter(rule);
      Pairs(rule, d + b + d) == PairOpen(rule) + b + PairClose(rule)
  {
    var d := Delimiter(rule);
    var e: string := [];
    DropEmptyEnds(e, d, b, d);
    PairNearest(rule, e, b, e);
    PairsWithoutBacktick(rule, e);
    DropEmptyEnds(e, PairOpen(rule), b, PairClose(rule));
  }

  lemma DropEmptyEnds(e: string, x: string, y: string, z: string)
    requires e == []
    ensures e + x + y + z + e == x + y + z
  {
  }

  lemma FencePair(b: string)
    requires '`' !in b
    ensures Pairs(Fence, "```" + b + "```") == PRE_OPEN + b + PRE_CLOSE
  {
    LonePair(Fence, b);
  }

  /** The two code rules on the rewritten fence line. */
  lemma FenceCodeStep(b: string)
    requires NoTerminator(b) && '`' !in b
    ensures Pairs(InlineCode, Pairs(Fence, "```" + b + "```")) == PRE_OPEN + b + PRE_CLOSE
  {
    FencePair(b);
    PairMarkupInert(Fence);
    WrappedLine(PRE_OPEN, b, PRE_CLOSE);
    PairsWithoutBacktick(InlineCode, PRE_OPEN + b + PRE_CLOSE);
  }

  lemma FenceLineIsOneLine(w: string)
    requires NoTerminator(w)
    ensures NoTerminator("```**" + w + "**```")
  {
    assert forall c | c in "```**" + "**```" :: !IsLineTerminator(c);
    var line := "```**" + w + "**```";
    forall i | 0 <= i < |line| ensures !IsLineTerminator(line[i]) {
      if i < 5 {
        assert line[i] in "```**" + "**```";
      } else if i >= 5 + |w| {
        assert line[i] == "**```"[i - 5 - |w|];
        assert line[i] in "```**" + "**```";
      }
    }
  }

  /** What is left of a one-line text after the code rules, when it starts
      with a tag and holds no terminator: the quote rule and the line breaks
      leave it as it is. */
  lemma TagLineFinal(x: string)
    requires x != [] && x[0] == '<' && NoTerminator(x)
    ensures BreakLines(MapLines(Quote, x)) == x
  {
    MapLinesOneLine(Quote, x);
    assert "> "[0] == '>';
    assert '\n' !in x by {
      forall i | 0 <= i < |x| ensures x[i] != '\n' {
        assert !IsLineTerminator(x[i]);
      }
    }
  }

  /** The fence is not verbatim: `**w**` inside it has become bold before the
      fence pattern runs. */
  lemma RenderFenceRewritten(w: string)
    requires NoTerminator(w) && '*' !in w && '`' !in w && '<' !in w
    ensures Render("```**" + w + "**```") == PRE_OPEN + (STRONG_OPEN + w + STRONG_CLOSE) + PRE_CLOSE
  {
    var line := "```**" + w + "**```";
    var b := STRONG_OPEN + w + STRONG_CLOSE;
    var x := PRE_OPEN + b + PRE_CLOSE;
    FenceLineIsOneLine(w);
    LineStagesOneLine(line);
    FenceLineSteps(w);
    MarkupInert(Bold);
    WrappedLine(STRONG_OPEN, w, STRONG_CLOSE);
    FenceCodeStep(b);
    PairMarkupInert(Fence);
    WrappedLine(PRE_OPEN, b, PRE_CLOSE);
    TagLineFinal(x);
  }

  /** Markup made of inert characters around one line is still one line. */
  lemma WrappedNoTerminator(open: string, t: string, close: string)
    requires forall c | c in open + close :: Inert(c)
    requires NoTerminator(t)
    ensures NoTerminator(open + t + close)
  {
    var x := open + t + close;
    forall i | 0 <= i < |x| ensures !IsLineTerminator(x[i]) {
      if i < |open| {
        assert x[i] in open + close;
      } else if i >= |open| + |t| {
        assert x[i] == close[i - |open| - |t|];
        assert x[i] in open + close;
      }
    }
  }

  /** Inert markup around one line without backticks keeps both properties. */
  lemma WrappedLine(open: string, t: string, close: string)
    requires forall c | c in open + close :: Inert(c)
    requires NoTerminator(t) && '`' !in t
    ensures NoTerminator(open + t + close) && '`' !in open + t + close
  {
    WrappedNoTerminator(open, t, close);
    assert '`' !in open + close;
    assert open + t + close == open + (t + close);
  }

  /** `<li>` … `</li>` around any text: the list wrapper matches it whole. */
  lemma ListTagWrap(t: string)
    ensures RewriteLine(ListWrap, "<li>" + t + "</li>") == UL_OPEN + ("<li>" + t + "</li>") + UL_CLOSE
  {
    var line := "<li>" + t + "</li>";
    assert line[0] == '<' && line[1] == 'l' && line[2] == 'i';
    assert line[|line| - 5..] == "</li>";
    WrapWhole(line);
  }

  lemma ListTagLineSteps(t: string)
    requires '<' !in t && '*' !in t
    ensures LineSteps("<li>" + t + "</li>") == UL_OPEN + ("<li>" + t + "</li>") + UL_CLOSE
  {
    var line := "<li>" + t + "</li>";
    assert line[0] == '<' && '*' !in line;
    HeadersIdle(line);
    NoMatchWithoutHead(line, "*");
    assert "*"[0] == '*' && "- "[0] == '-' && "**"[0] == '*';
    NoMatchWithoutHead(line, "**");
    ListTagWrap(t);
  }

  /** A `<li>` … `</li>` already in the text is wrapped in a list even on a
      line that does not start with `- `: plain text must avoid `<li` too. */
  lemma ListTagInPlainText(t: string)
    requires NoTerminator(t) && '<' !in t && '*' !in t && '`' !in t
    ensures Render("<li>" + t + "</li>") == UL_OPEN + ("<li>" + t + "</li>") + UL_CLOSE
  {
    var line := "<li>" + t + "</li>";
    ListTagIsOneLine(t);
    ListTagLineSteps(t);
    RenderOneLine(line);
    assert UL_OPEN[0] == '<';
    TagQuoteIdle(UL_OPEN, line + UL_CLOSE);
    Regroup3(UL_OPEN, line, UL_CLOSE);
  }

  lemma ListTagIsOneLine(t: string)
    requires NoTerminator(t) && '`' !in t
    ensures NoTerminator("<li>" + t + "</li>") && '`' !in "<li>" + t + "</li>"
  {
    assert forall c | c in "<li>" + "</li>" :: Inert(c);
    WrappedLine("<li>", t, "</li>");
  }

  /** The quote rule leaves a line that starts with a tag alone. */
  lemma TagQuoteIdle(open: string, y: string)
    requires open != [] && open[0] == '<'
    ensures RewriteLine(Quote, open + y) == open + y
  {
    assert (open + y)[0] == '<' && "> "[0] == '>';
  }

  lemma Regroup3(a: string, b: string, c: string)
    ensures a + (b + c) == a + b + c
  {
  }

  /** An opener with no closer leaves the rest of the text as it is. */
  lemma UnclosedPair(rule: PairRule, a: string, b: string)
    requires '`' !in a && '`' !in b
    ensures Pairs(rule, a + Delimiter(rule) + b) == a + Delimiter(rule) + b
  {
    var d := Delimiter(rule);
    assert d[0] == '`';
    UnclosedSpan(a, d, b);
    PairsDone(rule, a + d + b);
  }

  lemma UnclosedSpan(a: string, d: string, b: string)
    requires d != [] && d[0] == '`' && '`' !in a && '`' !in b
    ensures PairSpan(a + d + b, d) == None
  {
    var s := a + d + b;
    assert s[|a|..|a| + |d|] == d;
    forall i: nat | i < |a| ensures !MatchAt(s, i, d) {
      assert s[i] == a[i];
    }
    forall i: nat | |a| + |d| <= i ensures !MatchAt(s, i, d) {
      if i < |s| {
        assert s[i] == b[i - |a| - |d|];
      }
    }
    PairSpanUnclosed(s, d, |a|);
  }

  /** No backtick between `from` and `to` when no match of a backtick starts there. */
  lemma BacktickFree(s: string, from: nat, to: nat)
    requires from <= to <= |s|
    requires forall j: nat | from <= j < to :: !MatchAt(s, j, "`")
    ensures Count(s[from..to], '`') == 0
  {
    assert "`"[0] == '`';
    forall i | 0 <= i < to - from ensures s[from..to][i] != '`' {
      assert !MatchAt(s, from + i, "`");
    }
  }

  lemma CountAround(s: string, p: nat, c: char)
    requires p < |s|
    ensures Count(s, c) == Count(s[..p], c) + Count([s[p]], c) + Count(s[p + 1..], c)
  {
    assert s == s[..p] + [s[p]] + s[p + 1..];
    CountConcat(s[..p] + [s[p]], s[p + 1..], c);
    CountConcat(s[..p], [s[p]], c);
  }

  /** The inline-code markup of one match holds no backtick. */
  lemma EmitHasNoBacktick(s: string, p: nat, q: nat)
    requires p + 1 <= q <= |s|
    requires Count(s[..p], '`') == 0 && Count(s[p + 1..q], '`') == 0
    ensures Count(Emit(InlineCode, s, p, q), '`') == 0
  {
    BlockTagsInert();
    assert '`' !in CODE_OPEN && '`' !in CODE_CLOSE;
    CountNone(CODE_OPEN, '`');
    CountNone(CODE_CLOSE, '`');
    CountConcat(s[..p] + CODE_OPEN + s[p + 1..q], CODE_CLOSE, '`');
    CountConcat(s[..p] + CODE_OPEN, s[p + 1..q], '`');
    CountConcat(s[..p], CODE_OPEN, '`');
  }

  lemma {:induction false} CountNone(s: string, c: char)
    requires c !in s
    ensures Count(s, c) == 0
  {
  }

  /** Without a complete pair there is at most one backtick. */
  lemma UnpairedBackticks(s: string)
    requires PairSpan(s, "`") == None
    ensures Count(s, '`') <= 1
  {
    assert "`"[0] == '`';
    var first := FirstMatch(s, "`", 0);
    if first.None? {
      BacktickFree(s, 0, |s|);
      assert s[0..|s|] == s;
    } else {
      var p := first.value;
      CountAround(s, p, '`');
      BacktickFree(s, 0, p);
      assert s[0..p] == s[..p];
      BacktickFree(s, p + 1, |s|);
      assert s[p + 1..|s|] == s[p + 1..];
    }
  }

  /** One inline-code match consumes two backticks ... */
  lemma PairedBackticksIn(s: string, p: nat, q: nat)
    requires PairSpan(s, "`") == Some((p, q))
    ensures Count(s[..p], '`') == 0 && Count(s[p + 1..q], '`') == 0
    ensures Count(s, '`') == Count(s[q + 1..], '`') + 2
  {
    assert "`"[0] == '`';
    assert s[p] == '`' && s[q] == '`';
    CountAround(s, p, '`');
    BacktickFree(s, 0, p);
    assert s[0..p] == s[..p];
    BacktickFree(s, p + 1, q);
    CountAfterOpener(s, p, q);
  }

  lemma CountAfterOpener(s: string, p: nat, q: nat)
    requires p < q < |s|
    ensures Count(s[p + 1..], '`') == Count(s[p + 1..q], '`') + Count([s[q]], '`') + Count(s[q + 1..], '`')
  {
    var t := s[p + 1..];
    CountAround(t, q - p - 1, '`');
    assert t[..q - p - 1] == s[p + 1..q] && t[q - p - 1] == s[q] && t[q - p..] == s[q + 1..];
  }

  lemma InlineStep(s: string, p: nat, q: nat)
    requires PairSpan(s, "`") == Some((p, q))
    ensures Pairs(InlineCode, s) == Emit(InlineCode, s, p, q) + Pairs(InlineCode, s[q + 1..])
  {
    assert Delimiter(InlineCode) == "`";
    PairsStep(InlineCode, s, p, q);
  }

  /** ... and leaves none in its output. */
  lemma PairedBackticksOut(s: string, p: nat, q: nat)
    requires PairSpan(s, "`") == Some((p, q))
    requires Count(s[..p], '`') == 0 && Count(s[p + 1..q], '`') == 0
    ensures Count(Pairs(InlineCode, s), '`') == Count(Pairs(InlineCode, s[q + 1..]), '`')
  {
    InlineStep(s, p, q);
    EmitHasNoBacktick(s, p, q);
    CountConcat(Emit(InlineCode, s, p, q), Pairs(InlineCode, s[q + 1..]), '`');
  }

  lemma ParityStep(m: nat, n: nat)
    requires m == n + 2
    ensures m % 2 == n % 2
  {
  }

  lemma ParityNoPair(s: string)
    requires PairSpan(s, "`") == None
    ensures Count(Pairs(InlineCode, s), '`') == Count(s, '`') % 2
  {
    assert Delimiter(InlineCode) == "`";
    UnpairedBackticks(s);
    PairsDone(InlineCode, s);
  }

  lemma ParityPair(s: string, p: nat, q: nat)
    requires PairSpan(s, "`") == Some((p, q))
    requires Count(Pairs(InlineCode, s[q + 1..]), '`') == Count(s[q + 1..], '`') % 2
    ensures Count(Pairs(InlineCode, s), '`') == Count(s, '`') % 2
  {
    PairedBackticksIn(s, p, q);
    PairedBackticksOut(s, p, q);
    ParityStep(Count(s, '`'), Count(s[q + 1..], '`'));
  }

  /** Inline code pairs backticks two by two, across lines too: of the
      backticks it is given, one survives exactly when their number is odd. */
  lemma {:induction false} InlineCodeParity(s: string)
    ensures Count(Pairs(InlineCode, s), '`') == Count(s, '`') % 2
    decreases |s|
  {
    match PairSpan(s, "`")
    case None =>
      ParityNoPair(s);
    case Some((p, q)) =>
      InlineCodeParity(s[q + 1..]);
      ParityPair(s, p, q);
  }
}
