/**
 * The info panel's Markdown-to-HTML conversion (`formattedContent` in
 * src/components/InfoPanel.tsx): a fixed chain of eleven global regular
 * expression replacements, each applied to the whole result of the previous
 * one. Every replacement is modelled as the scan that `String.prototype.replace`
 * with a `g` regular expression performs: matches are found left to right and
 * never overlap, and the text between them is copied.
 *
 * Eight of the eleven patterns cannot cross a line terminator (`.` does not match
 * one, and `^`/`$` are line anchors under the `m` flag), so they act on each
 * line on its own: `MapLines`. The fenced-code and inline-code patterns cross
 * lines and are modelled on the whole string: `Pairs`. The last step turns
 * every `'\n'` into `<br />`: `BreakLines`.
 */
module InfoPanel {
  import opened Wrappers
  import opened Text

  // The long attribute strings are written as concatenations of short
  // literals: the verifier reasons about a literal character by character, and
  // short pieces keep that cheap. The values are those of the source.
  const H3_OPEN: string := "<h3 class=\"text-lg " + "font-semibold mt-4 mb-2\">"
  const H3_CLOSE: string := "</h3>"
  const H2_OPEN: string := "<h2 class=\"text-xl " + "font-semibold mt-5 mb-2\">"
  const H2_CLOSE: string := "</h2>"
  const H1_OPEN: string := "<h1 class=\"text-2xl " + "font-bold mt-5 mb-3\">"
  const H1_CLOSE: string := "</h1>"
  const STRONG_OPEN: string := "<strong>"
  const STRONG_CLOSE: string := "</strong>"
  const EM_OPEN: string := "<em>"
  const EM_CLOSE: string := "</em>"
  const LI_OPEN: string := "<li class=\"ml-4\">"
  const LI_CLOSE: string := "</li>"
  const UL_OPEN: string := "<ul class=\"my-2\">"
  const UL_CLOSE: string := "</ul>"
  const PRE_OPEN: string := "<pre class=\"bg-muted p-4 " + "rounded-md my-4 " + "overflow-auto text-sm\">" + "<code>"
  const PRE_CLOSE: string := "</code></pre>"
  const CODE_OPEN: string := "<code class=\"bg-muted " + "px-1 py-0.5 rounded text-sm\">"
  const CODE_CLOSE: string := "</code>"
  const QUOTE_OPEN: string := "<blockquote " + "class=\"border-l-4 " + "border-muted-" + "foreground/30 " + "pl-4 italic my-4\">"
  const QUOTE_CLOSE: string := "</blockquote>"
  const BR: string := "<br />"

  /** The replacements whose pattern stays within one line, in pipeline order. */
  datatype LineRule =
    | H3        // /^### (.*$)/gim
    | H2        // /^## (.*$)/gim
    | H1        // /^# (.*$)/gim
    | Bold      // /\*\*(.*)\*\*/gim
    | Italic    // /\*(.*)\*/gim
    | ListItem  // /^\- (.*$)/gim
    | ListWrap  // /(<li.*<\/li>)/gim
    | Quote     // /^> (.*$)/gim

  /** The replacements whose pattern crosses lines. */
  datatype PairRule =
    | Fence       // /```([\s\S]*?)```/gim
    | InlineCode  // /`([^`]*)`/gim

  /** The text a line rule's replacement adds around the captured group. */
  function Markup(rule: LineRule): string {
    match rule
    case H3 => H3_OPEN + H3_CLOSE
    case H2 => H2_OPEN + H2_CLOSE
    case H1 => H1_OPEN + H1_CLOSE
    case Bold => STRONG_OPEN + STRONG_CLOSE
    case Italic => EM_OPEN + EM_CLOSE
    case ListItem => LI_OPEN + LI_CLOSE
    case ListWrap => UL_OPEN + UL_CLOSE
    case Quote => QUOTE_OPEN + QUOTE_CLOSE
  }

  /** `^P(.*$)` → `open$1close` on one line: the only possible match starts
      at the line's start and, `.*` being greedy, runs to its end. */
  function PrefixRewrite(line: string, prefix: string, open: string, close: string): (r: string)
    ensures forall c | c in r :: c in line || c in open + close
  {
    if MatchAt(line, 0, prefix) then
      assert forall c | c in line[|prefix|..] :: c in line;
      open + line[|prefix|..] + close
    else line
  }

  /** Where `A(.*)B` matches on one line, if anywhere. The leftmost match
      starts at the first `A` (if that `A` has no `B` after it, no later `A`
      has either) and greedy `.*` backs off from the line's end to the last
      `B`. After that match no `B` is left to close another one, so a line
      holds at most one match. */
  function GreedySpan(line: string, a: string, b: string): (r: Option<(nat, nat)>)
    ensures r.Some? ==> MatchAt(line, r.value.0, a) && MatchAt(line, r.value.1, b)
    ensures r.Some? ==> r.value.0 + |a| <= r.value.1
    ensures r.Some? ==> forall i: nat | i < r.value.0 :: !MatchAt(line, i, a)
    ensures r.Some? ==> forall j: nat | r.value.1 < j :: !MatchAt(line, j, b)
    ensures r.None? ==> forall i: nat, j: nat | MatchAt(line, i, a) && MatchAt(line, j, b) :: j < i + |a|
  {
    match FirstMatch(line, a, 0)
    case None => None
    case Some(p) =>
      match LastMatch(line, b)
      case Some(q) =>
        if p + |a| <= q then Some((p, q)) else None
      case None => None
  }

  /** `A(.*)B` → `open$1close` on one line; `keep` says whether the
      delimiters belong to the captured group (they do in `(<li.*<\/li>)`). */
  function GreedyRewrite(line: string, a: string, b: string, keep: bool, open: string, close: string): (r: string)
    ensures forall c | c in r :: c in line || c in open + close
  {
    match GreedySpan(line, a, b)
    case None => line
    case Some((p, q)) =>
      var inner := if keep then line[p..q + |b|] else line[p + |a|..q];
      assert forall c | c in line[..p] :: c in line;
      assert forall c | c in inner :: c in line;
      assert forall c | c in line[q + |b|..] :: c in line;
      line[..p] + open + inner + close + line[q + |b|..]
  }

  /** One line rule applied to one line. */
  function RewriteLine(rule: LineRule, line: string): (r: string)
    ensures forall c | c in r :: c in line || c in Markup(rule)
  {
    match rule
    case H3 => PrefixRewrite(line, "### ", H3_OPEN, H3_CLOSE)
    case H2 => PrefixRewrite(line, "## ", H2_OPEN, H2_CLOSE)
    case H1 => PrefixRewrite(line, "# ", H1_OPEN, H1_CLOSE)
    case Bold => GreedyRewrite(line, "**", "**", false, STRONG_OPEN, STRONG_CLOSE)
    case Italic => GreedyRewrite(line, "*", "*", false, EM_OPEN, EM_CLOSE)
    case ListItem => PrefixRewrite(line, "- ", LI_OPEN, LI_CLOSE)
    case ListWrap => GreedyRewrite(line, "<li", "</li>", true, UL_OPEN, UL_CLOSE)
    case Quote => PrefixRewrite(line, "> ", QUOTE_OPEN, QUOTE_CLOSE)
  }

  /** A line rule replaced globally: every line of `s` rewritten on its own,
      the terminators between lines kept. */
  function MapLines(rule: LineRule, s: string): (r: string)
    decreases |s|
    ensures forall c | c in r :: c in s || c in Markup(rule)
  {
    var k := LineEnd(s);
    if k == |s| then RewriteLine(rule, s)
    else
      assert forall c | c in s[..k] :: c in s;
      assert forall c | c in s[k + 1..] :: c in s;
      RewriteLine(rule, s[..k]) + [s[k]] + MapLines(rule, s[k + 1..])
  }

  function Delimiter(rule: PairRule): string {
    match rule
    case Fence => "```"
    case InlineCode => "`"
  }

  function PairOpen(rule: PairRule): string {
    match rule
    case Fence => PRE_OPEN
    case InlineCode => CODE_OPEN
  }

  function PairClose(rule: PairRule): string {
    match rule
    case Fence => PRE_CLOSE
    case InlineCode => CODE_CLOSE
  }

  /** Where `D(X)D` matches first, with the shortest `X`: for the fence,
      `*?` is lazy; for inline code, `[^`]*` cannot pass a backtick. The
      leftmost match starts at the first delimiter (a later one has no more
      closers than the first) and ends at the next delimiter after it. */
  function PairSpan(s: string, d: string): (r: Option<(nat, nat)>)
    ensures r.Some? ==> MatchAt(s, r.value.0, d) && r.value.0 + |d| <= r.value.1 && MatchAt(s, r.value.1, d)
    ensures r.Some? ==> forall i: nat | i < r.value.0 :: !MatchAt(s, i, d)
    ensures r.Some? ==> forall i: nat | r.value.0 + |d| <= i < r.value.1 :: !MatchAt(s, i, d)
    ensures r.None? ==> forall p: nat, q: nat | MatchAt(s, p, d) && p + |d| <= q :: !MatchAt(s, q, d)
  {
    match FirstMatch(s, d, 0)
    case None => None
    case Some(p) =>
      match FirstMatch(s, d, p + |d|)
      case None => None
      case Some(q) => Some((p, q))
  }

  /** The text up to and including one code match, rewritten. */
  function Emit(rule: PairRule, s: string, p: nat, q: nat): string
    requires p + |Delimiter(rule)| <= q <= |s|
  {
    var d := Delimiter(rule);
    s[..p] + PairOpen(rule) + s[p + |d|..q] + PairClose(rule)
  }

  /** `D(X)D` replaced globally: each match as `PairSpan` finds it, then the
      scan goes on after it. An opener with no closer is left as it is,
      together with everything after it. Both tags are longer than the
      delimiters they replace, so the text never shrinks. */
  function Pairs(rule: PairRule, s: string): (r: string)
    decreases |s|
    ensures |r| >= |s|
  {
    match PairSpan(s, Delimiter(rule))
    case None => s
    case Some((p, q)) => Emit(rule, s, p, q) + Pairs(rule, s[q + |Delimiter(rule)|..])
  }

  /** `/\n/gim` → `<br />`. Only `'\n'` is replaced; other line terminators stay. */
  function BreakLines(s: string): (r: string)
    ensures '\n' !in r
    ensures '\n' !in s ==> r == s
  {
    if s == [] then []
    else (if s[0] == '\n' then BR else [s[0]]) + BreakLines(s[1..])
  }

  /** The first seven replacements: headers, bold, italic, list items and
      their wrappers, each applied globally, in the source's order. */
  function LineStages(s: string): string {
    var headers := MapLines(H1, MapLines(H2, MapLines(H3, s)));
    var inline := MapLines(Italic, MapLines(Bold, headers));
    MapLines(ListWrap, MapLines(ListItem, inline))
  }

  /** The whole chain, in the order of src/components/InfoPanel.tsx:15-35.
      It is defined on every input: unmatched delimiters stay as text. */
  function Render(markdown: string): (html: string)
    ensures '\n' !in html
  {
    var code := Pairs(InlineCode, Pairs(Fence, LineStages(markdown)));
    BreakLines(MapLines(Quote, code))
  }
}
