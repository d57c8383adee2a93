/**
 * The two string transforms of the reading view: `renderMarkdown`, the fixed chain of regular
 * expression replacements applied to a summary, and the full text's newline-to-`<br />` pass.
 *
 * Regular expressions are read with their JavaScript meaning. `.` matches any character but
 * the line terminators (`\n`, `\r`, U+2028, U+2029) and `^`/`$` under the `m` flag match at
 * line boundaries, so the heading, emphasis and list rules never look across a line: each is a
 * function of one line, applied to every line by `MapLines`. The `\n\n` rule is applied to the
 * whole text, and the final paragraph rule wraps every line of the result, empty ones included.
 */
module Markdown {
  import opened Wrappers
  import opened Text

  // ---------------------------------------------------------------- the markup

  /** The words of a class list, separated by single spaces. */
  function Join(words: seq<string>): string {
    if |words| <= 1 then (if words == [] then [] else words[0])
    else words[0] + " " + Join(words[1..])
  }

  /** `<name class="c1 c2 ...">`. */
  function OpenTag(name: string, classes: seq<string>): string {
    "<" + name + " class=\"" + Join(classes) + "\">"
  }

  /** `</name>`. */
  function CloseTag(name: string): string {
    "</" + name + ">"
  }

  const H3Classes := ["text-lg", "font-semibold", "text-gray-900", "mt-6", "mb-3"]
  const H2Classes := ["text-xl", "font-semibold", "text-gray-900", "mt-8", "mb-4"]
  const H1Classes := ["text-2xl", "font-bold", "text-gray-900", "mt-8", "mb-4"]
  const StrongClasses := ["font-semibold"]
  const EmClasses := ["italic"]
  const LiClasses := ["ml-4", "list-disc"]
  const PClasses := ["mb-4"]

  const H3Open := OpenTag("h3", H3Classes)
  const H3Close := CloseTag("h3")
  const H2Open := OpenTag("h2", H2Classes)
  const H2Close := CloseTag("h2")
  const H1Open := OpenTag("h1", H1Classes)
  const H1Close := CloseTag("h1")
  const StrongOpen := OpenTag("strong", StrongClasses)
  const StrongClose := CloseTag("strong")
  const EmOpen := OpenTag("em", EmClasses)
  const EmClose := CloseTag("em")
  const LiOpen := OpenTag("li", LiClasses)
  const LiClose := CloseTag("li")
  const POpen := OpenTag("p", PClasses)
  const PClose := CloseTag("p")
  /** The replacement of `\n\n`: close a paragraph and open the next. */
  const ParagraphBreak := PClose + POpen
  const LineBreak := "<br />"

  // ---------------------------------------------------------------- character classes

  predicate IsLineTerminator(c: char) {
    c == '\n' || c == '\r' || c == '\U{2028}' || c == '\U{2029}'
  }

  predicate NoTerminator(s: string) {
    forall i :: 0 <= i < |s| ==> !IsLineTerminator(s[i])
  }

  predicate NoStar(s: string) {
    forall i :: 0 <= i < |s| ==> s[i] != '*'
  }

  predicate NoNewline(s: string) {
    forall i :: 0 <= i < |s| ==> s[i] != '\n'
  }

  /** Neither a star nor a line terminator: text that no rule can split or pair. */
  predicate Plain(s: string) {
    NoStar(s) && NoTerminator(s)
  }

  /** A line none of the six line rules touches: no star, and none of the four line markers. */
  predicate Inert(l: string) {
    && NoStar(l)
    && !StartsWith(l, "### ") && !StartsWith(l, "## ") && !StartsWith(l, "# ") && !StartsWith(l, "- ")
  }

  // ---------------------------------------------------------------- the transforms

  /** `f` applied to every line of `s`, the terminators kept in place. */
  function MapLines(s: string, f: string -> string): string {
    MapLinesFrom(s, [], f)
  }

  /** `MapLines` with the part of the current line already read held in `line`. */
  function MapLinesFrom(s: string, line: string, f: string -> string): string
    decreases |s|
  {
    if s == [] then f(line)
    else if IsLineTerminator(s[0]) then f(line) + [s[0]] + MapLinesFrom(s[1..], [], f)
    else MapLinesFrom(s[1..], line + [s[0]], f)
  }

  /** `/^marker(.*$)/` on one line: the whole line after the marker, wrapped. */
  function PrefixRule(l: string, marker: string, open: string, close: string): string {
    if StartsWith(l, marker) then open + l[|marker|..] + close else l
  }

  /**
   * `/d(.*?)d/g` on one line: from left to right, a delimiter that has a closing delimiter
   * later on the line is replaced, with the shortest text up to the first such closer; a
   * delimiter without one is kept and the scan moves on by one character.
   */
  function PairRule(l: string, d: string, open: string, close: string): string
    requires |d| > 0
    decreases |l|
  {
    if l == [] then []
    else
      match SpanAt(l, d)
      case Some(k) => open + l[|d|..|d| + k] + close + PairRule(l[|d| + k + |d|..], d, open, close)
      case None => [l[0]] + PairRule(l[1..], d, open, close)
  }

  /** Where the span that opens at the front of `l`, if one does, closes: the length of its text. */
  function SpanAt(l: string, d: string): (r: Option<nat>)
    requires |d| > 0
    ensures r.Some? ==> |d| + r.value + |d| <= |l|
  {
    if StartsWith(l, d) then IndexOf(l[|d|..], d) else None
  }

  function H3(l: string): string { PrefixRule(l, "### ", H3Open, H3Close) }
  function H2(l: string): string { PrefixRule(l, "## ", H2Open, H2Close) }
  function H1(l: string): string { PrefixRule(l, "# ", H1Open, H1Close) }
  function Strong(l: string): string { PairRule(l, "**", StrongOpen, StrongClose) }
  function Em(l: string): string { PairRule(l, "*", EmOpen, EmClose) }
  function Li(l: string): string { PrefixRule(l, "- ", LiOpen, LiClose) }

  /** The first six replacements, in their order, as they act on one line. */
  function LineRules(l: string): string {
    Li(Em(Strong(H1(H2(H3(l))))))
  }

  /** `/\n\n/g`: every pair of newlines, left to right without overlap, becomes a paragraph break. */
  function ParagraphBreaks(s: string): string
    decreases |s|
  {
    if s == [] then []
    else if |s| >= 2 && s[0] == '\n' && s[1] == '\n' then ParagraphBreak + ParagraphBreaks(s[2..])
    else [s[0]] + ParagraphBreaks(s[1..])
  }

  /** `/^(.*)$/gm` on one line. */
  function WrapLine(l: string): string {
    POpen + l + PClose
  }

  /** `renderMarkdown(text)`: whatever the summary, the result opens a paragraph first. */
  function RenderMarkdown(text: string): (r: string)
    ensures StartsWith(r, POpen)
  {
    var broken := ParagraphBreaks(MapLines(text, LineRules));
    WrappedLinesOpenParagraph(broken, []);
    MapLines(broken, WrapLine)
  }

  /** The last pass wraps the first line it meets in a paragraph, so its output opens one. */
  lemma {:induction false} WrappedLinesOpenParagraph(s: string, line: string)
    ensures StartsWith(MapLinesFrom(s, line, WrapLine), POpen)
    decreases |s|
  {
    if s == [] || IsLineTerminator(s[0]) {
      var r := MapLinesFrom(s, line, WrapLine);
      assert r == POpen + (line + PClose + r[|WrapLine(line)|..]);
      assert r[..|POpen|] == POpen;
    } else {
      WrappedLinesOpenParagraph(s[1..], line + [s[0]]);
    }
  }

  /** `content.replace(/\n/g, '<br />')`: nothing shrinks, and text without newlines is copied. */
  function BreakLines(s: string): (r: string)
    ensures |r| >= |s|
    ensures NoNewline(s) ==> r == s
    decreases |s|
  {
    if s == [] then []
    else if s[0] == '\n' then LineBreak + BreakLines(s[1..])
    else [s[0]] + BreakLines(s[1..])
  }

  // ---------------------------------------------------------------- facts about the markup

  lemma PlainConcat(a: string, b: string)
    requires Plain(a) && Plain(b)
    ensures Plain(a + b)
  {
    forall i | 0 <= i < |a + b| ensures (a + b)[i] != '*' && !IsLineTerminator((a + b)[i]) {
      if i < |a| { assert (a + b)[i] == a[i]; } else { assert (a + b)[i] == b[i - |a|]; }
    }
  }

  lemma {:induction false} JoinPlain(words: seq<string>)
    requires forall i :: 0 <= i < |words| ==> Plain(words[i])
    ensures Plain(Join(words))
    decreases |words|
  {
    if |words| > 1 {
      JoinPlain(words[1..]);
      PlainConcat(words[0], " ");
      PlainConcat(words[0] + " ", Join(words[1..]));
    }
  }

  lemma TagsPlain(name: string, classes: seq<string>)
    requires Plain(name) && forall i :: 0 <= i < |classes| ==> Plain(classes[i])
    ensures Plain(OpenTag(name, classes)) && OpenTag(name, classes)[0] == '<'
    ensures Plain(CloseTag(name))
  {
    JoinPlain(classes);
    PlainConcat("<", name);
    PlainConcat("<" + name, " class=\"");
    PlainConcat("<" + name + " class=\"", Join(classes));
    PlainConcat("<" + name + " class=\"" + Join(classes), "\">");
    PlainConcat("</", name);
    PlainConcat("</" + name, ">");
  }

  lemma H3MarkupPlain() ensures Plain(H3Open) && Plain(H3Close) && H3Open[0] == '<' {
    TagsPlain("h3", H3Classes);
  }

  lemma H2MarkupPlain() ensures Plain(H2Open) && Plain(H2Close) && H2Open[0] == '<' {
    TagsPlain("h2", H2Classes);
  }

  lemma H1MarkupPlain() ensures Plain(H1Open) && Plain(H1Close) && H1Open[0] == '<' {
    TagsPlain("h1", H1Classes);
  }

  lemma StrongMarkupPlain() ensures Plain(StrongOpen) && Plain(StrongClose) && StrongOpen[0] == '<' {
    TagsPlain("strong", StrongClasses);
  }

  lemma EmMarkupPlain() ensures Plain(EmOpen) && Plain(EmClose) && EmOpen[0] == '<' {
    TagsPlain("em", EmClasses);
  }

  lemma LiMarkupPlain() ensures Plain(LiOpen) && Plain(LiClose) && LiOpen[0] == '<' {
    TagsPlain("li", LiClasses);
  }

  lemma ParagraphMarkupPlain() ensures Plain(POpen) && Plain(PClose) && Plain(ParagraphBreak) {
    TagsPlain("p", PClasses);
    PlainConcat(PClose, POpen);
  }

  /** The markup the rules insert holds no star and no line terminator, and each tag opens with `<`. */
  lemma LineBreakPlain() ensures NoNewline(LineBreak) {
  }

  lemma MarkupPlain()
    ensures Plain(H3Open) && Plain(H3Close) && H3Open[0] == '<'
    ensures Plain(H2Open) && Plain(H2Close) && H2Open[0] == '<'
    ensures Plain(H1Open) && Plain(H1Close) && H1Open[0] == '<'
    ensures Plain(StrongOpen) && Plain(StrongClose) && StrongOpen[0] == '<'
    ensures Plain(EmOpen) && Plain(EmClose) && EmOpen[0] == '<'
    ensures Plain(LiOpen) && Plain(LiClose) && LiOpen[0] == '<'
    ensures Plain(POpen) && Plain(PClose) && Plain(ParagraphBreak)
    ensures NoNewline(LineBreak)
  {
    LineBreakPlain();
    H3MarkupPlain();
    H2MarkupPlain();
    H1MarkupPlain();
    StrongMarkupPlain();
    EmMarkupPlain();
    LiMarkupPlain();
    ParagraphMarkupPlain();
  }

  /** A line whose first character differs from the marker's does not start with it. */
  lemma NotStartsWith(l: string, marker: string)
    requires |l| > 0 && |marker| > 0 && l[0] != marker[0]
    ensures !StartsWith(l, marker)
  {
    if |marker| <= |l| {
      assert l[..|marker|][0] == l[0];
    }
  }

  // ---------------------------------------------------------------- facts about lines

  lemma {:induction false} MapLinesFromOneLine(s: string, line: string, f: string -> string)
    requires NoTerminator(s)
    ensures MapLinesFrom(s, line, f) == f(line + s)
    decreases |s|
  {
    if s == [] {
      assert line + s == line;
    } else {
      MapLinesFromOneLine(s[1..], line + [s[0]], f);
      assert line + [s[0]] + s[1..] == line + s;
    }
  }

  /** A text without line terminators is one line. */
  lemma MapLinesOneLine(s: string, f: string -> string)
    requires NoTerminator(s)
    ensures MapLines(s, f) == f(s)
  {
    MapLinesFromOneLine(s, [], f);
    assert [] + s == s;
  }

  lemma {:induction false} MapLinesFromSplit(a: string, t: char, b: string, line: string, f: string -> string)
    requires NoTerminator(a) && IsLineTerminator(t)
    ensures MapLinesFrom(a + [t] + b, line, f) == f(line + a) + [t] + MapLinesFrom(b, [], f)
    decreases |a|
  {
    var s := a + [t] + b;
    if a == [] {
      assert s[0] == t && s[1..] == b;
      assert line + a == line;
    } else {
      assert s[0] == a[0] && s[1..] == a[1..] + [t] + b;
      MapLinesFromSplit(a[1..], t, b, line + [a[0]], f);
      assert line + [a[0]] + a[1..] == line + a;
    }
  }

  /** The first line is mapped on its own, the rest of the text after its terminator independently. */
  lemma MapLinesSplit(a: string, t: char, b: string, f: string -> string)
    requires NoTerminator(a) && IsLineTerminator(t)
    ensures MapLines(a + [t] + b, f) == f(a) + [t] + MapLines(b, f)
  {
    MapLinesFromSplit(a, t, b, [], f);
    assert [] + a == a;
  }

  // ---------------------------------------------------------------- facts about the rules

  /** Without a star on the line, the emphasis rules change nothing. */
  lemma {:induction false} PairRuleWithoutStar(l: string, d: string, open: string, close: string)
    requires |d| > 0 && d[0] == '*' && NoStar(l)
    ensures PairRule(l, d, open, close) == l
    decreases |l|
  {
    if l != [] {
      NotStartsWith(l, d);
      PairRuleWithoutStar(l[1..], d, open, close);
    }
  }

  /** A delimited star-free span is replaced as a whole: `d t d` becomes `open t close`. */
  lemma PairRuleSpan(t: string, d: string, rest: string, open: string, close: string)
    requires |d| > 0 && d[0] == '*' && NoStar(t)
    ensures PairRule(d + t + d + rest, d, open, close) == open + t + close + PairRule(rest, d, open, close)
  {
    var l := d + t + d + rest;
    SpanSlices(d, t, rest);
    FirstDelimiterAfter(t, d, rest);
    PairRuleAtPieces(l, d, t, rest, open, close);
  }

  /** How `d + t + d + rest` cuts at its delimiters. */
  lemma SpanSlices(d: string, t: string, rest: string)
    ensures var l := d + t + d + rest;
      StartsWith(l, d) && l[|d|..] == t + d + rest &&
      l[|d|..|d| + |t|] == t && l[|d| + |t| + |d|..] == rest
  {
    var l := d + t + d + rest;
    assert l[..|d|] == d;
  }

  /** The pair rule where a span opens: the text up to the next delimiter is wrapped. */
  lemma PairRuleAt(l: string, d: string, k: nat, open: string, close: string)
    requires |d| > 0 && StartsWith(l, d) && IndexOf(l[|d|..], d) == Some(k)
    ensures |d| + k + |d| <= |l|
    ensures PairRule(l, d, open, close) == open + l[|d|..|d| + k] + close + PairRule(l[|d| + k + |d|..], d, open, close)
  {
  }

  /** `PairRuleAt` with the span's text and what follows it named. */
  lemma PairRuleAtPieces(l: string, d: string, mid: string, rest: string, open: string, close: string)
    requires |d| > 0 && StartsWith(l, d) && IndexOf(l[|d|..], d) == Some(|mid|)
    requires |d| + |mid| + |d| <= |l| && l[|d|..|d| + |mid|] == mid && l[|d| + |mid| + |d|..] == rest
    ensures PairRule(l, d, open, close) == open + mid + close + PairRule(rest, d, open, close)
  {
    PairRuleAt(l, d, |mid|, open, close);
  }

  /** The pair rule where no span opens: the first character is copied. */
  lemma PairRuleSkip(l: string, d: string, open: string, close: string)
    requires |d| > 0 && l != [] && !(StartsWith(l, d) && IndexOf(l[|d|..], d).Some?)
    ensures PairRule(l, d, open, close) == [l[0]] + PairRule(l[1..], d, open, close)
  {
  }

  /** After star-free text, the next star-led delimiter is found right where it starts. */
  lemma FirstDelimiterAfter(t: string, d: string, rest: string)
    requires |d| > 0 && d[0] == '*' && NoStar(t)
    ensures IndexOf(t + d + rest, d) == Some(|t|)
  {
    var u := t + d + rest;
    IndexOfFirst(u, d);
    assert OccursAt(u, d, |t|) by { assert u[|t|..|t| + |d|] == d; }
    forall k | 0 <= k < |t| ensures !OccursAt(u, d, k) {
      assert u[k] == t[k];
      if k + |d| <= |u| {
        assert u[k..k + |d|][0] == u[k];
      }
    }
  }

  lemma {:induction false} PairRuleKeepsLines(l: string, d: string, open: string, close: string)
    requires |d| > 0 && NoTerminator(l) && NoTerminator(open) && NoTerminator(close)
    ensures NoTerminator(PairRule(l, d, open, close))
    decreases |l|
  {
    if l != [] {
      if StartsWith(l, d) && IndexOf(l[|d|..], d).Some? {
        var k := IndexOf(l[|d|..], d).value;
        PairRuleAt(l, d, k, open, close);
        var mid, rest := l[|d|..|d| + k], l[|d| + k + |d|..];
        PairRuleKeepsLines(rest, d, open, close);
        NoTerminatorSlice(l, |d|, |d| + k);
        NoTerminatorConcat(open, mid);
        NoTerminatorConcat(open + mid, close);
        NoTerminatorConcat(open + mid + close, PairRule(rest, d, open, close));
      } else {
        PairRuleSkip(l, d, open, close);
        PairRuleKeepsLines(l[1..], d, open, close);
        NoTerminatorConcat([l[0]], PairRule(l[1..], d, open, close));
      }
    }
  }

  lemma NoTerminatorConcat(a: string, b: string)
    requires NoTerminator(a) && NoTerminator(b)
    ensures NoTerminator(a + b)
  {
    forall i | 0 <= i < |a + b| ensures !IsLineTerminator((a + b)[i]) {
      if i < |a| { assert (a + b)[i] == a[i]; } else { assert (a + b)[i] == b[i - |a|]; }
    }
  }

  lemma NoTerminatorSlice(l: string, i: nat, j: nat)
    requires NoTerminator(l) && i <= j <= |l|
    ensures NoTerminator(l[i..j])
  {
    forall k | 0 <= k < j - i ensures !IsLineTerminator(l[i..j][k]) {
      assert l[i..j][k] == l[i + k];
    }
  }

  lemma PrefixRuleKeepsLines(l: string, marker: string, open: string, close: string)
    requires NoTerminator(l) && NoTerminator(open) && NoTerminator(close)
    ensures NoTerminator(PrefixRule(l, marker, open, close))
  {
    if StartsWith(l, marker) {
      var r := open + l[|marker|..] + close;
      forall i | 0 <= i < |r| ensures !IsLineTerminator(r[i]) {
        if i < |open| { assert r[i] == open[i]; }
        else if i < |open| + |l| - |marker| { assert r[i] == l[i - |open| + |marker|]; }
        else { assert r[i] == close[i - |open| - |l| + |marker|]; }
      }
    }
  }

  /** The line rules never introduce a line terminator. */
  lemma LineRulesKeepLines(l: string)
    requires NoTerminator(l)
    ensures NoTerminator(LineRules(l))
  {
    MarkupPlain();
    PrefixRuleKeepsLines(l, "### ", H3Open, H3Close);
    PrefixRuleKeepsLines(H3(l), "## ", H2Open, H2Close);
    PrefixRuleKeepsLines(H2(H3(l)), "# ", H1Open, H1Close);
    var h := H1(H2(H3(l)));
    PairRuleKeepsLines(h, "**", StrongOpen, StrongClose);
    PairRuleKeepsLines(Strong(h), "*", EmOpen, EmClose);
    PrefixRuleKeepsLines(Em(Strong(h)), "- ", LiOpen, LiClose);
  }

  /** No rule touches an inert line. */
  lemma InertUnchanged(l: string)
    requires Inert(l)
    ensures H3(l) == l && H2(l) == l && H1(l) == l && Li(l) == l
    ensures Strong(l) == l && Em(l) == l && LineRules(l) == l
  {
    PairRuleWithoutStar(l, "**", StrongOpen, StrongClose);
    PairRuleWithoutStar(l, "*", EmOpen, EmClose);
  }

  /** What a heading, bold or list rule produces around star-free text is inert for the rules after it. */
  lemma TagSpanInert(open: string, t: string, close: string)
    requires NoStar(open) && NoStar(t) && NoStar(close) && |open| > 0 && open[0] == '<'
    ensures Inert(open + t + close)
  {
    var l := open + t + close;
    forall i | 0 <= i < |l| ensures l[i] != '*' {
      if i < |open| { assert l[i] == open[i]; }
      else if i < |open| + |t| { assert l[i] == t[i - |open|]; }
      else { assert l[i] == close[i - |open| - |t|]; }
    }
    assert l[0] == '<';
    NotStartsWith(l, "### ");
    NotStartsWith(l, "## ");
    NotStartsWith(l, "# ");
    NotStartsWith(l, "- ");
  }

  /** `### ` makes an h3 and neither an h2 nor an h1: the headings are tried from the deepest. */
  lemma H3Line(t: string)
    ensures LineRules("### " + t) == H3Open + Em(Strong(t)) + H3Close
  {
    var l := "### " + t;
    assert StartsWith(l, "### ") && l[4..] == t;
    H3MarkupPlain();
    TaggedLineRules(H3Open, t, H3Close);
  }

  lemma H2Line(t: string)
    ensures LineRules("## " + t) == H2Open + Em(Strong(t)) + H2Close
  {
    var l := "## " + t;
    assert l[2] == ' ';
    assert !StartsWith(l, "### ") by {
      if |l| >= 4 { assert l[..4][2] == l[2]; }
    }
    assert StartsWith(l, "## ") && l[3..] == t;
    H2MarkupPlain();
    TaggedLineRules(H2Open, t, H2Close);
  }

  lemma H1Line(t: string)
    ensures LineRules("# " + t) == H1Open + Em(Strong(t)) + H1Close
  {
    var l := "# " + t;
    assert l[1] == ' ';
    assert !StartsWith(l, "### ") && !StartsWith(l, "## ") by {
      if |l| >= 3 { assert l[..3][1] == l[1]; }
      if |l| >= 4 { assert l[..4][1] == l[1]; }
    }
    assert StartsWith(l, "# ") && l[2..] == t;
    H1MarkupPlain();
    TaggedLineRules(H1Open, t, H1Close);
  }

  /** `- ` makes a list item, with the emphasis rules applied to the item's text. */
  lemma ListLine(t: string)
    ensures LineRules("- " + t) == LiOpen + Em(Strong(t)) + LiClose
  {
    var l := "- " + t;
    assert l[0] == '-';
    NotStartsWith(l, "### ");
    NotStartsWith(l, "## ");
    NotStartsWith(l, "# ");
    var marker := "- ";
    assert NoStar(marker) by { assert marker[0] == '-' && marker[1] == ' '; }
    PairRuleAfterStarFree(marker, t, "**", StrongOpen, StrongClose);
    PairRuleAfterStarFree(marker, Strong(t), "*", EmOpen, EmClose);
    var e := marker + Em(Strong(t));
    assert StartsWith(e, "- ") && e[2..] == Em(Strong(t));
  }

  /** `**a**b` with star-free `a` and `b`: one strong span, and no italics left to find. */
  lemma BoldThenPlain(a: string, b: string)
    requires Plain(a) && Plain(b)
    ensures Em(Strong("**" + a + "**" + b)) == StrongOpen + a + StrongClose + b
  {
    PairRuleSpan(a, "**", b, StrongOpen, StrongClose);
    PairRuleWithoutStar(b, "**", StrongOpen, StrongClose);
    StrongMarkupPlain();
    PlainConcat(StrongOpen, a);
    PlainConcat(StrongOpen + a, StrongClose);
    PlainConcat(StrongOpen + a + StrongClose, b);
    PairRuleWithoutStar(StrongOpen + a + StrongClose + b, "*", EmOpen, EmClose);
  }

  /** After a heading rule fired: the later headings skip the tag, and the emphasis rules work inside it. */
  lemma TaggedLineRules(open: string, t: string, close: string)
    requires Plain(open) && Plain(close) && |open| > 0 && open[0] == '<'
    ensures var x := open + t + close;
      H2(x) == x && H1(x) == x && Li(Em(Strong(x))) == open + Em(Strong(t)) + close
  {
    var x := open + t + close;
    assert x[0] == '<';
    NotStartsWith(x, "## ");
    NotStartsWith(x, "# ");
    DelimitersAreStars();
    PairRuleInsideTag(open, t, close, "**", StrongOpen, StrongClose);
    PairRuleInsideTag(open, Strong(t), close, "*", EmOpen, EmClose);
    var y := open + Em(Strong(t)) + close;
    assert y[0] == '<';
    NotStartsWith(y, "- ");
  }

  predicate AllStars(d: string) {
    forall i :: 0 <= i < |d| ==> d[i] == '*'
  }

  lemma DelimitersAreStars()
    ensures AllStars("**") && AllStars("*")
  {
  }

  /** The bold and italic rules pass star-free tags around a text and work on the text inside. */
  lemma PairRuleInsideTag(open: string, t: string, close: string, d: string, o: string, c: string)
    requires |d| > 0 && AllStars(d) && NoStar(open) && NoStar(close)
    ensures PairRule(open + t + close, d, o, c) == open + PairRule(t, d, o, c) + close
  {
    assert open + t + close == open + (t + close);
    PairRuleAfterStarFree(open, t + close, d, o, c);
    PairRuleBeforeStarFree(t, close, d, o, c);
  }

  /** Star-free text in front is copied, and the rule goes on after it. */
  lemma {:induction false} PairRuleAfterStarFree(p: string, rest: string, d: string, open: string, close: string)
    requires |d| > 0 && d[0] == '*' && NoStar(p)
    ensures PairRule(p + rest, d, open, close) == p + PairRule(rest, d, open, close)
    decreases |p|
  {
    if p == [] {
      assert p + rest == rest;
    } else {
      var l := p + rest;
      assert l[0] == p[0] && l[1..] == p[1..] + rest;
      NotStartsWith(l, d);
      PairRuleSkip(l, d, open, close);
      PairRuleAfterStarFree(p[1..], rest, d, open, close);
      assert [p[0]] + p[1..] == p;
    }
  }

  /** Star-free text behind is copied: no span can open or close in it. */
  lemma {:induction false} PairRuleBeforeStarFree(t: string, c: string, d: string, open: string, close: string)
    requires |d| > 0 && AllStars(d) && NoStar(c)
    ensures PairRule(t + c, d, open, close) == PairRule(t, d, open, close) + c
    decreases |t|
  {
    if t == [] {
      assert t + c == c;
      PairRuleWithoutStar(c, d, open, close);
    } else if StartsWith(t, d) && IndexOf(t[|d|..], d).Some? {
      var k := IndexOf(t[|d|..], d).value;
      PairRuleAt(t, d, k, open, close);
      PairRuleBeforeStarFree(t[|d| + k + |d|..], c, d, open, close);
      SpanBeforeStarFree(t, c, d, open, close, k);
    } else {
      PairRuleBeforeStarFree(t[1..], c, d, open, close);
      SkipBeforeStarFree(t, c, d, open, close);
    }
  }

  /** The step of `PairRuleBeforeStarFree` where a span opens at the front of `t`. */
  lemma SpanBeforeStarFree(t: string, c: string, d: string, open: string, close: string, k: nat)
    requires |d| > 0 && AllStars(d) && NoStar(c)
    requires StartsWith(t, d) && IndexOf(t[|d|..], d) == Some(k) && |d| + k + |d| <= |t|
    requires PairRule(t[|d| + k + |d|..] + c, d, open, close) == PairRule(t[|d| + k + |d|..], d, open, close) + c
    ensures PairRule(t + c, d, open, close) == PairRule(t, d, open, close) + c
  {
    var mid := t[|d|..|d| + k];
    var after := t[|d| + k + |d|..];
    PairRuleAtPieces(t, d, mid, after, open, close);
    SpanKeptBeforeStarFree(t, c, d, open, close, k);
    AppendBehind(PairRule(t + c, d, open, close), PairRule(t, d, open, close), open + mid + close,
      PairRule(after, d, open, close), PairRule(after + c, d, open, close), c);
  }

  /** A span that opens at the front of `t` opens and closes at the same places in `t + c`. */
  lemma SpanKeptBeforeStarFree(t: string, c: string, d: string, open: string, close: string, k: nat)
    requires |d| > 0 && AllStars(d) && NoStar(c)
    requires StartsWith(t, d) && IndexOf(t[|d|..], d) == Some(k) && |d| + k + |d| <= |t|
    ensures PairRule(t + c, d, open, close)
      == open + t[|d|..|d| + k] + close + PairRule(t[|d| + k + |d|..] + c, d, open, close)
  {
    var l := t + c;
    var mid := t[|d|..|d| + k];
    var after := t[|d| + k + |d|..];
    SpanOpensStarFreeSuffix(t, c, d);
    SlicesOfAppend(t, c, |d|, |d| + k);
    SlicesOfAppend(t, c, |d| + k + |d|, |d| + k + |d|);
    PairRuleAtPieces(l, d, mid, after + c, open, close);
  }

  lemma AppendBehind(whole: string, part: string, x: string, p: string, q: string, c: string)
    requires whole == x + q && part == x + p && q == p + c
    ensures whole == part + c
  {
  }

  lemma SlicesOfAppend(t: string, c: string, i: nat, j: nat)
    requires i <= j <= |t|
    ensures (t + c)[i..j] == t[i..j] && (t + c)[j..] == t[j..] + c
  {
  }

  /** The step of `PairRuleBeforeStarFree` where the first character of `t` is copied. */
  lemma SkipBeforeStarFree(t: string, c: string, d: string, open: string, close: string)
    requires |d| > 0 && AllStars(d) && NoStar(c) && t != []
    requires !(StartsWith(t, d) && IndexOf(t[|d|..], d).Some?)
    requires PairRule(t[1..] + c, d, open, close) == PairRule(t[1..], d, open, close) + c
    ensures PairRule(t + c, d, open, close) == PairRule(t, d, open, close) + c
  {
    var l := t + c;
    SpanOpensStarFreeSuffix(t, c, d);
    PairRuleSkip(t, d, open, close);
    PairRuleSkip(l, d, open, close);
    SlicesOfAppend(t, c, 1, 1);
    AppendTail([t[0]], PairRule(t[1..], d, open, close), c);
  }

  lemma AppendTail<T>(a: seq<T>, b: seq<T>, c: seq<T>)
    ensures a + (b + c) == (a + b) + c
  {
  }

  /** Appending star-free text never makes a delimiter of stars start earlier or later. */
  lemma StartsWithStarFreeSuffix(t: string, c: string, d: string)
    requires |d| > 0 && AllStars(d) && NoStar(c)
    ensures StartsWith(t + c, d) <==> StartsWith(t, d)
  {
    var l := t + c;
    if StartsWith(t, d) {
      assert l[..|d|] == t[..|d|];
    }
    if StartsWith(l, d) {
      assert forall i :: 0 <= i < |d| ==> l[i] == l[..|d|][i] == '*';
      assert |c| > 0 ==> l[|t|] == c[0];
      assert |t| >= |d|;
      assert l[..|d|] == t[..|d|];
    }
  }

  /** Appending star-free text leaves it as it was whether a span opens at the front. */
  lemma SpanOpensStarFreeSuffix(t: string, c: string, d: string)
    requires |d| > 0 && AllStars(d) && NoStar(c)
    ensures StartsWith(t + c, d) <==> StartsWith(t, d)
    ensures StartsWith(t, d) ==> (t + c)[|d|..] == t[|d|..] + c && IndexOf((t + c)[|d|..], d) == IndexOf(t[|d|..], d)
  {
    StartsWithStarFreeSuffix(t, c, d);
    if StartsWith(t, d) {
      SlicesOfAppend(t, c, |d|, |d|);
      IndexOfStarFreeSuffix(t[|d|..], c, d);
    }
  }

  /** Appending star-free text leaves the first delimiter of stars where it was, or absent. */
  lemma {:induction false} IndexOfStarFreeSuffix(u: string, c: string, d: string)
    requires |d| > 0 && AllStars(d) && NoStar(c)
    ensures IndexOf(u + c, d) == IndexOf(u, d)
    decreases |u|
  {
    var l := u + c;
    if |l| < |d| {
    } else if l[..|d|] == d {
      StartsWithStarFreeSuffix(u, c, d);
    } else if u == [] {
      assert l == c;
      StarFreeHasNoDelimiter(c, d);
    } else {
      assert l[1..] == u[1..] + c;
      IndexOfStarFreeSuffix(u[1..], c, d);
      if |u| >= |d| {
        assert u[..|d|] == l[..|d|];
      }
    }
  }

  lemma StarFreeHasNoDelimiter(c: string, d: string)
    requires |d| > 0 && d[0] == '*' && NoStar(c)
    ensures IndexOf(c, d) == None
  {
    IndexOfFirst(c, d);
  }

  /** `**t**` is bold and not two empty italics around `t`, because the bold rule runs first. */
  lemma StrongBeforeEm(t: string)
    requires NoStar(t)
    ensures LineRules("**" + t + "**") == StrongOpen + t + StrongClose
  {
    var l := "**" + t + "**";
    assert l[0] == '*';
    NotStartsWith(l, "### ");
    NotStartsWith(l, "## ");
    NotStartsWith(l, "# ");
    assert l == "**" + t + "**" + [];
    PairRuleSpan(t, "**", [], StrongOpen, StrongClose);
    var x := StrongOpen + t + StrongClose;
    assert Strong(l) == x + [];
    assert x + [] == x;
    StrongMarkupPlain();
    TagSpanInert(StrongOpen, t, StrongClose);
    InertUnchanged(x);
  }

  /** Run first, the italic rule would pair the stars of `**t**` among themselves. */
  lemma EmFirstWouldSplitBold(t: string)
    requires NoStar(t)
    ensures Em("**" + t + "**") == EmOpen + EmClose + t + EmOpen + EmClose
  {
    var e := EmOpen + EmClose;
    EmptyItalicFirst(t + "**");
    PairRuleAfterStarFree(t, "**", "*", EmOpen, EmClose);
    EmptyItalicFirst([]);
    assert "**" + [] == "**" && e + [] == e;
    assert "**" + t + "**" == "**" + (t + "**");
    assert e + (t + e) == e + t + e;
  }

  /** Two stars in a row are an empty italic span to the italic rule. */
  lemma EmptyItalicFirst(rest: string)
    ensures Em("**" + rest) == EmOpen + EmClose + Em(rest)
  {
    assert "**" + rest == "*" + [] + "*" + rest;
    PairRuleSpan([], "*", rest, EmOpen, EmClose);
    assert EmOpen + [] + EmClose == EmOpen + EmClose;
  }

  // ---------------------------------------------------------------- facts about the whole text

  lemma {:induction false} ParagraphBreaksWithoutNewline(s: string)
    requires NoNewline(s)
    ensures ParagraphBreaks(s) == s
    decreases |s|
  {
    if s != [] {
      ParagraphBreaksWithoutNewline(s[1..]);
    }
  }

  lemma {:induction false} ParagraphBreaksAt(a: string, b: string)
    requires NoNewline(a)
    ensures ParagraphBreaks(a + "\n\n" + b) == a + ParagraphBreak + ParagraphBreaks(b)
    decreases |a|
  {
    var s := a + "\n\n" + b;
    if a == [] {
      assert s[0] == '\n' && s[1] == '\n' && s[2..] == b;
    } else {
      assert s[0] == a[0] && s[1..] == a[1..] + "\n\n" + b;
      ParagraphBreaksAt(a[1..], b);
    }
  }

  /** A one-line summary is its line rules' output wrapped in one paragraph. */
  lemma RenderOneLine(l: string)
    requires NoTerminator(l)
    ensures RenderMarkdown(l) == POpen + LineRules(l) + PClose
  {
    MapLinesOneLine(l, LineRules);
    LineRulesKeepLines(l);
    ParagraphBreaksWithoutNewline(LineRules(l));
    MapLinesOneLine(LineRules(l), WrapLine);
  }

  /** Plain text is copied verbatim, markup characters such as `<` and `&` included: nothing is escaped. */
  lemma PlainLineVerbatim(t: string)
    requires NoTerminator(t) && Inert(t)
    ensures RenderMarkdown(t) == POpen + t + PClose
  {
    RenderOneLine(t);
    InertUnchanged(t);
  }

  /** A heading line renders as that heading, its text through the emphasis rules, inside a paragraph. */
  lemma HeadingRendered(t: string)
    requires NoTerminator(t)
    ensures RenderMarkdown("### " + t) == POpen + H3Open + Em(Strong(t)) + H3Close + PClose
  {
    var l := "### " + t;
    NoTerminatorConcat("### ", t);
    H3Line(t);
    RenderOneLine(l);
    Regroup(POpen, H3Open, Em(Strong(t)), H3Close, PClose);
  }

  /** The line rules leave two inert lines around a blank line as they are. */
  lemma BlankLineRules(a: string, b: string)
    requires NoTerminator(a) && Inert(a) && NoTerminator(b) && Inert(b)
    ensures MapLines(a + "\n\n" + b, LineRules) == a + "\n\n" + b
  {
    assert a + "\n\n" + b == a + ['\n'] + ([] + ['\n'] + b);
    MapLinesSplit(a, '\n', [] + ['\n'] + b, LineRules);
    MapLinesSplit([], '\n', b, LineRules);
    MapLinesOneLine(b, LineRules);
    InertUnchanged(a);
    InertUnchanged(b);
    assert LineRules([]) == [];
  }

  /** Two plain lines separated by a blank line become two paragraphs. */
  lemma BlankLineSeparatesParagraphs(a: string, b: string)
    requires Plain(a) && Inert(a) && Plain(b) && Inert(b)
    ensures RenderMarkdown(a + "\n\n" + b) == POpen + a + ParagraphBreak + b + PClose
  {
    var s := a + "\n\n" + b;
    var m := a + ParagraphBreak + b;
    BlankLineRules(a, b);
    PlainHasNoNewline(a);
    PlainHasNoNewline(b);
    ParagraphBreaksAt(a, b);
    ParagraphBreaksWithoutNewline(b);
    assert ParagraphBreaks(MapLines(s, LineRules)) == m;
    ParagraphMarkupPlain();
    PlainConcat(a, ParagraphBreak);
    PlainConcat(a + ParagraphBreak, b);
    MapLinesOneLine(m, WrapLine);
    Regroup(POpen, a, ParagraphBreak, b, PClose);
  }

  lemma PlainHasNoNewline(s: string)
    requires Plain(s)
    ensures NoNewline(s)
  {
    forall i | 0 <= i < |s| ensures s[i] != '\n' {
      assert !IsLineTerminator(s[i]);
    }
  }

  lemma Regroup(p: string, a: string, m: string, b: string, q: string)
    ensures p + (a + m + b) + q == p + a + m + b + q
  {
  }

  // ---------------------------------------------------------------- the full text

  /** The newline pass works piecewise: the text can be cut anywhere. */
  lemma {:induction false} BreakLinesAppend(a: string, b: string)
    ensures BreakLines(a + b) == BreakLines(a) + BreakLines(b)
    decreases |a|
  {
    if a == [] {
      assert a + b == b;
    } else {
      var head := if a[0] == '\n' then LineBreak else [a[0]];
      assert (a + b)[0] == a[0] && (a + b)[1..] == a[1..] + b;
      assert BreakLines(a + b) == head + BreakLines(a[1..] + b);
      assert BreakLines(a) == head + BreakLines(a[1..]);
      BreakLinesAppend(a[1..], b);
      AppendTail(head, BreakLines(a[1..]), BreakLines(b));
    }
  }

  /** No newline survives. */
  lemma {:induction false} BreakLinesRemovesNewlines(s: string)
    ensures NoNewline(BreakLines(s))
    decreases |s|
  {
    if s != [] {
      BreakLinesRemovesNewlines(s[1..]);
      var r := BreakLines(s);
      var tail := BreakLines(s[1..]);
      var head := if s[0] == '\n' then LineBreak else [s[0]];
      assert r == head + tail;
      LineBreakPlain();
      forall i | 0 <= i < |r| ensures r[i] != '\n' {
        if i < |head| { assert r[i] == head[i]; } else { assert r[i] == tail[i - |head|]; }
      }
    }
  }

  /** Each newline becomes exactly one `<br />`. */
  lemma NewlineBecomesBreak(a: string, b: string)
    requires NoNewline(a) && NoNewline(b)
    ensures BreakLines(a + "\n" + b) == a + LineBreak + b
  {
    BreakLinesAppend(a + "\n", b);
    BreakLinesAppend(a, "\n");
    BreakLinesRemovesNewlines(a);
    BreakLinesRemovesNewlines(b);
  }
}
