/** `wrap`: greedy, ANSI-aware word wrapping with a first-line indent and a hanging indent. */
module Wrap {
  import opened PyText

  const ESC := '\U{1B}'

  // ----- visible length -----

  predicate Param(c: char) {
    '0' <= c <= '9' || c == ';'
  }

  /** The end of a run of escape parameters starting at `i`. */
  function ParamEnd(s: string, i: nat): (r: nat)
    requires i <= |s|
    ensures i <= r <= |s|
    decreases |s| - i
  {
    if i < |s| && Param(s[i]) then ParamEnd(s, i + 1) else i
  }

  /** The length of the escape sequence `\033\[[0-9;]*m` that `s` starts with, or 0. */
  function EscapeLen(s: string): (n: nat)
    ensures n <= |s|
  {
    if |s| >= 3 && s[0] == ESC && s[1] == '[' then
      var e := ParamEnd(s, 2);
      if e < |s| && s[e] == 'm' then e + 1 else 0
    else 0
  }

  /** `_visible_len`: the length once every escape sequence is removed. */
  function VisibleLen(s: string): nat
    decreases |s|
  {
    if s == "" then 0
    else if EscapeLen(s) > 0 then VisibleLen(s[EscapeLen(s)..])
    else 1 + VisibleLen(s[1..])
  }

  /** `s` is the beginning of an escape sequence that is not finished. */
  predicate Unfinished(s: string) {
    s != "" && s[0] == ESC && (|s| == 1 || (s[1] == '[' && ParamEnd(s, 2) == |s|))
  }

  /** No unfinished escape sequence at the end of `s`. */
  ghost predicate Closed(s: string) {
    forall k :: 0 <= k < |s| ==> !Unfinished(s[k..])
  }

  /** `d` cannot be the continuation of an escape sequence. */
  predicate Breaks(d: string) {
    d != "" && d[0] != '[' && d[0] != 'm' && !Param(d[0])
  }

  lemma {:induction false} ParamEndAppend(s: string, d: string, i: nat)
    requires i <= |s|
    ensures ParamEnd(s, i) < |s| ==> ParamEnd(s + d, i) == ParamEnd(s, i)
    ensures Breaks(d) ==> ParamEnd(s + d, i) == ParamEnd(s, i)
    decreases |s| - i
  {
    if i < |s| && Param(s[i]) { ParamEndAppend(s, d, i + 1); }
  }

  lemma {:induction false} VisibleAppend(s: string, d: string)
    requires Closed(s) || Breaks(d)
    ensures VisibleLen(s + d) == VisibleLen(s) + VisibleLen(d)
    decreases |s|
  {
    if s == "" {
      assert s + d == d;
    } else {
      if |s| >= 2 { ParamEndAppend(s, d, 2); }
      assert s[0..] == s;
      var n := EscapeLen(s);
      assert EscapeLen(s + d) == n;
      var m := if n > 0 then n else 1;
      assert (s + d)[m..] == s[m..] + d;
      forall k | Closed(s) && 0 <= k < |s[m..]| ensures !Unfinished(s[m..][k..]) {
        assert s[m..][k..] == s[m + k..];
      }
      VisibleAppend(s[m..], d);
    }
  }

  lemma VisibleSpace(a: string, b: string)
    ensures VisibleLen(a + " " + b) == VisibleLen(a) + 1 + VisibleLen(b)
  {
    assert a + " " + b == a + (" " + b);
    VisibleAppend(a, " " + b);
    assert (" " + b)[1..] == b;
  }

  // ----- layouts -----

  /** The words of each line. */
  type Layout = seq<seq<string>>

  predicate Fits(prefix: string, ws: seq<string>, width: int) {
    VisibleLen(prefix + Join(ws)) <= width
  }

  /** A line a layout may contain: it fits, or it could not be broken further. */
  predicate LineOk(prefix: string, ws: seq<string>, width: int) {
    ws != [] && (|ws| == 1 || VisibleLen(prefix + Join(ws)) <= width)
  }

  /** The layouts of `ws` that the width allows. */
  ghost predicate Allowed(l: Layout, ws: seq<string>, prefix: string, hang: string, width: int) {
    && Concat(l) == ws
    && forall i :: 0 <= i < |l| ==> LineOk(if i == 0 then prefix else hang, l[i], width)
  }

  /** How many words the greedy line holds, given that it already holds `n`. */
  function Extend(prefix: string, ws: seq<string>, n: nat, width: int): (r: nat)
    requires n <= |ws|
    ensures n <= r <= |ws|
    decreases |ws| - n
  {
    if n < |ws| && Fits(prefix, ws[..n + 1], width) then Extend(prefix, ws, n + 1, width) else n
  }

  function Greedy(ws: seq<string>, prefix: string, hang: string, width: int): Layout
    decreases |ws|
  {
    if ws == [] then []
    else
      var n := Extend(prefix, ws, 1, width);
      [ws[..n]] + Greedy(ws[n..], hang, hang, width)
  }

  function Rendered(l: Layout, prefix: string, hang: string): seq<string> {
    if l == [] then [] else [prefix + Join(l[0])] + Rendered(l[1..], hang, hang)
  }

  function Spaces(n: nat): (s: string)
    ensures |s| == n && forall i :: 0 <= i < n ==> s[i] == ' '
  {
    seq(n, _ => ' ')
  }

  function HangOf(indent: string, hang: string): string {
    if hang == "" then Spaces(|indent|) else hang
  }

  /** The lines `wrap` produces. */
  function Wrapped(text: string, width: int, indent: string, hang: string): seq<string> {
    if Split(text) == [] then [if Strip(indent) == "" then "" else RStrip(indent)]
    else Rendered(Greedy(Split(text), indent, HangOf(indent, hang), width), indent, HangOf(indent, hang))
  }

  lemma JoinSnoc(ws: seq<string>, w: string)
    ensures Join(ws + [w]) == if ws == [] then w else Join(ws) + " " + w
  {
    assert (ws + [w])[..|ws|] == ws;
    if ws == [] { assert ws + [w] == [w]; }
  }

  lemma JoinFew(w: string)
    ensures Join([]) == "" && Join([w]) == w
  {
  }

  lemma ExtendStep(prefix: string, ws: seq<string>, n: nat, width: int)
    requires n < |ws|
    ensures Extend(prefix, ws, n, width) ==
            if Fits(prefix, ws[..n + 1], width) then Extend(prefix, ws, n + 1, width) else n
  {
  }

  lemma GreedyStep(ws: seq<string>, prefix: string, hang: string, width: int, n: nat)
    requires ws != [] && n == Extend(prefix, ws, 1, width)
    ensures Greedy(ws, prefix, hang, width) == [ws[..n]] + Greedy(ws[n..], hang, hang, width)
  {
  }

  lemma {:induction false} RenderedAppend(l: Layout, prefix: string, hang: string, ws: seq<string>, m: Layout)
    ensures Rendered(l + [ws] + m, prefix, hang) ==
            Rendered(l, prefix, hang) + [(if l == [] then prefix else hang) + Join(ws)] + Rendered(m, hang, hang)
  {
    hide Join;
    if l == [] {
      assert (l + [ws] + m)[1..] == m;
    } else {
      RenderedAppend(l[1..], hang, hang, ws, m);
      assert (l + [ws] + m)[1..] == l[1..] + [ws] + m;
    }
  }

  method WrapText(text: string, width: int, indent: string, hang: string) returns (lines: seq<string>)
    ensures lines == Wrapped(text, width, indent, hang)
    ensures Split(text) == [] ==> lines == [if Blank(indent) then "" else RStrip(indent)]
    ensures Split(text) != [] && !Dangling(hang) ==>
              LaidOut(lines, Split(text), indent, if hang == "" then seq(|indent|, _ => ' ') else hang, width)
  {
    hide Split, Strip, RStrip, Join, Greedy, Rendered, VisibleLen, Extend, Dangling, LaidOut;
    var words := Split(text);
    if words != [] && !Dangling(hang) { WrapLaysOut(text, width, indent, hang); }
    if words == [] {
      NoWordsNoText(text, width, indent, hang);
      return [if Strip(indent) != "" then RStrip(indent) else ""];
    }
    var hang' := if hang == "" then Spaces(|indent|) else hang;
    lines := [];
    var cur, prefix := "", indent;
    ghost var done: Layout, from := [], 0;   // the finished lines, and the first word of the current one
    assert words[0..] == words && [] + Greedy(words, indent, hang', width) == Greedy(words, indent, hang', width);
    NothingRendered(indent, hang');
    JoinFew("");
    for i := 0 to |words|
      invariant from <= i && (from < i || i == 0)
      invariant cur == Join(words[from..i]) && (cur == "" <==> i == 0)
      invariant prefix == if done == [] then indent else hang'
      invariant lines == Rendered(done, indent, hang')
      invariant Greedy(words, indent, hang', width) == done + Greedy(words[from..], prefix, hang', width)
      invariant i > 0 ==> Extend(prefix, words[from..], 1, width) == Extend(prefix, words[from..], i - from, width)
    {
      var word := words[i];
      assert IsWord(word);
      var candidate := if cur == "" then word else cur + " " + word;
      assert words[from..i + 1] == words[from..i] + [word];
      JoinSnoc(words[from..i], word);
      assert candidate == Join(words[from..i + 1]);
      assert words[from..][..i + 1 - from] == words[from..i + 1];
      if i > 0 { ExtendStep(prefix, words[from..], i - from, width); }
      if cur != "" && VisibleLen(prefix + candidate) > width {
        lines := lines + [prefix + cur];
        LineDone(words, from, i, done, prefix, indent, hang', width);
        done, from := done + [words[from..i]], i;
        cur, prefix := word, hang';
        assert words[i..i + 1] == [word];
        JoinFew(word);
      } else {
        cur := candidate;
      }
    }
    lines := lines + [prefix + cur];
    LineDone(words, from, |words|, done, prefix, indent, hang', width);
    GreedyNothing(hang', width);
    ghost var l := done + [words[from..|words|]];
    assert words[|words|..] == [];
    assert l + [] == l;
    assert Greedy(words, indent, hang', width) == l;
    assert lines == Rendered(l, indent, hang');
    assert hang' == HangOf(indent, hang);
  }

  // ----- what the lines of a text look like -----

  /** The printed lines show the layout: the first line behind the indent, the others behind
      the hanging indent. */
  ghost predicate Shows(lines: seq<string>, l: Layout, prefix: string, hang: string) {
    && |lines| == |l|
    && forall i :: 0 <= i < |l| ==> lines[i] == (if i == 0 then prefix else hang) + Join(l[i])
  }

  /** The lines show the words in a layout that the width allows, and no allowed layout has
      fewer lines. */
  ghost predicate LaidOut(lines: seq<string>, ws: seq<string>, prefix: string, hang: string, width: int) {
    exists l: Layout ::
      && Allowed(l, ws, prefix, hang, width) && Shows(lines, l, prefix, hang)
      && forall m: Layout :: Allowed(m, ws, prefix, hang, width) ==> |l| <= |m|
  }

  lemma {:induction false} RenderedShows(l: Layout, prefix: string, hang: string)
    ensures Shows(Rendered(l, prefix, hang), l, prefix, hang)
  {
    hide Join;
    if l != [] {
      RenderedShows(l[1..], hang, hang);
      var r := Rendered(l, prefix, hang);
      assert r[0] == prefix + Join(l[0]) && r[1..] == Rendered(l[1..], hang, hang);
      forall i | 1 <= i < |l| ensures r[i] == hang + Join(l[i]) {
        assert r[i] == r[1..][i - 1] && l[i] == l[1..][i - 1];
      }
    }
  }

  /** What `wrap` prints is laid out with the fewest lines. */
  lemma WrapLaysOut(text: string, width: int, indent: string, hang: string)
    requires !Dangling(hang) && Split(text) != []
    ensures LaidOut(Wrapped(text, width, indent, hang), Split(text), indent,
                    if hang == "" then seq(|indent|, _ => ' ') else hang, width)
  {
    hide Split, Greedy, Allowed, Join, Dangling;
    var h := HangOf(indent, hang);
    assert Spaces(|indent|) == seq(|indent|, _ => ' ');
    var l := Greedy(Split(text), indent, h, width);
    SpacesClosed(|indent|);
    GreedyAllowed(Split(text), indent, h, width);
    RenderedShows(l, indent, h);
    forall m: Layout | Allowed(m, Split(text), indent, h, width) ensures |l| <= |m| {
      GreedyOptimal(Split(text), indent, h, width, m);
    }
  }

  lemma NoWordsNoText(text: string, width: int, indent: string, hang: string)
    requires Split(text) == []
    ensures Wrapped(text, width, indent, hang) == [if Blank(indent) then "" else RStrip(indent)]
  {
    hide Split, Strip, RStrip;
    BlankIff(indent);
  }

  /** On screen an escape sequence counts nothing. */
  lemma VisibleEscape(params: string, s: string)
    requires forall i :: 0 <= i < |params| ==> '0' <= params[i] <= '9' || params[i] == ';'
    ensures VisibleLen("\U{1B}[" + params + "m" + s) == VisibleLen(s)
  {
    var u, t := "\U{1B}[" + params, "\U{1B}[" + params + "m" + s;
    ParamRun(u, 2);
    ParamEndStops(u, "m" + s, 2);
    assert t == u + ("m" + s);
    assert t[|u| + 1..] == s;
  }

  lemma {:induction false} ParamRun(s: string, i: nat)
    requires i <= |s| && forall x :: i <= x < |s| ==> Param(s[x])
    ensures ParamEnd(s, i) == |s|
    decreases |s| - i
  {
    if i < |s| { ParamRun(s, i + 1); }
  }

  lemma NothingRendered(prefix: string, hang: string)
    ensures Rendered([], prefix, hang) == []
  {
  }

  lemma GreedyNothing(hang: string, width: int)
    ensures Greedy([], hang, hang, width) == []
  {
  }

  /** The greedy line `words[from..i]` is full: it becomes part of the finished layout. */
  lemma LineDone(words: seq<string>, from: nat, i: nat, done: Layout, prefix: string, indent: string, hang: string,
                 width: int)
    requires from < i <= |words|
    requires prefix == if done == [] then indent else hang
    requires Greedy(words, indent, hang, width) == done + Greedy(words[from..], prefix, hang, width)
    requires Extend(prefix, words[from..], 1, width) == i - from
    ensures Greedy(words, indent, hang, width) == (done + [words[from..i]]) + Greedy(words[i..], hang, hang, width)
    ensures Rendered(done + [words[from..i]], indent, hang) ==
            Rendered(done, indent, hang) + [prefix + Join(words[from..i])]
  {
    hide Join, Extend, Greedy;
    GreedyStep(words[from..], prefix, hang, width, i - from);
    assert words[from..][..i - from] == words[from..i] && words[from..][i - from..] == words[i..];
    RenderedAppend(done, indent, hang, words[from..i], []);
    assert done + [words[from..i]] + [] == done + [words[from..i]];
    NothingRendered(hang, hang);
  }

  // ----- greedy wrapping is a layout, and none has fewer lines -----

  lemma {:induction false} ExtendFits(prefix: string, ws: seq<string>, n: nat, width: int)
    requires 1 <= n <= |ws| && (n == 1 || Fits(prefix, ws[..n], width))
    ensures var r := Extend(prefix, ws, n, width); r == 1 || Fits(prefix, ws[..r], width)
    decreases |ws| - n
  {
    hide Fits;
    if n < |ws| && Fits(prefix, ws[..n + 1], width) { ExtendFits(prefix, ws, n + 1, width); }
  }

  /** `wrap` keeps every word, in order, and every line fits or holds a single word. */
  lemma {:induction false} GreedyAllowed(ws: seq<string>, prefix: string, hang: string, width: int)
    ensures Allowed(Greedy(ws, prefix, hang, width), ws, prefix, hang, width)
    decreases |ws|
  {
    hide VisibleLen, Join, Extend;
    if ws != [] {
      var n := Extend(prefix, ws, 1, width);
      ExtendFits(prefix, ws, 1, width);
      GreedyAllowed(ws[n..], hang, hang, width);
      assert ws[..n] + ws[n..] == ws;
    }
  }

  /** Dropping words from the end of a line keeps it within the width. */
  lemma {:induction false} FitsShorter(prefix: string, ws: seq<string>, k: nat, width: int)
    requires 1 <= k <= |ws| && Fits(prefix, ws, width)
    ensures Fits(prefix, ws[..k], width)
    decreases |ws|
  {
    hide VisibleLen;
    var n := |ws| - 1;
    if k == |ws| {
      assert ws[..k] == ws;
    } else {
      JoinSnoc(ws[..n], ws[n]);
      assert ws == ws[..n] + [ws[n]];
      assert prefix + (Join(ws[..n]) + " " + ws[n]) == (prefix + Join(ws[..n])) + " " + ws[n];
      VisibleSpace(prefix + Join(ws[..n]), ws[n]);
      FitsShorter(prefix, ws[..n], k, width);
      assert ws[..n][..k] == ws[..k];
    }
  }

  lemma {:induction false} JoinAppend(a: seq<string>, b: seq<string>)
    requires a != [] && b != []
    ensures Join(a + b) == Join(a) + " " + Join(b)
    decreases |b|
  {
    var n := |b| - 1;
    assert a + b == (a + b[..n]) + [b[n]];
    JoinSnoc(a + b[..n], b[n]);
    if n > 0 {
      JoinAppend(a, b[..n]);
      assert Join(a) + " " + (Join(b[..n]) + " " + b[n]) == (Join(a) + " " + Join(b[..n])) + " " + b[n];
    } else {
      assert a + b[..n] == a;
    }
  }

  /** `hang` ends in the beginning of an escape sequence, its bracket included. */
  ghost predicate Dangling(hang: string) {
    exists k :: 0 <= k <= |hang| - 2 && Unfinished(hang[k..])
  }

  /** Dropping words from the front of a continuation line keeps it within the width. */
  lemma FitsSuffix(hang: string, a: seq<string>, b: seq<string>, width: int)
    requires !Dangling(hang) && b != [] && Fits(hang, a + b, width)
    ensures Fits(hang, b, width)
  {
    hide VisibleLen, Join, Unfinished;
    if a == [] {
      assert a + b == b;
    } else {
      JoinAppend(a, b);
      assert hang + (Join(a) + " " + Join(b)) == (hang + Join(a)) + " " + Join(b);
      VisibleSpace(hang + Join(a), Join(b));
      if Closed(hang) {
        VisibleAppend(hang, Join(a));
        VisibleAppend(hang, Join(b));
      } else {
        var k :| 0 <= k < |hang| && Unfinished(hang[k..]);
        assert k == |hang| - 1 && hang[k..] == [hang[k]];
        LoneEscape(hang, Join(a), Join(b));
      }
    }
  }

  /** A lone escape character at the end takes at most itself away. */
  lemma LoneEscape(hang: string, x: string, y: string)
    requires hang != "" && Unfinished([hang[|hang| - 1]])
    ensures VisibleLen(hang + y) <= VisibleLen(hang + x) + 1 + VisibleLen(y)
  {
    hide VisibleLen;
    var h := hang[..|hang| - 1];
    assert hang + x == h + ([ESC] + x) && hang + y == h + ([ESC] + y);
    VisibleAppend(h, [ESC] + x);
    VisibleAppend(h, [ESC] + y);
    AfterEscape(y);
  }

  lemma AfterEscape(y: string)
    ensures VisibleLen([ESC] + y) <= 1 + VisibleLen(y)
  {
    var s := [ESC] + y;
    var n := EscapeLen(s);
    assert s[1..] == y;
    if n > 0 {
      ParamsUpTo(s, 2);
      assert s[n..] == y[n - 1..];
      assert forall i :: 0 <= i < n - 1 ==> y[i] == s[i + 1];
      SkipPlain(y, n - 1);
    }
  }

  lemma {:induction false} ParamsUpTo(s: string, i: nat)
    requires i <= |s|
    ensures forall x :: i <= x < ParamEnd(s, i) ==> Param(s[x])
    decreases |s| - i
  {
    if i < |s| && Param(s[i]) { ParamsUpTo(s, i + 1); }
  }

  lemma {:induction false} SkipPlain(s: string, k: nat)
    requires k <= |s| && forall i :: 0 <= i < k ==> s[i] != ESC
    ensures VisibleLen(s) == k + VisibleLen(s[k..])
  {
    if k == 0 {
      assert s[0..] == s;
    } else {
      SkipPlain(s[1..], k - 1);
      assert s[1..][k - 1..] == s[k..];
    }
  }

  /** A greedy line takes as many words as any line that is allowed. */
  lemma {:induction false} ExtendMax(prefix: string, ws: seq<string>, n: nat, m: nat, width: int)
    requires n <= m <= |ws| && n >= 1 && LineOk(prefix, ws[..m], width)
    ensures Extend(prefix, ws, n, width) >= m
    decreases m - n
  {
    hide VisibleLen, Join;
    if n < m {
      FitsShorter(prefix, ws[..m], n + 1, width);
      assert ws[..m][..n + 1] == ws[..n + 1];
      ExtendMax(prefix, ws, n + 1, m, width);
    }
  }

  /** Continuing greedily from word `from` needs no more lines than any allowed layout of
      all of `ws`, even though that layout has the words before `from` to place as well. */
  lemma {:induction false} GreedyAhead(ws: seq<string>, from: nat, hang: string, width: int, l: Layout)
    requires from <= |ws| && !Dangling(hang) && Allowed(l, ws, hang, hang, width)
    ensures |Greedy(ws[from..], hang, hang, width)| <= |l|
    decreases |l|
  {
    hide Fits, Extend, Dangling, LineOk;
    if from < |ws| {
      var first, rest := l[0], l[1..];
      assert ws == first + Concat(rest);
      var m := |first|;
      assert first == ws[..m] && ws[m..] == Concat(rest);
      assert forall i :: 0 <= i < |rest| ==> rest[i] == l[i + 1];
      GreedyStep(ws[from..], hang, hang, width, Extend(hang, ws[from..], 1, width));
      var next := from + Extend(hang, ws[from..], 1, width);
      assert ws[from..][next - from..] == ws[next..];
      if from < m {
        TakesOver(ws, from, m, hang, width);
      }
      assert next >= m;
      GreedyAhead(ws[m..], next - m, hang, width, rest);
      assert ws[m..][next - m..] == ws[next..];
    }
  }

  lemma TakesOver(ws: seq<string>, from: nat, m: nat, hang: string, width: int)
    requires from < m <= |ws| && !Dangling(hang) && LineOk(hang, ws[..m], width)
    ensures from + Extend(hang, ws[from..], 1, width) >= m
  {
    hide VisibleLen, Join, Extend, Dangling;
    var q := ws[from..m];
    if |q| > 1 {
      assert ws[..m] == ws[..from] + q;
      FitsSuffix(hang, ws[..from], q, width);
    }
    assert ws[from..][..m - from] == q;
    ExtendMax(hang, ws[from..], 1, m - from, width);
  }

  /** No other in-order layout of the same words, with the same first-line and hanging
      indents, uses fewer lines. */
  lemma GreedyOptimal(ws: seq<string>, prefix: string, hang: string, width: int, l: Layout)
    requires !Dangling(hang) && Allowed(l, ws, prefix, hang, width)
    ensures |Greedy(ws, prefix, hang, width)| <= |l|
  {
    hide Fits, Extend, Dangling, LineOk;
    if ws != [] {
      var first, rest := l[0], l[1..];
      var m := |first|;
      assert ws == first + Concat(rest);
      assert first == ws[..m] && ws[m..] == Concat(rest);
      assert forall i :: 0 <= i < |rest| ==> rest[i] == l[i + 1];
      var n := Extend(prefix, ws, 1, width);
      GreedyStep(ws, prefix, hang, width, n);
      LineNonempty(prefix, first, width);
      ExtendMax(prefix, ws, 1, m, width);
      GreedyAhead(ws[m..], n - m, hang, width, rest);
      assert ws[m..][n - m..] == ws[n..];
    }
  }

  lemma LineNonempty(prefix: string, ws: seq<string>, width: int)
    requires LineOk(prefix, ws, width)
    ensures ws != []
  {
  }

  /** Greedy wrapping under a hanging indent is optimal for all words and all widths. */
  ghost predicate AlwaysOptimal(hang: string) {
    forall ws: seq<string>, prefix: string, width: int, l: Layout ::
      AllWords(ws) && Allowed(l, ws, prefix, hang, width) ==> |Greedy(ws, prefix, hang, width)| <= |l|
  }

  /** It is, if and only if the hanging indent does not end in the beginning of an escape
      sequence: otherwise a word that completes the sequence hides it, and a line that
      starts with that word may hold more than a line that starts later. */
  lemma OptimalIff(hang: string)
    ensures AlwaysOptimal(hang) <==> !Dangling(hang)
  {
    hide Dangling, Allowed;
    if !Dangling(hang) {
      forall ws: seq<string>, prefix: string, width: int, l: Layout
        | AllWords(ws) && Allowed(l, ws, prefix, hang, width)
        ensures |Greedy(ws, prefix, hang, width)| <= |l|
      {
        GreedyOptimal(ws, prefix, hang, width, l);
      }
    } else {
      NotOptimal(hang);
    }
  }

  /** The words `aa...a m b c`: greedily three lines, but two are enough. */
  lemma NotOptimal(hang: string)
    requires Dangling(hang)
    ensures exists ws: seq<string>, prefix: string, width: int, l: Layout ::
              AllWords(ws) && Allowed(l, ws, prefix, hang, width) && |Greedy(ws, prefix, hang, width)| > |l|
  {
    hide VisibleLen, Join, Extend, Greedy;
    var k :| 0 <= k <= |hang| - 2 && Unfinished(hang[k..]);
    var u := hang[k..];
    var width := VisibleLen(hang[..k]) + 4;
    var a := seq(width - 2, _ => 'a');
    var ws, l := [a, "m", "b", "c"], [[a], ["m", "b", "c"]];
    HangWidths(hang, k);
    FirstLine(a);
    assert hang + "m b c" == hang + ("m b c") && Join(["m", "b", "c"]) == "m b c" by { JoinThree("m", "b", "c"); }
    TwoLines(a, hang, width);
    ThreeLines(a, hang, width);
    assert AllWords(ws) by { assert IsWord(a) && IsWord("m") && IsWord("b") && IsWord("c"); }
  }

  lemma JoinThree(x: string, y: string, z: string)
    ensures Join([x, y]) == x + " " + y
    ensures Join([x, y, z]) == x + " " + y + " " + z
  {
    JoinFew(x);
    JoinSnoc([x], y);
    JoinSnoc([x, y], z);
    assert [x] + [y] == [x, y] && [x, y] + [z] == [x, y, z];
  }

  /** What the lines of the example measure. */
  lemma HangWidths(hang: string, k: nat)
    requires k <= |hang| - 2 && Unfinished(hang[k..])
    ensures VisibleLen(hang + "m b c") == VisibleLen(hang[..k]) + 4
    ensures VisibleLen(hang + "b c") >= VisibleLen(hang[..k]) + 5
  {
    hide VisibleLen;
    var u := hang[k..];
    SplitWidth(hang, k, "m b c");
    SplitWidth(hang, k, "b c");
    Completed(u);
    NotCompleted(u);
  }

  lemma SplitWidth(hang: string, k: nat, d: string)
    requires k <= |hang| - 2 && Unfinished(hang[k..])
    ensures VisibleLen(hang + d) == VisibleLen(hang[..k]) + VisibleLen(hang[k..] + d)
  {
    hide VisibleLen;
    assert hang + d == hang[..k] + (hang[k..] + d);
    VisibleAppend(hang[..k], hang[k..] + d);
  }

  lemma Completed(u: string)
    requires |u| >= 2 && Unfinished(u)
    ensures VisibleLen(u + "m b c") == 4
  {
    var s := u + "m b c";
    ParamEndStops(u, "m b c", 2);
    assert EscapeLen(s) == |u| + 1 && s[|u| + 1..] == " b c";
    SkipPlain(" b c", 4);
  }

  lemma {:induction false} ParamEndStops(s: string, d: string, i: nat)
    requires i <= |s| && ParamEnd(s, i) == |s| && d != "" && !Param(d[0])
    ensures ParamEnd(s + d, i) == |s|
    decreases |s| - i
  {
    if i < |s| { ParamEndStops(s, d, i + 1); }
  }

  lemma NotCompleted(u: string)
    requires |u| >= 2 && Unfinished(u)
    ensures VisibleLen(u + "b c") == |u| + 3
  {
    var s := u + "b c";
    ParamEndStops(u, "b c", 2);
    ParamsUpTo(u, 2);
    assert EscapeLen(s) == 0;
    assert forall i :: 0 <= i < |s| - 1 ==> s[1..][i] == s[i + 1] != ESC;
    SkipPlain(s[1..], |s| - 1);
    assert s[1..][|s| - 1..] == "";
  }

  lemma FirstLine(a: string)
    requires forall i :: 0 <= i < |a| ==> a[i] == 'a'
    ensures VisibleLen("" + Join([a, "m"])) == |a| + 2
    ensures VisibleLen("" + Join([a, "m", "b"])) == |a| + 4
  {
    hide VisibleLen;
    JoinThree(a, "m", "b");
    var s, t := a + " " + "m", a + " " + "m" + " " + "b";
    SkipPlain(s, |s|);
    SkipPlain(t, |t|);
    assert s[|s|..] == "" && t[|t|..] == "" && "" + s == s && "" + t == t;
    SkipPlain("", 0);
    NothingVisible();
  }

  lemma NothingVisible()
    ensures VisibleLen("") == 0
  {
  }

  lemma TwoLines(a: string, hang: string, width: int)
    requires VisibleLen(hang + "m b c") <= width
    ensures Allowed([[a], ["m", "b", "c"]], [a, "m", "b", "c"], "", hang, width)
  {
    hide VisibleLen, Join;
    JoinThree("m", "b", "c");
    var l := [[a], ["m", "b", "c"]];
    ConcatSnoc([], [a]);
    ConcatSnoc([[a]], ["m", "b", "c"]);
    assert [] + [[a]] == [[a]] && l == [[a]] + [["m", "b", "c"]] && [] + [a] == [a];
    assert Concat(l) == [a] + ["m", "b", "c"] == [a, "m", "b", "c"];
    assert Fits(hang, l[1], width) by { assert hang + ("m" + " " + "b" + " " + "c") == hang + "m b c"; }
  }

  lemma ThreeLines(a: string, hang: string, width: int)
    requires width == |a| + 2 && VisibleLen(hang + "b c") > width
    requires VisibleLen("" + Join([a, "m"])) == |a| + 2 && VisibleLen("" + Join([a, "m", "b"])) == |a| + 4
    ensures |Greedy([a, "m", "b", "c"], "", hang, width)| == 3
  {
    hide VisibleLen, Join, Extend, Greedy;
    var ws := [a, "m", "b", "c"];
    assert ws[..2] == [a, "m"] && ws[..3] == [a, "m", "b"] && ws[2..] == ["b", "c"];
    ExtendStep("", ws, 1, width);
    ExtendStep("", ws, 2, width);
    GreedyStep(ws, "", hang, width, 2);
    var bc := ["b", "c"];
    JoinThree("b", "c", "");
    assert bc[..2] == bc && bc[1..] == ["c"];
    assert "b" + " " + "c" == "b c";
    ExtendStep(hang, bc, 1, width);
    GreedyStep(bc, hang, hang, width, 1);
    OneWordLine("c", hang, width);
  }

  lemma OneWordLine(w: string, hang: string, width: int)
    ensures |Greedy([w], hang, hang, width)| == 1
  {
    GreedyStep([w], hang, hang, width, 1);
    GreedyNothing(hang, width);
    assert [w][1..] == [];
  }

  /** The default hanging indent never ends in an unfinished escape. */
  lemma SpacesClosed(n: nat)
    ensures !Dangling(Spaces(n))
  {
  }

  /** What `wrap` guarantees about its lines, as one statement about a text. */
  lemma WrapOptimal(text: string, width: int, indent: string, hang: string, l: Layout)
    requires !Dangling(hang) && Split(text) != []
    requires Allowed(l, Split(text), indent, HangOf(indent, hang), width)
    ensures |Wrapped(text, width, indent, hang)| <= |l|
  {
    hide Split, Greedy;
    SpacesClosed(|indent|);
    var h := HangOf(indent, hang);
    GreedyOptimal(Split(text), indent, h, width, l);
    RenderedLength(Greedy(Split(text), indent, h, width), indent, h);
  }

  lemma {:induction false} RenderedLength(l: Layout, prefix: string, hang: string)
    ensures |Rendered(l, prefix, hang)| == |l|
  {
    if l != [] { RenderedLength(l[1..], hang, hang); }
  }

  // ----- the words on the lines -----

  /** The words one reads on printed lines. */
  function WordsOn(lines: seq<string>): seq<string> {
    if lines == [] then [] else Split(lines[0]) + WordsOn(lines[1..])
  }

  lemma {:induction false} WordsOnAppend(a: seq<string>, b: seq<string>)
    ensures WordsOn(a + b) == WordsOn(a) + WordsOn(b)
  {
    hide Split;
    if a == [] {
      assert a + b == b;
    } else {
      assert (a + b)[1..] == a[1..] + b;
      WordsOnAppend(a[1..], b);
    }
  }

  lemma {:induction false} WordsOnRendered(l: Layout, prefix: string, hang: string)
    requires Blank(prefix) && Blank(hang)
    requires forall i :: 0 <= i < |l| ==> AllWords(l[i])
    ensures WordsOn(Rendered(l, prefix, hang)) == Concat(l)
  {
    hide Split, Join, Blank;
    if l != [] {
      SplitLeadingBlank(prefix, Join(l[0]));
      SplitJoin(l[0]);
      WordsOnRendered(l[1..], hang, hang);
      var r := Rendered(l, prefix, hang);
      assert r[0] == prefix + Join(l[0]) && r[1..] == Rendered(l[1..], hang, hang);
    }
  }

  lemma {:induction false} GreedyWords(ws: seq<string>, prefix: string, hang: string, width: int)
    requires AllWords(ws)
    ensures forall i :: 0 <= i < |Greedy(ws, prefix, hang, width)| ==> AllWords(Greedy(ws, prefix, hang, width)[i])
    decreases |ws|
  {
    hide Extend;
    if ws != [] {
      var n := Extend(prefix, ws, 1, width);
      GreedyWords(ws[n..], hang, hang, width);
    }
  }

  /** With blank indents, the printed lines show exactly the words of the text. */
  lemma WrapKeepsWords(text: string, width: int, indent: string, hang: string)
    requires Blank(indent) && Blank(hang)
    ensures WordsOn(Wrapped(text, width, indent, hang)) == Split(text)
  {
    hide Split, Strip, RStrip, Greedy, Join;
    var h := HangOf(indent, hang);
    assert forall c: char :: c == ' ' ==> IsSpace(c);
    if Split(text) == [] {
      BlankIff(indent);
      SplitBlank("");
      assert WordsOn([""]) == Split("") + WordsOn([]);
    } else {
      GreedyWords(Split(text), indent, h, width);
      GreedyAllowed(Split(text), indent, h, width);
      WordsOnRendered(Greedy(Split(text), indent, h, width), indent, h);
    }
  }
}
