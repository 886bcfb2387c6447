/** `ReplyRenderer`: turns a live token stream into finished, printable lines. */
module ReplyRenderer {
  import opened Options
  import opened PyText
  import opened Wrap

  /** What a list-item pattern extracts from a line: the printed marker and the rest of the line. */
  datatype Item = Item(marker: string, body: string)

  /** The Markdown rules (regular expressions and palette), kept abstract. `heading` gives
      the styled heading text, `decimal` the characters the class `\d` accepts. */
  datatype Rules = Rules(
    decimal: char -> bool,
    splitRunOn: string -> string,
    styleInline: string -> string,
    heading: string -> Option<string>,
    numbered: string -> Option<Item>,
    bullet: string -> Option<Item>)

  predicate Marker(rules: Rules, c: char) {
    c == '*' || c == '`' || c == '#' || c == '-' || c == '+' || rules.decimal(c)
  }

  predicate MarkerFree(rules: Rules, s: string) {
    forall i :: 0 <= i < |s| ==> !Marker(rules, s[i])
  }

  predicate IsSuffix(b: string, s: string) {
    |b| <= |s| && s[|s| - |b|..] == b
  }

  predicate OneLine(s: string) {
    forall i :: 0 <= i < |s| ==> s[i] != '\n'
  }

  /** What holds of the patterns: on a single line, an item's body is a suffix of the line,
      and every pattern needs a Markdown character or a digit to do anything. */
  ghost predicate Lawful(rules: Rules) {
    && !rules.decimal(' ')
    && (forall s :: OneLine(s) && rules.numbered(s).Some? ==> IsSuffix(rules.numbered(s).value.body, s))
    && (forall s :: OneLine(s) && rules.bullet(s).Some? ==> IsSuffix(rules.bullet(s).value.body, s))
    && (forall s {:trigger MarkerFree(rules, s)} :: MarkerFree(rules, s) ==> Unstyled(rules, s))
  }

  ghost predicate Unstyled(rules: Rules, s: string) {
    && rules.splitRunOn(s) == s && rules.styleInline(s) == s
    && rules.heading(s).None? && rules.numbered(s).None? && rules.bullet(s).None?
  }

  // ----- the list-item patterns -----

  function AfterBlanks(s: string, i: nat): (r: nat)
    requires i <= |s|
    ensures i <= r <= |s|
    decreases |s| - i
  {
    if i < |s| && IsSpace(s[i]) then AfterBlanks(s, i + 1) else i
  }

  /** `\s+(.*)$` from `i` on: the dot stops at a newline, and the dollar also matches before
      a final one. */
  function BodyFrom(s: string, i: nat): Option<string>
    requires i <= |s|
  {
    var j := AfterBlanks(s, i);
    var body := DropNewline(s[j..]);
    if j > i && OneLine(body) then Some(body) else None
  }

  function DropNewline(s: string): string {
    if s != "" && s[|s| - 1] == '\n' then s[..|s| - 1] else s
  }

  /** `^(\s*)[-*+]\s+(.*)$`; `dot` is the coloured bullet. */
  function Bullet(dot: string, s: string): Option<Item> {
    var i := AfterBlanks(s, 0);
    if i < |s| && (s[i] == '-' || s[i] == '*' || s[i] == '+') && BodyFrom(s, i + 1).Some?
    then Some(Item(s[..i] + dot + " ", BodyFrom(s, i + 1).value)) else None
  }

  /** `^(\s*)(\d{1,2})[.)]\s+(.*)$` */
  function Numbered(decimal: char -> bool, green: string, reset: string, s: string): Option<Item> {
    var i := AfterBlanks(s, 0);
    var n := if i < |s| && decimal(s[i]) then if i + 1 < |s| && decimal(s[i + 1]) then 2 else 1 else 0;
    if n > 0 && i + n < |s| && (s[i + n] == '.' || s[i + n] == ')') && BodyFrom(s, i + n + 1).Some?
    then Some(Item(s[..i] + green + s[i..i + n] + "." + reset + " ", BodyFrom(s, i + n + 1).value)) else None
  }

  lemma BodyIsSuffix(s: string, i: nat)
    requires OneLine(s) && i <= |s|
    ensures BodyFrom(s, i).Some? ==> IsSuffix(BodyFrom(s, i).value, s)
  {
    var rest := s[AfterBlanks(s, i)..];
    if rest != "" { assert rest[|rest| - 1] == s[|s| - 1]; }
  }

  /** The two list patterns of the program have the laws asked of them. */
  lemma ItemsAreLawful(rules: Rules, dot: string, green: string, reset: string, s: string)
    requires rules.bullet == (t => Bullet(dot, t)) && rules.numbered == (t => Numbered(rules.decimal, green, reset, t))
    ensures OneLine(s) && rules.numbered(s).Some? ==> IsSuffix(rules.numbered(s).value.body, s)
    ensures OneLine(s) && rules.bullet(s).Some? ==> IsSuffix(rules.bullet(s).value.body, s)
    ensures MarkerFree(rules, s) ==> rules.numbered(s).None? && rules.bullet(s).None?
  {
    hide BodyFrom, IsSuffix;
    var i := AfterBlanks(s, 0);
    if OneLine(s) {
      if i < |s| { BodyIsSuffix(s, i + 1); }
      if i + 1 < |s| { BodyIsSuffix(s, i + 2); }
      if i + 2 < |s| { BodyIsSuffix(s, i + 3); }
    }
    assert MarkerFree(rules, s) && i < |s| ==> !Marker(rules, s[i]);
  }

  // ----- rendering a whole line or block -----

  function RenderLine(rules: Rules, line: string, width: int, indent: string): seq<string> {
    if Strip(line) == "" then [""]
    else if rules.heading(line).Some? then Wrapped(rules.heading(line).value, width, indent, "")
    else if rules.numbered(line).Some? then RenderItem(rules, rules.numbered(line).value, width, indent)
    else if rules.bullet(line).Some? then RenderItem(rules, rules.bullet(line).value, width, indent)
    else Wrapped(rules.styleInline(Strip(line)), width, indent, "")
  }

  function RenderItem(rules: Rules, item: Item, width: int, indent: string): seq<string> {
    var marker := indent + item.marker;
    Wrapped(rules.styleInline(item.body), width, marker, Spaces(VisibleLen(marker)))
  }

  function RenderLines(rules: Rules, text: string, width: int, indent: string): seq<string>
    decreases |text|
  {
    var i := Find(text, "\n");
    if i == -1 then RenderLine(rules, text, width, indent)
    else RenderLine(rules, text[..i], width, indent) + RenderLines(rules, text[i + 1..], width, indent)
  }

  function RenderBlock(rules: Rules, text: string, width: int, indent: string): seq<string> {
    RenderLines(rules, rules.splitRunOn(text), width, indent)
  }

  lemma FreeOfSlice(rules: Rules, s: string, i: nat, j: nat)
    requires MarkerFree(rules, s) && i <= j <= |s|
    ensures MarkerFree(rules, s[i..j])
  {
  }

  lemma {:induction false} StripFree(rules: Rules, s: string)
    requires MarkerFree(rules, s)
    ensures MarkerFree(rules, Strip(s))
  {
    LStripFree(rules, s);
    RStripEnd(LStrip(s));
  }

  lemma {:induction false} LStripFree(rules: Rules, s: string)
    requires MarkerFree(rules, s)
    ensures MarkerFree(rules, LStrip(s))
  {
    if s != "" && IsSpace(s[0]) { LStripFree(rules, s[1..]); }
  }

  lemma RenderLineWords(rules: Rules, line: string, width: int, indent: string)
    requires Lawful(rules) && Blank(indent) && MarkerFree(rules, line)
    ensures WordsOn(RenderLine(rules, line, width, indent)) == Split(line)
  {
    hide Split, Strip, Wrapped, MarkerFree, Blank;
    assert Unstyled(rules, line);
    StripFree(rules, line);
    assert Unstyled(rules, Strip(line));
    SplitStrip(line);
    EmptyIsBlank();
    if Strip(line) == "" {
      assert WordsOn([""]) == Split("") + WordsOn([]);
    } else {
      WrapKeepsWords(Strip(line), width, indent, "");
    }
  }

  lemma EmptyIsBlank()
    ensures Blank("") && Split("") == []
  {
  }

  lemma NewlineClosed(s: string)
    ensures !Open(s + "\n") && Split(s + "\n") == Split(s)
  {
    SplitTrailingBlank(s, "\n");
  }

  /** The words on both sides of a newline. */
  lemma SplitAtNewline(s: string, i: nat)
    requires At(s, i, "\n")
    ensures Split(s) == Split(s[..i]) + Split(s[i + 1..])
    ensures Open(s) == Open(s[i + 1..])
  {
    var n := "\n";
    assert s[i..i + 1] == n && s == (s[..i] + n) + s[i + 1..];
    NewlineClosed(s[..i]);
    SplitClosed(s[..i] + n, s[i + 1..]);
    if s[i + 1..] == "" { assert s == s[..i] + n; }
  }

  lemma {:induction false} RenderLinesWords(rules: Rules, text: string, width: int, indent: string)
    requires Lawful(rules) && Blank(indent) && MarkerFree(rules, text)
    ensures WordsOn(RenderLines(rules, text, width, indent)) == Split(text)
    decreases |text|
  {
    hide Split, RenderLine, Find, MarkerFree, Blank, Lawful;
    var i := Find(text, "\n");
    if i == -1 {
      RenderLineWords(rules, text, width, indent);
    } else {
      FindLaw(text, "\n");
      FreeOfSlice(rules, text, 0, i);
      FreeOfSlice(rules, text, i + 1, |text|);
      assert text[0..i] == text[..i] && text[i + 1..|text|] == text[i + 1..];
      RenderLineWords(rules, text[..i], width, indent);
      RenderLinesWords(rules, text[i + 1..], width, indent);
      WordsOnAppend(RenderLine(rules, text[..i], width, indent), RenderLines(rules, text[i + 1..], width, indent));
      SplitAtNewline(text, i);
    }
  }

  /** Something other than whitespace is printed exactly when there are words to read. */
  predicate AnyText(lines: seq<string>) {
    exists i :: 0 <= i < |lines| && Strip(lines[i]) != ""
  }

  lemma {:induction false} AnyTextIff(lines: seq<string>)
    ensures AnyText(lines) <==> WordsOn(lines) != []
  {
    hide Split, Strip;
    if lines != [] {
      BlankIff(lines[0]);
      AnyTextIff(lines[1..]);
      if Strip(lines[0]) == "" && AnyText(lines) {
        var i :| 0 <= i < |lines| && Strip(lines[i]) != "";
        assert lines[1..][i - 1] == lines[i];
      }
      if AnyText(lines[1..]) {
        var i :| 0 <= i < |lines[1..]| && Strip(lines[1..][i]) != "";
        assert lines[i + 1] == lines[1..][i];
      }
    }
  }

  // ----- splitting never invents characters -----

  lemma {:induction false} SplitFree(rules: Rules, s: string)
    requires MarkerFree(rules, s)
    ensures forall i :: 0 <= i < |Split(s)| ==> MarkerFree(rules, Split(s)[i])
  {
    if s != "" { SplitFree(rules, s[..|s| - 1]); }
  }

  lemma {:induction false} JoinFree(rules: Rules, ws: seq<string>)
    requires !rules.decimal(' ')
    requires forall i :: 0 <= i < |ws| ==> MarkerFree(rules, ws[i])
    ensures MarkerFree(rules, Join(ws))
  {
    if |ws| > 1 { JoinFree(rules, ws[..|ws| - 1]); }
  }

  /** Without its last character, a suffix is a suffix of what is left. */
  lemma SuffixInit(s: string, b: string)
    requires IsSuffix(b, s) && b != ""
    ensures IsSuffix(b[..|b| - 1], s[..|s| - 1]) && b[|b| - 1] == s[|s| - 1]
  {
    var t := s[|s| - |b|..];
    assert t[|b| - 1] == s[|s| - 1];
    assert s[..|s| - 1][|s| - |b|..] == t[..|b| - 1];
  }

  lemma {:induction false} SuffixWords(s: string, b: string)
    requires IsSuffix(b, s)
    ensures |Split(b)| <= |Split(s)|
    decreases |b|
  {
    hide Split;
    if b == "" {
      SplitBlank(b);
    } else {
      var c := b[|b| - 1];
      SuffixInit(s, b);
      var s', b' := s[..|s| - 1], b[..|b| - 1];
      SuffixWords(s', b');
      assert s == s' + [c] && b == b' + [c];
      SplitSnoc(s', c);
      SplitSnoc(b', c);
      if b' == "" { SplitBlank(b'); } else { SuffixInit(s', b'); }
    }
  }

  // ----- the streaming renderer -----

  const DRAIN_AFTER := 3

  /** How many words a drained line takes: it stops at the first candidate that is too wide. */
  function TakeFit(rules: Rules, prefix: string, ws: seq<string>, n: nat, width: int): (r: nat)
    requires n <= |ws|
    ensures n <= r <= |ws|
    decreases |ws| - n
  {
    if n < |ws| && VisibleLen(prefix + rules.styleInline(Join(ws[..n + 1]))) <= width
    then TakeFit(rules, prefix, ws, n + 1, width) else n
  }

  /** Every word fed is printed or still buffered, in order, and a word that could still
      grow is still at the end of the buffer. */
  ghost predicate Kept(rules: Rules, fed: string, printed: seq<string>, buf: string, cont: Option<string>,
                       wroteAny: bool) {
    && MarkerFree(rules, fed) && MarkerFree(rules, buf)
    && (cont.Some? ==> Blank(cont.value))
    && Split(fed) == printed + Split(buf)
    && Open(fed) == Open(buf)
    && wroteAny == (printed != [])
  }

  // ----- where plain text stands on the page -----

  /** Every line fits the width or shows a single word. */
  ghost predicate LinesFit(lines: seq<string>, width: int) {
    forall i :: 0 <= i < |lines| ==> VisibleLen(lines[i]) <= width || |Split(lines[i])| <= 1
  }

  /** A completed line of plain text: an empty line for a blank one, else as few lines as the
      width allows, all behind the indent. */
  ghost predicate Paragraph(lines: seq<string>, line: string, indent: string, width: int) {
    if Blank(line) then lines == [""]
    else LaidOut(lines, Split(line), indent, seq(|indent|, _ => ' '), width)
  }

  /** The lines of a text in which every line is completed by a newline. */
  ghost predicate FullLines(lines: seq<string>, text: string, indent: string, width: int)
    decreases |text|
  {
    if text == "" then lines == []
    else exists before, line, above, below ::
      && |before| < |text| && text == before + line + "\n" && OneLine(line) && lines == above + below
      && Paragraph(below, line, indent, width) && FullLines(above, before, indent, width)
  }

  /** The lines of a whole text: the completed lines, and what is left behind the last newline. */
  ghost predicate Page(lines: seq<string>, text: string, indent: string, width: int) {
    exists before, rest, above, below ::
      && text == before + rest && OneLine(rest) && lines == above + below
      && FullLines(above, before, indent, width)
      && (if Blank(rest) then below == [] else Paragraph(below, rest, indent, width))
  }

  /** No line of the text is longer than `n`. */
  ghost predicate NoLongLine(text: string, n: int) {
    forall i, j :: 0 <= i <= j <= |text| && OneLine(text[i..j]) ==> j - i <= n
  }

  /** While no line is long, nothing is drained: the completed lines are on the page, and the
      buffer holds the rest. */
  ghost predicate OnPage(fed: string, settled: string, shown: seq<string>, buf: string, cont: Option<string>,
                         indent: string, width: int) {
    cont.None? && fed == settled + buf && FullLines(shown, settled, indent, width)
  }

  lemma CompleteOne(lines: seq<string>, text: string, more: seq<string>, line: string, indent: string, width: int)
    requires FullLines(lines, text, indent, width) && OneLine(line) && Paragraph(more, line, indent, width)
    ensures FullLines(lines + more, text + line + "\n", indent, width)
  {
    hide Paragraph, OneLine;
  }

  lemma ShorterText(a: string, b: string, n: int)
    requires NoLongLine(a + b, n)
    ensures NoLongLine(a, n) && (OneLine(b) ==> |b| <= n)
  {
    forall i, j | 0 <= i <= j <= |a| && OneLine(a[i..j]) ensures j - i <= n { assert (a + b)[i..j] == a[i..j]; }
    assert (a + b)[|a|..|a + b|] == b;
  }

  lemma {:induction false} VisibleAtMost(s: string)
    ensures VisibleLen(s) <= |s|
    decreases |s|
  {
    if s != "" {
      var n := if EscapeLen(s) > 0 then EscapeLen(s) else 1;
      VisibleAtMost(s[n..]);
    }
  }

  lemma BlankNotDangling(s: string)
    requires Blank(s)
    ensures !Dangling(s)
  {
    assert !IsSpace(ESC);
  }

  lemma PrefixedSplits(prefix: string, ws: seq<string>)
    requires Blank(prefix) && AllWords(ws)
    ensures Split(prefix + Join(ws)) == ws
  {
    hide Split, Join;
    SplitLeadingBlank(prefix, Join(ws));
    SplitJoin(ws);
  }

  /** Laid-out lines fit. */
  lemma LaidOutFits(lines: seq<string>, ws: seq<string>, prefix: string, hang: string, width: int)
    requires LaidOut(lines, ws, prefix, hang, width) && Blank(prefix) && Blank(hang) && AllWords(ws)
    ensures LinesFit(lines, width)
  {
    hide VisibleLen, Split, Join, Blank;
    var l: Layout :| Allowed(l, ws, prefix, hang, width) && Shows(lines, l, prefix, hang);
    forall i | 0 <= i < |lines| ensures VisibleLen(lines[i]) <= width || |Split(lines[i])| <= 1 {
      ConcatWords(l, ws, i);
      PrefixedSplits(if i == 0 then prefix else hang, l[i]);
    }
  }

  lemma {:induction false} ConcatWords(l: Layout, ws: seq<string>, i: nat)
    requires Concat(l) == ws && AllWords(ws) && i < |l|
    ensures AllWords(l[i])
  {
    var rest := Concat(l[1..]);
    assert ws == l[0] + rest;
    assert forall k :: 0 <= k < |l[0]| ==> l[0][k] == ws[k];
    assert forall k :: 0 <= k < |rest| ==> rest[k] == ws[|l[0]| + k];
    if i > 0 { ConcatWords(l[1..], rest, i - 1); }
  }

  lemma FitsAppend(a: seq<string>, b: seq<string>, width: int)
    requires LinesFit(a, width) && LinesFit(b, width)
    ensures LinesFit(a + b, width)
  {
    hide VisibleLen, Split;
  }

  lemma NothingFits(width: int)
    ensures LinesFit([], width) && LinesFit([""], width)
  {
    assert Split("") == [];
  }

  lemma ParagraphFits(lines: seq<string>, line: string, indent: string, width: int)
    requires Paragraph(lines, line, indent, width) && Blank(indent)
    ensures LinesFit(lines, width)
  {
    hide Split, LaidOut, VisibleLen, LinesFit;
    NothingFits(width);
    if !Blank(line) {
      SpacesBlank(|indent|);
      assert Spaces(|indent|) == seq(|indent|, _ => ' ');
      LaidOutFits(lines, Split(line), indent, seq(|indent|, _ => ' '), width);
    }
  }

  /** What `Emit` prints for one line of plain text. */
  ghost predicate Emitted(lines: seq<string>, line: string, cont: Option<string>, indent: string, width: int) {
    if cont.None? then Paragraph(lines, line, indent, width)
    else if Blank(line) then lines == []
    else LaidOut(lines, Split(line), cont.value, cont.value, width)
  }

  lemma EmittedFits(lines: seq<string>, line: string, cont: Option<string>, indent: string, width: int)
    requires Emitted(lines, line, cont, indent, width) && Blank(indent) && (cont.Some? ==> Blank(cont.value))
    ensures LinesFit(lines, width)
  {
    hide Split, LaidOut, VisibleLen, LinesFit;
    NothingFits(width);
    if cont.None? {
      ParagraphFits(lines, line, indent, width);
    } else if !Blank(line) {
      LaidOutFits(lines, Split(line), cont.value, cont.value, width);
    }
  }

  /** A single plain line is laid out with as few lines as the width allows. */
  lemma EmitsPlain(rules: Rules, line: string, cont: Option<string>, indent: string, width: int)
    requires Lawful(rules) && MarkerFree(rules, line) && Blank(indent) && OneLine(line)
    ensures Strip(line) == "" <==> Blank(line)
    ensures cont.None? ==> Emitted(RenderBlock(rules, line, width, indent), line, cont, indent, width)
    ensures cont.Some? && Blank(cont.value) && !Blank(line) ==>
              Emitted(Wrapped(rules.styleInline(Strip(line)), width, cont.value, cont.value), line, cont, indent, width)
  {
    hide Split, MarkerFree, Blank, Strip, Wrapped, LaidOut;
    FreeIsUnstyled(rules, line);
    BlankIff(line);
    StripFree(rules, line);
    FreeIsUnstyled(rules, Strip(line));
    SplitStrip(line);
    NoNewlineFound(line);
    NothingDangles();
    if !Blank(line) {
      WrapLaysOut(Strip(line), width, indent, "");
      if cont.Some? && Blank(cont.value) {
        BlankNotDangling(cont.value);
        WrapLaysOut(Strip(line), width, cont.value, cont.value);
        if cont.value == "" { assert cont.value == seq(|cont.value|, _ => ' '); }
      }
    }
  }

  lemma NothingDangles()
    ensures !Dangling("")
  {
  }

  lemma NoNewlineFound(s: string)
    requires OneLine(s)
    ensures Find(s, "\n") == -1
  {
    forall k: nat ensures !At(s, k, "\n") { assert k < |s| ==> s[k..k + 1][0] == s[k]; }
    FindNone(s, "\n");
  }

  /** The first words that fit, and no more. */
  lemma {:induction false} TakeFitLaw(rules: Rules, prefix: string, ws: seq<string>, n: nat, width: int)
    requires n <= |ws| && forall k :: 0 <= k <= |ws| ==> rules.styleInline(Join(ws[..k])) == Join(ws[..k])
    ensures var r := TakeFit(rules, prefix, ws, n, width);
            && (r > n ==> VisibleLen(prefix + Join(ws[..r])) <= width)
            && (r < |ws| ==> VisibleLen(prefix + Join(ws[..r + 1])) > width)
    decreases |ws| - n
  {
    hide VisibleLen, Join;
    if n < |ws| && VisibleLen(prefix + rules.styleInline(Join(ws[..n + 1]))) <= width {
      TakeFitLaw(rules, prefix, ws, n + 1, width);
    }
  }

  lemma WordsUnstyled(rules: Rules, buf: string)
    requires Lawful(rules) && MarkerFree(rules, buf)
    ensures forall k :: 0 <= k <= |Split(buf)| ==> rules.styleInline(Join(Split(buf)[..k])) == Join(Split(buf)[..k])
  {
    hide Split, Join, MarkerFree;
    SplitFree(rules, buf);
    forall k | 0 <= k <= |Split(buf)| ensures rules.styleInline(Join(Split(buf)[..k])) == Join(Split(buf)[..k]) {
      JoinFree(rules, Split(buf)[..k]);
      FreeIsUnstyled(rules, Join(Split(buf)[..k]));
    }
  }

  class ReplyRenderer {
    const width: int
    const rules: Rules
    const indent: string
    var buf: string
    var cont: Option<string>
    var wroteAny: bool
    /** Everything fed so far, and the words printed for it. */
    ghost var fed: string
    ghost var printed: seq<string>
    /** The lines printed so far, and the completed lines of text they show. */
    ghost var shown: seq<string>
    ghost var settled: string

    /** Text for which no Markdown rule applies, under a blank indent. */
    ghost predicate Plain()
      reads this
    {
      Blank(indent) && MarkerFree(rules, fed)
    }

    /** Plain text in which no line is longer than three times the width. */
    ghost predicate Short()
      reads this
    {
      Plain() && NoLongLine(fed, 3 * width)
    }

    ghost predicate Valid()
      reads this
    {
      && Lawful(rules)
      && (Plain() ==> Kept(rules, fed, printed, buf, cont, wroteAny))
      && (Short() ==> OnPage(fed, settled, shown, buf, cont, indent, width))
    }

    constructor (width: int, rules: Rules, indent: string)
      requires Lawful(rules)
      ensures Valid() && fed == "" && printed == [] && shown == [] && OneLine(buf)
      ensures this.width == width && this.rules == rules && this.indent == indent
    {
      this.width, this.rules, this.indent := width, rules, indent;
      buf, cont, wroteAny, fed, printed := "", None, false, "", [];
      shown, settled := [], "";
    }

    method Feed(chunk: string) returns (out: seq<string>)
      requires Valid()
      modifies this
      ensures Valid() && OneLine(buf) && fed == old(fed) + chunk
      ensures printed == old(printed) + WordsOn(out) && shown == old(shown) + out
      ensures Plain() ==> LinesFit(out, width)
    {
      hide Split, MarkerFree, Blank, Find, Lawful, Kept, WordsOn, OneLine, LinesFit, NoLongLine, OnPage;
      WordsOnNothing();
      NothingFits(width);
      Absorb(chunk);
      out := [];
      assert printed == old(printed) + WordsOn(out);
      while Find(buf, "\n") != -1
        invariant Valid() && fed == old(fed) + chunk
        invariant printed == old(printed) + WordsOn(out) && shown == old(shown) + out
        invariant Plain() ==> LinesFit(out, width)
        decreases |buf|
      {
        FindLaw(buf, "\n");
        var lines := EmitFirst(Find(buf, "\n"));
        WordsOnAppend(out, lines);
        if Plain() { FitsAppend(out, lines, width); }
        out := out + lines;
      }
      NoNewline(buf);
      var drained := Drain();
      WordsOnAppend(out, drained);
      if Plain() { FitsAppend(out, drained, width); }
      out := out + drained;
    }

    method Absorb(chunk: string)
      requires Valid()
      modifies this`buf, this`fed
      ensures Valid() && fed == old(fed) + chunk
    {
      hide Split, MarkerFree, Blank, Lawful, Kept, NoLongLine, OnPage;
      ghost var before := buf;
      fed := fed + chunk;
      buf := rules.splitRunOn(buf + chunk);
      if Plain() { FeedPlain(rules, old(fed), printed, before, cont, wroteAny, chunk); }
      if Short() { FeedShort(rules, old(fed), settled, shown, before, cont, indent, width, chunk); }
    }

    /** One round of the loop of `feed`: the line that ends at the first newline, at `i`. */
    method EmitFirst(i: nat) returns (lines: seq<string>)
      requires Valid() && At(buf, i, "\n") && NoneBefore(buf, i, "\n")
      modifies this`buf, this`cont, this`wroteAny, this`printed, this`shown, this`settled
      ensures Valid() && buf == old(buf)[i + 1..]
      ensures printed == old(printed) + WordsOn(lines) && shown == old(shown) + lines
      ensures Plain() ==> LinesFit(lines, width) && Emitted(lines, old(buf)[..i], old(cont), indent, width)
    {
      hide Split, MarkerFree, Blank, Lawful, Kept, WordsOn, OneLine, LinesFit, NoLongLine, OnPage, Emitted;
      var line, rest := buf[..i], buf[i + 1..];
      LineBefore(buf, i);
      if Plain() { LinePlain(rules, fed, printed, buf, cont, wroteAny, i); }
      ghost var before := buf;
      buf := rest;
      lines := Emit(line);
      if Plain() { EmittedFits(lines, line, cont, indent, width); }
      if Short() { LineShort(fed, settled, shown, before, cont, indent, width, i, lines); }
      printed := printed + WordsOn(lines);
      shown, settled := shown + lines, settled + line + "\n";
      cont := None;
    }

    /** `flush` leaves the continuation indent alone when there is nothing left to print. */
    method Flush() returns (out: seq<string>)
      requires Valid() && OneLine(buf)
      modifies this
      ensures buf == "" && printed == old(printed) + WordsOn(out) && shown == old(shown) + out
      ensures Plain() ==> printed == Split(fed) && wroteAny == (printed != [])
      ensures Plain() ==> if Blank(old(buf)) then out == [] else Emitted(out, old(buf), old(cont), indent, width)
      ensures Plain() ==> LinesFit(out, width)
      ensures Short() ==> Page(shown, fed, indent, width)
      ensures fed == old(fed)
    {
      hide Split, MarkerFree, Blank, Strip, Lawful, LinesFit, NoLongLine, Emitted, FullLines, Page, OneLine;
      var rest := buf;
      buf := "";
      BlankIff(rest);
      NothingFits(width);
      WordsOnNothing();
      if Strip(rest) == "" {
        if Short() { LastLine(fed, settled, shown, rest, cont, indent, width, []); }
        return [];
      }
      out := Emit(rest);
      if Plain() { EmittedFits(out, rest, cont, indent, width); }
      if Short() { LastLine(fed, settled, shown, rest, cont, indent, width, out); }
      printed := printed + WordsOn(out);
      shown := shown + out;
      cont := None;
    }

    method Prefix(line: string) returns (prefix: string, body: string)
      requires Lawful(rules) && OneLine(line)
      ensures IsSuffix(body, line)
      ensures cont.Some? ==> prefix == cont.value && body == line
      ensures cont.None? && Unstyled(rules, line) ==> prefix == indent && body == line
    {
      hide Split, MarkerFree;
      if cont.Some? { return cont.value, line; }
      var numbered := rules.numbered(line);
      if numbered.Some? { return indent + numbered.value.marker, numbered.value.body; }
      var bullet := rules.bullet(line);
      if bullet.Some? { return indent + bullet.value.marker, bullet.value.body; }
      return indent, line;
    }

    /** Drains visual lines from a long paragraph; each iteration prints at least one whole
        word of the buffer and keeps at least one, so the loop ends. */
    method Drain() returns (out: seq<string>)
      requires Valid() && OneLine(buf)
      modifies this`buf, this`cont, this`wroteAny, this`printed, this`shown
      ensures Valid() && OneLine(buf)
      ensures printed == old(printed) + WordsOn(out) && shown == old(shown) + out
      ensures VisibleLen(old(buf)) <= 3 * width ==> out == [] && buf == old(buf) && cont == old(cont)
      ensures Plain() ==> LinesFit(out, width)
      ensures Plain() ==> VisibleLen(buf) <= 3 * width || Stuck(Behind(), Split(buf), width)
    {
      hide Split, MarkerFree, Blank, Join, VisibleLen, TakeFit, Lawful, Kept, WordsOn, OneLine, LinesFit, NoLongLine,
           OnPage, Stuck;
      WordsOnNothing();
      NothingFits(width);
      out := [];
      assert printed == old(printed) + WordsOn(out);
      while VisibleLen(buf) > DRAIN_AFTER * width
        invariant Valid() && OneLine(buf) && printed == old(printed) + WordsOn(out) && shown == old(shown) + out
        invariant VisibleLen(old(buf)) <= 3 * width ==> out == [] && buf == old(buf) && cont == old(cont)
        invariant Plain() ==> LinesFit(out, width)
        decreases |Split(buf)|
      {
        if Short() { NotShort(fed, settled, shown, buf, cont, indent, width); }
        var line := DrainLine();
        if line.None? { break; }
        WordsOnAppend(out, [line.value]);
        WordsOnOne(line.value);
        if Plain() { OneFits(line.value, width); FitsAppend(out, [line.value], width); }
        out := out + [line.value];
      }
    }

    /** What a drained line of plain text stands behind. */
    ghost function Behind(): string
      reads this
    {
      if cont.Some? then cont.value else indent
    }

    /** One iteration: None when nothing fits yet, or everything does. */
    method DrainLine() returns (line: Option<string>)
      requires Valid() && OneLine(buf) && !Short()
      modifies this`buf, this`cont, this`wroteAny, this`printed, this`shown
      ensures Valid() && OneLine(buf)
      ensures line.None? ==> printed == old(printed) && shown == old(shown) && buf == old(buf) && cont == old(cont)
      ensures line.Some? ==> printed == old(printed) + Split(line.value) && shown == old(shown) + [line.value]
      ensures line.Some? ==> 0 < |Split(buf)| < |Split(old(buf))|
      ensures Plain() && line.None? ==> Stuck(Behind(), Split(buf), width)
      ensures Plain() && line.Some? ==> Drained(line.value, old(Behind()), Split(old(buf)), Split(buf), width)
      ensures Plain() && line.Some? ==> cont == Some(seq(VisibleLen(old(Behind())), _ => ' '))
    {
      hide Split, MarkerFree, Blank, Join, VisibleLen, TakeFit, Lawful, Kept, WordsOn, Unstyled, IsSuffix,
           OneLine, NoLongLine, OnPage, Stuck, Drained;
      var prefix, body := Prefix(buf);
      var trailing := if body != "" && IsSpace(body[|body| - 1]) then " " else "";
      var words := Split(body);
      if Plain() {
        PlainBuffer(rules, fed, printed, buf, cont, wroteAny);
        TakenIs(rules, prefix, buf, width);
      }
      if |words| < 2 { return None; }
      var text, taken := TakeWords(prefix, words);
      if taken == 0 || taken >= |words| { return None; }
      SuffixWords(buf, body);
      RestWords(words[taken..], trailing);
      RestIsOneLine(words[taken..], trailing);
      if Plain() { DrainPlain(rules, fed, printed, buf, cont, wroteAny, prefix, body, indent, taken, trailing); }
      line := Some(prefix + rules.styleInline(text));
      printed := printed + Split(line.value);
      shown := shown + [line.value];
      wroteAny := true;
      cont := Some(Spaces(VisibleLen(prefix)));
      buf := Join(words[taken..]) + trailing;
    }

    method TakeWords(prefix: string, words: seq<string>) returns (line: string, taken: nat)
      requires AllWords(words)
      ensures taken == TakeFit(rules, prefix, words, 0, width) && line == Join(words[..taken])
    {
      hide VisibleLen, Join;
      line, taken := "", 0;
      JoinFew("");
      for i := 0 to |words|
        invariant taken == i && line == Join(words[..i]) && (line == "" <==> i == 0)
        invariant TakeFit(rules, prefix, words, 0, width) == TakeFit(rules, prefix, words, i, width)
      {
        var word := words[i];
        assert IsWord(word);
        var candidate := if line == "" then word else line + " " + word;
        assert words[..i + 1] == words[..i] + [word];
        JoinSnoc(words[..i], word);
        if VisibleLen(prefix + rules.styleInline(candidate)) > width { break; }
        line, taken := candidate, taken + 1;
      }
    }

    method Emit(line: string) returns (rendered: seq<string>)
      requires Lawful(rules)
      modifies this`wroteAny
      ensures wroteAny == (old(wroteAny) || WordsOn(rendered) != [])
      ensures Blank(indent) && MarkerFree(rules, line) && (cont.Some? ==> Blank(cont.value)) ==>
              WordsOn(rendered) == Split(line)
      ensures Blank(indent) && MarkerFree(rules, line) && OneLine(line) && (cont.Some? ==> Blank(cont.value)) ==>
              Emitted(rendered, line, cont, indent, width)
    {
      hide Split, MarkerFree, Blank, Strip, Wrapped, RenderLines, RenderBlock, AnyText, Lawful, OneLine, Emitted,
           WordsOn,
           LaidOut, Dangling;
      if Blank(indent) && MarkerFree(rules, line) { EmitPlain(rules, line, width, indent, cont); }
      if Blank(indent) && MarkerFree(rules, line) && OneLine(line) { EmitsPlain(rules, line, cont, indent, width); }
      if cont.Some? {
        if Strip(line) == "" {
          WordsOnNothing();
          EmitsNothing(line, cont, indent, width);
          return [];
        }
        rendered := WrapText(rules.styleInline(Strip(line)), width, cont.value, cont.value);
      } else {
        rendered := RenderBlock(rules, line, width, indent);
      }
      AnyTextIff(rendered);
      if AnyText(rendered) {
        wroteAny := true;
      }
    }
  }

  /** No line can be drained: there are not two words, or the first does not fit, or all do. */
  ghost predicate Stuck(prefix: string, ws: seq<string>, width: int) {
    || |ws| < 2 || VisibleLen(prefix + ws[0]) > width || VisibleLen(prefix + Join(ws)) <= width
  }

  /** A drained line takes as many words as fit, and leaves the others. */
  ghost predicate Drained(line: string, prefix: string, ws: seq<string>, rest: seq<string>, width: int) {
    && 0 < |rest| < |ws| && rest == ws[|ws| - |rest|..]
    && line == prefix + Join(ws[..|ws| - |rest|]) && VisibleLen(line) <= width
    && VisibleLen(prefix + Join(ws[..|ws| - |rest| + 1])) > width
  }

  lemma EmitsNothing(line: string, cont: Option<string>, indent: string, width: int)
    requires cont.Some? && Strip(line) == ""
    ensures Emitted([], line, cont, indent, width)
  {
    hide Split, Strip;
    BlankIff(line);
  }

  lemma OneFits(line: string, width: int)
    requires VisibleLen(line) <= width
    ensures LinesFit([line], width)
  {
    hide VisibleLen, Split;
  }

  /** The words a plain buffer would give to a drained line. */
  lemma TakenIs(rules: Rules, prefix: string, buf: string, width: int)
    requires Lawful(rules) && MarkerFree(rules, buf)
    ensures var ws := Split(buf);
            var n := TakeFit(rules, prefix, ws, 0, width);
            && (|ws| < 2 || n == 0 || n >= |ws| ==> Stuck(prefix, ws, width))
            && (0 < n < |ws| ==>
                  && rules.styleInline(Join(ws[..n])) == Join(ws[..n])
                  && Drained(prefix + Join(ws[..n]), prefix, ws, ws[n..], width))
  {
    hide Split, VisibleLen, Join, MarkerFree;
    var ws := Split(buf);
    WordsUnstyled(rules, buf);
    TakeFitLaw(rules, prefix, ws, 0, width);
    if |ws| >= 1 {
      assert ws[..1] == [ws[0]];
      JoinFew(ws[0]);
    }
    assert ws[..|ws|] == ws;
  }

  lemma PlainBuffer(rules: Rules, fed: string, printed: seq<string>, buf: string, cont: Option<string>, wrote: bool)
    requires Lawful(rules) && Kept(rules, fed, printed, buf, cont, wrote)
    ensures MarkerFree(rules, buf) && Unstyled(rules, buf)
  {
    hide Split, MarkerFree;
    FreeIsUnstyled(rules, buf);
  }

  lemma LineBefore(buf: string, i: nat)
    requires At(buf, i, "\n") && NoneBefore(buf, i, "\n")
    ensures OneLine(buf[..i]) && buf == buf[..i] + "\n" + buf[i + 1..]
  {
    assert buf[i..i + 1] == "\n";
    forall k | 0 <= k < i ensures buf[k] != '\n' { assert buf[k..k + 1] == [buf[k]] && !At(buf, k, "\n"); }
  }

  /** While no line is long, the chunk goes to the buffer. */
  lemma FeedShort(rules: Rules, fed: string, settled: string, shown: seq<string>, buf: string, cont: Option<string>,
                  indent: string, width: int, chunk: string)
    requires Lawful(rules) && MarkerFree(rules, fed + chunk) && NoLongLine(fed + chunk, 3 * width)
    requires MarkerFree(rules, fed) && NoLongLine(fed, 3 * width) ==>
            OnPage(fed, settled, shown, buf, cont, indent, width)
    ensures OnPage(fed + chunk, settled, shown, rules.splitRunOn(buf + chunk), cont, indent, width)
  {
    hide MarkerFree, NoLongLine, FullLines;
    ShorterText(fed, chunk, 3 * width);
    FreeOfSlice(rules, fed + chunk, 0, |fed|);
    assert (fed + chunk)[0..|fed|] == fed;
    FreeOfSlice(rules, fed + chunk, |settled|, |fed + chunk|);
    assert (fed + chunk)[|settled|..|fed + chunk|] == buf + chunk;
    FreeIsUnstyled(rules, buf + chunk);
  }

  lemma LineShort(fed: string, settled: string, shown: seq<string>, buf: string, cont: Option<string>, indent: string,
                  width: int, i: nat, lines: seq<string>)
    requires OnPage(fed, settled, shown, buf, cont, indent, width)
    requires i < |buf| && OneLine(buf[..i]) && buf == buf[..i] + "\n" + buf[i + 1..]
    requires Emitted(lines, buf[..i], cont, indent, width)
    ensures OnPage(fed, settled + buf[..i] + "\n", shown + lines, buf[i + 1..], None, indent, width)
  {
    hide FullLines, Paragraph, OneLine;
    CompleteOne(shown, settled, lines, buf[..i], indent, width);
    assert settled + (buf[..i] + "\n" + buf[i + 1..]) == (settled + buf[..i] + "\n") + buf[i + 1..];
  }

  lemma LastLine(fed: string, settled: string, shown: seq<string>, rest: string, cont: Option<string>, indent: string,
                 width: int, out: seq<string>)
    requires OnPage(fed, settled, shown, rest, cont, indent, width) && OneLine(rest)
    requires if Blank(rest) then out == [] else Emitted(out, rest, cont, indent, width)
    ensures Page(shown + out, fed, indent, width)
  {
    hide FullLines, Paragraph, OneLine, Blank;
  }

  /** A buffer that is long enough to be drained holds a long line. */
  lemma NotShort(fed: string, settled: string, shown: seq<string>, buf: string, cont: Option<string>, indent: string,
                 width: int)
    requires OnPage(fed, settled, shown, buf, cont, indent, width) && OneLine(buf) && NoLongLine(fed, 3 * width)
    ensures VisibleLen(buf) <= 3 * width
  {
    hide FullLines, VisibleLen, OneLine;
    ShorterText(settled, buf, 3 * width);
    VisibleAtMost(buf);
  }

  lemma FreeIsUnstyled(rules: Rules, s: string)
    requires Lawful(rules) && MarkerFree(rules, s)
    ensures Unstyled(rules, s)
  {
  }

  lemma WordsOnOne(line: string)
    ensures WordsOn([line]) == Split(line)
  {
    hide Split;
    assert WordsOn([line]) == Split(line) + WordsOn([]);
  }

  lemma SpacesBlank(n: nat)
    ensures Blank(Spaces(n))
  {
    assert IsSpace(' ');
  }

  lemma NoNewline(s: string)
    requires Find(s, "\n") == -1
    ensures OneLine(s)
  {
    FindLaw(s, "\n");
    forall i | 0 <= i < |s| ensures s[i] != '\n' { assert s[i..i + 1] == [s[i]] && !At(s, i, "\n"); }
  }

  lemma {:induction false} JoinIsOneLine(ws: seq<string>)
    requires AllWords(ws)
    ensures OneLine(Join(ws))
  {
    assert IsSpace('\n');
    if |ws| > 1 { JoinIsOneLine(ws[..|ws| - 1]); }
    if ws != [] { assert IsWord(ws[|ws| - 1]); }
  }

  lemma RestIsOneLine(ws: seq<string>, trailing: string)
    requires AllWords(ws) && (trailing == "" || trailing == " ")
    ensures OneLine(Join(ws) + trailing)
  {
    hide Join;
    JoinIsOneLine(ws);
  }

  lemma WordsOnNothing()
    ensures WordsOn([]) == []
  {
  }

  lemma FeedPlain(rules: Rules, fed: string, printed: seq<string>, buf: string, cont: Option<string>, wrote: bool,
                  chunk: string)
    requires Lawful(rules) && MarkerFree(rules, fed + chunk)
    requires MarkerFree(rules, fed) ==> Kept(rules, fed, printed, buf, cont, wrote)
    ensures Kept(rules, fed + chunk, printed, rules.splitRunOn(buf + chunk), cont, wrote)
  {
    hide Split;
    FreeOfSlice(rules, fed + chunk, 0, |fed|);
    assert (fed + chunk)[0..|fed|] == fed;
    FreeOfSlice(rules, fed + chunk, |fed|, |fed + chunk|);
    assert (fed + chunk)[|fed|..] == chunk;
    FreeIsUnstyled(rules, buf + chunk);
    SplitCongruence(fed, printed, buf, chunk);
  }

  /** A completed line: its words, then those of the rest of the buffer. */
  lemma LinePlain(rules: Rules, fed: string, printed: seq<string>, buf: string, cont: Option<string>, wrote: bool,
                  i: nat)
    requires Kept(rules, fed, printed, buf, cont, wrote) && At(buf, i, "\n")
    ensures MarkerFree(rules, buf[..i]) && (cont.Some? ==> Blank(cont.value))
    ensures Kept(rules, fed, printed + Split(buf[..i]), buf[i + 1..], None, wrote || Split(buf[..i]) != [])
  {
    hide Split, MarkerFree, Blank;
    SplitAtNewline(buf, i);
    FreeOfSlice(rules, buf, 0, i);
    FreeOfSlice(rules, buf, i + 1, |buf|);
    assert buf[0..i] == buf[..i] && buf[i + 1..|buf|] == buf[i + 1..];
    assert printed + (Split(buf[..i]) + Split(buf[i + 1..])) == (printed + Split(buf[..i])) + Split(buf[i + 1..]);
  }

  lemma RestWords(ws: seq<string>, trailing: string)
    requires AllWords(ws) && ws != [] && (trailing == "" || trailing == " ")
    ensures Split(Join(ws) + trailing) == ws
    ensures Open(Join(ws) + trailing) == (trailing == "")
  {
    hide Split, Join;
    SplitJoin(ws);
    SplitTrailingBlank(Join(ws), trailing);
    if trailing == "" { assert Join(ws) + trailing == Join(ws); }
  }

  /** One drained line of plain text: its words move from the buffer to the output. */
  lemma DrainPlain(rules: Rules, fed: string, printed: seq<string>, buf: string, cont: Option<string>, wrote: bool,
                   prefix: string, body: string, indent: string, taken: nat, trailing: string)
    requires Lawful(rules) && Kept(rules, fed, printed, buf, cont, wrote) && Blank(indent)
    requires cont.Some? ==> prefix == cont.value && body == buf
    requires cont.None? && Unstyled(rules, buf) ==> prefix == indent && body == buf
    requires 0 < taken < |Split(body)| && trailing == (if Open(body) || body == "" then "" else " ")
    ensures var ws := Split(body);
            var line := prefix + rules.styleInline(Join(ws[..taken]));
            var rest := Join(ws[taken..]) + trailing;
            Kept(rules, fed, printed + Split(line), rest, Some(Spaces(VisibleLen(prefix))), true)
  {
    hide Split, Join, Blank, MarkerFree, VisibleLen;
    FreeIsUnstyled(rules, buf);
    assert Blank(prefix) && body == buf;
    var ws := Split(buf);
    PlainLine(rules, prefix, ws[..taken], ws[taken..], buf, trailing);
    SpacesBlank(VisibleLen(prefix));
    RestWords(ws[taken..], trailing);
    assert ws == ws[..taken] + ws[taken..];
    assert printed + ws == (printed + ws[..taken]) + ws[taken..];
    NonemptySplit(buf);
  }

  lemma NonemptySplit(s: string)
    ensures Split(s) != [] ==> s != ""
  {
  }

  lemma PlainLine(rules: Rules, prefix: string, a: seq<string>, b: seq<string>, buf: string, trailing: string)
    requires Lawful(rules) && MarkerFree(rules, buf) && Blank(prefix)
    requires Split(buf) == a + b && (trailing == "" || trailing == " ")
    ensures Split(prefix + rules.styleInline(Join(a))) == a
    ensures MarkerFree(rules, Join(b) + trailing)
  {
    hide Split, Join, Blank, MarkerFree;
    SplitFree(rules, buf);
    assert forall i :: 0 <= i < |a| ==> a[i] == Split(buf)[i];
    assert forall i :: 0 <= i < |b| ==> b[i] == Split(buf)[|a| + i];
    JoinFree(rules, a);
    JoinFree(rules, b);
    FreeIsUnstyled(rules, Join(a));
    SplitLeadingBlank(prefix, Join(a));
    SplitJoin(a);
    FreeConcat(rules, Join(b), trailing);
  }

  lemma FreeBefore(rules: Rules, s: string, d: string)
    requires MarkerFree(rules, s + d)
    ensures MarkerFree(rules, s)
  {
    assert forall i :: 0 <= i < |s| ==> s[i] == (s + d)[i];
  }

  lemma FreeConcat(rules: Rules, s: string, trailing: string)
    requires MarkerFree(rules, s) && !rules.decimal(' ') && (trailing == "" || trailing == " ")
    ensures MarkerFree(rules, s + trailing)
  {
  }

  lemma EmitPlain(rules: Rules, line: string, width: int, indent: string, cont: Option<string>)
    requires Lawful(rules) && MarkerFree(rules, line) && Blank(indent)
    ensures WordsOn(RenderBlock(rules, line, width, indent)) == Split(line)
    ensures Strip(line) == "" <==> Split(line) == []
    ensures cont.Some? && Blank(cont.value) ==>
            WordsOn(Wrapped(rules.styleInline(Strip(line)), width, cont.value, cont.value)) == Split(line)
  {
    hide Split, MarkerFree, Blank, Strip, Wrapped, RenderLines;
    FreeIsUnstyled(rules, line);
    RenderLinesWords(rules, line, width, indent);
    BlankIff(line);
    StripFree(rules, line);
    FreeIsUnstyled(rules, Strip(line));
    SplitStrip(line);
    if cont.Some? && Blank(cont.value) {
      WrapKeepsWords(Strip(line), width, cont.value, cont.value);
    }
  }

  /** The consumer: feed every chunk, flush once. For text without Markdown characters and
      digits, the printed lines show exactly the words of the text, in order, for every way
      of cutting it, cuts inside words included. */
  method RenderStream(width: int, rules: Rules, indent: string, chunks: seq<string>)
    returns (lines: seq<string>, wroteAny: bool)
    requires Lawful(rules)
    ensures Blank(indent) && MarkerFree(rules, Concat(chunks)) ==> WordsOn(lines) == Split(Concat(chunks))
    ensures Blank(indent) && MarkerFree(rules, Concat(chunks)) ==> wroteAny == !Blank(Concat(chunks))
    ensures Blank(indent) && MarkerFree(rules, Concat(chunks)) ==> LinesFit(lines, width)
    ensures Blank(indent) && MarkerFree(rules, Concat(chunks)) && NoLongLine(Concat(chunks), 3 * width) ==>
            Page(lines, Concat(chunks), indent, width)
  {
    hide Split, MarkerFree, Blank, Lawful, WordsOn, LinesFit, NoLongLine, OnPage, Page, OneLine, Emitted;
    WordsOnNothing();
    EmptyIsBlank();
    NothingFits(width);
    var r := new ReplyRenderer(width, rules, indent);
    lines := [];
    for i := 0 to |chunks|
      invariant r.Valid() && OneLine(r.buf) && r.rules == rules && r.indent == indent && r.width == width && fresh(r)
      invariant r.fed == Concat(chunks[..i]) && r.printed == WordsOn(lines) && r.shown == lines
      invariant r.Plain() ==> LinesFit(lines, width)
    {
      ghost var before := r.fed;
      var out := r.Feed(chunks[i]);
      WordsOnAppend(lines, out);
      if r.Plain() {
        FreeBefore(rules, before, chunks[i]);
        FitsAppend(lines, out, width);
      }
      lines := lines + out;
      assert chunks[..i + 1] == chunks[..i] + [chunks[i]];
      ConcatSnoc(chunks[..i], chunks[i]);
    }
    assert chunks[..|chunks|] == chunks;
    var out := r.Flush();
    WordsOnAppend(lines, out);
    if r.Plain() { FitsAppend(lines, out, width); }
    lines := lines + out;
    BlankIff(Concat(chunks));
    wroteAny := r.wroteAny;
  }
}
