/** The parts of Python's `str` the program relies on: first occurrence
    (`find`), whitespace splitting (`split`), joining with a blank, and stripping. */
module PyText {

  // ----- find -----

  /** `pat` occurs in `t` at index `i`. */
  predicate At<T(==)>(t: seq<T>, i: nat, pat: seq<T>) {
    i + |pat| <= |t| && t[i..i + |pat|] == pat
  }

  /** `pat` occurs in `t` nowhere before index `n`. */
  ghost predicate NoneBefore<T>(t: seq<T>, n: nat, pat: seq<T>) {
    forall k: nat {:trigger At(t, k, pat)} :: k < n ==> !At(t, k, pat)
  }

  function FindFrom<T(==)>(t: seq<T>, i: nat, pat: seq<T>): (r: int)
    requires i <= |t|
    ensures r == -1 || i <= r <= |t| - |pat|
    decreases |t| - i
  {
    if At(t, i, pat) then i
    else if i == |t| then -1
    else FindFrom(t, i + 1, pat)
  }

  /** `t.find(pat)`: the first index at which `pat` occurs, or -1. */
  function Find<T(==)>(t: seq<T>, pat: seq<T>): (r: int)
    ensures r == -1 || 0 <= r <= |t| - |pat|
  {
    FindFrom(t, 0, pat)
  }

  lemma {:induction false} FindFromLaw<T>(t: seq<T>, i: nat, pat: seq<T>)
    requires i <= |t| && NoneBefore(t, i, pat)
    ensures var r := FindFrom(t, i, pat);
            if r == -1 then NoneBefore(t, |t| + 1, pat) else At(t, r, pat) && NoneBefore(t, r, pat)
    decreases |t| - i
  {
    if !At(t, i, pat) && i < |t| {
      FindFromLaw(t, i + 1, pat);
    }
  }

  lemma FindLaw<T>(t: seq<T>, pat: seq<T>)
    ensures var r := Find(t, pat);
            if r == -1 then NoneBefore(t, |t| + 1, pat) else At(t, r, pat) && NoneBefore(t, r, pat)
  {
    FindFromLaw(t, 0, pat);
  }

  /** The first occurrence is unique, so any index that looks like it is it. */
  lemma FindIs<T>(t: seq<T>, pat: seq<T>, i: nat)
    requires At(t, i, pat) && NoneBefore(t, i, pat)
    ensures Find(t, pat) == i
  {
    FindLaw(t, pat);
  }

  lemma FindNone<T>(t: seq<T>, pat: seq<T>)
    requires NoneBefore(t, |t| + 1, pat)
    ensures Find(t, pat) == -1
  {
    FindLaw(t, pat);
  }

  /** Occurrences that lie inside a prefix are occurrences of the whole. */
  lemma AtPrefix<T>(t: seq<T>, d: seq<T>, i: nat, pat: seq<T>)
    requires i + |pat| <= |t|
    ensures At(t + d, i, pat) == At(t, i, pat)
  {
    assert (t + d)[i..i + |pat|] == t[i..i + |pat|];
  }

  lemma AtSuffix<T>(e: seq<T>, t: seq<T>, i: nat, pat: seq<T>)
    ensures At(e + t, |e| + i, pat) == At(t, i, pat)
  {
    if i + |pat| <= |t| {
      assert (e + t)[|e| + i..|e| + i + |pat|] == t[i..i + |pat|];
    }
  }

  // ----- concatenation of a list of strings -----

  function Concat<T>(parts: seq<seq<T>>): seq<T> {
    if parts == [] then [] else parts[0] + Concat(parts[1..])
  }

  lemma {:induction false} ConcatAppend<T>(a: seq<seq<T>>, b: seq<seq<T>>)
    ensures Concat(a + b) == Concat(a) + Concat(b)
  {
    if a == [] {
      assert a + b == b;
    } else {
      assert (a + b)[0] == a[0] && (a + b)[1..] == a[1..] + b;
      ConcatAppend(a[1..], b);
      assert a[0] + (Concat(a[1..]) + Concat(b)) == (a[0] + Concat(a[1..])) + Concat(b);
    }
  }

  lemma ConcatSnoc<T>(a: seq<seq<T>>, x: seq<T>)
    ensures Concat(a + [x]) == Concat(a) + x
  {
    ConcatAppend(a, [x]);
    assert [x][1..] == [] && Concat([x]) == x + Concat<T>([]);
    assert x + [] == x;
  }

  // ----- whitespace -----

  /** The code points `str.isspace` (and the regex class `\s`) accept. */
  predicate SpaceCode(n: int) {
    9 <= n <= 13 || 28 <= n <= 32 || n == 0x85 || n == 0xA0 || n == 0x1680 ||
    0x2000 <= n <= 0x200A || n == 0x2028 || n == 0x2029 || n == 0x202F || n == 0x205F || n == 0x3000
  }

  predicate IsSpace(c: char) {
    SpaceCode(c as int)
  }

  predicate Blank(s: string) {
    forall i :: 0 <= i < |s| ==> IsSpace(s[i])
  }

  /** A nonempty string without whitespace. */
  predicate IsWord(w: string) {
    w != "" && forall i :: 0 <= i < |w| ==> !IsSpace(w[i])
  }

  predicate AllWords(ws: seq<string>) {
    forall i :: 0 <= i < |ws| ==> IsWord(ws[i])
  }

  /** The last word of `s` could still grow if more text arrived. */
  predicate Open(s: string) {
    s != "" && !IsSpace(s[|s| - 1])
  }

  function LStrip(s: string): string {
    if s != "" && IsSpace(s[0]) then LStrip(s[1..]) else s
  }

  function RStrip(s: string): string {
    if s != "" && IsSpace(s[|s| - 1]) then RStrip(s[..|s| - 1]) else s
  }

  function Strip(s: string): string {
    RStrip(LStrip(s))
  }

  /** `s.split()`: the maximal whitespace-free runs of `s`, in order. */
  function Split(s: string): (ws: seq<string>)
    ensures AllWords(ws)
    ensures Open(s) ==> ws != []
  {
    if s == "" then []
    else
      var init, c := s[..|s| - 1], s[|s| - 1];
      var ws := Split(init);
      if IsSpace(c) then ws
      else if Open(init) then ws[..|ws| - 1] + [ws[|ws| - 1] + [c]]
      else ws + [[c]]
  }

  /** `" ".join(ws)` */
  function Join(ws: seq<string>): string {
    if ws == [] then ""
    else if |ws| == 1 then ws[0]
    else Join(ws[..|ws| - 1]) + " " + ws[|ws| - 1]
  }

  function Snoc(ws: seq<string>, open: bool, c: char): seq<string> {
    if IsSpace(c) then ws
    else if open && ws != [] then ws[..|ws| - 1] + [ws[|ws| - 1] + [c]]
    else ws + [[c]]
  }

  lemma SplitSnoc(s: string, c: char)
    ensures Split(s + [c]) == Snoc(Split(s), Open(s), c)
    ensures Open(s + [c]) == !IsSpace(c)
  {
    assert (s + [c])[..|s + [c]| - 1] == s;
  }

  /** Replacing a prefix by one with the same last words and the same open end
      changes nothing about the words that come after it. */
  lemma {:induction false} SplitCongruence(a: string, p: seq<string>, b: string, d: string)
    requires Split(a) == p + Split(b) && Open(a) == Open(b)
    ensures Split(a + d) == p + Split(b + d) && Open(a + d) == Open(b + d)
    decreases |d|
  {
    if d == "" {
      assert a + d == a && b + d == b;
    } else {
      var e, c := d[..|d| - 1], d[|d| - 1];
      SplitCongruence(a, p, b, e);
      assert a + d == (a + e) + [c] && b + d == (b + e) + [c];
      SplitSnoc(a + e, c);
      SplitSnoc(b + e, c);
      SnocPrefix(p, Split(b + e), Open(b + e), c);
    }
  }

  lemma SnocPrefix(p: seq<string>, ws: seq<string>, open: bool, c: char)
    requires open ==> ws != []
    ensures Snoc(p + ws, open, c) == p + Snoc(ws, open, c)
  {
    if !IsSpace(c) && open {
      assert (p + ws)[..|p + ws| - 1] == p + ws[..|ws| - 1];
    }
  }

  /** Text after a closed end splits on its own. */
  lemma SplitClosed(a: string, d: string)
    requires !Open(a)
    ensures Split(a + d) == Split(a) + Split(d)
  {
    assert Split(a) == Split(a) + Split("");
    SplitCongruence(a, Split(a), "", d);
    assert "" + d == d;
  }

  lemma {:induction false} SplitBlank(s: string)
    requires Blank(s)
    ensures Split(s) == [] && !Open(s)
  {
    if s != "" {
      SplitBlank(s[..|s| - 1]);
    }
  }

  lemma {:induction false} SplitWord(w: string)
    requires IsWord(w)
    ensures Split(w) == [w]
  {
    hide Split;
    var init, c := w[..|w| - 1], w[|w| - 1];
    assert w == init + [c];
    SplitSnoc(init, c);
    if init == "" {
      SplitBlank(init);
    } else {
      SplitWord(init);
    }
  }

  lemma SplitTrailingBlank(s: string, b: string)
    requires Blank(b)
    ensures Split(s + b) == Split(s)
    ensures b != "" ==> !Open(s + b)
  {
    if b != "" {
      var c := b[..|b| - 1];
      SplitTrailingBlank(s, c);
      assert (s + b)[..|s + b| - 1] == s + c;
    } else {
      assert s + b == s;
    }
  }

  lemma SplitLeadingBlank(b: string, s: string)
    requires Blank(b)
    ensures Split(b + s) == Split(s)
  {
    SplitBlank(b);
    SplitClosed(b, s);
  }

  lemma SplitJoinOne(s: string, w: string)
    requires IsWord(w)
    ensures Split(s + " " + w) == Split(s) + [w]
  {
    SplitTrailingBlank(s, " ");
    SplitClosed(s + " ", w);
    SplitWord(w);
  }

  /** Joining words with blanks and splitting gives the words back. */
  lemma {:induction false} SplitJoin(ws: seq<string>)
    requires AllWords(ws)
    ensures Split(Join(ws)) == ws
    ensures Open(Join(ws)) == (ws != [])
  {
    hide Split;
    if ws == [] {
      SplitBlank("");
    } else if |ws| == 1 {
      SplitWord(ws[0]);
      assert ws == [ws[0]];
    } else {
      var init, w := ws[..|ws| - 1], ws[|ws| - 1];
      SplitJoin(init);
      SplitJoinOne(Join(init), w);
      assert ws == init + [w];
    }
  }

  lemma {:induction false} StripLaw(s: string)
    ensures Split(LStrip(s)) == Split(s)
  {
    if s != "" && IsSpace(s[0]) {
      StripLaw(s[1..]);
      assert s == [s[0]] + s[1..];
      SplitLeadingBlank([s[0]], s[1..]);
    }
  }

  lemma {:induction false} RStripLaw(s: string)
    ensures Split(RStrip(s)) == Split(s)
  {
    if s != "" && IsSpace(s[|s| - 1]) {
      RStripLaw(s[..|s| - 1]);
    }
  }

  lemma SplitStrip(s: string)
    ensures Split(Strip(s)) == Split(s)
  {
    StripLaw(s);
    RStripLaw(LStrip(s));
  }

  /** A string is blank exactly when it has no words, which is when stripping empties it. */
  lemma {:induction false} BlankIff(s: string)
    ensures Blank(s) <==> Split(s) == []
    ensures Blank(s) <==> Strip(s) == ""
  {
    SplitStrip(s);
    if Blank(s) {
      SplitBlank(s);
      NoWordsIsBlank(Strip(s));
      StripEnds(s);
    } else {
      if Split(s) == [] {
        NoWordsIsBlank(s);
      }
    }
  }

  lemma {:induction false} NoWordsIsBlank(s: string)
    requires Split(s) == []
    ensures Blank(s)
  {
    if s != "" {
      NoWordsIsBlank(s[..|s| - 1]);
    }
  }

  /** A stripped string neither starts nor ends with whitespace. */
  lemma {:induction false} StripEnds(s: string)
    ensures Strip(s) == "" || (!IsSpace(Strip(s)[0]) && !IsSpace(Strip(s)[|Strip(s)| - 1]))
  {
    LStripEnd(s);
    RStripEnd(LStrip(s));
  }

  lemma StripTwice(s: string)
    ensures Strip(Strip(s)) == Strip(s)
  {
    StripEnds(s);
  }

  lemma {:induction false} LStripEnd(s: string)
    ensures LStrip(s) == "" || !IsSpace(LStrip(s)[0])
  {
    if s != "" && IsSpace(s[0]) { LStripEnd(s[1..]); }
  }

  lemma {:induction false} RStripEnd(s: string)
    ensures RStrip(s) <= s
    ensures RStrip(s) == "" || !IsSpace(RStrip(s)[|RStrip(s)| - 1])
  {
    if s != "" && IsSpace(s[|s| - 1]) { RStripEnd(s[..|s| - 1]); }
  }

  // ----- numbers in f-strings -----

  function Decimal(n: nat): string {
    if n < 10 then ["0123456789"[n]] else Decimal(n / 10) + ["0123456789"[n % 10]]
  }

  /** Reading decimal digits. */
  function Value(digits: string): int {
    if digits == "" then 0 else Value(digits[..|digits| - 1]) * 10 + (digits[|digits| - 1] as int - '0' as int)
  }

  lemma {:induction false} DecimalIs(n: nat)
    ensures Value(Decimal(n)) == n && Decimal(n) != "" && forall i :: 0 <= i < |Decimal(n)| ==>
            '0' <= Decimal(n)[i] <= '9'
  {
    DigitIs(n % 10);
    if n < 10 {
      assert Decimal(n)[..0] == "";
    } else {
      DecimalIs(n / 10);
      assert Decimal(n)[..|Decimal(n)| - 1] == Decimal(n / 10);
    }
  }

  lemma DigitIs(d: nat)
    requires d < 10
    ensures var c := "0123456789"[d]; '0' <= c <= '9' && c as int - '0' as int == d
  {
  }

  /** Stripping takes only whitespace away, and all of it at both ends. */
  lemma StripIs(s: string)
    ensures exists a, b :: Blank(a) && Blank(b) && s == a + Strip(s) + b
    ensures Strip(s) != "" ==> !IsSpace(Strip(s)[0]) && !IsSpace(Strip(s)[|Strip(s)| - 1])
  {
    var a := LStripIs(s);
    var b := RStripIs(LStrip(s));
    StripEnds(s);
    assert s == a + Strip(s) + b;
  }

  lemma {:induction false} LStripIs(s: string) returns (a: string)
    ensures Blank(a) && s == a + LStrip(s)
  {
    if s != "" && IsSpace(s[0]) {
      a := LStripIs(s[1..]);
      a := [s[0]] + a;
    } else {
      a := "";
    }
  }

  lemma {:induction false} RStripIs(s: string) returns (b: string)
    ensures Blank(b) && s == RStrip(s) + b
  {
    if s != "" && IsSpace(s[|s| - 1]) {
      b := RStripIs(s[..|s| - 1]);
      b := b + [s[|s| - 1]];
    } else {
      b := "";
    }
  }

  /** Among the ASCII characters, the whitespace is tab to carriage return, the four separators,
      and the blank. */
  lemma AsciiSpace(c: char)
    requires c as int < 128
    ensures IsSpace(c) <==> '\t' <= c <= '\r' || '\U{1C}' <= c <= '\U{1F}' || c == ' '
  {
  }

  function DecimalInt(n: int): string {
    if n < 0 then "-" + Decimal(-n) else Decimal(n)
  }
}
