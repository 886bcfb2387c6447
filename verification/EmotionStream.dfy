/** `EmotionResponseParser`: exposes the emotion of a streamed JSON object as soon as it is
    complete, then speaks the decoded response text while hiding the scaffolding. Python
    strings are sequences of code points and may hold lone surrogates, so they are modelled
    as sequences of numbers. */
module EmotionStream {
  import opened Options
  import opened PyText

  type Code = n: int | 0 <= n < 0x110000
  type Str = seq<Code>

  const QUOTE: Code := 34
  const BACKSLASH: Code := 92
  const COLON: Code := 58
  const COMMA: Code := 44
  const NEWLINE: Code := 10
  const LETTER_U: Code := 117

  const EMOTION: Str := [101, 109, 111, 116, 105, 111, 110]
  const RESPONSE: Str := [114, 101, 115, 112, 111, 110, 115, 101]

  // ----- the two anchored patterns -----

  /** `"emotion"\s*:\s*"((?:\\.|[^"\\])*)"` and `"response"\s*:\s*"` */
  datatype Pattern = EmotionPattern | ResponsePattern

  function Name(pat: Pattern): (n: Str)
    ensures PlainName(n)
  {
    if pat.EmotionPattern? then EMOTION else RESPONSE
  }

  predicate PlainName(n: Str) {
    n != [] && forall i :: 0 <= i < |n| ==>
      n[i] != QUOTE && n[i] != BACKSLASH && n[i] != COLON && n[i] != COMMA && !SpaceCode(n[i])
  }

  /** The group of a match, and the index just behind the match. */
  datatype Match = Match(group: nat, groupEnd: nat, end: nat)

  function SkipSpace(s: Str, i: nat): (r: nat)
    requires i <= |s|
    ensures i <= r <= |s|
    decreases |s| - i
  {
    if i < |s| && SpaceCode(s[i]) then SkipSpace(s, i + 1) else i
  }

  /** The end of a `"name"\s*:\s*"` that starts at `p`. */
  function KeyAt(s: Str, p: nat, name: Str): (r: Option<nat>)
    ensures r.Some? ==> p + |name| + 4 <= r.value <= |s|
  {
    if !At(s, p, [QUOTE] + name + [QUOTE]) then None
    else
      var i := SkipSpace(s, p + |name| + 2);
      if i == |s| || s[i] != COLON then None
      else
        var j := SkipSpace(s, i + 1);
        if j == |s| || s[j] != QUOTE then None else Some(j + 1)
  }

  /** The quote that closes a string content starting at `i`. */
  function ContentEnd(s: Str, i: nat): (r: Option<nat>)
    ensures r.Some? ==> i <= r.value < |s| && s[r.value] == QUOTE
    decreases |s| - i
  {
    if i >= |s| then None
    else if s[i] == QUOTE then Some(i)
    else if s[i] == BACKSLASH then
      if i + 1 < |s| && s[i + 1] != NEWLINE then ContentEnd(s, i + 2) else None
    else ContentEnd(s, i + 1)
  }

  function MatchAt(pat: Pattern, s: Str, p: nat): (r: Option<Match>)
    ensures r.Some? ==> p < r.value.group <= r.value.groupEnd <= r.value.end <= |s|
  {
    match KeyAt(s, p, Name(pat))
    case None => None
    case Some(j) =>
      if pat.ResponsePattern? then Some(Match(j, j, j))
      else match ContentEnd(s, j)
        case None => None
        case Some(k) => Some(Match(j, k, k + 1))
  }

  /** `pattern.search(s)` from index `p` on: the leftmost match. */
  function SearchFrom(pat: Pattern, s: Str, p: nat): (r: Option<Match>)
    ensures r.Some? ==> r.value.group <= r.value.groupEnd <= r.value.end <= |s|
    decreases |s| - p
  {
    if p >= |s| then None
    else if MatchAt(pat, s, p).Some? then MatchAt(pat, s, p)
    else SearchFrom(pat, s, p + 1)
  }

  function Search(pat: Pattern, s: Str): (r: Option<Match>)
    ensures r.Some? ==> r.value.group <= r.value.groupEnd <= r.value.end <= |s|
  {
    SearchFrom(pat, s, 0)
  }

  // ----- matches do not depend on what comes behind them -----

  lemma {:induction false} SkipSpaceLocal(s: Str, d: Str, i: nat)
    requires i <= |s|
    ensures SkipSpace(s, i) < |s| ==> SkipSpace(s + d, i) == SkipSpace(s, i)
    ensures SkipSpace(s + d, i) < |s| ==> SkipSpace(s, i) == SkipSpace(s + d, i)
    decreases |s| - i
  {
    if i < |s| && SpaceCode(s[i]) { SkipSpaceLocal(s, d, i + 1); }
  }

  lemma {:induction false} SkipSpaceSkips(s: Str, i: nat, x: nat)
    requires i <= |s| && i <= x < SkipSpace(s, i)
    ensures SpaceCode(s[x])
    decreases |s| - i
  {
    if i < x { SkipSpaceSkips(s, i + 1, x); }
  }

  lemma {:induction false} SkipSpaceIs(s: Str, i: nat, j: nat)
    requires i <= j < |s| && !SpaceCode(s[j])
    requires forall x :: i <= x < j ==> SpaceCode(s[x])
    ensures SkipSpace(s, i) == j
    decreases j - i
  {
    if i < j { SkipSpaceIs(s, i + 1, j); }
  }

  lemma KeyLocal(s: Str, d: Str, p: nat, name: Str)
    ensures KeyAt(s, p, name).Some? ==> KeyAt(s + d, p, name) == KeyAt(s, p, name)
    ensures KeyAt(s + d, p, name).Some? && KeyAt(s + d, p, name).value <= |s| ==>
            KeyAt(s, p, name) == KeyAt(s + d, p, name)
  {
    hide SkipSpace, At;
    var key := [QUOTE] + name + [QUOTE];
    if p + |key| <= |s| {
      AtPrefix(s, d, p, key);
      var i := p + |key|;
      SkipSpaceLocal(s, d, i);
      if SkipSpace(s, i) < |s| { SkipSpaceLocal(s, d, SkipSpace(s, i) + 1); }
    } else {
      AtFits(s, p, key);
    }
  }

  lemma AtFits(s: Str, p: nat, pat: Str)
    requires p + |pat| > |s|
    ensures !At(s, p, pat)
  {
  }

  lemma {:induction false} ContentLocal(s: Str, d: Str, i: nat)
    ensures ContentEnd(s, i).Some? ==> ContentEnd(s + d, i) == ContentEnd(s, i)
    ensures ContentEnd(s + d, i).Some? && ContentEnd(s + d, i).value < |s| ==> ContentEnd(s, i) == ContentEnd(s + d, i)
    decreases |s| - i
  {
    if i < |s| && s[i] != QUOTE {
      if s[i] == BACKSLASH { ContentLocal(s, d, i + 2); } else { ContentLocal(s, d, i + 1); }
    }
  }

  lemma MatchLocal(pat: Pattern, s: Str, d: Str, p: nat)
    ensures MatchAt(pat, s, p).Some? ==> MatchAt(pat, s + d, p) == MatchAt(pat, s, p)
    ensures MatchAt(pat, s + d, p).Some? && MatchAt(pat, s + d, p).value.end <= |s| ==>
            MatchAt(pat, s, p) == MatchAt(pat, s + d, p)
  {
    hide KeyAt, ContentEnd;
    KeyLocal(s, d, p, Name(pat));
    match KeyAt(s, p, Name(pat)) {
      case Some(j) => ContentLocal(s, d, j);
      case None =>
        match KeyAt(s + d, p, Name(pat)) {
          case Some(j) => ContentLocal(s, d, j);
          case None =>
        }
    }
  }

  // ----- an earlier start has an earlier end -----

  /** A quote strictly inside a content is escaped. */
  lemma {:induction false} InnerQuoteEscaped(s: Str, i: nat, q: nat)
    requires ContentEnd(s, i).Some? && i <= q < ContentEnd(s, i).value && s[q] == QUOTE
    ensures i < q && s[q - 1] == BACKSLASH
    decreases |s| - i
  {
    if s[i] == BACKSLASH {
      if q > i + 1 { InnerQuoteEscaped(s, i + 2, q); }
    } else {
      InnerQuoteEscaped(s, i + 1, q);
    }
  }

  /** Where the characters of a matched key are. */
  lemma KeyShape(s: Str, p: nat, name: Str)
    requires KeyAt(s, p, name).Some?
    ensures var i := SkipSpace(s, p + |name| + 2);
            && i < |s| && s[i] == COLON
            && KeyAt(s, p, name) == Some(SkipSpace(s, i + 1) + 1)
            && SkipSpace(s, i + 1) < |s| && s[SkipSpace(s, i + 1)] == QUOTE
    ensures s[p] == QUOTE && s[p + |name| + 1] == QUOTE
    ensures forall x :: p < x <= p + |name| ==> s[x] == name[x - p - 1]
  {
    hide SkipSpace;
    var key := [QUOTE] + name + [QUOTE];
    var w := s[p..p + |key|];
    assert w[0] == QUOTE && w[|name| + 1] == QUOTE;
    forall x | p < x <= p + |name| ensures s[x] == name[x - p - 1] { assert w[x - p] == key[x - p]; }
  }

  /** Between a key and its opening quote there is no other quote. */
  lemma NextQuote(s: Str, p: nat, name: Str, q: nat)
    requires PlainName(name) && KeyAt(s, p, name).Some?
    requires p < q < |s| && s[q] == QUOTE
    ensures q == p + |name| + 1 || q >= KeyAt(s, p, name).value - 1
  {
    hide SkipSpace, KeyAt, PlainName;
    KeyShape(s, p, name);
    NameAt(s, p, name);
    var i := SkipSpace(s, p + |name| + 2);
    if p + |name| + 1 < q < i { SkipSpaceSkips(s, p + |name| + 2, q); }
    if i < q < SkipSpace(s, i + 1) { SkipSpaceSkips(s, i + 1, q); }
  }

  lemma NameAt(s: Str, p: nat, name: Str)
    requires PlainName(name) && p + |name| < |s|
    requires forall x :: p < x <= p + |name| ==> s[x] == name[x - p - 1]
    ensures forall x :: p < x <= p + |name| ==>
            s[x] != QUOTE && s[x] != BACKSLASH && s[x] != COLON && s[x] != COMMA && !SpaceCode(s[x])
  {
    forall x | p < x <= p + |name|
      ensures s[x] != QUOTE && s[x] != BACKSLASH && s[x] != COLON && s[x] != COMMA && !SpaceCode(s[x])
    {
      assert s[x] == name[x - p - 1];
    }
  }

  /** Among overlapping matches, the one that starts first also ends first. */
  lemma EarlierEndsEarlier(pat: Pattern, s: Str, p: nat, q: nat)
    requires p < q && MatchAt(pat, s, p).Some? && MatchAt(pat, s, q).Some?
    ensures MatchAt(pat, s, p).value.end <= MatchAt(pat, s, q).value.end
  {
    hide SkipSpace, KeyAt, ContentEnd, PlainName;
    var name := Name(pat);
    var n := |name|;
    KeyShape(s, p, name);
    KeyShape(s, q, name);
    NameAt(s, p, name);
    NameAt(s, q, name);
    NextQuote(s, p, name, q);
    var j := KeyAt(s, p, name).value;
    if q == p + n + 1 {
      AfterKey(s, p, name);
    } else if pat.EmotionPattern? {
      var close := q + n + 1;
      if close < ContentEnd(s, j).value {
        InnerQuoteEscaped(s, j, close);
      }
    }
  }

  lemma AfterKey(s: Str, p: nat, name: Str)
    requires KeyAt(s, p, name).Some?
    ensures SpaceCode(s[p + |name| + 2]) || s[p + |name| + 2] == COLON
  {
    hide KeyAt;
    KeyShape(s, p, name);
  }

  /** A search that has succeeded keeps its answer, whatever text arrives later. */
  lemma {:induction false} SearchFromStable(pat: Pattern, s: Str, d: Str, p: nat)
    requires SearchFrom(pat, s, p).Some?
    ensures SearchFrom(pat, s + d, p) == SearchFrom(pat, s, p)
    decreases |s| - p
  {
    hide MatchAt;
    MatchLocal(pat, s, d, p);
    if MatchAt(pat, s, p).None? {
      SearchFromStable(pat, s, d, p + 1);
      if MatchAt(pat, s + d, p).Some? {
        var q := SearchHit(pat, s, p + 1);
        MatchLocal(pat, s, d, q);
        EarlierEndsEarlier(pat, s + d, p, q);
      }
    }
  }

  lemma {:induction false} SearchHit(pat: Pattern, s: Str, p: nat) returns (q: nat)
    requires SearchFrom(pat, s, p).Some?
    ensures p <= q < |s| && MatchAt(pat, s, q) == SearchFrom(pat, s, p)
    decreases |s| - p
  {
    hide MatchAt;
    if MatchAt(pat, s, p).Some? { q := p; } else { q := SearchHit(pat, s, p + 1); }
  }

  lemma {:induction false} SearchIs(pat: Pattern, s: Str, p: nat, q: nat)
    requires p <= q < |s| && MatchAt(pat, s, q).Some?
    requires forall x: nat :: p <= x < q ==> MatchAt(pat, s, x).None?
    ensures SearchFrom(pat, s, p) == MatchAt(pat, s, q)
    decreases q - p
  {
    hide MatchAt;
    if p < q { SearchIs(pat, s, p + 1, q); }
  }

  lemma SearchStable(pat: Pattern, s: Str, d: Str)
    requires Search(pat, s).Some?
    ensures Search(pat, s + d) == Search(pat, s)
  {
    SearchFromStable(pat, s, d, 0);
  }

  // ----- JSON string escapes -----

  function HexDigit(c: Code): (r: Option<nat>)
    ensures r.Some? ==> r.value < 16 && c != QUOTE && c != BACKSLASH
  {
    if 48 <= c <= 57 then Some(c - 48)
    else if 97 <= c <= 102 then Some(c - 87)
    else if 65 <= c <= 70 then Some(c - 55)
    else None
  }

  /** The value of four hexadecimal digits. */
  function Quad(q: Str): (r: Option<Code>)
    requires |q| == 4
    ensures r.Some? ==> r.value < 0x10000
  {
    if HexDigit(q[0]).Some? && HexDigit(q[1]).Some? && HexDigit(q[2]).Some? && HexDigit(q[3]).Some?
    then Some(HexDigit(q[0]).value * 4096 + HexDigit(q[1]).value * 256
              + HexDigit(q[2]).value * 16 + HexDigit(q[3]).value)
    else None
  }

  /** The two-character escapes of section 7 of RFC 8259. */
  function ShortEscape(x: Code): Option<Code> {
    if x == 34 || x == 92 || x == 47 then Some(x)
    else if x == 98 then Some(8)
    else if x == 102 then Some(12)
    else if x == 110 then Some(10)
    else if x == 114 then Some(13)
    else if x == 116 then Some(9)
    else None
  }

  predicate High(c: Code) { 0xD800 <= c <= 0xDBFF }
  predicate Low(c: Code) { 0xDC00 <= c <= 0xDFFF }

  function Pair(hi: Code, lo: Code): Code
    requires High(hi) && Low(lo)
  {
    0x10000 + (hi - 0xD800) * 1024 + (lo - 0xDC00)
  }

  /** `\uXXXX` at the start of `g`. */
  function UnicodeEscape(g: Str): Option<Code> {
    if |g| >= 6 && g[0] == BACKSLASH && g[1] == LETTER_U then Quad(g[2..6]) else None
  }

  function Cons(c: Code, r: Option<Str>): Option<Str> {
    if r.Some? then Some([c] + r.value) else None
  }

  /** `json.loads('"' + g + '"')`, strict: None stands for JSONDecodeError. */
  function Loads(g: Str): Option<Str>
    decreases |g|
  {
    if g == [] then Some([])
    else if g[0] < 32 || g[0] == QUOTE then None
    else if g[0] != BACKSLASH then Cons(g[0], Loads(g[1..]))
    else if |g| == 1 then None
    else if g[1] != LETTER_U then
      (match ShortEscape(g[1])
       case None => None
       case Some(c) => Cons(c, Loads(g[2..])))
    else match UnicodeEscape(g)
      case None => None
      case Some(c) =>
        if High(c) && UnicodeEscape(g[6..]).Some? && Low(UnicodeEscape(g[6..]).value)
        then Cons(Pair(c, UnicodeEscape(g[6..]).value), Loads(g[12..]))
        else Cons(c, Loads(g[6..]))
  }

  // ----- the spoken text -----

  /** The decoder's registers between two characters, and what it has spoken. */
  datatype Speech = Speech(escape: bool, digits: Option<Str>, done: bool, spoken: Str)

  const SILENT := Speech(false, None, false, [])

  /** `int(digits, 16)` on four characters, then `chr`: None stands for ValueError. */
  type HexReader = Str -> Option<Code>

  function Say(hex: HexReader, st: Speech, ch: Code): Speech {
    if st.done then st
    else if st.digits.Some? then
      var dd := st.digits.value + [ch];
      if |dd| == 4 then
        st.(digits := None,
            spoken := st.spoken + (match hex(dd) case Some(c) => [c] case None => [BACKSLASH, LETTER_U] + dd))
      else st.(digits := Some(dd))
    else if st.escape then
      if ch == LETTER_U then st.(escape := false, digits := Some([]))
      else st.(escape := false, spoken := st.spoken + [ShortEscape(ch).GetOr(ch)])
    else if ch == BACKSLASH then st.(escape := true)
    else if ch == QUOTE then st.(done := true)
    else st.(spoken := st.spoken + [ch])
  }

  /** One character, case by case; what RFC 8259 does not allow included: an unknown escape says
      its character, and `\u` with anything but hexadecimal digits is said as it stands. */
  lemma SayIs(hex: HexReader, st: Speech, ch: Code)
    requires !st.done && (st.digits.Some? ==> |st.digits.value| < 4)
    ensures var r := Say(hex, st, ch);
            match st.digits
            case Some(dd) =>
              && !r.done && r.escape == st.escape
              && (|dd| < 3 ==> r.digits == Some(dd + [ch]) && r.spoken == st.spoken)
              && (|dd| == 3 ==> r.digits == None)
              && (|dd| == 3 && hex(dd + [ch]).Some? ==> r.spoken == st.spoken + [hex(dd + [ch]).value])
              && (|dd| == 3 && hex(dd + [ch]).None? ==> r.spoken == st.spoken + [92, 117] + dd + [ch])
            case None =>
              && (st.escape ==> !r.done && !r.escape)
              && (st.escape && ch == 117 ==> r.digits == Some([]) && r.spoken == st.spoken)
              && (st.escape && ch != 117 ==> r.digits == None && |r.spoken| == |st.spoken| + 1 && st.spoken <= r.spoken)
              && (st.escape && ch in [34, 92, 47] ==> r.spoken == st.spoken + [ch])
              && (st.escape && ch !in [34, 92, 47, 98, 102, 110, 114, 116, 117] ==> r.spoken == st.spoken + [ch])
              && (!st.escape && ch == 92 ==> r.escape && !r.done && r.digits == None && r.spoken == st.spoken)
              && (!st.escape && ch == 34 ==> r.done && r.spoken == st.spoken)
              && (!st.escape && ch != 34 && ch != 92 ==> r == st.(spoken := st.spoken + [ch]))
  {
    if st.digits.Some? {
      var dd := st.digits.value;
      assert st.spoken + ([92, 117] + (dd + [ch])) == st.spoken + [92, 117] + dd + [ch];
    }
  }

  function Speak(hex: HexReader, st: Speech, s: Str): Speech {
    if s == [] then st else Say(hex, Speak(hex, st, s[..|s| - 1]), s[|s| - 1])
  }

  lemma {:induction false} SpeakAppend(hex: HexReader, st: Speech, a: Str, b: Str)
    ensures Speak(hex, st, a + b) == Speak(hex, Speak(hex, st, a), b)
  {
    hide Say;
    if b == [] {
      assert a + b == a;
    } else {
      SpeakAppend(hex, st, a, b[..|b| - 1]);
      assert (a + b)[..|a + b| - 1] == a + b[..|b| - 1];
    }
  }

  lemma SpeakSnoc(hex: HexReader, st: Speech, a: Str, c: Code)
    ensures Speak(hex, st, a + [c]) == Say(hex, Speak(hex, st, a), c)
  {
    hide Say;
    assert (a + [c])[..|a|] == a;
  }

  lemma {:induction false} SpeakDone(hex: HexReader, st: Speech, a: Str)
    requires st.done
    ensures Speak(hex, st, a) == st
  {
    if a != [] { SpeakDone(hex, st, a[..|a| - 1]); }
  }

  // ----- what a whole stream means -----

  /** The group decoded as a JSON string, or verbatim when that fails. */
  function EmotionOf(s: Str): Option<Str> {
    match Search(EmotionPattern, s)
    case None => None
    case Some(m) => var g := s[m.group..m.groupEnd]; Some(Loads(g).GetOr(g))
  }

  function SpeechOf(hex: HexReader, s: Str): Speech {
    match Search(ResponsePattern, s)
    case None => SILENT
    case Some(m) => Speak(hex, SILENT, s[m.end..])
  }

  /** `json.loads` of a whole buffer: None when it fails, else the string values of the
      two keys, if it is an object and has them. */
  datatype Doc = Doc(emotion: Option<Str>, response: Option<Str>)

  /** The text spoken for a whole stream: the streamed response, or the fallback. */
  function Spoken(hex: HexReader, document: Str -> Option<Doc>, s: Str): Str {
    if Search(ResponsePattern, s).Some? then SpeechOf(hex, s).spoken
    else document(s).GetOr(Doc(None, None)).response.GetOr([])
  }

  function FinalEmotion(document: Str -> Option<Doc>, s: Str): Option<Str> {
    if Search(ResponsePattern, s).Some? || EmotionOf(s).Some? then EmotionOf(s)
    else document(s).GetOr(Doc(None, None)).emotion
  }

  /** An emotion that is no valid JSON string is reported as it stands. */
  lemma EmotionVerbatim(s: Str, m: Match)
    requires Search(EmotionPattern, s) == Some(m)
    ensures Loads(s[m.group..m.groupEnd]).None? ==> EmotionOf(s) == Some(s[m.group..m.groupEnd])
    ensures Loads(s[m.group..m.groupEnd]).Some? ==> EmotionOf(s) == Loads(s[m.group..m.groupEnd])
  {
    hide Search, Loads;
  }

  lemma EmotionStable(s: Str, d: Str)
    requires EmotionOf(s).Some?
    ensures EmotionOf(s + d) == EmotionOf(s)
  {
    hide Search, Loads;
    SearchStable(EmotionPattern, s, d);
    var m := Search(EmotionPattern, s).value;
    assert (s + d)[m.group..m.groupEnd] == s[m.group..m.groupEnd];
  }

  lemma SpeechAppend(hex: HexReader, s: Str, d: Str)
    requires Search(ResponsePattern, s).Some?
    ensures Search(ResponsePattern, s + d) == Search(ResponsePattern, s)
    ensures SpeechOf(hex, s + d) == Speak(hex, SpeechOf(hex, s), d)
  {
    hide Search, Speak, Say;
    SearchStable(ResponsePattern, s, d);
    var m := Search(ResponsePattern, s).value;
    assert (s + d)[m.end..] == s[m.end..] + d;
    SpeakAppend(hex, SILENT, s[m.end..], d);
  }

  class EmotionResponseParser {
    const hex: HexReader
    const document: Str -> Option<Doc>
    var emotion: Option<Str>
    var buffer: Str
    var responseStarted: bool
    var scanPos: nat
    var done: bool
    var escape: bool
    var unicodeDigits: Option<Str>
    var fallbackEmitted: bool

    /** The whole state is a function of the text received so far. */
    ghost predicate Valid()
      reads this
    {
      && emotion == EmotionOf(buffer)
      && responseStarted == Search(ResponsePattern, buffer).Some?
      && (var st := SpeechOf(hex, buffer); done == st.done && escape == st.escape && unicodeDigits == st.digits)
      && (responseStarted && !done ==> scanPos == |buffer|)
      && !fallbackEmitted
    }

    constructor (hex: HexReader, document: Str -> Option<Doc>)
      ensures Valid() && buffer == [] && this.hex == hex && this.document == document
      ensures EmotionOf(buffer).None? && SpeechOf(hex, buffer) == SILENT
    {
      this.hex, this.document := hex, document;
      emotion, buffer, responseStarted, scanPos := None, [], false, 0;
      done, escape, unicodeDigits, fallbackEmitted := false, false, None, false;
    }

    method Feed(chunk: Str) returns (newEmotion: Option<Str>, spoken: Str)
      requires Valid()
      modifies this
      ensures Valid() && buffer == old(buffer) + chunk
      ensures newEmotion == if EmotionOf(old(buffer)).Some? then None else EmotionOf(buffer)
      ensures SpeechOf(hex, old(buffer)).spoken + spoken == SpeechOf(hex, buffer).spoken
    {
      hide Search, Loads, Speak, Say;
      newEmotion, spoken := None, [];
      if chunk == [] {
        assert buffer + chunk == buffer;
        return;
      }
      if emotion.Some? { EmotionStable(buffer, chunk); }
      if responseStarted { SpeechAppend(hex, buffer, chunk); }

      buffer := buffer + chunk;
      if emotion.None? {
        var m := Search(EmotionPattern, buffer);
        if m.Some? {
          var group := buffer[m.value.group..m.value.groupEnd];
          emotion := Some(match Loads(group) case Some(v) => v case None => group);
          newEmotion := emotion;
        }
      }
      if done {
        SpeakDone(hex, SpeechOf(hex, old(buffer)), chunk);
        return;
      }
      if !responseStarted {
        var m := Search(ResponsePattern, buffer);
        if m.None? { return; }
        responseStarted := true;
        scanPos := m.value.end;
      }

      ghost var st0 := if old(responseStarted) then SpeechOf(hex, old(buffer)) else SILENT;
      assert Speak(hex, st0, buffer[scanPos..]) == SpeechOf(hex, buffer);
      spoken := ScanBuffer(st0);
    }

    /** The scanning loop: decode the buffer from the scan position on, up to the closing quote. */
    method ScanBuffer(ghost st0: Speech) returns (spoken: Str)
      requires scanPos <= |buffer| && !done
      requires st0 == Speech(escape, unicodeDigits, done, st0.spoken)
      modifies this`scanPos, this`done, this`escape, this`unicodeDigits
      ensures Speak(hex, st0, buffer[old(scanPos)..]) == Speech(escape, unicodeDigits, done, st0.spoken + spoken)
      ensures !done ==> scanPos == |buffer|
    {
      hide Speak, Say;
      var i := scanPos;
      ghost var from := scanPos;
      spoken := [];
      assert buffer[from..i] == [];
      SpeakNothing(hex, st0);
      while i < |buffer| && !done
        invariant from <= i <= |buffer|
        invariant Speak(hex, st0, buffer[from..i]) == Speech(escape, unicodeDigits, done, st0.spoken + spoken)
        decreases |buffer| - i
      {
        var ch := buffer[i];
        assert buffer[from..i + 1] == buffer[from..i] + [ch];
        SpeakSnoc(hex, st0, buffer[from..i], ch);
        SayFrame(hex, Speech(escape, unicodeDigits, done, st0.spoken + spoken), ch);
        var piece := ScanChar(ch);
        assert st0.spoken + (spoken + piece) == (st0.spoken + spoken) + piece;
        spoken := spoken + piece;
        i := i + 1;
      }
      scanPos := i;
      assert buffer[from..] == buffer[from..i] + buffer[i..];
      SpeakAppend(hex, st0, buffer[from..i], buffer[i..]);
      if done {
        SpeakDone(hex, Speak(hex, st0, buffer[from..i]), buffer[i..]);
      } else {
        assert buffer[i..] == [];
        SpeakNothing(hex, Speak(hex, st0, buffer[from..i]));
      }
    }

    /** The body of the scanning loop: one character, and what it makes the parser say. */
    method ScanChar(ch: Code) returns (piece: Str)
      requires !done
      modifies this`done, this`escape, this`unicodeDigits
      ensures Say(hex, old(Speech(escape, unicodeDigits, done, [])), ch) == Speech(escape, unicodeDigits, done, piece)
    {
      hide ShortEscape;
      piece := [];
      if unicodeDigits.Some? {
        unicodeDigits := Some(unicodeDigits.value + [ch]);
        if |unicodeDigits.value| == 4 {
          var digits := unicodeDigits.value;
          unicodeDigits := None;
          piece := match hex(digits) case Some(c) => [c] case None => [BACKSLASH, LETTER_U] + digits;
        }
      } else if escape {
        escape := false;
        if ch == LETTER_U {
          unicodeDigits := Some([]);
        } else {
          piece := [ShortEscape(ch).GetOr(ch)];
        }
      } else if ch == BACKSLASH {
        escape := true;
      } else if ch == QUOTE {
        done := true;
      } else {
        piece := [ch];
      }
    }

    /** End of stream: the fallback reads the whole buffer, and only when streaming never began. */
    method Flush() returns (r: Str)
      requires Valid()
      modifies this
      ensures SpeechOf(hex, old(buffer)).spoken + r == Spoken(hex, document, old(buffer))
      ensures emotion == FinalEmotion(document, old(buffer))
      ensures buffer == old(buffer)
    {
      hide Search, Loads, Speak;
      r := [];
      if responseStarted || fallbackEmitted { return; }
      var obj := document(buffer);
      if obj.None? { return; }
      if emotion.None? && obj.value.emotion.Some? {
        emotion := obj.value.emotion;
      }
      if obj.value.response.Some? {
        fallbackEmitted := true;
        r := obj.value.response.value;
      }
    }
  }

  /** A step only ever appends to what was spoken, and does not look at it. */
  lemma SayFrame(hex: HexReader, st: Speech, ch: Code)
    ensures var r := Say(hex, st.(spoken := []), ch);
            Say(hex, st, ch) == r.(spoken := st.spoken + r.spoken)
  {
    hide ShortEscape;
  }

  lemma SpeakNothing(hex: HexReader, st: Speech)
    ensures Speak(hex, st, []) == st
  {
  }

  /** The consumer: feed every chunk, flush once. Whatever the cuts and however malformed
      the text, everything it observes depends on the concatenation only. */
  method ParseAll(hex: HexReader, document: Str -> Option<Doc>, chunks: seq<Str>)
    returns (spoken: Str, emotion: Option<Str>, reports: seq<Str>)
    ensures spoken == Spoken(hex, document, Concat(chunks))
    ensures emotion == FinalEmotion(document, Concat(chunks))
    ensures reports == match EmotionOf(Concat(chunks)) { case Some(e) => [e] case None => [] }
  {
    hide Search, Loads, Speak;
    var parser := new EmotionResponseParser(hex, document);
    spoken, reports := [], [];
    for i := 0 to |chunks|
      invariant parser.Valid() && parser.hex == hex && parser.document == document && fresh(parser)
      invariant parser.buffer == Concat(chunks[..i])
      invariant spoken == SpeechOf(hex, parser.buffer).spoken
      invariant reports == match EmotionOf(parser.buffer) { case Some(e) => [e] case None => [] }
    {
      if EmotionOf(parser.buffer).Some? { EmotionStable(parser.buffer, chunks[i]); }
      var e, r := parser.Feed(chunks[i]);
      spoken := spoken + r;
      if e.Some? { reports := reports + [e.value]; }
      assert chunks[..i + 1] == chunks[..i] + [chunks[i]];
      ConcatSnoc(chunks[..i], chunks[i]);
    }
    assert chunks[..|chunks|] == chunks;
    var tail := parser.Flush();
    spoken := spoken + tail;
    emotion := parser.emotion;
  }

  // ----- printing and parsing undo each other -----

  /** The characters RFC 8259 texts are made of: Unicode scalar values. */
  predicate Scalar(c: Code) {
    !(0xD800 <= c <= 0xDFFF)
  }

  /** The hexadecimal digit of a value, in either letter case. */
  function HexChar(v: nat, upper: bool): Code
    requires v < 16
  {
    if v < 10 then 48 + v else if upper then 55 + v else 87 + v
  }

  predicate IsHexOf(x: Code, v: nat)
    requires v < 16
  {
    x == HexChar(v, false) || x == HexChar(v, true)
  }

  /** `q` is `c` in four hexadecimal digits, each in either letter case. */
  predicate SpellsHex(q: Str, c: Code) {
    && |q| == 4 && c < 0x10000
    && IsHexOf(q[0], c / 0x1000) && IsHexOf(q[1], c / 0x100 % 16) && IsHexOf(q[2], c / 0x10 % 16)
      && IsHexOf(q[3], c % 16)
  }

  /** `f` is `\uXXXX` with the digits of `c`. */
  predicate SpellsUnit(f: Str, c: Code) {
    |f| == 6 && f[0] == 92 && f[1] == 117 && SpellsHex(f[2..], c)
  }

  /** The two-character escapes of section 7 of RFC 8259: `\"` `\\` `\/` `\b` `\f` `\n` `\r` `\t`. */
  predicate SpellsShort(x: Code, c: Code) {
    || (x == 34 && c == 34) || (x == 92 && c == 92) || (x == 47 && c == 47) || (x == 98 && c == 8)
    || (x == 102 && c == 12) || (x == 110 && c == 10) || (x == 114 && c == 13) || (x == 116 && c == 9)
  }

  /** The two surrogates of a character outside the basic plane. */
  function HighHalf(c: Code): Code
    requires c >= 0x10000
  {
    0xD800 + (c - 0x10000) / 0x400
  }

  function LowHalf(c: Code): Code
    requires c >= 0x10000
  {
    0xDC00 + (c - 0x10000) % 0x400
  }

  /** `f` is one of the ways section 7 of RFC 8259 lets a string spell the character `c`:
      itself, a short escape, `\uXXXX`, or a surrogate pair of two such escapes. */
  predicate Spells(f: Str, c: Code) {
    Scalar(c) &&
    if |f| == 1 then f[0] == c && c >= 32 && c != 34 && c != 92
    else if |f| == 2 then f[0] == 92 && SpellsShort(f[1], c)
    else if |f| == 6 then SpellsUnit(f, c)
    else |f| == 12 && c >= 0x10000 && SpellsUnit(f[..6], HighHalf(c)) && SpellsUnit(f[6..], LowHalf(c))
  }

  ghost predicate SpellsAll(fs: seq<Str>, t: Str) {
    |fs| == |t| && forall i :: 0 <= i < |fs| ==> Spells(fs[i], t[i])
  }

  // ----- the decoder's tables read what is spelled -----

  lemma ShortEscapeIs(x: Code, c: Code)
    ensures ShortEscape(x) == Some(c) <==> SpellsShort(x, c)
  {
  }

  lemma HexDigitIs(x: Code, v: nat)
    requires v < 16
    ensures HexDigit(x) == Some(v) <==> IsHexOf(x, v)
  {
  }

  /** Four characters read as `c` exactly when they are its digits. */
  lemma QuadIs(q: Str, c: Code)
    requires |q| == 4
    ensures Quad(q) == Some(c) <==> SpellsHex(q, c)
  {
    if SpellsHex(q, c) { SpelledQuad(q, c); }
    if Quad(q) == Some(c) { QuadSpells(q, c); }
  }

  lemma SpelledQuad(q: Str, c: Code)
    requires SpellsHex(q, c)
    ensures Quad(q) == Some(c)
  {
    hide HexDigit, IsHexOf;
    HexDigitIs(q[0], c / 0x1000);
    HexDigitIs(q[1], c / 0x100 % 16);
    HexDigitIs(q[2], c / 0x10 % 16);
    HexDigitIs(q[3], c % 16);
    Place(c, c / 0x1000, c / 0x100, c / 0x10);
  }

  lemma Place(c: nat, a: nat, b: nat, d: nat)
    requires a == c / 0x1000 && b == c / 0x100 && d == c / 0x10 && c < 0x10000
    ensures c == a * 4096 + b % 16 * 256 + d % 16 * 16 + c % 16
  {
    assert b == a * 16 + b % 16 && d == b * 16 + d % 16 && c == d * 16 + c % 16;
  }

  lemma QuadSpells(q: Str, c: Code)
    requires |q| == 4 && Quad(q) == Some(c)
    ensures SpellsHex(q, c)
  {
    hide HexDigit, IsHexOf;
    var v0, v1, v2, v3 := HexDigit(q[0]).value, HexDigit(q[1]).value, HexDigit(q[2]).value, HexDigit(q[3]).value;
    Digits(v0, v1, v2, v3, c);
    HexDigitIs(q[0], v0);
    HexDigitIs(q[1], v1);
    HexDigitIs(q[2], v2);
    HexDigitIs(q[3], v3);
  }

  lemma Digits(a: nat, b: nat, d: nat, e: nat, c: nat)
    requires a < 16 && b < 16 && d < 16 && e < 16 && c == a * 4096 + b * 256 + d * 16 + e
    ensures c < 0x10000 && c / 0x1000 == a && c / 0x100 % 16 == b && c / 0x10 % 16 == d && c % 16 == e
  {
    assert c / 0x100 == a * 16 + b && c / 0x10 == a * 256 + b * 16 + d;
  }

  lemma UnitIs(f: Str, c: Code)
    requires |f| == 6
    ensures UnicodeEscape(f) == Some(c) <==> SpellsUnit(f, c)
  {
    hide Quad, SpellsHex;
    assert f[2..] == f[2..6];
    QuadIs(f[2..6], c);
  }

  /** A spelling, seen through the decoder's tables. */
  predicate Reads(f: Str, c: Code) {
    if |f| == 1 then f[0] == c && c >= 32 && c != QUOTE && c != BACKSLASH
    else if |f| == 2 then f[0] == BACKSLASH && ShortEscape(f[1]) == Some(c)
    else if |f| == 6 then UnicodeEscape(f) == Some(c) && !High(c)
    else IsPair(f) && Pair(UnicodeEscape(f[..6]).value, UnicodeEscape(f[6..]).value) == c
  }

  predicate IsPair(f: Str) {
    && |f| == 12
    && UnicodeEscape(f[..6]).Some? && High(UnicodeEscape(f[..6]).value)
    && UnicodeEscape(f[6..]).Some? && Low(UnicodeEscape(f[6..]).value)
  }

  lemma SpelledReads(f: Str, c: Code)
    requires Spells(f, c)
    ensures Reads(f, c)
    ensures |f| == 12 ==> UnicodeEscape(f[..6]) == Some(HighHalf(c)) && UnicodeEscape(f[6..]) == Some(LowHalf(c))
  {
    hide ShortEscape, UnicodeEscape, SpellsShort, SpellsUnit;
    if |f| == 2 {
      ShortEscapeIs(f[1], c);
    } else if |f| == 6 {
      UnitIs(f, c);
    } else if |f| == 12 {
      UnitIs(f[..6], HighHalf(c));
      UnitIs(f[6..], LowHalf(c));
      HalvesPair(c);
    }
  }

  lemma HalvesPair(c: Code)
    requires c >= 0x10000
    ensures High(HighHalf(c)) && Low(LowHalf(c)) && Pair(HighHalf(c), LowHalf(c)) == c
  {
  }

  lemma EscapePrefix(f: Str, rest: Str)
    requires |f| >= 6
    ensures UnicodeEscape(f + rest) == UnicodeEscape(f)
  {
    assert (f + rest)[2..6] == f[2..6];
  }

  lemma LoadsForm(f: Str, c: Code, rest: Str)
    requires Reads(f, c)
    ensures Loads(f + rest) == Cons(c, Loads(rest))
  {
    hide Quad;
    var g := f + rest;
    assert g[|f|..] == rest;
    if |f| == 6 {
      EscapePrefix(f, rest);
    } else if |f| == 12 {
      EscapePrefix(f[..6], f[6..] + rest);
      EscapePrefix(f[6..], rest);
      assert g == f[..6] + (f[6..] + rest) && g[6..] == f[6..] + rest;
    } else if |f| == 2 {
      assert g[1] == f[1] != LETTER_U;
    }
  }

  lemma {:induction false} LoadsSpelled(fs: seq<Str>, t: Str)
    requires SpellsAll(fs, t)
    ensures Loads(Concat(fs)) == Some(t)
  {
    hide Spells;
    if fs == [] {
      assert t == [];
    } else {
      assert t == [t[0]] + t[1..];
      SpelledReads(fs[0], t[0]);
      LoadsForm(fs[0], t[0], Concat(fs[1..]));
      LoadsSpelled(fs[1..], t[1..]);
    }
  }

  lemma {:induction false} PlainRun(s: Str, i: nat, n: nat)
    requires i + n <= |s|
    requires forall x :: i <= x < i + n ==> s[x] != QUOTE && s[x] != BACKSLASH
    ensures ContentEnd(s, i) == ContentEnd(s, i + n)
    decreases n
  {
    if n > 0 { PlainRun(s, i + 1, n - 1); }
  }

  /** The content pattern walks over an escape as one unit and over its digits as text. */
  lemma ContentEscape(s: Str, i: nat)
    requires i + 6 <= |s| && UnicodeEscape(s[i..i + 6]).Some?
    ensures ContentEnd(s, i) == ContentEnd(s, i + 6)
  {
    var f := s[i..i + 6];
    assert f[0] == s[i] && f[1] == s[i + 1];
    var q := f[2..6];
    assert f[2] == s[i + 2] && f[3] == s[i + 3] && f[4] == s[i + 4] && f[5] == s[i + 5];
    assert q[0] == f[2] && q[1] == f[3] && q[2] == f[4] && q[3] == f[5];
    assert Quad(q).Some?;
    PlainRun(s, i + 2, 4);
  }

  lemma ContentForm(s: Str, i: nat, f: Str, c: Code)
    requires i + |f| <= |s| && s[i..i + |f|] == f && Reads(f, c)
    ensures ContentEnd(s, i) == ContentEnd(s, i + |f|)
  {
    hide Quad, UnicodeEscape;
    if |f| == 6 {
      ContentEscape(s, i);
    } else if |f| == 12 {
      assert s[i..i + 6] == f[..6] && s[i + 6..i + 12] == f[6..];
      ContentEscape(s, i);
      ContentEscape(s, i + 6);
    } else {
      assert f[0] == s[i];
      if |f| == 2 { assert f[1] == s[i + 1]; }
    }
  }

  lemma {:induction false} ContentSpelled(s: Str, i: nat, fs: seq<Str>, t: Str)
    requires SpellsAll(fs, t)
    requires i + |Concat(fs)| < |s| && s[i..i + |Concat(fs)|] == Concat(fs) && s[i + |Concat(fs)|] == QUOTE
    ensures ContentEnd(s, i) == Some(i + |Concat(fs)|)
    decreases |fs|
  {
    hide Spells;
    if fs != [] {
      var n, rest := |fs[0]|, Concat(fs[1..]);
      var w := s[i..i + |Concat(fs)|];
      assert w == fs[0] + rest;
      assert s[i..i + n] == w[..n] == fs[0] && s[i + n..i + n + |rest|] == w[n..] == rest;
      SpelledReads(fs[0], t[0]);
      ContentForm(s, i, fs[0], t[0]);
      ContentSpelled(s, i + n, fs[1..], t[1..]);
    }
  }

  /** Reading four hexadecimal digits gives their value. */
  ghost predicate HexLaw(hex: HexReader) {
    forall q: Str, c: Code :: SpellsHex(q, c) ==> hex(q) == Some(c)
  }

  /** What the stream decoder says for one spelled character: a surrogate pair is not combined. */
  function Said(f: Str, c: Code): Str {
    if |f| == 12 && c >= 0x10000 then [HighHalf(c), LowHalf(c)] else [c]
  }

  function SaidAll(fs: seq<Str>, t: Str): Str
    requires |fs| == |t|
  {
    if fs == [] then [] else Said(fs[0], t[0]) + SaidAll(fs[1..], t[1..])
  }

  predicate Idle(st: Speech) {
    !st.escape && st.digits.None? && !st.done
  }

  /** A step of the decoder inside an escape. */
  lemma SayDigit(hex: HexReader, st: Speech, dd: Str, c: Code)
    requires st.digits == Some(dd) && !st.done && |dd| < 3
    ensures Say(hex, st, c) == st.(digits := Some(dd + [c]))
  {
  }

  lemma SpeakEscape(hex: HexReader, st: Speech, f: Str)
    requires Idle(st) && HexLaw(hex) && |f| == 6 && UnicodeEscape(f).Some?
    ensures Speak(hex, st, f) == st.(spoken := st.spoken + [UnicodeEscape(f).value])
  {
    hide Speak, Quad, ShortEscape;
    SpeakNothing(hex, st);
    SpeakSnoc(hex, st, [], f[0]);
    SpeakSnoc(hex, st, f[..1], f[1]);
    assert [] + [f[0]] == f[..1] && f[..1] + [f[1]] == f[..2];
    var st2 := st.(digits := Some([]));
    assert Speak(hex, st, f[..2]) == st2;
    assert f == f[..2] + f[2..] && f[2..] == f[2..6];
    SpeakDigits(hex, st2, f[2..], st.spoken);
    SpeakAppend(hex, st, f[..2], f[2..]);
  }

  lemma SpeakDigits(hex: HexReader, st: Speech, q: Str, spoken: Str)
    requires st == Speech(false, Some([]), false, spoken) && HexLaw(hex) && |q| == 4 && Quad(q).Some?
    ensures Speak(hex, st, q) == Speech(false, None, false, spoken + [Quad(q).value])
  {
    hide Speak, Quad;
    SpeakNothing(hex, st);
    SpeakSnoc(hex, st, [], q[0]);
    SpeakSnoc(hex, st, q[..1], q[1]);
    SpeakSnoc(hex, st, q[..2], q[2]);
    SpeakSnoc(hex, st, q[..3], q[3]);
    assert [] + [q[0]] == q[..1] && q[..1] + [q[1]] == q[..2] && q[..2] + [q[2]] == q[..3] && q[..3] + [q[3]] == q;
    hide Say;
    SayDigit(hex, st, [], q[0]);
    SayDigit(hex, st.(digits := Some(q[..1])), q[..1], q[1]);
    SayDigit(hex, st.(digits := Some(q[..2])), q[..2], q[2]);
    SayLastDigit(hex, st.(digits := Some(q[..3])), q);
  }

  lemma SayLastDigit(hex: HexReader, st: Speech, q: Str)
    requires |q| == 4 && st.digits == Some(q[..3]) && !st.done && HexLaw(hex) && Quad(q).Some?
    ensures Say(hex, st, q[3]) == st.(digits := None, spoken := st.spoken + [Quad(q).value])
  {
    hide Quad;
    assert q[..3] + [q[3]] == q;
    QuadIs(q, Quad(q).value);
    assert hex(q) == Quad(q);
  }

  lemma SpeakPair(hex: HexReader, st: Speech, f: Str, hi: Code, lo: Code)
    requires Idle(st) && HexLaw(hex) && |f| == 12
    requires UnicodeEscape(f[..6]) == Some(hi) && UnicodeEscape(f[6..]) == Some(lo)
    ensures Speak(hex, st, f) == st.(spoken := st.spoken + [hi, lo])
  {
    hide Speak, UnicodeEscape, HexLaw;
    var st1 := st.(spoken := st.spoken + [hi]);
    SpeakEscape(hex, st, f[..6]);
    SpeakEscape(hex, st1, f[6..]);
    SpeakAppend(hex, st, f[..6], f[6..]);
    assert f == f[..6] + f[6..];
    assert st1.spoken + [lo] == st.spoken + [hi, lo];
  }

  lemma SpeakShort(hex: HexReader, st: Speech, f: Str, c: Code)
    requires Idle(st) && |f| == 2 && f[0] == BACKSLASH && ShortEscape(f[1]) == Some(c)
    ensures Speak(hex, st, f) == st.(spoken := st.spoken + [c])
  {
    hide Speak;
    SpeakNothing(hex, st);
    SpeakSnoc(hex, st, [], f[0]);
    SpeakSnoc(hex, st, [f[0]], f[1]);
    assert [f[0]] == [] + [f[0]] && f == [f[0]] + [f[1]];
  }

  lemma SpeakForm(hex: HexReader, st: Speech, f: Str, c: Code)
    requires Idle(st) && HexLaw(hex) && Spells(f, c)
    ensures Speak(hex, st, f) == st.(spoken := st.spoken + Said(f, c))
  {
    hide UnicodeEscape, HexLaw, SpellsUnit, SpellsShort, ShortEscape, HighHalf, LowHalf, Speak;
    SpelledReads(f, c);
    if |f| == 6 {
      SpeakEscape(hex, st, f);
    } else if |f| == 12 {
      SpeakPair(hex, st, f, HighHalf(c), LowHalf(c));
    } else if |f| == 2 {
      SpeakShort(hex, st, f, c);
    } else {
      SpeakNothing(hex, st);
      SpeakSnoc(hex, st, [], f[0]);
      assert f == [] + [f[0]];
    }
  }

  lemma {:induction false} SpeakSpelled(hex: HexReader, st: Speech, fs: seq<Str>, t: Str)
    requires Idle(st) && HexLaw(hex) && SpellsAll(fs, t)
    ensures Speak(hex, st, Concat(fs)) == st.(spoken := st.spoken + SaidAll(fs, t))
    decreases |fs|
  {
    hide Spells, Speak, Said, HexLaw;
    if fs == [] {
      SpeakNothing(hex, st);
    } else {
      SpeakForm(hex, st, fs[0], t[0]);
      var st1 := st.(spoken := st.spoken + Said(fs[0], t[0]));
      SpeakSpelled(hex, st1, fs[1..], t[1..]);
      SpeakAppend(hex, st, fs[0], Concat(fs[1..]));
      assert st1.spoken + SaidAll(fs[1..], t[1..]) == st.spoken + SaidAll(fs, t);
    }
  }

  /** The decoder says exactly the text unless some character is spelled as a surrogate pair. */
  lemma {:induction false} SaidExactly(fs: seq<Str>, t: Str)
    requires SpellsAll(fs, t)
    ensures |SaidAll(fs, t)| >= |t|
    ensures SaidAll(fs, t) == t <==> forall i :: 0 <= i < |fs| ==> |fs[i]| != 12
    ensures SaidAll(fs, t) == t <==> |SaidAll(fs, t)| == |t|
  {
    hide UnicodeEscape;
    if fs != [] {
      SaidExactly(fs[1..], t[1..]);
      assert t == [t[0]] + t[1..];
      assert Spells(fs[0], t[0]);
      forall i | 1 <= i < |fs| ensures fs[i] == fs[1..][i - 1] { }
    }
  }

  // ----- a printed object -----

  /** Where the parts of a printed object are: the two keys with their colons and opening
      quotes, the closing quotes, and the comma between. */
  datatype Marks = Marks(key1: nat, colon1: nat, open1: nat, close1: nat, comma: nat,
                         key2: nat, colon2: nat, open2: nat, close2: nat)

  ghost predicate Blanks(s: Str, i: nat, j: nat) {
    i <= j <= |s| && forall x :: i <= x < j ==> s[x] == 32 || s[x] == 9 || s[x] == 10 || s[x] == 13 || SpaceCode(s[x])
  }

  /** `s` is `{ "emotion" : "fe" , "response" : "fr" ...`, with any whitespace where JSON
      allows it and anything at all behind the response. */
  ghost predicate Printed(s: Str, m: Marks, fe: Str, fr: Str) {
    && 1 <= m.key1 && m.key1 + 9 <= m.colon1 < m.open1 < m.close1 < m.comma < m.key2
    && m.key2 + 10 <= m.colon2 < m.open2 < m.close2 < |s|
    && s[0] == 123 && Blanks(s, 1, m.key1)
    && At(s, m.key1, [34, 101, 109, 111, 116, 105, 111, 110, 34]) && Blanks(s, m.key1 + 9, m.colon1)   // "emotion"
    && s[m.colon1] == 58 && Blanks(s, m.colon1 + 1, m.open1)
    && s[m.open1] == 34 && s[m.open1 + 1..m.close1] == fe && s[m.close1] == 34
    && Blanks(s, m.close1 + 1, m.comma) && s[m.comma] == 44 && Blanks(s, m.comma + 1, m.key2)
    && At(s, m.key2, [34, 114, 101, 115, 112, 111, 110, 115, 101, 34])
      && Blanks(s, m.key2 + 10, m.colon2)   // "response"
    && s[m.colon2] == 58 && Blanks(s, m.colon2 + 1, m.open2)
    && s[m.open2] == 34 && s[m.open2 + 1..m.close2] == fr && s[m.close2] == 34
  }

  /** The keys of the patterns are those of the printed object. */
  lemma KeyNames()
    ensures [QUOTE] + EMOTION + [QUOTE] == [34, 101, 109, 111, 116, 105, 111, 110, 34]
    ensures [QUOTE] + RESPONSE + [QUOTE] == [34, 114, 101, 115, 112, 111, 110, 115, 101, 34]
  {
  }

  lemma KeyIs(s: Str, p: nat, name: Str, colon: nat, open: nat)
    requires At(s, p, [QUOTE] + name + [QUOTE]) && p + |name| + 2 <= colon < open < |s|
    requires Blanks(s, p + |name| + 2, colon) && s[colon] == COLON
    requires Blanks(s, colon + 1, open) && s[open] == QUOTE
    ensures KeyAt(s, p, name) == Some(open + 1)
  {
    hide SkipSpace, At;
    SkipSpaceIs(s, p + |name| + 2, colon);
    SkipSpaceIs(s, colon + 1, open);
  }

  /** The leftmost emotion is the printed one. */
  lemma FindsEmotion(s: Str, m: Marks, fe: seq<Str>, fr: Str, e: Str)
    requires SpellsAll(fe, e) && Printed(s, m, Concat(fe), fr)
    ensures Search(EmotionPattern, s) == Some(Match(m.open1 + 1, m.close1, m.close1 + 1))
    ensures ContentEnd(s, m.open1 + 1) == Some(m.close1)
  {
    hide ContentEnd, KeyAt, Spells, At;
    KeyNames();
    KeyIs(s, m.key1, EMOTION, m.colon1, m.open1);
    assert |s[m.open1 + 1..m.close1]| == |Concat(fe)|;
    ContentSpelled(s, m.open1 + 1, fe, e);
    forall x: nat | x < m.key1 ensures MatchAt(EmotionPattern, s, x).None? { NotAQuote(s, x, EMOTION); }
    SearchIs(EmotionPattern, s, 0, m.key1);
  }

  lemma NotAQuote(s: Str, x: nat, name: Str)
    requires x < |s| && s[x] != QUOTE
    ensures KeyAt(s, x, name).None?
  {
    if KeyAt(s, x, name).Some? { KeyShape(s, x, name); }
  }

  /** A key needs its name right behind its first quote. */
  lemma NoKeyBefore(s: Str, x: nat, name: Str)
    requires PlainName(name) && x + 1 < |s|
    requires SpaceCode(s[x + 1]) || s[x + 1] == COLON || s[x + 1] == COMMA || s[x + 1] != name[0]
    ensures KeyAt(s, x, name).None?
  {
    hide KeyAt;
    if KeyAt(s, x, name).Some? { KeyShape(s, x, name); }
  }

  /** A key that starts in a content would have to end at its closing quote, and there no
      colon follows. */
  lemma NoKeyInside(s: Str, open: nat, close: nat, comma: nat, x: nat, name: Str)
    requires PlainName(name) && ContentEnd(s, open + 1) == Some(close) && open <= x < close
    requires close < comma < |s| && Blanks(s, close + 1, comma) && s[comma] == COMMA
    ensures KeyAt(s, x, name).None?
  {
    hide ContentEnd, KeyAt, SkipSpace, PlainName;
    if KeyAt(s, x, name).Some? {
      KeyShape(s, x, name);
      NameAt(s, x, name);
      var q := x + |name| + 1;
      if q < close {
        InnerQuoteEscaped(s, open + 1, q);
      } else if q == close {
        SkipSpaceIs(s, q + 1, comma);
      }
    }
  }

  /** Of everything up to its opening quote, only the quotes of a key could start another. */
  lemma NoKeyInKey(s: Str, key: nat, name: Str, x: nat, other: Str)
    requires PlainName(name) && PlainName(other) && name[0] != other[0]
    requires KeyAt(s, key, name).Some? && key <= x < KeyAt(s, key, name).value - 1
    ensures KeyAt(s, x, other).None?
  {
    hide KeyAt;
    KeyShape(s, key, name);
    if s[x] != QUOTE {
      NotAQuote(s, x, other);
    } else if x == key {
      assert s[x + 1] == name[0];
      NoKeyBefore(s, x, other);
    } else {
      NextQuote(s, key, name, x);
      AfterKey(s, key, name);
      NoKeyBefore(s, x, other);
    }
  }

  /** Nothing before the printed response key looks like one: not the emotion key, and
      nothing inside or around the emotion's content. */
  lemma NoEarlierResponse(s: Str, m: Marks, fe: Str, fr: Str, x: nat)
    requires Printed(s, m, fe, fr) && ContentEnd(s, m.open1 + 1) == Some(m.close1)
    requires x < m.key2
    ensures KeyAt(s, x, RESPONSE).None?
  {
    hide ContentEnd, KeyAt, SkipSpace, At, PlainName;
    KeyNames();
    assert EMOTION == Name(EmotionPattern) && RESPONSE == Name(ResponsePattern);
    if s[x] != QUOTE {
      NotAQuote(s, x, RESPONSE);
    } else if x < m.open1 {
      KeyIs(s, m.key1, EMOTION, m.colon1, m.open1);
      NoKeyInKey(s, m.key1, EMOTION, x, RESPONSE);
    } else if x < m.close1 {
      NoKeyInside(s, m.open1, m.close1, m.comma, x, RESPONSE);
    } else {
      NoKeyBefore(s, x, RESPONSE);
    }
  }

  /** The main result. Print any emotion and any response, each character spelled in any way
      RFC 8259 allows, followed by anything; cut the text anywhere; parse it. The emotion is
      reported exactly once and exactly. What is spoken is exactly the response if and only
      if no character of it was spelled as a surrogate pair. */
  method PrintThenParse(hex: HexReader, document: Str -> Option<Doc>, chunks: seq<Str>, ghost m: Marks,
                        ghost fe: seq<Str>, ghost e: Str, ghost fr: seq<Str>, ghost t: Str)
    returns (spoken: Str, emotion: Option<Str>, reports: seq<Str>)
    requires HexLaw(hex) && SpellsAll(fe, e) && SpellsAll(fr, t)
    requires Printed(Concat(chunks), m, Concat(fe), Concat(fr))
    ensures emotion == Some(e) && reports == [e]
    ensures spoken == SaidAll(fr, t)
    ensures spoken == t <==> forall i :: 0 <= i < |fr| ==> |fr[i]| != 12
  {
    hide Printed, Spells, Search, Speak, Loads, SaidAll;
    ghost var s := Concat(chunks);
    MeaningOfPrinted(hex, s, m, fe, e, fr, t);
    SaidExactly(fr, t);
    spoken, emotion, reports := ParseAll(hex, document, chunks);
  }

  lemma MeaningOfPrinted(hex: HexReader, s: Str, m: Marks, fe: seq<Str>, e: Str, fr: seq<Str>, t: Str)
    requires HexLaw(hex) && SpellsAll(fe, e) && SpellsAll(fr, t)
    requires Printed(s, m, Concat(fe), Concat(fr))
    ensures EmotionOf(s) == Some(e)
    ensures Search(ResponsePattern, s).Some? && SpeechOf(hex, s).spoken == SaidAll(fr, t)
  {
    hide Spells, Speak, Loads, SaidAll, SearchFrom, KeyAt, At, HexLaw, ContentEnd, Blanks;
    FindsEmotion(s, m, fe, Concat(fr), e);
    LoadsSpelled(fe, e);
    KeyNames();
    KeyIs(s, m.key2, RESPONSE, m.colon2, m.open2);
    forall x: nat | x < m.key2 ensures MatchAt(ResponsePattern, s, x).None? {
      NoEarlierResponse(s, m, Concat(fe), Concat(fr), x);
    }
    SearchIs(ResponsePattern, s, 0, m.key2);
    SpeakClosed(hex, s[m.open2 + 1..], fr, t, m.close2 - m.open2 - 1);
  }

  /** The decoder stops at the closing quote, whatever follows. */
  lemma SpeakClosed(hex: HexReader, s: Str, fs: seq<Str>, t: Str, k: nat)
    requires HexLaw(hex) && SpellsAll(fs, t)
    requires k < |s| && s[..k] == Concat(fs) && s[k] == QUOTE
    ensures Speak(hex, SILENT, s).spoken == SaidAll(fs, t)
  {
    hide Spells, Speak, SaidAll, HexLaw;
    SpeakSpelled(hex, SILENT, fs, t);
    SpeakSnoc(hex, SILENT, s[..k], QUOTE);
    SpeakAppend(hex, SILENT, s[..k] + [QUOTE], s[k + 1..]);
    assert s == s[..k] + [QUOTE] + s[k + 1..];
    var st := Speak(hex, SILENT, s[..k] + [QUOTE]);
    SpeakDone(hex, st, s[k + 1..]);
    assert [] + SaidAll(fs, t) == SaidAll(fs, t);
  }

  /** The failing family in its smallest form: one character outside the basic plane,
      escaped as a pair, is spoken as two surrogates. */
  lemma PairIsSpokenApart()
    ensures var f: Str := [92, 117, 68, 56, 51, 68, 92, 117, 68, 69, 48, 48];   // \uD83D\uDE00
            Spells(f, 0x1F600) && Said(f, 0x1F600) == [0xD83D, 0xDE00]
  {
    hide SpellsHex;
    var f: Str := [92, 117, 68, 56, 51, 68, 92, 117, 68, 69, 48, 48];
    var hi, lo: Str := [68, 56, 51, 68], [68, 69, 48, 48];
    assert f[..6][2..] == hi && f[6..][2..] == lo;
    SpellsD83D();
    SpellsDE00();
  }

  lemma SpellsD83D()
    ensures SpellsHex([68, 56, 51, 68], 0xD83D)
  {
    Digits(13, 8, 3, 13, 0xD83D);
    assert HexChar(13, true) == 68 && HexChar(8, true) == 56 && HexChar(3, true) == 51;
  }

  lemma SpellsDE00()
    ensures SpellsHex([68, 69, 48, 48], 0xDE00)
  {
    Digits(13, 14, 0, 0, 0xDE00);
    assert HexChar(13, true) == 68 && HexChar(14, true) == 69 && HexChar(0, true) == 48;
  }
}
