/** `_InlineToolCallParser`: strips `<function=name>{json}</function>` markers out of a
    content stream that arrives in arbitrary pieces. */
module InlineToolCalls {
  import opened Options
  import opened PyText

  /** The two markers are fields of the parser; only their defaults are used. */
  datatype Tags = Tags(start: string, end: string) {
    function Awaited(open: bool): string {
      if open then end else start
    }
    predicate Valid() {
      start != "" && end != ""
    }
  }

  const DEFAULT_TAGS := Tags("<function=", "</function>")

  // ----- the one-shot scanner -----

  /** What a scan of a whole text finds: the text outside closed tags, the bodies of the
      closed tags, whether a tag is still open at the end, and the unscanned remainder
      (plain text, or the body so far of the open tag). */
  datatype Scanned = Scanned(out: string, bodies: seq<string>, open: bool, rest: string)

  /** Scan `t` after having found `out` and `bodies`: up to the first awaited marker it is
      text (outside a tag) or a body (inside one). */
  function ScanFrom(tags: Tags, out: string, bodies: seq<string>, open: bool, t: string): Scanned
    requires tags.Valid()
    decreases |t|
  {
    var i := Find(t, tags.Awaited(open));
    if i == -1 then Scanned(out, bodies, open, t)
    else
      var after := t[i + |tags.Awaited(open)|..];
      if open then ScanFrom(tags, out, bodies + [t[..i]], false, after)
      else ScanFrom(tags, out + t[..i], bodies, true, after)
  }

  function Scan(tags: Tags, t: string): Scanned
    requires tags.Valid()
  {
    ScanFrom(tags, "", [], false, t)
  }

  /** The visible text of a whole stream; a tag left open comes back verbatim. */
  function Visible(tags: Tags, t: string): string
    requires tags.Valid()
  {
    var s := Scan(tags, t);
    s.out + (if s.open then tags.start + s.rest else s.rest)
  }

  lemma FindInLonger(t: string, d: string, pat: string)
    requires Find(t, pat) != -1
    ensures Find(t + d, pat) == Find(t, pat)
  {
    var i := Find(t, pat);
    FindLaw(t, pat);
    AtPrefix(t, d, i, pat);
    forall k: nat | k < i ensures !At(t + d, k, pat) { AtPrefix(t, d, k, pat); }
    FindIs(t + d, pat, i);
  }

  /** Scanning can be suspended after any prefix and resumed: only what was found, the open
      flag and the unscanned remainder have to be carried over. */
  lemma {:induction false} ScanAppend(tags: Tags, out: string, bodies: seq<string>, open: bool, t: string, d: string)
    requires tags.Valid()
    ensures var s := ScanFrom(tags, out, bodies, open, t);
            ScanFrom(tags, out, bodies, open, t + d) == ScanFrom(tags, s.out, s.bodies, s.open, s.rest + d)
    decreases |t|
  {
    hide Find;
    var pat := tags.Awaited(open);
    var i := Find(t, pat);
    if i != -1 {
      FindInLonger(t, d, pat);
      var after := t[i + |pat|..];
      assert (t + d)[..i] == t[..i] && (t + d)[i + |pat|..] == after + d;
      if open {
        ScanAppend(tags, out, bodies + [t[..i]], false, after, d);
      } else {
        ScanAppend(tags, out + t[..i], bodies, true, after, d);
      }
    }
  }

  /** The remainder never contains the marker the scan is waiting for. */
  lemma {:induction false} RestIsClean(tags: Tags, out: string, bodies: seq<string>, open: bool, t: string)
    requires tags.Valid()
    ensures var s := ScanFrom(tags, out, bodies, open, t); Find(s.rest, tags.Awaited(s.open)) == -1
    decreases |t|
  {
    var pat := tags.Awaited(open);
    var i := Find(t, pat);
    if i != -1 {
      if open {
        RestIsClean(tags, out, bodies + [t[..i]], false, t[i + |pat|..]);
      } else {
        RestIsClean(tags, out + t[..i], bodies, true, t[i + |pat|..]);
      }
    }
  }

  // ----- tool calls -----

  datatype ToolCall<J> = ToolCall(id: string, name: string, arguments: J)

  function CallId(n: nat): string {
    "inline_" + Decimal(n)
  }

  /** JSON decoding, kept abstract: `loads` fails with None on malformed text. */
  datatype Json<!J> = Json(loads: string -> Option<J>, emptyObject: J, raw: string -> J)

  function Arguments<J>(json: Json<J>, text: string): J {
    if text == "" then json.emptyObject
    else match json.loads(text)
      case Some(j) => j
      case None => json.raw(text)
  }

  /** `_commit_tag`: a body without `>` is dropped silently. */
  function Commit<J>(json: Json<J>, calls: seq<ToolCall<J>>, body: string): seq<ToolCall<J>> {
    var gt := Find(body, ">");
    if gt == -1 then calls
    else calls + [ToolCall(CallId(|calls|), Strip(body[..gt]), Arguments(json, Strip(body[gt + 1..])))]
  }

  function CallsOf<J>(json: Json<J>, bodies: seq<string>): seq<ToolCall<J>> {
    if bodies == [] then [] else Commit(json, CallsOf(json, bodies[..|bodies| - 1]), bodies[|bodies| - 1])
  }

  lemma CallsOfSnoc<J>(json: Json<J>, bodies: seq<string>, body: string)
    ensures CallsOf(json, bodies + [body]) == Commit(json, CallsOf(json, bodies), body)
  {
    hide Commit;
    assert (bodies + [body])[..|bodies|] == bodies;
  }

  // ----- the incremental parser -----

  function Last(s: string, n: nat): string {
    if |s| <= n then s else s[|s| - n..]
  }

  /** The part of a remainder that has to be held back, and the part that need not be. */
  function Held(tags: Tags, s: Scanned): string
    requires tags.Valid()
  {
    Last(s.rest, |tags.Awaited(s.open)| - 1)
  }

  function LetGo(tags: Tags, s: Scanned): (r: string)
    requires tags.Valid()
    ensures s.rest == r + Held(tags, s)
  {
    s.rest[..|s.rest| - |Held(tags, s)|]
  }

  /** All text emitted by the feeds that delivered `t`. */
  function Emitted(tags: Tags, t: string): string
    requires tags.Valid()
  {
    var s := Scan(tags, t);
    if s.open then s.out else s.out + LetGo(tags, s)
  }

  /** A marker cannot begin in the part already let go: the held-back tail is long enough
      that such a marker would have been complete. */
  lemma HeldBackIsEnough(e: string, p: string, d: string, pat: string)
    requires Find(e + p, pat) == -1 && |pat| > 0
    requires e != "" ==> |p| >= |pat| - 1
    ensures NoneBefore(e + (p + d), |e|, pat)
  {
    assert e + (p + d) == (e + p) + d;
    FindLaw(e + p, pat);
    forall k: nat | k < |e| ensures !At(e + (p + d), k, pat) { AtPrefix(e + p, d, k, pat); }
  }

  lemma FindAfter(e: string, p: string, pat: string)
    requires NoneBefore(e + p, |e|, pat)
    ensures Find(e + p, pat) == if Find(p, pat) == -1 then -1 else |e| + Find(p, pat)
  {
    var i := Find(p, pat);
    FindLaw(p, pat);
    forall k: nat | |e| <= k ensures At(e + p, k, pat) == At(p, k - |e|, pat) { AtSuffix(e, p, k - |e|, pat); }
    if i != -1 { FindIs(e + p, pat, |e| + i); } else { FindNone(e + p, pat); }
  }

  /** Before the next marker is reached, letting text go changes nothing; when it is
      reached, the scan continues on the other side of it. */
  lemma ScanFound(tags: Tags, out: string, bodies: seq<string>, open: bool, e: string, p: string)
    requires tags.Valid()
    requires NoneBefore(e + p, |e|, tags.Awaited(open))
    ensures var pat := tags.Awaited(open);
            var i := Find(p, pat);
            ScanFrom(tags, out, bodies, open, e + p) ==
            if i == -1 then Scanned(out, bodies, open, e + p)
            else if open then ScanFrom(tags, out, bodies + [e + p[..i]], false, p[i + |pat|..])
            else ScanFrom(tags, out + (e + p[..i]), bodies, true, p[i + |pat|..])
  {
    hide Find;
    var pat := tags.Awaited(open);
    FindAfter(e, p, pat);
    var i := Find(p, pat);
    if i != -1 {
      assert (e + p)[..|e| + i] == e + p[..i];
      assert (e + p)[|e| + i + |pat|..] == p[i + |pat|..];
    }
  }

  /** What a feed has found so far: the text and the bodies up to the last marker, and the
      text let go since. */
  datatype Found = Found(out: string, bodies: seq<string>, loose: string)

  /** In the middle of a feed: `p` is pending, and no awaited marker begins in what was let go. */
  ghost predicate Mid(tags: Tags, fed: string, g: Found, open: bool, p: string) {
    && tags.Valid()
    && Scan(tags, fed) == ScanFrom(tags, g.out, g.bodies, open, g.loose + p)
    && (g.loose != "" ==> |p| >= |tags.Awaited(open)| - 1)
    && NoneBefore(g.loose + p, |g.loose|, tags.Awaited(open))
  }

  /** A feed starts where the last one left off. */
  function Resumed(tags: Tags, fed: string): Found
    requires tags.Valid()
  {
    Found(Scan(tags, fed).out, Scan(tags, fed).bodies, LetGo(tags, Scan(tags, fed)))
  }

  lemma MidStart(tags: Tags, fed: string, delta: string)
    requires tags.Valid()
    ensures var s := Scan(tags, fed);
            && Mid(tags, fed + delta, Resumed(tags, fed), s.open, Held(tags, s) + delta)
            && Emitted(tags, fed) == if s.open then s.out else s.out + LetGo(tags, s)
  {
    hide Find, ScanFrom, NoneBefore;
    var s := Scan(tags, fed);
    var e, p := LetGo(tags, s), Held(tags, s);
    RestIsClean(tags, "", [], false, fed);
    ScanAppend(tags, "", [], false, fed, delta);
    HeldBackIsEnough(e, p, delta, tags.Awaited(s.open));
    assert s.rest + delta == e + (p + delta);
  }

  /** A marker at `i` settles the text before it: visible text, or the body of a call. */
  function Settled(g: Found, open: bool, before: string): Found {
    if open then Found(g.out, g.bodies + [g.loose + before], "") else Found(g.out + (g.loose + before), g.bodies, "")
  }

  lemma MidFound(tags: Tags, fed: string, g: Found, open: bool, p: string, i: nat)
    requires Mid(tags, fed, g, open, p) && i == Find(p, tags.Awaited(open))
    ensures Mid(tags, fed, Settled(g, open, p[..i]), !open, p[i + |tags.Awaited(open)|..])
    ensures g.out + (g.loose + p[..i]) == (g.out + g.loose) + p[..i]
  {
    hide Find, Scan;
    ScanFound(tags, g.out, g.bodies, open, g.loose, p);
    var q := p[i + |tags.Awaited(open)|..];
    assert "" + q == q;
  }

  lemma FindInNothing(pat: string)
    requires pat != ""
    ensures Find("", pat) == -1
  {
  }

  /** How much of a pending text need not be held back. */
  function SafeLen(p: string, marker: string): (n: nat)
    ensures n <= |p|
  {
    if marker == "" then |p| else if |p| > |marker| - 1 then |p| - (|marker| - 1) else 0
  }

  lemma SafeLeavesShort(p: string, marker: string)
    requires marker != ""
    ensures |p| - SafeLen(p, marker) < |marker|
  {
  }

  lemma SafeNothing(marker: string)
    ensures SafeLen("", marker) == 0
  {
  }

  lemma NothingFound(tags: Tags, g: Found, open: bool, p: string)
    requires tags.Valid() && NoneBefore(g.loose + p, |g.loose|, tags.Awaited(open))
    requires p == "" || Find(p, tags.Awaited(open)) == -1
    ensures ScanFrom(tags, g.out, g.bodies, open, g.loose + p) == Scanned(g.out, g.bodies, open, g.loose + p)
  {
    hide ScanFrom, NoneBefore, Find;
    ScanFound(tags, g.out, g.bodies, open, g.loose, p);
    if p == "" { FindInNothing(tags.Awaited(open)); }
  }

  lemma MidEnd(tags: Tags, fed: string, g: Found, open: bool, p: string)
    requires Mid(tags, fed, g, open, p)
    requires p == "" || Find(p, tags.Awaited(open)) == -1
    ensures var s, n := Scan(tags, fed), SafeLen(p, tags.Awaited(open));
            && s.out == g.out && s.bodies == g.bodies && s.open == open
            && Held(tags, s) == p[n..] && LetGo(tags, s) == g.loose + p[..n]
            && Emitted(tags, fed) == if open then g.out else (g.out + g.loose) + p[..n]
  {
    hide Scan, ScanFrom, NoneBefore, Find, SafeLen, Held, LetGo;
    NothingFound(tags, g, open, p);
    HeldIs(tags, Scan(tags, fed), g.loose, p);
    var n := SafeLen(p, tags.Awaited(open));
    assert g.out + (g.loose + p[..n]) == (g.out + g.loose) + p[..n];
  }

  lemma HeldIs(tags: Tags, s: Scanned, e: string, p: string)
    requires tags.Valid() && s.rest == e + p && (e != "" ==> |p| >= |tags.Awaited(s.open)| - 1)
    ensures var n := SafeLen(p, tags.Awaited(s.open)); Held(tags, s) == p[n..] && LetGo(tags, s) == e + p[..n]
  {
    var n := SafeLen(p, tags.Awaited(s.open));
    assert s.rest == (e + p[..n]) + p[n..];
  }

  // ----- the parser's state -----

  datatype State<J> = State(pending: string, inTag: bool, tagBuf: string, calls: seq<ToolCall<J>>)

  /** Between feeds the whole state is a function of the text fed so far, however it was cut. */
  ghost predicate Ready<J>(tags: Tags, json: Json<J>, fed: string, st: State<J>) {
    && tags.Valid()
    && var s := Scan(tags, fed);
    && st.inTag == s.open
    && st.pending == Held(tags, s)
    && st.tagBuf == (if st.inTag then LetGo(tags, s) else "")
    && st.calls == CallsOf(json, s.bodies)
  }

  /** Inside a feed: `shown` is the text emitted since the beginning of the stream. */
  ghost predicate Feeding<J>(tags: Tags, json: Json<J>, fed: string, g: Found, shown: string, st: State<J>) {
    && Mid(tags, fed, g, st.inTag, st.pending)
    && shown == (if st.inTag then g.out else g.out + g.loose)
    && st.tagBuf == (if st.inTag then g.loose else "")
    && st.calls == CallsOf(json, g.bodies)
  }

  lemma FeedingStarts<J>(tags: Tags, json: Json<J>, fed: string, st: State<J>, delta: string)
    requires Ready(tags, json, fed, st)
    ensures Feeding(tags, json, fed + delta, Resumed(tags, fed), Emitted(tags, fed) + "",
            st.(pending := st.pending + delta))
  {
    hide Scan, Held, LetGo, Mid, CallsOf, Emitted;
    MidStart(tags, fed, delta);
    assert Emitted(tags, fed) + "" == Emitted(tags, fed);
  }

  /** A start marker: the text before it is shown. */
  lemma StartFound<J>(tags: Tags, json: Json<J>, fed: string, g: Found, shown: string, st: State<J>, i: nat)
    requires Feeding(tags, json, fed, g, shown, st) && !st.inTag && i == Find(st.pending, tags.start)
    ensures var p := st.pending;
            Feeding(tags, json, fed, Settled(g, false, p[..i]), shown + p[..i],
              State(p[i + |tags.start|..], true, "", st.calls))
  {
    hide Mid, CallsOf, Find;
    MidValid(tags, fed, g, false, st.pending);
    MidFound(tags, fed, g, false, st.pending, i);
  }

  /** An end marker: what was let go and what precedes the marker are the body of a call. */
  lemma EndFound<J>(tags: Tags, json: Json<J>, fed: string, g: Found, shown: string, st: State<J>, i: nat)
    requires Feeding(tags, json, fed, g, shown, st) && st.inTag && i == Find(st.pending, tags.end)
    ensures var p := st.pending;
            Feeding(tags, json, fed, Settled(g, true, p[..i]), shown,
                    State(p[i + |tags.end|..], false, "", Commit(json, st.calls, st.tagBuf + p[..i])))
  {
    hide Mid, CallsOf, Commit, Find;
    MidValid(tags, fed, g, true, st.pending);
    MidFound(tags, fed, g, true, st.pending, i);
    CallsOfSnoc(json, g.bodies, g.loose + st.pending[..i]);
    assert g.out + "" == g.out;
  }

  lemma MidValid(tags: Tags, fed: string, g: Found, open: bool, p: string)
    requires Mid(tags, fed, g, open, p)
    ensures tags.Valid()
  {
  }

  /** The state after all but a short tail of the pending text is let go. */
  function Released<J>(tags: Tags, st: State<J>): State<J>
    requires tags.Valid()
  {
    var n := SafeLen(st.pending, tags.Awaited(st.inTag));
    st.(pending := st.pending[n..], tagBuf := if st.inTag then st.tagBuf + st.pending[..n] else st.tagBuf)
  }

  /** No marker is left: all but a short tail is let go, and the feed is over. */
  lemma FeedingEnds<J>(tags: Tags, json: Json<J>, fed: string, g: Found, shown: string, st: State<J>)
    requires Feeding(tags, json, fed, g, shown, st)
    requires st.pending == "" || Find(st.pending, tags.Awaited(st.inTag)) == -1
    ensures tags.Valid() && Ready(tags, json, fed, Released(tags, st))
    ensures |Released(tags, st).pending| < |tags.Awaited(st.inTag)|
    ensures Emitted(tags, fed) ==
            if st.inTag then shown else shown + st.pending[..SafeLen(st.pending, tags.Awaited(st.inTag))]
  {
    hide Mid, CallsOf, Scan, Held, LetGo, Emitted, SafeLen, Find;
    MidValid(tags, fed, g, st.inTag, st.pending);
    MidEnd(tags, fed, g, st.inTag, st.pending);
    SafeLeavesShort(st.pending, tags.Awaited(st.inTag));
  }

  /** Nothing is pending: the feed is over as it stands. */
  lemma FeedingEndsEmpty<J>(tags: Tags, json: Json<J>, fed: string, g: Found, shown: string, st: State<J>)
    requires Feeding(tags, json, fed, g, shown, st) && st.pending == ""
    ensures Ready(tags, json, fed, st) && Emitted(tags, fed) == shown
  {
    hide Feeding, Ready, SafeLen, Emitted, Find;
    FeedingEnds(tags, json, fed, g, shown, st);
    SafeNothing(tags.Awaited(st.inTag));
    assert st.tagBuf + "" == st.tagBuf && shown + "" == shown;
  }

  /** A body splits at its first `>`. */
  lemma SplitsAt(body: string)
    ensures var i := Find(body, ">");
            if i == -1 then '>' !in body
            else '>' in body && body == body[..i] + ">" + body[i + 1..] && '>' !in body[..i]
  {
    hide Find;
    FindLaw(body, ">");
    var i := Find(body, ">");
    var n := if i == -1 then |body| else i;
    forall k | 0 <= k < n ensures body[k] != '>' { assert body[k..k + 1] == [body[k]] && !At(body, k, ">"); }
    if i != -1 { assert body[i..i + 1] == ">" && body[i] == '>'; }
  }

  /** What a call with the given name and arguments is: numbered, trimmed, and with arguments
      that are the empty object, the JSON value of their text, or the text itself as `_raw`. */
  ghost predicate IsCall<J>(json: Json<J>, call: ToolCall<J>, n: nat, name: string, args: string) {
    && call.id == "inline_" + Decimal(n) && call.name == Strip(name)
    && (Strip(args) == "" ==> call.arguments == json.emptyObject)
    && (Strip(args) != "" && json.loads(Strip(args)).Some? ==> Some(call.arguments) == json.loads(Strip(args)))
    && (Strip(args) != "" && json.loads(Strip(args)).None? ==> call.arguments == json.raw(Strip(args)))
  }

  class InlineToolCallParser<J> {
    const tags: Tags
    const json: Json<J>
    var pending: string
    var inTag: bool
    var tagBuf: string
    var toolCalls: seq<ToolCall<J>>
    /** Everything fed so far. */
    ghost var fed: string

    function Now(): State<J>
      reads this
    {
      State(pending, inTag, tagBuf, toolCalls)
    }

    ghost predicate Valid()
      reads this
    {
      tags.Valid() && Ready(tags, json, fed, Now())
    }

    constructor (tags: Tags, json: Json<J>)
      requires tags.Valid()
      ensures Valid() && fed == "" && this.tags == tags && this.json == json
      ensures Emitted(tags, fed) == ""
    {
      this.tags, this.json := tags, json;
      pending, inTag, tagBuf, toolCalls, fed := "", false, "", [], "";
    }

    method Feed(delta: string) returns (r: string)
      requires Valid()
      modifies this
      ensures Valid() && fed == old(fed) + delta
      ensures Emitted(tags, old(fed)) + r == Emitted(tags, fed)
      ensures |pending| < |tags.Awaited(inTag)|
    {
      hide Find, Resumed, Settled, Commit, Emitted, SafeLen, Ready, Feeding;
      ghost var g, before := Resumed(tags, fed), Emitted(tags, fed);
      FeedingStarts(tags, json, fed, Now(), delta);
      pending := pending + delta;
      fed := fed + delta;
      r := "";
      while pending != ""
        invariant fed == old(fed) + delta
        invariant Feeding(tags, json, fed, g, before + r, Now())
        decreases |pending|
      {
        if !inTag {
          var startIdx := Find(pending, tags.start);
          if startIdx == -1 {
            FeedingEnds(tags, json, fed, g, before + r, Now());
            var safe := TakeSafe(tags.start);
            assert before + (r + safe) == (before + r) + safe;
            r := r + safe;
            return;
          }
          StartFound(tags, json, fed, g, before + r, Now(), startIdx);
          g := Settled(g, false, pending[..startIdx]);
          assert before + (r + pending[..startIdx]) == (before + r) + pending[..startIdx];
          r := r + pending[..startIdx];
          EnterTag(startIdx);
        } else {
          var endIdx := Find(pending, tags.end);
          if endIdx == -1 {
            FeedingEnds(tags, json, fed, g, before + r, Now());
            var safe := TakeSafe(tags.end);
            tagBuf := tagBuf + safe;
            return;
          }
          EndFound(tags, json, fed, g, before + r, Now(), endIdx);
          g := Settled(g, true, pending[..endIdx]);
          LeaveTag(endIdx);
        }
      }
      FeedingEndsEmpty(tags, json, fed, g, before + r, Now());
    }

    method EnterTag(startIdx: nat)
      requires startIdx + |tags.start| <= |pending|
      modifies this`pending, this`inTag, this`tagBuf
      ensures pending == old(pending)[startIdx + |tags.start|..] && inTag && tagBuf == ""
    {
      pending := pending[startIdx + |tags.start|..];
      inTag := true;
      tagBuf := "";
    }

    method LeaveTag(endIdx: nat)
      requires endIdx + |tags.end| <= |pending|
      modifies this`pending, this`inTag, this`tagBuf, this`toolCalls
      ensures pending == old(pending)[endIdx + |tags.end|..] && !inTag && tagBuf == ""
      ensures toolCalls == Commit(json, old(toolCalls), old(tagBuf) + old(pending)[..endIdx])
    {
      hide Commit;
      tagBuf := tagBuf + pending[..endIdx];
      pending := pending[endIdx + |tags.end|..];
      CommitTag();
      inTag := false;
      tagBuf := "";
    }

    /** Everything but a tail that could be the beginning of the marker. */
    method TakeSafe(marker: string) returns (safe: string)
      modifies this`pending
      ensures safe == old(pending)[..SafeLen(old(pending), marker)]
      ensures pending == old(pending)[SafeLen(old(pending), marker)..]
    {
      var keep := |marker| - 1;
      var safeLen := if |pending| > keep then |pending| - keep else 0;
      safeLen := if safeLen > |pending| then |pending| else safeLen;
      safe := "";
      if safeLen > 0 {
        safe := pending[..safeLen];
        pending := pending[safeLen..];
      }
    }

    method CommitTag()
      modifies this`toolCalls
      ensures toolCalls == Commit(json, old(toolCalls), tagBuf)
      ensures '>' !in tagBuf ==> toolCalls == old(toolCalls)
      ensures '>' in tagBuf ==>
                && |toolCalls| == |old(toolCalls)| + 1 && toolCalls[..|old(toolCalls)|] == old(toolCalls)
                && exists name, args :: tagBuf == name + ">" + args && '>' !in name
                                        && IsCall(json, toolCalls[|old(toolCalls)|], |old(toolCalls)|, name, args)
    {
      var gt := Find(tagBuf, ">");
      SplitsAt(tagBuf);
      if gt == -1 { return; }
      var name := Strip(tagBuf[..gt]);
      var argsStr := Strip(tagBuf[gt + 1..]);
      toolCalls := toolCalls + [ToolCall(CallId(|toolCalls|), name, Arguments(json, argsStr))];
    }

    /** End of stream: what is left is emitted, and the parser is ready for another text. */
    method Flush() returns (r: string)
      requires Valid()
      modifies this
      ensures Emitted(tags, old(fed)) + r == Visible(tags, old(fed))
      ensures toolCalls == old(toolCalls)
      ensures !inTag && pending == "" && tagBuf == "" && fed == ""
    {
      hide Scan, ScanFrom, Held, LetGo, CallsOf;
      if inTag {
        r := tags.start + tagBuf + pending;
        inTag := false;
        tagBuf := "";
      } else {
        r := pending;
      }
      pending := "";
      fed := "";
    }
  }

  /** The streaming consumer: feed every delta, flush once. Whatever the cuts, the visible
      text and the calls are those of the one-shot scanner on the whole text. */
  method ParseStream<J>(tags: Tags, json: Json<J>, deltas: seq<string>)
    returns (text: string, calls: seq<ToolCall<J>>)
    requires tags.Valid()
    ensures text == Visible(tags, Concat(deltas))
    ensures calls == CallsOf(json, Scan(tags, Concat(deltas)).bodies)
  {
    hide Scan, ScanFrom, CallsOf, Held, LetGo, Emitted;
    var parser := new InlineToolCallParser(tags, json);
    text := "";
    for i := 0 to |deltas|
      invariant parser.Valid() && parser.json == json && parser.tags == tags && fresh(parser)
      invariant parser.fed == Concat(deltas[..i])
      invariant text == Emitted(tags, parser.fed)
    {
      var r := parser.Feed(deltas[i]);
      text := text + r;
      assert deltas[..i + 1] == deltas[..i] + [deltas[i]];
      ConcatSnoc(deltas[..i], deltas[i]);
    }
    assert deltas[..|deltas|] == deltas;
    var tail := parser.Flush();
    text := text + tail;
    calls := parser.toolCalls;
  }

  // ----- what the scanner means -----

  /** The first character of a marker occurs nowhere else in it. */
  predicate Unbordered(pat: string) {
    pat != "" && forall j :: 0 < j < |pat| ==> pat[j] != pat[0]
  }

  predicate GoodTags(tags: Tags) {
    tags.Valid() && Unbordered(tags.start) && Unbordered(tags.end)
  }

  lemma DefaultTagsGood()
    ensures GoodTags(DEFAULT_TAGS)
  {
  }

  /** Such a marker cannot straddle the end of a text that does not contain it. */
  lemma FirstAtEnd(seg: string, pat: string, after: string)
    requires Find(seg, pat) == -1 && Unbordered(pat)
    ensures Find(seg + pat + after, pat) == |seg|
    ensures (seg + pat + after)[..|seg|] == seg && (seg + pat + after)[|seg| + |pat|..] == after
  {
    var t := seg + pat + after;
    FindLaw(seg, pat);
    assert t == seg + (pat + after);
    assert t[|seg|..|seg| + |pat|] == pat;
    forall k: nat | k < |seg| ensures !At(t, k, pat) {
      if k + |pat| <= |seg| {
        AtPrefix(seg, pat + after, k, pat);
      } else if k + |pat| <= |t| {
        assert t[k..k + |pat|][|seg| - k] == t[|seg|] == pat[0];
      }
    }
    FindIs(t, pat, |seg|);
  }

  /** A tag that never closes comes back character for character. */
  lemma HalfOpenVerbatim(tags: Tags, seg: string, body: string)
    requires tags.Valid() && Unbordered(tags.start)
    requires Find(seg, tags.start) == -1 && Find(body, tags.end) == -1
    ensures Visible(tags, seg + tags.start + body) == seg + tags.start + body
    ensures Scan(tags, seg + tags.start + body).bodies == []
  {
    FirstAtEnd(seg, tags.start, body);
    assert ScanFrom(tags, seg, [], true, body) == Scanned(seg, [], true, body);
    assert "" + seg == seg;
    assert seg + (tags.start + body) == seg + tags.start + body;
  }

  // ----- printing and parsing undo each other -----

  datatype Printed = Printed(name: string, args: string)

  function Body(c: Printed): string {
    c.name + ">" + c.args
  }

  /** A call that survives printing: no `>` in the name, no end marker inside. */
  predicate Printable(tags: Tags, c: Printed) {
    '>' !in c.name && Find(Body(c), tags.end) == -1
  }

  function Print(tags: Tags, segs: seq<string>, calls: seq<Printed>): string
    requires |segs| == |calls| + 1
  {
    if calls == [] then segs[0]
    else segs[0] + tags.start + (Body(calls[0]) + tags.end + Print(tags, segs[1..], calls[1..]))
  }

  function Bodies(calls: seq<Printed>): seq<string> {
    seq(|calls|, i requires 0 <= i < |calls| => Body(calls[i]))
  }

  /** The calls a printed list stands for, numbered in order; whitespace around the name and
      around the arguments is not part of them. */
  function Meant<J>(json: Json<J>, calls: seq<Printed>): seq<ToolCall<J>> {
    seq(|calls|, i requires 0 <= i < |calls| =>
      ToolCall(CallId(i), Strip(calls[i].name), Arguments(json, Strip(calls[i].args))))
  }

  predicate Roundtrips(tags: Tags, segs: seq<string>, calls: seq<Printed>) {
    && |segs| == |calls| + 1
    && (forall i :: 0 <= i < |segs| ==> Find(segs[i], tags.start) == -1)
    && (forall i :: 0 <= i < |calls| ==> Printable(tags, calls[i]))
  }

  /** One segment and one call are consumed exactly. */
  lemma ScanOne(tags: Tags, out: string, bodies: seq<string>, seg: string, body: string, inner: string)
    requires GoodTags(tags)
    requires Find(seg, tags.start) == -1 && Find(body, tags.end) == -1
    ensures ScanFrom(tags, out, bodies, false, seg + tags.start + (body + tags.end + inner)) ==
            ScanFrom(tags, out + seg, bodies + [body], false, inner)
  {
    hide Find;
    var tail := body + tags.end + inner;
    FirstAtEnd(seg, tags.start, tail);
    FirstAtEnd(body, tags.end, inner);
    assert ScanFrom(tags, out, bodies, false, seg + tags.start + tail) == ScanFrom(tags, out + seg, bodies, true, tail);
  }

  lemma {:induction false} ScanPrinted(tags: Tags, out: string, bodies: seq<string>, segs: seq<string>,
                                       calls: seq<Printed>)
    requires GoodTags(tags) && Roundtrips(tags, segs, calls)
    ensures var s := ScanFrom(tags, out, bodies, false, Print(tags, segs, calls));
            !s.open && s.out + s.rest == out + Concat(segs) && s.bodies == bodies + Bodies(calls)
    decreases |calls|
  {
    hide Find, Body;
    if calls == [] {
      assert segs == [segs[0]] && Concat(segs) == segs[0] + Concat<char>([]);
      assert segs[0] + [] == segs[0];
    } else {
      hide ScanFrom;
      var body := Body(calls[0]);
      ScanOne(tags, out, bodies, segs[0], body, Print(tags, segs[1..], calls[1..]));
      ScanPrinted(tags, out + segs[0], bodies + [body], segs[1..], calls[1..]);
      assert (out + segs[0]) + Concat(segs[1..]) == out + Concat(segs);
      assert bodies + Bodies(calls) == (bodies + [body]) + Bodies(calls[1..]);
    }
  }

  lemma NameEnds(c: Printed)
    requires '>' !in c.name
    ensures var b := Body(c); Find(b, ">") == |c.name| && b[..|c.name|] == c.name && b[|c.name| + 1..] == c.args
  {
    hide Find;
    forall k: nat | k < |c.name| ensures !At(c.name, k, ">") { assert c.name[k] in c.name; }
    FindNone(c.name, ">");
    FirstAtEnd(c.name, ">", c.args);
  }

  lemma CommitOne<J>(json: Json<J>, calls: seq<ToolCall<J>>, c: Printed)
    requires '>' !in c.name
    ensures Commit(json, calls, Body(c)) ==
            calls + [ToolCall(CallId(|calls|), Strip(c.name), Arguments(json, Strip(c.args)))]
  {
    hide Find, Strip, CallId, Body, Arguments;
    NameEnds(c);
  }

  lemma {:induction false} CommitPrinted<J>(json: Json<J>, tags: Tags, calls: seq<Printed>)
    requires forall i :: 0 <= i < |calls| ==> Printable(tags, calls[i])
    ensures CallsOf(json, Bodies(calls)) == Meant(json, calls)
  {
    hide Commit, Find, Strip, CallId;
    if calls != [] {
      var n := |calls| - 1;
      CommitPrinted(json, tags, calls[..n]);
      assert Bodies(calls)[..n] == Bodies(calls[..n]);
      CommitOne(json, Meant(json, calls[..n]), calls[n]);
      assert Bodies(calls) == Bodies(calls[..n]) + [Body(calls[n])];
      CallsOfSnoc(json, Bodies(calls[..n]), Body(calls[n]));
      assert Meant(json, calls)[..n] == Meant(json, calls[..n]);
    }
  }

  /** Text segments interleaved with printed calls, cut anywhere: the stream shows exactly
      the segments and yields exactly the calls. */
  method PrintThenParse<J>(json: Json<J>, segs: seq<string>, calls: seq<Printed>, deltas: seq<string>)
    returns (text: string, parsed: seq<ToolCall<J>>)
    requires Roundtrips(DEFAULT_TAGS, segs, calls)
    requires Concat(deltas) == Print(DEFAULT_TAGS, segs, calls)
    ensures text == Concat(segs) && |parsed| == |calls|
    ensures forall i :: 0 <= i < |calls| ==>
              var text := Strip(calls[i].args);
              && parsed[i].id == "inline_" + Decimal(i) && parsed[i].name == Strip(calls[i].name)
              && (text == "" ==> parsed[i].arguments == json.emptyObject)
              && (text != "" && json.loads(text).Some? ==> Some(parsed[i].arguments) == json.loads(text))
              && (text != "" && json.loads(text).None? ==> parsed[i].arguments == json.raw(text))
  {
    hide Find, ScanFrom, Print, Concat, CallsOf, Commit, GoodTags;
    DefaultTagsGood();
    ScanPrinted(DEFAULT_TAGS, "", [], segs, calls);
    CommitPrinted(json, DEFAULT_TAGS, calls);
    assert "" + Concat(segs) == Concat(segs) && [] + Bodies(calls) == Bodies(calls);
    text, parsed := ParseStream(DEFAULT_TAGS, json, deltas);
  }
}
