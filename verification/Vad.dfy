/** The voice-activity recorders: a leaky counter decides when speech begins, a ring buffer
    keeps what came just before, and a run of silence or a length cap ends the recording. */
module Vad {

  /** A classified frame: `on` is the test used while waiting, `off` the one used while
      recording (the energy recorder uses a lower threshold there). */
  datatype Frame = Frame(on: bool, off: bool, data: int)

  /** One turn of the listening loop: a stop request, a short read, or a frame. */
  datatype Tick = Stop | Short | Heard(frame: Frame)

  datatype Outcome = Stopped | Listening | Audio(data: seq<int>)

  datatype Settings = Settings(minSpeech: nat, silence: nat, maxFrames: int, preRoll: nat) {
    predicate Valid() {
      minSpeech >= 1 && silence >= 1 && preRoll >= 1
    }
  }

  // ----- the leaky counter -----

  function Leak(fs: seq<Frame>): nat {
    if fs == [] then 0
    else
      var c := Leak(fs[..|fs| - 1]);
      if fs[|fs| - 1].on then c + 1 else if c > 0 then c - 1 else 0
  }

  /** Speech frames minus the other frames. */
  function Surplus(fs: seq<Frame>): int {
    if fs == [] then 0 else Surplus(fs[..|fs| - 1]) + (if fs[|fs| - 1].on then 1 else -1)
  }

  /** The suffix whose surplus the counter equals. */
  function Best(fs: seq<Frame>): (k: nat)
    ensures k <= |fs|
  {
    if fs == [] then 0
    else if !fs[|fs| - 1].on && Leak(fs[..|fs| - 1]) == 0 then |fs|
    else Best(fs[..|fs| - 1])
  }

  lemma SurplusSnoc(fs: seq<Frame>, k: nat)
    requires k < |fs|
    ensures Surplus(fs[k..]) == Surplus(fs[..|fs| - 1][k..]) + (if fs[|fs| - 1].on then 1 else -1)
  {
    assert fs[k..][..|fs[k..]| - 1] == fs[..|fs| - 1][k..];
  }

  /** The leaky counter is exactly the largest surplus of speech over all suffixes of what
      was heard, the empty one included. */
  lemma {:induction false} LeakIsMaxSurplus(fs: seq<Frame>)
    ensures Surplus(fs[Best(fs)..]) == Leak(fs)
    ensures forall k :: 0 <= k <= |fs| ==> Surplus(fs[k..]) <= Leak(fs)
  {
    assert fs[|fs|..] == [];
    if fs != [] {
      LeakIsMaxSurplus(fs[..|fs| - 1]);
      forall k | 0 <= k < |fs| ensures Surplus(fs[k..]) <= Leak(fs) { SurplusSnoc(fs, k); }
      if Best(fs) < |fs| { SurplusSnoc(fs, Best(fs)); }
    }
  }

  /** Recording starts with frame `t`: the first at which the counter reaches the threshold. */
  ghost predicate IsOnset(fs: seq<Frame>, t: nat, m: nat) {
    t <= |fs| && Leak(fs[..t]) >= m && forall j: nat :: 0 <= j < t ==> Leak(fs[..j]) < m
  }

  /** Some recent stretch of frames has at least `m` more speech frames than others. */
  ghost predicate Sustained(fs: seq<Frame>, m: nat) {
    exists k :: 0 <= k <= |fs| && Surplus(fs[k..]) >= m
  }

  lemma SustainedIff(fs: seq<Frame>, m: nat)
    ensures Sustained(fs, m) <==> Leak(fs) >= m
  {
    LeakIsMaxSurplus(fs);
  }

  /** So recording starts exactly at the first frame at which speech has been sustained. */
  lemma OnsetIff(fs: seq<Frame>, t: nat, m: nat)
    ensures IsOnset(fs, t, m) <==>
            t <= |fs| && Sustained(fs[..t], m) && forall j: nat :: 0 <= j < t ==> !Sustained(fs[..j], m)
  {
    hide Leak, Sustained;
    if t <= |fs| {
      forall j: nat | 0 <= j <= t ensures Sustained(fs[..j], m) <==> Leak(fs[..j]) >= m { SustainedIff(fs[..j], m); }
    }
  }

  // ----- the end of a recording -----

  /** The silence counter: the frames since the last one with speech. */
  function Trail(fs: seq<Frame>): nat {
    if fs == [] || fs[|fs| - 1].off then 0 else Trail(fs[..|fs| - 1]) + 1
  }

  lemma {:induction false} TrailIff(fs: seq<Frame>, s: nat)
    ensures Trail(fs) >= s <==> s <= |fs| && forall i :: |fs| - s <= i < |fs| ==> !fs[i].off
  {
    if fs != [] && !fs[|fs| - 1].off && s > 0 {
      TrailIff(fs[..|fs| - 1], s - 1);
      assert forall i :: 0 <= i < |fs| - 1 ==> fs[i] == fs[..|fs| - 1][i];
    }
  }

  /** The first frame kept: at most the pre-roll before the onset, which it includes. */
  function From(t: nat, c: Settings): nat {
    if t < c.preRoll then 0 else t - c.preRoll
  }

  /** A recording begun at `t` is over once `j` frames have been heard. */
  ghost predicate Ends(fs: seq<Frame>, t: nat, j: nat, c: Settings)
    requires t <= j <= |fs|
  {
    Trail(fs[t..j]) >= c.silence || j - From(t, c) >= c.maxFrames
  }

  /** The frames `fs` are a complete recording with onset `t`, and not a frame more. */
  ghost predicate Complete(fs: seq<Frame>, t: nat, c: Settings) {
    && IsOnset(fs, t, c.minSpeech) && t < |fs| && Ends(fs, t, |fs|, c)
    && forall j: nat :: t < j < |fs| ==> !Ends(fs, t, j, c)
  }

  /** No recording is complete yet. */
  ghost predicate Waiting(fs: seq<Frame>, c: Settings) {
    forall t: nat, j: nat :: IsOnset(fs, t, c.minSpeech) && t < j <= |fs| ==> !Ends(fs, t, j, c)
  }

  function Data(fs: seq<Frame>): seq<int> {
    seq(|fs|, i requires 0 <= i < |fs| => fs[i].data)
  }

  /** The frames of a stretch of the loop, short inputs skipped. */
  function Frames(ticks: seq<Tick>): seq<Frame> {
    if ticks == [] then []
    else Frames(ticks[..|ticks| - 1]) + (if ticks[|ticks| - 1].Heard? then [ticks[|ticks| - 1].frame] else [])
  }

  predicate NoStop(ticks: seq<Tick>) {
    forall i :: 0 <= i < |ticks| ==> !ticks[i].Stop?
  }

  lemma FramesSnoc(ticks: seq<Tick>, i: nat)
    requires i < |ticks|
    ensures Frames(ticks[..i + 1]) == Frames(ticks[..i]) + (if ticks[i].Heard? then [ticks[i].frame] else [])
  {
    assert ticks[..i + 1][..i] == ticks[..i];
  }

  lemma LeakSnoc(fs: seq<Frame>, f: Frame)
    ensures Leak(fs + [f]) == if f.on then Leak(fs) + 1 else if Leak(fs) > 0 then Leak(fs) - 1 else 0
  {
    assert (fs + [f])[..|fs|] == fs;
  }

  /** While waiting, every prefix is below the threshold. */
  ghost predicate Below(fs: seq<Frame>, m: nat) {
    forall j: nat :: 0 <= j <= |fs| ==> Leak(fs[..j]) < m
  }

  lemma BelowSnoc(fs: seq<Frame>, f: Frame, m: nat)
    requires Below(fs, m)
    ensures Leak(fs + [f]) < m ==> Below(fs + [f], m)
    ensures Leak(fs + [f]) >= m ==> IsOnset(fs + [f], |fs| + 1, m)
  {
    hide Leak;
    forall j: nat | 0 <= j <= |fs| ensures (fs + [f])[..j] == fs[..j] && Leak(fs[..j]) < m { }
    assert (fs + [f])[..|fs| + 1] == fs + [f];
  }

  lemma BelowWaits(fs: seq<Frame>, c: Settings)
    requires Below(fs, c.minSpeech)
    ensures Waiting(fs, c)
  {
    hide Leak, Ends;
    forall t: nat ensures !IsOnset(fs, t, c.minSpeech) {
      assert t <= |fs| ==> Leak(fs[..t]) < c.minSpeech;
    }
  }

  lemma OnsetUnique(fs: seq<Frame>, t: nat, u: nat, m: nat)
    requires IsOnset(fs, t, m) && IsOnset(fs, u, m)
    ensures t == u
  {
  }

  /** Recording since `t`, and not over. */
  ghost predicate Going(fs: seq<Frame>, t: nat, c: Settings) {
    IsOnset(fs, t, c.minSpeech) && forall j: nat :: t < j <= |fs| ==> !Ends(fs, t, j, c)
  }

  lemma GoingWaits(fs: seq<Frame>, t: nat, c: Settings)
    requires Going(fs, t, c)
    ensures Waiting(fs, c)
  {
    hide IsOnset, Ends;
    forall u: nat, j: nat | IsOnset(fs, u, c.minSpeech) && u < j <= |fs| ensures !Ends(fs, u, j, c) {
      OnsetUnique(fs, t, u, c.minSpeech);
    }
  }

  lemma GoingSnoc(fs: seq<Frame>, f: Frame, t: nat, c: Settings)
    requires Going(fs, t, c)
    ensures var gs := fs + [f];
            && Trail(gs[t..]) == (if f.off then 0 else Trail(fs[t..]) + 1)
            && if Trail(gs[t..]) >= c.silence || |gs| - From(t, c) >= c.maxFrames
               then Complete(gs, t, c) else Going(gs, t, c)
  {
    hide Leak;
    var gs := fs + [f];
    assert gs[t..][..|gs[t..]| - 1] == fs[t..];
    assert gs[t..|gs|] == gs[t..];
    forall j: nat | j <= t ensures Leak(gs[..j]) == Leak(fs[..j]) { assert gs[..j] == fs[..j]; }
    forall j: nat | t < j <= |fs| ensures Ends(gs, t, j, c) == Ends(fs, t, j, c) { assert gs[t..j] == fs[t..j]; }
  }

  /** The listening loop of both recorders. `n` ticks were consumed. */
  method Listen(ticks: seq<Tick>, c: Settings) returns (r: Outcome, n: nat, onset: nat)
    requires c.Valid()
    ensures n <= |ticks| && NoStop(ticks[..n])
    ensures r.Stopped? ==> n < |ticks| && ticks[n].Stop? && Waiting(Frames(ticks[..n]), c)
    ensures r.Listening? ==> n == |ticks| && Waiting(Frames(ticks), c)
    ensures r.Audio? ==> Complete(Frames(ticks[..n]), onset, c) && r.data == Data(Frames(ticks[..n])[From(onset, c)..])
  {
    hide Frames, Going, Below, Complete, Waiting, Leak, Trail;
    var ring: seq<int>, recorded: seq<int> := [], [];
    var speechCount, silenceCount, inSpeech := 0, 0, false;
    onset, n := 0, 0;
    var heard := 0;
    ghost var fs: seq<Frame> := [];
    Silence(c);
    while n < |ticks|
      invariant n <= |ticks| && NoStop(ticks[..n]) && fs == Frames(ticks[..n]) && heard == |fs|
      invariant !inSpeech ==> Below(fs, c.minSpeech) && speechCount == Leak(fs) && ring == Data(fs[From(|fs|, c)..])
      invariant inSpeech ==>
                && onset <= |fs| && Going(fs, onset, c) && silenceCount == Trail(fs[onset..])
                && recorded == Data(fs[From(onset, c)..])
    {
      if ticks[n].Stop? {
        if inSpeech { GoingWaits(fs, onset, c); } else { BelowWaits(fs, c); }
        return Stopped, n, onset;
      }
      FramesSnoc(ticks, n);
      n := n + 1;
      if ticks[n - 1].Short? { continue; }
      var frame := ticks[n - 1].frame;
      ghost var before := fs;
      fs := fs + [frame];
      heard := heard + 1;
      if !inSpeech {
        ring := ring + [frame.data];
        if |ring| > c.preRoll { ring := ring[1..]; }
        RingHolds(before, frame, c);
        LeakSnoc(before, frame);
        BelowSnoc(before, frame, c.minSpeech);
        if frame.on {
          speechCount := speechCount + 1;
          if speechCount >= c.minSpeech {
            inSpeech := true;
            recorded := ring;
            silenceCount := 0;
            onset := heard;
            JustBegun(fs, c);
          }
        } else {
          speechCount := if speechCount > 0 then speechCount - 1 else 0;
          StillBelow(before, frame, c.minSpeech);
        }
      } else {
        recorded := recorded + [frame.data];
        GoingSnoc(before, frame, onset, c);
        assert fs[From(onset, c)..] == before[From(onset, c)..] + [frame];
        if frame.off {
          silenceCount := 0;
        } else {
          silenceCount := silenceCount + 1;
          if silenceCount >= c.silence {
            return Audio(recorded), n, onset;
          }
        }
        if |recorded| >= c.maxFrames {
          return Audio(recorded), n, onset;
        }
      }
    }
    assert ticks[..|ticks|] == ticks;
    if inSpeech { GoingWaits(fs, onset, c); } else { BelowWaits(fs, c); }
    r := Listening;
  }

  lemma Silence(c: Settings)
    requires c.Valid()
    ensures Frames([]) == [] && Below([], c.minSpeech) && Leak([]) == 0
  {
  }

  lemma StillBelow(fs: seq<Frame>, f: Frame, m: nat)
    requires Below(fs, m) && !f.on
    ensures Leak(fs + [f]) < m || m == 0
  {
    LeakSnoc(fs, f);
    assert fs[..|fs|] == fs;
  }

  lemma JustBegun(fs: seq<Frame>, c: Settings)
    requires IsOnset(fs, |fs|, c.minSpeech)
    ensures Going(fs, |fs|, c) && Trail(fs[|fs|..]) == 0
  {
  }

  lemma RingHolds(fs: seq<Frame>, f: Frame, c: Settings)
    requires c.Valid()
    ensures var ring := Data(fs[From(|fs|, c)..]) + [f.data];
            (if |ring| > c.preRoll then ring[1..] else ring) == Data((fs + [f])[From(|fs| + 1, c)..])
  {
  }

  /** The recording is one contiguous slice of the frames, at least one frame longer than
      the kept lead-in, and never longer than the cap, or than the pre-roll plus one frame
      where the cap is smaller. It ends in the required run of silence or at the cap. */
  lemma RecordingBounds(fs: seq<Frame>, t: nat, c: Settings)
    requires c.Valid() && Complete(fs, t, c)
    ensures var a := fs[From(t, c)..];
            && t < |fs| && t - From(t, c) <= c.preRoll
            && (|a| <= c.maxFrames || |a| <= c.preRoll + 1)
            && (|a| >= c.maxFrames || (|a| >= c.silence && forall i :: |a| - c.silence <= i < |a| ==> !a[i].off))
  {
    hide Leak, Trail;
    var a := fs[From(t, c)..];
    if t + 1 < |fs| { assert !Ends(fs, t, |fs| - 1, c); }
    assert fs[t..|fs|] == fs[t..];
    TrailIff(fs[t..], c.silence);
    if |a| < c.maxFrames {
      forall i | |a| - c.silence <= i < |a| ensures !a[i].off {
        assert a[i] == fs[t..][i - (t - From(t, c))];
      }
    }
  }

  // ----- the three users -----

  const FRAME_MS := 30

  /** `max(1, ms // FRAME_MS)` */
  function FrameCount(ms: int): (n: nat)
    ensures n >= 1
  {
    if ms / FRAME_MS > 1 then ms / FRAME_MS else 1
  }

  /** What the microphone and the WebRTC classifier deliver. A classifier that raises counts
      as no speech. */
  datatype WebRtcRead = WebRtcRead(stop: bool, full: bool, raises: bool, speech: bool, data: int)

  function WebRtcTick(r: WebRtcRead): Tick {
    if r.stop then Stop else if !r.full then Short else var s := r.speech && !r.raises; Heard(Frame(s, s, r.data))
  }

  method RecordWebRtc(inputs: seq<WebRtcRead>, minSpeechMs: int, silenceMs: int, maxFrames: int, preRollMs: int)
    returns (r: Outcome, n: nat, onset: nat)
    ensures n <= |inputs|
    ensures forall i :: 0 <= i < n ==> !inputs[i].stop
    ensures r.Stopped? ==> n < |inputs| && inputs[n].stop
    ensures r.Listening? ==> n == |inputs|
    ensures forall heard: seq<Tick> ::
              && |heard| == n
              && (forall i :: 0 <= i < n ==>
                    var speech := inputs[i].speech && !inputs[i].raises;
                    heard[i] == if inputs[i].full then Heard(Frame(speech, speech, inputs[i].data)) else Short) ==>
            Records(r, Frames(heard), onset, minSpeechMs / 30, silenceMs / 30, maxFrames, preRollMs / 30)
  {
    hide Complete, Frames, Waiting;
    var ticks := seq(|inputs|, i requires 0 <= i < |inputs| => WebRtcTick(inputs[i]));
    r, n, onset :=
      Listen(ticks, Settings(FrameCount(minSpeechMs), FrameCount(silenceMs), maxFrames, FrameCount(preRollMs)));
    assert forall i :: 0 <= i < n ==> ticks[..n][i] == WebRtcTick(inputs[i]);
    forall heard: seq<Tick>
      | |heard| == n && forall i :: 0 <= i < n ==>
          var speech := inputs[i].speech && !inputs[i].raises;
          heard[i] == if inputs[i].full then Heard(Frame(speech, speech, inputs[i].data)) else Short
      ensures heard == ticks[..n]
    {
    }
  }

  datatype EnergyRead = EnergyRead(stop: bool, energy: real, data: int)

  function EnergyTick(r: EnergyRead, onThreshold: real): Tick {
    if r.stop then Stop else Heard(Frame(r.energy > onThreshold, r.energy > onThreshold * 0.55, r.data))
  }

  /** What a recorder with the given numbers of frames, each of them at least one, makes of the
      frames it heard. */
  ghost predicate Records(r: Outcome, fs: seq<Frame>, onset: nat, minSpeech: int, silence: int, maxFrames: int,
                          preRoll: int) {
    var c := Settings(if minSpeech < 1 then 1 else minSpeech, if silence < 1 then 1 else silence, maxFrames,
                      if preRoll < 1 then 1 else preRoll);
    if r.Audio? then Complete(fs, onset, c) && r.data == Data(fs[From(onset, c)..]) else Waiting(fs, c)
  }

  // ----- calibration -----

  function InsertSorted(s: seq<real>, x: real): seq<real> {
    if s == [] then [x]
    else
      var n := |s| - 1;
      if s[n] <= x then s + [x] else InsertSorted(s[..n], x) + [s[n]]
  }

  function Sort(s: seq<real>): (r: seq<real>)
    ensures |r| == |s|
  {
    if s == [] then [] else
      SortedSize(Sort(s[..|s| - 1]), s[|s| - 1]);
      InsertSorted(Sort(s[..|s| - 1]), s[|s| - 1])
  }

  lemma {:induction false} SortedSize(s: seq<real>, x: real)
    ensures |InsertSorted(s, x)| == |s| + 1
  {
    if s != [] { SortedSize(s[..|s| - 1], x); }
  }

  /** `np.median`: the middle energy, or the mean of the two in the middle. */
  function Median(s: seq<real>): real
    requires s != []
  {
    (Sort(s)[(|s| - 1) / 2] + Sort(s)[|s| / 2]) / 2.0
  }

  /** How many energies are above `m`, and how many below. */
  function Louder(s: seq<real>, m: real): nat {
    if s == [] then 0 else Louder(s[..|s| - 1], m) + (if s[|s| - 1] > m then 1 else 0)
  }

  function Quieter(s: seq<real>, m: real): nat {
    if s == [] then 0 else Quieter(s[..|s| - 1], m) + (if s[|s| - 1] < m then 1 else 0)
  }

  ghost predicate Ascending(s: seq<real>) {
    forall i, j :: 0 <= i <= j < |s| ==> s[i] <= s[j]
  }

  lemma {:induction false} InsertBelow(s: seq<real>, x: real, b: real)
    requires x <= b && forall i :: 0 <= i < |s| ==> s[i] <= b
    ensures forall i :: 0 <= i < |InsertSorted(s, x)| ==> InsertSorted(s, x)[i] <= b
  {
    if s != [] { InsertBelow(s[..|s| - 1], x, b); }
  }

  lemma {:induction false} InsertAscending(s: seq<real>, x: real)
    requires Ascending(s)
    ensures Ascending(InsertSorted(s, x))
  {
    if s != [] {
      var n := |s| - 1;
      if s[n] > x {
        InsertAscending(s[..n], x);
        InsertBelow(s[..n], x, s[n]);
      }
    }
  }

  lemma CountsSnoc(s: seq<real>, x: real, m: real)
    ensures Louder(s + [x], m) == Louder(s, m) + (if x > m then 1 else 0)
    ensures Quieter(s + [x], m) == Quieter(s, m) + (if x < m then 1 else 0)
  {
    assert (s + [x])[..|s|] == s;
  }

  lemma {:induction false} InsertCounts(s: seq<real>, x: real, m: real)
    ensures Louder(InsertSorted(s, x), m) == Louder(s, m) + (if x > m then 1 else 0)
    ensures Quieter(InsertSorted(s, x), m) == Quieter(s, m) + (if x < m then 1 else 0)
  {
    hide Louder, Quieter;
    CountsSnoc(s, x, m);
    if s == [] {
      assert s + [x] == [x];
    } else {
      var n := |s| - 1;
      InsertCounts(s[..n], x, m);
      CountsSnoc(s[..n], s[n], m);
      CountsSnoc(InsertSorted(s[..n], x), s[n], m);
      assert s == s[..n] + [s[n]];
    }
  }

  lemma {:induction false} SortLaw(s: seq<real>, m: real)
    ensures Ascending(Sort(s)) && Louder(Sort(s), m) == Louder(s, m) && Quieter(Sort(s), m) == Quieter(s, m)
  {
    hide InsertSorted;
    if s != [] {
      SortLaw(s[..|s| - 1], m);
      InsertAscending(Sort(s[..|s| - 1]), s[|s| - 1]);
      InsertCounts(Sort(s[..|s| - 1]), s[|s| - 1], m);
    }
  }

  lemma {:induction false} LouderAtMost(s: seq<real>, m: real, k: nat)
    requires k <= |s| && forall i :: 0 <= i < k ==> s[i] <= m
    ensures Louder(s, m) <= |s| - k
  {
    if s != [] {
      var n := |s| - 1;
      LouderAtMost(s[..n], m, if k <= n then k else n);
    }
  }

  lemma {:induction false} QuieterAtMost(s: seq<real>, m: real, k: nat)
    requires k <= |s| && forall i :: k <= i < |s| ==> s[i] >= m
    ensures Quieter(s, m) <= k
  {
    if s != [] {
      var n := |s| - 1;
      QuieterAtMost(s[..n], m, if k <= n then k else n);
    }
  }

  /** Fewer than half of the energies are below `x`, and at most half above; and the converse.
      With an odd number of energies both describe the one in the middle. */
  predicate LowerMiddle(s: seq<real>, x: real) {
    2 * Quieter(s, x) < |s| && 2 * Louder(s, x) <= |s|
  }

  predicate UpperMiddle(s: seq<real>, x: real) {
    2 * Louder(s, x) < |s| && 2 * Quieter(s, x) <= |s|
  }

  /** The median is the mean of the two middle energies. */
  lemma MedianLaw(s: seq<real>) returns (lower: real, upper: real)
    requires s != []
    ensures LowerMiddle(s, lower) && UpperMiddle(s, upper) && Median(s) == (lower + upper) / 2.0
    ensures 2 * Louder(s, Median(s)) <= |s| && 2 * Quieter(s, Median(s)) <= |s|
  {
    hide Sort;
    var t, m := Sort(s), Median(s);
    lower, upper := t[(|s| - 1) / 2], t[|s| / 2];
    SortLaw(s, lower);
    LouderAtMost(t, lower, (|s| - 1) / 2 + 1);
    QuieterAtMost(t, lower, (|s| - 1) / 2);
    SortLaw(s, upper);
    LouderAtMost(t, upper, |s| / 2 + 1);
    QuieterAtMost(t, upper, |s| / 2);
    SortLaw(s, m);
    LouderAtMost(t, m, (|s| - 1) / 2 + 1);
    QuieterAtMost(t, m, |s| / 2);
  }

  /** The threshold from the calibrated noise: the median, but no less than 60, times a factor. */
  function OnThreshold(noise: seq<real>, startFactor: real): real
    requires noise != []
  {
    (if Median(noise) > 60.0 then Median(noise) else 60.0) * startFactor
  }

  lemma ThresholdIs(noise: seq<real>, startFactor: real)
    requires noise != []
    ensures OnThreshold(noise, startFactor) == startFactor * (if Median(noise) < 60.0 then 60.0 else Median(noise))
  {
    hide Median;
  }

  /** `noise` holds the energies of the calibration frames, which are read first: at least three. */
  method RecordEnergy(noise: seq<real>, inputs: seq<EnergyRead>, calibMs: int, startFactor: real, minSpeechMs: int,
                      silenceMs: int, maxFrames: int, preRollMs: int)
    returns (r: Outcome, n: nat, onset: nat)
    requires |noise| == if calibMs / 30 < 3 then 3 else calibMs / 30
    ensures n <= |inputs|
    ensures forall i :: 0 <= i < n ==> !inputs[i].stop
    ensures r.Stopped? ==> n < |inputs| && inputs[n].stop
    ensures r.Listening? ==> n == |inputs|
    ensures var on := startFactor * (if Median(noise) < 60.0 then 60.0 else Median(noise));
            forall heard: seq<Tick> ::
              && |heard| == n
              && (forall i :: 0 <= i < n ==>
                    heard[i] == Heard(Frame(inputs[i].energy > on, inputs[i].energy > on * 0.55, inputs[i].data))) ==>
            Records(r, Frames(heard), onset, minSpeechMs / 30, silenceMs / 30, maxFrames, preRollMs / 30)
  {
    hide Complete, Frames, Waiting, OnThreshold;
    var threshold := OnThreshold(noise, startFactor);
    var ticks := seq(|inputs|, i requires 0 <= i < |inputs| => EnergyTick(inputs[i], threshold));
    r, n, onset :=
      Listen(ticks, Settings(FrameCount(minSpeechMs), FrameCount(silenceMs), maxFrames, FrameCount(preRollMs)));
    assert forall i :: 0 <= i < n ==> ticks[..n][i] == EnergyTick(inputs[i], threshold);
    ghost var on := startFactor * (if Median(noise) < 60.0 then 60.0 else Median(noise));
    ThresholdIs(noise, startFactor);
    forall heard: seq<Tick>
      | |heard| == n && forall i :: 0 <= i < n ==>
          heard[i] == Heard(Frame(inputs[i].energy > on, inputs[i].energy > on * 0.55, inputs[i].data))
      ensures heard == ticks[..n]
    {
    }
  }

  /** `BargeInMonitor._run`: ignores the warm-up frames, then fires at the first frame at
      which speech has been sustained. */
  method BargeIn(ticks: seq<Tick>, warmup: nat, trigger: nat) returns (detected: bool, n: nat)
    requires trigger >= 1
    ensures n <= |ticks| && NoStop(ticks[..n])
    ensures var fs := Frames(ticks[..n]);
            var late := if |fs| < warmup then [] else fs[warmup..];
            if detected then IsOnset(late, |late|, trigger) && Sustained(late, trigger)
            else
              && (n == |ticks| || ticks[n].Stop?)
              && forall j: nat :: 0 <= j <= |late| ==> !Sustained(late[..j], trigger)
  {
    hide Frames, Leak, Sustained, Below;
    var speechCount, remaining: nat := 0, warmup;
    detected, n := false, 0;
    ghost var late: seq<Frame> := [];
    Silence(Settings(trigger, 1, 0, 1));
    while n < |ticks| && !ticks[n].Stop?
      invariant n <= |ticks| && NoStop(ticks[..n])
      invariant remaining == if |Frames(ticks[..n])| < warmup then warmup - |Frames(ticks[..n])| else 0
      invariant late == if |Frames(ticks[..n])| < warmup then [] else Frames(ticks[..n])[warmup..]
      invariant speechCount == Leak(late) && Below(late, trigger)
    {
      FramesSnoc(ticks, n);
      var tick := ticks[n];
      n := n + 1;
      if !tick.Heard? { continue; }
      if remaining > 0 {
        remaining := remaining - 1;
        continue;
      }
      LeakSnoc(late, tick.frame);
      BelowSnoc(late, tick.frame, trigger);
      StillBelowOr(late, tick.frame, trigger);
      assert Frames(ticks[..n])[warmup..] == late + [tick.frame];
      late := late + [tick.frame];
      if tick.frame.on {
        speechCount := speechCount + 1;
        if speechCount >= trigger {
          SustainedIff(late, trigger);
          return true, n;
        }
      } else {
        speechCount := if speechCount > 0 then speechCount - 1 else 0;
      }
    }
    NeverSustained(late, trigger);
  }

  lemma StillBelowOr(fs: seq<Frame>, f: Frame, m: nat)
    requires Below(fs, m) && m >= 1
    ensures !f.on ==> Leak(fs + [f]) < m
  {
    if !f.on { StillBelow(fs, f, m); }
  }

  lemma NeverSustained(fs: seq<Frame>, m: nat)
    requires Below(fs, m)
    ensures forall j: nat :: 0 <= j <= |fs| ==> !Sustained(fs[..j], m)
  {
    hide Leak, Sustained;
    forall j: nat | 0 <= j <= |fs| ensures !Sustained(fs[..j], m) { SustainedIff(fs[..j], m); }
  }
}
