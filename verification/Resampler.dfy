/** The band-limited resampler: steps at clock times in, samples out. The specification is a line of
    samples without ends, on which every step leaves its impulse, and which is integrated once. */
module Resampler {
  import opened Kernel

  const FRAC_UNIT: nat := 0x10_0000   // 20 fraction bits: one output sample
  const INTERP_UNIT: nat := 0x8000    // 15 bits below the 5 phase bits
  const LEAK: nat := 512

  // ---- the line ----

  /** Tap `i` of the impulse of a step at `position`: two rows of the kernel, interpolated. */
  function Tap(position: nat, i: nat): int
    requires i < WIDTH
  {
    var phase := position / INTERP_UNIT % PHASES;
    var k0, k1 := Impulse(phase)[i], Impulse(phase + 1)[i];
    k0 + (k1 - k0) * (position % INTERP_UNIT) / INTERP_UNIT
  }

  /** A tap starts from the row of its phase and is, at 32768 places to a phase, the last whole number on or below the
      straight line to the next row. */
  lemma TapBetween(position: nat, i: nat)
    requires i < 16
    ensures 0 <= position / 32768 % 32 < 32
    ensures var phase, x := position / 32768 % 32, position % 32768;
      var k0, k1 := Impulse(phase)[i], Impulse(phase + 1)[i];
      && (x == 0 ==> Tap(position, i) == k0)
      && 32768 * Tap(position, i) <= (32768 - x) * k0 + x * k1 < 32768 * Tap(position, i) + 32768
  {
    hide Impulse;
    var phase, x := position / 32768 % 32, position % 32768;
    var k0, k1 := Impulse(phase)[i], Impulse(phase + 1)[i];
    assert Tap(position, i) == k0 + (k1 - k0) * x / 32768;
    Floor((k1 - k0) * x, 32768);
    assert (32768 - x) * k0 + x * k1 == 32768 * k0 + (k1 - k0) * x;
  }

  lemma Floor(n: int, d: nat)
    requires d > 0
    ensures d * (n / d) <= n < d * (n / d) + d
  {
  }

  /** A step of the output at a clock counted from the start of time. */
  datatype Step = Step(clock: nat, delta: int)

  /** What one step contributes to sample `j`. */
  function Contribution(s: Step, factor: nat, j: int): int {
    var index := s.clock * factor / FRAC_UNIT;
    if index <= j < index + WIDTH then Tap(s.clock * factor, j - index) * s.delta else 0
  }

  function Line(steps: seq<Step>, factor: nat, j: int): int {
    if steps == [] then 0
    else Line(steps[..|steps| - 1], factor, j) + Contribution(steps[|steps| - 1], factor, j)
  }

  /** The leaky integrator after one more sample, and that sample. */
  function Leaked(sum: int): int { sum - sum / LEAK }

  function Clipped(sum: int): int {
    var sample := sum / UNIT;
    if sample > 32767 then 32767 else if sample < -32768 then -32768 else sample
  }

  /** The integrator before sample `n`. */
  function Integrator(steps: seq<Step>, factor: nat, n: nat): int {
    if n == 0 then 0 else Leaked(Integrator(steps, factor, n - 1) + Line(steps, factor, n - 1))
  }

  /** Sample `n`. */
  function Sample(steps: seq<Step>, factor: nat, n: nat): int {
    Clipped(Integrator(steps, factor, n) + Line(steps, factor, n))
  }

  function Samples(steps: seq<Step>, factor: nat, lo: nat, hi: nat): (r: seq<int>)
    requires lo <= hi
    ensures |r| == hi - lo
  {
    seq(hi - lo, i requires 0 <= i < hi - lo => Sample(steps, factor, lo + i))
  }

  /** A step at or after sample `n` does not change what is before it. */
  lemma {:induction false} LaterStepKeepsPast(steps: seq<Step>, s: Step, factor: nat, n: nat)
    requires n <= s.clock * factor / FRAC_UNIT
    ensures forall j: int | j < n :: Line(steps + [s], factor, j) == Line(steps, factor, j)
    ensures forall k: nat | k <= n :: Integrator(steps + [s], factor, k) == Integrator(steps, factor, k)
    ensures forall k: nat | k < n :: Sample(steps + [s], factor, k) == Sample(steps, factor, k)
  {
    hide Tap;
    assert (steps + [s])[..|steps|] == steps;
    forall k: nat | k <= n ensures Integrator(steps + [s], factor, k) == Integrator(steps, factor, k) {
      IntegratorKept(steps, s, factor, k);
    }
  }

  lemma {:induction false} IntegratorKept(steps: seq<Step>, s: Step, factor: nat, k: nat)
    requires k <= s.clock * factor / FRAC_UNIT
    ensures Integrator(steps + [s], factor, k) == Integrator(steps, factor, k)
  {
    hide Tap;
    assert (steps + [s])[..|steps|] == steps;
    if k > 0 { IntegratorKept(steps, s, factor, k - 1); }
  }

  lemma SamplesKept(steps: seq<Step>, s: Step, factor: nat, n: nat)
    requires n <= s.clock * factor / FRAC_UNIT
    ensures Samples(steps + [s], factor, 0, n) == Samples(steps, factor, 0, n)
  {
    hide Sample;
    LaterStepKeepsPast(steps, s, factor, n);
  }

  lemma SamplesJoin(steps: seq<Step>, factor: nat, n: nat, m: nat)
    requires n <= m
    ensures Samples(steps, factor, 0, n) + Samples(steps, factor, n, m) == Samples(steps, factor, 0, m)
  {
    hide Sample;
  }

  /** The order of steps does not matter. */
  lemma {:induction false} LineConcat(u: seq<Step>, v: seq<Step>, factor: nat, j: int)
    ensures Line(u + v, factor, j) == Line(u, factor, j) + Line(v, factor, j)
    decreases |v|
  {
    hide Contribution;
    if v == [] {
      assert u + v == u;
    } else {
      assert (u + v)[..|u + v| - 1] == u + v[..|v| - 1];
      LineConcat(u, v[..|v| - 1], factor, j);
    }
  }

  /** Whole samples of offset do not change a tap. */
  lemma TapShift(base: nat, local: nat, i: nat)
    requires i < WIDTH
    ensures Tap(base * FRAC_UNIT + local, i) == Tap(local, i)
  {
    hide Impulse;
    WholeUnits(base * PHASES, local);
    WholePhases(base, local / INTERP_UNIT);
  }

  lemma WholeUnits(a: nat, b: nat)
    ensures (a * INTERP_UNIT + b) / INTERP_UNIT == a + b / INTERP_UNIT
    ensures (a * INTERP_UNIT + b) % INTERP_UNIT == b % INTERP_UNIT
  {
  }

  lemma WholePhases(a: nat, b: nat)
    ensures (a * PHASES + b) % PHASES == b % PHASES
  {
  }

  /** A new step, seen from sample `base` on. */
  lemma {:induction false} StepOnLine(steps: seq<Step>, s: Step, factor: nat, base: nat, position: nat)
    requires s.clock * factor == base * FRAC_UNIT + position
    ensures forall j: int {:trigger Line(steps + [s], factor, j)} ::
              var k := j - base - position / FRAC_UNIT;
              Line(steps + [s], factor, j)
              == Line(steps, factor, j) + if 0 <= k < WIDTH then Tap(position, k) * s.delta else 0
    ensures Integrator(steps + [s], factor, base) == Integrator(steps, factor, base)
  {
    hide Tap, Impulse;
    assert (steps + [s])[..|steps|] == steps;
    assert s.clock * factor / FRAC_UNIT == base + position / FRAC_UNIT;
    forall k: nat | k < WIDTH ensures Tap(s.clock * factor, k) == Tap(position, k) { TapShift(base, position, k); }
    IntegratorKept(steps, s, factor, base);
  }

  /** The samples `s` are the line from `base` on, as far as there is anything on it. */
  ghost predicate OnLine(s: seq<int>, steps: seq<Step>, factor: nat, base: nat) {
    && (forall i: nat | i < |s| :: s[i] == Line(steps, factor, base + i))
    && (forall j: int | j >= base + |s| :: Line(steps, factor, j) == 0)
  }

  /** The line from `base` on, moved down by `count` samples, is the line from `base + count` on. */
  lemma MovedDown(before: seq<int>, after: seq<int>, steps: seq<Step>, factor: nat, base: nat, count: nat)
    requires count <= |before| == |after| && OnLine(before, steps, factor, base)
    requires after[..|before| - count] == before[count..]
    requires forall i: nat | |before| - count <= i < |after| :: after[i] == 0
    ensures OnLine(after, steps, factor, base + count)
  {
    hide Line;
    forall i: nat | i < |after| ensures after[i] == Line(steps, factor, base + count + i) {
      if i + count < |before| {
        assert after[i] == after[..|before| - count][i] == before[count..][i] == before[i + count];
        assert before[i + count] == Line(steps, factor, base + (i + count));
      }
    }
  }

  /** A step's taps added to the samples keep them on the line. */
  lemma StepAdded(before: seq<int>, after: seq<int>, steps: seq<Step>, s: Step, factor: nat, base: nat, position: nat)
    requires s.clock * factor == base * FRAC_UNIT + position
    requires |after| == |before| && position / FRAC_UNIT + WIDTH <= |before|
    requires OnLine(before, steps, factor, base)
    requires forall i: nat | i < |after| :: after[i] == before[i]
               + if 0 <= i - position / FRAC_UNIT < WIDTH then Tap(position, i - position / FRAC_UNIT) * s.delta else 0
    ensures OnLine(after, steps + [s], factor, base)
    ensures Integrator(steps + [s], factor, base) == Integrator(steps, factor, base)
    ensures Samples(steps + [s], factor, 0, base) == Samples(steps, factor, 0, base)
  {
    hide Line, Tap, Integrator, Samples;
    StepOnLine(steps, s, factor, base, position);
    SamplesKept(steps, s, factor, base);
  }

  // ---- the resampler ----

  class BandLimitedResampler {
    const capacity: nat
    var buf: array<int>
    var factor: nat
    var offset: int
    var integrator: int

    // the history: clock and steps since the start of time, how many samples were read, and which
    ghost var started: nat
    ghost var steps: seq<Step>
    ghost var drained: nat
    ghost var played: seq<int>

    ghost predicate Valid()
      reads this, buf
    {
      && played == Samples(steps, factor, 0, drained)
      && buf.Length == capacity + WIDTH
      && 0 <= offset && drained * FRAC_UNIT + offset == started * factor
      && integrator == Integrator(steps, factor, drained)
      && OnLine(buf[..], steps, factor, drained)
    }

    constructor (capacity: nat, factor: nat)
      ensures Valid() && fresh(buf)
      ensures this.capacity == capacity && this.factor == factor
      ensures started == 0 && steps == [] && drained == 0 && played == [] && offset == 0
    {
      this.capacity, this.factor := capacity, factor;
      buf := new int[capacity + WIDTH](i => 0);
      offset, integrator := 0, 0;
      started, steps, drained, played := 0, [], 0, [];
    }

    /** The sample a step of this frame starts at, counted from the next one to be read. */
    ghost function IndexOf(time: nat): int
      reads this`offset, this`factor
    {
      (offset + time * factor) / FRAC_UNIT
    }

    method AddDelta(time: nat, delta: int)
      requires Valid()
      modifies this`steps, buf
      ensures Valid()
      ensures steps == if IndexOf(time) <= capacity then old(steps) + [Step(started + time, delta)] else old(steps)
    {
      hide Tap, Samples, Line, Integrator, OnLine, IndexOf;
      var position := offset + time * factor;
      ClockPosition(time);
      PositionIs(time);
      var index := position / FRAC_UNIT;
      if index < 0 || index > capacity {
        return;
      }
      ghost var s := Step(started + time, delta);
      AddImpulse(position, index, delta);
      StepAdded(old(buf[..]), buf[..], steps, s, factor, drained, position);
      steps := steps + [s];
    }

    /** The part of AddDelta that adds the taps. */
    method AddImpulse(position: nat, index: nat, delta: int)
      requires index + WIDTH <= buf.Length
      modifies buf
      ensures forall k: nat | k < buf.Length :: buf[..][k]
                == old(buf[..])[k] + if 0 <= k - index < WIDTH then Tap(position, k - index) * delta else 0
    {
      hide Impulse;
      var phase := position / INTERP_UNIT % PHASES;
      var interp := position % INTERP_UNIT;
      var k0, k1 := Impulse(phase), Impulse(phase + 1);
      for i := 0 to WIDTH
        invariant forall k: nat | k < buf.Length :: buf[k]
                    == old(buf[k]) + if index <= k < index + i then Tap(position, k - index) * delta else 0
      {
        var tap := k0[i] + (k1[i] - k0[i]) * interp / INTERP_UNIT;
        assert tap == Tap(position, i);
        buf[index + i] := buf[index + i] + tap * delta;
      }
    }

    lemma PositionIs(time: nat)
      requires offset >= 0
      ensures offset + time * factor >= 0 && IndexOf(time) == (offset + time * factor) / FRAC_UNIT >= 0
    {
    }

    lemma ClockPosition(time: nat)
      requires Valid()
      ensures (started + time) * factor == drained * FRAC_UNIT + (offset + time * factor)
      ensures (started + time) * factor / FRAC_UNIT == drained + (offset + time * factor) / FRAC_UNIT
    {
      assert (started + time) * factor == started * factor + time * factor;
    }

    method EndFrame(time: nat)
      requires Valid()
      modifies this`offset, this`started
      ensures Valid() && started == old(started) + time && offset == old(offset) + time * factor
    {
      ClockPosition(time);
      offset := offset + time * factor;
      started := started + time;
    }

    method SamplesAvailable() returns (n: nat)
      requires Valid()
      ensures n == if offset / FRAC_UNIT < capacity then offset / FRAC_UNIT else capacity
    {
      n := offset / FRAC_UNIT;
      n := if n < capacity then n else capacity;
    }

    /** The samples that are read are the next ones of the line. */
    method ReadSamples(max: nat) returns (out: seq<int>)
      requires Valid()
      modifies this`integrator, this`offset, this`drained, this`played, buf
      ensures Valid() && played == old(played) + out
      ensures drained == old(drained) + |out| && out == Samples(steps, factor, old(drained), drained)
      ensures var available := if old(offset) / FRAC_UNIT < capacity then old(offset) / FRAC_UNIT else capacity;
              |out| == if available > max then max else available
    {
      hide Samples, Line, Integrator, OnLine;
      var count := SamplesAvailable();
      if count > max {
        count := max;
      }
      out := Integrate(count);
      ShiftDown(count);
      assert buf[..][..buf.Length - count] == old(buf[..])[count..];
      MovedDown(old(buf[..]), buf[..], steps, factor, drained, count);
      offset := offset - count * FRAC_UNIT;
      drained := drained + count;
      played := played + out;
      SamplesJoin(steps, factor, old(drained), drained);
    }

    /** The part of ReadSamples that integrates. */
    method Integrate(count: nat) returns (out: seq<int>)
      requires Valid() && count <= buf.Length
      modifies this`integrator
      ensures out == Samples(steps, factor, drained, drained + count)
      ensures integrator == Integrator(steps, factor, drained + count)
    {
      hide Line;
      out := [];
      assert forall i: nat | i < buf.Length :: buf[..][i] == buf[i];
      for i := 0 to count
        invariant out == Samples(steps, factor, drained, drained + i)
        invariant integrator == Integrator(steps, factor, drained + i)
      {
        integrator := integrator + buf[i];
        var sample := integrator / UNIT;
        integrator := integrator - integrator / LEAK;
        if sample > 32767 {
          sample := 32767;
        } else if sample < -32768 {
          sample := -32768;
        }
        out := out + [sample];
      }
    }

    /** The end of ReadSamples: the buffer moves down, and zeroes come in. */
    method ShiftDown(count: nat)
      requires count <= buf.Length
      modifies buf
      ensures buf[..buf.Length - count] == old(buf[count..])
      ensures forall i: nat | buf.Length - count <= i < buf.Length :: buf[..][i] == 0
    {
      var keep := buf.Length - count;
      forall i | 0 <= i < keep { buf[i] := buf[i + count]; }
      forall i | keep <= i < buf.Length { buf[i] := 0; }
    }

    /** A frame of the emulator: its steps, its end, and reading everything there is. */
    method PlayFrame(frame: Frame) returns (out: seq<int>)
      requires Valid() && offset == started * factor % FRAC_UNIT
      requires FrameFits(frame, started, factor, capacity)
      modifies this`integrator, this`offset, this`drained, this`played, this`steps, this`started, buf
      ensures Valid() && offset == started * factor % FRAC_UNIT && played == old(played) + out
      ensures started == old(started) + frame.end
      ensures steps == old(steps) + Shifted(frame.steps, old(started))
    {
      hide Samples, Line, Integrator, OnLine;
      for i := 0 to |frame.steps|
        invariant Valid() && started == old(started) && offset == old(offset) && played == old(played)
        invariant steps == old(steps) + Shifted(frame.steps[..i], started)
      {
        assert frame.steps[i] in frame.steps;
        ShiftedSnoc(old(steps), frame.steps, i, started);
        AddDelta(frame.steps[i].clock, frame.steps[i].delta);
      }
      assert frame.steps[..|frame.steps|] == frame.steps;
      EndFrame(frame.end);
      out := ReadSamples(capacity);
    }

    /** Frame after frame. The samples are the line of all steps at their clocks since the start of time,
        integrated once, up to the sample the clock has reached: how the clock was cut into frames does
        not show. */
    method PlayFrames(frames: seq<Frame>) returns (out: seq<int>)
      requires Valid() && started == 0 && steps == [] && played == [] && drained == 0
      requires AllFit(frames, 0, factor, capacity)
      modifies this, buf
      ensures Valid()
      ensures out == Samples(AllSteps(frames, 0), factor, 0, Duration(frames) * factor / FRAC_UNIT)
    {
      hide Samples, Line, Integrator, FrameFits, Valid, AllFit, AllSteps, Duration, Shifted;
      ClockNow();
      Unplayed(frames);
      out := [];
      for i := 0 to |frames|
        invariant buf == old(buf) && Valid() && offset == started * factor % FRAC_UNIT && out == played
        invariant AllFit(frames[i..], started, factor, capacity)
        invariant steps + AllSteps(frames[i..], started) == AllSteps(frames, 0)
        invariant started + Duration(frames[i..]) == Duration(frames)
      {
        NextFrame(frames, i, started, factor, capacity, steps);
        var some := PlayFrame(frames[i]);
        out := out + some;
      }
      NoFrames(frames, started, steps);
      ClockNow();
    }

    lemma ClockNow()
      requires Valid()
      ensures started == 0 && drained == 0 ==> offset == 0
      ensures offset < FRAC_UNIT ==> drained == started * factor / FRAC_UNIT && offset == started * factor % FRAC_UNIT
      ensures played == Samples(steps, factor, 0, drained)
    {
      hide OnLine, Samples, Integrator;
      if started == 0 { assert started * factor == 0; }
      if offset < FRAC_UNIT { WholeSamples(drained, offset, started * factor); }
    }
  }

  lemma WholeSamples(samples: nat, rest: nat, position: nat)
    requires rest < FRAC_UNIT && samples * FRAC_UNIT + rest == position
    ensures samples == position / FRAC_UNIT && rest == position % FRAC_UNIT
  {
  }

  // ---- frames ----

  /** A frame: steps at clocks counted from its start, and its length. */
  datatype Frame = Frame(steps: seq<Step>, end: nat)

  /** Steps at clocks counted from the start of time. */
  function Shifted(steps: seq<Step>, start: nat): (r: seq<Step>)
    ensures |r| == |steps|
  {
    seq(|steps|, i requires 0 <= i < |steps| => Step(start + steps[i].clock, steps[i].delta))
  }

  lemma ShiftedSnoc(before: seq<Step>, steps: seq<Step>, i: nat, start: nat)
    requires i < |steps|
    ensures before + Shifted(steps[..i + 1], start)
         == before + Shifted(steps[..i], start) + [Step(start + steps[i].clock, steps[i].delta)]
  {
  }

  function AllSteps(frames: seq<Frame>, start: nat): seq<Step> {
    if frames == [] then [] else Shifted(frames[0].steps, start) + AllSteps(frames[1..], start + frames[0].end)
  }

  function Duration(frames: seq<Frame>): nat {
    if frames == [] then 0 else frames[0].end + Duration(frames[1..])
  }

  /** Neither a step nor the end of the frame is beyond the buffer. */
  predicate FrameFits(frame: Frame, start: nat, factor: nat, capacity: nat) {
    var fraction := start * factor % FRAC_UNIT;
    && (forall s | s in frame.steps :: (fraction + s.clock * factor) / FRAC_UNIT <= capacity)
    && (fraction + frame.end * factor) / FRAC_UNIT <= capacity
  }

  predicate AllFit(frames: seq<Frame>, start: nat, factor: nat, capacity: nat) {
    frames == [] ||
    (FrameFits(frames[0], start, factor, capacity) && AllFit(frames[1..], start + frames[0].end, factor, capacity))
  }

  lemma Unplayed(frames: seq<Frame>)
    ensures frames[0..] == frames && [] + AllSteps(frames, 0) == AllSteps(frames, 0)
  {
  }

  lemma NextFrame(frames: seq<Frame>, i: nat, start: nat, factor: nat, capacity: nat, before: seq<Step>)
    requires i < |frames| && AllFit(frames[i..], start, factor, capacity)
    ensures FrameFits(frames[i], start, factor, capacity)
    ensures AllFit(frames[i + 1..], start + frames[i].end, factor, capacity)
    ensures before + AllSteps(frames[i..], start)
         == (before + Shifted(frames[i].steps, start)) + AllSteps(frames[i + 1..], start + frames[i].end)
    ensures Duration(frames[i..]) == frames[i].end + Duration(frames[i + 1..])
  {
    hide FrameFits, Shifted;
    assert frames[i..][0] == frames[i] && frames[i..][1..] == frames[i + 1..];
    var u, v := Shifted(frames[i].steps, start), AllSteps(frames[i + 1..], start + frames[i].end);
    assert before + (u + v) == (before + u) + v;
  }

  lemma NoFrames(frames: seq<Frame>, start: nat, before: seq<Step>)
    ensures Duration(frames[|frames|..]) == 0 && before + AllSteps(frames[|frames|..], start) == before
  {
    assert before + [] == before;
  }

  /** Cutting a frame in two, at any clock, changes nothing the samples depend on. */
  lemma CutFrame(before: seq<Frame>, u: seq<Step>, cut: nat, v: seq<Step>, end: nat, after: seq<Frame>, start: nat)
    ensures AllSteps(before + [Frame(u, cut), Frame(v, end)] + after, start)
         == AllSteps(before + [Frame(u + Shifted(v, cut), cut + end)] + after, start)
    ensures Duration(before + [Frame(u, cut), Frame(v, end)] + after)
         == Duration(before + [Frame(u + Shifted(v, cut), cut + end)] + after)
    decreases |before|
  {
    var two, one := [Frame(u, cut), Frame(v, end)], [Frame(u + Shifted(v, cut), cut + end)];
    if before == [] {
      CutHere(u, cut, v, end, after, start);
      assert [] + two + after == two + after && [] + one + after == one + after;
    } else {
      assert (before + two + after)[1..] == before[1..] + two + after;
      assert (before + one + after)[1..] == before[1..] + one + after;
      CutFrame(before[1..], u, cut, v, end, after, start + before[0].end);
    }
  }

  lemma CutHere(u: seq<Step>, cut: nat, v: seq<Step>, end: nat, after: seq<Frame>, start: nat)
    ensures AllSteps([Frame(u, cut), Frame(v, end)] + after, start)
         == AllSteps([Frame(u + Shifted(v, cut), cut + end)] + after, start)
    ensures Duration([Frame(u, cut), Frame(v, end)] + after)
         == Duration([Frame(u + Shifted(v, cut), cut + end)] + after)
  {
    var two, one := [Frame(u, cut), Frame(v, end)], [Frame(u + Shifted(v, cut), cut + end)];
    assert (two + after)[1..] == [Frame(v, end)] + after;
    assert ([Frame(v, end)] + after)[1..] == after;
    assert (one + after)[1..] == after;
    assert Shifted(u + Shifted(v, cut), start) == Shifted(u, start) + Shifted(v, start + cut);
  }

  // ---- bounds ----

  /** The integrator of a line whose samples stay within `b` stays within 511 times `b`. */
  lemma {:induction false} IntegratorBounded(steps: seq<Step>, factor: nat, n: nat, b: nat)
    requires forall j: nat | j < n :: -(b as int) <= Line(steps, factor, j) <= b
    ensures -511 * b <= Integrator(steps, factor, n) <= 511 * b
    decreases n
  {
    hide Line;
    if n > 0 {
      IntegratorBounded(steps, factor, n - 1, b);
    }
  }

  /** One silent sample brings the integrator closer to rest. */
  lemma LeakShrinks(i: int)
    ensures i > 511 ==> 0 <= Leaked(i) < i
    ensures 0 <= i <= 511 ==> Leaked(i) == i
    ensures i < 0 ==> i < Leaked(i) <= 0
  {
  }

  /** On silence the integrator comes to rest between 0 and 511 after finitely many samples, no more
      than its distance from zero, and from then on every sample is zero. */
  lemma {:induction false} SilenceIsReached(steps: seq<Step>, factor: nat, n: nat, k: nat)
    requires forall j: nat | j >= n :: Line(steps, factor, j) == 0
    requires var i := Integrator(steps, factor, n); k >= if i < 0 then -i else i
    ensures 0 <= Integrator(steps, factor, n + k) <= 511
    ensures Sample(steps, factor, n + k) == 0
    decreases k
  {
    hide Line;
    LeakShrinks(Integrator(steps, factor, n));
    if k > 0 {
      assert Line(steps, factor, n) == 0;
      if 0 <= Integrator(steps, factor, n) <= 511 {
        StaysAtRest(steps, factor, n, k);
      } else {
        SilenceIsReached(steps, factor, n + 1, k - 1);
      }
    }
    assert Line(steps, factor, n + k) == 0;
  }

  lemma {:induction false} StaysAtRest(steps: seq<Step>, factor: nat, n: nat, k: nat)
    requires forall j: nat | j >= n :: Line(steps, factor, j) == 0
    requires 0 <= Integrator(steps, factor, n) <= 511
    ensures Integrator(steps, factor, n + k) == Integrator(steps, factor, n)
    decreases k
  {
    hide Line;
    if k > 0 {
      StaysAtRest(steps, factor, n, k - 1);
      assert Line(steps, factor, n + k - 1) == 0;
      LeakShrinks(Integrator(steps, factor, n + k - 1));
    }
  }

  /** A sample is a word of sixteen bits: the integrator and the line together, in units of 65536 and rounded down, as
      far as that is one, and otherwise the nearest bound. */
  lemma SampleIsWord(steps: seq<Step>, factor: nat, n: nat)
    ensures var s, total := Sample(steps, factor, n), Integrator(steps, factor, n) + Line(steps, factor, n);
      && -32768 <= s <= 32767
      && (s > -32768 ==> 65536 * s <= total) && (s < 32767 ==> total < 65536 * s + 65536)
  {
    hide Line, Integrator;
    Floor(Integrator(steps, factor, n) + Line(steps, factor, n), UNIT);
  }

  function Taps(position: nat): (r: seq<int>)
    ensures |r| == WIDTH
  {
    seq(WIDTH, i requires 0 <= i < WIDTH => Tap(position, i))
  }

  /** The taps of any position sum to one unit, less a rounding of at most fifteen. */
  lemma TapsSum(position: nat)
    ensures 65521 <= Sum16(Taps(position)) <= 65536
  {
    hide Impulse, Sum16;
    var phase, x := position / INTERP_UNIT % PHASES, position % INTERP_UNIT;
    var k0, k1 := Impulse(phase), Impulse(phase + 1);
    RowSum(phase);
    RowSum(phase + 1);
    var d := Minus(k1, k0);
    RoundedSum(d, x);
    assert forall i: nat | i < 16 :: Taps(position)[i] == k0[i] + Rounded(d, x)[i];
    SumOfSum(Taps(position), k0, Rounded(d, x));
  }

  function Minus(a: seq<int>, b: seq<int>): (d: seq<int>)
    requires |a| == |b| == 16
    ensures |d| == 16 && Sum16(d) == Sum16(a) - Sum16(b)
  {
    seq(16, i requires 0 <= i < 16 => a[i] - b[i])
  }

  lemma SumOfSum(s: seq<int>, a: seq<int>, b: seq<int>)
    requires |s| == |a| == |b| == 16 && forall i: nat | i < 16 :: s[i] == a[i] + b[i]
    ensures Sum16(s) == Sum16(a) + Sum16(b)
  {
  }

  function Rounded(d: seq<int>, x: nat): (r: seq<int>)
    requires |d| == 16
    ensures |r| == 16
  {
    seq(16, i requires 0 <= i < 16 => d[i] * x / INTERP_UNIT)
  }

  lemma RoundedSum(d: seq<int>, x: nat)
    requires |d| == 16 && Sum16(d) == 0
    ensures -15 <= Sum16(Rounded(d, x)) <= 0
  {
    var p := seq(16, i requires 0 <= i < 16 => d[i] * x);
    assert Sum16(p) == Sum16(d) * x;
    forall i: nat | i < 16
      ensures p[i] - INTERP_UNIT < INTERP_UNIT * Rounded(d, x)[i] <= p[i]
    {
    }
  }
}
