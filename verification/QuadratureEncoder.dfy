/**
 The incremental encoder driver (drivers/encoder): what one interrupt does to the position, stated through the
 signed count of the edge and arithmetic modulo the resolution, and the in-place implementation.
 */
module QuadratureEncoder {
  const RESOLUTION: nat := 180

  datatype Pin = PinA | PinB | PinZ | Unconfigured

  /** One GPIO interrupt: the pin, whether it is a rising edge, and the level of the other step pin. */
  datatype Interrupt = Interrupt(pin: Pin, rising: bool, otherHigh: bool)

  /**
   The static variables between interrupts. The home flag suppresses the next position change; the other two
   say that the previous half-cycle in that direction did not already count.
   */
  datatype Encoder = Encoder(position: nat, homeSeen: bool, antiFailed: bool, clockFailed: bool)

  const POWER_UP := Encoder(0, false, true, true)

  predicate Valid(e: Encoder) {
    e.position < RESOLUTION
  }

  predicate IsHome(i: Interrupt) {
    i.pin.PinZ? && i.rising
  }

  /** The direction an edge counts in: 1 anticlockwise, -1 clockwise, 0 if it is not counted. */
  function Count(e: Encoder, i: Interrupt): (d: int)
    ensures -1 <= d <= 1
  {
    if !i.rising then 0
    else match i.pin
      case PinA => if !i.otherHigh then 1 else if e.clockFailed then -1 else 0
      case PinB => if !i.otherHigh then -1 else if e.antiFailed then 1 else 0
      case PinZ => 0
      case Unconfigured => 0
  }

  function Step(e: Encoder, i: Interrupt): (r: Encoder)
    requires Valid(e)
    ensures Valid(r)
  {
    if IsHome(i) then e.(position := 0, homeSeen := true)
    else
      var d := Count(e, i);
      Encoder(
        if d == 0 || e.homeSeen then e.position else (e.position + d) % RESOLUTION,
        e.homeSeen && d == 0,
        if i.rising && i.pin.PinA? && !i.otherHigh then false
        else e.antiFailed || (i.rising && i.pin.PinB? && i.otherHigh),
        if i.rising && i.pin.PinB? && !i.otherHigh then false
        else e.clockFailed || (i.rising && i.pin.PinA? && i.otherHigh))
  }

  /** Falling edges and unconfigured pins change nothing and count nothing; a falling edge of Z is no home pulse. */
  lemma OnlyRisingEdgesMatter(e: Encoder, i: Interrupt)
    requires Valid(e) && (!i.rising || i.pin.Unconfigured?)
    ensures Step(e, i) == e && Count(e, i) == 0 && !IsHome(i)
  {
  }

  datatype SetStatus = SetOk | InvalidPosition

  class EncoderDriver {
    var position: nat
    var homeSeen: bool
    var antiFailed: bool
    var clockFailed: bool
    var notification: bool

    ghost function View(): Encoder
      reads this
    {
      Encoder(position, homeSeen, antiFailed, clockFailed)
    }

    ghost predicate Ready()
      reads this
    {
      Valid(View()) && !notification
    }

    constructor ()
      ensures Ready() && View() == POWER_UP
      ensures position == 0 && !homeSeen && antiFailed && clockFailed
    {
      position, homeSeen, antiFailed, clockFailed, notification := 0, false, true, true, false;
    }

    method GetPosition() returns (p: nat)
      ensures p == View().position
    {
      p := position;
    }

    method SetPosition(p: nat) returns (status: SetStatus)
      requires Ready()
      modifies this`position
      ensures Ready()
      ensures status.SetOk? <==> p < RESOLUTION
      ensures View() == if status.SetOk? then old(View()).(position := p) else old(View())
    {
      if !(p <= RESOLUTION - 1) {
        return InvalidPosition;
      }
      position := p;
      status := SetOk;
    }

    /** The branches compute the modulo formula that the source gives in its comment. */
    method IncrementPosition()
      requires Ready()
      modifies this`position
      ensures position == (old(position) + 1) % RESOLUTION
    {
      if position == RESOLUTION - 1 {
        position := 0;
      } else {
        position := position + 1;
      }
    }

    method DecrementPosition()
      requires Ready()
      modifies this`position
      ensures position == (old(position) - 1 + RESOLUTION) % RESOLUTION
    {
      if position == 0 {
        position := RESOLUTION - 1;
      } else {
        position := position - 1;
      }
    }

    /** The interrupt callback; the results say which of the application's two handlers it calls. */
    method TransitionsCallback(i: Interrupt) returns (stepActivity: bool, homeActivity: bool)
      requires Ready()
      modifies this
      ensures Ready() && View() == Step(old(View()), i)
      ensures stepActivity <==> Count(old(View()), i) != 0
      ensures homeActivity <==> IsHome(i)
    {
      stepActivity, homeActivity := false, false;
      match i.pin {
        case PinA =>
          if i.rising {
            if i.otherHigh {
              if clockFailed {
                if !homeSeen {
                  DecrementPosition();
                }
                homeSeen := false;
                notification := true;
              }
              clockFailed := true;
            } else {
              if !homeSeen {
                IncrementPosition();
              }
              homeSeen := false;
              notification := true;
              antiFailed := false;
            }
            if notification {
              notification := false;
              stepActivity := true;
            }
          }
        case PinB =>
          if i.rising {
            if i.otherHigh {
              if antiFailed {
                if !homeSeen {
                  IncrementPosition();
                }
                homeSeen := false;
                notification := true;
              }
              antiFailed := true;
            } else {
              if !homeSeen {
                DecrementPosition();
              }
              homeSeen := false;
              notification := true;
              clockFailed := false;
            }
            if notification {
              notification := false;
              stepActivity := true;
            }
          }
        case PinZ =>
          if i.rising {
            homeSeen := true;
            position := 0;
            homeActivity := true;
          }
        case Unconfigured =>
      }
    }
  }

  // ---- runs of interrupts ----

  function StepAll(e: Encoder, run: seq<Interrupt>): (r: Encoder)
    requires Valid(e)
    ensures Valid(r)
  {
    if run == [] then e else Step(StepAll(e, run[..|run| - 1]), run[|run| - 1])
  }

  lemma {:induction false} StepAllAppend(e: Encoder, run: seq<Interrupt>, more: seq<Interrupt>)
    requires Valid(e)
    ensures StepAll(e, run + more) == StepAll(StepAll(e, run), more)
  {
    if more == [] {
      assert run + more == run;
    } else {
      var n := |more| - 1;
      StepAllAppend(e, run, more[..n]);
      assert (run + more)[..|run + more| - 1] == run + more[..n];
    }
  }

  /** The signed sum of the counted edges of a run. */
  function Total(e: Encoder, run: seq<Interrupt>): int
    requires Valid(e)
  {
    if run == [] then 0
    else Total(e, run[..|run| - 1]) + Count(StepAll(e, run[..|run| - 1]), run[|run| - 1])
  }

  /** The sign of the first counted edge of a run, 0 if there is none. */
  function FirstCount(e: Encoder, run: seq<Interrupt>): int
    requires Valid(e)
  {
    if run == [] then 0
    else
      var before := FirstCount(e, run[..|run| - 1]);
      if before != 0 then before else Count(StepAll(e, run[..|run| - 1]), run[|run| - 1])
  }

  ghost predicate NoHome(run: seq<Interrupt>) {
    forall i :: 0 <= i < |run| ==> !IsHome(run[i])
  }

  /** Without home pulses the position is the start plus the counted edges, less one that a home flag eats. */
  lemma {:induction false} PositionIsCountModulo(e: Encoder, run: seq<Interrupt>)
    requires Valid(e) && NoHome(run)
    ensures var eaten := if e.homeSeen then FirstCount(e, run) else 0;
            StepAll(e, run).position == (e.position + Total(e, run) - eaten) % RESOLUTION
    ensures StepAll(e, run).homeSeen <==> e.homeSeen && FirstCount(e, run) == 0
    ensures FirstCount(e, run) == 0 ==> Total(e, run) == 0
  {
    if run == [] {
    } else {
      var n := |run| - 1;
      PositionIsCountModulo(e, run[..n]);
      var d := Count(StepAll(e, run[..n]), run[n]);
      var eaten := if e.homeSeen then FirstCount(e, run[..n]) else 0;
      AddModulo(e.position + Total(e, run[..n]) - eaten, d);
    }
  }

  lemma AddModulo(x: int, d: int)
    requires -1 <= d <= 1
    ensures (x % RESOLUTION + d) % RESOLUTION == (x + d) % RESOLUTION
  {
  }

  /**
   Resynchronisation: after the last home pulse of any run, whatever came before it, the position is the
   signed sum of the counted edges leaving out the first, modulo 180.
   */
  lemma HomeResynchronises(e: Encoder, before: seq<Interrupt>, home: Interrupt, after: seq<Interrupt>)
    requires Valid(e) && IsHome(home) && NoHome(after)
    ensures var h := Step(StepAll(e, before), home);
            StepAll(e, before + [home] + after).position == (Total(h, after) - FirstCount(h, after)) % RESOLUTION
  {
    var h := Step(StepAll(e, before), home);
    StepAllAppend(e, before + [home], after);
    StepAllLast(e, before, home);
    FromHome(h, after);
  }

  lemma StepAllLast(e: Encoder, run: seq<Interrupt>, i: Interrupt)
    requires Valid(e)
    ensures StepAll(e, run + [i]) == Step(StepAll(e, run), i)
  {
    assert (run + [i])[..|run|] == run;
  }

  lemma FromHome(h: Encoder, after: seq<Interrupt>)
    requires Valid(h) && h.position == 0 && h.homeSeen && NoHome(after)
    ensures StepAll(h, after).position == (Total(h, after) - FirstCount(h, after)) % RESOLUTION
  {
    PositionIsCountModulo(h, after);
  }

  // ---- home pulses in one-direction motion ----

  /** The run with its home pulses left out. */
  function WithoutHome(run: seq<Interrupt>): seq<Interrupt> {
    if run == [] then []
    else WithoutHome(run[..|run| - 1]) + (if IsHome(run[|run| - 1]) then [] else [run[|run| - 1]])
  }

  /** Every edge that counts, counts in direction `d`. */
  ghost predicate OneDirection(e: Encoder, run: seq<Interrupt>, d: int)
    requires Valid(e)
  {
    run == [] ||
    (OneDirection(e, run[..|run| - 1], d) && Count(StepAll(e, run[..|run| - 1]), run[|run| - 1]) in {0, d})
  }

  /** Edges counted since the last home pulse, or since the start if there was none. */
  function EdgesSinceHome(e: Encoder, run: seq<Interrupt>): nat
    requires Valid(e)
  {
    if run == [] then 0
    else if IsHome(run[|run| - 1]) then 0
    else EdgesSinceHome(e, run[..|run| - 1])
         + (if Count(StepAll(e, run[..|run| - 1]), run[|run| - 1]) == 0 then 0 else 1)
  }

  predicate HasHome(run: seq<Interrupt>) {
    run != [] && (IsHome(run[|run| - 1]) || HasHome(run[..|run| - 1]))
  }

  /** Home pulses as an accurate encoder gives them: the first at `first`, each later one 180 counted edges on. */
  ghost predicate AccurateHome(e: Encoder, run: seq<Interrupt>, first: nat)
    requires Valid(e)
  {
    run != [] ==>
      && AccurateHome(e, run[..|run| - 1], first)
      && (IsHome(run[|run| - 1]) ==>
            if HasHome(run[..|run| - 1]) then EdgesSinceHome(e, run[..|run| - 1]) == RESOLUTION
            else StepAll(e, run[..|run| - 1]).position == first)
  }

  /** The position just before the edge that wraps to 0 when counting in direction `d`. */
  function LastBeforeZero(d: int): nat {
    if d == 1 then RESOLUTION - 1 else 1
  }

  lemma WithoutHomeLast(e: Encoder, run: seq<Interrupt>)
    requires Valid(e) && run != []
    ensures var before := StepAll(e, WithoutHome(run[..|run| - 1]));
            StepAll(e, WithoutHome(run)) == (if IsHome(run[|run| - 1]) then before else Step(before, run[|run| - 1]))
  {
    var last := run[|run| - 1];
    if IsHome(last) {
      assert WithoutHome(run) == WithoutHome(run[..|run| - 1]);
    } else {
      assert WithoutHome(run)[..|WithoutHome(run)| - 1] == WithoutHome(run[..|run| - 1]);
    }
  }

  /** The position `k` edges from 0 in direction `d`. */
  function Around(d: int, k: int): int {
    if d == 1 then k % RESOLUTION else -k % RESOLUTION
  }

  /**
   How the state `r` of a run relates to the state `q` of the same run without its home pulses, `g` counted
   edges after the last pulse (if there was one: `homed`).
   */
  ghost predicate Tracks(r: Encoder, q: Encoder, homed: bool, g: nat, d: int) {
    && !q.homeSeen && r.antiFailed == q.antiFailed && r.clockFailed == q.clockFailed
    && (if r.homeSeen then homed && g == 0 && r.position == 0 && q.position == LastBeforeZero(d)
        else r.position == q.position && (homed ==> g > 0 && r.position == Around(d, g - 1)))
  }

  lemma TracksStep(r: Encoder, q: Encoder, homed: bool, g: nat, i: Interrupt, d: int)
    requires Valid(r) && Valid(q) && d in {1, -1} && Tracks(r, q, homed, g, d)
    requires Count(r, i) in {0, d}
    requires IsHome(i) ==> if homed then g == RESOLUTION else r.position == LastBeforeZero(d)
    ensures Count(q, i) == Count(r, i)
    ensures Tracks(Step(r, i), if IsHome(i) then q else Step(q, i), homed || IsHome(i),
                   if IsHome(i) then 0 else if Count(r, i) == 0 then g else g + 1, d)
  {
    if !IsHome(i) && Count(r, i) == d && homed && g > 0 {
      AroundStep(d, g - 1);
    }
  }

  lemma AroundStep(d: int, k: int)
    requires d in {1, -1} && k >= 0
    ensures (Around(d, k) + d) % RESOLUTION == Around(d, k + 1)
  {
    if d == 1 {
      AddModulo(k, 1);
    } else {
      AddModulo(-k, -1);
    }
  }

  /**
   Home correction is transparent when there is no drift: with accurate home pulses the position after every
   counted edge is the one of the run without any home pulse, over any number of revolutions.
   */
  lemma {:induction false} HomeIsTransparent(e: Encoder, run: seq<Interrupt>, d: int)
    requires Valid(e) && !e.homeSeen && d in {1, -1}
    requires OneDirection(e, run, d) && AccurateHome(e, run, LastBeforeZero(d))
    ensures Tracks(StepAll(e, run), StepAll(e, WithoutHome(run)), HasHome(run), EdgesSinceHome(e, run), d)
    ensures run != [] && Count(StepAll(e, run[..|run| - 1]), run[|run| - 1]) != 0 ==>
              StepAll(e, run).position == StepAll(e, WithoutHome(run)).position
  {
    if run == [] {
    } else {
      var n := |run| - 1;
      HomeIsTransparent(e, run[..n], d);
      WithoutHomeLast(e, run);
      TracksStep(StepAll(e, run[..n]), StepAll(e, WithoutHome(run[..n])),
                 HasHome(run[..n]), EdgesSinceHome(e, run[..n]), run[n], d);
    }
  }

  /**
   The condition is exact: a home pulse in one-direction motion is invisible to every later position exactly
   when it finds the position just before zero; otherwise it changes every later position.
   */
  lemma HomeIsTransparentIff(e: Encoder, home: Interrupt, after: seq<Interrupt>, d: int)
    requires Valid(e) && !e.homeSeen && d in {1, -1}
    requires IsHome(home) && NoHome(after)
    requires FirstCount(Step(e, home), after) == d
    ensures StepAll(Step(e, home), after).position == StepAll(e, after).position <==> e.position == LastBeforeZero(d)
  {
    var h := Step(e, home);
    PositionIsCountModulo(h, after);
    PositionIsCountModulo(e, after);
    SameCounts(e, h, after);
    var t := Total(e, after);
    assert StepAll(h, after).position == (t - d) % RESOLUTION;
    assert StepAll(e, after).position == (e.position + t) % RESOLUTION;
    SameResidue(t, e.position, d);
  }

  lemma {:induction false} SameCounts(e: Encoder, h: Encoder, run: seq<Interrupt>)
    requires Valid(e) && Valid(h) && e.antiFailed == h.antiFailed && e.clockFailed == h.clockFailed
    ensures Total(e, run) == Total(h, run) && FirstCount(e, run) == FirstCount(h, run)
    ensures StepAll(e, run).antiFailed == StepAll(h, run).antiFailed
    ensures StepAll(e, run).clockFailed == StepAll(h, run).clockFailed
  {
    if run == [] {
    } else {
      SameCounts(e, h, run[..|run| - 1]);
    }
  }

  lemma SameResidue(t: int, p: nat, d: int)
    requires p < RESOLUTION && d in {1, -1}
    ensures (t - d) % RESOLUTION == (p + t) % RESOLUTION <==> p == LastBeforeZero(d)
  {
    if d == 1 {
      assert (t - 1) % RESOLUTION == (t + 179) % RESOLUTION;
    }
  }
}
