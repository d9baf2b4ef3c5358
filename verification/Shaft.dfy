/**
 The shaft behind the encoder. It moves in quarter steps through (A,B) = 00, 10, 11, 01 when it turns
 anticlockwise; each rising edge gives one interrupt, at which the other pin is read.
 */
module Shaft {
  import opened Bytes
  import opened QuadratureEncoder

  predicate LevelA(at: int) {
    at % 4 == 1 || at % 4 == 2
  }

  predicate LevelB(at: int) {
    at % 4 == 2 || at % 4 == 3
  }

  /** The interrupt, if any, of a move from one quarter step to a neighbouring one. */
  function Edge(from: int, to: int): Option<Interrupt> {
    if !LevelA(from) && LevelA(to) then Some(Interrupt(PinA, true, LevelB(to)))
    else if !LevelB(from) && LevelB(to) then Some(Interrupt(PinB, true, LevelA(to)))
    else None
  }

  /** The encoder and the true displacement of the shaft, in quarter steps, anticlockwise positive. */
  datatype Shaft = Shaft(encoder: Encoder, at: int)

  datatype Direction = Anticlockwise | Clockwise

  function Sign(d: Direction): int {
    if d.Anticlockwise? then 1 else -1
  }

  function Turn(s: Shaft, d: Direction): (r: Shaft)
    requires Valid(s.encoder)
    ensures Valid(r.encoder) && r.at == s.at + Sign(d)
  {
    var to := s.at + Sign(d);
    match Edge(s.at, to)
    case None => Shaft(s.encoder, to)
    case Some(i) => Shaft(Step(s.encoder, i), to)
  }

  /** What the quarter step counts. */
  function TurnCount(s: Shaft, d: Direction): int {
    match Edge(s.at, s.at + Sign(d))
    case None => 0
    case Some(i) => Count(s.encoder, i)
  }

  function Walk(s: Shaft, walk: seq<Direction>): (r: Shaft)
    requires Valid(s.encoder)
    ensures Valid(r.encoder)
  {
    if walk == [] then s else Turn(Walk(s, walk[..|walk| - 1]), walk[|walk| - 1])
  }

  function WalkCount(s: Shaft, walk: seq<Direction>): int
    requires Valid(s.encoder)
  {
    if walk == [] then 0
    else WalkCount(s, walk[..|walk| - 1]) + TurnCount(Walk(s, walk[..|walk| - 1]), walk[|walk| - 1])
  }

  function Reversals(walk: seq<Direction>): nat {
    if |walk| < 2 then 0
    else Reversals(walk[..|walk| - 1]) + (if walk[|walk| - 2] == walk[|walk| - 1] then 0 else 1)
  }

  /** What the last quarter step tells about the two flags. */
  ghost predicate FlagsAfter(s: Shaft, last: Direction) {
    if last.Anticlockwise? then (s.at % 4 == 1 ==> !s.encoder.antiFailed) && (s.at % 4 == 2 ==> s.encoder.antiFailed)
    else (s.at % 4 == 3 ==> !s.encoder.clockFailed) && (s.at % 4 == 2 ==> s.encoder.clockFailed)
  }

  /** How far, in quarter steps, the count can run ahead of the shaft beyond two per reversal... */
  function Ahead(at: int, last: Direction): int {
    if last.Clockwise? then 3 - at % 4 else if at % 4 == 0 then 1 else 5 - at % 4
  }

  /** ... and how far behind. */
  function Behind(at: int, last: Direction): int {
    if last.Anticlockwise? then (if at % 4 == 0 then 3 else at % 4 - 1) else 1 + at % 4
  }

  lemma DriftStep(s: Shaft, last: Direction, next: Direction)
    requires Valid(s.encoder) && FlagsAfter(s, last)
    ensures FlagsAfter(Turn(s, next), next)
    ensures var drift := 4 * TurnCount(s, next) - Sign(next);
            var allowed := if last == next then 0 else 2;
            && Ahead(s.at, last) + drift <= Ahead(s.at + Sign(next), next) + allowed
            && Behind(s.at, last) - drift <= Behind(s.at + Sign(next), next) + allowed
  {
  }

  lemma DriftFirstStep(s: Shaft, next: Direction)
    requires Valid(s.encoder)
    ensures FlagsAfter(Turn(s, next), next)
    ensures var drift := 4 * TurnCount(s, next) - Sign(next);
            -Behind(s.at + Sign(next), next) <= drift <= Ahead(s.at + Sign(next), next)
  {
  }

  lemma {:induction false} DriftInvariant(s: Shaft, walk: seq<Direction>)
    requires Valid(s.encoder) && walk != []
    ensures var r, last := Walk(s, walk), walk[|walk| - 1];
            var drift := 4 * WalkCount(s, walk) - (r.at - s.at);
            && FlagsAfter(r, last)
            && -(2 * Reversals(walk) + Behind(r.at, last)) <= drift <= 2 * Reversals(walk) + Ahead(r.at, last)
  {
    var n := |walk| - 1;
    if n == 0 {
      assert walk[..0] == [];
      DriftFirstStep(s, walk[0]);
    } else {
      DriftInvariant(s, walk[..n]);
      DriftStep(Walk(s, walk[..n]), walk[n - 1], walk[n]);
    }
  }

  /**
   Drift bound: from any phase and any flags, after any walk with R reversals, the count is off by at most
   half a count per reversal and one more, that is 2R + 4 quarter steps.
   */
  lemma DriftIsBounded(s: Shaft, walk: seq<Direction>)
    requires Valid(s.encoder)
    ensures var drift := 4 * WalkCount(s, walk) - (Walk(s, walk).at - s.at);
            -(2 * Reversals(walk) + 4) <= drift <= 2 * Reversals(walk) + 4
  {
    if walk != [] {
      DriftInvariant(s, walk);
    }
  }

  lemma OneMoreTurn(start: nat, r: Shaft, count: int, d: Direction)
    requires Valid(r.encoder) && !r.encoder.homeSeen && r.encoder.position == (start + count) % RESOLUTION
    ensures Turn(r, d).encoder.position == (start + (count + TurnCount(r, d))) % RESOLUTION
    ensures !Turn(r, d).encoder.homeSeen
  {
    TurnFollowsCount(r, d);
    hide Turn, TurnCount;
    AddModulo(start + count, TurnCount(r, d));
  }

  lemma TurnFollowsCount(s: Shaft, d: Direction)
    requires Valid(s.encoder) && !s.encoder.homeSeen
    ensures Turn(s, d).encoder.position == (s.encoder.position + TurnCount(s, d)) % RESOLUTION
    ensures !Turn(s, d).encoder.homeSeen
  {
  }

  /** The position reported is the start plus this count, modulo 180, so the drift bound is one on positions. */
  lemma {:induction false} PositionFollowsCount(s: Shaft, walk: seq<Direction>)
    requires Valid(s.encoder) && !s.encoder.homeSeen
    ensures Walk(s, walk).encoder.position == (s.encoder.position + WalkCount(s, walk)) % RESOLUTION
    ensures !Walk(s, walk).encoder.homeSeen
  {
    if walk == [] {
    } else {
      hide Turn, TurnCount;
      var n := |walk| - 1;
      PositionFollowsCount(s, walk[..n]);
      OneMoreTurn(s.encoder.position, Walk(s, walk[..n]), WalkCount(s, walk[..n]), walk[n]);
    }
  }

  // ---- the bound is attained ----

  function Steady(d: Direction, n: nat): (w: seq<Direction>)
    ensures |w| == n && forall i :: 0 <= i < n ==> w[i] == d
  {
    seq(n, _ => d)
  }

  /** The shaft jitters `k` times over one edge after walk `w`. */
  function Jitter(w: seq<Direction>, k: nat): seq<Direction> {
    if k == 0 then w else Jitter(w, k - 1) + [Clockwise] + [Anticlockwise]
  }

  function Drift(s: Shaft, walk: seq<Direction>): int
    requires Valid(s.encoder)
  {
    4 * WalkCount(s, walk) - (Walk(s, walk).at - s.at)
  }

  /** Jittering over the rising edge of A counts once in each round trip. */
  lemma {:induction false} JitterDrifts(s: Shaft, w: seq<Direction>, k: nat)
    requires Valid(s.encoder) && w != [] && w[|w| - 1] == Anticlockwise && Walk(s, w).at % 4 == 1
    ensures var jitter := Jitter(w, k);
            && Reversals(jitter) == Reversals(w) + 2 * k && Drift(s, jitter) == Drift(s, w) + 4 * k
            && Walk(s, jitter).at == Walk(s, w).at && jitter != [] && jitter[|jitter| - 1] == Anticlockwise
  {
    hide Walk, WalkCount, TurnCount, Reversals;
    if k == 0 {
    } else {
      var before := Jitter(w, k - 1);
      JitterDrifts(s, w, k - 1);
      WalkSnoc(s, before, Clockwise);
      WalkSnoc(s, before + [Clockwise], Anticlockwise);
      JitterStep(Walk(s, before));
    }
  }

  /** For every number of reversals R, even or odd, some shaft on some walk drifts by exactly 2R + 4. */
  lemma DriftBoundIsAttained(r: nat) returns (s: Shaft, walk: seq<Direction>)
    ensures Valid(s.encoder) && Reversals(walk) == r
    ensures 4 * WalkCount(s, walk) - (Walk(s, walk).at - s.at) == 2 * r + 4
  {
    hide Walk, WalkCount, Reversals;
    if r % 2 == 0 {
      s := Shaft(Encoder(0, false, true, true), 1);
      FourAhead(s);
      JitterDrifts(s, Steady(Anticlockwise, 4), r / 2);
      walk := Jitter(Steady(Anticlockwise, 4), r / 2);
    } else {
      s := Shaft(Encoder(0, false, true, false), 3);
      SixAhead(s);
      JitterDrifts(s, Steady(Clockwise, 3) + [Anticlockwise], r / 2);
      walk := Jitter(Steady(Clockwise, 3) + [Anticlockwise], r / 2);
    }
  }

  /** Four anticlockwise quarter steps from A = 1, B = 0 with the anticlockwise flag up count twice. */
  lemma FourAhead(s: Shaft)
    requires Valid(s.encoder) && s.at == 1 && s.encoder.antiFailed
    ensures var w := Steady(Anticlockwise, 4);
            Drift(s, w) == 4 && Reversals(w) == 0 && Walk(s, w).at == 5
  {
    hide Walk, WalkCount, Reversals, Step;
    SteadySnoc(s, Anticlockwise, 0);
    SteadySnoc(s, Anticlockwise, 1);
    SteadySnoc(s, Anticlockwise, 2);
    SteadySnoc(s, Anticlockwise, 3);
    SteadyNothing(s, Anticlockwise);
  }

  lemma SteadyNothing(s: Shaft, d: Direction)
    requires Valid(s.encoder)
    ensures Walk(s, Steady(d, 0)) == s && WalkCount(s, Steady(d, 0)) == 0 && Reversals(Steady(d, 0)) == 0
  {
  }

  lemma SteadySnoc(s: Shaft, d: Direction, n: nat)
    requires Valid(s.encoder)
    ensures var w := Steady(d, n);
            && Walk(s, Steady(d, n + 1)) == Turn(Walk(s, w), d)
            && WalkCount(s, Steady(d, n + 1)) == WalkCount(s, w) + TurnCount(Walk(s, w), d)
            && Reversals(Steady(d, n + 1)) == Reversals(w)
  {
    hide Walk, WalkCount, Reversals, Turn, TurnCount;
    assert Steady(d, n + 1) == Steady(d, n) + [d];
    WalkSnoc(s, Steady(d, n), d);
  }

  /** Three clockwise quarter steps with the clockwise flag down count nothing, and the turn back counts. */
  lemma SixAhead(s: Shaft)
    requires Valid(s.encoder) && s.at == 3 && !s.encoder.clockFailed
    ensures var w := Steady(Clockwise, 3) + [Anticlockwise];
            Drift(s, w) == 6 && Reversals(w) == 1 && Walk(s, w).at == 1
  {
    hide Walk, WalkCount, TurnCount, Reversals, Steady;
    UncountedReturn(s.encoder, 3);
    WalkSnoc(s, Steady(Clockwise, 3), Anticlockwise);
    CertainCount(Walk(s, Steady(Clockwise, 3)));
  }

  /** Coming back from A = 0, B = 1 with the clockwise flag down counts nothing until the shaft turns round. */
  lemma {:induction false} UncountedReturn(e: Encoder, k: nat)
    requires Valid(e) && !e.clockFailed && k <= 3
    ensures var s, w := Shaft(e, 3), Steady(Clockwise, k);
            Walk(s, w).at == 3 - k && WalkCount(s, w) == 0 && Reversals(w) == 0 && (k == 0 ==> Walk(s, w) == s)
  {
    if k == 0 {
    } else {
      hide Walk, WalkCount, Reversals;
      UncountedReturn(e, k - 1);
      SteadySnoc(Shaft(e, 3), Clockwise, k - 1);
    }
  }

  lemma CertainCount(s: Shaft)
    requires s.at % 4 == 0
    ensures TurnCount(s, Anticlockwise) == 1
  {
  }

  lemma JitterStep(s: Shaft)
    requires Valid(s.encoder) && s.at % 4 == 1
    ensures TurnCount(s, Clockwise) == 0
    ensures TurnCount(Turn(s, Clockwise), Anticlockwise) == 1
  {
  }

  lemma WalkSnoc(s: Shaft, walk: seq<Direction>, d: Direction)
    requires Valid(s.encoder)
    ensures Walk(s, walk + [d]) == Turn(Walk(s, walk), d)
    ensures WalkCount(s, walk + [d]) == WalkCount(s, walk) + TurnCount(Walk(s, walk), d)
    ensures Reversals(walk + [d])
         == Reversals(walk) + (if walk != [] && walk[|walk| - 1] != d then 1 else 0)
  {
    assert (walk + [d])[..|walk|] == walk;
  }

  // ---- the mirror law ----

  function Opposite(d: Direction): Direction {
    if d.Anticlockwise? then Clockwise else Anticlockwise
  }

  function Mirrored(walk: seq<Direction>): (r: seq<Direction>)
    ensures |r| == |walk| && forall i :: 0 <= i < |walk| ==> r[i] == Opposite(walk[i])
  {
    seq(|walk|, i requires 0 <= i < |walk| => Opposite(walk[i]))
  }

  /** The shafts stand on opposite sides of a position A = B = 0, with their flags exchanged. */
  ghost predicate AreMirrored(s: Shaft, t: Shaft) {
    && t.at == -s.at && t.encoder.homeSeen == s.encoder.homeSeen
    && t.encoder.antiFailed == s.encoder.clockFailed && t.encoder.clockFailed == s.encoder.antiFailed
  }

  lemma MirroredTurn(s: Shaft, t: Shaft, d: Direction)
    requires Valid(s.encoder) && Valid(t.encoder) && AreMirrored(s, t)
    ensures TurnCount(t, Opposite(d)) == -TurnCount(s, d)
    ensures AreMirrored(Turn(s, d), Turn(t, Opposite(d)))
  {
    MirroredPhase(s.at);
    MirroredPhase(s.at + Sign(d));
  }

  lemma MirroredPhase(at: int)
    ensures (-at) % 4 == if at % 4 == 0 then 0 else 4 - at % 4
    ensures LevelA(-at) == LevelB(at) && LevelB(-at) == LevelA(at)
  {
    var turns, rest := at / 4, at % 4;
    if rest == 0 {
      Quarters(-turns, 0);
    } else {
      Quarters(-turns - 1, 4 - rest);
    }
  }

  /** A mirrored walk counts the same with the opposite sign. */
  lemma {:induction false} MirrorLaw(s: Shaft, t: Shaft, walk: seq<Direction>)
    requires Valid(s.encoder) && Valid(t.encoder) && AreMirrored(s, t)
    ensures WalkCount(t, Mirrored(walk)) == -WalkCount(s, walk)
    ensures AreMirrored(Walk(s, walk), Walk(t, Mirrored(walk))) && Reversals(Mirrored(walk)) == Reversals(walk)
  {
    if walk == [] {
    } else {
      hide Turn, TurnCount;
      var n := |walk| - 1;
      assert Mirrored(walk)[..n] == Mirrored(walk[..n]);
      MirrorLaw(s, t, walk[..n]);
      MirroredTurn(Walk(s, walk[..n]), Walk(t, Mirrored(walk[..n])), walk[n]);
    }
  }

  /** The lower bound is attained as well: for every number of reversals some shaft is 2R + 4 behind. */
  lemma LowerDriftBoundIsAttained(r: nat) returns (t: Shaft, walk: seq<Direction>)
    ensures Valid(t.encoder) && Reversals(walk) == r
    ensures 4 * WalkCount(t, walk) - (Walk(t, walk).at - t.at) == -(2 * r + 4)
  {
    hide Walk, WalkCount, Reversals;
    var s, w := DriftBoundIsAttained(r);
    var e := s.encoder;
    t := Shaft(Encoder(e.position, e.homeSeen, e.clockFailed, e.antiFailed), -s.at);
    walk := Mirrored(w);
    MirrorLaw(s, t, w);
  }

  // ---- without reversals ----

  /** The phase after `m` quarter steps from A = B = 0. */
  function PhaseAfter(d: Direction, m: nat): nat {
    if d.Anticlockwise? || m % 4 == 0 then m % 4 else 4 - m % 4
  }

  lemma SteadyPhase(at: int, d: Direction, m: nat)
    requires at % 4 == 0
    ensures (at + Sign(d) * m) % 4 == PhaseAfter(d, m)
    ensures (m + 1 + 3) / 4 == (m + 3) / 4 + (if m % 4 == 0 then 1 else 0)
  {
    var turns, k, r := at / 4, m / 4, m % 4;
    Quarters(k, r);
    if d.Anticlockwise? {
      Quarters(turns + k, r);
    } else if r == 0 {
      Quarters(turns - k, 0);
    } else {
      Quarters(turns - k - 1, 4 - r);
    }
  }

  lemma Quarters(turns: int, rest: nat)
    requires rest < 4
    ensures (4 * turns + rest) % 4 == rest
    ensures (4 * turns + rest + 3) / 4 == turns + (if rest == 0 then 0 else 1)
    ensures (4 * turns + rest + 1 + 3) / 4 == turns + 1
  {
  }

  lemma SteadyStep(s: Shaft, d: Direction, m: nat)
    requires Valid(s.encoder) && s.at % 4 == PhaseAfter(d, m)
    requires m > 0 ==> FlagsAfter(s, d)
    ensures TurnCount(s, d) == if m % 4 == 0 then Sign(d) else 0
    ensures FlagsAfter(Turn(s, d), d)
  {
  }

  /** From A = B = 0, a reversal-free walk of n quarter steps counts exactly ceil(n/4), whatever the flags were. */
  lemma {:induction false} SteadyWalkCountsExactly(s: Shaft, d: Direction, n: nat)
    requires Valid(s.encoder) && s.at % 4 == 0
    ensures WalkCount(s, Steady(d, n)) == Sign(d) * ((n + 3) / 4)
    ensures Walk(s, Steady(d, n)).at == s.at + Sign(d) * n
    ensures n > 0 ==> FlagsAfter(Walk(s, Steady(d, n)), d)
  {
    if n == 0 {
    } else {
      SteadyWalkCountsExactly(s, d, n - 1);
      assert Steady(d, n)[..n - 1] == Steady(d, n - 1);
      SteadyPhase(s.at, d, n - 1);
      SteadyStep(Walk(s, Steady(d, n - 1)), d, n - 1);
    }
  }

  /** Quarter steps until the shaft next stands at A = B = 0. */
  function StepsToZero(at: int, d: Direction): (n: nat)
    ensures n <= 3
  {
    if d.Clockwise? || at % 4 == 0 then at % 4 else 4 - at % 4
  }

  /** Whether the very first quarter step counts on the strength of a flag: B rises with A high, or A with B high. */
  predicate FlagCounts(s: Shaft, d: Direction) {
    if d.Anticlockwise? then s.at % 4 == 1 && s.encoder.antiFailed else s.at % 4 == 3 && s.encoder.clockFailed
  }

  lemma {:induction false} WalkAppend(s: Shaft, walk: seq<Direction>, more: seq<Direction>)
    requires Valid(s.encoder)
    ensures Walk(s, walk + more) == Walk(Walk(s, walk), more)
    ensures WalkCount(s, walk + more) == WalkCount(s, walk) + WalkCount(Walk(s, walk), more)
  {
    if more == [] {
      assert walk + more == walk;
    } else {
      hide Turn, TurnCount;
      var n := |more| - 1;
      WalkAppend(s, walk, more[..n]);
      assert (walk + more)[..|walk + more| - 1] == walk + more[..n];
    }
  }

  lemma FlaggedStep(s: Shaft, d: Direction)
    requires Valid(s.encoder) && s.at % 4 != 0
    ensures Turn(s, d).at == s.at + Sign(d)
    ensures TurnCount(s, d) == if FlagCounts(s, d) then Sign(d) else 0
    ensures StepsToZero(s.at + Sign(d), d) == StepsToZero(s.at, d) - 1
  {
  }

  lemma {:induction false} WalkToZero(s: Shaft, d: Direction, n: nat)
    requires Valid(s.encoder) && n <= StepsToZero(s.at, d)
    ensures WalkCount(s, Steady(d, n)) == if n > 0 && FlagCounts(s, d) then Sign(d) else 0
    ensures StepsToZero(Walk(s, Steady(d, n)).at, d) == StepsToZero(s.at, d) - n
    ensures n == 0 ==> Walk(s, Steady(d, n)) == s
  {
    if n == 0 {
      SteadyNothing(s, d);
    } else {
      hide Walk, WalkCount, Reversals, TurnCount, Turn, Steady, StepsToZero, FlagCounts;
      WalkToZero(s, d, n - 1);
      SteadySnoc(s, d, n - 1);
      NotYetZero(Walk(s, Steady(d, n - 1)).at, d);
      FlaggedStep(Walk(s, Steady(d, n - 1)), d);
      if n > 1 {
        NoFlagLater(s, Walk(s, Steady(d, n - 1)), d);
      }
    }
  }

  lemma NotYetZero(at: int, d: Direction)
    ensures StepsToZero(at, d) > 0 <==> at % 4 != 0
  {
  }

  /** A flag can make only the third quarter step before A = B = 0 count. */
  lemma NoFlagLater(s: Shaft, r: Shaft, d: Direction)
    requires StepsToZero(r.at, d) < StepsToZero(s.at, d)
    ensures !FlagCounts(r, d)
  {
  }

  /**
   The exact count of a reversal-free walk from every phase and with every flag: one for the first quarter step if a
   flag makes it count, and from the next A = B = 0 on one for every four quarter steps begun.
   */
  lemma SteadyWalkFromAnywhere(s: Shaft, d: Direction, n: nat)
    requires Valid(s.encoder)
    ensures var zero := StepsToZero(s.at, d);
            WalkCount(s, Steady(d, n))
            == Sign(d) * ((if n > 0 && FlagCounts(s, d) then 1 else 0) + (if n <= zero then 0 else (n - zero + 3) / 4))
  {
    hide FlagCounts, Walk, WalkCount, StepsToZero;
    var zero := StepsToZero(s.at, d);
    if n <= zero {
      WalkToZero(s, d, n);
      DistributeSign(d, if n > 0 && FlagCounts(s, d) then 1 else 0, 0);
    } else {
      LongSteadyWalk(s, d, n);
      DistributeSign(d, if FlagCounts(s, d) then 1 else 0, (n - zero + 3) / 4);
    }
  }

  lemma DistributeSign(d: Direction, a: int, b: int)
    ensures Sign(d) * (a + b) == Sign(d) * a + Sign(d) * b
    ensures Sign(d) * 1 == Sign(d) && Sign(d) * 0 == 0
  {
  }

  lemma LongSteadyWalk(s: Shaft, d: Direction, n: nat)
    requires Valid(s.encoder) && n > StepsToZero(s.at, d)
    ensures WalkCount(s, Steady(d, n))
         == (if FlagCounts(s, d) then Sign(d) else 0) + Sign(d) * ((n - StepsToZero(s.at, d) + 3) / 4)
  {
    hide Walk, WalkCount, Reversals;
    var zero := StepsToZero(s.at, d);
    var rest := n - zero;
    WalkToZero(s, d, zero);
    assert Steady(d, n) == Steady(d, zero) + Steady(d, rest);
    WalkAppend(s, Steady(d, zero), Steady(d, rest));
    NotYetZero(Walk(s, Steady(d, zero)).at, d);
    FlagNeedsThreeSteps(s, d);
    hide StepsToZero, FlagCounts, Steady, Sign;
    SteadyWalkCountsExactly(Walk(s, Steady(d, zero)), d, rest);
  }

  lemma FlagNeedsThreeSteps(s: Shaft, d: Direction)
    ensures FlagCounts(s, d) ==> StepsToZero(s.at, d) == 3
  {
  }
}
