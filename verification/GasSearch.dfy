/** The search for a sufficient gas limit after a successful call in the chisel runner. */
module GasSearch {
  import opened Wrappers
  import opened Bytes

  /**
   How a call ends. `Halted` stands for every other exceptional end, such as running out of gas for
   memory; the search takes it for a success, like `Finished`.
   */
  datatype Exit = Reverted | OutOfGas | OutOfFunds | Halted | Finished

  /** The outcome of the same call under a given gas limit, or the executor's own failure. */
  type Executor = nat -> Option<Exit>

  predicate TakenForFailure(exec: Executor, limit: nat)
  {
    exec(limit).Some? && (exec(limit).value.Reverted? || exec(limit).value.OutOfGas?
                          || exec(limit).value.OutOfFunds?)
  }

  predicate TakenForSuccess(exec: Executor, limit: nat)
  {
    exec(limit).Some? && (exec(limit).value.Halted? || exec(limit).value.Finished?)
  }

  /** Two successful limits that differ by less than a tenth of the larger are close enough. */
  predicate Accurate(last: nat, highest: nat)
    requires highest <= last
  {
    10 * (last - highest) < last
  }

  /** The test of the source, on 64-bit integers: a truncated quotient below one. */
  method VariesLittle(last: nat, highest: nat) returns (close: bool)
    requires 0 < last && highest <= last && 10 * (last - highest) < U64_MODULUS
    ensures close == Accurate(last, highest)
  {
    var d := (last - highest) * 10;
    close := d / last < 1;
    if d < last {
      assert d / last == 0;
    } else {
      assert d / last >= 1;
    }
  }

  /** Stopped early at a limit, ran out of room, or broke off because a call could not be made. */
  datatype Outcome =
    | Stopped(lowest: nat, limit: nat, last: nat)
    | Exhausted(lowest: nat, highest: nat)
    | Broken(limit: nat)

  /** The interval search from a lower limit that is too low to one that is high enough. */
  function Narrow(exec: Executor, lowest: nat, highest: nat): (r: Outcome)
    requires lowest <= highest
    decreases highest - lowest
  {
    if highest - lowest <= 1 then Exhausted(lowest, highest)
    else
      var mid := (highest + lowest) / 2;
      if exec(mid).None? then Broken(mid)
      else if TakenForFailure(exec, mid) then Narrow(exec, mid, highest)
      else if Accurate(highest, mid) then Stopped(lowest, mid, highest)
      else Narrow(exec, lowest, mid)
  }

  /** A success never improves on the last one by more than the gas used. */
  lemma StepBound(gasUsed: nat, lowest: nat, highest: nat, mid: nat)
    requires gasUsed <= lowest <= highest <= 3 * gasUsed && mid == (highest + lowest) / 2
    ensures 10 * (highest - mid) <= 10 * gasUsed
  {}

  lemma NarrowFirst(exec: Executor, lowest: nat, highest: nat, mid: nat)
    requires lowest + 1 < highest && mid == (highest + lowest) / 2
    ensures lowest < mid < highest
    ensures exec(mid).None? ==> Narrow(exec, lowest, highest) == Broken(mid)
    ensures TakenForFailure(exec, mid) ==> Narrow(exec, lowest, highest) == Narrow(exec, mid, highest)
    ensures TakenForSuccess(exec, mid) ==>
              Narrow(exec, lowest, highest) ==
              if Accurate(highest, mid) then Stopped(lowest, mid, highest) else Narrow(exec, lowest, mid)
  {}

  /** The gas a run reports: the limit found, or the gas of the first call. */
  function Reported(gasUsed: nat, r: Outcome): (gas: Option<nat>)
  {
    match r
    case Stopped(_, limit, _) => Some(limit)
    case Exhausted(_, _) => Some(gasUsed)
    case Broken(_) => None
  }

  /** The number of calls the search makes. */
  function Probes(exec: Executor, lowest: nat, highest: nat): (n: nat)
    requires lowest <= highest
    decreases highest - lowest
  {
    if highest - lowest <= 1 then 0
    else
      var mid := (highest + lowest) / 2;
      if exec(mid).None? then 1
      else if TakenForFailure(exec, mid) then 1 + Probes(exec, mid, highest)
      else if Accurate(highest, mid) then 1
      else 1 + Probes(exec, lowest, mid)
  }

  class ChiselRunner {
    /** The gas limit in the executor's transaction environment. */
    var gasLimit: nat

    constructor (gasLimit: nat)
      ensures this.gasLimit == gasLimit
    {
      this.gasLimit := gasLimit;
    }

    /**
     `succeeded` and `gasUsed` are the result of the first call. No arithmetic on 64-bit integers
     overflows as long as ten times the gas used fits. The limit in the environment is put back
     unless a call of the search could not be made.
     */
    method Estimate(exec: Executor, succeeded: bool, gasUsed: nat) returns (r: Option<nat>)
      requires 10 * gasUsed < U64_MODULUS
      modifies this
      ensures !succeeded ==> r == Some(gasUsed) && gasLimit == old(gasLimit)
      ensures succeeded ==> r == Reported(gasUsed, Narrow(exec, gasUsed, 3 * gasUsed))
      ensures succeeded ==>
                var outcome := Narrow(exec, gasUsed, 3 * gasUsed);
                gasLimit == if outcome.Broken? then outcome.limit else old(gasLimit)
    {
      var gas := gasUsed;
      if succeeded {
        var initial := gasLimit;
        var highest := gasUsed * 3;
        var lowest := gasUsed;
        var last := highest;
        ghost var stopped, goal := false, Narrow(exec, gasUsed, 3 * gasUsed);
        while highest - lowest > 1
          invariant gasUsed <= lowest <= highest == last <= 3 * gasUsed
          invariant Narrow(exec, lowest, highest) == goal
          invariant gas == gasUsed && !stopped
          decreases highest - lowest
        {
          assert highest + lowest < U64_MODULUS;
          var mid := (highest + lowest) / 2;
          NarrowFirst(exec, lowest, highest, mid);
          StepBound(gasUsed, lowest, highest, mid);
          gasLimit := mid;
          var res := exec(mid);
          if res.None? {
            return None;
          }
          match res.value
          case Reverted | OutOfGas | OutOfFunds =>
            lowest := mid;
          case Halted | Finished =>
            highest := mid;
            var close := VariesLittle(last, highest);
            if close {
              gas := highest;
              stopped := true;
              break;
            }
            last := highest;
        }
        assert stopped || goal == Exhausted(lowest, highest);
        gasLimit := initial;
      }
      return Some(gas);
    }
  }

  /* ---------- What the search establishes, whatever the calls answer ---------- */

  /** The evidence a search leaves: each end of its interval is where it began or was probed. */
  predicate Evidence(exec: Executor, low0: nat, high0: nat, lowest: nat, highest: nat)
  {
    && low0 <= lowest <= highest <= high0
    && (lowest == low0 || TakenForFailure(exec, lowest))
    && (highest == high0 || TakenForSuccess(exec, highest))
  }

  /** What is known of the limits in the result of a search. */
  predicate Concluded(exec: Executor, low0: nat, high0: nat, r: Outcome)
  {
    match r
    case Stopped(l, limit, last) =>
      && Evidence(exec, low0, high0, l, last) && l < limit < last
      && TakenForSuccess(exec, limit) && 10 * (last - limit) < last && limit - l <= last - limit
    case Exhausted(l, h) => Evidence(exec, low0, high0, l, h) && h - l <= 1
    case Broken(limit) => low0 < limit < high0 && exec(limit).None?
  }

  lemma StopIsConcluded(exec: Executor, low0: nat, high0: nat, lowest: nat, mid: nat, highest: nat)
    requires Evidence(exec, low0, high0, lowest, highest)
    requires lowest + 1 < highest && mid == (highest + lowest) / 2
    requires TakenForSuccess(exec, mid) && Accurate(highest, mid)
    ensures Concluded(exec, low0, high0, Stopped(lowest, mid, highest))
  {}

  /**
   Any search: an early stop reports a limit that was tried and taken for a success, just above a
   limit that is the starting one or was tried and taken for a failure; exhaustion leaves two adjacent limits with the
   same evidence; breaking off leaves a limit within the interval.
   */
  lemma {:induction false} NarrowLeavesEvidence(exec: Executor, low0: nat, high0: nat,
                                                lowest: nat, highest: nat)
    requires Evidence(exec, low0, high0, lowest, highest)
    ensures Concluded(exec, low0, high0, Narrow(exec, lowest, highest))
    decreases highest - lowest
  {
    if highest - lowest > 1 {
      var mid := (highest + lowest) / 2;
      if TakenForFailure(exec, mid) {
        NarrowLeavesEvidence(exec, low0, high0, mid, highest);
      } else if TakenForSuccess(exec, mid) {
        if Accurate(highest, mid) {
          StopIsConcluded(exec, low0, high0, lowest, mid, highest);
        } else {
          NarrowLeavesEvidence(exec, low0, high0, lowest, mid);
        }
      }
    }
  }

  /** The search makes at most logarithmically many calls. */
  lemma {:induction false} ProbesAreFew(exec: Executor, lowest: nat, highest: nat)
    requires lowest <= highest
    ensures Probes(exec, lowest, highest) > 0 ==>
              Pow2(Probes(exec, lowest, highest) - 1) < highest - lowest
    decreases highest - lowest
  {
    if highest - lowest > 1 {
      var mid := (highest + lowest) / 2;
      ProbesAreFew(exec, mid, highest);
      ProbesAreFew(exec, lowest, mid);
    }
  }

  /* ---------- Calls with a least sufficient limit ---------- */

  /** The call finishes from the given limit on and runs out of gas, or reverts, below it. */
  ghost predicate Needs(exec: Executor, least: nat)
  {
    forall limit ::
      if least <= limit then exec(limit) == Some(Finished) else TakenForFailure(exec, limit)
  }

  /**
   The least sufficient limit a search between two limits never gets close to: it is hit exactly,
   when successes are still more than a tenth apart, and every later call fails.
   */
  predicate Hit(lowest: nat, highest: nat, least: nat)
    requires lowest <= highest
    decreases highest - lowest
  {
    if highest - lowest <= 1 then least == highest
    else
      var mid := (highest + lowest) / 2;
      if mid < least then Hit(mid, highest, least)
      else 10 * (highest - mid) >= highest && Hit(lowest, mid, least)
  }

  lemma {:induction false} ExhaustedIffHit(exec: Executor, lowest: nat, highest: nat, least: nat)
    requires Needs(exec, least) && lowest < least <= highest
    ensures Narrow(exec, lowest, highest).Exhausted? <==> Hit(lowest, highest, least)
    ensures !Narrow(exec, lowest, highest).Broken?
    decreases highest - lowest
  {
    if highest - lowest > 1 {
      var mid := (highest + lowest) / 2;
      if mid < least {
        assert TakenForFailure(exec, mid);
        ExhaustedIffHit(exec, mid, highest, least);
      } else {
        assert TakenForSuccess(exec, mid);
        if !Accurate(highest, mid) {
          ExhaustedIffHit(exec, lowest, mid, least);
        }
      }
    }
  }

  /** Below a limit that is too high for the whole interval every call fails. */
  lemma {:induction false} TooHighExhausts(exec: Executor, lowest: nat, highest: nat, least: nat)
    requires Needs(exec, least) && lowest <= highest < least
    ensures Narrow(exec, lowest, highest).Exhausted?
    decreases highest - lowest
  {
    if highest - lowest > 1 {
      var mid := (highest + lowest) / 2;
      assert TakenForFailure(exec, mid);
      TooHighExhausts(exec, mid, highest, least);
    }
  }

  /** When the first call's own gas is enough as a limit, so is every report. */
  lemma {:induction false} LowEnough(exec: Executor, lowest: nat, highest: nat, least: nat)
    requires Needs(exec, least) && least <= lowest <= highest
    ensures match Narrow(exec, lowest, highest)
            case Stopped(_, limit, _) => limit >= least
            case Exhausted(_, _) => true
            case Broken(_) => false
    decreases highest - lowest
  {
    if highest - lowest > 1 {
      var mid := (highest + lowest) / 2;
      assert TakenForSuccess(exec, mid);
      if !Accurate(highest, mid) {
        LowEnough(exec, lowest, mid, least);
      }
    }
  }

  /**
   The reported gas is enough for the call if and only if the call needs no more than it used, or
   the least sufficient limit lies below three times that and is not hit exactly by the search.
   Stopping early, the report exceeds the least sufficient limit by less than a ninth of itself.
   */
  lemma ReportIsSufficient(exec: Executor, gasUsed: nat, least: nat)
    requires Needs(exec, least)
    ensures var gas := Reported(gasUsed, Narrow(exec, gasUsed, 3 * gasUsed));
            && gas.Some?
            && (gas.value >= least <==>
                  least <= gasUsed || (least <= 3 * gasUsed && !Hit(gasUsed, 3 * gasUsed, least)))
            && (gasUsed < least <= gas.value ==> 9 * (gas.value - least) < gas.value)
  {
    NarrowLeavesEvidence(exec, gasUsed, 3 * gasUsed, gasUsed, 3 * gasUsed);
    if least <= gasUsed {
      LowEnough(exec, gasUsed, 3 * gasUsed, least);
    } else if least <= 3 * gasUsed {
      ExhaustedIffHit(exec, gasUsed, 3 * gasUsed, least);
      var r := Narrow(exec, gasUsed, 3 * gasUsed);
      if r.Stopped? {
        assert TakenForSuccess(exec, r.limit);
        assert r.lowest < least;
      }
    } else {
      TooHighExhausts(exec, gasUsed, 3 * gasUsed, least);
    }
  }

  /* ---------- The limits that are hit ---------- */

  /** In an interval where any success stops the search only the upper end is hit. */
  lemma {:induction false} HitInNarrow(lowest: nat, highest: nat, least: nat)
    requires lowest < least <= highest
    requires highest - lowest <= 1 || 10 * ((highest - lowest + 1) / 2) < highest
    ensures Hit(lowest, highest, least) <==> least == highest
    decreases highest - lowest
  {
    if highest - lowest > 1 {
      var mid := (highest + lowest) / 2;
      if mid < least {
        HitInNarrow(mid, highest, least);
      }
    }
  }

  /** The midpoint the search tries first in an interval. */
  function Mid(lowest: nat, highest: nat): (m: nat)
    requires lowest <= highest
    ensures lowest <= m <= highest
  {
    (highest + lowest) / 2
  }

  /** A success at the midpoint improves on the upper end by a tenth or more. */
  predicate Coarse(lowest: nat, highest: nat)
    requires lowest <= highest
  {
    10 * (highest - Mid(lowest, highest)) >= highest
  }

  /** Hitting a limit in an interval is hitting it in the half the search goes on with. */
  lemma HitHalf(lowest: nat, highest: nat, least: nat)
    requires lowest + 1 < highest
    ensures Hit(lowest, highest, least) ==
            if Mid(lowest, highest) < least then Hit(Mid(lowest, highest), highest, least)
            else Coarse(lowest, highest) && Hit(lowest, Mid(lowest, highest), least)
  {}

  /**
   The limits between the gas used and three times it that the search hits: the ends of the
   intervals that are still coarse. Two of them are coarse or not depending on rounding.
   */
  predicate Missed(g: nat, least: nat)
  {
    var double := 2 * g;
    var upper := Mid(double, 3 * g);
    var lower := Mid(g, double);
    var quarter := Mid(g, lower);
    || least == 3 * g || least == double || least == upper || least == lower
    || least == Mid(lower, double) || least == quarter
    || (least == Mid(double, upper) && Coarse(double, upper))
    || (least == Mid(g, quarter) && Coarse(g, quarter))
  }

  /** An interval split once more, both halves narrow. */
  lemma HitInTwoHalves(lowest: nat, highest: nat, least: nat)
    requires lowest < least <= highest && lowest + 1 < highest
    requires var m := Mid(lowest, highest);
             && (m - lowest <= 1 || 10 * ((m - lowest + 1) / 2) < m)
             && (highest - m <= 1 || 10 * ((highest - m + 1) / 2) < highest)
    ensures Hit(lowest, highest, least) <==>
              least == highest || (least == Mid(lowest, highest) && Coarse(lowest, highest))
  {
    var m := Mid(lowest, highest);
    HitHalf(lowest, highest, least);
    if m < least {
      HitInNarrow(m, highest, least);
    } else {
      HitInNarrow(lowest, m, least);
    }
  }

  lemma HitAboveDouble(g: nat, least: nat)
    requires g >= 28 && 2 * g < least <= 3 * g
    ensures Hit(2 * g, 3 * g, least) <==>
              var upper := Mid(2 * g, 3 * g);
              least == 3 * g || least == upper
              || (least == Mid(2 * g, upper) && Coarse(2 * g, upper))
  {
    var upper := Mid(2 * g, 3 * g);
    HitHalf(2 * g, 3 * g, least);
    if upper < least {
      HitInNarrow(upper, 3 * g, least);
    } else {
      HitInTwoHalves(2 * g, upper, least);
    }
  }

  lemma HitBelowDouble(g: nat, least: nat)
    requires g >= 28 && g < least <= 2 * g
    ensures Hit(g, 2 * g, least) <==>
              var lower := Mid(g, 2 * g);
              var quarter := Mid(g, lower);
              least == 2 * g || least == lower || least == Mid(lower, 2 * g) || least == quarter
              || (least == Mid(g, quarter) && Coarse(g, quarter))
  {
    var lower := Mid(g, 2 * g);
    var quarter := Mid(g, lower);
    HitHalf(g, 2 * g, least);
    if lower < least {
      HitInTwoHalves(lower, 2 * g, least);
    } else {
      HitHalf(g, lower, least);
      if quarter < least {
        HitInNarrow(quarter, lower, least);
      } else {
        HitInTwoHalves(g, quarter, least);
      }
    }
  }

  lemma HitIffMissed(g: nat, least: nat)
    requires g >= 28 && g < least <= 3 * g
    ensures Hit(g, 3 * g, least) <==> Missed(g, least)
  {
    HitHalf(g, 3 * g, least);
    assert Mid(g, 3 * g) == 2 * g;
    if 2 * g < least {
      HitAboveDouble(g, least);
    } else {
      HitBelowDouble(g, least);
    }
  }

  /**
   The exact list of calls whose report is too small, for every call that used at least 28 gas: the
   least sufficient limit is above three times the gas used, or one of at most eight limits.
   */
  lemma TooSmallReports(exec: Executor, gasUsed: nat, least: nat)
    requires Needs(exec, least) && gasUsed >= 28
    ensures var gas := Reported(gasUsed, Narrow(exec, gasUsed, 3 * gasUsed));
            && gas.Some?
            && (gas.value < least <==>
                  least > 3 * gasUsed || (gasUsed < least && Missed(gasUsed, least)))
  {
    ReportIsSufficient(exec, gasUsed, least);
    if gasUsed < least <= 3 * gasUsed {
      HitIffMissed(gasUsed, least);
    }
  }

  /** Below 28 rounding adds further limits: with 27 gas used, 36 is hit although it is not listed. */
  lemma ListStartsAt28()
    ensures Hit(27, 81, 36) && !Missed(27, 36)
  {
    assert Hit(33, 36, 36);
    assert Hit(27, 40, 36);
  }

  /* ---------- Gas used that is a multiple of eight ---------- */

  lemma HitInLowestQuarter(k: nat, least: nat)
    requires 8 * k < least <= 12 * k
    ensures Hit(8 * k, 12 * k, least) <==> least == 9 * k || least == 10 * k || least == 12 * k
  {
    if least <= 10 * k {
      assert Hit(8 * k, 12 * k, least) == Hit(8 * k, 10 * k, least);
      if least <= 9 * k {
        HitInNarrow(8 * k, 9 * k, least);
      } else {
        HitInNarrow(9 * k, 10 * k, least);
      }
    } else {
      HitInNarrow(10 * k, 12 * k, least);
    }
  }

  lemma HitInLowerHalf(k: nat, least: nat)
    requires 8 * k < least <= 16 * k
    ensures Hit(8 * k, 16 * k, least) <==>
              least == 9 * k || least == 10 * k || least == 12 * k || least == 14 * k || least == 16 * k
  {
    if least <= 12 * k {
      assert Hit(8 * k, 16 * k, least) == Hit(8 * k, 12 * k, least);
      HitInLowestQuarter(k, least);
    } else {
      assert Hit(8 * k, 16 * k, least) == Hit(12 * k, 16 * k, least);
      if least <= 14 * k {
        HitInNarrow(12 * k, 14 * k, least);
      } else {
        HitInNarrow(14 * k, 16 * k, least);
      }
    }
  }

  lemma HitInUpperHalf(k: nat, least: nat)
    requires 16 * k < least <= 24 * k
    ensures Hit(16 * k, 24 * k, least) <==>
              least == 18 * k || least == 20 * k || least == 24 * k
  {
    if least <= 20 * k {
      assert Hit(16 * k, 24 * k, least) == Hit(16 * k, 20 * k, least);
      if least <= 18 * k {
        HitInNarrow(16 * k, 18 * k, least);
      } else {
        HitInNarrow(18 * k, 20 * k, least);
      }
    } else {
      HitInNarrow(20 * k, 24 * k, least);
    }
  }

  /**
   The failing limits spelled out for a call that used a multiple of eight: the search reports too
   little gas exactly for these eighths of the gas used, and for anything above three times it.
   */
  lemma InsufficientReports(exec: Executor, k: nat, least: nat)
    requires Needs(exec, least)
    ensures var gas := Reported(8 * k, Narrow(exec, 8 * k, 24 * k));
            && gas.Some?
            && (gas.value < least <==>
                  least > 0 && (|| least == 9 * k || least == 10 * k || least == 12 * k
                                || least == 14 * k || least == 16 * k || least == 18 * k
                                || least == 20 * k || least >= 24 * k))
  {
    ReportIsSufficient(exec, 8 * k, least);
    if 8 * k < least <= 16 * k {
      assert Hit(8 * k, 24 * k, least) == Hit(8 * k, 16 * k, least);
      HitInLowerHalf(k, least);
    } else if 16 * k < least <= 24 * k {
      assert Hit(8 * k, 24 * k, least) == Hit(16 * k, 24 * k, least);
      HitInUpperHalf(k, least);
    }
  }

  /** A call that used 800 gas but needs a limit of 1600 is reported to need 800. */
  lemma DoubledNeedIsMissed(exec: Executor)
    requires Needs(exec, 1600)
    ensures Reported(800, Narrow(exec, 800, 2400)) == Some(800)
  {
    InsufficientReports(exec, 100, 1600);
    NarrowLeavesEvidence(exec, 800, 2400, 800, 2400);
  }
}
