/** The RAPL power samplers of intel.c: four copies of one sampler over 32-bit counters that wrap. */
module Rapl {

  const WRAP := 0x1_0000_0000

  /** What one call sees: the energy MSR, the tick count and the energy unit in joules. */
  datatype Reading = Failed | Msr(value: nat, tick: nat, unit: real)

  /** The static variables of one sampler. */
  datatype State = State(hasPrev: bool, prevEnergy: nat, prevTick: nat)

  const INIT := State(false, 0, 0)

  /** (DWORD)(a - b) */
  function Delta(a: int, b: int): (d: nat)
    ensures d < WRAP
  {
    (a - b) % WRAP
  }

  /** One call: the next state and the watts returned, -1.0 for a failed read. */
  function Step(st: State, r: Reading): (State, real) {
    if r.Failed? then (st, -1.0)
    else
      var now := State(true, r.value % WRAP, r.tick);
      if !st.hasPrev then (now, 0.0)
      else if Delta(r.tick, st.prevTick) == 0 then (st, 0.0)
      else
        (now, Watts(Delta(r.value % WRAP, st.prevEnergy), Delta(r.tick, st.prevTick), r.unit))
  }

  /** Units of energy over milliseconds, in watts */
  function Watts(energyDelta: nat, timeDeltaMs: nat, unit: real): real
    requires timeDeltaMs > 0
  {
    energyDelta as real * unit / (timeDeltaMs as real / 1000.0)
  }

  class Sampler {
    var hasPrev: bool
    var prevEnergy: nat
    var prevTick: nat

    ghost function Model(): State
      reads this
    {
      State(hasPrev, prevEnergy, prevTick)
    }

    constructor ()
      ensures Model() == INIT
    {
      hasPrev, prevEnergy, prevTick := false, 0, 0;
    }

    /** hwsense_intel_package_power, and its PP0, PP1 and DRAM copies */
    method Power(r: Reading) returns (watts: real)
      modifies this
      ensures (Model(), watts) == Step(old(Model()), r)
    {
      hide Delta, Watts;
      if r.Failed? {
        return -1.0;
      }
      var energyRaw, nowTick := r.value % WRAP, r.tick;
      if !hasPrev {
        prevEnergy := energyRaw;
        prevTick := nowTick;
        hasPrev := true;
        return 0.0;
      }
      var energyDelta := Delta(energyRaw, prevEnergy);
      var timeDeltaMs := Delta(nowTick, prevTick);
      if timeDeltaMs == 0 {
        return 0.0;
      }
      prevEnergy := energyRaw;
      prevTick := nowTick;
      watts := Watts(energyDelta, timeDeltaMs, r.unit);
    }
  }

  /** A failed read returns -1.0 and changes nothing, in any state; the first reading returns 0.0; and of
      the 64-bit register only the low half counts. */
  lemma StepAtTheEdges(st: State, v: nat, high: nat, tick: nat, unit: real)
    ensures Step(st, Failed) == (st, -1.0)
    ensures Step(INIT, Msr(v, tick, unit)).1 == 0.0
    ensures v < WRAP ==> Step(st, Msr(high * 0x1_0000_0000 + v, tick, unit)) == Step(st, Msr(v, tick, unit))
  {
    hide Delta, Watts;
    assert v < WRAP ==> (high * WRAP + v) % WRAP == v;
  }

  // ---- What the counters stand for --------------------------------------------------

  /** A moment at which a sampler is called: the energy counted so far in units, the milliseconds
      passed so far, both without wrap-around, and whether the MSR read succeeds. */
  datatype Moment = Moment(ok: bool, energy: nat, ms: nat)

  function Observe(m: Moment, unit: real): Reading {
    if m.ok then Msr(m.energy % WRAP, m.ms % WRAP, unit) else Failed
  }

  /** The state whose baseline is the moment m. */
  function At(m: Moment): State {
    State(true, m.energy % WRAP, m.ms % WRAP)
  }

  ghost predicate Forward(from: Moment, ms: seq<Moment>)
    decreases |ms|
  {
    ms == [] || (from.energy <= ms[0].energy && from.ms <= ms[0].ms && Forward(ms[0], ms[1..]))
  }

  /** The moments, after a baseline at last, that a caller would expect to become baselines: those
      that were read and lie later in time than the one before. */
  function Baselines(last: Moment, ms: seq<Moment>): (bs: seq<Moment>)
    ensures forall b :: b in bs ==> b.ok
    decreases |ms|
  {
    if ms == [] then []
    else if ms[0].ok && ms[0].ms != last.ms then [ms[0]] + Baselines(ms[0], ms[1..])
    else Baselines(last, ms[1..])
  }

  function End(last: Moment, bs: seq<Moment>): Moment {
    if bs == [] then last else bs[|bs| - 1]
  }

  predicate TimeGapsFit(last: Moment, bs: seq<Moment>)
    decreases |bs|
  {
    bs == [] || (0 <= bs[0].ms - last.ms < WRAP && TimeGapsFit(bs[0], bs[1..]))
  }

  predicate EnergyGapsFit(last: Moment, bs: seq<Moment>)
    decreases |bs|
  {
    bs == [] || (0 <= bs[0].energy - last.energy < WRAP && EnergyGapsFit(bs[0], bs[1..]))
  }

  function InJoules(units: int, unit: real): real {
    units as real * unit
  }

  /** The joules of a power held for t milliseconds */
  function OverTime(watts: real, t: int): real {
    watts * (t as real / 1000.0)
  }

  /** The joules a caller computes from the watts returned over a run: each result times the seconds
      since the call whose values it is measured against. */
  function Joules(st: State, since: nat, ms: seq<Moment>, unit: real): real
    decreases |ms|
  {
    if ms == [] then 0.0
    else
      var (next, watts) := Step(st, Observe(ms[0], unit));
      if !ms[0].ok then Joules(next, since, ms[1..], unit)
      else
        OverTime(watts, ms[0].ms - since)
        + Joules(next, if next == st then since else ms[0].ms, ms[1..], unit)
  }

  // ---- Conservation -------------------------------------------------------------------

  lemma DeltaOfWrapped(a: nat, b: nat)
    ensures Delta(a % WRAP, b % WRAP) == Delta(a, b)
    ensures b <= a ==> Delta(a, b) <= a - b
    ensures b <= a ==> (Delta(a, b) == a - b <==> a - b < WRAP)
  {
    var q := a / WRAP - b / WRAP;
    assert a - b == q * WRAP + (a % WRAP - b % WRAP);
    ModShift(a % WRAP - b % WRAP, q);
  }

  lemma ModShift(x: int, q: int)
    ensures (x + q * WRAP) % WRAP == x % WRAP
  {
  }

  /** A single call returns the mean power since the baseline, up to the energy lost by wrapping. */
  lemma StepIsMeanPower(last: Moment, m: Moment, unit: real)
    requires m.ok && last.energy <= m.energy && last.ms < m.ms && m.ms - last.ms < WRAP
    ensures Step(At(last), Observe(m, unit)).0 == At(m) != At(last)
    ensures OverTime(Step(At(last), Observe(m, unit)).1, m.ms - last.ms)
            == InJoules(Delta(m.energy, last.energy), unit)
  {
    hide Delta, Watts;
    DeltaOfWrapped(m.energy, last.energy);
    DeltaOfWrapped(m.ms, last.ms);
    WattsTimesSeconds(Delta(m.energy, last.energy), m.ms - last.ms, unit);
    if m.ms % WRAP == last.ms % WRAP {
      DeltaOfSame(m.ms % WRAP);
    }
  }

  lemma DeltaOfSame(a: int)
    ensures Delta(a, a) == 0
  {
  }

  lemma WattsTimesSeconds(d: nat, t: nat, unit: real)
    requires t > 0
    ensures OverTime(Watts(d, t, unit), t) == InJoules(d, unit)
  {
    Quotient(d as real * unit, t as real / 1000.0);
  }

  lemma NothingSpent(unit: real)
    ensures InJoules(0, unit) == 0.0
  {
  }

  lemma NothingOverTime(t: int)
    ensures OverTime(0.0, t) == 0.0
  {
  }

  lemma Quotient(x: real, y: real)
    requires y > 0.0
    ensures x / y * y == x
  {
  }

  lemma AddUp(d: int, gap: int, rest: real, more: int, unit: real)
    requires unit > 0.0 && d <= gap && rest <= InJoules(more, unit)
    ensures InJoules(d, unit) + rest <= InJoules(gap + more, unit)
    ensures InJoules(d, unit) + rest == InJoules(gap + more, unit) <==> d == gap && rest == InJoules(more, unit)
  {
    var short := (gap - d) as real;
    assert InJoules(gap + more, unit) == d as real * unit + short * unit + more as real * unit;
    if d < gap {
      assert short * unit > 0.0;
    }
  }

  lemma {:induction false} FromBaseline(last: Moment, ms: seq<Moment>, unit: real)
    requires unit > 0.0 && Forward(last, ms) && TimeGapsFit(last, Baselines(last, ms))
    ensures var spent := End(last, Baselines(last, ms)).energy - last.energy;
            && Joules(At(last), last.ms, ms, unit) <= InJoules(spent, unit)
            && (Joules(At(last), last.ms, ms, unit) == InJoules(spent, unit)
                <==> EnergyGapsFit(last, Baselines(last, ms)))
    decreases |ms|
  {
    hide Delta, Step, InJoules, OverTime, Observe;
    if ms == [] {
      NothingSpent(unit);
    } else {
      var m, rest := ms[0], ms[1..];
      if m.ok && m.ms != last.ms {
        StepIsMeanPower(last, m, unit);
        DeltaOfWrapped(m.energy, last.energy);
        FromBaseline(m, rest, unit);
        NextBaseline(last, m, Baselines(m, rest));
        AddUp(Delta(m.energy, last.energy), m.energy - last.energy, Joules(At(m), m.ms, rest, unit),
              End(m, Baselines(m, rest)).energy - m.energy, unit);
      } else {
        NoStep(last, m, unit);
        NothingOverTime(m.ms - last.ms);
        FromBaseline(last, rest, unit);
      }
    }
  }

  /** A failed read, and a call in the same millisecond, leave the baseline alone. */
  lemma NoStep(last: Moment, m: Moment, unit: real)
    requires m.ok ==> m.ms == last.ms
    ensures Step(At(last), Observe(m, unit)) == (At(last), if m.ok then 0.0 else -1.0)
  {
    DeltaOfSame(m.ms % WRAP);
  }

  lemma NextBaseline(last: Moment, m: Moment, bs: seq<Moment>)
    ensures End(last, [m] + bs) == End(m, bs)
    ensures TimeGapsFit(last, [m] + bs) <==> 0 <= m.ms - last.ms < WRAP && TimeGapsFit(m, bs)
    ensures EnergyGapsFit(last, [m] + bs) <==> 0 <= m.energy - last.energy < WRAP && EnergyGapsFit(m, bs)
  {
    assert ([m] + bs)[1..] == bs;
  }

  /** The first moment that is read becomes the first baseline. */
  function First(ms: seq<Moment>): (k: nat)
    ensures k <= |ms| && (k < |ms| ==> ms[k].ok) && forall j :: 0 <= j < k ==> !ms[j].ok
  {
    if ms == [] || ms[0].ok then 0 else 1 + First(ms[1..])
  }

  lemma {:induction false} BeforeFirst(since: nat, ms: seq<Moment>, unit: real)
    ensures First(ms) < |ms| ==>
              Joules(INIT, since, ms, unit)
              == Joules(At(ms[First(ms)]), ms[First(ms)].ms, ms[First(ms) + 1..], unit)
    ensures First(ms) == |ms| ==> Joules(INIT, since, ms, unit) == 0.0
    decreases |ms|
  {
    if ms != [] && !ms[0].ok {
      BeforeFirst(since, ms[1..], unit);
    }
  }

  /** Conservation of energy over a whole run of calls, with any of them failing or falling in the
      same millisecond: as long as consecutive baselines are less than 2^32 ms apart, the joules
      computed from the results never exceed the energy spent between the first and the last
      baseline, and equal it exactly when the counter made less than one turn between baselines. */
  lemma {:induction false} EnergyIsConserved(ms: seq<Moment>, unit: real)
    requires unit > 0.0 && First(ms) < |ms|
    requires var k := First(ms);
             Forward(ms[k], ms[k + 1..]) && TimeGapsFit(ms[k], Baselines(ms[k], ms[k + 1..]))
    ensures var first := ms[First(ms)];
            var bs := Baselines(first, ms[First(ms) + 1..]);
            var spent := InJoules(End(first, bs).energy - first.energy, unit);
            && Joules(INIT, 0, ms, unit) <= spent
            && (Joules(INIT, 0, ms, unit) == spent <==> EnergyGapsFit(first, bs))
  {
    BeforeFirst(0, ms, unit);
    FromBaseline(ms[First(ms)], ms[First(ms) + 1..], unit);
  }
}
