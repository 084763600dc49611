/** The parameter struct of the scaled calm-before-storm adviser and its projection to and from the
    flat decimal vector the parameter search works on. */
module AdviceCBSScaledParams {
  import opened Common

  datatype CBSScaledParams = CBSScaledParams(
    periodHoursMin: int,
    periodHoursMax: int,
    stormToCalmMin: real,
    stormToCalmMax: real,
    stormMinPowerToCalmMaxChange: real,
    stormMaxPowerToCalmMaxChange: real,
    stormMinVolumeToCalmVolume: real,
    calmMaxChangeToStormPower: real,
    calmMaxCurvatureToStormPower: real,
    takeProfitDiffToStormPower: real,
    stopLossDiffToStormPower: real,
    calmToCheckDirection: real,
    stormPowerToCheckDirectionDiff: real)

  /** Length of the flat vector. */
  const Arity: nat := 13

  /** Positions of the integer fields, which the vector holds as decimals. */
  const IntSlots: set<int> := {0, 1}

  /** The fields in declaration order; integer fields become integral decimals. */
  function GetParams(p: CBSScaledParams): (v: seq<real>)
    ensures |v| == Arity
    ensures forall i :: i in IntSlots ==> 0 <= i < Arity && IsIntegral(v[i])
  {
    [
      p.periodHoursMin as real,
      p.periodHoursMax as real,
      p.stormToCalmMin,
      p.stormToCalmMax,
      p.stormMinPowerToCalmMaxChange,
      p.stormMaxPowerToCalmMaxChange,
      p.stormMinVolumeToCalmVolume,
      p.calmMaxChangeToStormPower,
      p.calmMaxCurvatureToStormPower,
      p.takeProfitDiffToStormPower,
      p.stopLossDiffToStormPower,
      p.calmToCheckDirection,
      p.stormPowerToCheckDirectionDiff
    ]
  }

  /** The struct read from the first Arity entries of `v`; integer fields are
      truncated toward zero and entries past Arity are ignored. Reading the
      struct back gives `v` with the integer slots truncated, and exactly the
      first Arity entries of `v` when those slots are already integral. */
  function SetParams(v: seq<real>): (p: CBSScaledParams)
    requires |v| >= Arity
    ensures forall i :: 0 <= i < Arity && i !in IntSlots ==> GetParams(p)[i] == v[i]
    ensures forall i :: i in IntSlots ==> 0 <= i < Arity && GetParams(p)[i] == IntPart(v[i]) as real
    ensures IsIntegral(v[0]) && IsIntegral(v[1]) ==> GetParams(p) == v[..Arity]
  {
    IntPartIntegral(v[0]);
    IntPartIntegral(v[1]);
    CBSScaledParams(
      IntPart(v[0]),
      IntPart(v[1]),
      v[2],
      v[3],
      v[4],
      v[5],
      v[6],
      v[7],
      v[8],
      v[9],
      v[10],
      v[11],
      v[12])
  }

  /** Writing a struct's own vector back reproduces the struct. */
  lemma SetGetRoundTrip(p: CBSScaledParams)
    ensures SetParams(GetParams(p)) == p
  {
    IntPartOfInt(p.periodHoursMin);
    IntPartOfInt(p.periodHoursMax);
  }

  /** Entries past Arity never influence the struct. */
  lemma SetIgnoresExtra(v: seq<real>, extra: seq<real>)
    requires |v| >= Arity
    ensures SetParams(v + extra) == SetParams(v)
  {
    assert forall i :: 0 <= i < Arity ==> (v + extra)[i] == v[i];
  }
}
