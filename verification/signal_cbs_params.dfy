/** The parameter struct of the older calm-before-storm signal and its projection to and from the
    flat decimal vector the parameter search works on. */
module SignalCBSParams {
  import opened Common

  datatype CBSParams = CBSParams(
    calmDurationHours: int,
    calmMaxVolatility: real,
    calmMaxCurvature: real,
    stormDurationHours: int,
    stormMinPower: real,
    stormMaxPower: real,
    takeProfitDiff: real,
    stopLossDiff: real)

  /** Length of the flat vector. */
  const Arity: nat := 8

  /** Positions of the integer fields, which the vector holds as decimals. */
  const IntSlots: set<int> := {0, 3}

  /** The fields in declaration order; integer fields become integral decimals. */
  function GetParams(p: CBSParams): (v: seq<real>)
    ensures |v| == Arity
    ensures forall i :: i in IntSlots ==> 0 <= i < Arity && IsIntegral(v[i])
  {
    [
      p.calmDurationHours as real,
      p.calmMaxVolatility,
      p.calmMaxCurvature,
      p.stormDurationHours as real,
      p.stormMinPower,
      p.stormMaxPower,
      p.takeProfitDiff,
      p.stopLossDiff
    ]
  }

  /** The struct read from the first Arity entries of `v`; integer fields are
      truncated toward zero and entries past Arity are ignored. Reading the
      struct back gives `v` with the integer slots truncated, and exactly the
      first Arity entries of `v` when those slots are already integral. */
  function SetParams(v: seq<real>): (p: CBSParams)
    requires |v| >= Arity
    ensures forall i :: 0 <= i < Arity && i !in IntSlots ==> GetParams(p)[i] == v[i]
    ensures forall i :: i in IntSlots ==> 0 <= i < Arity && GetParams(p)[i] == IntPart(v[i]) as real
    ensures IsIntegral(v[0]) && IsIntegral(v[3]) ==> GetParams(p) == v[..Arity]
  {
    IntPartIntegral(v[0]);
    IntPartIntegral(v[3]);
    CBSParams(
      IntPart(v[0]),
      v[1],
      v[2],
      IntPart(v[3]),
      v[4],
      v[5],
      v[6],
      v[7])
  }

  /** Writing a struct's own vector back reproduces the struct. */
  lemma SetGetRoundTrip(p: CBSParams)
    ensures SetParams(GetParams(p)) == p
  {
    IntPartOfInt(p.calmDurationHours);
    IntPartOfInt(p.stormDurationHours);
  }

  /** Entries past Arity never influence the struct. */
  lemma SetIgnoresExtra(v: seq<real>, extra: seq<real>)
    requires |v| >= Arity
    ensures SetParams(v + extra) == SetParams(v)
  {
    assert forall i :: 0 <= i < Arity ==> (v + extra)[i] == v[i];
  }
}
