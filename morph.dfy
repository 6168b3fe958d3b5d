/** Morph-target filtering and naming: a target whose offsets are all zero is
    dropped everywhere (no geometry, no target name, no weight), and the
    surviving targets keep their original index in their ids. */
module Morph {
  import opened Scene
  import opened Ids

  /** Indices of the targets that are not all-zero, in increasing order. */
  function Survivors(targets: seq<MorphTarget>): (r: seq<nat>)
    ensures |r| <= |targets|
    ensures forall i :: 0 <= i < |r| ==> r[i] < |targets|
  {
    if |targets| == 0 then []
    else
      var rest := Survivors(targets[..|targets| - 1]);
      if IsDegenerate(targets[|targets| - 1]) then rest else rest + [|targets| - 1]
  }

  /** `meshId + "_morphId" + j`: the geometry of target j, and its name in the
      morph controller's target list. */
  function MorphTargetId(meshId: string, j: nat): string
  {
    meshId + "_morphId" + NatToString(j)
  }

  function TargetIds(meshId: string, indices: seq<nat>): (r: seq<string>)
    ensures |r| == |indices|
  {
    seq(|indices|, i requires 0 <= i < |indices| => MorphTargetId(meshId, indices[i]))
  }

  /** `Enumerable.Repeat("0", n)`: the default weight of every surviving target. */
  function ZeroWeights(n: nat): (r: seq<string>)
    ensures |r| == n && forall i :: 0 <= i < n ==> r[i] == "0"
  {
    seq(n, _ => "0")
  }

  lemma SurvivorsStep(targets: seq<MorphTarget>, i: nat)
    requires i < |targets|
    ensures targets[..i + 1][..i] == targets[..i]
    ensures Survivors(targets[..i + 1]) ==
      if IsDegenerate(targets[i]) then Survivors(targets[..i]) else Survivors(targets[..i]) + [i]
  {
    assert targets[..i + 1][..i] == targets[..i];
  }

  /** The target-name list of the morph controller (`CreateMorphTargetsSourceXmlElement`). */
  method MorphTargetNames(targets: seq<MorphTarget>, meshId: string) returns (names: seq<string>)
    ensures names == TargetIds(meshId, Survivors(targets))
  {
    names := [];
    for i := 0 to |targets|
      invariant names == TargetIds(meshId, Survivors(targets[..i]))
    {
      SurvivorsStep(targets, i);
      if IsDegenerate(targets[i]) {
        continue;
      }
      var morphTargetId := "morphId" + NatToString(i);
      var name := meshId + "_" + morphTargetId;
      MorphTargetIdParts(meshId, i);
      TargetIdsAppend(meshId, Survivors(targets[..i]), i);
      names := names + [name];
    }
    assert targets[..|targets|] == targets;
  }

  lemma MorphTargetIdParts(meshId: string, j: nat)
    ensures meshId + "_" + ("morphId" + NatToString(j)) == MorphTargetId(meshId, j)
  {
    assert "_" + "morphId" == "_morphId";
  }

  lemma TargetIdsAppend(meshId: string, indices: seq<nat>, j: nat)
    ensures TargetIds(meshId, indices + [j]) == TargetIds(meshId, indices) + [MorphTargetId(meshId, j)]
  {
  }

  /** The number of weights of the morph controller (`CreateMorphWeightsSourceXmlElement`). */
  method MorphTargetCount(targets: seq<MorphTarget>) returns (count: nat)
    ensures count == |Survivors(targets)|
  {
    count := 0;
    for i := 0 to |targets|
      invariant count == |Survivors(targets[..i])|
    {
      SurvivorsStep(targets, i);
      if !IsDegenerate(targets[i]) {
        count := count + 1;
      }
    }
    assert targets[..|targets|] == targets;
  }

  // ---------------------------------------------------------------------
  // Properties.

  /** A target survives exactly when it is not all-zero. */
  lemma {:induction false} SurvivorsMembers(targets: seq<MorphTarget>)
    ensures forall j: nat :: j in Survivors(targets) <==> j < |targets| && !IsDegenerate(targets[j])
  {
    if |targets| > 0 {
      var p := targets[..|targets| - 1];
      SurvivorsMembers(p);
      forall j: nat | j < |p| ensures p[j] == targets[j] { }
    }
  }

  /** Survivors keep the original order, so the ids of later targets come later. */
  lemma {:induction false} SurvivorsIncreasing(targets: seq<MorphTarget>)
    ensures forall a, b :: 0 <= a < b < |Survivors(targets)| ==> Survivors(targets)[a] < Survivors(targets)[b]
  {
    if |targets| > 0 {
      SurvivorsIncreasing(targets[..|targets| - 1]);
    }
  }

  /** An all-zero target gets no id: its index appears in no target name. */
  lemma DegenerateTargetDropped(targets: seq<MorphTarget>, meshId: string, j: nat)
    requires j < |targets| && IsDegenerate(targets[j])
    ensures MorphTargetId(meshId, j) !in TargetIds(meshId, Survivors(targets))
  {
    SurvivorsMembers(targets);
    var ids := TargetIds(meshId, Survivors(targets));
    if MorphTargetId(meshId, j) in ids {
      var i :| 0 <= i < |ids| && ids[i] == MorphTargetId(meshId, j);
      MorphTargetIdInjective(meshId, Survivors(targets)[i], j);
    }
  }

  /** A surviving target's id embeds its original index, gaps included. */
  lemma SurvivorNamed(targets: seq<MorphTarget>, meshId: string, j: nat)
    requires j < |targets| && !IsDegenerate(targets[j])
    ensures MorphTargetId(meshId, j) in TargetIds(meshId, Survivors(targets))
  {
    SurvivorsMembers(targets);
    var s := Survivors(targets);
    var i :| 0 <= i < |s| && s[i] == j;
    assert TargetIds(meshId, s)[i] == MorphTargetId(meshId, j);
  }

  lemma MorphTargetIdInjective(meshId: string, a: nat, b: nat)
    requires MorphTargetId(meshId, a) == MorphTargetId(meshId, b)
    ensures a == b
  {
    var x, y := MorphTargetId(meshId, a), MorphTargetId(meshId, b);
    var p := meshId + "_morphId";
    assert x[|p|..] == NatToString(a) && y[|p|..] == NatToString(b);
    NatToStringInjective(a, b);
  }

  /** No two target names of one controller coincide. */
  lemma TargetIdsDistinct(targets: seq<MorphTarget>, meshId: string, a: nat, b: nat)
    requires a < b < |Survivors(targets)|
    ensures TargetIds(meshId, Survivors(targets))[a] != TargetIds(meshId, Survivors(targets))[b]
  {
    SurvivorsIncreasing(targets);
    var s := Survivors(targets);
    if TargetIds(meshId, s)[a] == TargetIds(meshId, s)[b] {
      MorphTargetIdInjective(meshId, s[a], s[b]);
    }
  }
}
