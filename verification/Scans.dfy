/** The two scans of lib/Support/CodeGen/Quake/QuakeOperations.cpp, as functions of the block. */
module Scans {
  import opened Gates

  /** Index of the last gate touching q, or -1 where the source returns nullptr. */
  function PrevOn(gs: seq<Gate>, q: nat): (j: int)
    ensures -1 <= j < |gs|
    ensures j >= 0 ==> gs[j].Touches(q)
    ensures forall k :: 0 <= k < |gs| && j < k ==> !gs[k].Touches(q)
  {
    if gs == [] then -1
    else if gs[|gs| - 1].Touches(q) then |gs| - 1
    else PrevOn(gs[..|gs| - 1], q)
  }

  /** Index of the first gate after index i touching q, or -1 where the source returns nullptr. */
  function NextOn(gs: seq<Gate>, i: nat, q: nat): (j: int)
    requires i < |gs|
    ensures j == -1 || i < j < |gs|
    ensures j >= 0 ==> gs[j].Touches(q)
    ensures forall k :: i < k < |gs| && (j < 0 || k < j) ==> !gs[k].Touches(q)
    decreases |gs| - i
  {
    if i + 1 == |gs| then -1
    else if gs[i + 1].Touches(q) then i + 1
    else NextOn(gs, i + 1, q)
  }

  /** What the backward scan finds is determined by being the greatest index that touches q. */
  lemma PrevOnUnique(gs: seq<Gate>, q: nat, j: nat)
    requires j < |gs| && gs[j].Touches(q)
    requires forall k :: j < k < |gs| ==> !gs[k].Touches(q)
    ensures PrevOn(gs, q) == j
  {
  }

  lemma PrevOnNone(gs: seq<Gate>, q: nat)
    requires forall k :: 0 <= k < |gs| ==> !gs[k].Touches(q)
    ensures PrevOn(gs, q) == -1
  {
  }

  /** The scans are dual: between two gates on wire q, each scan finds the other end exactly when
      the other scan does. */
  lemma ScansDual(gs: seq<Gate>, i: nat, j: nat, q: nat)
    requires i < |gs| && j < |gs| && gs[i].Touches(q) && gs[j].Touches(q)
    ensures NextOn(gs, i, q) == j <==> PrevOn(gs[..j], q) == i
  {
    if PrevOn(gs[..j], q) == i {
      forall k | i < k < j ensures !gs[k].Touches(q) {
        assert gs[..j][k] == gs[k];
      }
    }
    if NextOn(gs, i, q) == j {
      assert gs[..j][i] == gs[i];
      PrevOnUnique(gs[..j], q, i);
    }
  }
}
