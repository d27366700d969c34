/** What the cast pass makes of each node, in plain terms. */
module RetypeTables {
  import opened OnnxGraph
  import opened RetypeCasts
  import opened RetypeMeaning

  /** An op the converter made F16. */
  predicate InF16(b: Blocked, n: Node) { n.op != "Cast" && n.op !in b }

  /** Some node in F16, or some that is not, reads x. */
  ghost predicate Read(b: Blocked, given: seq<Node>, x: Name, inF16: bool) {
    exists i :: 0 <= i < |given| && x in given[i].inputs && (InF16(b, given[i]) <==> inF16)
  }

  /** A Cast to FLOAT (1) that nodes in F16 read; nothing else does, nor is it
      a graph output. */
  ghost predicate OnlyF16Reads(b: Blocked, given: seq<Node>, outputs: seq<Name>, n: Node) {
    && n.op == "Cast" && n.to == Some(1) && |n.outputs| == 1
    && Read(b, given, n.outputs[0], true) && !Read(b, given, n.outputs[0], false) && n.outputs[0] !in outputs
  }

  /** One that nodes in F16 read and something else needs as it is. */
  ghost predicate BothRead(b: Blocked, given: seq<Node>, outputs: seq<Name>, n: Node) {
    && n.op == "Cast" && n.to == Some(1) && |n.outputs| == 1
    && Read(b, given, n.outputs[0], true) && (Read(b, given, n.outputs[0], false) || n.outputs[0] in outputs)
  }

  lemma KindIs(b: Blocked, given: seq<Node>, outputs: seq<Name>, j: nat)
    requires j < |given| && AllCastShaped(given)
    ensures IsRetype(b, given, outputs, j) <==> OnlyF16Reads(b, given, outputs, given[j])
    ensures IsSplit(b, given, outputs, j) <==> BothRead(b, given, outputs, given[j])
  {
    var n := given[j];
    if n.op == "Cast" {
      var x := n.outputs[0];
      assert forall i :: 0 <= i < |given| ==> (Converted(b, given[i]) <==> InF16(b, given[i]));
      assert FeedsConverted(b, given, x) <==> Read(b, given, x, true);
      assert FeedsOnlyConverted(b, given, x) <==> !Read(b, given, x, false);
    }
  }

  /** Where node k is after the pass: past each node before it, and the Cast
      added after it if one was. */
  ghost function Spot(b: Blocked, given: seq<Node>, outputs: seq<Name>, k: nat): nat
    requires k <= |given|
  {
    if k == 0 then 0
    else Spot(b, given, outputs, k - 1) + (if BothRead(b, given, outputs, given[k - 1]) then 2 else 1)
  }

  lemma {:induction false} SpotIsPlace(b: Blocked, given: seq<Node>, outputs: seq<Name>, k: nat)
    requires k <= |given| && AllCastShaped(given)
    ensures |Flat(b, given, outputs, k)| == Spot(b, given, outputs, k)
  {
    hide BothRead, IsSplit, Final, TwinCast;
    if k > 0 {
      SpotIsPlace(b, given, outputs, k - 1);
      KindIs(b, given, outputs, k - 1);
    }
  }

  /** x is what a node in F16 reads in place of a Cast that something else
      needs: its FLOAT16 Cast. */
  ghost predicate HasF16Cast(b: Blocked, given: seq<Node>, outputs: seq<Name>, x: Name) {
    exists j :: 0 <= j < |given| && BothRead(b, given, outputs, given[j]) && given[j].outputs[0] == x
  }

  lemma HasF16CastIs(b: Blocked, given: seq<Node>, outputs: seq<Name>, x: Name)
    requires AllCastShaped(given)
    ensures SplitName(b, given, outputs, |given|, x) <==> HasF16Cast(b, given, outputs, x)
  {
    hide BothRead, IsSplit;
    forall j | 0 <= j < |given|
      ensures IsSplit(b, given, outputs, j) <==> BothRead(b, given, outputs, given[j])
    {
      KindIs(b, given, outputs, j);
    }
  }

  /** Node k after the pass. Its type: FLOAT16 (10) for a Cast that F16 alone
      reads. What it reads: a FLOAT16 Cast in place of its FLOAT one, for a
      node in F16. After it: the FLOAT16 Cast of one that both read. */
  lemma TheResultSpeltOut(b: Blocked, given: seq<Node>, outputs: seq<Name>, names: set<Name>, k: nat)
    requires Proper(given, names) && NoCollision(b, given, outputs, names) && k < |given|
    ensures var r, at, n := Retyped(b, given, outputs), Spot(b, given, outputs, k), given[k];
      && |r| == Spot(b, given, outputs, |given|)
      && at < |r| && |r[at].inputs| == |n.inputs|
      && r[at].(to := n.to, inputs := n.inputs) == n
      && r[at].to == (if OnlyF16Reads(b, given, outputs, n) then Some(10) else n.to)
      && (forall m :: 0 <= m < |n.inputs| ==>
            r[at].inputs[m] ==
            if InF16(b, n) && HasF16Cast(b, given, outputs, n.inputs[m]) then n.inputs[m] + "_as_float16"
            else n.inputs[m])
      && (BothRead(b, given, outputs, n) ==>
            && at + 1 < |r| && |n.outputs| == 1
            && r[at + 1] == Node("Cast", Some(10), 0, n.inputs, [n.outputs[0] + "_as_float16"]))
  {
    hide Unique, Ordered, NoCollision, Retyped, Flat, IsRetype, IsSplit, SplitName;
    hide BothRead, OnlyF16Reads, Spot, HasF16Cast;
    RetypedIsFlat(b, given, outputs, names);
    SpotIsPlace(b, given, outputs, k);
    SpotIsPlace(b, given, outputs, |given|);
    KindIs(b, given, outputs, k);
    FlatPrefix(b, given, outputs, |given|, k);
    forall m | 0 <= m < |given[k].inputs|
      ensures SplitName(b, given, outputs, |given|, given[k].inputs[m])
         <==> HasF16Cast(b, given, outputs, given[k].inputs[m])
    {
      HasF16CastIs(b, given, outputs, given[k].inputs[m]);
    }
    if IsSplit(b, given, outputs, k) {
      TwinFollows(b, given, outputs, |given|, k);
    }
  }

  lemma {:induction false} TwinFollows(b: Blocked, given: seq<Node>, outputs: seq<Name>, i: nat, k: nat)
    requires k < i <= |given| && AllCastShaped(given) && IsSplit(b, given, outputs, k)
    ensures var r, at := Flat(b, given, outputs, i), Place(b, given, outputs, k);
      at + 1 < |r| && r[at + 1] == TwinCast(given[k])
  {
    hide IsSplit, IsRetype, Final, TwinCast;
    if k < i - 1 {
      TwinFollows(b, given, outputs, i - 1, k);
    }
  }

  /** The tensors whose recorded type becomes FLOAT16, and the count. */
  lemma WhatIsRecorded(b: Blocked, given: seq<Node>, outputs: seq<Name>, names: set<Name>, x: Name)
    requires Proper(given, names) && NoCollision(b, given, outputs, names)
    ensures var w := Looked(b, given, outputs, |given|);
      && (x in w.retyped <==>
            exists j :: 0 <= j < |given| && OnlyF16Reads(b, given, outputs, given[j]) && given[j].outputs[0] == x)
      && w.changed == |w.retyped| + (Spot(b, given, outputs, |given|) - |given|)
  {
    hide Unique, Ordered, NoCollision, OnlyF16Reads, IsRetype, IsSplit, Looked, Spot;
    CountIsRetypedAndAdded(b, given, outputs, names, |given|);
    LookedIs(b, given, outputs, names, |given|);
    AddedAreTwins(b, given, outputs, |given|);
    SpotsAndTwins(b, given, outputs, |given|);
    forall j | 0 <= j < |given|
      ensures IsRetype(b, given, outputs, j) <==> OnlyF16Reads(b, given, outputs, given[j])
    {
      KindIs(b, given, outputs, j);
    }
  }

  lemma {:induction false} SpotsAndTwins(b: Blocked, given: seq<Node>, outputs: seq<Name>, i: nat)
    requires i <= |given| && AllCastShaped(given)
    ensures Spot(b, given, outputs, i) == i + |Twins(b, given, outputs, i)|
  {
    hide BothRead, IsSplit, TwinCast;
    if i > 0 {
      SpotsAndTwins(b, given, outputs, i - 1);
      KindIs(b, given, outputs, i - 1);
    }
  }
}
