/** What the cast pass keeps: values, types, order and names. */
module RetypeMeaning {
  import opened OnnxGraph
  import opened RetypeCasts

  predicate IsFloatCast(n: Node) {
    n.op == "Cast" && n.to == Some(FLOAT) && |n.inputs| == |n.outputs| == 1
  }

  lemma MakesOne(n: Node)
    requires IsFloatCast(n) && n.outputs[0] != ""
    ensures Makes(n, n.outputs[0])
  {
  }

  predicate IsRetype(b: Blocked, given: seq<Node>, outputs: seq<Name>, j: nat)
    requires j < |given| && AllCastShaped(given)
    ensures IsRetype(b, given, outputs, j) ==> IsFloatCast(given[j])
  {
    KindOf(b, given, outputs, given[j]) == Retype
  }

  predicate IsSplit(b: Blocked, given: seq<Node>, outputs: seq<Name>, j: nat)
    requires j < |given| && AllCastShaped(given)
    ensures IsSplit(b, given, outputs, j) ==> IsFloatCast(given[j]) && !IsRetype(b, given, outputs, j)
  {
    KindOf(b, given, outputs, given[j]) == Split
  }

  /** x is made by a cast among the first i that is split. */
  predicate SplitName(b: Blocked, given: seq<Node>, outputs: seq<Name>, i: nat, x: Name)
    requires i <= |given| && AllCastShaped(given)
  {
    exists j :: 0 <= j < i && IsSplit(b, given, outputs, j) && given[j].outputs[0] == x
  }

  /** No added name is one the graph already has. */
  ghost predicate NoCollision(b: Blocked, given: seq<Node>, outputs: seq<Name>, names: set<Name>)
    requires AllCastShaped(given)
  {
    forall j :: 0 <= j < |given| && IsSplit(b, given, outputs, j) ==>
      Twin(given[j].outputs[0]) !in names && !Made(given, Twin(given[j].outputs[0]))
  }

  /** A graph the pass may be given. */
  ghost predicate Proper(given: seq<Node>, names: set<Name>) {
    AllCastShaped(given) && Unique(given, names) && Ordered(given, names) && CastsNamed(given)
  }

  ghost predicate CastsNamed(given: seq<Node>)
    requires AllCastShaped(given)
  {
    forall i :: 0 <= i < |given| && given[i].op == "Cast" ==> given[i].outputs[0] != ""
  }

  /** Node k after the first i have been looked at. */
  function Final(b: Blocked, given: seq<Node>, outputs: seq<Name>, i: nat, k: nat): (n: Node)
    requires i <= |given| && k < |given| && AllCastShaped(given)
  {
    given[k].(to := if k < i && IsRetype(b, given, outputs, k) then Some(FLOAT16) else given[k].to,
              inputs := seq(|given[k].inputs|, m requires 0 <= m < |given[k].inputs| =>
                if Converted(b, given[k]) && SplitName(b, given, outputs, i, given[k].inputs[m])
                then Twin(given[k].inputs[m])
                else given[k].inputs[m]))
  }

  function Finals(b: Blocked, given: seq<Node>, outputs: seq<Name>, i: nat): (r: seq<Node>)
    requires i <= |given| && AllCastShaped(given)
    ensures |r| == |given|
  {
    seq(|given|, k requires 0 <= k < |given| => Final(b, given, outputs, i, k))
  }

  /** The twins of the first i nodes. */
  function Twins(b: Blocked, given: seq<Node>, outputs: seq<Name>, i: nat): seq<(Name, Node)>
    requires i <= |given| && AllCastShaped(given)
  {
    if i == 0 then []
    else Twins(b, given, outputs, i - 1)
         + (if IsSplit(b, given, outputs, i - 1) then [(given[i - 1].outputs[0], TwinCast(given[i - 1]))] else [])
  }

  /** The first i nodes, each with its twin after it. */
  function Flat(b: Blocked, given: seq<Node>, outputs: seq<Name>, i: nat): (r: seq<Node>)
    requires i <= |given| && AllCastShaped(given)
  {
    if i == 0 then []
    else Flat(b, given, outputs, i - 1) + [Final(b, given, outputs, |given|, i - 1)]
         + (if IsSplit(b, given, outputs, i - 1) then [TwinCast(given[i - 1])] else [])
  }

  // ---- The pass puts each twin after its cast ----

  lemma SplitGrows(b: Blocked, given: seq<Node>, outputs: seq<Name>, i: nat, x: Name)
    requires 0 < i <= |given| && AllCastShaped(given)
    ensures SplitName(b, given, outputs, i, x) <==>
            SplitName(b, given, outputs, i - 1, x)
            || (IsSplit(b, given, outputs, i - 1) && given[i - 1].outputs[0] == x)
  {
  }

  /** Moving one more tensor's reads. */
  lemma FinalMoves(b: Blocked, given: seq<Node>, outputs: seq<Name>, names: set<Name>, i: nat, k: nat)
    requires Proper(given, names) && NoCollision(b, given, outputs, names)
    requires 0 < i <= |given| && k < |given| && IsSplit(b, given, outputs, i - 1)
    ensures Moved(b, given, Finals(b, given, outputs, i - 1), given[i - 1].outputs[0])[k] ==
      Final(b, given, outputs, i, k)
  {
    hide KindOf, Twin, Unique, Ordered, Makes, IsRetype;
    var out := given[i - 1].outputs[0];
    var n, n' := Final(b, given, outputs, i - 1, k), Final(b, given, outputs, i, k);
    MakesOne(given[i - 1]);
    forall m | 0 <= m < |given[k].inputs|
      ensures n'.inputs[m] ==
        if Converted(b, given[k]) && n.inputs[m] == out && out in given[k].inputs then Twin(out) else n.inputs[m]
    {
      var x := given[k].inputs[m];
      SplitGrows(b, given, outputs, i, x);
      if Converted(b, given[k]) && SplitName(b, given, outputs, i - 1, x) {
        var j :| 0 <= j < i - 1 && IsSplit(b, given, outputs, j) && given[j].outputs[0] == x;
        assert n.inputs[m] == Twin(x) && !Made(given, Twin(x));
      }
    }
    assert Renamed(n, out).inputs == n'.inputs || !Converted(b, given[k]) || out !in given[k].inputs;
    assert n'.inputs == n.inputs || (Converted(b, given[k]) && out in given[k].inputs);
  }

  lemma LookedStep(b: Blocked, given: seq<Node>, outputs: seq<Name>, i: nat)
    requires 0 < i <= |given| && AllCastShaped(given)
    ensures var w, v, n := Looked(b, given, outputs, i), Looked(b, given, outputs, i - 1), given[i - 1];
      if IsSplit(b, given, outputs, i - 1) then
        w == v.(nodes := Moved(b, given, v.nodes, n.outputs[0]), added := v.added + [(n.outputs[0], TwinCast(n))],
                changed := v.changed + 1)
      else if IsRetype(b, given, outputs, i - 1) then
        w == v.(nodes := v.nodes[i - 1 := v.nodes[i - 1].(to := Some(FLOAT16))], retyped := v.retyped + {n.outputs[0]},
                changed := v.changed + 1)
      else w == v
  {
  }

  lemma {:induction false} LookedIs(b: Blocked, given: seq<Node>, outputs: seq<Name>, names: set<Name>, i: nat)
    requires Proper(given, names) && NoCollision(b, given, outputs, names) && i <= |given|
    ensures Looked(b, given, outputs, i).nodes == Finals(b, given, outputs, i)
    ensures Looked(b, given, outputs, i).added == Twins(b, given, outputs, i)
  {
    hide Unique, Ordered, NoCollision, Made, Moved, Looked, IsSplit, IsRetype, Final, TwinCast;
    if i == 0 {
      LookedNone(b, given, outputs);
      NoSplitYet(b, given, outputs);
    } else {
      LookedIs(b, given, outputs, names, i - 1);
      LookedStep(b, given, outputs, i);
      var w := Looked(b, given, outputs, i);
      forall k | 0 <= k < |given|
        ensures w.nodes[k] == Final(b, given, outputs, i, k)
      {
        if IsSplit(b, given, outputs, i - 1) {
          FinalMoves(b, given, outputs, names, i, k);
        } else {
          FinalStays(b, given, outputs, i, k);
        }
      }
      assert w.nodes == Finals(b, given, outputs, i);
    }
  }

  lemma NoSplitYet(b: Blocked, given: seq<Node>, outputs: seq<Name>)
    requires AllCastShaped(given)
    ensures Finals(b, given, outputs, 0) == given
  {
    forall k | 0 <= k < |given|
      ensures Final(b, given, outputs, 0, k) == given[k]
    {
      assert Final(b, given, outputs, 0, k).inputs == given[k].inputs;
    }
  }

  lemma FinalStays(b: Blocked, given: seq<Node>, outputs: seq<Name>, i: nat, k: nat)
    requires 0 < i <= |given| && k < |given| && AllCastShaped(given) && !IsSplit(b, given, outputs, i - 1)
    ensures Final(b, given, outputs, i, k) ==
            if k == i - 1 && IsRetype(b, given, outputs, k)
            then Final(b, given, outputs, i - 1, k).(to := Some(FLOAT16))
            else Final(b, given, outputs, i - 1, k)
  {
    hide IsSplit, IsRetype;
    forall x: Name
      ensures SplitName(b, given, outputs, i, x) == SplitName(b, given, outputs, i - 1, x)
    {
      SplitGrows(b, given, outputs, i, x);
    }
    assert Final(b, given, outputs, i, k).inputs == Final(b, given, outputs, i - 1, k).inputs;
  }

  lemma FlatMakes(b: Blocked, given: seq<Node>, outputs: seq<Name>, i: nat, x: Name)
    requires i <= |given| && AllCastShaped(given)
    ensures Made(Flat(b, given, outputs, i), x) <==> Made(given[..i], x) || IsTwin(b, given, outputs, i, x)
  {
    hide IsSplit, IsRetype, TwinCast;
    if i > 0 {
      FlatMakes(b, given, outputs, i - 1, x);
      var a, n := Flat(b, given, outputs, i - 1), Final(b, given, outputs, |given|, i - 1);
      MadeWith(a, n, x);
      MadeWith(given[..i - 1], given[i - 1], x);
      assert given[..i] == given[..i - 1] + [given[i - 1]];
      if IsSplit(b, given, outputs, i - 1) {
        MadeWith(a + [n], TwinCast(given[i - 1]), x);
        TwinMakes(given[i - 1], x);
      } else {
        assert a + [n] + [] == a + [n];
      }
    }
  }

  lemma TwinMakes(n: Node, x: Name)
    requires CastShaped(n) && n.op == "Cast"
    ensures Makes(TwinCast(n), x) <==> x == Twin(n.outputs[0])
  {
  }

  /** x is the twin of a split cast among the first i. */
  ghost predicate IsTwin(b: Blocked, given: seq<Node>, outputs: seq<Name>, i: nat, x: Name)
    requires i <= |given| && AllCastShaped(given)
  {
    exists j :: 0 <= j < i && IsSplit(b, given, outputs, j) && x == Twin(given[j].outputs[0])
  }

  lemma MadeWith(a: seq<Node>, n: Node, x: Name)
    ensures Made(a + [n], x) <==> Made(a, x) || Makes(n, x)
  {
    if Made(a, x) {
      var i :| 0 <= i < |a| && Makes(a[i], x);
      assert (a + [n])[i] == a[i];
    }
    assert (a + [n])[|a|] == n;
  }

  lemma InsertOne(nodes: seq<Node>, added: seq<(Name, Node)>, last: (Name, Node), a: seq<Node>, rest: seq<Node>)
    requires Inserted(nodes, added) == a + rest && rest != [] && FirstMaker(a + rest, last.0) == |a|
    ensures Inserted(nodes, added + [last]) == a + [rest[0]] + [last.1] + rest[1..]
  {
    hide FirstMaker;
    assert (added + [last])[..|added|] == added;
    assert (a + rest)[..|a| + 1] == a + [rest[0]] && (a + rest)[|a| + 1..] == rest[1..];
  }

  lemma {:induction false} InsertedIs(b: Blocked, given: seq<Node>, outputs: seq<Name>, names: set<Name>, i: nat)
    requires Proper(given, names) && NoCollision(b, given, outputs, names) && i <= |given|
    ensures Inserted(Finals(b, given, outputs, |given|), Twins(b, given, outputs, i)) ==
            Flat(b, given, outputs, i) + Finals(b, given, outputs, |given|)[i..]
  {
    hide IsSplit, IsRetype, Unique, Ordered, NoCollision, Final, TwinCast, FirstMaker, Finals, Inserted;
    var fin, a := Finals(b, given, outputs, |given|), Flat(b, given, outputs, i);
    if i == 0 {
      assert a + fin[0..] == fin;
      InsertedNone(fin);
    } else {
      var a' := Flat(b, given, outputs, i - 1);
      InsertedIs(b, given, outputs, names, i - 1);
      FinalAt(b, given, outputs, i - 1);
      assert fin[i - 1..] == [fin[i - 1]] + fin[i..] && fin[i - 1..][1..] == fin[i..];
      if IsSplit(b, given, outputs, i - 1) {
        MakerInPlace(b, given, outputs, names, i);
        InsertOne(fin, Twins(b, given, outputs, i - 1), (given[i - 1].outputs[0], TwinCast(given[i - 1])), a',
          fin[i - 1..]);
      } else {
        assert a == a' + [fin[i - 1]];
        assert Twins(b, given, outputs, i) == Twins(b, given, outputs, i - 1);
        assert a' + fin[i - 1..] == a + fin[i..];
      }
    }
  }

  lemma InsertedNone(nodes: seq<Node>)
    ensures Inserted(nodes, []) == nodes
  {
  }

  lemma FinalAt(b: Blocked, given: seq<Node>, outputs: seq<Name>, k: nat)
    requires k < |given| && AllCastShaped(given)
    ensures Finals(b, given, outputs, |given|)[k] == Final(b, given, outputs, |given|, k)
  {
  }

  /** The first node that makes a cast's tensor is the cast. */
  lemma MakerInPlace(b: Blocked, given: seq<Node>, outputs: seq<Name>, names: set<Name>, i: nat)
    requires Proper(given, names) && NoCollision(b, given, outputs, names)
    requires 0 < i <= |given| && IsSplit(b, given, outputs, i - 1)
    ensures var a := Flat(b, given, outputs, i - 1);
      FirstMaker(a + Finals(b, given, outputs, |given|)[i - 1..], given[i - 1].outputs[0]) == |a|
  {
    hide Final, FirstMaker, IsSplit, Ordered, Unique, Flat, NoCollision;
    var a, rest, x := Flat(b, given, outputs, i - 1), Finals(b, given, outputs, |given|)[i - 1..],
      given[i - 1].outputs[0];
    NotMadeBefore(b, given, outputs, names, i);
    FinalMakes(b, given, outputs, i - 1);
    assert rest[0] == Final(b, given, outputs, |given|, i - 1);
    MakerAfter(a, rest, x);
  }

  lemma FinalMakes(b: Blocked, given: seq<Node>, outputs: seq<Name>, k: nat)
    requires k < |given| && AllCastShaped(given)
    ensures Final(b, given, outputs, |given|, k).outputs == given[k].outputs
    ensures Final(b, given, outputs, |given|, k).op == given[k].op
  {
  }

  lemma NotMadeBefore(b: Blocked, given: seq<Node>, outputs: seq<Name>, names: set<Name>, i: nat)
    requires Proper(given, names) && NoCollision(b, given, outputs, names)
    requires 0 < i <= |given| && IsSplit(b, given, outputs, i - 1)
    ensures !Made(Flat(b, given, outputs, i - 1), given[i - 1].outputs[0])
  {
    hide IsSplit, Ordered, Flat;
    var x := given[i - 1].outputs[0];
    FlatMakes(b, given, outputs, i - 1, x);
    MakesOne(given[i - 1]);
    if Made(given[..i - 1], x) {
      MadeTwice(given, names, i, x);
    }
  }

  lemma MadeTwice(given: seq<Node>, names: set<Name>, i: nat, x: Name)
    requires Unique(given, names) && 0 < i <= |given| && Makes(given[i - 1], x)
    ensures !Made(given[..i - 1], x)
  {
    var before := given[..i - 1];
    forall j | 0 <= j < |before|
      ensures !Makes(before[j], x)
    {
      assert before[j] == given[j];
    }
  }

  lemma {:induction false} MakerAfter(a: seq<Node>, rest: seq<Node>, x: Name)
    requires !Made(a, x) && rest != [] && Makes(rest[0], x)
    ensures FirstMaker(a + rest, x) == |a|
  {
    if a == [] {
      assert a + rest == rest;
    } else {
      assert !Makes(a[0], x);
      assert (a + rest)[1..] == a[1..] + rest;
      if Made(a[1..], x) {
        MadeInTail(a, x);
      }
      MakerAfter(a[1..], rest, x);
    }
  }

  lemma MadeInTail(a: seq<Node>, x: Name)
    requires a != [] && Made(a[1..], x)
    ensures Made(a, x)
  {
    var i :| 0 <= i < |a[1..]| && Makes(a[1..][i], x);
    assert Makes(a[i + 1], x);
  }

  /** The pass leaves the nodes in their places, each twin after its cast. */
  lemma RetypedIsFlat(b: Blocked, given: seq<Node>, outputs: seq<Name>, names: set<Name>)
    requires Proper(given, names) && NoCollision(b, given, outputs, names)
    ensures Retyped(b, given, outputs) == Flat(b, given, outputs, |given|)
  {
    LookedIs(b, given, outputs, names, |given|);
    InsertedIs(b, given, outputs, names, |given|);
  }

  // ---- Values ----

  /** A cast to FLOAT16 reads as a cast to FLOAT: the only change is the type. */
  ghost predicate CastsAlike<V(!new)>(f: Ops<V>) {
    forall a, a', ins: seq<Option<V>>, k :: f("Cast", Some(FLOAT), a, ins, k) == f("Cast", Some(FLOAT16), a', ins, k)
  }

  /** e' has what e has, and each twin so far has what its cast made. */
  ghost predicate Mirrors<V>(b: Blocked, given: seq<Node>, outputs: seq<Name>, i: nat, e: Env<V>, e': Env<V>)
    requires i <= |given| && AllCastShaped(given)
  {
    && (forall x :: !IsTwin(b, given, outputs, |given|, x) ==> Lookup(e', x) == Lookup(e, x))
    && (forall j :: 0 <= j < i && IsSplit(b, given, outputs, j) ==>
          Lookup(e', Twin(given[j].outputs[0])) == Lookup(e, given[j].outputs[0]))
  }

  lemma TwinIsNew(b: Blocked, given: seq<Node>, outputs: seq<Name>, names: set<Name>, x: Name)
    requires Proper(given, names) && NoCollision(b, given, outputs, names) && IsTwin(b, given, outputs, |given|, x)
    ensures x !in names && !Made(given, x) && x != ""
  {
    hide IsSplit, Ordered, Unique;
  }

  /** What node i reads after the pass is what it read. */
  lemma ReadsMirror<V>(b: Blocked, given: seq<Node>, outputs: seq<Name>, names: set<Name>, i: nat, e: Env<V>,
                       e': Env<V>)
    requires Proper(given, names) && NoCollision(b, given, outputs, names) && i < |given|
    requires Mirrors(b, given, outputs, i, e, e')
    ensures Gather(e', Final(b, given, outputs, |given|, i).inputs) == Gather(e, given[i].inputs)
  {
    hide IsSplit, IsRetype, Unique, NoCollision, IsTwin, Twin;
    var n := Final(b, given, outputs, |given|, i);
    forall m | 0 <= m < |n.inputs|
      ensures Lookup(e', n.inputs[m]) == Lookup(e, given[i].inputs[m])
    {
      var x := given[i].inputs[m];
      assert x in given[i].inputs;
      if Converted(b, given[i]) && SplitName(b, given, outputs, |given|, x) {
        var j :| 0 <= j < |given| && IsSplit(b, given, outputs, j) && given[j].outputs[0] == x;
        MadeEarlier(given, names, i, j);
      } else if IsTwin(b, given, outputs, |given|, x) {
        TwinIsNew(b, given, outputs, names, x);
        ReadIsKnown(given, names, i, x);
      }
    }
  }

  lemma ReadIsKnown(given: seq<Node>, names: set<Name>, i: nat, x: Name)
    requires Ordered(given, names) && i < |given| && x in given[i].inputs
    ensures x == "" || x in names || Made(given, x)
  {
    if x != "" && x !in names {
      var before := given[..i];
      var j :| 0 <= j < |before| && Makes(before[j], x);
      assert Makes(given[j], x);
    }
  }

  /** A cast's tensor is read after the cast. */
  lemma MadeEarlier(given: seq<Node>, names: set<Name>, i: nat, j: nat)
    requires Proper(given, names) && i < |given| && j < |given| && IsFloatCast(given[j])
      && given[j].outputs[0] in given[i].inputs
    ensures j < i
  {
    var x, before := given[j].outputs[0], given[..i];
    MakesOne(given[j]);
    assert x !in names && x != "";
    var k :| 0 <= k < |before| && Makes(before[k], x);
    assert Makes(given[k], x);
  }

  lemma FinalComputes<V(!new)>(f: Ops<V>, b: Blocked, given: seq<Node>, outputs: seq<Name>, i: nat,
                               ins: seq<Option<V>>, k: nat)
    requires i < |given| && AllCastShaped(given) && CastsAlike(f)
    ensures Apply(f, Final(b, given, outputs, |given|, i), ins, k) == Apply(f, given[i], ins, k)
  {
    hide IsRetype, IsSplit;
  }

  /** One node run on each side. */
  lemma NodeMirrors<V(!new)>(f: Ops<V>, b: Blocked, given: seq<Node>, outputs: seq<Name>, names: set<Name>, i: nat,
                       e: Env<V>, e': Env<V>)
    requires Proper(given, names) && NoCollision(b, given, outputs, names) && i < |given| && CastsAlike(f)
    requires Mirrors(b, given, outputs, i, e, e')
    ensures Mirrors(b, given, outputs, i, Step(f, given[i], e), Step(f, Final(b, given, outputs, |given|, i), e'))
  {
    hide IsSplit, IsRetype, Ordered, Twin, Gather, Step, Final, Apply, Lookup, CastsAlike;
    var n := Final(b, given, outputs, |given|, i);
    FinalMakes(b, given, outputs, i);
    ReadsMirror(b, given, outputs, names, i, e, e');
    forall k | 0 <= k < |given[i].outputs|
      ensures Apply(f, given[i], Gather(e, given[i].inputs), k) == Apply(f, n, Gather(e', n.inputs), k)
    {
      FinalComputes(f, b, given, outputs, i, Gather(e, given[i].inputs), k);
    }
    forall x | !IsTwin(b, given, outputs, |given|, x)
      ensures Lookup(Step(f, n, e'), x) == Lookup(Step(f, given[i], e), x)
    {
      StepAgrees(f, given[i], n, e, e', x);
    }
    forall j | 0 <= j < i && IsSplit(b, given, outputs, j)
      ensures Lookup(Step(f, n, e'), Twin(given[j].outputs[0])) == Lookup(Step(f, given[i], e), given[j].outputs[0])
    {
      var x := given[j].outputs[0];
      MakesOne(given[j]);
      assert !Makes(given[i], x);
      assert !Makes(given[i], Twin(x));
      StepKeeps(f, given[i], e, x);
      StepKeeps(f, n, e', Twin(x));
    }
  }

  /** The twin of a split cast, run after it. */
  lemma TwinMirrors<V(!new)>(f: Ops<V>, b: Blocked, given: seq<Node>, outputs: seq<Name>, names: set<Name>, i: nat,
                       was: Env<V>, e: Env<V>, e': Env<V>)
    requires Proper(given, names) && NoCollision(b, given, outputs, names) && i < |given| && CastsAlike(f)
    requires IsSplit(b, given, outputs, i) && e == Step(f, given[i], was) && Mirrors(b, given, outputs, i, e, e')
    ensures Mirrors(b, given, outputs, i + 1, e, Step(f, TwinCast(given[i]), e'))
  {
    hide IsSplit, IsRetype, Twin, Step, Lookup, Unique, Ordered, NoCollision;
    var t, out, x := TwinCast(given[i]), given[i].outputs[0], given[i].inputs[0];
    var r := Step(f, t, e');
    CastReads(f, b, given, outputs, names, i, was, e');
    TwinIsInjective(out, out);
    CastMakes(f, given[i], was);
    CastMakes(f, t, e');
    forall y | !IsTwin(b, given, outputs, |given|, y)
      ensures Lookup(r, y) == Lookup(e, y)
    {
      StepKeeps(f, t, e', y);
    }
    forall j | 0 <= j < i + 1 && IsSplit(b, given, outputs, j)
      ensures Lookup(r, Twin(given[j].outputs[0])) == Lookup(e, given[j].outputs[0])
    {
      if j < i {
        TwinsApart(given, names, j, i);
        StepKeeps(f, t, e', Twin(given[j].outputs[0]));
      } else {
        assert f("Cast", Some(FLOAT), given[i].attr, Gather(was, given[i].inputs), 0) ==
               f("Cast", Some(FLOAT16), t.attr, Gather(e', t.inputs), 0);
      }
    }
  }

  lemma TwinsApart(given: seq<Node>, names: set<Name>, j: nat, i: nat)
    requires Unique(given, names) && AllCastShaped(given) && CastsNamed(given)
    requires j < i < |given| && IsFloatCast(given[i]) && IsFloatCast(given[j])
    ensures Twin(given[j].outputs[0]) != Twin(given[i].outputs[0])
  {
    var x, y := given[j].outputs[0], given[i].outputs[0];
    MakesOne(given[j]);
    MakesOne(given[i]);
    TwinIsInjective(x, y);
  }

  lemma TwinIsInjective(x: Name, y: Name)
    ensures Twin(x) == Twin(y) ==> x == y
    ensures Twin(x) != ""
  {
    var n := |"_as_float16"|;
    assert Twin(x)[..|Twin(x)| - n] == x && Twin(y)[..|Twin(y)| - n] == y;
  }

  /** A cast's input stands when the cast has run. */
  lemma CastReads<V>(f: Ops<V>, b: Blocked, given: seq<Node>, outputs: seq<Name>, names: set<Name>, i: nat,
                     was: Env<V>, e': Env<V>)
    requires Proper(given, names) && NoCollision(b, given, outputs, names) && i < |given| && IsFloatCast(given[i])
    requires Mirrors(b, given, outputs, i, Step(f, given[i], was), e')
    ensures Gather(e', given[i].inputs) == Gather(was, given[i].inputs)
  {
    hide IsSplit, IsRetype, Twin, Step, Unique, NoCollision;
    var x := given[i].inputs[0];
    assert x in given[i].inputs;
    ReadIsKnown(given, names, i, x);
    if IsTwin(b, given, outputs, |given|, x) {
      TwinIsNew(b, given, outputs, names, x);
    }
    if x != "" {
      NotMadeLater(given, names, i, x);
      assert !Makes(given[i..][0], x);
      StepKeeps(f, given[i], was, x);
    }
  }

  lemma CastMakes<V>(f: Ops<V>, n: Node, env: Env<V>)
    requires n.op == "Cast" && |n.outputs| == 1 && n.outputs[0] != ""
    ensures Lookup(Step(f, n, env), n.outputs[0]) == Some(f("Cast", n.to, n.attr, Gather(env, n.inputs), 0))
  {
  }

  lemma {:induction false} FlatMirrors<V(!new)>(f: Ops<V>, b: Blocked, given: seq<Node>, outputs: seq<Name>,
                                                names: set<Name>, i: nat, env: Env<V>)
    requires Proper(given, names) && NoCollision(b, given, outputs, names) && i <= |given| && CastsAlike(f)
    ensures Mirrors(b, given, outputs, i, Eval(f, given[..i], env), Eval(f, Flat(b, given, outputs, i), env))
  {
    hide IsSplit, IsRetype, Unique, Ordered, NoCollision, Mirrors, Final, TwinCast, Step, CastsAlike;
    if i == 0 {
      NothingMirrors(b, given, outputs, env);
    } else {
      FlatMirrors(f, b, given, outputs, names, i - 1, env);
      assert given[..i][..i - 1] == given[..i - 1];
      var e, e' := Eval(f, given[..i - 1], env), Eval(f, Flat(b, given, outputs, i - 1), env);
      var n, a := Final(b, given, outputs, |given|, i - 1), Flat(b, given, outputs, i - 1);
      NodeMirrors(f, b, given, outputs, names, i - 1, e, e');
      EvalOne(f, a, n, env);
      if IsSplit(b, given, outputs, i - 1) {
        TwinMirrors(f, b, given, outputs, names, i - 1, e, Step(f, given[i - 1], e), Step(f, n, e'));
        EvalOne(f, a + [n], TwinCast(given[i - 1]), env);
      } else {
        NoTwinMirrors(b, given, outputs, i - 1, Step(f, given[i - 1], e), Step(f, n, e'));
        assert a + [n] + [] == a + [n];
      }
    }
  }

  lemma NothingMirrors<V>(b: Blocked, given: seq<Node>, outputs: seq<Name>, env: Env<V>)
    requires AllCastShaped(given)
    ensures Mirrors(b, given, outputs, 0, env, env)
  {
  }

  lemma NoTwinMirrors<V(!new)>(b: Blocked, given: seq<Node>, outputs: seq<Name>, i: nat, e: Env<V>, e': Env<V>)
    requires AllCastShaped(given) && i < |given| && !IsSplit(b, given, outputs, i)
      && Mirrors(b, given, outputs, i, e, e')
    ensures Mirrors(b, given, outputs, i + 1, e, e')
  {
    hide IsSplit;
  }

  lemma EvalOne<V>(f: Ops<V>, a: seq<Node>, n: Node, env: Env<V>)
    ensures Eval(f, a + [n], env) == Step(f, n, Eval(f, a, env))
  {
    assert (a + [n])[..|a|] == a;
  }

  /** Every tensor of the graph given has the value it had. */
  lemma RetypingKeepsEveryValue<V(!new)>(f: Ops<V>, b: Blocked, given: seq<Node>, outputs: seq<Name>, names: set<Name>,
                                   env: Env<V>, x: Name)
    requires Proper(given, names) && NoCollision(b, given, outputs, names) && CastsAlike(f)
    requires x in names || Made(given, x)
    ensures Lookup(Eval(f, Retyped(b, given, outputs), env), x) == Lookup(Eval(f, given, env), x)
  {
    hide IsSplit, IsRetype, Unique, Ordered, NoCollision, Step, CastsAlike, Retyped;
    RetypedIsFlat(b, given, outputs, names);
    FlatMirrors(f, b, given, outputs, names, |given|, env);
    assert given[..|given|] == given;
    if IsTwin(b, given, outputs, |given|, x) {
      TwinIsNew(b, given, outputs, names, x);
    }
  }

  // ---- Types ----

  /** Where node k of the graph given is after the pass. */
  function Place(b: Blocked, given: seq<Node>, outputs: seq<Name>, k: nat): nat
    requires k < |given| && AllCastShaped(given)
  {
    |Flat(b, given, outputs, k)|
  }

  lemma {:induction false} FlatIsMade(b: Blocked, given: seq<Node>, outputs: seq<Name>, i: nat, n: Node)
    requires i <= |given| && AllCastShaped(given) && n in Flat(b, given, outputs, i)
    ensures exists k :: 0 <= k < i && (n == Final(b, given, outputs, |given|, k)
                                       || (IsSplit(b, given, outputs, k) && n == TwinCast(given[k])))
  {
    hide IsSplit, IsRetype, Final, TwinCast;
    if n in Flat(b, given, outputs, i - 1) {
      FlatIsMade(b, given, outputs, i - 1, n);
    } else {
      assert n == Final(b, given, outputs, |given|, i - 1)
          || (IsSplit(b, given, outputs, i - 1) && n == TwinCast(given[i - 1]));
    }
  }

  /** No converted op reads a cast to FLOAT. */
  lemma NoConvertedOpReadsAFloatCast(b: Blocked, given: seq<Node>, outputs: seq<Name>, names: set<Name>, n: Node,
                                     c: Node)
    requires Proper(given, names) && NoCollision(b, given, outputs, names)
    requires n in Retyped(b, given, outputs) && Converted(b, n)
    requires c in Retyped(b, given, outputs) && FloatCast(c)
    ensures |c.outputs| == 1 && c.outputs[0] !in n.inputs
  {
    hide IsSplit, IsRetype, Unique, Ordered, NoCollision, Retyped, Flat, Final, Twin, KindOf;
    RetypedIsFlat(b, given, outputs, names);
    FlatIsMade(b, given, outputs, |given|, n);
    FlatIsMade(b, given, outputs, |given|, c);
    var i :| 0 <= i < |given| && (n == Final(b, given, outputs, |given|, i)
                                  || (IsSplit(b, given, outputs, i) && n == TwinCast(given[i])));
    var j :| 0 <= j < |given| && (c == Final(b, given, outputs, |given|, j)
                                  || (IsSplit(b, given, outputs, j) && c == TwinCast(given[j])));
    FinalMakes(b, given, outputs, i);
    FinalMakes(b, given, outputs, j);
    FloatCastUnread(b, given, outputs, names, i, j);
  }

  /** What is still a cast to FLOAT, no converted node reads. */
  lemma FloatCastUnread(b: Blocked, given: seq<Node>, outputs: seq<Name>, names: set<Name>, i: nat, j: nat)
    requires Proper(given, names) && NoCollision(b, given, outputs, names) && i < |given| && j < |given|
    requires Converted(b, given[i]) && FloatCast(Final(b, given, outputs, |given|, j))
    ensures given[j].outputs[0] !in Final(b, given, outputs, |given|, i).inputs
  {
    hide Unique, Ordered, Twin, KindOf;
    var out, n := given[j].outputs[0], Final(b, given, outputs, |given|, i);
    MakesOne(given[j]);
    forall m | 0 <= m < |n.inputs|
      ensures n.inputs[m] != out
    {
      var x := given[i].inputs[m];
      if SplitName(b, given, outputs, |given|, x) {
        var k :| 0 <= k < |given| && IsSplit(b, given, outputs, k) && given[k].outputs[0] == x;
        assert n.inputs[m] == Twin(x) && !Made(given, Twin(x));
      } else if x == out {
        assert x in given[i].inputs;
        ReadByConverted(b, given, outputs, i, j);
      }
    }
  }

  /** A cast to FLOAT that a converted node reads is retyped or split. */
  lemma ReadByConverted(b: Blocked, given: seq<Node>, outputs: seq<Name>, i: nat, j: nat)
    requires AllCastShaped(given) && i < |given| && j < |given| && FloatCast(given[j])
    requires Converted(b, given[i]) && given[j].outputs[0] in given[i].inputs
    ensures IsRetype(b, given, outputs, j) || (IsSplit(b, given, outputs, j)
                                               && SplitName(b, given, outputs, |given|, given[j].outputs[0]))
  {
  }

  // ---- What is left as it was ----

  lemma FlatPrefix(b: Blocked, given: seq<Node>, outputs: seq<Name>, i: nat, k: nat)
    requires k < i <= |given| && AllCastShaped(given)
    ensures var r := Flat(b, given, outputs, i);
      Place(b, given, outputs, k) < |r| && r[Place(b, given, outputs, k)] == Final(b, given, outputs, |given|, k)
  {
    hide IsSplit, IsRetype, Final, TwinCast;
    if k < i - 1 {
      FlatPrefix(b, given, outputs, i - 1, k);
    }
  }

  /** Each node is still there, in its order, with its operator, its tensors
      and its attribute; a node that is not converted reads what it read; and
      what makes a graph output or a tensor some such node reads makes it in
      the type it did. */
  lemma TheRestStays(b: Blocked, given: seq<Node>, outputs: seq<Name>, names: set<Name>, k: nat)
    requires Proper(given, names) && NoCollision(b, given, outputs, names) && k < |given|
    ensures Place(b, given, outputs, k) < |Retyped(b, given, outputs)|
    ensures k + 1 < |given| ==> Place(b, given, outputs, k) < Place(b, given, outputs, k + 1)
    ensures var n := Retyped(b, given, outputs)[Place(b, given, outputs, k)];
      && n.op == given[k].op && n.attr == given[k].attr && n.outputs == given[k].outputs
      && (!Converted(b, given[k]) ==> n.inputs == given[k].inputs)
      && (Wanted(b, given, outputs, given[k]) ==> n.to == given[k].to)
      && (n.to != given[k].to ==> FloatCast(given[k]) && n.to == Some(FLOAT16))
  {
    hide IsSplit, Unique, Ordered, NoCollision, Retyped, Flat, TwinCast, KindOf;
    RetypedIsFlat(b, given, outputs, names);
    FlatPrefix(b, given, outputs, |given|, k);
    if k + 1 < |given| {
      FlatGrows(b, given, outputs, k + 1);
    }
    if IsRetype(b, given, outputs, k) {
      RetypedIsUnwanted(b, given, outputs, k);
    }
    assert !Converted(b, given[k]) ==> Final(b, given, outputs, |given|, k).inputs == given[k].inputs;
  }

  lemma FlatGrows(b: Blocked, given: seq<Node>, outputs: seq<Name>, i: nat)
    requires 0 < i <= |given| && AllCastShaped(given)
    ensures |Flat(b, given, outputs, i - 1)| < |Flat(b, given, outputs, i)|
  {
    hide IsSplit, IsRetype, Final, TwinCast;
  }

  /** n makes a graph output, or what some unconverted node reads. */
  ghost predicate Wanted(b: Blocked, given: seq<Node>, outputs: seq<Name>, n: Node) {
    exists x :: x in n.outputs && (x in outputs || !FeedsOnlyConverted(b, given, x))
  }

  lemma RetypedIsUnwanted(b: Blocked, given: seq<Node>, outputs: seq<Name>, k: nat)
    requires k < |given| && AllCastShaped(given) && IsRetype(b, given, outputs, k)
    ensures !Wanted(b, given, outputs, given[k])
  {
    hide FeedsOnlyConverted, FeedsConverted;
  }

  /** The count returned: each cast changed in place, and each node added. */
  lemma {:induction false} CountIsRetypedAndAdded(b: Blocked, given: seq<Node>, outputs: seq<Name>, names: set<Name>,
                                                  i: nat)
    requires Proper(given, names) && NoCollision(b, given, outputs, names) && i <= |given|
    ensures var w := Looked(b, given, outputs, i);
      && w.changed == |w.retyped| + |w.added|
      && (forall x :: x in w.retyped <==>
        exists j :: 0 <= j < i && IsRetype(b, given, outputs, j) && given[j].outputs[0] == x)
  {
    hide IsSplit, IsRetype, Ordered, NoCollision, Looked, Moved, TwinCast;
    if i == 0 {
      LookedNone(b, given, outputs);
    } else {
      CountIsRetypedAndAdded(b, given, outputs, names, i - 1);
      LookedStep(b, given, outputs, i);
      if IsRetype(b, given, outputs, i - 1) {
        MakesOne(given[i - 1]);
        forall j | 0 <= j < i - 1 && IsRetype(b, given, outputs, j)
          ensures given[j].outputs[0] != given[i - 1].outputs[0]
        {
          MakesOne(given[j]);
        }
      }
    }
  }

  // ---- Order and names ----

  lemma OrderedWith(a: seq<Node>, n: Node, names: set<Name>)
    requires Ordered(a, names) && forall x :: x in n.inputs && x != "" ==> x in names || Made(a, x)
    ensures Ordered(a + [n], names)
  {
    hide Made;
    assert (a + [n])[..|a|] == a;
    forall i, x | 0 <= i < |a + [n]| && x in (a + [n])[i].inputs && x != ""
      ensures x in names || Made((a + [n])[..i], x)
    {
      if i < |a| {
        assert (a + [n])[..i] == a[..i] && (a + [n])[i] == a[i];
      }
    }
  }

  lemma UniqueWith(a: seq<Node>, n: Node, names: set<Name>)
    requires Unique(a, names)
    requires forall x :: Makes(n, x) ==> x !in names && !Made(a, x)
    requires forall j, k :: 0 <= j < k < |n.outputs| && n.outputs[j] != "" ==> n.outputs[j] != n.outputs[k]
    ensures Unique(a + [n], names)
  {
    var r := a + [n];
    assert forall i :: 0 <= i < |r| ==> r[i] == if i < |a| then a[i] else n;
    assert forall i, x :: 0 <= i < |a| && Makes(n, x) ==> !Makes(a[i], x);
  }

  lemma InputsKnown(b: Blocked, given: seq<Node>, outputs: seq<Name>, names: set<Name>, i: nat, x: Name)
    requires Proper(given, names) && NoCollision(b, given, outputs, names) && i < |given|
    requires x in Final(b, given, outputs, |given|, i).inputs && x != ""
    ensures x in names || Made(Flat(b, given, outputs, i), x)
  {
    hide IsSplit, IsRetype, Unique, NoCollision, Twin, Flat;
    var n := Final(b, given, outputs, |given|, i);
    var m :| 0 <= m < |n.inputs| && n.inputs[m] == x;
    var y := given[i].inputs[m];
    assert y in given[i].inputs;
    FlatMakes(b, given, outputs, i, x);
    if Converted(b, given[i]) && SplitName(b, given, outputs, |given|, y) {
      var j :| 0 <= j < |given| && IsSplit(b, given, outputs, j) && given[j].outputs[0] == y;
      MadeEarlier(given, names, i, j);
    }
  }

  lemma {:induction false} FlatIsOrdered(b: Blocked, given: seq<Node>, outputs: seq<Name>, names: set<Name>, i: nat)
    requires Proper(given, names) && NoCollision(b, given, outputs, names) && i <= |given|
    ensures Ordered(Flat(b, given, outputs, i), names) && Unique(Flat(b, given, outputs, i), names)
  {
    hide IsSplit, IsRetype, Unique, Ordered, NoCollision, Final, TwinCast, Made, Makes, Twin;
    if i == 0 {
      NothingIsOrdered(names);
    } else {
      FlatIsOrdered(b, given, outputs, names, i - 1);
      var a, n := Flat(b, given, outputs, i - 1), Final(b, given, outputs, |given|, i - 1);
      forall x | x in n.inputs && x != ""
        ensures x in names || Made(a, x)
      {
        InputsKnown(b, given, outputs, names, i - 1, x);
      }
      OrderedWith(a, n, names);
      OwnNamesAreNew(b, given, outputs, names, i);
      UniqueWith(a, n, names);
      if IsSplit(b, given, outputs, i - 1) {
        TwinFits(b, given, outputs, names, i);
      } else {
        assert a + [n] + [] == a + [n];
      }
    }
  }

  lemma NothingIsOrdered(names: set<Name>)
    ensures Ordered([], names) && Unique([], names)
  {
  }

  lemma OwnNamesAreNew(b: Blocked, given: seq<Node>, outputs: seq<Name>, names: set<Name>, i: nat)
    requires Proper(given, names) && NoCollision(b, given, outputs, names) && 0 < i <= |given|
    ensures var n := Final(b, given, outputs, |given|, i - 1);
      && (forall x :: Makes(n, x) ==> x !in names && !Made(Flat(b, given, outputs, i - 1), x))
      && (forall j, k :: 0 <= j < k < |n.outputs| && n.outputs[j] != "" ==> n.outputs[j] != n.outputs[k])
  {
    hide IsSplit, IsRetype, Ordered, Flat, NoCollision;
    var n := Final(b, given, outputs, |given|, i - 1);
    forall x | Makes(n, x)
      ensures x !in names && !Made(Flat(b, given, outputs, i - 1), x)
    {
      assert Makes(given[i - 1], x);
      FlatMakes(b, given, outputs, i - 1, x);
      MadeTwice(given, names, i, x);
      if IsTwin(b, given, outputs, i - 1, x) {
        TwinIsNew(b, given, outputs, names, x);
      }
    }
  }

  lemma TwinFits(b: Blocked, given: seq<Node>, outputs: seq<Name>, names: set<Name>, i: nat)
    requires Proper(given, names) && NoCollision(b, given, outputs, names) && 0 < i <= |given|
      && IsSplit(b, given, outputs, i - 1)
    requires var a := Flat(b, given, outputs, i - 1) + [Final(b, given, outputs, |given|, i - 1)];
      Ordered(a, names) && Unique(a, names)
    ensures Ordered(Flat(b, given, outputs, i), names) && Unique(Flat(b, given, outputs, i), names)
  {
    hide IsSplit, IsRetype, Unique, Ordered, Made, Twin, Final;
    var a, n, t := Flat(b, given, outputs, i - 1), Final(b, given, outputs, |given|, i - 1), TwinCast(given[i - 1]);
    forall x | x in t.inputs && x != ""
      ensures x in names || Made(a + [n], x)
    {
      CastInputsStay(b, given, outputs, i - 1);
      InputsKnown(b, given, outputs, names, i - 1, x);
      MadeWith(a, n, x);
    }
    OrderedWith(a + [n], t, names);
    TwinNameIsNew(b, given, outputs, names, i);
    UniqueWith(a + [n], t, names);
  }

  lemma CastInputsStay(b: Blocked, given: seq<Node>, outputs: seq<Name>, k: nat)
    requires k < |given| && AllCastShaped(given) && given[k].op == "Cast"
    ensures Final(b, given, outputs, |given|, k).inputs == given[k].inputs
  {
  }

  lemma TwinNameIsNew(b: Blocked, given: seq<Node>, outputs: seq<Name>, names: set<Name>, i: nat)
    requires Proper(given, names) && NoCollision(b, given, outputs, names) && 0 < i <= |given|
      && IsSplit(b, given, outputs, i - 1)
    ensures var y := Twin(given[i - 1].outputs[0]);
      y !in names && !Made(Flat(b, given, outputs, i - 1) + [Final(b, given, outputs, |given|, i - 1)], y)
  {
    hide IsSplit, IsRetype, Ordered, Flat, Twin;
    var y, a, n := Twin(given[i - 1].outputs[0]), Flat(b, given, outputs, i - 1),
      Final(b, given, outputs, |given|, i - 1);
    FlatMakes(b, given, outputs, i - 1, y);
    MadeWith(a, n, y);
    assert !Makes(given[i - 1], y);
    FinalMakes(b, given, outputs, i - 1);
    MadePrefix(given, i - 1, y);
    if IsTwin(b, given, outputs, i - 1, y) {
      var j :| 0 <= j < i - 1 && IsSplit(b, given, outputs, j) && y == Twin(given[j].outputs[0]);
      TwinsApart(given, names, j, i - 1);
    }
  }

  lemma MadePrefix(given: seq<Node>, i: nat, x: Name)
    requires i <= |given|
    ensures Made(given[..i], x) ==> Made(given, x)
  {
    var before := given[..i];
    assert forall j :: 0 <= j < |before| ==> before[j] == given[j];
  }

  // ---- Exactly when the names stay unique ----

  /** How many of the nodes make x. */
  function Makers(nodes: seq<Node>, x: Name): nat {
    if nodes == [] then 0
    else Makers(nodes[..|nodes| - 1], x) + (if Makes(nodes[|nodes| - 1], x) then 1 else 0)
  }

  lemma {:induction false} MakersOfBoth(a: seq<Node>, b: seq<Node>, x: Name)
    ensures Makers(a + b, x) == Makers(a, x) + Makers(b, x)
  {
    if b == [] {
      assert a + b == a;
    } else {
      assert (a + b)[..|a| + |b| - 1] == a + b[..|b| - 1];
      MakersOfBoth(a, b[..|b| - 1], x);
    }
  }

  lemma {:induction false} MakersOfMade(nodes: seq<Node>, x: Name)
    ensures Makers(nodes, x) > 0 <==> Made(nodes, x)
  {
    if nodes != [] {
      var m := |nodes| - 1;
      MakersOfMade(nodes[..m], x);
      MadeWith(nodes[..m], nodes[m], x);
      assert nodes[..m] + [nodes[m]] == nodes;
    }
  }

  lemma {:induction false} UniqueMakesOnce(nodes: seq<Node>, names: set<Name>, x: Name)
    requires Unique(nodes, names)
    ensures Makers(nodes, x) <= 1
    ensures Made(nodes, x) ==> x !in names
  {
    if nodes != [] {
      var m := |nodes| - 1;
      UniquePrefix(nodes, names, m);
      UniqueMakesOnce(nodes[..m], names, x);
      if Makes(nodes[m], x) {
        MakersOfMade(nodes[..m], x);
        MadeTwice(nodes, names, m + 1, x);
      }
    }
  }

  lemma UniquePrefix(nodes: seq<Node>, names: set<Name>, m: nat)
    requires Unique(nodes, names) && m <= |nodes|
    ensures Unique(nodes[..m], names)
  {
    var r := nodes[..m];
    forall i, j, x | 0 <= i < |r| && 0 <= j < |r| && Makes(r[i], x) && Makes(r[j], x)
      ensures i == j
    {
      assert Makes(nodes[i], x) && Makes(nodes[j], x);
    }
  }

  lemma {:induction false} SameOutputsSameMakers(a: seq<Node>, b: seq<Node>, x: Name)
    requires |a| == |b| && forall i :: 0 <= i < |a| ==> a[i].outputs == b[i].outputs
    ensures Makers(a, x) == Makers(b, x)
  {
    if a != [] {
      SameOutputsSameMakers(a[..|a| - 1], b[..|b| - 1], x);
    }
  }

  /** The nodes added, when each has a node to go after. */
  function Casts(added: seq<(Name, Node)>): (r: seq<Node>)
    ensures |r| == |added|
  {
    seq(|added|, k requires 0 <= k < |added| => added[k].1)
  }

  lemma {:induction false} InsertedMakers(nodes: seq<Node>, added: seq<(Name, Node)>, x: Name)
    requires forall k :: 0 <= k < |added| ==> Made(nodes, added[k].0)
    ensures Makers(Inserted(nodes, added), x) == Makers(nodes, x) + Makers(Casts(added), x)
    decreases |added|
  {
    hide FirstMaker;
    if added != [] {
      var last, rest := added[|added| - 1], added[..|added| - 1];
      var before := Inserted(nodes, rest);
      InsertedMakers(nodes, rest, x);
      InsertedMakers(nodes, rest, last.0);
      MakersOfMade(nodes, last.0);
      MakersOfMade(before, last.0);
      MakerFound(before, last.0);
      var at := FirstMaker(before, last.0);
      MakersWithOneMore(before, at + 1, last.1, x);
      assert Casts(added) == Casts(rest) + [last.1];
      MakersOfBoth(Casts(rest), [last.1], x);
    }
  }

  lemma MakersWithOneMore(nodes: seq<Node>, at: nat, n: Node, x: Name)
    requires at <= |nodes|
    ensures Makers(nodes[..at] + [n] + nodes[at..], x) == Makers(nodes, x) + Makers([n], x)
  {
    hide Makers;
    assert nodes == nodes[..at] + nodes[at..];
    MakersOfBoth(nodes[..at], nodes[at..], x);
    MakersOfBoth(nodes[..at], [n], x);
    MakersOfBoth(nodes[..at] + [n], nodes[at..], x);
  }

  lemma MakerFound(nodes: seq<Node>, x: Name)
    requires Made(nodes, x)
    ensures FirstMaker(nodes, x) < |nodes|
  {
    var i :| 0 <= i < |nodes| && Makes(nodes[i], x);
  }

  /** The pass adds a twin for each split cast, whatever its name. */
  lemma {:induction false} AddedAreTwins(b: Blocked, given: seq<Node>, outputs: seq<Name>, i: nat)
    requires AllCastShaped(given) && i <= |given|
    ensures Looked(b, given, outputs, i).added == Twins(b, given, outputs, i)
  {
    hide IsSplit, IsRetype, Looked, Moved, TwinCast;
    if i == 0 {
      LookedNone(b, given, outputs);
    } else {
      AddedAreTwins(b, given, outputs, i - 1);
      LookedStep(b, given, outputs, i);
    }
  }

  lemma {:induction false} TwinsTell(b: Blocked, given: seq<Node>, outputs: seq<Name>, i: nat, j: nat)
    requires AllCastShaped(given) && CastsNamed(given) && i <= |given| && j < |given| && IsSplit(b, given, outputs, j)
    ensures forall k :: 0 <= k < |Twins(b, given, outputs, i)| ==> Made(given, Twins(b, given, outputs, i)[k].0)
    ensures j < i ==> Made(Casts(Twins(b, given, outputs, i)), Twin(given[j].outputs[0]))
  {
    hide IsSplit, IsRetype, TwinCast, Twin;
    if i > 0 {
      TwinsTell(b, given, outputs, i - 1, j);
      if IsSplit(b, given, outputs, i - 1) {
        var t := Twins(b, given, outputs, i - 1);
        MakesOne(given[i - 1]);
        assert Casts(Twins(b, given, outputs, i)) == Casts(t) + [TwinCast(given[i - 1])];
        MadeWith(Casts(t), TwinCast(given[i - 1]), Twin(given[j].outputs[0]));
        TwinMakes(given[i - 1], Twin(given[j].outputs[0]));
      } else {
        assert Twins(b, given, outputs, i) == Twins(b, given, outputs, i - 1);
      }
    }
  }

  /** The names of the result are unique exactly when no added name was
      already there: the pass does not look. */
  lemma NamesStayUniqueIffNoCollision(b: Blocked, given: seq<Node>, outputs: seq<Name>, names: set<Name>)
    requires Proper(given, names)
    ensures Unique(Retyped(b, given, outputs), names) <==> NoCollision(b, given, outputs, names)
    ensures NoCollision(b, given, outputs, names) ==> Ordered(Retyped(b, given, outputs), names)
  {
    hide IsSplit, IsRetype, Unique, Ordered, Retyped, Flat;
    if NoCollision(b, given, outputs, names) {
      RetypedIsFlat(b, given, outputs, names);
      FlatIsOrdered(b, given, outputs, names, |given|);
    } else {
      var j :| 0 <= j < |given| && IsSplit(b, given, outputs, j)
            && (Twin(given[j].outputs[0]) in names || Made(given, Twin(given[j].outputs[0])));
      CollisionMakesTwice(b, given, outputs, names, j);
    }
  }

  lemma CollisionMakesTwice(b: Blocked, given: seq<Node>, outputs: seq<Name>, names: set<Name>, j: nat)
    requires Proper(given, names) && j < |given| && IsSplit(b, given, outputs, j)
    requires Twin(given[j].outputs[0]) in names || Made(given, Twin(given[j].outputs[0]))
    ensures !Unique(Retyped(b, given, outputs), names)
  {
    hide IsSplit, IsRetype, Unique, Ordered, Twin, Inserted, Looked, Twins, Made;
    var w, y, r := Looked(b, given, outputs, |given|), Twin(given[j].outputs[0]), Retyped(b, given, outputs);
    AddedAreTwins(b, given, outputs, |given|);
    TwinsTell(b, given, outputs, |given|, j);
    forall k | 0 <= k < |w.added|
      ensures Made(w.nodes, w.added[k].0)
    {
      SameOutputsSameMakers(w.nodes, given, w.added[k].0);
      MakersOfMade(w.nodes, w.added[k].0);
      MakersOfMade(given, w.added[k].0);
    }
    InsertedMakers(w.nodes, w.added, y);
    SameOutputsSameMakers(w.nodes, given, y);
    MakersOfMade(Casts(w.added), y);
    MakersOfMade(given, y);
    MakersOfMade(r, y);
    if Unique(r, names) {
      UniqueMakesOnce(r, names, y);
    }
  }

  /** A graph that already has the name the pass would add. */
  function Colliding(): seq<Node> {
    [Node("Cast", Some(FLOAT), 0, ["x"], ["c"]),
     Node("Relu", None, 0, ["x"], [Twin("c")]),
     Node("Gelu", None, 0, ["c"], ["y"])]
  }

  lemma CollidingIsNotUnique()
    ensures Proper(Colliding(), {"x"})
    ensures !Unique(Retyped({}, Colliding(), ["c", "y"]), {"x"})
  {
    var g := Colliding();
    CollidingIsProper();
    assert "c" in g[2].inputs && Converted({}, g[2]);
    assert IsSplit({}, g, ["c", "y"], 0);
    assert Makes(g[1], Twin("c"));
    CollisionMakesTwice({}, g, ["c", "y"], {"x"}, 0);
  }

  lemma CollidingIsProper()
    ensures Proper(Colliding(), {"x"})
  {
    var g := Colliding();
    assert |Twin("c")| > 1;
    assert Makes(g[0], "c");
    forall i, x | 0 <= i < |g| && x in g[i].inputs && x != ""
      ensures x in {"x"} || Made(g[..i], x)
    {
      if i == 2 {
        assert g[..i][0] == g[0];
      }
    }
  }
}
