/** bundle/reference/onnx_to_openvino_ir.py's _prune: the nodes and initializers
    that feed an output, and no others. */
module GraphPrune {
  import opened OnnxGraph

  /** The last node that makes x, or -1: what a dictionary of producers has. */
  function Producer(nodes: seq<Node>, x: Name): (i: int)
    ensures -1 <= i < |nodes|
    ensures i >= 0 ==> x in nodes[i].outputs
    ensures forall j :: i < j < |nodes| ==> x !in nodes[j].outputs
  {
    if nodes == [] then -1
    else
      var n := |nodes| - 1;
      if x in nodes[n].outputs then n else Producer(nodes[..n], x)
  }

  /** S holds the outputs, and what the producers of its tensors read. */
  ghost predicate Closed(nodes: seq<Node>, outputs: seq<Name>, S: set<Name>) {
    && (forall o :: o in outputs && o != "" ==> o in S)
    && (forall x :: x in S && Producer(nodes, x) >= 0 ==> Fed(nodes[Producer(nodes, x)], S))
  }

  predicate Fed(n: Node, S: set<Name>) {
    forall x :: x in n.inputs && x != "" ==> x in S
  }

  /** Exactly the tensors an output reaches back to. */
  ghost predicate IsLive(nodes: seq<Node>, outputs: seq<Name>, live: set<Name>) {
    Closed(nodes, outputs, live) && forall S :: Closed(nodes, outputs, S) ==> live <= S
  }

  predicate Feeds(n: Node, live: set<Name>) { exists o :: o in n.outputs && o in live }

  function Kept(nodes: seq<Node>, live: set<Name>): (r: seq<Node>)
    ensures forall n :: n in r <==> n in nodes && Feeds(n, live)
  {
    if nodes == [] then []
    else
      var m := |nodes| - 1;
      Kept(nodes[..m], live) + (if Feeds(nodes[m], live) then [nodes[m]] else [])
  }

  function KeptInits<V(!new)>(inits: seq<Init<V>>, live: set<Name>): (r: seq<Init<V>>)
    ensures forall t :: t in r <==> t in inits && t.name in live
  {
    if inits == [] then []
    else
      var m := |inits| - 1;
      KeptInits(inits[..m], live) + (if inits[m].name in live then [inits[m]] else [])
  }

  /** Every tensor name the walk can meet. */
  ghost function Met(nodes: seq<Node>, outputs: seq<Name>): set<Name> {
    (set o | o in outputs) + (set i, x | 0 <= i < |nodes| && x in nodes[i].inputs :: x)
  }

  /** The walk so far: what is live and what is still to visit. */
  ghost predicate Walking(nodes: seq<Node>, outputs: seq<Name>, live: set<Name>, stack: seq<Name>) {
    && (forall o :: o in outputs && o != "" ==> o in live || o in stack)
    && (forall x :: x in live && Producer(nodes, x) >= 0 ==>
          forall y :: y in nodes[Producer(nodes, x)].inputs && y != "" ==> y in live || y in stack)
    && (forall S :: Closed(nodes, outputs, S) ==> live <= S && forall x :: x in stack && x != "" ==> x in S)
  }

  lemma WalkStarts(nodes: seq<Node>, outputs: seq<Name>)
    ensures Walking(nodes, outputs, {}, outputs)
    ensures forall o :: o in outputs ==> o in Met(nodes, outputs)
  {
  }

  lemma MetInputs(nodes: seq<Node>, outputs: seq<Name>, p: nat)
    requires p < |nodes|
    ensures forall x :: x in nodes[p].inputs ==> x in Met(nodes, outputs)
  {
  }

  lemma WalkPasses(nodes: seq<Node>, outputs: seq<Name>, live: set<Name>, stack: seq<Name>, name: Name)
    requires Walking(nodes, outputs, live, stack + [name]) && (name == "" || name in live)
    ensures Walking(nodes, outputs, live, stack)
  {
    forall S | Closed(nodes, outputs, S)
      ensures forall x :: x in stack && x != "" ==> x in S
    {
      assert forall x :: x in stack ==> x in stack + [name];
    }
  }

  lemma WalkVisits(nodes: seq<Node>, outputs: seq<Name>, live: set<Name>, stack: seq<Name>, name: Name)
    requires Walking(nodes, outputs, live, stack + [name]) && name != "" && name !in live
    ensures var p := Producer(nodes, name);
      Walking(nodes, outputs, live + {name}, stack + (if p < 0 then [] else nodes[p].inputs))
  {
    hide Producer;
    var p := Producer(nodes, name);
    var next := stack + (if p < 0 then [] else nodes[p].inputs);
    assert forall x :: x in stack + [name] ==> x in next || x == name;
    forall S | Closed(nodes, outputs, S)
      ensures live + {name} <= S && forall x :: x in next && x != "" ==> x in S
    {
      assert name in stack + [name];
      assert forall x :: x in stack ==> x in stack + [name];
      assert p >= 0 ==> Fed(nodes[p], S);
    }
  }

  lemma WalkEnds(nodes: seq<Node>, outputs: seq<Name>, live: set<Name>)
    requires Walking(nodes, outputs, live, [])
    ensures IsLive(nodes, outputs, live)
  {
  }

  class Graph<V(!new)> {
    var inputs: seq<Name>
    var outputs: seq<Name>
    var inits: seq<Init<V>>
    var nodes: seq<Node>
    var valueInfo: seq<Name>

    constructor (inputs: seq<Name>, outputs: seq<Name>, inits: seq<Init<V>>, nodes: seq<Node>, valueInfo: seq<Name>)
      ensures this.inputs == inputs && this.outputs == outputs && this.inits == inits
      ensures this.nodes == nodes && this.valueInfo == valueInfo
    {
      this.inputs, this.outputs, this.inits, this.nodes, this.valueInfo := inputs, outputs, inits, nodes, valueInfo;
    }

    /** Walks back from the outputs. */
    method Live() returns (live: set<Name>)
      ensures IsLive(nodes, outputs, live)
    {
      hide Walking, Met;
      live := {};
      var stack := outputs;
      ghost var met := Met(nodes, outputs);
      WalkStarts(nodes, outputs);
      while stack != []
        invariant live <= met && (forall x :: x in stack ==> x in met)
        invariant Walking(nodes, outputs, live, stack)
        decreases |met - live|, |stack|
      {
        var name := stack[|stack| - 1];
        ghost var was := stack;
        stack := stack[..|stack| - 1];
        assert was == stack + [name] && name in was;
        if name == "" || name in live {
          WalkPasses(nodes, outputs, live, stack, name);
          continue;
        }
        WalkVisits(nodes, outputs, live, stack, name);
        Fewer(met, live, name);
        live := live + {name};
        var p := Producer(nodes, name);
        if p < 0 {
          assert stack + [] == stack;
          continue;
        }
        MetInputs(nodes, outputs, p);
        ghost var rest := stack;
        for k := 0 to |nodes[p].inputs|
          invariant stack == rest + nodes[p].inputs[..k]
        {
          stack := stack + [nodes[p].inputs[k]];
        }
        assert stack == rest + nodes[p].inputs;
      }
      WalkEnds(nodes, outputs, live);
    }

    /** Drops what does not feed an output. */
    method Prune() returns (ghost live: set<Name>)
      modifies this`nodes, this`inits, this`valueInfo
      ensures IsLive(old(nodes), outputs, live)
      ensures nodes == Kept(old(nodes), live) && inits == KeptInits(old(inits), live) && valueInfo == []
    {
      var found := Live();
      live := found;
      var kept: seq<Node> := [];
      for i := 0 to |nodes|
        invariant kept == Kept(nodes[..i], live)
      {
        assert nodes[..i + 1][..i] == nodes[..i];
        if Feeds(nodes[i], found) {
          kept := kept + [nodes[i]];
        }
      }
      assert nodes[..|nodes|] == nodes;
      var keptInits: seq<Init<V>> := [];
      for i := 0 to |inits|
        invariant keptInits == KeptInits(inits[..i], live)
      {
        assert inits[..i + 1][..i] == inits[..i];
        if inits[i].name in found {
          keptInits := keptInits + [inits[i]];
        }
      }
      assert inits[..|inits|] == inits;
      nodes, inits, valueInfo := kept, keptInits, [];
    }
  }

  lemma Fewer(met: set<Name>, live: set<Name>, x: Name)
    requires x in met && x !in live
    ensures |met - (live + {x})| < |met - live|
  {
    assert met - live == (met - (live + {x})) + {x};
  }

  // ---- What pruning keeps ----

  /** What a feed and the initializers put in a graph's hands. */
  function Start<V>(feed: Env<V>, inits: seq<Init<V>>): Env<V> {
    if inits == [] then feed else Start(feed, inits[..|inits| - 1])[inits[|inits| - 1].name := inits[|inits| - 1].value]
  }

  lemma {:induction false} StartOfKept<V(!new)>(feed: Env<V>, inits: seq<Init<V>>, live: set<Name>, x: Name)
    requires x in live
    ensures Lookup(Start(feed, KeptInits(inits, live)), x) == Lookup(Start(feed, inits), x)
  {
    hide KeptInits;
    if inits != [] {
      var m := |inits| - 1;
      StartOfKept(feed, inits[..m], live, x);
      KeptInitsStep(inits, live);
      StartStep(feed, KeptInits(inits[..m], live), inits[m]);
    } else {
      KeptNoInits<V>(live);
    }
  }

  lemma KeptNoInits<V(!new)>(live: set<Name>)
    ensures KeptInits<V>([], live) == []
  {
  }

  lemma KeptInitsStep<V(!new)>(inits: seq<Init<V>>, live: set<Name>)
    requires inits != []
    ensures var m := |inits| - 1;
      KeptInits(inits, live) == KeptInits(inits[..m], live) + (if inits[m].name in live then [inits[m]] else [])
  {
  }

  lemma StartStep<V>(feed: Env<V>, inits: seq<Init<V>>, t: Init<V>)
    ensures Start(feed, inits + [t]) == Start(feed, inits)[t.name := t.value]
    ensures Start(feed, inits + []) == Start(feed, inits)
  {
    assert (inits + [t])[..|inits|] == inits;
    assert inits + [] == inits;
  }

  lemma KeptStep(nodes: seq<Node>, live: set<Name>, k: nat)
    requires 0 < k <= |nodes|
    ensures Kept(nodes[..k], live) ==
      Kept(nodes[..k - 1], live) + (if Feeds(nodes[k - 1], live) then [nodes[k - 1]] else [])
  {
    assert nodes[..k][..k - 1] == nodes[..k - 1];
  }

  lemma EvalStep<V>(f: Ops<V>, nodes: seq<Node>, n: Node, env: Env<V>)
    ensures Eval(f, nodes + [n], env) == Step(f, n, Eval(f, nodes, env))
  {
    assert (nodes + [n])[..|nodes|] == nodes;
  }

  lemma ProducerIs(nodes: seq<Node>, given: set<Name>, i: nat, x: Name)
    requires Unique(nodes, given) && i < |nodes| && Makes(nodes[i], x)
    ensures Producer(nodes, x) == i
  {
    var p := Producer(nodes, x);
    assert p >= 0 ==> Makes(nodes[p], x);
  }

  /** A tensor left out is never live. */
  lemma LiveAreNamed(nodes: seq<Node>, outputs: seq<Name>, live: set<Name>)
    requires IsLive(nodes, outputs, live)
    ensures "" !in live
  {
    var named := live - {""};
    assert Closed(nodes, outputs, named);
    assert live <= named;
  }

  /** A kept node reads live tensors alone. */
  lemma KeptReadsLive(nodes: seq<Node>, outputs: seq<Name>, given: set<Name>, live: set<Name>, i: nat)
    requires Unique(nodes, given) && IsLive(nodes, outputs, live) && i < |nodes| && Feeds(nodes[i], live)
    ensures Fed(nodes[i], live)
  {
    var o :| o in nodes[i].outputs && o in live;
    LiveAreNamed(nodes, outputs, live);
    assert Makes(nodes[i], o);
    ProducerIs(nodes, given, i, o);
  }

  /** Every live tensor has the value it had, run to any point. */
  lemma {:induction false} KeptAgrees<V>(f: Ops<V>, nodes: seq<Node>, outputs: seq<Name>, given: set<Name>,
                                         live: set<Name>, k: nat, env: Env<V>, env': Env<V>)
    requires Unique(nodes, given) && IsLive(nodes, outputs, live) && k <= |nodes|
    requires forall x :: x in live ==> Lookup(env, x) == Lookup(env', x)
    ensures forall x :: x in live ==>
      Lookup(Eval(f, nodes[..k], env), x) == Lookup(Eval(f, Kept(nodes[..k], live), env'), x)
  {
    hide Kept, Step, IsLive, Unique;
    if k == 0 {
      KeptNothing(live);
      assert nodes[..0] == [];
      return;
    }
    var n, before, kept := nodes[k - 1], nodes[..k - 1], Kept(nodes[..k - 1], live);
    KeptAgrees(f, nodes, outputs, given, live, k - 1, env, env');
    var e, e' := Eval(f, before, env), Eval(f, kept, env');
    KeptStep(nodes, live, k);
    assert nodes[..k] == before + [n];
    EvalStep(f, before, n, env);
    if Feeds(n, live) {
      EvalStep(f, kept, n, env');
      KeptReadsLive(nodes, outputs, given, live, k - 1);
      forall j | 0 <= j < |n.inputs|
        ensures Lookup(e, n.inputs[j]) == Lookup(e', n.inputs[j])
      {
        assert n.inputs[j] in n.inputs;
      }
      assert Gather(e, n.inputs) == Gather(e', n.inputs);
      forall x | x in live
        ensures Lookup(Step(f, n, e), x) == Lookup(Step(f, n, e'), x)
      {
        StepAgrees(f, n, n, e, e', x);
      }
    } else {
      assert kept + [] == kept;
      forall x | x in live
        ensures Lookup(Step(f, n, e), x) == Lookup(e, x)
      {
        StepKeeps(f, n, e, x);
      }
    }
  }

  lemma KeptNothing(live: set<Name>)
    ensures Kept([], live) == []
  {
  }

  /** The pruned graph gives the outputs the graph gave, for every feed. */
  lemma PrunePreservesOutputs<V(!new)>(f: Ops<V>, nodes: seq<Node>, inits: seq<Init<V>>, outputs: seq<Name>,
                                       given: set<Name>, live: set<Name>, feed: Env<V>)
    requires Unique(nodes, given) && IsLive(nodes, outputs, live)
    ensures forall x :: x in live ==>
      Lookup(Eval(f, nodes, Start(feed, inits)), x)
      == Lookup(Eval(f, Kept(nodes, live), Start(feed, KeptInits(inits, live))), x)
    ensures Gather(Eval(f, nodes, Start(feed, inits)), outputs)
      == Gather(Eval(f, Kept(nodes, live), Start(feed, KeptInits(inits, live))), outputs)
  {
    var env, env' := Start(feed, inits), Start(feed, KeptInits(inits, live));
    forall x | x in live
      ensures Lookup(env, x) == Lookup(env', x)
    {
      StartOfKept(feed, inits, live, x);
    }
    KeptAgrees(f, nodes, outputs, given, live, |nodes|, env, env');
    assert nodes[..|nodes|] == nodes;
    var e, e' := Eval(f, nodes, env), Eval(f, Kept(nodes, live), env');
    forall i | 0 <= i < |outputs|
      ensures Lookup(e, outputs[i]) == Lookup(e', outputs[i])
    {
      assert outputs[i] in outputs;
    }
  }

  /** No kept node loses a producer: what it reads was given, and kept when
      an initializer gave it, or is made by a node kept before it. */
  lemma KeptIsOrdered<V(!new)>(nodes: seq<Node>, outputs: seq<Name>, given: set<Name>, live: set<Name>)
    requires Unique(nodes, given) && Ordered(nodes, given) && IsLive(nodes, outputs, live)
    ensures Ordered(Kept(nodes, live), given * live)
  {
    KeptPrefixIsOrdered(nodes, outputs, given, live, |nodes|);
    assert nodes[..|nodes|] == nodes;
  }

  lemma {:induction false} KeptMakes(nodes: seq<Node>, live: set<Name>, i: nat, x: Name)
    requires i < |nodes| && Makes(nodes[i], x) && x in live
    ensures Made(Kept(nodes, live), x)
  {
    assert Feeds(nodes[i], live);
    assert nodes[i] in nodes;
    assert nodes[i] in Kept(nodes, live);
    var j :| 0 <= j < |Kept(nodes, live)| && Kept(nodes, live)[j] == nodes[i];
    assert Makes(Kept(nodes, live)[j], x);
  }

  lemma {:induction false} KeptPrefixIsOrdered(nodes: seq<Node>, outputs: seq<Name>, given: set<Name>,
                                               live: set<Name>, k: nat)
    requires Unique(nodes, given) && Ordered(nodes, given) && IsLive(nodes, outputs, live) && k <= |nodes|
    ensures Ordered(Kept(nodes[..k], live), given * live)
  {
    hide Kept, IsLive;
    if k == 0 {
      KeptNothing(live);
      assert nodes[..0] == [];
      return;
    }
    var n, kept := nodes[k - 1], Kept(nodes[..k - 1], live);
    KeptPrefixIsOrdered(nodes, outputs, given, live, k - 1);
    KeptStep(nodes, live, k);
    if !Feeds(n, live) {
      assert kept + [] == kept;
      return;
    }
    KeptReadsLive(nodes, outputs, given, live, k - 1);
    var all := kept + [n];
    forall i, x | 0 <= i < |all| && x in all[i].inputs && x != ""
      ensures x in given * live || Made(all[..i], x)
    {
      if i < |kept| {
        assert all[i] == kept[i] && all[..i] == kept[..i];
      } else {
        assert all[..i] == kept;
        if x !in given {
          var j :| 0 <= j < |nodes[..k - 1]| && Makes(nodes[..k - 1][j], x);
          KeptMakes(nodes[..k - 1], live, j, x);
        }
      }
    }
  }
}
