/** A dataflow graph of named tensors, as the ONNX passes of bundle/reference
    edit it, and what it computes. The operators are any function. */
module OnnxGraph {

  type Name = string

  datatype Option<T> = None | Some(value: T)

  /** A node: its operator, its "to" attribute when it has one, whatever else
      it carries, and the tensors it reads and makes. "" is an optional
      tensor left out. */
  datatype Node = Node(op: string, to: Option<int>, attr: int, inputs: seq<Name>, outputs: seq<Name>)

  datatype Init<V> = Init(name: Name, value: V)

  type Env<V> = map<Name, V>

  /** Output k of an operator on its inputs. */
  type Ops<!V> = (string, Option<int>, int, seq<Option<V>>, nat) -> V

  function Lookup<V>(env: Env<V>, x: Name): Option<V> {
    if x != "" && x in env then Some(env[x]) else None
  }

  function Gather<V>(env: Env<V>, xs: seq<Name>): (r: seq<Option<V>>)
    ensures |r| == |xs|
  {
    seq(|xs|, i requires 0 <= i < |xs| => Lookup(env, xs[i]))
  }

  function Apply<V>(f: Ops<V>, n: Node, ins: seq<Option<V>>, k: nat): V {
    f(n.op, n.to, n.attr, ins, k)
  }

  /** The first k outputs of a node, computed from ins, put into env. */
  function Bind<V>(f: Ops<V>, n: Node, ins: seq<Option<V>>, k: nat, env: Env<V>): Env<V>
    requires k <= |n.outputs|
  {
    if k == 0 then env else Bind(f, n, ins, k - 1, env)[n.outputs[k - 1] := Apply(f, n, ins, k - 1)]
  }

  function Step<V>(f: Ops<V>, n: Node, env: Env<V>): Env<V> {
    Bind(f, n, Gather(env, n.inputs), |n.outputs|, env)
  }

  /** The tensors of the nodes, run in order from what env holds. */
  function Eval<V>(f: Ops<V>, nodes: seq<Node>, env: Env<V>): Env<V> {
    if nodes == [] then env else Step(f, nodes[|nodes| - 1], Eval(f, nodes[..|nodes| - 1], env))
  }

  predicate Makes(n: Node, x: Name) { x != "" && x in n.outputs }

  /** Some node makes x. */
  ghost predicate Made(nodes: seq<Node>, x: Name) { exists i :: 0 <= i < |nodes| && Makes(nodes[i], x) }

  /** Each tensor is made once, and not over one of `given`; outputs left out
      are no tensors. */
  ghost predicate Unique(nodes: seq<Node>, given: set<Name>) {
    && (forall i, x :: 0 <= i < |nodes| && Makes(nodes[i], x) ==> x !in given)
    && (forall i, j, k :: 0 <= i < |nodes| && 0 <= j < k < |nodes[i].outputs| && nodes[i].outputs[j] != "" ==>
          nodes[i].outputs[j] != nodes[i].outputs[k])
    && (forall i, j, x :: 0 <= i < |nodes| && 0 <= j < |nodes| && Makes(nodes[i], x) && Makes(nodes[j], x) ==> i == j)
  }

  /** Nodes read what was given or made before them. */
  ghost predicate Ordered(nodes: seq<Node>, given: set<Name>) {
    forall i, x :: 0 <= i < |nodes| && x in nodes[i].inputs && x != "" ==> x in given || Made(nodes[..i], x)
  }

  // ---- Facts about running a graph ----

  lemma {:induction false} BindKeeps<V>(f: Ops<V>, n: Node, ins: seq<Option<V>>, k: nat, env: Env<V>, x: Name)
    requires k <= |n.outputs| && x !in n.outputs[..k]
    ensures Lookup(Bind(f, n, ins, k, env), x) == Lookup(env, x)
  {
    if k > 0 {
      assert n.outputs[..k] == n.outputs[..k - 1] + [n.outputs[k - 1]];
      BindKeeps(f, n, ins, k - 1, env, x);
    }
  }

  lemma {:induction false} BindAgrees<V>(f: Ops<V>, n: Node, ins: seq<Option<V>>, n': Node, ins': seq<Option<V>>,
                                         k: nat, env: Env<V>, env': Env<V>, x: Name)
    requires k <= |n.outputs| && n'.outputs == n.outputs
    requires forall j :: 0 <= j < k ==> Apply(f, n, ins, j) == Apply(f, n', ins', j)
    requires x in n.outputs[..k] || Lookup(env, x) == Lookup(env', x)
    ensures Lookup(Bind(f, n, ins, k, env), x) == Lookup(Bind(f, n', ins', k, env'), x)
  {
    if k > 0 {
      assert n.outputs[..k] == n.outputs[..k - 1] + [n.outputs[k - 1]];
      if x != n.outputs[k - 1] {
        BindAgrees(f, n, ins, n', ins', k - 1, env, env', x);
      }
    }
  }

  lemma StepKeeps<V>(f: Ops<V>, n: Node, env: Env<V>, x: Name)
    requires !Makes(n, x)
    ensures Lookup(Step(f, n, env), x) == Lookup(env, x)
  {
    assert n.outputs[..|n.outputs|] == n.outputs;
    if x != "" {
      BindKeeps(f, n, Gather(env, n.inputs), |n.outputs|, env, x);
    }
  }

  /** Two nodes that compute the same values make the same tensors. */
  lemma StepAgrees<V>(f: Ops<V>, n: Node, n': Node, env: Env<V>, env': Env<V>, x: Name)
    requires n'.outputs == n.outputs
    requires forall k :: 0 <= k < |n.outputs| ==>
      Apply(f, n, Gather(env, n.inputs), k) == Apply(f, n', Gather(env', n'.inputs), k)
    requires x in n.outputs || Lookup(env, x) == Lookup(env', x)
    ensures Lookup(Step(f, n, env), x) == Lookup(Step(f, n', env'), x)
  {
    assert n.outputs[..|n.outputs|] == n.outputs;
    BindAgrees(f, n, Gather(env, n.inputs), n', Gather(env', n'.inputs), |n.outputs|, env, env', x);
  }

  lemma {:induction false} EvalKeeps<V>(f: Ops<V>, nodes: seq<Node>, env: Env<V>, x: Name)
    requires !Made(nodes, x)
    ensures Lookup(Eval(f, nodes, env), x) == Lookup(env, x)
  {
    if nodes != [] {
      var n := |nodes| - 1;
      assert !Makes(nodes[n], x);
      assert forall i :: 0 <= i < n ==> nodes[..n][i] == nodes[i];
      EvalKeeps(f, nodes[..n], env, x);
      StepKeeps(f, nodes[n], Eval(f, nodes[..n], env), x);
    }
  }

  lemma {:induction false} EvalConcat<V>(f: Ops<V>, a: seq<Node>, b: seq<Node>, env: Env<V>)
    ensures Eval(f, a + b, env) == Eval(f, b, Eval(f, a, env))
  {
    if b == [] {
      assert a + b == a;
    } else {
      var n := |b| - 1;
      assert (a + b)[..|a| + n] == a + b[..n];
      EvalConcat(f, a, b[..n], env);
    }
  }

  /** A tensor no later node makes keeps its value to the end. */
  lemma ValueStands<V>(f: Ops<V>, nodes: seq<Node>, env: Env<V>, i: nat, x: Name)
    requires i <= |nodes| && !Made(nodes[i..], x)
    ensures Lookup(Eval(f, nodes, env), x) == Lookup(Eval(f, nodes[..i], env), x)
  {
    assert nodes == nodes[..i] + nodes[i..];
    EvalConcat(f, nodes[..i], nodes[i..], env);
    EvalKeeps(f, nodes[i..], Eval(f, nodes[..i], env), x);
  }

  /** In an ordered graph a node reads what stands at the end. */
  lemma InputsStand<V>(f: Ops<V>, nodes: seq<Node>, given: set<Name>, env: Env<V>, i: nat)
    requires Unique(nodes, given) && Ordered(nodes, given) && i < |nodes|
    ensures Gather(Eval(f, nodes, env), nodes[i].inputs) == Gather(Eval(f, nodes[..i], env), nodes[i].inputs)
  {
    var e := Eval(f, nodes, env);
    forall k | 0 <= k < |nodes[i].inputs|
      ensures Lookup(e, nodes[i].inputs[k]) == Lookup(Eval(f, nodes[..i], env), nodes[i].inputs[k])
    {
      var x := nodes[i].inputs[k];
      assert x in nodes[i].inputs;
      if x != "" {
        NotMadeLater(nodes, given, i, x);
        ValueStands(f, nodes, env, i, x);
      }
    }
  }

  lemma NotMadeLater(nodes: seq<Node>, given: set<Name>, i: nat, x: Name)
    requires Unique(nodes, given) && i <= |nodes| && (x in given || Made(nodes[..i], x))
    ensures !Made(nodes[i..], x)
  {
    forall j | 0 <= j < |nodes[i..]|
      ensures !Makes(nodes[i..][j], x)
    {
      assert nodes[i..][j] == nodes[i + j];
      if x !in given {
        var m :| 0 <= m < |nodes[..i]| && Makes(nodes[..i][m], x);
        assert Makes(nodes[m], x);
      }
    }
  }

  lemma {:induction false} BindGives<V>(f: Ops<V>, n: Node, ins: seq<Option<V>>, k: nat, env: Env<V>, j: nat)
    requires j < k <= |n.outputs| && n.outputs[j] != ""
    requires forall i :: j < i < k ==> n.outputs[i] != n.outputs[j]
    ensures Lookup(Bind(f, n, ins, k, env), n.outputs[j]) == Some(f(n.op, n.to, n.attr, ins, j))
  {
    if j < k - 1 {
      BindGives(f, n, ins, k - 1, env, j);
    }
  }

  /** What a run is: each tensor a node makes is its operator on the values
      the node's inputs have, */
  lemma EveryTensorIsComputed<V>(f: Ops<V>, nodes: seq<Node>, given: set<Name>, env: Env<V>, i: nat, k: nat)
    requires Unique(nodes, given) && Ordered(nodes, given)
    requires i < |nodes| && k < |nodes[i].outputs| && nodes[i].outputs[k] != ""
    ensures var n, e := nodes[i], Eval(f, nodes, env);
      Lookup(e, n.outputs[k]) == Some(f(n.op, n.to, n.attr, Gather(e, n.inputs), k))
  {
    hide Ordered, Lookup, Gather, Bind;
    var n, o, before := nodes[i], nodes[i].outputs[k], Eval(f, nodes[..i], env);
    assert Makes(n, o);
    InputsStand(f, nodes, given, env, i);
    BindGives(f, n, Gather(before, n.inputs), |n.outputs|, before, k);
    assert nodes[..i + 1] == nodes[..i] + [n];
    MadeBefore(nodes, i, o);
    NotMadeLater(nodes, given, i + 1, o);
    ValueStands(f, nodes, env, i + 1, o);
  }

  lemma MadeBefore(nodes: seq<Node>, i: nat, o: Name)
    requires i < |nodes| && Makes(nodes[i], o)
    ensures Made(nodes[..i + 1], o)
  {
    assert Makes(nodes[..i + 1][i], o);
  }

  /** and each other name has what it was given. */
  lemma EveryOtherNameStands<V>(f: Ops<V>, nodes: seq<Node>, env: Env<V>, x: Name)
    requires forall j :: 0 <= j < |nodes| ==> x !in nodes[j].outputs
    ensures Lookup(Eval(f, nodes, env), x) == if x != "" && x in env then Some(env[x]) else None
  {
    EvalKeeps(f, nodes, env, x);
  }

  /** What a node reads of the tensors there are; nothing, for one left out. */
  lemma Reads<V>(env: Env<V>, xs: seq<Name>, m: nat)
    requires m < |xs|
    ensures |Gather(env, xs)| == |xs|
    ensures Gather(env, xs)[m] == if xs[m] != "" && xs[m] in env then Some(env[xs[m]]) else None
  {
  }
}
