/** bundle/reference/onnx_f16.py's retype_float_casts: converted ops stop
    reading Casts to FLOAT. A Cast they alone read is retyped; any other that
    they read gets a FLOAT16 twin that they read instead. */
module RetypeCasts {
  import opened OnnxGraph

  const FLOAT := 1
  const FLOAT16 := 10

  /** The ops the converter blocks, and so left in float32. */
  type Blocked = set<string>

  predicate Converted(blocked: Blocked, n: Node) { n.op != "Cast" && n.op !in blocked }

  predicate FloatCast(n: Node) { n.op == "Cast" && n.to == Some(FLOAT) }

  /** The name a cast's FLOAT16 twin gets. */
  function Twin(out: Name): Name { out + "_as_float16" }

  /** A Cast reads and makes one tensor. */
  predicate CastShaped(n: Node) { n.op == "Cast" ==> |n.inputs| == 1 && |n.outputs| == 1 }

  /** Some converted op reads x; all that read it are converted. */
  predicate FeedsConverted(blocked: Blocked, nodes: seq<Node>, x: Name) {
    exists i :: 0 <= i < |nodes| && x in nodes[i].inputs && Converted(blocked, nodes[i])
  }

  predicate FeedsOnlyConverted(blocked: Blocked, nodes: seq<Node>, x: Name) {
    forall i :: 0 <= i < |nodes| && x in nodes[i].inputs ==> Converted(blocked, nodes[i])
  }

  datatype Kind = Leave | Retype | Split

  /** What becomes of a node, by the graph it is in. */
  function KindOf(blocked: Blocked, nodes: seq<Node>, outputs: seq<Name>, n: Node): Kind
    requires CastShaped(n)
  {
    if !FloatCast(n) || !FeedsConverted(blocked, nodes, n.outputs[0]) then Leave
    else if n.outputs[0] !in outputs && FeedsOnlyConverted(blocked, nodes, n.outputs[0]) then Retype
    else Split
  }

  function Renamed(n: Node, out: Name): Node {
    n.(inputs := seq(|n.inputs|, k requires 0 <= k < |n.inputs| =>
      if n.inputs[k] == out then Twin(out) else n.inputs[k]))
  }

  /** Reads of out are moved to its twin in the nodes that are converted and
      read it in the graph given. */
  function Moved(blocked: Blocked, given: seq<Node>, nodes: seq<Node>, out: Name): (r: seq<Node>)
    requires |nodes| == |given|
    ensures |r| == |nodes|
    ensures forall i :: 0 <= i < |nodes| ==> r[i] == nodes[i].(inputs := r[i].inputs)
  {
    seq(|nodes|, i requires 0 <= i < |nodes| =>
      if out in given[i].inputs && Converted(blocked, given[i]) then Renamed(nodes[i], out) else nodes[i])
  }

  /** The cast that makes the twin of n's tensor. */
  function TwinCast(n: Node): Node
    requires CastShaped(n) && n.op == "Cast"
  {
    Node("Cast", Some(FLOAT16), 0, n.inputs, [Twin(n.outputs[0])])
  }

  datatype Work = Work(nodes: seq<Node>, added: seq<(Name, Node)>, retyped: set<Name>, changed: nat)

  ghost predicate AllCastShaped(nodes: seq<Node>) { forall i :: 0 <= i < |nodes| ==> CastShaped(nodes[i]) }

  /** The first i nodes looked at. */
  function Looked(blocked: Blocked, given: seq<Node>, outputs: seq<Name>, i: nat): (w: Work)
    requires i <= |given| && AllCastShaped(given)
    ensures |w.nodes| == |given|
    ensures forall k :: 0 <= k < |given| ==>
      w.nodes[k].op == given[k].op && w.nodes[k].outputs == given[k].outputs && w.nodes[k].attr == given[k].attr
      && |w.nodes[k].inputs| == |given[k].inputs|
    ensures forall k :: 0 <= k < |given| && !Converted(blocked, given[k]) ==> w.nodes[k].inputs == given[k].inputs
  {
    if i == 0 then Work(given, [], {}, 0)
    else
      var w, n := Looked(blocked, given, outputs, i - 1), given[i - 1];
      match KindOf(blocked, given, outputs, n)
      case Leave => w
      case Retype =>
        w.(nodes := w.nodes[i - 1 := w.nodes[i - 1].(to := Some(FLOAT16))], retyped := w.retyped + {n.outputs[0]},
           changed := w.changed + 1)
      case Split =>
        w.(nodes := Moved(blocked, given, w.nodes, n.outputs[0]),
           added := w.added + [(n.outputs[0], TwinCast(n))], changed := w.changed + 1)
  }

  /** The first node that makes x, or the end. */
  function FirstMaker(nodes: seq<Node>, x: Name): (i: nat)
    ensures i <= |nodes|
    ensures i < |nodes| ==> x in nodes[i].outputs
    ensures forall j :: 0 <= j < i ==> x !in nodes[j].outputs
  {
    if nodes == [] || x in nodes[0].outputs then 0 else 1 + FirstMaker(nodes[1..], x)
  }

  function Inserted(nodes: seq<Node>, added: seq<(Name, Node)>): seq<Node> {
    if added == [] then nodes
    else
      var before := Inserted(nodes, added[..|added| - 1]);
      var at := FirstMaker(before, added[|added| - 1].0);
      if at == |before| then before else before[..at + 1] + [added[|added| - 1].1] + before[at + 1..]
  }

  /** The graph after the pass, its consumers of each tensor told from the
      graph given. */
  function Retyped(blocked: Blocked, nodes: seq<Node>, outputs: seq<Name>): seq<Node>
    requires AllCastShaped(nodes)
  {
    var w := Looked(blocked, nodes, outputs, |nodes|);
    Inserted(w.nodes, w.added)
  }

  // ---- The pass ----

  /** The nodes of `given` that read x, a node once for each time it does. */
  ghost predicate UsersOf(given: seq<Node>, upto: nat, x: Name, users: seq<nat>)
    requires upto <= |given|
  {
    && (forall u :: u in users ==> u < upto && x in given[u].inputs)
    && (forall i :: 0 <= i < upto && x in given[i].inputs ==> i in users)
  }

  ghost predicate ConsumersOf(given: seq<Node>, upto: nat, consumers: map<Name, seq<nat>>)
    requires upto <= |given|
  {
    forall x :: UsersOf(given, upto, x, UsersIn(consumers, x))
  }

  function UsersIn(consumers: map<Name, seq<nat>>, x: Name): seq<nat> {
    if x in consumers then consumers[x] else []
  }

  class Model {
    var nodes: seq<Node>
    var outputs: seq<Name>
    var valueInfo: seq<(Name, int)>

    constructor (nodes: seq<Node>, outputs: seq<Name>, valueInfo: seq<(Name, int)>)
      ensures this.nodes == nodes && this.outputs == outputs && this.valueInfo == valueInfo
    {
      this.nodes, this.outputs, this.valueInfo := nodes, outputs, valueInfo;
    }

    method Consumers() returns (consumers: map<Name, seq<nat>>)
      ensures ConsumersOf(nodes, |nodes|, consumers)
    {
      hide UsersOf;
      consumers := map[];
      NoUsersYet(nodes);
      for i := 0 to |nodes|
        invariant ConsumersOf(nodes, i, consumers)
      {
        ghost var before := consumers;
        for k := 0 to |nodes[i].inputs|
          invariant forall x :: if x in nodes[i].inputs[..k] then UsersOf(nodes, i + 1, x, UsersIn(consumers, x))
            else UsersIn(consumers, x) == UsersIn(before, x)
        {
          var name := nodes[i].inputs[k];
          assert name in nodes[i].inputs && nodes[i].inputs[..k + 1] == nodes[i].inputs[..k] + [name];
          UserAdded(nodes, i, name, UsersIn(consumers, name));
          consumers := consumers[name := UsersIn(consumers, name) + [i]];
        }
        assert nodes[i].inputs[..|nodes[i].inputs|] == nodes[i].inputs;
        forall x: Name
          ensures UsersOf(nodes, i + 1, x, UsersIn(consumers, x))
        {
          NotAUser(nodes, i, x, UsersIn(before, x));
        }
      }
    }

    /** Moves the reads of out in the users to its twin, in place. */
    method Move(f16: seq<nat>, out: Name, ghost given: seq<Node>, ghost blocked: Blocked)
      requires |given| == |nodes|
      requires forall i :: 0 <= i < |given| ==> (i in f16 <==> out in given[i].inputs && Converted(blocked, given[i]))
      requires forall u :: u in f16 ==> u < |nodes|
      modifies this`nodes
      ensures nodes == Moved(blocked, given, old(nodes), out)
    {
      ghost var was := nodes;
      for j := 0 to |f16|
        invariant |nodes| == |was|
        invariant forall i :: 0 <= i < |was| ==> nodes[i] == if i in f16[..j] then Renamed(was[i], out) else was[i]
      {
        var u := f16[j];
        assert u in f16;
        var n := nodes[u];
        for k := 0 to |n.inputs|
          invariant |n.inputs| == |nodes[u].inputs| && n.(inputs := nodes[u].inputs) == nodes[u]
          invariant forall m :: 0 <= m < k ==>
            n.inputs[m] == if nodes[u].inputs[m] == out then Twin(out) else nodes[u].inputs[m]
          invariant forall m :: k <= m < |n.inputs| ==> n.inputs[m] == nodes[u].inputs[m]
        {
          if n.inputs[k] == out {
            n := n.(inputs := n.inputs[k := Twin(out)]);
          }
        }
        assert n.inputs == Renamed(nodes[u], out).inputs;
        RenamedTwice(was[u], out);
        assert f16[..j + 1] == f16[..j] + [u];
        nodes := nodes[u := n];
      }
      assert f16[..|f16|] == f16;
    }

    method RetypeFloatCasts(blocked: Blocked) returns (changed: nat)
      requires AllCastShaped(nodes)
      modifies this`nodes, this`valueInfo
      ensures nodes == Retyped(blocked, old(nodes), outputs)
      ensures changed == Looked(blocked, old(nodes), outputs, |old(nodes)|).changed
      ensures |valueInfo| == |old(valueInfo)|
      ensures forall v :: 0 <= v < |valueInfo| ==>
        valueInfo[v] == if old(valueInfo)[v].0 in Looked(blocked, old(nodes), outputs, |old(nodes)|).retyped
                        then (old(valueInfo)[v].0, FLOAT16) else old(valueInfo)[v]
    {
      hide UsersOf, Looked;
      ghost var given, info := nodes, valueInfo;
      var consumers := Consumers();
      changed := 0;
      var added: seq<(Name, Node)> := [];
      LookedNone(blocked, given, outputs);
      for i := 0 to |nodes|
        invariant LookedAt(blocked, given, info, i, added, changed)
      {
        added, changed := Look(i, consumers, added, changed, blocked, given, info);
      }
      Insert(added);
    }

    /** After the first i nodes. */
    ghost predicate LookedAt(blocked: Blocked, given: seq<Node>, info: seq<(Name, int)>, i: nat,
                             added: seq<(Name, Node)>, changed: nat)
      requires i <= |given| && AllCastShaped(given)
      reads this
    {
      var w := Looked(blocked, given, outputs, i);
      && w == Work(nodes, added, w.retyped, changed)
      && (forall k :: i <= k < |given| ==> nodes[k].to == given[k].to)
      && |valueInfo| == |info|
      && forall v :: 0 <= v < |info| ==>
        valueInfo[v] == if info[v].0 in w.retyped then (info[v].0, FLOAT16) else info[v]
    }

    /** Node i looked at. */
    method Look(i: nat, consumers: map<Name, seq<nat>>, added: seq<(Name, Node)>, changed: nat, blocked: Blocked,
                ghost given: seq<Node>, ghost info: seq<(Name, int)>)
      returns (added': seq<(Name, Node)>, changed': nat)
      requires i < |given| && AllCastShaped(given) && LookedAt(blocked, given, info, i, added, changed)
      requires ConsumersOf(given, |given|, consumers)
      modifies this`nodes, this`valueInfo
      ensures LookedAt(blocked, given, info, i + 1, added', changed')
    {
      hide UsersOf, FeedsConverted, FeedsOnlyConverted, Moved;
      var n := nodes[i];
      assert CastShaped(given[i]) && n.op == given[i].op && n.to == given[i].to && n.outputs == given[i].outputs;
      added', changed' := added, changed;
      if n.op != "Cast" || n.to != Some(FLOAT) {
        return;
      }
      var out := n.outputs[0];
      var users := UsersIn(consumers, out);
      var f16 := ConvertedOf(blocked, users, out, given);
      UsersTell(blocked, given, out, users, f16);
      if f16 == [] {
        return;
      }
      changed' := changed + 1;
      if out !in outputs && |f16| == |users| {
        nodes := nodes[i := n.(to := Some(FLOAT16))];
        RetypeInfo(out);
      } else {
        assert [n.inputs[0]] == n.inputs;
        added' := added + [(out, Node("Cast", Some(FLOAT16), 0, [n.inputs[0]], [Twin(out)]))];
        Move(f16, out, given, blocked);
      }
    }

    method ConvertedOf(blocked: Blocked, users: seq<nat>, out: Name, ghost given: seq<Node>) returns (f16: seq<nat>)
      requires UsersOf(given, |given|, out, users) && |nodes| == |given|
      requires forall k :: 0 <= k < |given| ==> nodes[k].op == given[k].op
      ensures |f16| <= |users|
      ensures forall u :: u in f16 <==> u in users && u < |given| && Converted(blocked, given[u])
      ensures |f16| == |users| <==> forall u :: u in users ==> u < |given| && Converted(blocked, given[u])
    {
      f16 := [];
      for j := 0 to |users|
        invariant |f16| <= j
        invariant forall u :: u in f16 <==> u in users[..j] && u < |given| && Converted(blocked, given[u])
        invariant |f16| == j ==> forall k :: 0 <= k < j ==> users[k] < |given| && Converted(blocked, given[users[k]])
        invariant |f16| < j ==> exists k :: 0 <= k < j && users[k] < |given| && !Converted(blocked, given[users[k]])
      {
        assert users[..j + 1] == users[..j] + [users[j]];
        assert users[j] in users;
        if Converted(blocked, nodes[users[j]]) {
          f16 := f16 + [users[j]];
        }
      }
      assert users[..|users|] == users;
    }

    method RetypeInfo(out: Name)
      modifies this`valueInfo
      ensures |valueInfo| == |old(valueInfo)|
      ensures forall v :: 0 <= v < |valueInfo| ==>
        valueInfo[v] == if old(valueInfo)[v].0 == out then (out, FLOAT16) else old(valueInfo)[v]
    {
      for v := 0 to |valueInfo|
        invariant |valueInfo| == |old(valueInfo)|
        invariant forall w :: 0 <= w < v ==>
          valueInfo[w] == if old(valueInfo)[w].0 == out then (out, FLOAT16) else old(valueInfo)[w]
        invariant forall w :: v <= w < |valueInfo| ==> valueInfo[w] == old(valueInfo)[w]
      {
        if valueInfo[v].0 == out {
          valueInfo := valueInfo[v := (out, FLOAT16)];
        }
      }
    }

    /** Each added cast, after the node that makes what it is the twin of. */
    method Insert(added: seq<(Name, Node)>)
      modifies this`nodes
      ensures nodes == Inserted(old(nodes), added)
    {
      for j := 0 to |added|
        invariant nodes == Inserted(old(nodes), added[..j])
      {
        assert added[..j + 1][..j] == added[..j];
        var at := FirstMaker(nodes, added[j].0);
        if at < |nodes| {
          nodes := nodes[..at + 1] + [added[j].1] + nodes[at + 1..];
        }
      }
      assert added[..|added|] == added;
    }
  }

  lemma LookedNone(blocked: Blocked, given: seq<Node>, outputs: seq<Name>)
    requires AllCastShaped(given)
    ensures Looked(blocked, given, outputs, 0) == Work(given, [], {}, 0)
  {
  }

  lemma NoUsersYet(given: seq<Node>)
    ensures forall x :: UsersOf(given, 0, x, [])
  {
  }

  lemma UserAdded(given: seq<Node>, i: nat, x: Name, users: seq<nat>)
    requires i < |given| && x in given[i].inputs
    requires UsersOf(given, i, x, users) || UsersOf(given, i + 1, x, users)
    ensures UsersOf(given, i + 1, x, users + [i])
  {
  }

  lemma NotAUser(given: seq<Node>, i: nat, x: Name, users: seq<nat>)
    requires i < |given| && UsersOf(given, i, x, users)
    ensures x !in given[i].inputs ==> UsersOf(given, i + 1, x, users)
  {
  }

  lemma RenamedTwice(n: Node, out: Name)
    ensures Renamed(Renamed(n, out), out) == Renamed(n, out)
  {
    assert |Twin(out)| > |out|;
    assert Renamed(Renamed(n, out), out).inputs == Renamed(n, out).inputs;
  }

  lemma UsersTell(blocked: Blocked, given: seq<Node>, out: Name, users: seq<nat>, f16: seq<nat>)
    requires UsersOf(given, |given|, out, users)
    requires forall u :: u in f16 <==> u in users && u < |given| && Converted(blocked, given[u])
    ensures f16 == [] <==> !FeedsConverted(blocked, given, out)
    ensures (forall u :: u in users ==> u < |given| && Converted(blocked, given[u])) <==>
      FeedsOnlyConverted(blocked, given, out)
    ensures forall i :: 0 <= i < |given| ==> (i in f16 <==> out in given[i].inputs && Converted(blocked, given[i]))
    ensures forall u :: u in f16 ==> u < |given|
  {
    if f16 != [] {
      assert f16[0] in f16;
    }
  }
}
