/** bundle/reference/onnx_to_openvino_ir.py's cut_embeddings: an export cut at
    its word rows and its attention bias, which become its inputs. */
module CutEmbeddings {
  import opened OnnxGraph
  import opened GraphPrune

  datatype Result<T> = Ok(value: T) | Refused(why: Why)

  datatype Why =
    | NotOneWordGather(count: nat) | NoTable | TableRank | NoSoftmax | NoAdd | NotOneBias | BiasesDiffer
    | NoInput(name: Name) | AlreadyGiven(name: Name)

  const IDS := "input_ids"
  const MASK := "attention_mask"
  const TYPES := "token_type_ids"
  const TOKENS: seq<Name> := [IDS, MASK, TYPES]
  const WORD_ROWS := "word_rows"
  const ATTN_BIAS := "attn_bias"

  // ---- The word Gather and the bias ----

  /** The names and operators, spelt out. */
  lemma TheWords(n: Node)
    ensures IDS == "input_ids" && MASK == "attention_mask" && TYPES == "token_type_ids"
    ensures WORD_ROWS == "word_rows" && ATTN_BIAS == "attn_bias" && TOKENS == [IDS, MASK, TYPES]
    ensures ReadsIds(n) <==> n.op == "Gather" && |n.inputs| > 1 && n.inputs[1] == "input_ids"
    ensures IsSoftmax(n) <==> n.op == "Softmax"
  {
  }

  predicate ReadsIds(n: Node) { n.op == "Gather" && |n.inputs| > 1 && n.inputs[1] == IDS }

  /** The nodes that satisfy p, in order. */
  function Those(nodes: seq<Node>, p: Node -> bool): (r: seq<Node>)
    ensures forall n :: n in r <==> n in nodes && p(n)
  {
    if nodes == [] then []
    else
      var m := |nodes| - 1;
      Those(nodes[..m], p) + (if p(nodes[m]) then [nodes[m]] else [])
  }

  /** Node i alone satisfies p. */
  ghost predicate Sole(nodes: seq<Node>, p: Node -> bool, i: int) {
    0 <= i < |nodes| && p(nodes[i]) && forall j :: 0 <= j < |nodes| && p(nodes[j]) ==> j == i
  }

  /** One node is found just when there is just one. */
  lemma {:induction false} OneOfThose(nodes: seq<Node>, p: Node -> bool)
    ensures |Those(nodes, p)| == 1 <==> exists i :: Sole(nodes, p, i)
    ensures |Those(nodes, p)| == 0 <==> forall i :: 0 <= i < |nodes| ==> !p(nodes[i])
    ensures forall i :: Sole(nodes, p, i) ==> Those(nodes, p) == [nodes[i]]
  {
    if nodes != [] {
      var m := |nodes| - 1;
      OneOfThose(nodes[..m], p);
      if p(nodes[m]) {
        if |Those(nodes[..m], p)| == 0 {
          assert Sole(nodes, p, m);
        }
        forall i | Sole(nodes, p, i)
          ensures i == m
        {
        }
        forall i | Sole(nodes[..m], p, i)
          ensures nodes[i] == nodes[..m][i]
        {
        }
      } else {
        forall i
          ensures Sole(nodes, p, i) <==> Sole(nodes[..m], p, i)
        {
        }
      }
    }
  }

  /** The Gather on input_ids, found just when there is just one. */
  function WordGather(nodes: seq<Node>): (r: Result<Node>)
    ensures r.Ok? <==> exists i :: Sole(nodes, ReadsIds, i)
    ensures r.Ok? ==> exists i :: Sole(nodes, ReadsIds, i) && r.value == nodes[i]
    ensures r.Refused? ==> r.why == NotOneWordGather(|Those(nodes, ReadsIds)|)
  {
    var found := Those(nodes, ReadsIds);
    OneOfThose(nodes, ReadsIds);
    if |found| == 1 then Ok(found[0]) else Refused(NotOneWordGather(|found|))
  }

  predicate IsScore(nodes: seq<Node>, x: Name) {
    Producer(nodes, x) >= 0 && nodes[Producer(nodes, x)].op == "MatMul"
  }

  function Scores(nodes: seq<Node>, xs: seq<Name>): seq<Name> {
    if xs == [] then [] else (if IsScore(nodes, xs[0]) then [xs[0]] else []) + Scores(nodes, xs[1..])
  }

  function Without(xs: seq<Name>, scores: seq<Name>): seq<Name> {
    if xs == [] then [] else (if xs[0] !in scores then [xs[0]] else []) + Without(xs[1..], scores)
  }

  /** What the Softmax adds to its scores. */
  function BiasOf(nodes: seq<Node>, softmax: Node): Result<Name> {
    var p := if |softmax.inputs| > 0 then Producer(nodes, softmax.inputs[0]) else -1;
    if p < 0 || nodes[p].op != "Add" then Refused(NoAdd)
    else
      var add := nodes[p];
      var scores := Scores(nodes, add.inputs);
      var others := Without(add.inputs, scores);
      if |scores| != 1 || |others| != 1 then Refused(NotOneBias) else Ok(others[0])
  }

  predicate IsSoftmax(n: Node) { n.op == "Softmax" }

  /** Node p is the last that makes x. */
  predicate LastMaker(nodes: seq<Node>, x: Name, p: int) {
    0 <= p < |nodes| && x in nodes[p].outputs && forall q :: p < q < |nodes| ==> x !in nodes[q].outputs
  }

  ghost predicate MadeBy(nodes: seq<Node>, x: Name, op: string) {
    exists p :: LastMaker(nodes, x, p) && nodes[p].op == op
  }

  /** The Add reads two tensors: at k scores, and at the other place b. */
  ghost predicate ScoresAndBias(nodes: seq<Node>, add: Node, k: nat, b: Name) {
    && |add.inputs| == 2 && k < 2 && add.inputs[1 - k] == b
    && MadeBy(nodes, add.inputs[k], "MatMul") && !MadeBy(nodes, b, "MatMul")
  }

  /** What the node reads first is an Add of a MatMul's scores and b. */
  ghost predicate Adds(nodes: seq<Node>, n: Node, b: Name) {
    |n.inputs| > 0
    && exists p, k :: LastMaker(nodes, n.inputs[0], p) && nodes[p].op == "Add" && ScoresAndBias(nodes, nodes[p], k, b)
  }

  lemma ProducerIsLast(nodes: seq<Node>, x: Name)
    ensures forall p :: LastMaker(nodes, x, p) <==> p >= 0 && p == Producer(nodes, x)
  {
  }

  lemma ScoreIsMadeByMatMul(nodes: seq<Node>, x: Name)
    ensures IsScore(nodes, x) <==> MadeBy(nodes, x, "MatMul")
  {
    ProducerIsLast(nodes, x);
  }

  /** The scores and the others of a list of two, and of a longer one. */
  lemma {:induction false} ScoresAre(nodes: seq<Node>, xs: seq<Name>)
    ensures forall x :: x in Scores(nodes, xs) <==> x in xs && IsScore(nodes, x)
    ensures |Scores(nodes, xs)| <= |xs|
  {
    if xs != [] {
      assert xs == [xs[0]] + xs[1..];
      ScoresAre(nodes, xs[1..]);
    }
  }

  lemma {:induction false} OthersAre(nodes: seq<Node>, xs: seq<Name>, scores: seq<Name>)
    requires forall x :: x in xs ==> (x in scores <==> IsScore(nodes, x))
    ensures |Without(xs, scores)| + |Scores(nodes, xs)| == |xs|
    ensures forall x :: x in Without(xs, scores) <==> x in xs && !IsScore(nodes, x)
  {
    if xs != [] {
      assert xs == [xs[0]] + xs[1..];
      OthersAre(nodes, xs[1..], scores);
    }
  }

  lemma BiasOfAnAdd(nodes: seq<Node>, add: Node, b: Name)
    ensures var scores := Scores(nodes, add.inputs);
      var others := Without(add.inputs, scores);
      (|scores| == 1 && |others| == 1 && others[0] == b) <==> exists k :: ScoresAndBias(nodes, add, k, b)
  {
    hide MadeBy, IsScore;
    var xs, scores := add.inputs, Scores(nodes, add.inputs);
    var others := Without(xs, scores);
    ScoresAre(nodes, xs);
    OthersAre(nodes, xs, scores);
    forall x
      ensures IsScore(nodes, x) <==> MadeBy(nodes, x, "MatMul")
    {
      ScoreIsMadeByMatMul(nodes, x);
    }
    if |scores| == 1 && |others| == 1 && others[0] == b {
      assert |xs| == 2 && scores[0] in scores && others[0] in others;
      assert ScoresAndBias(nodes, add, if xs[0] == scores[0] then 0 else 1, b);
    }
    if k: nat :| ScoresAndBias(nodes, add, k, b) {
      assert xs == [xs[0], xs[1]] && xs[1..] == [xs[1]];
      assert Scores(nodes, xs) == [xs[k]];
      assert others[0] in others;
    }
  }

  /** BiasOf finds what the Softmax adds, and refuses it as it should. */
  lemma BiasIs(nodes: seq<Node>, n: Node, b: Name)
    ensures BiasOf(nodes, n) == Ok(b) <==> Adds(nodes, n, b)
    ensures BiasOf(nodes, n) == Refused(NoAdd) <==> !(|n.inputs| > 0 && MadeBy(nodes, n.inputs[0], "Add"))
    ensures BiasOf(nodes, n).Refused? ==> BiasOf(nodes, n).why == NoAdd || BiasOf(nodes, n).why == NotOneBias
  {
    hide Scores, Without, ScoresAndBias, LastMaker;
    if |n.inputs| > 0 {
      ProducerIsLast(nodes, n.inputs[0]);
      var p := Producer(nodes, n.inputs[0]);
      if p >= 0 {
        BiasOfAnAdd(nodes, nodes[p], b);
      }
    }
  }

  /** A Softmax adds one tensor at most. */
  lemma AddsOne(nodes: seq<Node>, n: Node, b: Name, c: Name)
    requires Adds(nodes, n, b) && Adds(nodes, n, c)
    ensures b == c
  {
    hide Adds, BiasOf;
    BiasIs(nodes, n, b);
    BiasIs(nodes, n, c);
  }

  /** There is a Softmax, and all of them add the same tensor. */
  ghost predicate OneBias(nodes: seq<Node>) {
    && (exists n :: n in nodes && n.op == "Softmax")
    && exists b :: AllAdd(nodes, b)
  }

  ghost predicate AllAdd(nodes: seq<Node>, b: Name) {
    forall n :: n in nodes && n.op == "Softmax" ==> Adds(nodes, n, b)
  }

  /** Why no bias is found. */
  ghost predicate NoBiasFor(why: Why, nodes: seq<Node>) {
    match why
    case NoSoftmax => forall n :: n in nodes ==> n.op != "Softmax"
    case BiasesDiffer =>
      exists n, m, b, c :: n in nodes && n.op == "Softmax" && m in nodes && m.op == "Softmax"
        && Adds(nodes, n, b) && Adds(nodes, m, c) && b != c
    case NoAdd =>
      exists n :: n in nodes && n.op == "Softmax" && !(|n.inputs| > 0 && MadeBy(nodes, n.inputs[0], "Add"))
    case NotOneBias =>
      exists n :: n in nodes && n.op == "Softmax" && |n.inputs| > 0 && MadeBy(nodes, n.inputs[0], "Add")
        && forall b :: !Adds(nodes, n, b)
    case _ => false
  }

  lemma BiasIsRefused(nodes: seq<Node>, n: Node)
    requires n in nodes && IsSoftmax(n) && BiasOf(nodes, n).Refused?
    ensures !OneBias(nodes) && NoBiasFor(BiasOf(nodes, n).why, nodes)
  {
    hide BiasOf, Adds, MadeBy;
    forall b
      ensures !Adds(nodes, n, b)
    {
      BiasIs(nodes, n, b);
    }
    BiasIs(nodes, n, "");
  }

  lemma BiasesAreTwo(nodes: seq<Node>, n: Node, m: Node)
    requires n in nodes && IsSoftmax(n) && BiasOf(nodes, n).Ok?
    requires m in nodes && IsSoftmax(m) && BiasOf(nodes, m).Ok? && BiasOf(nodes, n) != BiasOf(nodes, m)
    ensures !OneBias(nodes) && NoBiasFor(BiasesDiffer, nodes)
  {
    hide BiasOf, Adds, MadeBy;
    BiasIs(nodes, n, BiasOf(nodes, n).value);
    BiasIs(nodes, m, BiasOf(nodes, m).value);
    if b :| AllAdd(nodes, b) {
      AddsOne(nodes, n, b, BiasOf(nodes, n).value);
      AddsOne(nodes, m, b, BiasOf(nodes, m).value);
    }
  }

  /** The attention bias: found exactly when there is a Softmax and all of
      them add the same tensor. */
  method AttentionBias(nodes: seq<Node>) returns (r: Result<Name>)
    ensures r.Ok? <==> OneBias(nodes)
    ensures r.Ok? ==> AllAdd(nodes, r.value)
    ensures r.Refused? ==> NoBiasFor(r.why, nodes)
  {
    hide BiasOf, OneBias, NoBiasFor, AllAdd;
    var biases: set<Name> := {};
    var softmaxes := Those(nodes, IsSoftmax);
    if softmaxes == [] {
      NothingAdds(nodes);
      return Refused(NoSoftmax);
    }
    assert softmaxes[0] in softmaxes;
    for i := 0 to |softmaxes|
      invariant forall j :: 0 <= j < i ==>
        BiasOf(nodes, softmaxes[j]).Ok? && BiasOf(nodes, softmaxes[j]).value in biases
      invariant forall b :: b in biases ==> exists j :: 0 <= j < i && BiasOf(nodes, softmaxes[j]) == Ok(b)
    {
      assert softmaxes[i] in softmaxes;
      var b := BiasOf(nodes, softmaxes[i]);
      if b.Refused? {
        BiasIsRefused(nodes, softmaxes[i]);
        return Refused(b.why);
      }
      biases := biases + {b.value};
    }
    var b := BiasOf(nodes, softmaxes[0]).value;
    if biases != {b} {
      assert b in biases;
      var c :| c in biases && c != b;
      ghost var j :| 0 <= j < |softmaxes| && BiasOf(nodes, softmaxes[j]) == Ok(c);
      assert softmaxes[j] in softmaxes;
      BiasesAreTwo(nodes, softmaxes[0], softmaxes[j]);
      return Refused(BiasesDiffer);
    }
    r := Ok(b);
    assert forall n :: n in nodes && IsSoftmax(n) ==> n in softmaxes;
    AllOfThem(nodes, softmaxes[0], b);
  }

  lemma NothingAdds(nodes: seq<Node>)
    requires Those(nodes, IsSoftmax) == []
    ensures !OneBias(nodes) && NoBiasFor(NoSoftmax, nodes)
  {
    assert forall n :: n in nodes && IsSoftmax(n) ==> n in Those(nodes, IsSoftmax);
  }

  lemma AllOfThem(nodes: seq<Node>, n: Node, b: Name)
    requires n in nodes && IsSoftmax(n) && forall m :: m in nodes && IsSoftmax(m) ==> BiasOf(nodes, m) == Ok(b)
    ensures OneBias(nodes) && AllAdd(nodes, b)
  {
    hide BiasOf, Adds;
    forall m | m in nodes && IsSoftmax(m)
      ensures Adds(nodes, m, b)
    {
      BiasIs(nodes, m, b);
    }
    assert AllAdd(nodes, b);
  }

  // ---- The cut ----

  function Renamed(n: Node, from: Name, bias: Name): Node {
    n.(inputs := seq(|n.inputs|, i requires 0 <= i < |n.inputs| => NewName(n.inputs[i], from, bias)))
  }

  function NewName(x: Name, from: Name, bias: Name): Name {
    if x == from then WORD_ROWS else if x == bias then ATTN_BIAS else x
  }

  function AllRenamed(nodes: seq<Node>, from: Name, bias: Name): (r: seq<Node>)
    ensures |r| == |nodes|
  {
    seq(|nodes|, i requires 0 <= i < |nodes| => Renamed(nodes[i], from, bias))
  }

  function WithoutFirst(xs: seq<Name>, x: Name): seq<Name> {
    if xs == [] then [] else if xs[0] == x then xs[1..] else [xs[0]] + WithoutFirst(xs[1..], x)
  }

  /** The token inputs as constants: every token kept, and the rest zero. */
  function TokenInits<V>(inputs: seq<Name>, ones: V, zeros: V): seq<Init<V>> {
    [Init(IDS, zeros), Init(MASK, ones)] + (if TYPES in inputs then [Init(TYPES, zeros)] else [])
  }

  function InputsLeft(inputs: seq<Name>): seq<Name> {
    var two := WithoutFirst(WithoutFirst(inputs, IDS), MASK);
    if TYPES in inputs then WithoutFirst(two, TYPES) else two
  }

  /** The mask becomes ones and the other token inputs zeros, and no input
      that is not a token goes. */
  lemma TokensBecome<V>(inputs: seq<Name>, ones: V, zeros: V)
    ensures forall t :: t in TokenInits(inputs, ones, zeros) <==>
      || t == Init("attention_mask", ones)
      || t == Init("input_ids", zeros)
      || (t == Init("token_type_ids", zeros) && "token_type_ids" in inputs)
    ensures NoneTwice(inputs) ==>
      forall x :: x in InputsLeft(inputs) <==>
        x in inputs && x != "input_ids" && x != "attention_mask" && x != "token_type_ids"
  {
    TheTokens();
    if NoneTwice(inputs) {
      var one := WithoutFirst(inputs, IDS);
      WithoutIts(inputs, IDS);
      WithoutIts(one, MASK);
      StillThere(inputs, IDS, TYPES);
      StillThere(one, MASK, TYPES);
      if TYPES in inputs {
        WithoutIts(WithoutFirst(one, MASK), TYPES);
      }
    }
  }

  ghost predicate NoneTwice(xs: seq<Name>) {
    forall i, j :: 0 <= i < j < |xs| ==> xs[i] != xs[j]
  }

  lemma {:induction false} WithoutIts(xs: seq<Name>, x: Name)
    requires NoneTwice(xs)
    ensures NoneTwice(WithoutFirst(xs, x))
    ensures forall y :: y in WithoutFirst(xs, x) <==> y in xs && y != x
  {
    if xs != [] {
      assert xs == [xs[0]] + xs[1..] && NoneTwice(xs[1..]);
      assert xs[0] !in xs[1..];
      if xs[0] != x {
        WithoutIts(xs[1..], x);
        var rest := WithoutFirst(xs[1..], x);
        assert forall i :: 0 <= i < |rest| ==> rest[i] in rest && rest[i] != xs[0];
      }
    }
  }

  /** Only the first of the name goes, and the rest stay in their order. */
  lemma {:induction false} OnlyTheFirstGoes(xs: seq<Name>, x: Name) returns (k: nat)
    ensures k <= |xs| && (k < |xs| <==> x in xs) && x !in xs[..k]
    ensures WithoutFirst(xs, x) == if k < |xs| then xs[..k] + xs[k + 1..] else xs
    ensures k < |xs| ==> xs[k] == x
  {
    k := 0;
    if xs != [] && xs[0] != x {
      var rest := OnlyTheFirstGoes(xs[1..], x);
      k := 1 + rest;
      assert xs == [xs[0]] + xs[1..] && xs[..k] == [xs[0]] + xs[1..][..rest];
      if k < |xs| {
        assert xs[k + 1..] == xs[1..][rest + 1..];
      }
    }
  }

  predicate Given<V>(inits: seq<Init<V>>, x: Name) { exists i :: 0 <= i < |inits| && inits[i].name == x }

  lemma {:induction false} StillThere(xs: seq<Name>, x: Name, y: Name)
    requires x != y
    ensures y in WithoutFirst(xs, x) <==> y in xs
  {
    if xs != [] && xs[0] != x {
      StillThere(xs[1..], x, y);
      assert xs == [xs[0]] + xs[1..];
    }
  }

  /** Initializer i is the first of the name. */
  predicate First<V>(inits: seq<Init<V>>, x: Name, i: int) {
    0 <= i < |inits| && inits[i].name == x && forall j :: 0 <= j < i ==> inits[j].name != x
  }

  /** The initializer of the name, the first of it. */
  method FindInit<V>(inits: seq<Init<V>>, x: Name) returns (t: Option<Init<V>>)
    ensures t.Some? <==> Given(inits, x)
    ensures t.Some? ==> exists i :: First(inits, x, i) && inits[i] == t.value
  {
    for i := 0 to |inits|
      invariant forall j :: 0 <= j < i ==> inits[j].name != x
    {
      if inits[i].name == x {
        assert First(inits, x, i);
        return Some(inits[i]);
      }
    }
    t := None;
  }

  /** A token input can be made a constant: it is there, and is none yet. */
  predicate Foldable<V>(inputs: seq<Name>, inits: seq<Init<V>>, name: Name) {
    if name in inputs then !Given(inits, name) else name == TYPES
  }

  /** Why a token input cannot be made a constant. */
  predicate NotFoldableFor<V>(why: Why, inputs: seq<Name>, inits: seq<Init<V>>) {
    match why
    case NoInput(name) => name in [IDS, MASK] && name !in inputs
    case AlreadyGiven(name) => name in TOKENS && name in inputs && Given(inits, name)
    case _ => false
  }

  /** One token input made a constant. */
  method Fold<V(!new)>(g: Graph<V>, name: Name, value: V) returns (why: Option<Why>)
    modifies g`inputs, g`inits
    ensures why.None? <==> Foldable(old(g.inputs), old(g.inits), name)
    ensures why.Some? ==> why.value == if name in old(g.inputs) then AlreadyGiven(name) else NoInput(name)
    ensures why.None? && name in old(g.inputs) ==>
      g.inputs == WithoutFirst(old(g.inputs), name) && g.inits == old(g.inits) + [Init(name, value)]
    ensures name !in old(g.inputs) ==> g.inputs == old(g.inputs) && g.inits == old(g.inits)
  {
    if name !in g.inputs {
      return if name == TYPES then None else Some(NoInput(name));
    }
    var t := FindInit(g.inits, name);
    if t.Some? {
      return Some(AlreadyGiven(name));
    }
    g.inputs := WithoutFirst(g.inputs, name);
    g.inits := g.inits + [Init(name, value)];
    why := None;
  }

  /** The table a Gather reads is an initializer of rank 2. */
  ghost predicate HasTable<V>(n: Node, inits: seq<Init<V>>, rank: V -> nat) {
    |n.inputs| > 0 && exists i :: First(inits, n.inputs[0], i) && rank(inits[i].value) == 2
  }

  /** The exports that can be cut. */
  ghost predicate Cuttable<V>(nodes: seq<Node>, inits: seq<Init<V>>, inputs: seq<Name>, rank: V -> nat) {
    && (exists i :: Sole(nodes, ReadsIds, i) && HasTable(nodes[i], inits, rank))
    && OneBias(nodes)
    && forall x :: x in TOKENS ==> Foldable(inputs, inits, x)
  }

  /** Why an export is refused. */
  ghost predicate RefusedFor<V>(why: Why, nodes: seq<Node>, inits: seq<Init<V>>, inputs: seq<Name>, rank: V -> nat) {
    match why
    case NotOneWordGather(count) => count == |Those(nodes, ReadsIds)| && !exists i :: Sole(nodes, ReadsIds, i)
    case NoTable => exists i :: Sole(nodes, ReadsIds, i) && !Given(inits, nodes[i].inputs[0])
    case TableRank =>
      exists i :: Sole(nodes, ReadsIds, i) && Given(inits, nodes[i].inputs[0]) && !HasTable(nodes[i], inits, rank)
    case NoInput(_) => NotFoldableFor(why, inputs, inits)
    case AlreadyGiven(_) => NotFoldableFor(why, inputs, inits)
    case _ => NoBiasFor(why, nodes)
  }

  /** Cuts the graph in place where it can be cut. */
  method Cut<V(!new)>(g: Graph<V>, ones: V, zeros: V, rank: V -> nat)
    returns (r: Result<V>, ghost word: Node, ghost bias: Name, ghost live: set<Name>)
    requires forall n :: n in g.nodes ==> |n.outputs| > 0
    modifies g
    ensures r.Ok? <==> Cuttable(old(g.nodes), old(g.inits), old(g.inputs), rank)
    ensures r.Refused? ==> RefusedFor(r.why, old(g.nodes), old(g.inits), old(g.inputs), rank)
    ensures r.Ok? ==> exists i :: Sole(old(g.nodes), ReadsIds, i) && word == old(g.nodes)[i]
    ensures r.Ok? ==> |word.outputs| > 0
    ensures r.Ok? ==> AllAdd(old(g.nodes), bias)
    ensures r.Ok? ==>
      rank(r.value) == 2 && exists i :: First(old(g.inits), word.inputs[0], i) && old(g.inits)[i].value == r.value
    ensures r.Ok? ==>
      var nodes := AllRenamed(old(g.nodes), word.outputs[0], bias);
      && g.outputs == old(g.outputs)
      && g.inputs == InputsLeft(old(g.inputs)) + [WORD_ROWS, ATTN_BIAS]
      && IsLive(nodes, g.outputs, live)
      && g.nodes == Kept(nodes, live)
      && g.inits == KeptInits(old(g.inits) + TokenInits(old(g.inputs), ones, zeros), live)
  {
    hide IsLive, Kept, KeptInits, AllRenamed, AllAdd, InputsLeft, TokenInits, WordGather, OneBias, NoBiasFor,
      Foldable, ReadsIds;
    word, bias, live := Node("", None, 0, [], []), "", {};
    var gather := WordGather(g.nodes);
    if gather.Refused? {
      return Refused(gather.why), word, bias, live;
    }
    word := gather.value;
    ghost var at :| Sole(g.nodes, ReadsIds, at) && word == g.nodes[at];
    WordReads(word);
    var table := FindInit(g.inits, gather.value.inputs[0]);
    if table.None? {
      return Refused(NoTable), word, bias, live;
    }
    if rank(table.value.value) != 2 {
      return Refused(TableRank), word, bias, live;
    }
    var b := AttentionBias(g.nodes);
    if b.Refused? {
      NoBiasIs(b.why, g.nodes);
      return Refused(b.why), word, bias, live;
    }
    bias := b.value;
    var ok := FoldTokens(g, ones, zeros);
    if ok.Some? {
      return Refused(ok.value), word, bias, live;
    }
    assert g.inputs + [WORD_ROWS] + [ATTN_BIAS] == g.inputs + [WORD_ROWS, ATTN_BIAS];
    g.inputs := g.inputs + [WORD_ROWS] + [ATTN_BIAS];
    RenameInputs(g, gather.value.outputs[0], b.value);
    live := g.Prune();
    r := Ok(table.value.value);
  }

  lemma NoBiasIs(why: Why, nodes: seq<Node>)
    requires NoBiasFor(why, nodes)
    ensures why.NoSoftmax? || why.BiasesDiffer? || why.NoAdd? || why.NotOneBias?
  {
  }

  lemma WordReads(n: Node)
    requires ReadsIds(n)
    ensures |n.inputs| > 1
  {
  }

  lemma TheTokens()
    ensures IDS in TOKENS && MASK in TOKENS && TYPES in TOKENS
    ensures forall x :: x in TOKENS <==> x == IDS || x == MASK || x == TYPES
    ensures IDS != MASK && IDS != TYPES && MASK != TYPES
  {
  }

  /** One more constant gives no other name. */
  lemma StillGiven<V>(inits: seq<Init<V>>, t: Init<V>, x: Name)
    requires t.name != x
    ensures Given(inits + [t], x) <==> Given(inits, x)
  {
    assert forall i :: 0 <= i < |inits| ==> (inits + [t])[i] == inits[i];
  }

  /** Each of the three made a constant, or the first that cannot be. */
  method FoldTokens<V(!new)>(g: Graph<V>, ones: V, zeros: V) returns (why: Option<Why>)
    modifies g`inputs, g`inits
    ensures why.None? <==> forall x :: x in TOKENS ==> Foldable(old(g.inputs), old(g.inits), x)
    ensures why.Some? ==> NotFoldableFor(why.value, old(g.inputs), old(g.inits))
    ensures why.None? ==> g.inputs == InputsLeft(old(g.inputs))
    ensures why.None? ==> g.inits == old(g.inits) + TokenInits(old(g.inputs), ones, zeros)
  {
    hide Given, WithoutFirst;
    ghost var inputs, inits := g.inputs, g.inits;
    TheTokens();
    why := Fold(g, IDS, zeros);
    if why.Some? {
      return;
    }
    StillThere(inputs, IDS, MASK);
    StillThere(inputs, IDS, TYPES);
    StillThere(WithoutFirst(inputs, IDS), MASK, TYPES);
    StillGiven(inits, Init(IDS, zeros), MASK);
    StillGiven(inits, Init(IDS, zeros), TYPES);
    why := Fold(g, MASK, ones);
    if why.Some? {
      return;
    }
    StillGiven(inits + [Init(IDS, zeros)], Init(MASK, ones), TYPES);
    why := Fold(g, TYPES, zeros);
    assert inits + [Init(IDS, zeros)] + [Init(MASK, ones)] == inits + [Init(IDS, zeros), Init(MASK, ones)];
    assert inits + [Init(IDS, zeros), Init(MASK, ones)] + [Init(TYPES, zeros)]
      == inits + ([Init(IDS, zeros), Init(MASK, ones)] + [Init(TYPES, zeros)]);
    assert [Init(IDS, zeros), Init(MASK, ones)] + [] == [Init(IDS, zeros), Init(MASK, ones)];
  }

  /** Rewrites each node's reads of the two tensors, in place. */
  method RenameInputs<V(!new)>(g: Graph<V>, from: Name, bias: Name)
    modifies g`nodes
    ensures g.nodes == AllRenamed(old(g.nodes), from, bias)
  {
    for i := 0 to |g.nodes|
      invariant |g.nodes| == |old(g.nodes)|
      invariant forall j :: 0 <= j < i ==> g.nodes[j] == Renamed(old(g.nodes)[j], from, bias)
      invariant forall j :: i <= j < |g.nodes| ==> g.nodes[j] == old(g.nodes)[j]
    {
      var n := g.nodes[i];
      for k := 0 to |n.inputs|
        invariant |n.inputs| == |old(g.nodes)[i].inputs| && n.(inputs := old(g.nodes)[i].inputs) == old(g.nodes)[i]
        invariant forall j :: 0 <= j < k ==> n.inputs[j] == NewName(old(g.nodes)[i].inputs[j], from, bias)
        invariant forall j :: k <= j < |n.inputs| ==> n.inputs[j] == old(g.nodes)[i].inputs[j]
      {
        if n.inputs[k] == from {
          n := n.(inputs := n.inputs[k := WORD_ROWS]);
        } else if n.inputs[k] == bias {
          n := n.(inputs := n.inputs[k := ATTN_BIAS]);
        }
      }
      assert n.inputs == Renamed(old(g.nodes)[i], from, bias).inputs;
      g.nodes := g.nodes[i := n];
    }
  }
}
