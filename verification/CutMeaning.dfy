/** The cut graph, fed the word rows and the bias the export computes, gives
    the export's outputs. */
module CutMeaning {
  import opened OnnxGraph
  import opened GraphPrune
  import opened CutEmbeddings

  /** An export as it is cut: its nodes and initializers, the names of its
      inputs, the two tensors it is cut at, and the constants its token
      inputs become. */
  datatype Export<V> = Export(
    nodes: seq<Node>, inits: seq<Init<V>>, inputs: seq<Name>, outputs: seq<Name>, word: Name, bias: Name,
    ones: V, zeros: V)
  {
    ghost function GivenNames(): set<Name> {
      (set x | x in inputs) + (set t | t in inits :: t.name)
    }

    /** An ONNX graph: each tensor made once, read after it is made; and the
        cut's own names are not taken. */
    ghost predicate Sound() {
      && Unique(nodes, GivenNames()) && Ordered(nodes, GivenNames())
      && Fresh(WORD_ROWS) && Fresh(ATTN_BIAS)
    }

    /** ... that has the token inputs, none of them a constant. */
    ghost predicate Valid() {
      && Sound()
      && IDS in inputs && MASK in inputs
      && forall x :: IsToken(x) ==> !Given(inits, x)
    }

    ghost predicate Fresh(x: Name) {
      x !in GivenNames() && !Made(nodes, x)
    }

    function Tokens(): seq<Init<V>> { TokenInits(inputs, ones, zeros) }

    function IsToken(x: Name): bool { x in inputs && x in TOKENS }

    function CutNodes(): seq<Node> { AllRenamed(nodes, word, bias) }
  }

  /** Every tensor of the export, on a feed. */
  function Run<V>(f: Ops<V>, g: Export<V>, feed: Env<V>): Env<V> {
    Eval(f, g.nodes, Start(feed, g.inits))
  }

  /** The export's tensors, with the cut's inputs as what they stand for. */
  function Both<V>(g: Export<V>, run: Env<V>): Env<V>
    requires g.word in run && g.bias in run
  {
    run[WORD_ROWS := run[g.word]][ATTN_BIAS := run[g.bias]]
  }

  /** ... and the token inputs as the cut's constants. */
  function Folded<V>(g: Export<V>, run: Env<V>): Env<V>
    requires g.word in run && g.bias in run
  {
    Start(Both(g, run), g.Tokens())
  }

  /** The token inputs reach the outputs only through the word rows and the
      bias: a node the cut keeps computes the same from the constants as from
      the tokens fed. It holds when no kept node reads a token input, and
      also of one that takes only a token input's shape. */
  ghost predicate OnlyThroughTheCut<V>(f: Ops<V>, g: Export<V>, run: Env<V>, live: set<Name>)
    requires g.word in run && g.bias in run
  {
    forall n, k :: n in g.CutNodes() && Feeds(n, live) && 0 <= k < |n.outputs| ==>
      Apply(f, n, Gather(Folded(g, run), n.inputs), k) == Apply(f, n, Gather(Both(g, run), n.inputs), k)
  }

  /** The feed of the cut: the export's without the tokens, with the values of
      the two tensors. */
  function CutFeed<V>(g: Export<V>, feed: Env<V>, run: Env<V>): Env<V>
    requires g.word in run && g.bias in run
  {
    (feed - {IDS, MASK, TYPES})[WORD_ROWS := run[g.word]][ATTN_BIAS := run[g.bias]]
  }

  // ---- Names ----

  lemma {:induction false} StartHas<V>(feed: Env<V>, inits: seq<Init<V>>, x: Name)
    ensures (forall i :: 0 <= i < |inits| ==> inits[i].name != x) ==> Lookup(Start(feed, inits), x) == Lookup(feed, x)
  {
    if inits != [] {
      StartHas(feed, inits[..|inits| - 1], x);
      assert forall i :: 0 <= i < |inits| - 1 ==> inits[..|inits| - 1][i] == inits[i];
    }
  }

  /** A name the initializers give has their value, over any feed. */
  lemma {:induction false} StartFixes<V>(feed: Env<V>, feed': Env<V>, inits: seq<Init<V>>, x: Name)
    requires (exists i :: 0 <= i < |inits| && inits[i].name == x) || Lookup(feed, x) == Lookup(feed', x)
    ensures Lookup(Start(feed, inits), x) == Lookup(Start(feed', inits), x)
  {
    if inits != [] {
      var m := |inits| - 1;
      if inits[m].name != x {
        if i :| 0 <= i < |inits| && inits[i].name == x {
          assert inits[..m][i].name == x;
        }
        StartFixes(feed, feed', inits[..m], x);
      }
    }
  }

  lemma {:induction false} StartConcat<V>(feed: Env<V>, a: seq<Init<V>>, b: seq<Init<V>>)
    ensures Start(feed, a + b) == Start(Start(feed, a), b)
  {
    if b == [] {
      assert a + b == a;
    } else {
      var m := |b| - 1;
      assert (a + b)[..|a| + m] == a + b[..m];
      StartConcat(feed, a, b[..m]);
    }
  }

  lemma TokenNames<V>(g: Export<V>, x: Name)
    requires g.Valid()
    ensures (exists i :: 0 <= i < |g.Tokens()| && g.Tokens()[i].name == x) <==> g.IsToken(x)
  {
    var t := g.Tokens();
    assert t[0].name == IDS && t[1].name == MASK;
    assert TYPES in g.inputs ==> |t| == 3 && t[2].name == TYPES;
    assert TYPES !in g.inputs ==> |t| == 2;
    assert x in TOKENS <==> x == IDS || x == MASK || x == TYPES;
  }

  // ---- Proof ----

  /** The cut graph's own start, before any node of it runs. */
  function CutStart<V>(g: Export<V>, feed: Env<V>, run: Env<V>): Env<V>
    requires g.word in run && g.bias in run
  {
    Start(CutFeed(g, feed, run), g.inits + g.Tokens())
  }

  lemma NotGiven<V>(g: Export<V>, x: Name)
    requires g.Valid() && x !in g.GivenNames()
    ensures forall i :: 0 <= i < |g.inits| ==> g.inits[i].name != x
  {
    assert forall i :: 0 <= i < |g.inits| ==> g.inits[i] in g.inits;
  }

  lemma StartsAlike<V>(f: Ops<V>, g: Export<V>, feed: Env<V>, x: Name)
    requires g.Valid() && feed.Keys == set y | y in g.inputs
    requires g.word in Run(f, g, feed) && g.bias in Run(f, g, feed)
    requires !g.IsToken(x) && !Made(g.nodes, x)
    ensures var run := Run(f, g, feed);
      Lookup(CutStart(g, feed, run), x) == Lookup(Both(g, run), x)
  {
    hide Unique, Ordered;
    var run := Run(f, g, feed);
    var cf := CutFeed(g, feed, run);
    StartConcat(cf, g.inits, g.Tokens());
    TokenNames(g, x);
    StartHas(Start(cf, g.inits), g.Tokens(), x);
    if x == WORD_ROWS || x == ATTN_BIAS {
      NotGiven(g, x);
      StartHas(cf, g.inits, x);
      assert WORD_ROWS != ATTN_BIAS;
    } else {
      assert x in TOKENS <==> x == IDS || x == MASK || x == TYPES;
      StartFixes(cf, feed, g.inits, x);
      EvalKeeps(f, g.nodes, Start(feed, g.inits), x);
    }
  }

  /** A node's renamed reads see the cut tensors as the export has them. */
  lemma RenamedReads<V>(g: Export<V>, run: Env<V>, n: Node)
    requires g.Valid() && g.word in run && g.bias in run && g.word != "" && g.bias != ""
    requires WORD_ROWS !in n.inputs && ATTN_BIAS !in n.inputs
    ensures Gather(Both(g, run), Renamed(n, g.word, g.bias).inputs) == Gather(run, n.inputs)
  {
    hide Unique, Ordered;
    var n' := Renamed(n, g.word, g.bias);
    forall i | 0 <= i < |n.inputs|
      ensures Lookup(Both(g, run), n'.inputs[i]) == Lookup(run, n.inputs[i])
    {
      assert n.inputs[i] in n.inputs;
      assert WORD_ROWS != ATTN_BIAS;
    }
  }

  lemma ReadsAreKnown<V>(g: Export<V>, i: nat, x: Name)
    requires g.Valid() && i < |g.nodes| && x in g.nodes[i].inputs && x != ""
    ensures x in g.GivenNames() || Made(g.nodes, x)
    ensures x != WORD_ROWS && x != ATTN_BIAS
  {
    assert x in g.GivenNames() || Made(g.nodes[..i], x);
    if Made(g.nodes[..i], x) {
      var j :| 0 <= j < i && Makes(g.nodes[..i][j], x);
      assert Makes(g.nodes[j], x);
    }
  }

  /** Renaming what nodes read changes nothing they make. */
  lemma RenamedMakes(nodes: seq<Node>, from: Name, bias: Name, given: set<Name>)
    requires Unique(nodes, given)
    ensures Unique(AllRenamed(nodes, from, bias), given)
    ensures forall i, x :: 0 <= i <= |nodes| ==> (Made(nodes[i..], x) <==> Made(AllRenamed(nodes, from, bias)[i..], x))
    ensures forall i, x :: 0 <= i <= |nodes| ==> (Made(nodes[..i], x) <==> Made(AllRenamed(nodes, from, bias)[..i], x))
  {
    var r := AllRenamed(nodes, from, bias);
    assert forall i :: 0 <= i < |nodes| ==> r[i].outputs == nodes[i].outputs;
    assert forall i, x :: 0 <= i < |nodes| ==> Makes(r[i], x) == Makes(nodes[i], x);
    forall i, x | 0 <= i <= |nodes|
      ensures Made(nodes[i..], x) <==> Made(r[i..], x)
      ensures Made(nodes[..i], x) <==> Made(r[..i], x)
    {
      assert forall j :: 0 <= j < |nodes| - i ==> nodes[i..][j] == nodes[i + j] && r[i..][j] == r[i + j];
      assert forall j :: 0 <= j < |nodes| - i ==> Makes(r[i..][j], x) == Makes(nodes[i..][j], x);
      assert forall j :: 0 <= j < i ==> Makes(r[..i][j], x) == Makes(nodes[..i][j], x);
    }
  }

  lemma TokenStands<V>(f: Ops<V>, g: Export<V>, feed: Env<V>, run: Env<V>, k: nat, x: Name)
    requires g.Valid() && k <= |g.nodes| && g.word in run && g.bias in run && g.IsToken(x)
    ensures Lookup(Eval(f, g.CutNodes()[..k], CutStart(g, feed, run)), x) == Lookup(Folded(g, run), x)
  {
    RenamedMakes(g.nodes, g.word, g.bias, g.GivenNames());
    TokenIsNotMade(g, k, x);
    EvalKeeps(f, g.CutNodes()[..k], CutStart(g, feed, run), x);
    StartConcat(CutFeed(g, feed, run), g.inits, g.Tokens());
    TokenNames(g, x);
    StartFixes(Start(CutFeed(g, feed, run), g.inits), Both(g, run), g.Tokens(), x);
  }

  lemma TokenIsNotMade<V>(g: Export<V>, k: nat, x: Name)
    requires g.Valid() && k <= |g.nodes| && g.IsToken(x)
    ensures !Made(g.CutNodes()[..k], x)
  {
    var r := g.CutNodes();
    assert x in g.GivenNames();
    forall j | 0 <= j < k
      ensures !Makes(r[..k][j], x)
    {
      assert r[..k][j].outputs == g.nodes[j].outputs;
    }
  }

  lemma NotTokenStands<V>(g: Export<V>, run: Env<V>, x: Name)
    requires g.Valid() && g.word in run && g.bias in run && !g.IsToken(x)
    ensures Lookup(Folded(g, run), x) == Lookup(Both(g, run), x)
  {
    TokenNames(g, x);
    StartHas(Both(g, run), g.Tokens(), x);
  }

  /** A live tensor settled in the cut graph's first k nodes. */
  ghost predicate Settled<V>(g: Export<V>, live: set<Name>, k: nat, x: Name)
    requires k <= |g.nodes|
  {
    x in live && !g.IsToken(x) && !Made(g.nodes[k..], x)
  }

  lemma {:induction false} CutAgrees<V>(f: Ops<V>, g: Export<V>, feed: Env<V>, live: set<Name>, k: nat)
    requires g.Valid() && feed.Keys == (set y | y in g.inputs) && k <= |g.nodes|
    requires g.word in Run(f, g, feed) && g.bias in Run(f, g, feed) && g.word != "" && g.bias != ""
    requires IsLive(g.CutNodes(), g.outputs, live)
    requires OnlyThroughTheCut(f, g, Run(f, g, feed), live)
    ensures var run := Run(f, g, feed);
      forall x :: Settled(g, live, k, x) ==>
        Lookup(Eval(f, g.CutNodes()[..k], CutStart(g, feed, run)), x) == Lookup(Both(g, run), x)
  {
    hide Unique, Ordered, IsLive, Step, Start;
    var run := Run(f, g, feed);
    var cut, start := g.CutNodes(), CutStart(g, feed, run);
    if k == 0 {
      assert cut[..0] == [] && g.nodes[0..] == g.nodes;
      forall x | Settled(g, live, 0, x)
        ensures Lookup(start, x) == Lookup(Both(g, run), x)
      {
        StartsAlike(f, g, feed, x);
      }
      return;
    }
    CutAgrees(f, g, feed, live, k - 1);
    var n, n' := g.nodes[k - 1], cut[k - 1];
    assert cut[..k] == cut[..k - 1] + [n'];
    EvalStep(f, cut[..k - 1], n', start);
    forall x | Settled(g, live, k, x)
      ensures Lookup(Eval(f, cut[..k], start), x) == Lookup(Both(g, run), x)
    {
      if x in n.outputs {
        MadeByACutNode(f, g, feed, live, k - 1, x);
      } else {
        NotMadeByIt(g, k - 1, x);
        StepKeeps(f, n', Eval(f, cut[..k - 1], start), x);
      }
    }
  }

  lemma NotMadeByIt<V>(g: Export<V>, i: nat, x: Name)
    requires i < |g.nodes| && x !in g.nodes[i].outputs && !Made(g.nodes[i + 1..], x)
    ensures !Made(g.nodes[i..], x)
  {
    forall j | 0 <= j < |g.nodes[i..]|
      ensures !Makes(g.nodes[i..][j], x)
    {
      if j > 0 {
        assert g.nodes[i + 1..][j - 1] == g.nodes[i..][j];
      }
    }
  }

  /** The step: a kept node of the cut makes what the export's node made. */
  lemma MadeByACutNode<V>(f: Ops<V>, g: Export<V>, feed: Env<V>, live: set<Name>, i: nat, x: Name)
    requires g.Valid() && feed.Keys == (set y | y in g.inputs) && i < |g.nodes|
    requires g.word in Run(f, g, feed) && g.bias in Run(f, g, feed) && g.word != "" && g.bias != ""
    requires IsLive(g.CutNodes(), g.outputs, live)
    requires OnlyThroughTheCut(f, g, Run(f, g, feed), live)
    requires x in live && x in g.nodes[i].outputs && !Made(g.nodes[i + 1..], x)
    requires var run := Run(f, g, feed);
      forall y :: Settled(g, live, i, y) ==>
        Lookup(Eval(f, g.CutNodes()[..i], CutStart(g, feed, run)), y) == Lookup(Both(g, run), y)
    ensures var run := Run(f, g, feed);
      Lookup(Step(f, g.CutNodes()[i], Eval(f, g.CutNodes()[..i], CutStart(g, feed, run))), x) == Lookup(Both(g, run), x)
  {
    hide Unique, Ordered, IsLive, Step, Start, OnlyThroughTheCut, Both, Folded, CutStart;
    var run, given := Run(f, g, feed), g.GivenNames();
    var cut, start, env := g.CutNodes(), CutStart(g, feed, run), Start(feed, g.inits);
    var n, n' := g.nodes[i], cut[i];
    var e, e' := Eval(f, g.nodes[..i], env), Eval(f, cut[..i], start);
    RenamedMakes(g.nodes, g.word, g.bias, given);
    assert x in n'.outputs && Feeds(n', live);
    KeptReadsLive(cut, g.outputs, given, live, i);
    forall j | 0 <= j < |n'.inputs|
      ensures Lookup(e', n'.inputs[j]) == Lookup(Folded(g, run), n'.inputs[j])
    {
      CutReads(f, g, feed, live, i, j);
    }
    assert Gather(e', n'.inputs) == Gather(Folded(g, run), n'.inputs);
    InputsStand(f, g.nodes, given, env, i);
    NoFreshReads(g, i);
    RenamedReads(g, run, n);
    SameFromTheConstants(f, g, run, live, i);
    StepAgrees(f, n', n, e', e, x);
    assert g.nodes[..i + 1] == g.nodes[..i] + [n];
    EvalStep(f, g.nodes[..i], n, env);
    ValueStands(f, g.nodes, env, i + 1, x);
    MadeIsNotFresh(g, run, i, x);
  }

  lemma SameFromTheConstants<V>(f: Ops<V>, g: Export<V>, run: Env<V>, live: set<Name>, i: nat)
    requires g.word in run && g.bias in run && i < |g.nodes| && Feeds(g.CutNodes()[i], live)
    requires OnlyThroughTheCut(f, g, run, live)
    ensures var n' := g.CutNodes()[i];
      forall k :: 0 <= k < |n'.outputs| ==>
        Apply(f, n', Gather(Folded(g, run), n'.inputs), k) == Apply(f, g.nodes[i], Gather(Both(g, run), n'.inputs), k)
  {
    assert g.CutNodes()[i] in g.CutNodes();
  }

  lemma NoFreshReads<V>(g: Export<V>, i: nat)
    requires g.Valid() && i < |g.nodes|
    ensures WORD_ROWS !in g.nodes[i].inputs && ATTN_BIAS !in g.nodes[i].inputs
  {
    if WORD_ROWS in g.nodes[i].inputs {
      ReadsAreKnown(g, i, WORD_ROWS);
    }
    if ATTN_BIAS in g.nodes[i].inputs {
      ReadsAreKnown(g, i, ATTN_BIAS);
    }
  }

  lemma MadeIsNotFresh<V>(g: Export<V>, run: Env<V>, i: nat, x: Name)
    requires g.Valid() && i < |g.nodes| && x in g.nodes[i].outputs && g.word in run && g.bias in run
    ensures Lookup(Both(g, run), x) == Lookup(run, x)
  {
    if x != "" {
      assert Makes(g.nodes[i], x);
    }
  }

  /** What a kept node of the cut reads: a token's constant, or a tensor the
      export has. */
  lemma CutReads<V>(f: Ops<V>, g: Export<V>, feed: Env<V>, live: set<Name>, i: nat, j: nat)
    requires g.Valid() && i < |g.nodes| && j < |g.CutNodes()[i].inputs|
    requires g.word in Run(f, g, feed) && g.bias in Run(f, g, feed)
    requires Fed(g.CutNodes()[i], live)
    requires var run := Run(f, g, feed);
      forall y :: Settled(g, live, i, y) ==>
        Lookup(Eval(f, g.CutNodes()[..i], CutStart(g, feed, run)), y) == Lookup(Both(g, run), y)
    ensures var run, y := Run(f, g, feed), g.CutNodes()[i].inputs[j];
      Lookup(Eval(f, g.CutNodes()[..i], CutStart(g, feed, run)), y) == Lookup(Folded(g, run), y)
  {
    hide Start, Both, Folded, CutStart;
    var run, n, y := Run(f, g, feed), g.nodes[i], g.CutNodes()[i].inputs[j];
    assert y in g.CutNodes()[i].inputs;
    if y == "" {
      return;
    }
    if g.IsToken(y) {
      TokenStands(f, g, feed, run, i, y);
      return;
    }
    NotTokenStands(g, run, y);
    if y == WORD_ROWS || y == ATTN_BIAS {
      FreshIsNotMade(g, i, y);
    } else {
      assert y == n.inputs[j] && y in n.inputs;
      NotMadeLater(g.nodes, g.GivenNames(), i, y);
    }
    assert Settled(g, live, i, y);
  }

  lemma FreshIsNotMade<V>(g: Export<V>, i: nat, y: Name)
    requires g.Valid() && i <= |g.nodes| && g.Fresh(y)
    ensures !Made(g.nodes[i..], y)
  {
    forall j | 0 <= j < |g.nodes[i..]|
      ensures !Makes(g.nodes[i..][j], y)
    {
      assert g.nodes[i..][j] == g.nodes[i + j];
    }
  }

  /** For every feed on which the token inputs reach the outputs only through
      the word rows and the bias, the cut and pruned graph, fed the two
      tensors' values, gives the export's outputs. */
  lemma CutGivesTheExportsOutputs<V(!new)>(f: Ops<V>, g: Export<V>, feed: Env<V>, live: set<Name>)
    requires g.Valid() && feed.Keys == set y | y in g.inputs
    requires g.word in Run(f, g, feed) && g.bias in Run(f, g, feed) && g.word != "" && g.bias != ""
    requires IsLive(g.CutNodes(), g.outputs, live)
    requires OnlyThroughTheCut(f, g, Run(f, g, feed), live)
    requires forall o :: o in g.outputs ==> !g.IsToken(o) && o != WORD_ROWS && o != ATTN_BIAS
    ensures var run := Run(f, g, feed);
      var cut := Eval(f, Kept(g.CutNodes(), live),
                      Start(CutFeed(g, feed, run), KeptInits(g.inits + g.Tokens(), live)));
      Gather(cut, g.outputs) == Gather(run, g.outputs)
  {
    hide Unique, Ordered, IsLive, Start, OnlyThroughTheCut, Kept, KeptInits;
    var run, given := Run(f, g, feed), g.GivenNames();
    var nodes := g.CutNodes();
    RenamedMakes(g.nodes, g.word, g.bias, given);
    PrunePreservesOutputs(f, nodes, g.inits + g.Tokens(), g.outputs, given, live, CutFeed(g, feed, run));
    CutAgrees(f, g, feed, live, |g.nodes|);
    assert nodes[..|g.nodes|] == nodes && g.nodes[|g.nodes|..] == [];
    var e := Eval(f, nodes, CutStart(g, feed, run));
    OutputsAreLive(nodes, g.outputs, live);
    forall i | 0 <= i < |g.outputs|
      ensures Lookup(e, g.outputs[i]) == Lookup(run, g.outputs[i])
    {
      assert g.outputs[i] in g.outputs;
      if g.outputs[i] != "" {
        assert Settled(g, live, |g.nodes|, g.outputs[i]);
      }
    }
  }

  lemma OutputsAreLive(nodes: seq<Node>, outputs: seq<Name>, live: set<Name>)
    requires IsLive(nodes, outputs, live)
    ensures forall o :: o in outputs && o != "" ==> o in live
  {
  }

  /** When no kept node reads a token input, no feed is left out. */
  lemma NoTokenRead<V>(f: Ops<V>, g: Export<V>, run: Env<V>, live: set<Name>)
    requires g.Valid() && g.word in run && g.bias in run
    requires forall n, x :: n in g.CutNodes() && Feeds(n, live) && x in n.inputs ==> !g.IsToken(x)
    ensures OnlyThroughTheCut(f, g, run, live)
  {
    hide Folded, Both;
    forall n | n in g.CutNodes() && Feeds(n, live)
      ensures Gather(Folded(g, run), n.inputs) == Gather(Both(g, run), n.inputs)
    {
      forall i | 0 <= i < |n.inputs|
        ensures Lookup(Folded(g, run), n.inputs[i]) == Lookup(Both(g, run), n.inputs[i])
      {
        assert n.inputs[i] in n.inputs;
        NotTokenStands(g, run, n.inputs[i]);
      }
    }
  }

  /** Every node the cut keeps still has what it reads: a given tensor, which
      is kept, one of the two new inputs, or one made before it. */
  lemma CutLeavesNothingDangling<V(!new)>(g: Export<V>, live: set<Name>)
    requires g.Valid() && IsLive(g.CutNodes(), g.outputs, live)
    ensures Ordered(Kept(g.CutNodes(), live), (g.GivenNames() + {WORD_ROWS, ATTN_BIAS}) * live)
  {
    hide IsLive, Kept;
    var cut, given := g.CutNodes(), g.GivenNames() + {WORD_ROWS, ATTN_BIAS};
    RenamedMakes(g.nodes, g.word, g.bias, g.GivenNames());
    assert Unique(cut, given) by {
      forall i, x | 0 <= i < |cut| && Makes(cut[i], x)
        ensures x !in given
      {
        assert Makes(g.nodes[i], x);
      }
    }
    forall i, x | 0 <= i < |cut| && x in cut[i].inputs && x != ""
      ensures x in given || Made(cut[..i], x)
    {
      if x != WORD_ROWS && x != ATTN_BIAS {
        assert x in g.nodes[i].inputs;
      }
    }
    KeptIsOrdered<V>(cut, g.outputs, given, live);
  }

  // ---- What the method leaves ----

  lemma {:induction false} EvalHas<V>(f: Ops<V>, nodes: seq<Node>, env: Env<V>, x: Name)
    requires x in env || exists i :: 0 <= i < |nodes| && x in nodes[i].outputs
    ensures x in Eval(f, nodes, env)
  {
    if nodes != [] {
      var m := |nodes| - 1;
      var n, e := nodes[m], Eval(f, nodes[..m], env);
      assert n.outputs[..|n.outputs|] == n.outputs;
      if !(x in n.outputs) {
        assert forall i :: 0 <= i < m ==> nodes[..m][i] == nodes[i];
        EvalHas(f, nodes[..m], env, x);
      }
      BindHas(f, n, Gather(e, n.inputs), |n.outputs|, e, x);
    }
  }

  lemma {:induction false} BindHas<V>(f: Ops<V>, n: Node, ins: seq<Option<V>>, k: nat, env: Env<V>, x: Name)
    requires k <= |n.outputs| && (x in env || x in n.outputs[..k])
    ensures x in Bind(f, n, ins, k, env)
  {
    if k > 0 {
      assert n.outputs[..k] == n.outputs[..k - 1] + [n.outputs[k - 1]];
      if x != n.outputs[k - 1] {
        BindHas(f, n, ins, k - 1, env, x);
      }
    }
  }

  lemma {:induction false} StartGives<V>(feed: Env<V>, inits: seq<Init<V>>, x: Name)
    requires x in feed || exists t :: t in inits && t.name == x
    ensures x in Start(feed, inits)
  {
    if inits != [] {
      var m := |inits| - 1;
      if inits[m].name != x {
        assert inits == inits[..m] + [inits[m]];
        StartGives(feed, inits[..m], x);
      }
    }
  }

  /** The bias is a tensor some node reads. */
  lemma BiasIsRead(nodes: seq<Node>, n: Node, bias: Name)
    requires Adds(nodes, n, bias)
    ensures exists i :: 0 <= i < |nodes| && bias in nodes[i].inputs
  {
    var p, k :| LastMaker(nodes, n.inputs[0], p) && nodes[p].op == "Add" && ScoresAndBias(nodes, nodes[p], k, bias);
    assert bias in nodes[p].inputs;
  }

  /** Each tensor read has a value. */
  lemma ReadIsComputed<V>(f: Ops<V>, g: Export<V>, feed: Env<V>, i: nat, x: Name)
    requires g.Sound() && feed.Keys == (set y | y in g.inputs) && i < |g.nodes| && x in g.nodes[i].inputs && x != ""
    ensures x in Run(f, g, feed)
  {
    hide Unique;
    if x in g.GivenNames() {
      StartGives(feed, g.inits, x);
    } else {
      var j :| 0 <= j < i && Makes(g.nodes[..i][j], x);
      assert x in g.nodes[j].outputs;
    }
    EvalHas(f, g.nodes, Start(feed, g.inits), x);
  }

  /** The exports and feeds the theorem is about. */
  ghost predicate Ordinary<V>(g: Export<V>, feed: Env<V>) {
    && g.Sound() && g.word != "" && g.bias != "" && feed.Keys == (set y | y in g.inputs)
    && forall o :: o in g.outputs ==> !g.IsToken(o) && o != WORD_ROWS && o != ATTN_BIAS
  }

  /** The two tensors the export is cut at are among those it computes. */
  ghost predicate Computed<V>(f: Ops<V>, g: Export<V>, feed: Env<V>) {
    g.word in Run(f, g, feed) && g.bias in Run(f, g, feed)
  }

  lemma TheTwoAreComputed<V>(f: Ops<V>, g: Export<V>, feed: Env<V>, word: Node, softmax: Node)
    requires Ordinary(g, feed)
    requires word in g.nodes && |word.outputs| > 0 && word.outputs[0] == g.word
      && Adds(g.nodes, softmax, g.bias)
    ensures Computed(f, g, feed)
  {
    hide Adds, Run;
    assert Run(f, g, feed) == Eval(f, g.nodes, Start(feed, g.inits)) by {
      RunIs(f, g, feed);
    }
    var k :| 0 <= k < |g.nodes| && g.nodes[k] == word;
    assert g.word in g.nodes[k].outputs;
    EvalHas(f, g.nodes, Start(feed, g.inits), g.word);
    BiasIsRead(g.nodes, softmax, g.bias);
    var i :| 0 <= i < |g.nodes| && g.bias in g.nodes[i].inputs;
    ReadIsComputed(f, g, feed, i, g.bias);
  }

  lemma RunIs<V>(f: Ops<V>, g: Export<V>, feed: Env<V>)
    ensures Run(f, g, feed) == Eval(f, g.nodes, Start(feed, g.inits))
  {
  }

  lemma FoldableIsValid<V>(g: Export<V>)
    requires g.Sound() && forall x :: x in TOKENS ==> Foldable(g.inputs, g.inits, x)
    ensures g.Valid()
  {
    TheTokens();
    assert IDS != TYPES && MASK != TYPES;
    assert Foldable(g.inputs, g.inits, IDS) && Foldable(g.inputs, g.inits, MASK);
  }

  /** A graph of these nodes and initializers gives the export's outputs, fed
      the two tensors' values. */
  ghost predicate GivesItsOutputs<V>(f: Ops<V>, g: Export<V>, feed: Env<V>, nodes: seq<Node>, inits: seq<Init<V>>)
    requires Computed(f, g, feed)
  {
    var run := Run(f, g, feed);
    Gather(Eval(f, nodes, Start(CutFeed(g, feed, run), inits)), g.outputs) == Gather(run, g.outputs)
  }

  /** What is left of an export that was cut gives the export's outputs, for
      any operators and any feed. */
  method CutExport<V(!new)>(g: Graph<V>, ones: V, zeros: V, rank: V -> nat, ghost f: Ops<V>, ghost feed: Env<V>)
    returns (r: Result<V>, ghost e: Export<V>, ghost live: set<Name>)
    requires forall n :: n in g.nodes ==> |n.outputs| > 0
    modifies g
    ensures r.Ok? <==> Cuttable(old(g.nodes), old(g.inits), old(g.inputs), rank)
    ensures e.(word := "", bias := "") ==
      Export(old(g.nodes), old(g.inits), old(g.inputs), old(g.outputs), "", "", ones, zeros)
    ensures r.Ok? ==>
      && (exists i :: Sole(e.nodes, ReadsIds, i) && |e.nodes[i].outputs| > 0 && e.word == e.nodes[i].outputs[0])
      && AllAdd(e.nodes, e.bias)
      && IsLive(e.CutNodes(), e.outputs, live)
      && g.outputs == old(g.outputs) && g.inputs == InputsLeft(old(g.inputs)) + [WORD_ROWS, ATTN_BIAS]
    ensures r.Ok? && Ordinary(e, feed) ==> Ordered(g.nodes, (e.GivenNames() + {WORD_ROWS, ATTN_BIAS}) * live)
    ensures r.Ok? && Ordinary(e, feed) ==>
      && Computed(f, e, feed)
      && (OnlyThroughTheCut(f, e, Run(f, e, feed), live) ==>
            GivesItsOutputs(f, e, feed, g.nodes, g.inits))
  {
    hide Adds, Kept, KeptInits, IsLive, OnlyThroughTheCut, Unique, Ordered, TokenInits, AllRenamed, InputsLeft;
    e := Export(g.nodes, g.inits, g.inputs, g.outputs, "", "", ones, zeros);
    ghost var word, bias;
    r, word, bias, live := Cut(g, ones, zeros, rank);
    if r.Ok? {
      e := e.(word := word.outputs[0], bias := bias);
      if Ordinary(e, feed) {
        ghost var n :| n in e.nodes && n.op == "Softmax";
        TheTwoAreComputed(f, e, feed, word, n);
        FoldableIsValid(e);
        CutLeavesNothingDangling(e, live);
        if OnlyThroughTheCut(f, e, Run(f, e, feed), live) {
          CutGivesTheExportsOutputs(f, e, feed, live);
        }
      }
    }
  }
}
