/** The part of Python's syntax tree the checkers look at, the two traversals
    they use (`ast.walk`, breadth first, and `ast.NodeVisitor`, depth-first
    preorder), and the parser as an outside oracle. */
module PyAst {
  import opened PyText

  /** The value of an `ast.Constant`. Python's `bool` is a subclass of `int`;
      here the two are separate constructors. */
  datatype Const =
    | BoolConst(b: bool)
    | IntConst(i: int)
    | FloatConst
    | StrConst(s: string)
    | NoneConst
    | OtherConst

  /** One `name [as asname]` of an import statement. */
  datatype Alias = Alias(name: string, asname: Option<string>)

  /** Syntax-tree nodes. `Other` stands for every node kind the checkers do not
      inspect (Module, Expr, Assign, BinOp, Starred, ...) and keeps its child
      expressions and statements in field order. Expression contexts, operator
      nodes and `alias` nodes are elided: no check ever looks at them. */
  datatype Node =
    | Name(id: string)
    | Attribute(value: Node, attr: string)
    | Call(func: Node, args: seq<Node>, keywords: seq<Node>)
    | Keyword(arg: Option<string>, value: Node)
    | Constant(c: Const)
    | Import(names: seq<Alias>)
    | ImportFrom(fromModule: Option<string>, names: seq<Alias>)
    | Other(children: seq<Node>)

  /** What `ast.parse` gives: a tree, or the text of the SyntaxError. */
  datatype ParseOutcome = Parsed(tree: Node) | SyntaxError(message: string)

  /** `ast.iter_child_nodes`, in field order. */
  function Children(n: Node): seq<Node> {
    match n
    case Attribute(v, _) => [v]
    case Call(f, args, kws) => [f] + args + kws
    case Keyword(_, v) => [v]
    case Other(cs) => cs
    case _ => []
  }

  /** Number of nodes in a tree. */
  function Size(n: Node): (k: nat)
    ensures k >= 1
    decreases n
  {
    match n
    case Attribute(v, _) => 1 + Size(v)
    case Call(f, args, kws) => 1 + Size(f) + ForestSize(args) + ForestSize(kws)
    case Keyword(_, v) => 1 + Size(v)
    case Other(cs) => 1 + ForestSize(cs)
    case _ => 1
  }

  function ForestSize(s: seq<Node>): nat
    decreases s
  {
    if s == [] then 0 else Size(s[0]) + ForestSize(s[1..])
  }

  lemma {:induction false} ForestSizeAppend(a: seq<Node>, b: seq<Node>)
    ensures ForestSize(a + b) == ForestSize(a) + ForestSize(b)
    decreases |a|
  {
    if a != [] {
      assert (a + b)[1..] == a[1..] + b;
      ForestSizeAppend(a[1..], b);
    } else {
      assert a + b == b;
    }
  }

  lemma SizeChildren(n: Node)
    ensures Size(n) == 1 + ForestSize(Children(n))
  {
    match n
    case Call(f, args, kws) =>
      var one: seq<Node> := [f];
      ForestSizeAppend(one + args, kws);
      ForestSizeAppend(one, args);
      assert one[1..] == [];
    case Attribute(v, _) =>
      var one: seq<Node> := [v];
      assert one[1..] == [];
    case Keyword(_, v) =>
      var one: seq<Node> := [v];
      assert one[1..] == [];
    case _ =>
  }

  lemma {:induction false} ForestSizeElem(s: seq<Node>, i: nat)
    requires i < |s|
    ensures Size(s[i]) <= ForestSize(s)
    decreases i
  {
    if i > 0 {
      ForestSizeElem(s[1..], i - 1);
    }
  }

  /** Every child is strictly smaller than its parent. */
  lemma ChildSmaller(n: Node, i: nat)
    requires i < |Children(n)|
    ensures Size(Children(n)[i]) < Size(n)
  {
    SizeChildren(n);
    ForestSizeElem(Children(n), i);
  }

  /** Breadth-first traversal of a work queue: pop the front, push its
      children at the back, yield the popped node. */
  function Bfs(queue: seq<Node>): seq<Node>
    decreases ForestSize(queue)
  {
    if queue == [] then []
    else
      var rest := queue[1..] + Children(queue[0]);
      ForestSizeAppend(queue[1..], Children(queue[0]));
      SizeChildren(queue[0]);
      [queue[0]] + Bfs(rest)
  }

  /** `ast.walk(tree)` */
  function Walk(tree: Node): seq<Node> {
    Bfs([tree])
  }

  /** Depth-first preorder: the order in which `ast.NodeVisitor` reaches nodes. */
  function Preorder(n: Node): seq<Node>
    decreases Size(n), 0
  {
    SizeChildren(n);
    [n] + PreorderForest(Children(n))
  }

  function PreorderForest(s: seq<Node>): seq<Node>
    decreases ForestSize(s), 1
  {
    if s == [] then [] else Preorder(s[0]) + PreorderForest(s[1..])
  }

  lemma {:induction false} PreorderForestAppend(a: seq<Node>, b: seq<Node>)
    ensures PreorderForest(a + b) == PreorderForest(a) + PreorderForest(b)
    decreases |a|
  {
    if a != [] {
      assert (a + b)[1..] == a[1..] + b;
      PreorderForestAppend(a[1..], b);
    } else {
      assert a + b == b;
    }
  }

  /** The breadth-first walk of a queue visits exactly the nodes of the
      queue's trees, each as often as it occurs, only in another order. */
  lemma {:induction false} BfsPermutesPreorder(queue: seq<Node>)
    ensures multiset(Bfs(queue)) == multiset(PreorderForest(queue))
    decreases ForestSize(queue)
  {
    if queue != [] {
      var q0 := queue[0];
      var rest := queue[1..] + Children(q0);
      ForestSizeAppend(queue[1..], Children(q0));
      SizeChildren(q0);
      BfsPermutesPreorder(rest);
      PreorderForestAppend(queue[1..], Children(q0));
      assert Bfs(queue) == [q0] + Bfs(rest);
      assert PreorderForest(queue) == [q0] + PreorderForest(Children(q0)) + PreorderForest(queue[1..]);
    }
  }

  /** `ast.walk` yields every node of the tree (the same multiset of nodes
      as the preorder). */
  lemma WalkPermutesPreorder(tree: Node)
    ensures multiset(Walk(tree)) == multiset(Preorder(tree))
  {
    BfsPermutesPreorder([tree]);
    assert PreorderForest([tree]) == Preorder(tree) + PreorderForest([]);
  }

  lemma WalkContains(tree: Node, d: Node)
    requires d in Preorder(tree)
    ensures d in Walk(tree)
  {
    WalkPermutesPreorder(tree);
    assert d in multiset(Preorder(tree));
  }

  lemma {:induction false} InPreorderForest(s: seq<Node>, x: Node, d: Node)
    requires x in s && d in Preorder(x)
    ensures d in PreorderForest(s)
    decreases |s|
  {
    if s[0] != x {
      InPreorderForest(s[1..], x, d);
    }
  }

  lemma {:induction false} FromPreorderForest(s: seq<Node>, d: Node) returns (x: Node)
    requires d in PreorderForest(s)
    ensures x in s && d in Preorder(x) && Size(x) <= ForestSize(s)
    decreases |s|
  {
    if d in Preorder(s[0]) {
      x := s[0];
    } else {
      x := FromPreorderForest(s[1..], d);
    }
  }

  /** The nodes of a tree are closed under taking children. */
  lemma {:induction false} PreorderClosed(tree: Node, m: Node, c: Node)
    requires m in Preorder(tree) && c in Children(m)
    ensures c in Preorder(tree)
    decreases Size(tree)
  {
    SizeChildren(tree);
    assert c in Preorder(c);
    if m == tree {
      InPreorderForest(Children(tree), c, c);
    } else {
      var x := FromPreorderForest(Children(tree), m);
      PreorderClosed(x, m, c);
      InPreorderForest(Children(tree), x, c);
    }
  }
}
