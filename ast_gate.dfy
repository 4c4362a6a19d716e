/** The import-discipline, symbol and legacy checker of `chrono_ast_gate_v2.py`:
    two walks over the syntax tree, the first judging import statements, the
    second judging bare names, alias-headed attribute chains and calls. */
module AstGate {
  import opened PyText
  import opened PyAst

  /** `PYCHRONO_ROOTS`: each recognised root module and the one alias it must
      be imported under. */
  const Roots: map<string, string> := map[
    "pychrono" := "chrono",
    "pychrono.vehicle" := "veh",
    "pychrono.irrlicht" := "irr",
    "pychrono.fea" := "fea"]

  /** The keys of `Roots` in insertion order, the order in which the alias
      search visits them. */
  const RootOrder: seq<string> := ["pychrono", "pychrono.vehicle", "pychrono.irrlicht", "pychrono.fea"]

  /** `LEGACY_BLOCKLIST` */
  const LegacyBlocklist: set<string> := {
    "ChBodyAuxRef", "ChLinkEngine", "ChSharedPtr", "ChSystemSMC7",
    "ChSystemNSC7", "ChVectorDynamic", "ChMatrix33", "ChShared"}

  /** The allow-list: module path to the symbols it exports. */
  type AllowList = map<string, set<string>>

  /** One finding; `Render` gives the exact message the checker appends. */
  datatype Finding =
    | UseImportAs(base: string, alias: string)
    | StarImport(base: string)
    | DisallowedFromBase(base: string)
    | ImportMustBe(name: string, want: string)
    | DisallowedSubmodule(name: string)
    | LegacyName(id: string)
    | LegacyQualified(mod: string, attr: string)
    | MissingSymbol(mod: string, attr: string)
    | CallToUnknown(mod: string, attr: string)
    | SyntaxErr(message: string)
  {
    /** The findings produced by the first (import) walk. */
    predicate IsImportKind() {
      UseImportAs? || StarImport? || DisallowedFromBase? || ImportMustBe? || DisallowedSubmodule?
    }
  }

  function Render(f: Finding): string {
    match f
    case UseImportAs(b, a) => "Use 'import " + b + " as " + a + "' not 'from " + b + " import ...'"
    case StarImport(b) => "Star import banned: from " + b + " import *"
    case DisallowedFromBase(b) => "Disallowed import-from base: " + b
    case ImportMustBe(n, w) => "Import must be: 'import " + n + " as " + w + "'"
    case DisallowedSubmodule(n) => "Disallowed pychrono submodule: " + n
    case LegacyName(id) => "Legacy symbol disallowed: " + id
    case LegacyQualified(m, a) => "Legacy symbol disallowed: " + m + "." + a
    case MissingSymbol(m, a) => "Missing in 9.0.1: " + m + "." + a
    case CallToUnknown(m, a) => "Call to unknown: " + m + "." + a + "(...)"
    case SyntaxErr(e) => "SyntaxError: " + e
  }

  function Messages(fs: seq<Finding>): (ms: seq<string>)
    ensures |ms| == |fs|
    ensures forall i :: 0 <= i < |fs| ==> ms[i] == Render(fs[i])
  {
    seq(|fs|, i requires 0 <= i < |fs| => Render(fs[i]))
  }

  lemma MessagesAppend(a: seq<Finding>, b: seq<Finding>)
    ensures Messages(a + b) == Messages(a) + Messages(b)
  {
  }

  // ---------------------------------------------------------------------
  // Attribute chains and alias resolution

  /** The dotted chain of an expression: the head name first, then the
      attribute names in source order. A chain whose base is not a Name
      (a call, a subscript, ...) keeps only its attribute names, so in
      `f().chrono.X` the first attribute, `chrono`, becomes the head. */
  function AttrChain(n: Node): (chain: seq<string>)
    ensures n.Name? ==> chain == [n.id]
    ensures n.Attribute? ==> |chain| >= 1 && chain[|chain| - 1] == n.attr
    ensures n.Attribute? && n.value.Name? ==> chain == [n.value.id, n.attr]
    ensures !n.Name? && !n.Attribute? ==> chain == []
    decreases n
  {
    match n
    case Attribute(v, a) => AttrChain(v) + [a]
    case Name(id) => [id]
    case _ => []
  }

  /** `_resolve_attr_chain`: walks down `.value` links, inserting each
      attribute at the front, then the base name if there is one. */
  method ResolveAttrChain(node: Node) returns (out: seq<string>)
    ensures out == AttrChain(node)
  {
    out := [];
    var n := node;
    while n.Attribute?
      invariant AttrChain(node) == AttrChain(n) + out
      decreases n
    {
      out := [n.attr] + out;
      n := n.value;
    }
    if n.Name? {
      out := [n.id] + out;
    }
  }

  function RootWithAliasIn(order: seq<string>, head: string): (mod: Option<string>)
    ensures mod.Some? ==> mod.value in order && mod.value in Roots && Roots[mod.value] == head
    ensures mod.None? ==> forall k :: k in order && k in Roots ==> Roots[k] != head
  {
    if order == [] then None
    else if order[0] in Roots && Roots[order[0]] == head then Some(order[0])
    else RootWithAliasIn(order[1..], head)
  }

  /** The root module whose canonical alias is `head`, if any. */
  function AliasRoot(head: string): (mod: Option<string>)
    ensures mod.Some? ==> mod.value in Roots && Roots[mod.value] == head
    ensures mod.None? ==> forall k :: k in Roots ==> Roots[k] != head
  {
    assert Roots.Keys == set k | k in RootOrder;
    RootWithAliasIn(RootOrder, head)
  }

  /** The root search of `validate`: the first key of `PYCHRONO_ROOTS` whose
      alias is `head`. Aliases are distinct, so the result is the unique root
      aliased `head`. */
  method FindRoot(head: string) returns (mod: Option<string>)
    ensures mod == AliasRoot(head)
  {
    mod := None;
    var i := 0;
    while i < |RootOrder|
      invariant 0 <= i <= |RootOrder|
      invariant mod.None? ==> forall k :: 0 <= k < i ==> Roots[RootOrder[k]] != head
      invariant mod.Some? ==> mod.value in Roots && Roots[mod.value] == head
    {
      if Roots[RootOrder[i]] == head {
        mod := Some(RootOrder[i]);
        break;
      }
      i := i + 1;
    }
    assert Roots.Keys == set k | k in RootOrder;
  }

  // ---------------------------------------------------------------------
  // What each node contributes to the two walks

  /** `n.module or ""` */
  function FromBase(fromModule: Option<string>): string {
    if fromModule.Some? then fromModule.value else ""
  }

  predicate HasStar(names: seq<Alias>) {
    exists k :: 0 <= k < |names| && names[k].name == "*"
  }

  /** The three independent rules for one `from BASE import ...`. */
  function ImportFromFindings(fromModule: Option<string>, names: seq<Alias>): seq<Finding> {
    var base := FromBase(fromModule);
    (if StartsWith(base, "pychrono") && base in Roots then [UseImportAs(base, Roots[base])] else [])
    + (if HasStar(names) then [StarImport(base)] else [])
    + (if StartsWith(base, "pychrono") && base !in Roots then [DisallowedFromBase(base)] else [])
  }

  /** The rule for one `import NAME [as ASNAME]`. */
  function AliasFindings(a: Alias): seq<Finding> {
    if a.name in Roots then
      (if a.asname != Some(Roots[a.name]) then [ImportMustBe(a.name, Roots[a.name])] else [])
    else if StartsWith(a.name, "pychrono") then [DisallowedSubmodule(a.name)]
    else []
  }

  function ImportNamesFindings(names: seq<Alias>): seq<Finding> {
    if names == [] then []
    else ImportNamesFindings(names[..|names| - 1]) + AliasFindings(names[|names| - 1])
  }

  function ImportFindings(n: Node): seq<Finding> {
    match n
    case ImportFrom(m, names) => ImportFromFindings(m, names)
    case Import(names) => ImportNamesFindings(names)
    case _ => []
  }

  /** `attr in allow.get(mod, set())` */
  predicate IsAllowed(allow: AllowList, mod: string, attr: string) {
    mod in allow && attr in allow[mod]
  }

  /** Findings for an Attribute node with the given chain: only `chain[1]`
      of an alias-headed chain is judged, legacy before allow-list. */
  function AttributeChainFindings(chain: seq<string>, allow: AllowList): seq<Finding> {
    if chain == [] then []
    else match AliasRoot(chain[0])
      case None => []
      case Some(mod) =>
        if |chain| < 2 then []
        else if chain[1] in LegacyBlocklist then [LegacyQualified(mod, chain[1])]
        else if !IsAllowed(allow, mod, chain[1]) then [MissingSymbol(mod, chain[1])]
        else []
  }

  /** Findings for a Call node whose callee has the given chain. */
  function CallChainFindings(chain: seq<string>, allow: AllowList): seq<Finding> {
    if chain == [] then []
    else match AliasRoot(chain[0])
      case None => []
      case Some(mod) =>
        if |chain| >= 2 && !IsAllowed(allow, mod, chain[1]) then [CallToUnknown(mod, chain[1])] else []
  }

  function SymbolFindings(n: Node, allow: AllowList): seq<Finding> {
    match n
    case Name(id) => if id in LegacyBlocklist then [LegacyName(id)] else []
    case Attribute(_, _) => AttributeChainFindings(AttrChain(n), allow)
    case Call(f, _, _) => CallChainFindings(AttrChain(f), allow)
    case _ => []
  }

  function ImportPass(nodes: seq<Node>): seq<Finding> {
    if nodes == [] then []
    else ImportPass(nodes[..|nodes| - 1]) + ImportFindings(nodes[|nodes| - 1])
  }

  function SymbolPass(nodes: seq<Node>, allow: AllowList): seq<Finding> {
    if nodes == [] then []
    else SymbolPass(nodes[..|nodes| - 1], allow) + SymbolFindings(nodes[|nodes| - 1], allow)
  }

  /** Everything `validate` reports for a tree that parsed. */
  function GateFindings(tree: Node, allow: AllowList): seq<Finding> {
    ImportPass(Walk(tree)) + SymbolPass(Walk(tree), allow)
  }

  // ---------------------------------------------------------------------
  // validate

  /** The three `from` rules of the first walk, for one `from` import. */
  method ImportFromErrors(fromModule: Option<string>, names: seq<Alias>) returns (errors: seq<string>)
    ensures errors == Messages(ImportFromFindings(fromModule, names))
  {
    var base := FromBase(fromModule);
    ghost var f1: seq<Finding> := if StartsWith(base, "pychrono") && base in Roots then [UseImportAs(base, Roots[base])] else [];
    ghost var f2: seq<Finding> := if HasStar(names) then [StarImport(base)] else [];
    ghost var f3: seq<Finding> := if StartsWith(base, "pychrono") && base !in Roots then [DisallowedFromBase(base)] else [];
    errors := [];
    if StartsWith(base, "pychrono") && base in Roots {
      errors := errors + [Render(UseImportAs(base, Roots[base]))];
    }
    assert errors == Messages(f1);
    if HasStar(names) {
      errors := errors + [Render(StarImport(base))];
    }
    MessagesAppend(f1, f2);
    assert errors == Messages(f1 + f2);
    if StartsWith(base, "pychrono") && base !in Roots {
      errors := errors + [Render(DisallowedFromBase(base))];
    }
    MessagesAppend(f1 + f2, f3);
  }

  lemma ImportNamesStep(names: seq<Alias>, j: nat)
    requires j < |names|
    ensures Messages(ImportNamesFindings(names[..j + 1]))
         == Messages(ImportNamesFindings(names[..j])) + Messages(AliasFindings(names[j]))
  {
    assert names[..j + 1][..j] == names[..j];
    MessagesAppend(ImportNamesFindings(names[..j]), AliasFindings(names[j]));
  }

  /** The rule for one name of an `import`. */
  method AliasErrors(x: Alias) returns (errors: seq<string>)
    ensures errors == Messages(AliasFindings(x))
  {
    errors := [];
    if x.name in Roots {
      var want := Roots[x.name];
      if x.asname != Some(want) {
        errors := [Render(ImportMustBe(x.name, want))];
      }
    } else if StartsWith(x.name, "pychrono") {
      errors := [Render(DisallowedSubmodule(x.name))];
    }
  }

  /** The per-name rule of the first walk, for one `import`. */
  method ImportNamesErrors(names: seq<Alias>) returns (errors: seq<string>)
    ensures errors == Messages(ImportNamesFindings(names))
  {
    errors := [];
    var j := 0;
    while j < |names|
      invariant 0 <= j <= |names|
      invariant errors == Messages(ImportNamesFindings(names[..j]))
    {
      ImportNamesStep(names, j);
      var e := AliasErrors(names[j]);
      errors := errors + e;
      j := j + 1;
    }
    assert names[..|names|] == names;
  }

  /** The body of the first walk for one node: the three `from` rules, or
      the per-name rule for each name of an `import`. */
  method ImportNodeErrors(n: Node) returns (errors: seq<string>)
    ensures errors == Messages(ImportFindings(n))
  {
    errors := [];
    if n.ImportFrom? {
      errors := ImportFromErrors(n.fromModule, n.names);
    }
    if n.Import? {
      errors := ImportNamesErrors(n.names);
    }
  }

  /** The body of the second walk for one node: the legacy check of a bare
      name, the symbol check of an attribute, the call check. */
  method SymbolNodeErrors(n: Node, allow: AllowList) returns (errors: seq<string>)
    ensures errors == Messages(SymbolFindings(n, allow))
  {
    errors := [];
    if n.Name? && n.id in LegacyBlocklist {
      errors := errors + [Render(LegacyName(n.id))];
    }
    if n.Attribute? {
      var chain := ResolveAttrChain(n);
      var mod := FindRoot(chain[0]);
      if mod.Some? && |chain| >= 2 {
        var attr := chain[1];
        if attr in LegacyBlocklist {
          errors := errors + [Render(LegacyQualified(mod.value, attr))];
        } else if !IsAllowed(allow, mod.value, attr) {
          errors := errors + [Render(MissingSymbol(mod.value, attr))];
        }
      }
    }
    if n.Call? {
      var chain := ResolveAttrChain(n.func);
      if chain != [] {
        var mod := FindRoot(chain[0]);
        if mod.Some? && |chain| >= 2 {
          var attr := chain[1];
          if !IsAllowed(allow, mod.value, attr) {
            errors := errors + [Render(CallToUnknown(mod.value, attr))];
          }
        }
      }
    }
  }

  lemma ImportPassStep(nodes: seq<Node>, i: nat)
    requires i < |nodes|
    ensures Messages(ImportPass(nodes[..i + 1]))
         == Messages(ImportPass(nodes[..i])) + Messages(ImportFindings(nodes[i]))
  {
    assert nodes[..i + 1][..i] == nodes[..i];
    MessagesAppend(ImportPass(nodes[..i]), ImportFindings(nodes[i]));
  }

  lemma SymbolPassStep(nodes: seq<Node>, allow: AllowList, i: nat)
    requires i < |nodes|
    ensures Messages(SymbolPass(nodes[..i + 1], allow))
         == Messages(SymbolPass(nodes[..i], allow)) + Messages(SymbolFindings(nodes[i], allow))
  {
    assert nodes[..i + 1][..i] == nodes[..i];
    MessagesAppend(SymbolPass(nodes[..i], allow), SymbolFindings(nodes[i], allow));
  }

  /** The first walk of `validate`: every import statement, in walk order. */
  method ImportWalk(nodes: seq<Node>) returns (errors: seq<string>)
    ensures errors == Messages(ImportPass(nodes))
  {
    errors := [];
    var i := 0;
    while i < |nodes|
      invariant 0 <= i <= |nodes|
      invariant errors == Messages(ImportPass(nodes[..i]))
    {
      ImportPassStep(nodes, i);
      var errs := ImportNodeErrors(nodes[i]);
      errors := errors + errs;
      i := i + 1;
    }
    assert nodes[..|nodes|] == nodes;
  }

  /** The second walk of `validate`: names, attributes and calls, in walk
      order. */
  method SymbolWalk(nodes: seq<Node>, allow: AllowList) returns (errors: seq<string>)
    ensures errors == Messages(SymbolPass(nodes, allow))
  {
    errors := [];
    var i := 0;
    while i < |nodes|
      invariant 0 <= i <= |nodes|
      invariant errors == Messages(SymbolPass(nodes[..i], allow))
    {
      SymbolPassStep(nodes, allow, i);
      var errs := SymbolNodeErrors(nodes[i], allow);
      errors := errors + errs;
      i := i + 1;
    }
    assert nodes[..|nodes|] == nodes;
  }

  /** `validate(code, allow)`, with the parse done by the caller: a syntax
      error alone, or the findings of the import walk followed by those of
      the symbol walk; `ok` exactly when there are none. */
  method Validate(parsed: ParseOutcome, allow: AllowList) returns (ok: bool, errors: seq<string>)
    ensures parsed.SyntaxError? ==> errors == [Render(SyntaxErr(parsed.message))]
    ensures parsed.Parsed? ==> errors == Messages(GateFindings(parsed.tree, allow))
    ensures ok <==> errors == []
  {
    if parsed.SyntaxError? {
      return false, [Render(SyntaxErr(parsed.message))];
    }
    var nodes := Walk(parsed.tree);
    var importErrors := ImportWalk(nodes);
    var symbolErrors := SymbolWalk(nodes, allow);
    MessagesAppend(ImportPass(nodes), SymbolPass(nodes, allow));
    errors := importErrors + symbolErrors;
    ok := |errors| == 0;
  }

  // ---------------------------------------------------------------------
  // Properties

  /** `from BASE import ...`: the wrong-style error exactly for a root, the
      disallowed-base error exactly for a non-root `pychrono*` base, so never
      both; the star error for any star import whatever the base. */
  lemma ImportFromRules(fromModule: Option<string>, names: seq<Alias>)
    ensures var fs := ImportFromFindings(fromModule, names); var base := FromBase(fromModule);
      && (base in Roots ==> UseImportAs(base, Roots[base]) in fs && forall f :: f in fs ==> !f.DisallowedFromBase?)
      && (base !in Roots ==> forall f :: f in fs ==> !f.UseImportAs?)
      && (StartsWith(base, "pychrono") && base !in Roots ==> DisallowedFromBase(base) in fs)
      && (!StartsWith(base, "pychrono") ==> forall f :: f in fs ==> !f.DisallowedFromBase?)
      && (HasStar(names) <==> StarImport(base) in fs)
      && (forall f :: f in fs ==> f.IsImportKind() && f.base == base)
  {
    RootsArePychrono(FromBase(fromModule));
  }

  lemma RootsArePychrono(name: string)
    ensures name in Roots ==> StartsWith(name, "pychrono")
  {
    if name in Roots {
      assert name in RootOrder;
    }
  }

  /** `import NAME [as ASNAME]`: a root must carry exactly its canonical
      alias (so a missing alias is an error too); any other `pychrono*`
      module is a disallowed submodule; anything else passes. */
  lemma ImportRules(a: Alias)
    ensures a.name in Roots && a.asname != Some(Roots[a.name]) ==>
      AliasFindings(a) == [ImportMustBe(a.name, Roots[a.name])]
    ensures a.name in Roots && a.asname == Some(Roots[a.name]) ==> AliasFindings(a) == []
    ensures a.name !in Roots && StartsWith(a.name, "pychrono") ==>
      AliasFindings(a) == [DisallowedSubmodule(a.name)]
    ensures !StartsWith(a.name, "pychrono") ==> AliasFindings(a) == []
  {
    RootsArePychrono(a.name);
  }

  /** `import pychrono.core as chrono` is rejected, and `import pychrono`
      without an alias is too. */
  lemma ImportExamples()
    ensures AliasFindings(Alias("pychrono.core", Some("chrono"))) == [DisallowedSubmodule("pychrono.core")]
    ensures AliasFindings(Alias("pychrono", None)) == [ImportMustBe("pychrono", "chrono")]
    ensures AliasFindings(Alias("pychrono", Some("chrono"))) == []
    ensures AliasFindings(Alias("numpy", None)) == []
  {
    assert "pychrono.core"[..8] == "pychrono";
    assert "numpy" !in Roots;
  }

  /** Only the second element of an alias-headed chain of length two or
      more is judged, a legacy name before the allow-list; chains with any
      other head, and one-element chains, yield nothing. */
  lemma SymbolRules(chain: seq<string>, allow: AllowList)
    ensures chain == [] || AliasRoot(chain[0]).None? || |chain| < 2 ==>
      AttributeChainFindings(chain, allow) == [] && CallChainFindings(chain, allow) == []
    ensures |chain| >= 2 && chain[0] in Roots.Values ==>
      var mod := AliasRoot(chain[0]).value;
      && mod in Roots && Roots[mod] == chain[0]
      && (chain[1] in LegacyBlocklist ==> AttributeChainFindings(chain, allow) == [LegacyQualified(mod, chain[1])])
      && (chain[1] !in LegacyBlocklist ==>
            (AttributeChainFindings(chain, allow) == [] <==> IsAllowed(allow, mod, chain[1])))
      && (CallChainFindings(chain, allow) == [] <==> IsAllowed(allow, mod, chain[1]))
      && AttributeChainFindings(chain, allow) == AttributeChainFindings(chain[..2], allow)
  {
  }

  lemma {:induction false} ImportPassKinds(nodes: seq<Node>)
    ensures forall f :: f in ImportPass(nodes) ==> f.IsImportKind()
    decreases |nodes|
  {
    if nodes != [] {
      ImportPassKinds(nodes[..|nodes| - 1]);
      var n := nodes[|nodes| - 1];
      if n.Import? {
        ImportNamesKinds(n.names);
      }
    }
  }

  lemma {:induction false} ImportNamesKinds(names: seq<Alias>)
    ensures forall f :: f in ImportNamesFindings(names) ==> f.IsImportKind()
    decreases |names|
  {
    if names != [] {
      ImportNamesKinds(names[..|names| - 1]);
    }
  }

  lemma {:induction false} SymbolPassKinds(nodes: seq<Node>, allow: AllowList)
    ensures forall f :: f in SymbolPass(nodes, allow) ==> !f.IsImportKind()
    decreases |nodes|
  {
    if nodes != [] {
      SymbolPassKinds(nodes[..|nodes| - 1], allow);
    }
  }

  /** Every import-discipline finding comes before every symbol or call
      finding. */
  lemma ImportFindingsFirst(tree: Node, allow: AllowList)
    ensures var fs := GateFindings(tree, allow);
      forall i, j :: 0 <= i < j < |fs| && !fs[i].IsImportKind() ==> !fs[j].IsImportKind()
  {
    var a := ImportPass(Walk(tree));
    var b := SymbolPass(Walk(tree), allow);
    ImportPassKinds(Walk(tree));
    SymbolPassKinds(Walk(tree), allow);
    var fs := a + b;
    forall k | 0 <= k < |a| ensures fs[k].IsImportKind() {
      assert fs[k] == a[k] && a[k] in a;
    }
    forall k | |a| <= k < |fs| ensures !fs[k].IsImportKind() {
      assert fs[k] == b[k - |a|] && b[k - |a|] in b;
    }
  }

  /** A node of the walk contributes all its symbol findings. */
  lemma {:induction false} SymbolPassContains(nodes: seq<Node>, allow: AllowList, n: Node, f: Finding)
    requires n in nodes && f in SymbolFindings(n, allow)
    ensures f in SymbolPass(nodes, allow)
    decreases |nodes|
  {
    if nodes[|nodes| - 1] != n {
      assert n in nodes[..|nodes| - 1];
      SymbolPassContains(nodes[..|nodes| - 1], allow, n, f);
    }
  }

  /** A legacy bare name is reported wherever it stands in the tree,
      whatever was imported. */
  lemma LegacyNameAlwaysReported(tree: Node, allow: AllowList, id: string)
    requires Name(id) in Preorder(tree) && id in LegacyBlocklist
    ensures LegacyName(id) in GateFindings(tree, allow)
  {
    WalkContains(tree, Name(id));
    SymbolPassContains(Walk(tree), allow, Name(id), LegacyName(id));
  }

  /** Findings are not deduplicated: a call `chrono.X(...)` with X missing
      from the allow-list is reported once as a missing symbol (its callee
      attribute) and once as a call to an unknown symbol. */
  lemma UnknownCallReportedTwice(tree: Node, allow: AllowList, x: string, args: seq<Node>, kws: seq<Node>)
    requires Call(Attribute(Name("chrono"), x), args, kws) in Preorder(tree)
    requires x !in LegacyBlocklist && !IsAllowed(allow, "pychrono", x)
    ensures MissingSymbol("pychrono", x) in GateFindings(tree, allow)
    ensures CallToUnknown("pychrono", x) in GateFindings(tree, allow)
  {
    var callee := Attribute(Name("chrono"), x);
    var call := Call(callee, args, kws);
    assert callee in Children(call);
    PreorderClosed(tree, call, callee);
    assert AliasRoot("chrono") == Some("pychrono");
    assert AttrChain(callee) == ["chrono", x];
    assert SymbolFindings(callee, allow) == [MissingSymbol("pychrono", x)];
    assert SymbolFindings(call, allow) == [CallToUnknown("pychrono", x)];
    WalkContains(tree, call);
    WalkContains(tree, callee);
    var nodes := Walk(tree);
    SymbolPassContains(nodes, allow, callee, MissingSymbol("pychrono", x));
    SymbolPassContains(nodes, allow, call, CallToUnknown("pychrono", x));
    assert GateFindings(tree, allow) == ImportPass(nodes) + SymbolPass(nodes, allow);
  }

  /** An import statement that draws no finding: `import` of modules
      outside `pychrono*`, or `from BASE import` of names, none of them `*`,
      from a base outside `pychrono*`. */
  predicate QuietImport(n: Node) {
    && (n.Import? ==> forall k :: 0 <= k < |n.names| ==> !StartsWith(n.names[k].name, "pychrono"))
    && (n.ImportFrom? ==> !StartsWith(FromBase(n.fromModule), "pychrono") && !HasStar(n.names))
  }

  lemma {:induction false} ImportNamesQuiet(names: seq<Alias>)
    requires forall k :: 0 <= k < |names| ==> !StartsWith(names[k].name, "pychrono")
    ensures ImportNamesFindings(names) == []
    decreases |names|
  {
    if names != [] {
      ImportNamesQuiet(names[..|names| - 1]);
      ImportRules(names[|names| - 1]);
    }
  }

  /** Quiet imports, and all nodes that are not imports, draw no import
      finding. Some other imports draw none either, such as
      `import pychrono as chrono`. */
  lemma QuietImportFindings(n: Node)
    requires QuietImport(n)
    ensures ImportFindings(n) == []
  {
    match n
    case Import(names) => ImportNamesQuiet(names);
    case ImportFrom(m, names) => RootsArePychrono(FromBase(m));
    case _ =>
  }

  lemma {:induction false} ImportPassEmpty(nodes: seq<Node>)
    requires forall n :: n in nodes ==> ImportFindings(n) == []
    ensures ImportPass(nodes) == []
    decreases |nodes|
  {
    if nodes != [] {
      ImportPassEmpty(nodes[..|nodes| - 1]);
    }
  }

  lemma {:induction false} SymbolPassEmpty(nodes: seq<Node>, allow: AllowList)
    requires forall n :: n in nodes ==> SymbolFindings(n, allow) == []
    ensures SymbolPass(nodes, allow) == []
    decreases |nodes|
  {
    if nodes != [] {
      SymbolPassEmpty(nodes[..|nodes| - 1], allow);
    }
  }

  /** No aliased attribute head: neither the node nor its attribute chain
      starts with a canonical alias. */
  predicate NoAliasHead(n: Node) {
    n.Attribute? ==> AttrChain(n)[0] !in Roots.Values
  }

  /** A node the gate has nothing to say about: a quiet import, no legacy
      bare name, no alias-headed attribute chain. */
  predicate Quiet(d: Node) {
    QuietImport(d) && !(d.Name? && d.id in LegacyBlocklist) && NoAliasHead(d)
  }

  lemma QuietNode(tree: Node, allow: AllowList, n: Node)
    requires n in Preorder(tree)
    requires forall d :: d in Preorder(tree) ==> Quiet(d)
    ensures SymbolFindings(n, allow) == []
  {
    match n
    case Attribute(_, _) =>
      assert Quiet(n);
      assert AliasRoot(AttrChain(n)[0]).None?;
    case Call(f, _, _) =>
      assert f in Children(n);
      PreorderClosed(tree, n, f);
      if f.Attribute? {
        assert Quiet(f);
        assert AliasRoot(AttrChain(f)[0]).None?;
      }
    case Name(_) =>
      assert Quiet(n);
    case _ =>
  }

  /** A program whose imports name no `pychrono*` module and import no `*`,
      without legacy bare names and without any attribute chain headed by a
      canonical alias passes, whatever the allow-list holds. */
  lemma VacuousPass(tree: Node, allow: AllowList)
    requires forall d :: d in Preorder(tree) ==> Quiet(d)
    ensures GateFindings(tree, allow) == []
  {
    var nodes := Walk(tree);
    WalkPermutesPreorder(tree);
    forall n | n in nodes ensures n in Preorder(tree) {
      assert n in multiset(nodes);
    }
    forall n | n in nodes ensures ImportFindings(n) == [] {
      QuietImportFindings(n);
    }
    ImportPassEmpty(nodes);
    forall n | n in nodes ensures SymbolFindings(n, allow) == [] {
      QuietNode(tree, allow, n);
    }
    SymbolPassEmpty(nodes, allow);
  }
}
