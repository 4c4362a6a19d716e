/** The overload-aware validator of `chrono_validator_v3.py`: a coarse type
    inference for argument expressions, a positional overload matcher, the
    constructor table with its key variants, a visitor that checks every
    `chrono.X(...)` call against that table, and a final walk for legacy
    attribute names. */
module OverloadValidator {
  import opened PyText
  import opened PyAst
  import AstGate

  /** `ACCEPTED_ALIASES`: the names a constructor call may be qualified by. */
  const AcceptedAliases: set<string> := {"chrono"}

  /** `LEGACY_BANNED` of `validate_python`. */
  const LegacyBanned: set<string> := {"ChBodyEasyCylinderAUX", "ChLinkEngine"}

  /** The declared parameter types the matcher knows how to accept. */
  const Declared: set<string> := {"double", "int", "bool", "ChAxis", "ChContactMaterial"}

  /** The six tags `infer_type` can produce. */
  const Tags: set<string> := Declared + {"unknown"}

  /** One constructor signature (parameter types) and a class's overloads. */
  type Sig = seq<string>
  type Overloads = seq<Sig>

  /** The constructor table: class key to its overload list. */
  type Table = map<string, Overloads>

  // ---------------------------------------------------------------------
  // Type inference

  /** Python's `isinstance(v, int)`, which also holds for a `bool`. */
  predicate IsPyInt(c: Const) {
    c.IntConst? || c.BoolConst?
  }

  /** The name `infer_type` reads off a callee: the attribute of an
      attribute, the id of a bare name, otherwise the empty string. */
  function CalleeName(target: Node): string {
    match target
    case Attribute(_, a) => a
    case Name(id) => id
    case _ => ""
  }

  /** `infer_type`: the test for `bool` precedes the test for `int`, which a
      `bool` also passes, so each numeric tag names exactly one kind of
      constant; `ChAxis` and `ChContactMaterial` are recognised by name
      prefix; everything else is `unknown`. */
  function InferType(n: Node): (t: string)
    ensures t in Tags
    ensures t == "bool" <==> n.Constant? && n.c.BoolConst?
    ensures t == "int" <==> n.Constant? && n.c.IntConst?
    ensures t == "double" <==> n.Constant? && n.c.FloatConst?
    ensures t == "ChAxis" <==> n.Attribute? && StartsWith(n.attr, "ChAxis_")
    ensures t == "ChContactMaterial" <==> n.Call? && StartsWith(CalleeName(n.func), "ChContactMaterial")
  {
    match n
    case Constant(c) =>
      if c.BoolConst? then "bool"
      else if IsPyInt(c) then "int"
      else if c.FloatConst? then "double"
      else "unknown"
    case Name(_) => "unknown"
    case Attribute(_, attr) => if StartsWith(attr, "ChAxis_") then "ChAxis" else "unknown"
    case Call(target, _, _) =>
      if StartsWith(CalleeName(target), "ChContactMaterial") then "ChContactMaterial" else "unknown"
    case _ => "unknown"
  }

  /** `[infer_type(a) for a in node.args]` */
  function ArgTypes(args: seq<Node>): (ts: seq<string>)
    ensures |ts| == |args|
    ensures forall i :: 0 <= i < |args| ==> ts[i] == InferType(args[i])
  {
    seq(|args|, i requires 0 <= i < |args| => InferType(args[i]))
  }

  // ---------------------------------------------------------------------
  // Overload matching

  /** The five accepting branches of the matcher's inner loop. */
  function Accepts(want: string, got: string): (ok: bool)
    ensures ok <==> (want == got && want in Declared) || (want == "double" && got == "int")
  {
    (want == "double" && (got == "double" || got == "int"))
    || (want == "int" && got == "int")
    || (want == "bool" && got == "bool")
    || (want == "ChAxis" && got == "ChAxis")
    || (want == "ChContactMaterial" && got == "ChContactMaterial")
  }

  /** A signature matches: same arity, every position accepted. */
  predicate SigMatches(argTypes: seq<string>, sig: Sig) {
    |sig| == |argTypes| && forall p :: 0 <= p < |sig| ==> Accepts(sig[p], argTypes[p])
  }

  predicate AnyMatch(argTypes: seq<string>, overloads: Overloads) {
    exists k :: 0 <= k < |overloads| && SigMatches(argTypes, overloads[k])
  }

  /** `match_overload`: true exactly when some overload matches. */
  method MatchOverload(argTypes: seq<string>, overloads: Overloads) returns (found: bool)
    ensures found <==> AnyMatch(argTypes, overloads)
  {
    var s := 0;
    while s < |overloads|
      invariant 0 <= s <= |overloads|
      invariant forall k :: 0 <= k < s ==> !SigMatches(argTypes, overloads[k])
    {
      var sig := overloads[s];
      if |sig| == |argTypes| {
        var ok := true;
        var i := 0;
        while i < |argTypes|
          invariant 0 <= i <= |argTypes|
          invariant ok ==> forall p :: 0 <= p < i ==> Accepts(sig[p], argTypes[p])
          invariant !ok ==> !SigMatches(argTypes, sig)
        {
          if !Accepts(sig[i], argTypes[i]) {
            ok := false;
            break;
          }
          i := i + 1;
        }
        if ok {
          return true;
        }
      }
      s := s + 1;
    }
    return false;
  }

  /** No overload list matches an argument whose type is unknown: a call that
      passes a variable or an arbitrary expression is always a mismatch. */
  lemma UnknownNeverMatches(argTypes: seq<string>, overloads: Overloads, i: nat)
    requires i < |argTypes| && argTypes[i] == "unknown"
    ensures !AnyMatch(argTypes, overloads)
  {
    forall k | 0 <= k < |overloads| ensures !SigMatches(argTypes, overloads[k]) {
      if |overloads[k]| == |argTypes| {
        assert !Accepts(overloads[k][i], argTypes[i]);
      }
    }
  }

  /** Arity is exact: an overload with a different number of parameters
      never matches, whatever its parameter types, and an empty overload list
      matches nothing. */
  lemma ArityIsExact(argTypes: seq<string>, overloads: Overloads)
    ensures AnyMatch(argTypes, overloads) ==>
      exists k :: 0 <= k < |overloads| && |overloads[k]| == |argTypes|
    ensures !AnyMatch(argTypes, [])
  {
  }

  /** The one coercion: where a `double` argument is accepted an `int` is
      accepted too. */
  lemma IntWidensToDouble(argTypes: seq<string>, sig: Sig, i: nat)
    requires SigMatches(argTypes, sig) && i < |argTypes| && argTypes[i] == "double"
    ensures SigMatches(argTypes[i := "int"], sig)
  {
    assert sig[i] == "double";
  }

  // ---------------------------------------------------------------------
  // The constructor table

  /** `dict.setdefault`: the first writer of a key wins. */
  function SetDefault(m: Table, k: string, v: Overloads): (r: Table)
    ensures k in r && r[k] == (if k in m then m[k] else v)
    ensures r.Keys == m.Keys + {k}
    ensures forall j :: j in m ==> r[j] == m[j]
  {
    if k in m then m else m[k := v]
  }

  /** The short key of a `pychrono.core.` name: `pychrono.` and the rest. */
  function ShortKey(fqcn: string): string
    requires StartsWith(fqcn, "pychrono.core.")
  {
    "pychrono." + fqcn[|"pychrono.core."|..]
  }

  /** The table after the overwrite of the fully qualified key and the
      `setdefault` of its short key. */
  function WithFullAndShort(m: Table, fqcn: string, sigs: Overloads): (r: Table)
    ensures fqcn in r && r[fqcn] == sigs
    ensures forall k :: k in r <==> (k in m || k == fqcn
      || (StartsWith(fqcn, "pychrono.core.") && k == ShortKey(fqcn)))
    ensures forall k :: k in m && k != fqcn ==> r[k] == m[k]
    ensures forall k :: k in r && k !in m ==> r[k] == sigs
  {
    var full := m[fqcn := sigs];
    if StartsWith(fqcn, "pychrono.core.") then SetDefault(full, ShortKey(fqcn), sigs) else full
  }

  /** What `add_key_variants` does to the table: the fully qualified key is
      overwritten, the short and class-name keys are added only if absent. */
  function WithKeyVariants(m: Table, fqcn: string, sigs: Overloads): (r: Table)
    ensures fqcn in r && r[fqcn] == sigs
    ensures forall k :: k in r <==> (k in m || k == fqcn || k == LastField(fqcn, '.')
      || (StartsWith(fqcn, "pychrono.core.") && k == ShortKey(fqcn)))
    ensures forall k :: k in m && k != fqcn ==> r[k] == m[k]
    ensures forall k :: k in r && k !in m ==> r[k] == sigs
  {
    SetDefault(WithFullAndShort(m, fqcn, sigs), LastField(fqcn, '.'), sigs)
  }

  /** The table after `add_key_variants` for every entry, in order. */
  function TableOf(entries: seq<(string, Overloads)>): Table {
    if entries == [] then map[]
    else
      var last := entries[|entries| - 1];
      WithKeyVariants(TableOf(entries[..|entries| - 1]), last.0, last.1)
  }

  /** The overwrite of the fully qualified key is the only overwrite, so a
      fully qualified name maps to the overloads of its last entry, whatever
      short or class-name keys other entries added. */
  lemma {:induction false} LastEntryWins(entries: seq<(string, Overloads)>, i: nat)
    requires i < |entries|
    requires forall j :: i < j < |entries| ==> entries[j].0 != entries[i].0
    ensures entries[i].0 in TableOf(entries) && TableOf(entries)[entries[i].0] == entries[i].1
    decreases |entries|
  {
    var front := entries[..|entries| - 1];
    if i < |entries| - 1 {
      assert front[i] == entries[i];
      LastEntryWins(front, i);
    }
  }

  /** The table `validate_python` fills: cleared, then one
      `add_key_variants` per entry. */
  class CtorTable {
    var store: Table

    constructor()
      ensures store == map[]
    {
      store := map[];
    }

    /** `add_key_variants` */
    method AddKeyVariants(fqcn: string, sigs: Overloads)
      modifies this
      ensures store == WithKeyVariants(old(store), fqcn, sigs)
    {
      store := store[fqcn := sigs];
      if StartsWith(fqcn, "pychrono.core.") {
        var short := "pychrono." + fqcn[14..];
        if short !in store {
          store := store[short := sigs];
        }
      }
      var cname := LastField(fqcn, '.');
      if cname !in store {
        store := store[cname := sigs];
      }
    }
  }

  /** The keys tried for a class name, in order. */
  function CandidateKeys(name: string): seq<string> {
    ["pychrono.core." + name, "pychrono." + name, name]
  }

  /** The overloads under the first key present in the table. */
  function FirstHit(keys: seq<string>, table: Table): (r: Option<Overloads>)
    ensures r.None? <==> forall i :: 0 <= i < |keys| ==> keys[i] !in table
    ensures r.Some? ==> exists i :: (0 <= i < |keys| && keys[i] in table && r.value == table[keys[i]]
      && forall j :: 0 <= j < i ==> keys[j] !in table)
  {
    if keys == [] then None
    else if keys[0] in table then
      assert keys[0] in table;
      Some(table[keys[0]])
    else
      var r := FirstHit(keys[1..], table);
      assert forall i :: 1 <= i < |keys| ==> keys[i] == keys[1..][i - 1];
      r
  }

  /** The lookup loop of `visit_Call`. */
  method LookupSigs(table: Table, name: string) returns (sigs: Option<Overloads>)
    ensures sigs == FirstHit(CandidateKeys(name), table)
  {
    var keys := CandidateKeys(name);
    sigs := None;
    var i := 0;
    while i < |keys|
      invariant 0 <= i <= |keys|
      invariant FirstHit(keys, table) == FirstHit(keys[i..], table)
    {
      assert keys[i..][1..] == keys[i + 1..];
      if keys[i] in table {
        sigs := Some(table[keys[i]]);
        return;
      }
      i := i + 1;
    }
  }

  // ---------------------------------------------------------------------
  // Findings

  /** One finding of the validator; `Render` gives its exact message. */
  datatype VFinding =
    | NoMetadata(name: string)
    | Mismatch(name: string, argTypes: seq<string>, sigs: Overloads)
    | LegacyApi(attr: string)
    | SyntaxErr(message: string)

  /** Python's `repr` of a string of identifier characters. */
  function ReprStr(s: string): string {
    "'" + s + "'"
  }

  /** Python's `repr` of a list, given the `repr` of each item. */
  function ReprList(items: seq<string>): string {
    "[" + Join(", ", items) + "]"
  }

  function ReprOverloads(sigs: Overloads): string {
    ReprList(seq(|sigs|, i requires 0 <= i < |sigs| =>
      ReprList(seq(|sigs[i]|, j requires 0 <= j < |sigs[i]| => ReprStr(sigs[i][j])))))
  }

  function Render(f: VFinding): string {
    match f
    case NoMetadata(n) =>
      "Use of '" + n + "': no ctor overload metadata found (did you regenerate allowlist.json with overloads?)."
    case Mismatch(n, ts, sigs) =>
      "Constructor mismatch for " + n + "(" + Join(", ", ts) + "). Allowed overloads: " + ReprOverloads(sigs)
    case LegacyApi(a) => "Legacy API symbol detected: " + a
    case SyntaxErr(e) => "SyntaxError: " + e
  }

  function Messages(fs: seq<VFinding>): (ms: seq<string>)
    ensures |ms| == |fs|
    ensures forall i :: 0 <= i < |fs| ==> ms[i] == Render(fs[i])
  {
    seq(|fs|, i requires 0 <= i < |fs| => Render(fs[i]))
  }

  lemma MessagesAppend(a: seq<VFinding>, b: seq<VFinding>)
    ensures Messages(a + b) == Messages(a) + Messages(b)
  {
  }

  /** `qualname_for_ctor`: the class name of `alias.X` for an accepted
      alias, and nothing for any other callee (a bare name, a deeper chain,
      another head). */
  function QualnameForCtor(func: Node): (r: Option<string>)
    ensures r.Some? ==> func.Attribute? && func.value.Name? && r.value == func.attr
    ensures r.Some? ==> AstGate.AttrChain(func) == ["chrono", r.value]
    ensures r.None? ==> !(func.Attribute? && func.value.Name? && func.value.id in AcceptedAliases)
  {
    if func.Attribute? && func.value.Name? && func.value.id in AcceptedAliases then Some(func.attr)
    else None
  }

  /** What checking one node contributes: only a constructor call of an
      accepted alias with a non-empty class name is checked. */
  function CallFindings(table: Table, n: Node): seq<VFinding> {
    if !n.Call? then []
    else match QualnameForCtor(n.func)
      case None => []
      case Some(name) =>
        if name == "" then []
        else
          var sigs := FirstHit(CandidateKeys(name), table);
          if sigs.None? || sigs.value == [] then [NoMetadata(name)]
          else if AnyMatch(ArgTypes(n.args), sigs.value) then []
          else [Mismatch(name, ArgTypes(n.args), sigs.value)]
  }

  lemma MessagesOne(f: VFinding)
    ensures Messages([f]) == [Render(f)]
  {
  }

  /** The check `visit_Call` makes before visiting the children. */
  method CallErrors(table: Table, n: Node) returns (errors: seq<string>)
    requires n.Call?
    ensures errors == Messages(CallFindings(table, n))
  {
    errors := [];
    var ctorName := QualnameForCtor(n.func);
    if ctorName.Some? && ctorName.value != "" {
      var name := ctorName.value;
      var sigs := LookupSigs(table, name);
      if sigs.None? || sigs.value == [] {
        assert CallFindings(table, n) == [NoMetadata(name)];
        MessagesOne(NoMetadata(name));
        errors := [Render(NoMetadata(name))];
      } else {
        var argTypes := ArgTypes(n.args);
        var ok := MatchOverload(argTypes, sigs.value);
        if !ok {
          assert CallFindings(table, n) == [Mismatch(name, argTypes, sigs.value)];
          MessagesOne(Mismatch(name, argTypes, sigs.value));
          errors := [Render(Mismatch(name, argTypes, sigs.value))];
        }
      }
    }
  }

  /** The call findings of a node sequence, in order. */
  function CallPass(table: Table, nodes: seq<Node>): seq<VFinding> {
    if nodes == [] then [] else CallFindings(table, nodes[0]) + CallPass(table, nodes[1..])
  }

  lemma {:induction false} CallPassAppend(table: Table, a: seq<Node>, b: seq<Node>)
    ensures CallPass(table, a + b) == CallPass(table, a) + CallPass(table, b)
    decreases |a|
  {
    if a != [] {
      assert (a + b)[1..] == a[1..] + b;
      CallPassAppend(table, a[1..], b);
    } else {
      assert a + b == b;
    }
  }

  function LegacyFindings(n: Node): seq<VFinding> {
    if n.Attribute? && n.attr in LegacyBanned then [LegacyApi(n.attr)] else []
  }

  function LegacyPass(nodes: seq<Node>): seq<VFinding> {
    if nodes == [] then [] else LegacyPass(nodes[..|nodes| - 1]) + LegacyFindings(nodes[|nodes| - 1])
  }

  /** Everything `validate_python` reports for a tree that parsed: the
      visitor's call findings in depth-first order, then the legacy
      findings in walk order. */
  function ValidatorFindings(table: Table, tree: Node): seq<VFinding> {
    CallPass(table, Preorder(tree)) + LegacyPass(Walk(tree))
  }

  /** The findings of one constructor call do not depend on its keyword
      arguments; a call on a bare name, or on an alias other than `chrono`,
      is never checked. */
  lemma KeywordsIgnored(table: Table, f: Node, args: seq<Node>, kws: seq<Node>, kws2: seq<Node>)
    ensures CallFindings(table, Call(f, args, kws)) == CallFindings(table, Call(f, args, kws2))
    ensures f.Name? ==> CallFindings(table, Call(f, args, kws)) == []
    ensures f.Attribute? && f.value.Name? && f.value.id != "chrono" ==>
      CallFindings(table, Call(f, args, kws)) == []
  {
  }

  /** A class recorded under its fully qualified `pychrono.core.` name is
      found by its short name, with the overloads of its last entry. */
  lemma LookupAfterBuild(entries: seq<(string, Overloads)>, i: nat, name: string)
    requires i < |entries| && entries[i].0 == "pychrono.core." + name
    requires forall j :: i < j < |entries| ==> entries[j].0 != entries[i].0
    ensures FirstHit(CandidateKeys(name), TableOf(entries)) == Some(entries[i].1)
  {
    LastEntryWins(entries, i);
  }

  lemma {:induction false} CallPassContains(table: Table, nodes: seq<Node>, n: Node, f: VFinding)
    requires n in nodes && f in CallFindings(table, n)
    ensures f in CallPass(table, nodes)
    decreases |nodes|
  {
    if nodes[0] != n {
      CallPassContains(table, nodes[1..], n, f);
    }
  }

  /** Every `chrono.X(...)` call anywhere in the tree is checked: with no
      metadata for X it is reported as such, and otherwise it is reported as
      a mismatch exactly when no overload accepts its positional arguments. */
  lemma EveryCtorCallChecked(table: Table, tree: Node, x: string, args: seq<Node>, kws: seq<Node>)
    requires Call(Attribute(Name("chrono"), x), args, kws) in Preorder(tree) && x != ""
    ensures var sigs := FirstHit(CandidateKeys(x), table);
      && (sigs.None? || sigs.value == [] ==> NoMetadata(x) in ValidatorFindings(table, tree))
      && (sigs.Some? && sigs.value != [] && !AnyMatch(ArgTypes(args), sigs.value) ==>
            Mismatch(x, ArgTypes(args), sigs.value) in ValidatorFindings(table, tree))
  {
    var call := Call(Attribute(Name("chrono"), x), args, kws);
    var sigs := FirstHit(CandidateKeys(x), table);
    if sigs.None? || sigs.value == [] {
      CallPassContains(table, Preorder(tree), call, NoMetadata(x));
    } else if !AnyMatch(ArgTypes(args), sigs.value) {
      CallPassContains(table, Preorder(tree), call, Mismatch(x, ArgTypes(args), sigs.value));
    }
  }

  lemma {:induction false} CallPassKinds(table: Table, nodes: seq<Node>)
    ensures forall f :: f in CallPass(table, nodes) ==> f.NoMetadata? || f.Mismatch?
    decreases |nodes|
  {
    if nodes != [] {
      CallPassKinds(table, nodes[1..]);
    }
  }

  lemma {:induction false} LegacyPassKinds(nodes: seq<Node>)
    ensures forall f :: f in LegacyPass(nodes) ==> f.LegacyApi?
    decreases |nodes|
  {
    if nodes != [] {
      LegacyPassKinds(nodes[..|nodes| - 1]);
    }
  }

  /** Legacy-attribute findings all come after the visitor's findings. */
  lemma LegacyComesLast(table: Table, tree: Node)
    ensures var fs := ValidatorFindings(table, tree);
      forall i, j :: 0 <= i < j < |fs| && fs[i].LegacyApi? ==> fs[j].LegacyApi?
  {
    var a := CallPass(table, Preorder(tree));
    var b := LegacyPass(Walk(tree));
    CallPassKinds(table, Preorder(tree));
    LegacyPassKinds(Walk(tree));
    var fs := a + b;
    forall k | 0 <= k < |a| ensures !fs[k].LegacyApi? {
      assert fs[k] == a[k] && a[k] in a;
    }
    forall k | |a| <= k < |fs| ensures fs[k].LegacyApi? {
      assert fs[k] == b[k - |a|] && b[k - |a|] in b;
    }
  }

  // ---------------------------------------------------------------------
  // The visitor

  /** `ChronoVisitor` over a fixed constructor table; only `errors` changes. */
  class ChronoVisitor {
    const table: Table
    var errors: seq<string>

    constructor(table: Table)
      ensures this.table == table && errors == []
    {
      this.table := table;
      errors := [];
    }

    /** `NodeVisitor.visit`: dispatch on the node kind. */
    method Visit(n: Node)
      modifies this
      ensures errors == old(errors) + Messages(CallPass(table, Preorder(n)))
      decreases Size(n), 2
    {
      if n.Call? {
        VisitCall(n);
      } else {
        GenericVisit(n);
        VisitStep(table, n);
      }
    }

    /** `visit_Call`: check the call, then visit its children. */
    method VisitCall(n: Node)
      requires n.Call?
      modifies this
      ensures errors == old(errors) + Messages(CallPass(table, Preorder(n)))
      decreases Size(n), 1
    {
      var found := CallErrors(table, n);
      errors := errors + found;
      GenericVisit(n);
      VisitStep(table, n);
      AppendAssoc(old(errors), found, Messages(CallPass(table, PreorderForest(Children(n)))));
    }

    /** `generic_visit`: visit each child in field order. */
    method GenericVisit(n: Node)
      modifies this
      ensures errors == old(errors) + Messages(CallPass(table, PreorderForest(Children(n))))
      decreases Size(n), 0
    {
      var cs := Children(n);
      var i := 0;
      while i < |cs|
        invariant 0 <= i <= |cs|
        invariant errors == old(errors) + Messages(CallPass(table, PreorderForest(cs[..i])))
      {
        ChildSmaller(n, i);
        ghost var done := Messages(CallPass(table, PreorderForest(cs[..i])));
        ghost var next := Messages(CallPass(table, Preorder(cs[i])));
        Visit(cs[i]);
        ForestStep(table, cs, i);
        AppendAssoc(old(errors), done, next);
        i := i + 1;
      }
      assert cs[..|cs|] == cs;
    }
  }

  lemma AppendEmpty(a: seq<string>)
    ensures [] + a == a
  {
  }

  /** One node's share of the depth-first pass: its own findings, then its
      children's. */
  lemma VisitStep(table: Table, n: Node)
    ensures Messages(CallPass(table, Preorder(n)))
      == Messages(CallFindings(table, n)) + Messages(CallPass(table, PreorderForest(Children(n))))
    ensures !n.Call? ==> CallFindings(table, n) == []
  {
    var one: seq<Node> := [n];
    CallPassAppend(table, one, PreorderForest(Children(n)));
    assert CallPass(table, one) == CallFindings(table, n) + CallPass(table, []);
    MessagesAppend(CallFindings(table, n), CallPass(table, PreorderForest(Children(n))));
  }

  /** The pass over the first `i + 1` trees of a forest extends the pass
      over the first `i` by the pass over tree `i`. */
  lemma ForestStep(table: Table, cs: seq<Node>, i: nat)
    requires i < |cs|
    ensures Messages(CallPass(table, PreorderForest(cs[..i + 1])))
      == Messages(CallPass(table, PreorderForest(cs[..i]))) + Messages(CallPass(table, Preorder(cs[i])))
  {
    var one: seq<Node> := [cs[i]];
    assert cs[..i + 1] == cs[..i] + one;
    PreorderForestAppend(cs[..i], one);
    assert one[1..] == [];
    assert PreorderForest(one) == Preorder(cs[i]) + PreorderForest([]);
    assert PreorderForest(cs[..i + 1]) == PreorderForest(cs[..i]) + Preorder(cs[i]);
    CallPassAppend(table, PreorderForest(cs[..i]), Preorder(cs[i]));
    MessagesAppend(CallPass(table, PreorderForest(cs[..i])), CallPass(table, Preorder(cs[i])));
  }

  /** The legacy walk at the end of `validate_python`, appending to the
      visitor's errors. */
  method ReportLegacy(v: ChronoVisitor, nodes: seq<Node>)
    modifies v
    ensures v.errors == old(v.errors) + Messages(LegacyPass(nodes))
  {
    var j := 0;
    while j < |nodes|
      invariant 0 <= j <= |nodes|
      invariant v.errors == old(v.errors) + Messages(LegacyPass(nodes[..j]))
    {
      assert nodes[..j + 1] == nodes[..j] + [nodes[j]];
      MessagesAppend(LegacyPass(nodes[..j]), LegacyFindings(nodes[j]));
      var node := nodes[j];
      if node.Attribute? && node.attr in LegacyBanned {
        v.errors := v.errors + [Render(LegacyApi(node.attr))];
      }
      j := j + 1;
    }
    assert nodes[..|nodes|] == nodes;
  }

  /** The refill of the table at the start of `validate_python`. */
  method BuildTable(entries: seq<(string, Overloads)>) returns (t: CtorTable)
    ensures fresh(t) && t.store == TableOf(entries)
  {
    t := new CtorTable();
    var i := 0;
    while i < |entries|
      invariant 0 <= i <= |entries|
      invariant fresh(t) && t.store == TableOf(entries[..i])
    {
      assert entries[..i + 1][..i] == entries[..i];
      t.AddKeyVariants(entries[i].0, entries[i].1);
      i := i + 1;
    }
    assert entries[..|entries|] == entries;
  }

  /** `validate_python`, with the overload entries of the allow-list and the
      parse given: the table is rebuilt from the entries, then a syntax error
      is reported alone, or the visitor's findings followed by the legacy
      findings; `ok` exactly when there are none. */
  method ValidatePython(entries: seq<(string, Overloads)>, parsed: ParseOutcome)
    returns (ok: bool, errors: seq<string>)
    ensures parsed.SyntaxError? ==> errors == [Render(SyntaxErr(parsed.message))]
    ensures parsed.Parsed? ==> errors == Messages(ValidatorFindings(TableOf(entries), parsed.tree))
    ensures ok <==> errors == []
  {
    var t := BuildTable(entries);
    if parsed.SyntaxError? {
      return false, [Render(SyntaxErr(parsed.message))];
    }
    var v := new ChronoVisitor(t.store);
    v.Visit(parsed.tree);
    ghost var visited := Messages(CallPass(t.store, Preorder(parsed.tree)));
    AppendEmpty(visited);
    var nodes := Walk(parsed.tree);
    ReportLegacy(v, nodes);
    MessagesAppend(CallPass(t.store, Preorder(parsed.tree)), LegacyPass(nodes));
    errors := v.errors;
    ok := |errors| == 0;
  }
}
