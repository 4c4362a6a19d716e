/** `chrono_ctor_harvester_v3.py`: the earlier harvester. It records each
    constructor overload as its list of normalised argument types only, stops
    a wrapped signature at a blank line as well, and normalises with plain
    deletions instead of blanking and squeezing. */
module HarvesterV3 {
  import opened PyText
  import opened HelpText

  // ---------------------------------------------------------------------
  // norm_tok

  /** What `norm_tok` returns is stripped and holds no `&`. */
  predicate Clean(t: string) {
    '&' !in t && Strip(t) == t
  }

  /** `norm_tok`: strip, collapse `std::shared_ptr<...>`, delete `chrono::`,
      `const ` and `&`, strip again, map through the canonical table. */
  function NormTok(tok: string): string {
    var t1 := Strip(tok);
    var t2 := SubSharedPtr(t1);
    var t3 := Replace(t2, "chrono::", "");
    var t4 := Replace(t3, "const ", "");
    var t5 := Replace(t4, "&", "");
    Canonical(Strip(t5))
  }

  lemma NormTokClean(tok: string)
    ensures Clean(NormTok(tok))
  {
    var t4 := Replace(Replace(SubSharedPtr(Strip(tok)), "chrono::", ""), "const ", "");
    var t5 := Replace(t4, "&", "");
    var t6 := Strip(t5);
    assert "&" == ['&'];
    ReplaceRemovesChar(t4, '&', "");
    if '&' in t6 {
      StripSubset(t5, '&');
    }
    StripIdempotent(t5);
    var r := Canonical(t6);
    if r != t6 {
      CanonicalNames(r);
      StripNoSpace(r);
    }
  }

  /** A stripped token without `::`, `const ` or `&` reaches the canonical
      table as it is. */
  lemma NormTokOfPlain(t: string)
    requires Strip(t) == t && NoDoubleColon(t) && Absent(t, "const ") && '&' !in t
    ensures NormTok(t) == Canonical(t)
  {
    SubSharedPtrIdentity(t);
    NoDoubleColonAbsent(t, "chrono::", 6);
    ReplaceAbsent(t, "chrono::", "");
    ReplaceAbsent(t, "const ", "");
    CharAbsent(t, "&", 0);
    ReplaceAbsent(t, "&", "");
  }

  /** `float` is a `double`. */
  lemma NormTokFloat()
    ensures NormTok("float") == "double"
  {
    var t := "float";
    assert forall c :: c in t ==> c in {'f', 'l', 'o', 'a', 't'};
    StripNoSpace(t);
    CharAbsent(t, "const ", 5);
    NormTokOfPlain(t);
  }

  /** `unsigned` is an `int`. */
  lemma NormTokUnsigned()
    ensures NormTok("unsigned") == "int"
  {
    var t := "unsigned";
    assert forall c :: c in t ==> c in {'u', 'n', 's', 'i', 'g', 'e', 'd'};
    StripNoSpace(t);
    CharAbsent(t, "const ", 5);
    NormTokOfPlain(t);
  }

  /** An enumerator such as `ChAxis_Z` is a `ChAxis`. */
  lemma NormTokAxis()
    ensures NormTok("ChAxis_Z") == "ChAxis"
  {
    var t := "ChAxis_Z";
    assert t[..6] == "ChAxis";
    assert Canonical(t) == "ChAxis";
    assert forall c :: c in t ==> c in {'C', 'h', 'A', 'x', 'i', 's', '_', 'Z'};
    StripNoSpace(t);
    CharAbsent(t, "const ", 5);
    NormTokOfPlain(t);
  }

  // ---------------------------------------------------------------------
  // parse_init_inside

  /** One parameter of `parse_init_inside`: None for `self`, else the type:
      the text before `=`, stripped, cut at its first space, normalised. */
  function Param(p: string): (r: Option<string>)
    ensures r.None? <==> p == "self" || EndsWith(p, " self")
    ensures r.Some? ==> Clean(r.value)
    ensures forall w :: LeadingWord(p, w) && r.Some? ==> r.value == NormTok(w)
  {
    if p == "self" || EndsWith(p, " self") then None
    else
      var word := TypeWord(Strip(FirstField(p, '=')));
      NormTokClean(word);
      TypeWordOf(p);
      Some(NormTok(word))
  }

  /** The types, in order, of a list of split tokens. */
  function Params(parts: seq<string>): (types: seq<string>)
    ensures |types| <= |parts|
    ensures forall t :: t in types ==> Clean(t)
  {
    if parts == [] then []
    else
      var front := Params(parts[..|parts| - 1]);
      match Param(parts[|parts| - 1])
      case None => front
      case Some(t) => front + [t]
  }

  /** A token that begins with a word and is not `self` has that word's
      normalised type. */
  lemma ParamOfWord(p: string, w: string)
    requires LeadingWord(p, w) && !(p == "self" || EndsWith(p, " self"))
    ensures Param(p) == Some(NormTok(w))
  {
  }

  /** Tokens that each begin with a word, none of them `self`, give their
      words' normalised types, one per token, in order. */
  lemma {:induction false} ParamsOfWords(parts: seq<string>, words: seq<string>)
    requires |words| == |parts|
    requires forall k :: 0 <= k < |parts| ==> LeadingWord(parts[k], words[k])
    requires forall k :: 0 <= k < |parts| ==> !(parts[k] == "self" || EndsWith(parts[k], " self"))
    ensures Params(parts) == Map(NormTok, words)
    decreases |parts|
  {
    if parts != [] {
      var n := |parts| - 1;
      ParamsOfWords(parts[..n], words[..n]);
      ParamsStep(parts, n);
      assert parts[..n + 1] == parts;
      ParamOfWord(parts[n], words[n]);
    }
  }

  /** A qualifier left on its own is no type of the table and stays. */
  lemma NormTokConst()
    ensures NormTok("const") == "const"
  {
    var t := "const";
    assert t[0] != 'C' && t != "bool";
    assert Canonical(t) == t;
    assert forall c :: c in t ==> c in {'c', 'o', 'n', 's', 't'};
    StripNoSpace(t);
    CharAbsent(t, "const ", 5);
    NormTokOfPlain(t);
  }

  /** `const double& r` has type `const`: the name is cut off before the
      qualifier could be deleted. */
  lemma ParamConstRef()
    ensures Param("const double& r") == Some("const")
  {
    var p := "const double& r";
    var w := "const";
    assert p[..5] == w && p[5] == ' ';
    assert forall c :: c in w ==> c in {'c', 'o', 'n', 's', 't'};
    assert p[10..] == "le& r";
    ParamOfWord(p, w);
    NormTokConst();
  }

  lemma ParamsStep(parts: seq<string>, k: nat)
    requires k < |parts|
    ensures Params(parts[..k + 1]) == Params(parts[..k]) + OptSeq(Param(parts[k]))
  {
    assert parts[..k + 1][..k] == parts[..k];
  }

  /** `parse_init_inside` */
  method ParseInitInside(inside: string) returns (types: seq<string>)
    ensures types == Params(SplitTokens(inside))
  {
    var parts := SplitArgs(inside);
    types := [];
    var k := 0;
    while k < |parts|
      invariant 0 <= k <= |parts|
      invariant types == Params(parts[..k])
    {
      ParamsStep(parts, k);
      var p := Param(parts[k]);
      k := k + 1;
      if p.None? {
        continue;
      }
      types := types + [p.value];
    }
    assert parts[..k] == parts;
  }

  // ---------------------------------------------------------------------
  // harvest_from_help

  /** A record: a non-empty list of clean types. */
  predicate WellFormed(types: seq<string>) {
    types != [] && forall t :: t in types ==> Clean(t)
  }

  /** The type list a joined signature yields, or None where it has no
      parentheses or no typed parameter. */
  function RecordOf(sig: string): (r: Option<seq<string>>)
    ensures r.Some? ==> '(' in sig && ')' in sig && WellFormed(r.value)
  {
    match InsideParens(sig)
    case None => None
    case Some(inside) =>
      var types := Params(SplitTokens(inside));
      if types == [] then None else Some(types)
  }

  /** The record of the signature headed at line `i`, if that line is an
      `__init__` head and its signature yields one. */
  function HeadRecord(lines: seq<string>, i: nat): Option<seq<string>>
    requires i < |lines|
  {
    if !InitHead(StripLeadingUI(lines[i])) then None
    else RecordOf(Join(" ", SigLines(lines, i, true).0))
  }

  /** The line the outer loop moves to after line `i`. */
  function Next(lines: seq<string>, i: nat): (n: nat)
    requires i < |lines|
    ensures i < n <= |lines|
  {
    if !InitHead(StripLeadingUI(lines[i])) then i + 1 else SigLines(lines, i, true).1 + 1
  }

  /** The records of the `__init__` heads from line `i` on, in page order,
      repeats included. */
  function Scan(lines: seq<string>, i: nat): seq<seq<string>>
    requires i <= |lines|
    decreases |lines| - i
  {
    if i == |lines| then [] else OptSeq(HeadRecord(lines, i)) + Scan(lines, Next(lines, i))
  }

  /** What `harvest_from_help` returns for the lines of a help page. */
  function Harvest(lines: seq<string>): seq<seq<string>> {
    Dedup(Scan(lines, 0))
  }

  /** The body of the outer loop at an `__init__` head. */
  method ReadHead(lines: seq<string>, i: nat) returns (rec: Option<seq<string>>, last: nat)
    requires i < |lines| && InitHead(StripLeadingUI(lines[i]))
    ensures rec == HeadRecord(lines, i) && last + 1 == Next(lines, i)
  {
    var buf;
    buf, last := CollectSignature(lines, i, true);
    var sig := Join(" ", buf);
    var inside := InsideParens(sig);
    if inside.None? {
      return None, last;
    }
    var types := ParseInitInside(inside.value);
    if types == [] {
      return None, last;
    }
    rec := Some(types);
  }

  lemma PlainLine(lines: seq<string>, i: nat)
    requires i < |lines| && !InitHead(StripLeadingUI(lines[i]))
    ensures HeadRecord(lines, i) == None && Next(lines, i) == i + 1
  {
  }

  lemma ScanAdvance(lines: seq<string>, i: nat, seen: seq<seq<string>>, total: seq<seq<string>>,
                    found: Option<seq<string>>, next: nat)
    requires i < |lines| && total == seen + Scan(lines, i)
    requires found == HeadRecord(lines, i) && next == Next(lines, i)
    ensures total == (seen + OptSeq(found)) + Scan(lines, next)
  {
    assert Scan(lines, i) == OptSeq(found) + Scan(lines, next);
    AppendAssoc(seen, OptSeq(found), Scan(lines, next));
  }

  /** `harvest_from_help`, from the lines of the rendered page on. */
  method HarvestFromHelp(lines: seq<string>) returns (overloads: seq<seq<string>>)
    ensures overloads == Harvest(lines)
  {
    overloads := [];
    ghost var seen: seq<seq<string>> := [];
    var i := 0;
    ghost var total := Scan(lines, i);
    while i < |lines|
      invariant 0 <= i <= |lines|
      invariant total == seen + Scan(lines, i)
      invariant overloads == Dedup(seen)
    {
      ghost var head := i;
      ghost var found := HeadRecord(lines, i);
      var s := StripLeadingUI(lines[i]);
      if InitHead(s) {
        var types, last := ReadHead(lines, i);
        if types.Some? {
          DedupAppend(seen, types.value);
          if types.value !in overloads {
            overloads := overloads + [types.value];
          }
        }
        i := last;
      } else {
        PlainLine(lines, i);
      }
      i := i + 1;
      ScanAdvance(lines, head, seen, total, found, i);
      if found.None? {
        assert seen + OptSeq(found) == seen;
      }
      seen := seen + OptSeq(found);
    }
    assert seen + [] == seen;
  }

  lemma {:induction false} ScanWellFormed(lines: seq<string>, i: nat)
    requires i <= |lines|
    ensures forall r :: r in Scan(lines, i) ==> WellFormed(r)
    decreases |lines| - i
  {
    if i < |lines| {
      ScanWellFormed(lines, Next(lines, i));
    }
  }

  /** The harvested list holds no type list twice, exactly the lists found
      on the page, each non-empty and clean. */
  lemma HarvestProps(lines: seq<string>)
    ensures NoDup(Harvest(lines))
    ensures forall r :: r in Harvest(lines) <==> r in Scan(lines, 0)
    ensures forall r :: r in Harvest(lines) ==> WellFormed(r)
  {
    DedupProps(Scan(lines, 0));
    ScanWellFormed(lines, 0);
  }
}
