/** `chrono_ctor_harvester_v5.py`: constructor overloads read from a class's
    rendered help page, each as its normalised argument types and the number
    of trailing parameters that carry a default. */
module HarvesterV5 {
  import opened PyText
  import opened HelpText

  // ---------------------------------------------------------------------
  // norm_type

  /** A normalised type token: no whitespace, no `&`, no `::`. */
  predicate Compact(t: string) {
    (forall c :: c in t ==> !IsSpace(c)) && '&' !in t && NoDoubleColon(t)
  }

  /** The first half of `norm_type`: strip, collapse `std::shared_ptr<...>`,
      blank out `&`, `const `, `chrono::` and `::`, squeeze whitespace runs
      to one space and strip again. */
  function Squeeze(tok: string): string {
    var t1 := Strip(tok);
    var t2 := SubSharedPtr(t1);
    var t3 := Replace(t2, "&", " ");
    var t4 := Replace(t3, "const ", " ");
    var t5 := Replace(t4, "chrono::", " ");
    var t6 := Replace(t5, "::", " ");
    Strip(CollapseSpaces(t6))
  }

  /** `norm_type`: the first word of the squeezed token, mapped through the
      canonical table. */
  function NormType(tok: string): string {
    Canonical(FirstField(Squeeze(tok), ' '))
  }

  /** The canonical table keeps a type compact. */
  lemma CanonicalCompact(t: string)
    requires Compact(t)
    ensures Compact(Canonical(t))
  {
    var r := Canonical(t);
    if r != t {
      CanonicalNames(r);
      assert forall i :: 0 <= i < |r| ==> r[i] in r;
    }
  }

  /** The squeezed token holds no `&` and no `::`, and its only whitespace
      is plain spaces. */
  lemma SqueezeClean(tok: string)
    ensures '&' !in Squeeze(tok) && NoDoubleColon(Squeeze(tok))
    ensures forall c :: c in Squeeze(tok) && IsSpace(c) ==> c == ' '
  {
    var t1 := Strip(tok);
    var t2 := SubSharedPtr(t1);
    var t3 := Replace(t2, "&", " ");
    var t4 := Replace(t3, "const ", " ");
    var t5 := Replace(t4, "chrono::", " ");
    var t6 := Replace(t5, "::", " ");
    var c6 := CollapseSpaces(t6);
    var t7 := Strip(c6);
    assert "&" == ['&'];
    ReplaceRemovesChar(t2, '&', " ");
    ReplaceKeepsAbsent(t3, "const ", " ", '&');
    ReplaceKeepsAbsent(t4, "chrono::", " ", '&');
    ReplaceKeepsAbsent(t5, "::", " ", '&');
    ReplaceDoubleColon(t5);
    CollapseSpacesNoDoubleColon(t6);
    if '&' in t7 {
      StripSubset(c6, '&');
    }
    if t7 != [] {
      NoDoubleColonSlice(c6, LeadingSpaces(c6), LeadingSpaces(c6) + |t7|);
    }
    forall c | c in t7 && IsSpace(c) ensures c == ' ' {
      StripSubset(c6, c);
    }
  }

  /** Whatever the token, the normalised type holds no whitespace, no `&`
      and no `::`. */
  lemma NormTypeCompact(tok: string)
    ensures Compact(NormType(tok))
  {
    var t7 := Squeeze(tok);
    var t8 := FirstField(t7, ' ');
    SqueezeClean(tok);
    NoDoubleColonSlice(t7, 0, |t8|);
    forall c | c in t8 ensures !IsSpace(c) && c != '&' {
      assert c in t7;
    }
    CanonicalCompact(t8);
  }

  /** `s.split(sep, 1)[0]` of a string without `sep` is the string. */
  lemma FirstFieldAbsent(s: string, sep: char)
    requires sep !in s
    ensures FirstField(s, sep) == s
  {
  }

  /** A compact token goes through the first half of `norm_type` unchanged. */
  lemma SqueezeCompact(r: string)
    requires Compact(r)
    ensures Squeeze(r) == r
  {
    StripNoSpace(r);
    SubSharedPtrIdentity(r);
    CharAbsent(r, "&", 0);
    ReplaceAbsent(r, "&", " ");
    assert IsSpace(' ') && ' ' !in r;
    CharAbsent(r, "const ", 5);
    ReplaceAbsent(r, "const ", " ");
    NoDoubleColonAbsent(r, "chrono::", 6);
    ReplaceAbsent(r, "chrono::", " ");
    NoDoubleColonAbsent(r, "::", 0);
    ReplaceAbsent(r, "::", " ");
    CollapseSpacesNoSpace(r);
  }

  /** Normalising a normalised type changes nothing. */
  lemma NormTypeIdempotent(tok: string)
    ensures NormType(NormType(tok)) == NormType(tok)
  {
    var r := NormType(tok);
    NormTypeCompact(tok);
    SqueezeCompact(r);
    assert IsSpace(' ');
    FirstFieldAbsent(r, ' ');
    CanonicalIdempotent(FirstField(Squeeze(tok), ' '));
  }

  /** A token that is already compact reaches the canonical table as it
      is: `float` becomes `double`, `size_t` becomes `int`, `ChAxis_Z`
      becomes `ChAxis`, and a class name outside the table stays. */
  lemma NormTypeOfCompact(t: string)
    requires Compact(t)
    ensures NormType(t) == Canonical(t)
  {
    SqueezeCompact(t);
    assert IsSpace(' ');
    FirstFieldAbsent(t, ' ');
  }

  /** `float` is a `double`. */
  lemma NormTypeFloat()
    ensures NormType("float") == "double"
  {
    var t := "float";
    assert forall c :: c in t ==> c in {'f', 'l', 'o', 'a', 't'};
    NormTypeOfCompact(t);
  }

  /** `size_t` is an `int`. */
  lemma NormTypeSizeT()
    ensures NormType("size_t") == "int"
  {
    var t := "size_t";
    assert forall c :: c in t ==> c in {'s', 'i', 'z', 'e', '_', 't'};
    NormTypeOfCompact(t);
  }

  /** An enumerator such as `ChAxis_Z` is a `ChAxis`. */
  lemma NormTypeAxis()
    ensures NormType("ChAxis_Z") == "ChAxis"
  {
    var t := "ChAxis_Z";
    assert t[..6] == "ChAxis";
    assert Canonical(t) == "ChAxis";
    assert forall c :: c in t ==> c in {'C', 'h', 'A', 'x', 'i', 's', '_', 'Z'};
    NormTypeOfCompact(t);
  }

  // ---------------------------------------------------------------------
  // parse_init_inside

  /** The type of a parameter text that is not skipped: the text before
      `=`, stripped, cut at its first space, normalised. */
  function ParamType(q: string): (t: string)
    ensures Compact(t)
    ensures forall w :: LeadingWord(q, w) ==> t == NormType(w)
  {
    var left := if '=' in q then Strip(FirstField(q, '=')) else q;
    var word := TypeWord(left);
    NormTypeCompact(word);
    TypeWordOf(q);
    NormType(word)
  }

  /** One parameter of `parse_init_inside`: None where it is skipped (empty
      or `self`), else its type and whether it carries a default. The first
      word is cut off before `norm_type` runs. */
  function Param(p: string): (r: Option<(string, bool)>)
    ensures r.None? <==> Strip(p) == [] || Strip(p) == "self" || EndsWith(Strip(p), " self")
    ensures r.Some? ==> (r.value.1 <==> '=' in p) && Compact(r.value.0)
    ensures forall w :: LeadingWord(p, w) && r.Some? ==> r.value.0 == NormType(w)
  {
    var q := Strip(p);
    if q == [] || q == "self" || EndsWith(q, " self") then None
    else
      StripKeepsNonSpace(p, '=');
      LeadingWordsStrip(p);
      Some((ParamType(q), '=' in q))
  }

  /** The typed parameters, in order, of a list of split tokens. */
  function Params(parts: seq<string>): (typed: seq<(string, bool)>)
    ensures |typed| <= |parts|
    ensures forall x :: x in typed ==> Compact(x.0)
  {
    if parts == [] then []
    else
      var front := Params(parts[..|parts| - 1]);
      match Param(parts[|parts| - 1])
      case None => front
      case Some(x) => front + [x]
  }

  /** A token that begins with a word and is not `self` has that word's
      normalised type, and a default exactly when it has `=`. */
  lemma ParamOfWord(p: string, w: string)
    requires LeadingWord(p, w) && !(Strip(p) == "self" || EndsWith(Strip(p), " self"))
    ensures Param(p) == Some((NormType(w), '=' in p))
  {
    LeadingWordStrip(p, w);
  }

  /** Types paired with whether their tokens have `=`. */
  function Flagged(parts: seq<string>, types: seq<string>): (typed: seq<(string, bool)>)
    requires |types| == |parts|
    ensures |typed| == |parts|
  {
    if parts == [] then []
    else
      var n := |parts| - 1;
      Flagged(parts[..n], types[..n]) + [(types[n], '=' in parts[n])]
  }

  lemma {:induction false} FlaggedAt(parts: seq<string>, types: seq<string>, k: nat)
    requires |types| == |parts| && k < |parts|
    ensures Flagged(parts, types)[k] == (types[k], '=' in parts[k])
    decreases |parts|
  {
    var n := |parts| - 1;
    if k < n {
      FlaggedAt(parts[..n], types[..n], k);
    }
  }

  /** Tokens that each begin with a word, none of them `self`, give their
      words' normalised types, one per token, in order, each flagged with
      whether the token has a default. */
  lemma {:induction false} ParamsOfWords(parts: seq<string>, words: seq<string>)
    requires |words| == |parts|
    requires forall k :: 0 <= k < |parts| ==> LeadingWord(parts[k], words[k])
    requires forall k :: 0 <= k < |parts| ==> !(Strip(parts[k]) == "self" || EndsWith(Strip(parts[k]), " self"))
    ensures Params(parts) == Flagged(parts, Map(NormType, words))
    decreases |parts|
  {
    if parts != [] {
      var n := |parts| - 1;
      ParamsOfWords(parts[..n], words[..n]);
      ParamOfWord(parts[n], words[n]);
      MapLast(NormType, words);
      ParamsOfTypes(parts, Map(NormType, words));
    }
  }

  lemma ParamsOfTypes(parts: seq<string>, types: seq<string>)
    requires |types| == |parts| > 0
    requires Params(parts[..|parts| - 1]) == Flagged(parts[..|parts| - 1], types[..|parts| - 1])
    requires Param(parts[|parts| - 1]) == Some((types[|parts| - 1], '=' in parts[|parts| - 1]))
    ensures Params(parts) == Flagged(parts, types)
  {
  }

  /** A qualifier left on its own is no type of the table and stays. */
  lemma NormTypeConst()
    ensures NormType("const") == "const"
  {
    var t := "const";
    assert t[0] != 'C' && t != "bool";
    assert Canonical(t) == t;
    assert forall c :: c in t ==> c in {'c', 'o', 'n', 's', 't'};
    NormTypeOfCompact(t);
  }

  /** `const double& r` has type `const` and no default: the name is cut
      off before the qualifier could be removed. */
  lemma ParamConstRef()
    ensures Param("const double& r") == Some(("const", false))
  {
    var p := "const double& r";
    var w := "const";
    ConstRefWord();
    ConstRefStripped();
    ConstRefPlain();
    ParamOfWord(p, w);
    NormTypeConst();
    assert Param(p) == Some((NormType(w), false));
  }

  lemma ConstRefWord()
    ensures LeadingWord("const double& r", "const")
  {
    var p := "const double& r";
    var w := "const";
    assert p[..5] == w && p[5] == ' ';
    assert forall c :: c in w ==> c in {'c', 'o', 'n', 's', 't'};
  }

  lemma ConstRefStripped()
    ensures Strip("const double& r") == "const double& r"
  {
    var p := "const double& r";
    assert !IsSpace(p[0]) && !IsSpace(p[14]);
  }

  lemma ConstRefPlain()
    ensures var p := "const double& r"; '=' !in p && p != "self" && !EndsWith(p, " self")
  {
    var p := "const double& r";
    assert p[10..] == "le& r";
    assert forall c :: c in p ==> c in {'c', 'o', 'n', 's', 't', ' ', 'd', 'u', 'b', 'l', 'e', '&', 'r'};
  }

  lemma ParamsStep(parts: seq<string>, k: nat)
    requires k < |parts|
    ensures Params(parts[..k + 1]) == Params(parts[..k]) + OptSeq(Param(parts[k]))
  {
    assert parts[..k + 1][..k] == parts[..k];
  }

  /** `parse_init_inside` */
  method ParseInitInside(inside: string) returns (typed: seq<(string, bool)>)
    ensures typed == Params(SplitTokens(inside))
  {
    var parts := SplitArgs(inside);
    typed := [];
    var k := 0;
    while k < |parts|
      invariant 0 <= k <= |parts|
      invariant typed == Params(parts[..k])
    {
      ParamsStep(parts, k);
      var p := Param(parts[k]);
      k := k + 1;
      if p.None? {
        continue;
      }
      typed := typed + [p.value];
    }
    assert parts[..k] == parts;
  }

  // ---------------------------------------------------------------------
  // Trailing defaults

  /** The number of parameters, counted from the end, that carry a default,
      up to the first that does not. */
  function TrailingDefaults(typed: seq<(string, bool)>): (r: nat)
    ensures r <= |typed|
    ensures forall k :: |typed| - r <= k < |typed| ==> typed[k].1
    ensures r < |typed| ==> !typed[|typed| - r - 1].1
  {
    if typed == [] || !typed[|typed| - 1].1 then 0
    else 1 + TrailingDefaults(typed[..|typed| - 1])
  }

  lemma TrailingDefaultsStep(typed: seq<(string, bool)>, k: nat)
    requires 0 < k <= |typed|
    ensures TrailingDefaults(typed[..k]) == if typed[k - 1].1 then 1 + TrailingDefaults(typed[..k - 1]) else 0
  {
    assert typed[..k][..k - 1] == typed[..k - 1];
  }

  /** The `for t, has_def in reversed(typed)` loop. */
  method CountTrailingDefaults(typed: seq<(string, bool)>) returns (defaults: nat)
    ensures defaults == TrailingDefaults(typed)
  {
    defaults := 0;
    var k := |typed|;
    while k > 0
      invariant 0 <= k <= |typed| && defaults == |typed| - k
      invariant TrailingDefaults(typed) == defaults + TrailingDefaults(typed[..k])
    {
      TrailingDefaultsStep(typed, k);
      if typed[k - 1].1 {
        defaults := defaults + 1;
      } else {
        break;
      }
      k := k - 1;
    }
  }

  // ---------------------------------------------------------------------
  // Records

  /** `{"args": [...], "defaults": n}` */
  datatype Overload = Overload(args: seq<string>, defaults: nat)

  function TypesOf(typed: seq<(string, bool)>): (r: seq<string>)
    ensures |r| == |typed| && forall k :: 0 <= k < |typed| ==> r[k] == typed[k].0
  {
    seq(|typed|, k requires 0 <= k < |typed| => typed[k].0)
  }

  /** The record a joined signature yields, or None where it has no
      parentheses or no typed parameter. */
  function RecordOf(sig: string): (r: Option<Overload>)
    ensures r.Some? ==> '(' in sig && ')' in sig
    ensures r.Some? ==> WellFormed(r.value)
  {
    match InsideParens(sig)
    case None => None
    case Some(inside) =>
      var typed := Params(SplitTokens(inside));
      if typed == [] then None else Some(OverloadOf(typed))
  }

  /** The record of a non-empty list of typed parameters. */
  function OverloadOf(typed: seq<(string, bool)>): (o: Overload)
    requires typed != [] && forall x :: x in typed ==> Compact(x.0)
    ensures WellFormed(o) && |o.args| == |typed|
  {
    assert forall k :: 0 <= k < |typed| ==> typed[k] in typed;
    Overload(TypesOf(typed), TrailingDefaults(typed))
  }

  /** At least one argument, no more defaults than arguments, and every
      argument type normalised. */
  predicate WellFormed(o: Overload) {
    |o.args| >= 1 && o.defaults <= |o.args| && forall a :: a in o.args ==> Compact(a)
  }

  // ---------------------------------------------------------------------
  // harvest_from_help

  /** The record of the signature headed at line `i`, if that line is an
      `__init__` head and its signature yields one. */
  function HeadRecord(lines: seq<string>, i: nat): Option<Overload>
    requires i < |lines|
  {
    if !InitHead(StripLeadingUI(lines[i])) then None
    else RecordOf(Join(" ", SigLines(lines, i, false).0))
  }

  /** The line the outer loop moves to after line `i`: the next one, or the
      one after a signature's last line. */
  function Next(lines: seq<string>, i: nat): (n: nat)
    requires i < |lines|
    ensures i < n <= |lines|
  {
    if !InitHead(StripLeadingUI(lines[i])) then i + 1 else SigLines(lines, i, false).1 + 1
  }

  /** The records of the `__init__` heads from line `i` on, in page order,
      repeats included. */
  function Scan(lines: seq<string>, i: nat): seq<Overload>
    requires i <= |lines|
    decreases |lines| - i
  {
    if i == |lines| then [] else OptSeq(HeadRecord(lines, i)) + Scan(lines, Next(lines, i))
  }

  /** What `harvest_from_help` returns for the lines of a help page. */
  function Harvest(lines: seq<string>): seq<Overload> {
    Dedup(Scan(lines, 0))
  }

  /** The body of the outer loop at an `__init__` head: the signature's
      record, if any, and the index of its last line. */
  method ReadHead(lines: seq<string>, i: nat) returns (rec: Option<Overload>, last: nat)
    requires i < |lines| && InitHead(StripLeadingUI(lines[i]))
    ensures rec == HeadRecord(lines, i) && last + 1 == Next(lines, i)
  {
    var buf;
    buf, last := CollectSignature(lines, i, false);
    var sig := Join(" ", buf);
    var inside := InsideParens(sig);
    if inside.None? {
      return None, last;
    }
    var typed := ParseInitInside(inside.value);
    if typed == [] {
      return None, last;
    }
    var defaults := CountTrailingDefaults(typed);
    rec := Some(Overload(TypesOf(typed), defaults));
  }

  /** A line that is no `__init__` head yields nothing and is stepped over. */
  lemma PlainLine(lines: seq<string>, i: nat)
    requires i < |lines| && !InitHead(StripLeadingUI(lines[i]))
    ensures HeadRecord(lines, i) == None && Next(lines, i) == i + 1
  {
  }

  lemma ScanUnfold(lines: seq<string>, i: nat)
    requires i < |lines|
    ensures Scan(lines, i) == OptSeq(HeadRecord(lines, i)) + Scan(lines, Next(lines, i))
  {
  }

  /** The records still to come after one turn of the outer loop. */
  lemma ScanAdvance(lines: seq<string>, i: nat, seen: seq<Overload>, total: seq<Overload>, found: Option<Overload>, next: nat)
    requires i < |lines| && total == seen + Scan(lines, i)
    requires found == HeadRecord(lines, i) && next == Next(lines, i)
    ensures total == (seen + OptSeq(found)) + Scan(lines, next)
  {
    ScanUnfold(lines, i);
    AppendAssoc(seen, OptSeq(found), Scan(lines, next));
  }

  /** `harvest_from_help`, from the lines of the rendered page on. */
  method HarvestFromHelp(lines: seq<string>) returns (overloads: seq<Overload>)
    ensures overloads == Harvest(lines)
  {
    overloads := [];
    ghost var seen: seq<Overload> := [];
    var i := 0;
    ghost var total := Scan(lines, i);
    while i < |lines|
      invariant 0 <= i <= |lines|
      invariant total == seen + Scan(lines, i)
      invariant overloads == Dedup(seen)
    {
      ghost var head := i;
      ghost var found := HeadRecord(lines, i);
      var s := StripLeadingUI(lines[i]);
      if InitHead(s) {
        var rec, last := ReadHead(lines, i);
        if rec.Some? {
          DedupAppend(seen, rec.value);
          if rec.value !in overloads {
            overloads := overloads + [rec.value];
          }
        }
        i := last;
      } else {
        PlainLine(lines, i);
      }
      i := i + 1;
      ScanAdvance(lines, head, seen, total, found, i);
      if found.None? {
        assert seen + OptSeq(found) == seen;
      }
      seen := seen + OptSeq(found);
    }
    assert seen + [] == seen;
  }

  /** The harvested list holds no record twice, exactly the records found
      on the page, each well formed. */
  lemma HarvestProps(lines: seq<string>)
    ensures NoDup(Harvest(lines))
    ensures forall o :: o in Harvest(lines) <==> o in Scan(lines, 0)
    ensures forall o :: o in Harvest(lines) ==> WellFormed(o)
  {
    DedupProps(Scan(lines, 0));
    ScanWellFormed(lines, 0);
  }

  lemma {:induction false} ScanWellFormed(lines: seq<string>, i: nat)
    requires i <= |lines|
    ensures forall o :: o in Scan(lines, i) ==> WellFormed(o)
    decreases |lines| - i
  {
    if i < |lines| {
      ScanWellFormed(lines, Next(lines, i));
    }
  }
}
