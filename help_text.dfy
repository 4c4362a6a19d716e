/** What the two constructor harvesters (`chrono_ctor_harvester_v5.py` and
    `chrono_ctor_harvester_v3.py`) share: reading `__init__(...)` signatures
    out of the lines of a rendered help page, the bracket-aware argument
    splitter, the `std::shared_ptr<...>` collapse, the canonical type table
    and order-preserving deduplication. The two files carry identical copies
    of this code, except that the v3 continuation also stops at a blank line;
    that difference is the `stopAtBlank` flag. */
module HelpText {
  import opened PyText

  // ---------------------------------------------------------------------
  // Line prefixes and signature heads

  /** A character of the `LEADING_UI` class: whitespace, `|`, or a
      box-drawing character U+2500..U+257F. */
  predicate IsLeadingUI(c: char) {
    IsSpace(c) || c == '|' || 0x2500 <= c as int <= 0x257F
  }

  function LeadingUI(s: string): (k: nat)
    ensures k <= |s|
    ensures forall i :: 0 <= i < k ==> IsLeadingUI(s[i])
    ensures k < |s| ==> !IsLeadingUI(s[k])
  {
    if s != [] && IsLeadingUI(s[0]) then 1 + LeadingUI(s[1..]) else 0
  }

  /** `LEADING_UI.sub("", s)`: the longest prefix of UI characters removed. */
  function StripLeadingUI(s: string): (r: string)
    ensures |r| <= |s| && r == s[|s| - |r|..]
    ensures forall i :: 0 <= i < |s| - |r| ==> IsLeadingUI(s[i])
    ensures r != [] ==> !IsLeadingUI(r[0])
  {
    s[LeadingUI(s)..]
  }

  /** `INIT_HEAD.match(s)`: `__init__`, optional whitespace, then `(`. */
  predicate InitHead(s: string) {
    StartsWith(s, "__init__")
    && var rest := s[8..];
    LeadingSpaces(rest) < |rest| && rest[LeadingSpaces(rest)] == '('
  }

  /** The last character of `s` that is not whitespace. */
  function LastNonSpace(s: string): Option<char> {
    if s == [] then None
    else if IsSpace(s[|s| - 1]) then LastNonSpace(s[..|s| - 1])
    else Some(s[|s| - 1])
  }

  /** Where the accumulation of a wrapped signature stops before taking a
      line: at a new `__init__(` head, at a line ending in `:` once
      stripped, and (v3 only) at a blank line; see `StopsMeaning`. */
  predicate Stops(line: string, stopAtBlank: bool) {
    InitHead(line) || LastNonSpace(line) == Some(':') || (stopAtBlank && LastNonSpace(line).None?)
  }

  /** The last non-space character is the one before the trailing spaces. */
  lemma {:induction false} LastNonSpaceTrailing(s: string)
    ensures LastNonSpace(s) == if TrailingSpaces(s) == |s| then None else Some(s[|s| - TrailingSpaces(s) - 1])
    decreases |s|
  {
    if s != [] && IsSpace(s[|s| - 1]) {
      LastNonSpaceTrailing(s[..|s| - 1]);
    }
  }

  lemma LastNonSpaceStrip(s: string)
    ensures LastNonSpace(s).None? <==> Strip(s) == []
    ensures LastNonSpace(s).Some? ==> LastNonSpace(s).value == Strip(s)[|Strip(s)| - 1]
  {
    LastNonSpaceNone(s);
    if LastNonSpace(s).Some? {
      LastNonSpaceSome(s);
    }
  }

  lemma LastNonSpaceNone(s: string)
    ensures LastNonSpace(s).None? <==> Strip(s) == []
  {
    LastNonSpaceTrailing(s);
  }

  lemma LastNonSpaceSome(s: string)
    requires LastNonSpace(s).Some?
    ensures |Strip(s)| > 0 && LastNonSpace(s).value == Strip(s)[|Strip(s)| - 1]
  {
    LastNonSpaceAt(s);
    StripLast(s);
  }

  lemma LastNonSpaceAt(s: string)
    requires LastNonSpace(s).Some?
    ensures TrailingSpaces(s) < |s| && LastNonSpace(s).value == s[|s| - TrailingSpaces(s) - 1]
  {
    LastNonSpaceTrailing(s);
  }

  /** The stop test is the one the harvesters write with `strip()`. */
  lemma StopsMeaning(line: string, stopAtBlank: bool)
    ensures Stops(line, stopAtBlank) <==>
      InitHead(line) || EndsWith(Strip(line), ":") || (stopAtBlank && Strip(line) == [])
  {
    LastNonSpaceStrip(line);
    var r := Strip(line);
    if r != [] {
      assert EndsWith(r, ":") <==> r[|r| - 1] == ':';
    }
  }

  /** The continuation lines taken from index `j` on, and the index after
      the last line taken: lines are taken until a stop line (not taken),
      a line holding `)` (taken), or the end of the page. */
  function Continuation(lines: seq<string>, j: nat, stopAtBlank: bool): (r: (seq<string>, nat))
    requires j <= |lines|
    ensures j <= r.1 <= |lines| && |r.0| == r.1 - j
    decreases |lines| - j
  {
    if j == |lines| then ([], j)
    else
      var next := StripLeadingUI(lines[j]);
      if Stops(next, stopAtBlank) then ([], j)
      else if ')' in next then ([next], j + 1)
      else
        var rest := Continuation(lines, j + 1, stopAtBlank);
        ([next] + rest.0, rest.1)
  }

  /** The break test of the accumulation loop. */
  method IsStopLine(line: string, stopAtBlank: bool) returns (stop: bool)
    ensures stop == Stops(line, stopAtBlank)
  {
    var stripped := Strip(line);
    StopsMeaning(line, stopAtBlank);
    stop := InitHead(line) || EndsWith(stripped, ":") || (stopAtBlank && stripped == []);
  }

  /** Line `k` of the continuation is line `j + k` of the page, UI prefix
      removed; it is no stop line, and only the last one may hold `)`. */
  lemma ContinuationLine(lines: seq<string>, j: nat, stopAtBlank: bool, k: nat)
    requires j <= |lines| && k < |Continuation(lines, j, stopAtBlank).0|
    ensures var r := Continuation(lines, j, stopAtBlank);
      && r.0[k] == StripLeadingUI(lines[j + k]) && !Stops(r.0[k], stopAtBlank)
      && (k < |r.0| - 1 ==> ')' !in r.0[k])
  {
    ContinuationLineAt(lines, j, stopAtBlank, k);
    ContinuationLineOpen(lines, j, stopAtBlank, k);
  }

  lemma {:induction false} ContinuationLineAt(lines: seq<string>, j: nat, stopAtBlank: bool, k: nat)
    requires j <= |lines| && k < |Continuation(lines, j, stopAtBlank).0|
    ensures j + k < |lines| && Continuation(lines, j, stopAtBlank).0[k] == StripLeadingUI(lines[j + k])
    decreases k
  {
    if k == 0 {
      ContinuationHead(lines, j, stopAtBlank);
    } else {
      ContinuationTail(lines, j, stopAtBlank);
      ContinuationLineAt(lines, j + 1, stopAtBlank, k - 1);
      var r := Continuation(lines, j, stopAtBlank).0;
      assert r[k] == r[1..][k - 1];
      assert j + 1 + (k - 1) == j + k;
    }
  }

  lemma {:induction false} ContinuationLineOpen(lines: seq<string>, j: nat, stopAtBlank: bool, k: nat)
    requires j <= |lines| && k < |Continuation(lines, j, stopAtBlank).0|
    ensures var r := Continuation(lines, j, stopAtBlank);
      !Stops(r.0[k], stopAtBlank) && (k < |r.0| - 1 ==> ')' !in r.0[k])
    decreases k
  {
    ContinuationHead(lines, j, stopAtBlank);
    if |Continuation(lines, j, stopAtBlank).0| > 1 {
      ContinuationTail(lines, j, stopAtBlank);
      if k > 0 {
        ContinuationLineOpen(lines, j + 1, stopAtBlank, k - 1);
      }
    }
  }

  /** The first line of a continuation is the next line, a line that does
      not stop it. */
  lemma ContinuationHead(lines: seq<string>, j: nat, stopAtBlank: bool)
    requires j <= |lines| && |Continuation(lines, j, stopAtBlank).0| > 0
    ensures j < |lines|
    ensures var next := StripLeadingUI(lines[j]);
      Continuation(lines, j, stopAtBlank).0[0] == next && !Stops(next, stopAtBlank)
  {
  }

  /** A continuation of two lines or more goes on past a line without `)`. */
  lemma ContinuationTail(lines: seq<string>, j: nat, stopAtBlank: bool)
    requires j <= |lines| && |Continuation(lines, j, stopAtBlank).0| > 1
    ensures j < |lines| && ')' !in StripLeadingUI(lines[j])
    ensures Continuation(lines, j, stopAtBlank).0[1..] == Continuation(lines, j + 1, stopAtBlank).0
  {
  }

  /** The continuation ends at the end of the page, after a line holding
      `)`, or before a stop line. */
  lemma {:induction false} ContinuationEnd(lines: seq<string>, j: nat, stopAtBlank: bool)
    requires j <= |lines|
    ensures var r := Continuation(lines, j, stopAtBlank);
      r.1 == |lines| || (r.0 != [] && ')' in r.0[|r.0| - 1]) || Stops(StripLeadingUI(lines[r.1]), stopAtBlank)
    decreases |lines| - j
  {
    if j < |lines| {
      var next := StripLeadingUI(lines[j]);
      if !Stops(next, stopAtBlank) && ')' !in next {
        ContinuationEnd(lines, j + 1, stopAtBlank);
      }
    }
  }

  /** The lines of the signature starting at line `i`, and the index of
      its last line (`i = j - 1` in the harvesters). */
  function SigLines(lines: seq<string>, i: nat, stopAtBlank: bool): (r: (seq<string>, nat))
    requires i < |lines|
    ensures |r.0| >= 1 && r.0[0] == StripLeadingUI(lines[i])
    ensures i <= r.1 < |lines|
  {
    var s := StripLeadingUI(lines[i]);
    if ')' in s then ([s], i)
    else
      var c := Continuation(lines, i + 1, stopAtBlank);
      ([s] + c.0, c.1 - 1)
  }

  /** One step of the continuation. */
  lemma ContinuationStep(lines: seq<string>, j: nat, stopAtBlank: bool)
    requires j < |lines|
    ensures var next := StripLeadingUI(lines[j]); var r := Continuation(lines, j, stopAtBlank);
      && (Stops(next, stopAtBlank) ==> r == ([], j))
      && (!Stops(next, stopAtBlank) && ')' in next ==> r == ([next], j + 1))
      && (!Stops(next, stopAtBlank) && ')' !in next ==>
            r.0 == [next] + Continuation(lines, j + 1, stopAtBlank).0 && r.1 == Continuation(lines, j + 1, stopAtBlank).1)
  {
  }

  /** What one more turn of the accumulation loop does to the lines still
      to come. */
  lemma ContinuationAdvance(lines: seq<string>, j: nat, stopAtBlank: bool, acc: seq<string>, whole: (seq<string>, nat))
    requires j < |lines|
    requires whole.0 == acc + Continuation(lines, j, stopAtBlank).0
    requires whole.1 == Continuation(lines, j, stopAtBlank).1
    ensures var next := StripLeadingUI(lines[j]);
      && (Stops(next, stopAtBlank) ==> whole.0 == acc && whole.1 == j)
      && (!Stops(next, stopAtBlank) && ')' in next ==> whole.0 == acc + [next] && whole.1 == j + 1)
      && (!Stops(next, stopAtBlank) && ')' !in next ==>
            whole.0 == (acc + [next]) + Continuation(lines, j + 1, stopAtBlank).0
            && whole.1 == Continuation(lines, j + 1, stopAtBlank).1)
  {
    ContinuationStep(lines, j, stopAtBlank);
    var next := StripLeadingUI(lines[j]);
    if Stops(next, stopAtBlank) {
      assert acc + [] == acc;
    } else if ')' !in next {
      assert acc + ([next] + Continuation(lines, j + 1, stopAtBlank).0)
        == (acc + [next]) + Continuation(lines, j + 1, stopAtBlank).0;
    }
  }

  /** The `while j < len(lines)` loop: the lines appended after the head,
      and the index the loop stops at. */
  method CollectContinuation(lines: seq<string>, j0: nat, stopAtBlank: bool) returns (acc: seq<string>, j: nat)
    requires j0 <= |lines|
    ensures (acc, j) == Continuation(lines, j0, stopAtBlank)
  {
    ghost var whole := Continuation(lines, j0, stopAtBlank);
    acc := [];
    j := j0;
    while j < |lines|
      invariant j0 <= j <= |lines|
      invariant whole.0 == acc + Continuation(lines, j, stopAtBlank).0
      invariant whole.1 == Continuation(lines, j, stopAtBlank).1
    {
      var next := StripLeadingUI(lines[j]);
      ContinuationAdvance(lines, j, stopAtBlank, acc, whole);
      var stop := IsStopLine(next, stopAtBlank);
      if stop {
        break;
      }
      acc := acc + [next];
      j := j + 1;
      if ')' in next {
        break;
      }
    }
    assert whole.0 == acc && whole.1 == j;
  }

  /** The accumulation loop of `harvest_from_help`: the head line and its
      continuation lines, and the index of the last line consumed. */
  method CollectSignature(lines: seq<string>, i: nat, stopAtBlank: bool) returns (buf: seq<string>, last: nat)
    requires i < |lines|
    ensures (buf, last) == SigLines(lines, i, stopAtBlank)
  {
    var s := StripLeadingUI(lines[i]);
    buf := [s];
    last := i;
    if ')' !in s {
      var acc, j := CollectContinuation(lines, i + 1, stopAtBlank);
      buf := buf + acc;
      last := j - 1;
    }
  }

  /** `sig[sig.index("(") + 1 : sig.rindex(")")]`, or None where either
      search raises ValueError: the text strictly between the first `(` and
      the last `)`, empty when that `)` comes before that `(`. */
  function InsideParens(sig: string): (r: Option<string>)
    ensures r.Some? <==> '(' in sig && ')' in sig
    ensures forall a: nat, b: nat ::
      a < |sig| && sig[a] == '(' && '(' !in sig[..a] && b < |sig| && sig[b] == ')' && ')' !in sig[b + 1..] ==>
        r == Some(if a + 1 <= b then sig[a + 1..b] else [])
  {
    match IndexOf(sig, '(')
    case None => None
    case Some(a) =>
      match LastIndexOf(sig, ')')
      case None => None
      case Some(b) => Some(PySlice(sig, a + 1, b))
  }

  // ---------------------------------------------------------------------
  // split_args

  /** The bracket depth after reading `s`: `<` opens, `>` closes but never
      below zero. */
  function Depth(s: string): nat {
    if s == [] then 0
    else
      var d := Depth(s[..|s| - 1]);
      var c := s[|s| - 1];
      if c == '<' then d + 1
      else if c == '>' then (if d >= 1 then d - 1 else 0)
      else d
  }

  /** The number of commas of `s` read at depth zero. */
  function TopCommas(s: string): nat {
    if s == [] then 0
    else TopCommas(s[..|s| - 1]) + (if s[|s| - 1] == ',' && Depth(s[..|s| - 1]) == 0 then 1 else 0)
  }

  /** The raw buffers of `split_args` before stripping: `s` cut at every
      comma read at depth zero, those commas dropped. */
  function Pieces(s: string): (ps: seq<string>)
    ensures |ps| >= 1
  {
    if s == [] then [[]]
    else
      var front := s[..|s| - 1];
      var ps := Pieces(front);
      var c := s[|s| - 1];
      if c == ',' && Depth(front) == 0 then ps + [[]]
      else ps[..|ps| - 1] + [ps[|ps| - 1] + [c]]
  }

  /** The stripped buffers that are not empty, in order. */
  function KeepTokens(ps: seq<string>): (ts: seq<string>)
    ensures |ts| <= |ps|
  {
    if ps == [] then []
    else
      var t := Strip(ps[|ps| - 1]);
      KeepTokens(ps[..|ps| - 1]) + (if t != [] then [t] else [])
  }

  /** What `split_args` returns. */
  function SplitTokens(s: string): seq<string> {
    KeepTokens(Pieces(s))
  }

  /** Reading one more character. */
  lemma PiecesStep(s: string, k: nat)
    requires k < |s|
    ensures var ps := Pieces(s[..k]);
      && Depth(s[..k + 1]) == (if s[k] == '<' then Depth(s[..k]) + 1
                               else if s[k] == '>' then (if Depth(s[..k]) >= 1 then Depth(s[..k]) - 1 else 0)
                               else Depth(s[..k]))
      && Pieces(s[..k + 1]) == (if s[k] == ',' && Depth(s[..k]) == 0 then ps + [[]]
                                else ps[..|ps| - 1] + [ps[|ps| - 1] + [s[k]]])
  {
    assert s[..k + 1][..k] == s[..k];
  }

  lemma KeepTokensSnoc(ps: seq<string>, p: string)
    ensures KeepTokens(ps + [p]) == KeepTokens(ps) + (if Strip(p) != [] then [Strip(p)] else [])
  {
    assert (ps + [p])[..|ps|] == ps;
  }

  /** The state of `split_args` after reading the first `k` characters. */
  predicate SplitState(s: string, k: nat, out: seq<string>, buf: string, depth: int) {
    k <= |s| && depth == Depth(s[..k]) &&
    var ps := Pieces(s[..k]);
    buf == ps[|ps| - 1] && out == KeepTokens(ps[..|ps| - 1])
  }

  /** A comma at depth zero closes the buffer: its strip is kept when it
      is not empty, and a new buffer starts. */
  lemma SplitCommaStep(s: string, k: nat, out0: seq<string>, buf0: string)
    requires k < |s| && s[k] == ',' && SplitState(s, k, out0, buf0, 0)
    ensures SplitState(s, k + 1, out0 + (if Strip(buf0) != [] then [Strip(buf0)] else []), [], 0)
  {
    PiecesStep(s, k);
    var ps := Pieces(s[..k]);
    KeepTokensSnoc(ps[..|ps| - 1], buf0);
    assert ps[..|ps| - 1] + [buf0] == ps;
    assert (ps + [[]])[..|ps|] == ps;
  }

  /** Any other character extends the buffer, with the depth it leaves. */
  lemma SplitKeepStep(s: string, k: nat, out0: seq<string>, buf0: string, depth0: int, depth: int)
    requires k < |s| && !(s[k] == ',' && depth0 == 0) && SplitState(s, k, out0, buf0, depth0)
    requires depth == (if s[k] == '<' then depth0 + 1 else if s[k] == '>' then (if depth0 - 1 > 0 then depth0 - 1 else 0) else depth0)
    ensures SplitState(s, k + 1, out0, buf0 + [s[k]], depth)
  {
    PiecesStep(s, k);
    var ps := Pieces(s[..k]);
    assert (ps[..|ps| - 1] + [buf0 + [s[k]]])[..|ps| - 1] == ps[..|ps| - 1];
  }

  /** One character of the loop of `split_args`. */
  method SplitChar(s: string, k: nat, out0: seq<string>, buf0: string, depth0: int)
    returns (out: seq<string>, buf: string, depth: int)
    requires k < |s| && SplitState(s, k, out0, buf0, depth0)
    ensures SplitState(s, k + 1, out, buf, depth)
  {
    var ch := s[k];
    out, buf, depth := out0, buf0, depth0;
    if ch == '<' {
      depth := depth + 1;
    } else if ch == '>' {
      depth := if depth - 1 > 0 then depth - 1 else 0;
    } else if ch == ',' && depth == 0 {
      SplitCommaStep(s, k, out0, buf0);
      var tok := Strip(buf);
      if tok != [] {
        out := out + [tok];
      }
      buf := [];
      return;
    }
    SplitKeepStep(s, k, out0, buf0, depth0, depth);
    buf := buf + [ch];
  }

  /** `split_args` */
  method SplitArgs(arglist: string) returns (out: seq<string>)
    ensures out == SplitTokens(arglist)
  {
    out := [];
    var buf: string := [];
    var depth: int := 0;
    var k := 0;
    assert arglist[..k] == [];
    while k < |arglist|
      invariant SplitState(arglist, k, out, buf, depth)
    {
      out, buf, depth := SplitChar(arglist, k, out, buf, depth);
      k := k + 1;
    }
    assert arglist[..k] == arglist;
    ghost var ps := Pieces(arglist);
    KeepTokensSnoc(ps[..|ps| - 1], buf);
    assert ps == ps[..|ps| - 1] + [buf];
    var last := Strip(buf);
    if last != [] {
      out := out + [last];
    }
  }

  /** Joining the raw buffers with commas gives back the argument list:
      nothing is lost but the separating commas. */
  lemma {:induction false} JoinPieces(s: string)
    ensures Join(",", Pieces(s)) == s
    decreases |s|
  {
    if s != [] {
      var front := s[..|s| - 1];
      var c := s[|s| - 1];
      var ps := Pieces(front);
      JoinPieces(front);
      assert s == front + [c];
      if c == ',' && Depth(front) == 0 {
        JoinSnoc(",", ps, []);
        assert Join(",", ps) + "," + [] == front + [c];
      } else {
        JoinExtendLast(",", ps, c);
      }
    }
  }

  lemma JoinSnoc(sep: string, ps: seq<string>, p: string)
    requires |ps| >= 1
    ensures Join(sep, ps + [p]) == Join(sep, ps) + sep + p
  {
    assert (ps + [p])[..|ps|] == ps;
  }

  /** Appending a character to the last part appends it to the join. */
  lemma JoinExtendLast(sep: string, ps: seq<string>, c: char)
    requires |ps| >= 1
    ensures Join(sep, ps[..|ps| - 1] + [ps[|ps| - 1] + [c]]) == Join(sep, ps) + [c]
  {
    var init := ps[..|ps| - 1];
    var last := ps[|ps| - 1];
    var qs := init + [last + [c]];
    if |ps| == 1 {
      assert qs == [last + [c]];
    } else {
      assert qs[..|qs| - 1] == init && qs[|qs| - 1] == last + [c];
      assert Join(sep, qs) == Join(sep, init) + sep + (last + [c]);
      assert Join(sep, ps) == Join(sep, init) + sep + last;
      assert Join(sep, init) + sep + (last + [c]) == (Join(sep, init) + sep + last) + [c];
    }
  }

  /** One buffer more than there are commas at depth zero: every such comma
      splits, and no comma inside `<...>` does. */
  lemma {:induction false} PiecesCount(s: string)
    ensures |Pieces(s)| == 1 + TopCommas(s)
    decreases |s|
  {
    if s != [] {
      PiecesCount(s[..|s| - 1]);
    }
  }

  /** Every token is stripped and not empty. */
  lemma {:induction false} TokensClean(ps: seq<string>)
    ensures forall t :: t in KeepTokens(ps) ==> t != [] && Strip(t) == t
    decreases |ps|
  {
    if ps != [] {
      TokensClean(ps[..|ps| - 1]);
      StripIdempotent(ps[|ps| - 1]);
    }
  }

  /** Without a comma at depth zero there is at most one token. */
  lemma NoTopCommaOneToken(s: string)
    requires TopCommas(s) == 0
    ensures |SplitTokens(s)| <= 1
  {
    PiecesCount(s);
  }

  // ---------------------------------------------------------------------
  // The type word of a parameter

  /** `p` begins with the word `w`: a non-empty word free of whitespace and
      `=`, followed by the end of `p`, a space or `=`. In `double radius`,
      `const double& r` and `material=0` these words are `double`, `const`
      and `material`. */
  predicate LeadingWord(p: string, w: string) {
    && w != []
    && (forall c :: c in w ==> !IsSpace(c) && c != '=')
    && StartsWith(p, w)
    && (|p| == |w| || p[|w|] == ' ' || p[|w|] == '=')
  }

  /** `left.split(" ", 1)[0] if " " in left else left`: what both harvesters
      hand to the normaliser. */
  function TypeWord(left: string): string {
    if ' ' in left then FirstField(left, ' ') else left
  }

  /** On a text made of the word and then, if anything, a space, the cut
      gives the word. */
  lemma CutAtSpace(left: string, w: string)
    requires StartsWith(left, w) && ' ' !in w
    requires |left| > |w| ==> left[|w|] == ' '
    ensures TypeWord(left) == w
  {
    if ' ' in left {
      assert left[..|w|] == w;
      FirstFieldAt(left, ' ', |w|);
    }
  }

  /** Both harvesters' `p.split("=", 1)[0].strip()` followed by the cut at
      the first space give the leading word. */
  lemma WordBeforeEquals(p: string, w: string)
    requires LeadingWord(p, w)
    ensures TypeWord(Strip(FirstField(p, '='))) == w
  {
    var ff := FirstField(p, '=');
    FirstFieldLong(p, '=', |w|);
    assert ff[..|w|] == p[..|w|] == w;
    if |ff| > |w| {
      assert ff[|w|] in ff;
    }
    assert w[0] in w && w[|w| - 1] in w;
    StripPrefix(ff, |w|);
    var left := Strip(ff);
    assert left[..|w|] == ff[..|w|];
    if |left| > |w| {
      assert left[|w|] == ff[|w|];
    }
    CutAtSpace(left, w);
  }

  /** Stripping a parameter that begins with a word keeps that word in
      front. */
  lemma LeadingWordStrip(p: string, w: string)
    requires LeadingWord(p, w)
    ensures LeadingWord(Strip(p), w)
  {
    assert w[0] in w && w[|w| - 1] in w;
    assert p[..|w|] == w;
    StripPrefix(p, |w|);
    var q := Strip(p);
    assert q[..|w|] == p[..|w|];
    if |q| > |w| {
      assert q[|w|] == p[|w|];
    }
  }

  /** The type word of a parameter that begins with a word is that word,
      whether the text is first cut at `=` or, having no `=`, is not. */
  lemma TypeWordOf(p: string)
    ensures forall w :: LeadingWord(p, w) ==> TypeWord(Strip(FirstField(p, '='))) == w
    ensures forall w :: LeadingWord(p, w) && '=' !in p ==> TypeWord(p) == w
  {
    forall w | LeadingWord(p, w)
      ensures TypeWord(Strip(FirstField(p, '='))) == w
      ensures '=' !in p ==> TypeWord(p) == w
    {
      WordBeforeEquals(p, w);
      if '=' !in p && |p| > |w| {
        assert p[|w|] in p;
      }
      if '=' !in p {
        CutAtSpace(p, w);
      }
    }
  }

  /** Stripping keeps every leading word of a parameter. */
  lemma LeadingWordsStrip(p: string)
    ensures forall w :: LeadingWord(p, w) ==> LeadingWord(Strip(p), w)
  {
    forall w | LeadingWord(p, w) ensures LeadingWord(Strip(p), w) {
      LeadingWordStrip(p, w);
    }
  }

  /** `[f(x) for x in xs]` */
  function Map<A, B>(f: A -> B, xs: seq<A>): (ys: seq<B>)
    ensures |ys| == |xs|
  {
    if xs == [] then [] else Map(f, xs[..|xs| - 1]) + [f(xs[|xs| - 1])]
  }

  lemma MapLast<A, B>(f: A -> B, xs: seq<A>)
    requires xs != []
    ensures Map(f, xs)[..|xs| - 1] == Map(f, xs[..|xs| - 1])
    ensures Map(f, xs)[|xs| - 1] == f(xs[|xs| - 1])
  {
  }

  lemma {:induction false} MapAt<A, B>(f: A -> B, xs: seq<A>, k: nat)
    requires k < |xs|
    ensures Map(f, xs)[k] == f(xs[k])
    decreases |xs|
  {
    var n := |xs| - 1;
    if k < n {
      MapAt(f, xs[..n], k);
    }
  }

  // ---------------------------------------------------------------------
  // The shared_ptr collapse

  /** An attempt of `std::shared_ptr\s*<\s*([^>]+)\s*>` at the start of `t`:
      the group and the length of the match. The group runs to the first
      `>` after `<`, without its leading whitespace, except that content made
      of whitespace only keeps its last character. */
  function SharedPtrMatch(t: string): (r: Option<(string, nat)>)
    ensures r.Some? ==> 0 < r.value.1 <= |t| && r.value.0 != [] && '>' !in r.value.0
    ensures r.Some? ==> StartsWith(t, "std::shared_ptr")
  {
    if !StartsWith(t, "std::shared_ptr") then None
    else
      var rest := t[15..];
      var k := LeadingSpaces(rest);
      if k == |rest| || rest[k] != '<' then None
      else
        var after := rest[k + 1..];
        match IndexOf(after, '>')
        case None => None
        case Some(e) =>
          if e == 0 then None
          else
            var content := after[..e];
            var lead := LeadingSpaces(content);
            var group := if lead < |content| then content[lead..] else content[|content| - 1..];
            assert forall c :: c in group ==> c in content;
            Some((group, 15 + k + 1 + e + 1))
  }

  /** `re.sub` of that pattern with its group: every leftmost match, in
      turn, replaced by its group. */
  function SubSharedPtr(t: string): string
    decreases |t|
  {
    if t == [] then []
    else match SharedPtrMatch(t)
      case Some(m) => m.0 + SubSharedPtr(t[m.1..])
      case None => [t[0]] + SubSharedPtr(t[1..])
  }

  /** A type without `::` contains no `std::shared_ptr` and is left alone. */
  lemma {:induction false} SubSharedPtrIdentity(t: string)
    requires NoDoubleColon(t)
    ensures SubSharedPtr(t) == t
    decreases |t|
  {
    if t != [] {
      NoSharedPtrAt(t);
      NoDoubleColonSlice(t, 1, |t|);
      SubSharedPtrIdentity(t[1..]);
    }
  }

  lemma NoSharedPtrAt(t: string)
    requires NoDoubleColon(t)
    ensures SharedPtrMatch(t).None?
  {
    NoSharedPtrPrefix(t);
  }

  lemma NoSharedPtrPrefix(t: string)
    requires NoDoubleColon(t)
    ensures !StartsWith(t, "std::shared_ptr")
  {
    var p := "std::shared_ptr";
    assert p[3] == ':' && p[4] == ':';
    assert |t| >= 5 ==> !(t[3] == ':' && t[4] == ':');
  }

  // ---------------------------------------------------------------------
  // The canonical type table

  const ScalarDoubles: set<string> := {"double", "float"}
  const ScalarInts: set<string> := {"int", "unsigned", "unsigned int", "size_t"}

  /** The last step of both normalisers: scalars to `double`/`int`/`bool`,
      `ChContactMaterial*` and `ChAxis*` collapsed, anything else kept. */
  function Canonical(t: string): (r: string)
    ensures r == t || r in {"double", "int", "bool", "ChContactMaterial", "ChAxis"}
    ensures t in {"double", "float"} ==> r == "double"
    ensures t in {"int", "unsigned", "unsigned int", "size_t"} ==> r == "int"
    ensures t == "bool" ==> r == "bool"
    ensures StartsWith(t, "ChContactMaterial") ==> r == "ChContactMaterial"
    ensures StartsWith(t, "ChAxis") ==> r == "ChAxis"
    ensures r != t ==>
      t in ScalarDoubles + ScalarInts || StartsWith(t, "ChContactMaterial") || StartsWith(t, "ChAxis")
  {
    if t in ScalarDoubles then "double"
    else if t in ScalarInts then
      assert t[0] != 'C';
      "int"
    else if t == "bool" then "bool"
    else if StartsWith(t, "ChContactMaterial") then
      assert t[2] == "ChContactMaterial"[2] != "ChAxis"[2];
      "ChContactMaterial"
    else if StartsWith(t, "ChAxis") then "ChAxis"
    else t
  }

  /** The canonical names are plain identifiers. */
  lemma CanonicalNames(t: string)
    requires t in {"double", "int", "bool", "ChContactMaterial", "ChAxis"}
    ensures forall c :: c in t ==> !IsSpace(c) && c != '&' && c != ':'
  {
  }

  /** The table maps each canonical name to itself, so applying it twice is
      applying it once. */
  lemma CanonicalIdempotent(t: string)
    ensures Canonical(Canonical(t)) == Canonical(t)
  {
    var r := Canonical(t);
    if r != t {
      assert StartsWith("ChContactMaterial", "ChContactMaterial");
      assert StartsWith("ChAxis", "ChAxis");
      assert !StartsWith("ChAxis", "ChContactMaterial");
    }
  }

  // ---------------------------------------------------------------------
  // Deduplication

  /** The one-element list of a present value, or the empty list. */
  function OptSeq<T>(o: Option<T>): (r: seq<T>)
    ensures o.None? ==> r == []
    ensures o.Some? ==> r == [o.value]
  {
    match o
    case None => []
    case Some(x) => [x]
  }

  /** `if rec not in overloads: overloads.append(rec)` */
  function AddNew<T(==)>(xs: seq<T>, x: T): (r: seq<T>)
    ensures x in r
  {
    if x in xs then xs else xs + [x]
  }

  /** The list the harvesters build by adding each record not seen yet. */
  function Dedup<T(==)>(xs: seq<T>): seq<T> {
    if xs == [] then [] else AddNew(Dedup(xs[..|xs| - 1]), xs[|xs| - 1])
  }

  predicate NoDup<T(==)>(xs: seq<T>) {
    forall i, j :: 0 <= i < j < |xs| ==> xs[i] != xs[j]
  }

  /** No record twice, and exactly the records seen. */
  lemma {:induction false} DedupProps<T>(xs: seq<T>)
    ensures NoDup(Dedup(xs))
    ensures forall x :: x in Dedup(xs) <==> x in xs
    decreases |xs|
  {
    if xs != [] {
      var front := xs[..|xs| - 1];
      DedupProps(front);
      assert xs == front + [xs[|xs| - 1]];
    }
  }

  /** First-seen order: the result for a prefix of the records is a prefix
      of the result, so a record's position never changes once added. */
  lemma {:induction false} DedupPrefix<T>(xs: seq<T>, k: nat)
    requires k <= |xs|
    ensures Dedup(xs[..k]) <= Dedup(xs)
    decreases |xs| - k
  {
    if k < |xs| {
      var front := xs[..|xs| - 1];
      assert front[..k] == xs[..k];
      DedupPrefix(front, k);
    } else {
      assert xs[..k] == xs;
    }
  }

  /** A list without repeats is kept as it is. */
  lemma {:induction false} DedupOfNoDup<T>(xs: seq<T>)
    requires NoDup(xs)
    ensures Dedup(xs) == xs
    decreases |xs|
  {
    if xs != [] {
      var front := xs[..|xs| - 1];
      var x := xs[|xs| - 1];
      forall i, j | 0 <= i < j < |front| ensures front[i] != front[j] {
        assert front[i] == xs[i] && front[j] == xs[j];
      }
      DedupOfNoDup(front);
      forall i | 0 <= i < |front| ensures front[i] != x {
        assert front[i] == xs[i];
      }
      assert xs == front + [x];
    }
  }

  lemma DedupAppend<T>(xs: seq<T>, x: T)
    ensures Dedup(xs + [x]) == AddNew(Dedup(xs), x)
  {
    assert (xs + [x])[..|xs|] == xs;
  }
}
