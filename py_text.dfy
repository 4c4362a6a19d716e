/** The few Python `str` operations the checkers and the help-text harvesters
    rely on, written over `seq<char>` with the semantics CPython gives them. */
module PyText {

  datatype Option<+T> = None | Some(value: T)

  /** `str.isspace()` for one character; `\s` in a `re` pattern over `str`
      matches the same set. */
  predicate IsSpace(c: char) {
    var n := c as int;
    n == 0x20 || 0x09 <= n <= 0x0D || 0x1C <= n <= 0x1F || n == 0x85 || n == 0xA0
    || n == 0x1680 || 0x2000 <= n <= 0x200A || n == 0x2028 || n == 0x2029
    || n == 0x202F || n == 0x205F || n == 0x3000
  }

  /** `s.startswith(p)` */
  predicate StartsWith(s: string, p: string) {
    |p| <= |s| && s[..|p|] == p
  }

  /** `s.endswith(p)` */
  predicate EndsWith(s: string, p: string) {
    |p| <= |s| && s[|s| - |p|..] == p
  }

  /** Number of leading whitespace characters. */
  function LeadingSpaces(s: string): (k: nat)
    ensures k <= |s|
    ensures forall i :: 0 <= i < k ==> IsSpace(s[i])
    ensures k < |s| ==> !IsSpace(s[k])
  {
    if s != [] && IsSpace(s[0]) then 1 + LeadingSpaces(s[1..]) else 0
  }

  /** Number of trailing whitespace characters. */
  function TrailingSpaces(s: string): (k: nat)
    ensures k <= |s|
    ensures forall i :: |s| - k <= i < |s| ==> IsSpace(s[i])
    ensures k < |s| ==> !IsSpace(s[|s| - k - 1])
  {
    if s != [] && IsSpace(s[|s| - 1]) then 1 + TrailingSpaces(s[..|s| - 1]) else 0
  }

  /** `s.strip()`: the slice between the leading and the trailing whitespace. */
  function Strip(s: string): (r: string)
    ensures r == [] || (!IsSpace(r[0]) && !IsSpace(r[|r| - 1]))
    ensures r == [] ==> forall i :: 0 <= i < |s| ==> IsSpace(s[i])
    ensures r != [] ==> LeadingSpaces(s) + |r| <= |s| && r == s[LeadingSpaces(s)..LeadingSpaces(s) + |r|]
    ensures r == [] <==> TrailingSpaces(s) == |s|
    ensures r != [] ==> r[|r| - 1] == s[|s| - TrailingSpaces(s) - 1]
    ensures r != [] ==> LeadingSpaces(s) + |r| + TrailingSpaces(s) == |s|
  {
    var lo := LeadingSpaces(s);
    if lo == |s| then [] else s[lo..|s| - TrailingSpaces(s)]
  }

  /** The last character of a non-blank string's strip. */
  lemma StripLast(s: string)
    requires TrailingSpaces(s) < |s|
    ensures Strip(s) != [] && Strip(s)[|Strip(s)| - 1] == s[|s| - TrailingSpaces(s) - 1]
  {
  }

  /** A string that starts with a character other than whitespace strips
      to one of its prefixes, and that prefix keeps every character up to
      the last one that is not whitespace. */
  lemma StripPrefix(s: string, n: nat)
    requires 0 < n <= |s| && !IsSpace(s[0]) && !IsSpace(s[n - 1])
    ensures n <= |Strip(s)| && Strip(s) == s[..|Strip(s)|]
  {
    assert LeadingSpaces(s) == 0;
  }

  lemma StripIdempotent(s: string)
    ensures Strip(Strip(s)) == Strip(s)
  {
    var r := Strip(s);
    if r != [] {
      assert LeadingSpaces(r) == 0;
      assert TrailingSpaces(r) == 0;
    }
  }

  /** A character that is not whitespace survives `strip()`, and `strip()`
      introduces no character. */
  lemma StripKeepsNonSpace(s: string, c: char)
    requires !IsSpace(c)
    ensures c in Strip(s) <==> c in s
  {
    var r := Strip(s);
    if c in s {
      var i :| 0 <= i < |s| && s[i] == c;
      var lo := LeadingSpaces(s);
      assert lo <= i;
      assert i < |s| - TrailingSpaces(s);
      assert r[i - lo] == c;
    }
  }

  /** `strip()` of a string without whitespace is the string itself. */
  lemma StripNoSpace(s: string)
    requires forall c :: c in s ==> !IsSpace(c)
    ensures Strip(s) == s
  {
    if s != [] {
      assert !IsSpace(s[0]) && !IsSpace(s[|s| - 1]);
      assert LeadingSpaces(s) == 0 && TrailingSpaces(s) == 0;
    }
  }

  /** Every character of `s.strip()` is a character of `s`. */
  lemma StripSubset(s: string, c: char)
    requires c in Strip(s)
    ensures c in s
  {
    var r := Strip(s);
    var i :| 0 <= i < |r| && r[i] == c;
    assert s[LeadingSpaces(s) + i] == c;
  }

  /** `s.replace(pat, rep)`: leftmost, non-overlapping occurrences. */
  function Replace(s: string, pat: string, rep: string): string
    requires |pat| > 0
    decreases |s|
  {
    if s == [] then []
    else if StartsWith(s, pat) then rep + Replace(s[|pat|..], pat, rep)
    else [s[0]] + Replace(s[1..], pat, rep)
  }

  /** A character absent from the input and from the replacement is absent
      from the result. */
  lemma {:induction false} ReplaceKeepsAbsent(s: string, pat: string, rep: string, c: char)
    requires |pat| > 0 && c !in s && c !in rep
    ensures c !in Replace(s, pat, rep)
    decreases |s|
  {
    if s == [] {
    } else if StartsWith(s, pat) {
      ReplaceKeepsAbsent(s[|pat|..], pat, rep, c);
    } else {
      ReplaceKeepsAbsent(s[1..], pat, rep, c);
    }
  }

  /** A one-character pattern never survives its own replacement. */
  lemma {:induction false} ReplaceRemovesChar(s: string, c: char, rep: string)
    requires c !in rep
    ensures c !in Replace(s, [c], rep)
    decreases |s|
  {
    if s != [] {
      ReplaceRemovesChar(s[1..], c, rep);
      if !StartsWith(s, [c]) {
        assert s[..1] == [s[0]];
      }
    }
  }

  /** `pat` occurs nowhere in `s`. */
  predicate Absent(s: string, pat: string) {
    forall i :: 0 <= i <= |s| ==> !StartsWith(s[i..], pat)
  }

  /** Replacing a pattern that does not occur changes nothing. */
  lemma {:induction false} ReplaceAbsent(s: string, pat: string, rep: string)
    requires |pat| > 0 && Absent(s, pat)
    ensures Replace(s, pat, rep) == s
    decreases |s|
  {
    if s != [] {
      assert !StartsWith(s[0..], pat);
      assert s[0..] == s;
      forall i | 0 <= i <= |s[1..]| ensures !StartsWith(s[1..][i..], pat) {
        assert s[1..][i..] == s[i + 1..];
      }
      ReplaceAbsent(s[1..], pat, rep);
    }
  }

  /** No two adjacent colons, i.e. no `::`. */
  predicate NoDoubleColon(s: string) {
    forall i :: 0 <= i < |s| - 1 ==> !(s[i] == ':' && s[i + 1] == ':')
  }

  lemma NoDoubleColonSlice(s: string, lo: nat, hi: nat)
    requires NoDoubleColon(s) && lo <= hi <= |s|
    ensures NoDoubleColon(s[lo..hi])
  {
    var t := s[lo..hi];
    forall i | 0 <= i < |t| - 1 ensures !(t[i] == ':' && t[i + 1] == ':') {
      assert t[i] == s[lo + i] && t[i + 1] == s[lo + i + 1];
    }
  }

  /** A string without `::` contains no pattern that has `::` inside. */
  lemma NoDoubleColonAbsent(s: string, pat: string, k: nat)
    requires NoDoubleColon(s) && k + 1 < |pat| && pat[k] == ':' && pat[k + 1] == ':'
    ensures Absent(s, pat)
  {
    forall i | 0 <= i <= |s| ensures !StartsWith(s[i..], pat) {
      if i + |pat| <= |s| {
        assert !(s[i + k] == ':' && s[i + k + 1] == ':');
        assert s[i..][..|pat|][k] == s[i + k] && s[i..][..|pat|][k + 1] == s[i + k + 1];
      }
    }
  }

  /** A string without a character contains no pattern holding it. */
  lemma CharAbsent(s: string, pat: string, k: nat)
    requires k < |pat| && pat[k] !in s
    ensures Absent(s, pat)
  {
    forall i | 0 <= i <= |s| ensures !StartsWith(s[i..], pat) {
      if i + |pat| <= |s| {
        assert s[i..][..|pat|][k] == s[i + k];
        assert s[i + k] in s;
      }
    }
  }

  /** `s.replace("::", " ")` leaves no `::` behind. */
  lemma {:induction false} ReplaceDoubleColon(s: string)
    ensures NoDoubleColon(Replace(s, "::", " "))
    ensures Replace(s, "::", " ") != [] && Replace(s, "::", " ")[0] == ':' ==> s[0] == ':' && !StartsWith(s, "::")
    decreases |s|
  {
    var r := Replace(s, "::", " ");
    if s == [] {
    } else if StartsWith(s, "::") {
      ReplaceDoubleColon(s[2..]);
      var t := Replace(s[2..], "::", " ");
      assert r == " " + t;
      forall i | 0 <= i < |r| - 1 ensures !(r[i] == ':' && r[i + 1] == ':') {
        if i > 0 { assert r[i] == t[i - 1] && r[i + 1] == t[i]; }
      }
    } else {
      ReplaceDoubleColon(s[1..]);
      var t := Replace(s[1..], "::", " ");
      assert r == [s[0]] + t;
      forall i | 0 <= i < |r| - 1 ensures !(r[i] == ':' && r[i + 1] == ':') {
        if i > 0 {
          assert r[i] == t[i - 1] && r[i + 1] == t[i];
        } else if |s| >= 2 {
          assert s[..2] == [s[0], s[1]];
        }
      }
    }
  }

  /** The characters of `s` that are not whitespace, in order. */
  function Visible(s: string): string
    decreases |s|
  {
    if s == [] then [] else (if IsSpace(s[0]) then [] else [s[0]]) + Visible(s[1..])
  }

  /** Leading whitespace contributes nothing to `Visible`. */
  lemma {:induction false} VisibleSkip(s: string, k: nat)
    requires k <= |s| && forall i :: 0 <= i < k ==> IsSpace(s[i])
    ensures Visible(s) == Visible(s[k..])
    decreases k
  {
    if k > 0 {
      VisibleSkip(s[1..], k - 1);
      assert s[1..][k - 1..] == s[k..];
    }
  }

  /** `re.sub(r"\s+", " ", s)`: every run of whitespace becomes one space. */
  function CollapseSpaces(s: string): (r: string)
    ensures forall c :: c in r && IsSpace(c) ==> c == ' '
    ensures forall c :: c in r && !IsSpace(c) ==> c in s
    ensures Visible(r) == Visible(s)
    ensures forall i :: 0 <= i < |r| - 1 ==> !(IsSpace(r[i]) && IsSpace(r[i + 1]))
    ensures (r == []) == (s == [])
    ensures s != [] ==> r[0] == (if IsSpace(s[0]) then ' ' else s[0])
    decreases |s|
  {
    if s == [] then []
    else if IsSpace(s[0]) then
      var k := LeadingSpaces(s);
      var t := CollapseSpaces(s[k..]);
      VisibleSkip(s, k);
      assert (" " + t)[1..] == t;
      " " + t
    else
      var t := CollapseSpaces(s[1..]);
      assert ([s[0]] + t)[1..] == t;
      [s[0]] + t
  }

  /** The same substitution read one character at a time: whitespace that
      is directly followed by whitespace is dropped, any other whitespace
      becomes a space, everything else is kept. */
  function BlankRuns(s: string): string
    decreases |s|
  {
    if s == [] then []
    else if IsSpace(s[0]) && |s| > 1 && IsSpace(s[1]) then BlankRuns(s[1..])
    else [if IsSpace(s[0]) then ' ' else s[0]] + BlankRuns(s[1..])
  }

  /** A maximal whitespace run at the front becomes a single space. */
  lemma {:induction false} BlankRunsSkip(t: string, k: nat)
    requires 0 < k <= |t| && forall i :: 0 <= i < k ==> IsSpace(t[i])
    requires k == |t| || !IsSpace(t[k])
    ensures BlankRuns(t) == " " + BlankRuns(t[k..])
    decreases k
  {
    if k > 1 {
      BlankRunsSkip(t[1..], k - 1);
      assert t[1..][k - 1..] == t[k..];
    }
  }

  /** `CollapseSpaces` keeps one space per maximal whitespace run and every
      other character in place. */
  lemma {:induction false} CollapseSpacesLocal(s: string)
    ensures CollapseSpaces(s) == BlankRuns(s)
    decreases |s|
  {
    if s != [] {
      if IsSpace(s[0]) {
        var k := LeadingSpaces(s);
        BlankRunsSkip(s, k);
        CollapseSpacesLocal(s[k..]);
      } else {
        CollapseSpacesLocal(s[1..]);
      }
    }
  }

  lemma {:induction false} CollapseSpacesNoDoubleColon(s: string)
    requires NoDoubleColon(s)
    ensures NoDoubleColon(CollapseSpaces(s))
    decreases |s|
  {
    if s != [] {
      var r := CollapseSpaces(s);
      var k := if IsSpace(s[0]) then LeadingSpaces(s) else 1;
      NoDoubleColonSlice(s, k, |s|);
      CollapseSpacesNoDoubleColon(s[k..]);
      var t := CollapseSpaces(s[k..]);
      assert r == [r[0]] + t;
      forall i | 0 <= i < |r| - 1 ensures !(r[i] == ':' && r[i + 1] == ':') {
        if i > 0 {
          assert r[i] == t[i - 1] && r[i + 1] == t[i];
        } else if |s| >= 2 {
          assert !(s[0] == ':' && s[1] == ':');
        }
      }
    }
  }

  /** A string free of whitespace is its own collapse. */
  lemma {:induction false} CollapseSpacesNoSpace(s: string)
    requires forall c :: c in s ==> !IsSpace(c)
    ensures CollapseSpaces(s) == s
    decreases |s|
  {
    if s != [] {
      CollapseSpacesNoSpace(s[1..]);
      assert s == [s[0]] + s[1..];
    }
  }

  /** `s.split(sep, 1)[0]`: everything before the first `sep`. */
  function FirstField(s: string, sep: char): (r: string)
    ensures sep !in r
    ensures |r| <= |s| && r == s[..|r|]
    ensures |r| < |s| ==> s[|r|] == sep
  {
    if s == [] || s[0] == sep then [] else [s[0]] + FirstField(s[1..], sep)
  }

  /** The first field ends exactly at the first `sep`, or at the end. */
  lemma FirstFieldAt(s: string, sep: char, k: nat)
    requires k <= |s| && sep !in s[..k] && (k < |s| ==> s[k] == sep)
    ensures FirstField(s, sep) == s[..k]
  {
  }

  /** The first field is at least as long as any prefix free of `sep`. */
  lemma {:induction false} FirstFieldLong(s: string, sep: char, n: nat)
    requires n <= |s| && sep !in s[..n]
    ensures n <= |FirstField(s, sep)|
    decreases n
  {
    if n > 0 {
      assert s[0] == s[..n][0];
      assert s[1..][..n - 1] == s[1..n];
      FirstFieldLong(s[1..], sep, n - 1);
    }
  }

  /** `s.split(sep)[-1]`: everything after the last `sep`. */
  function LastField(s: string, sep: char): (r: string)
    ensures sep !in r
    ensures |r| <= |s| && r == s[|s| - |r|..]
    ensures |r| < |s| ==> s[|s| - |r| - 1] == sep
  {
    if s == [] || s[|s| - 1] == sep then [] else LastField(s[..|s| - 1], sep) + [s[|s| - 1]]
  }

  /** `sep.join(parts)` */
  function Join(sep: string, parts: seq<string>): string
  {
    if parts == [] then []
    else if |parts| == 1 then parts[0]
    else Join(sep, parts[..|parts| - 1]) + sep + parts[|parts| - 1]
  }

  /** `s.index(c)`, or None where Python raises ValueError. */
  function IndexOf(s: string, c: char): (r: Option<nat>)
    ensures r.Some? <==> c in s
    ensures r.Some? ==> r.value < |s| && s[r.value] == c && c !in s[..r.value]
  {
    if s == [] then None
    else if s[0] == c then Some(0)
    else match IndexOf(s[1..], c)
      case None => None
      case Some(k) => assert s[..k + 1] == [s[0]] + s[1..][..k]; Some(k + 1)
  }

  /** `s.rindex(c)`, or None where Python raises ValueError. */
  function LastIndexOf(s: string, c: char): (r: Option<nat>)
    ensures r.Some? <==> c in s
    ensures r.Some? ==> r.value < |s| && s[r.value] == c && c !in s[r.value + 1..]
  {
    if s == [] then None
    else if s[|s| - 1] == c then Some(|s| - 1)
    else match LastIndexOf(s[..|s| - 1], c)
      case None => None
      case Some(k) => assert s[k + 1..] == s[..|s| - 1][k + 1..] + [s[|s| - 1]]; Some(k)
  }

  /** `s[lo:hi]` for indices already inside the string: an empty slice when
      the bounds cross. */
  function PySlice(s: string, lo: nat, hi: nat): (r: string)
    requires lo <= |s| && hi <= |s|
    ensures |r| == if lo <= hi then hi - lo else 0
    ensures forall k :: 0 <= k < |r| ==> r[k] == s[lo + k]
  {
    if lo <= hi then s[lo..hi] else []
  }

  /** Concatenation is associative. */
  lemma AppendAssoc<T>(a: seq<T>, b: seq<T>, c: seq<T>)
    ensures a + (b + c) == (a + b) + c
  {
  }
}
