# ChronoRender core checks, modelled in Dafny

ChronoRender checks Python snippets written against PyChrono before they run.
This project models the four Python files that do the checking:

- `chrono_ast_gate_v2.py` is the import and symbol gate. It makes two passes
  of `ast.walk` over a parsed program:
  - the first pass enforces the import discipline: each PyChrono root
    imported as `import <root> as <alias>` with its canonical alias, no
    star imports, no `pychrono.*` submodules;
  - the second pass checks every `alias.X` attribute and every `alias.X(...)`
    call against an allow-list, and flags legacy symbols.
- `chrono_validator_v3.py` is the constructor-overload validator:
  - it builds a constructor table with key variants;
  - a `NodeVisitor` checks every `chrono.X(...)` call against the table,
    using the argument types inferred from the AST;
  - a final `ast.walk` looks for legacy attribute names.
- `chrono_ctor_harvester_v5.py` reads constructor overloads out of a class's
  rendered help page. Each overload is its normalised argument types plus the
  number of trailing parameters that have a default.
- `chrono_ctor_harvester_v3.py` is the earlier harvester. It records argument
  types only, also stops a wrapped signature at a blank line, and normalises
  types by plain deletion.

The Dafny modules follow that structure:

| module | file | models |
|---|---|---|
| `PyText` | `py_text.dfy` | The Python string operations the sources use: `strip`, `replace`, `split(sep, 1)[0]`, `split(sep)[-1]`, `index`, `rindex`, slicing, `re.sub(r"\s+", " ", ...)`. |
| `PyAst` | `py_ast.dfy` | The AST nodes the checks look at. `ast.walk` is modelled as the breadth-first queue it is. `NodeVisitor.generic_visit` is modelled as a depth-first pre-order. |
| `AstGate` | `ast_gate.dfy` | `chrono_ast_gate_v2.py`. |
| `OverloadValidator` | `validator.dfy` | `chrono_validator_v3.py`. `ChronoVisitor` and the constructor table are classes whose methods update their fields. |
| `HelpText` | `help_text.dfy` | What both harvesters share: the `LEADING_UI` and `INIT_HEAD` patterns, collecting wrapped signatures, the text between the parentheses, `split_args`, the `std::shared_ptr<...>` collapse, the canonical type table, and order-preserving deduplication. |
| `HarvesterV5` | `harvester_v5.dfy` | `chrono_ctor_harvester_v5.py`. |
| `HarvesterV3` | `harvester_v3.dfy` | `chrono_ctor_harvester_v3.py`. |

Findings are a datatype in each checker. `Render` turns a finding into the exact message the source appends. The loops of the source are `method`s, each proved equal to a specification function: `ImportPass`, `SymbolPass`, `CallPass`, `LegacyPass`, `Scan`, `Harvest`, `SplitTokens`, `Continuation`. The lemmas then prove the properties the sources promise about those functions.

Behaviours of the code that are easy to miss, all reproduced by the model:

- **Exact arity.** The overload matcher (`match_overload`, `chrono_validator_v3.py:87-108`) requires the argument count to equal the overload's length. It does not use the harvested count of trailing defaults to allow shorter calls.
- **Words cut before normalising.** `parse_init_inside` keeps only the first word of a parameter before calling `norm_type` or `norm_tok`. So `const double& r` normalises to `const`, not to `double`. `HarvesterV5.ParamConstRef` and `HarvesterV3.ParamConstRef` prove this.
- **Unused alias maps.** In the gate, the `alias_to_mod` map is written but never read. In the validator, `visit_Import`, `visit_ImportFrom`, `imported` and `found_alias` are written but never read. The alias checks use the fixed tables `PYCHRONO_ROOTS` and `ACCEPTED_ALIASES`.
- **Chains on other expressions.** `_resolve_attr_chain` (`chrono_ast_gate_v2.py:12-16`) drops a base that is not a bare name. So `f().chrono.X` and `obj[0].chrono.X` give the chain `["chrono", "X"]` and are judged like `chrono.X`. `AstGate.AttrChain` does the same.
- **Star imports of any module.** The star test (`chrono_ast_gate_v2.py:27-28`) does not look at the base, so `from os import *` is reported as a banned star import. `AstGate.ImportFromRules` proves this for every base.
- **Duplicate findings.** A call `chrono.X(...)` where `X` is missing from the allow-list is reported twice by the gate: once for the attribute, once for the call. `AstGate.UnknownCallReportedTwice` proves this.

## Model

| member | source | states |
|---|---|---|
| PyText.Strip | chrono_ctor_harvester_v5.py:26 | `str.strip()`: empty exactly when the input is all whitespace. Otherwise it is the slice from the end of the leading whitespace to the start of the trailing whitespace, so the two runs and the result add up to the input, and both its ends are not whitespace. |
| PyText.StripIdempotent | chrono_ctor_harvester_v5.py:34 | Stripping a stripped string changes nothing. |
| PyText.StripKeepsNonSpace | chrono_ctor_harvester_v5.py:97 | A non-whitespace character such as `=` is in the stripped text exactly when it is in the original. |
| PyText.ReplaceRemovesChar | chrono_ctor_harvester_v5.py:32 | After `replace("&", " ")` no `&` is left. |
| PyText.ReplaceKeepsAbsent | chrono_ctor_harvester_v5.py:32-33 | Replacing in a string without some character, with a replacement text without it, does not introduce that character. |
| PyText.ReplaceDoubleColon | chrono_ctor_harvester_v5.py:33 | After `replace("::", " ")` no `::` is left. |
| PyText.ReplaceAbsent | chrono_ctor_harvester_v5.py:32-33 | A replacement whose pattern does not occur leaves the string unchanged. |
| PyText.CollapseSpaces | chrono_ctor_harvester_v5.py:34 | `re.sub(r"\s+", " ", t)`: the characters that are not whitespace are those of the input, in the same order. The only whitespace left is the plain space, and no two spaces are adjacent. Empty exactly when the input is empty. |
| PyText.CollapseSpacesLocal | chrono_ctor_harvester_v5.py:34 | The collapse equals a character-by-character rewrite: whitespace directly followed by whitespace is dropped, any other whitespace becomes one space, and everything else stays in place. So each maximal whitespace run gives exactly one space, where the run was. |
| PyText.CollapseSpacesNoDoubleColon | chrono_ctor_harvester_v5.py:33-34 | Collapsing whitespace cannot create a `::`. |
| PyText.CollapseSpacesNoSpace | chrono_ctor_harvester_v5.py:34 | A string without whitespace is unchanged by the collapse. |
| PyText.FirstField | chrono_ctor_harvester_v5.py:38 | `s.split(sep, 1)[0]`: the longest prefix without `sep`, followed by `sep` when it is shorter than `s`. |
| PyText.LastField | chrono_validator_v3.py:46 | `s.split(sep)[-1]`: the longest suffix without `sep`, preceded by `sep` when it is shorter than `s`. |
| PyText.IndexOf | chrono_ctor_harvester_v5.py:148 | `str.index`: defined exactly when the character occurs, and then its first position. |
| PyText.LastIndexOf | chrono_ctor_harvester_v5.py:148 | `str.rindex`: defined exactly when the character occurs, and then its last position. |
| PyText.PySlice | chrono_ctor_harvester_v5.py:148 | A Python slice `s[lo:hi]` has length `hi - lo` when `lo <= hi` and is empty otherwise. Its character `k` is `s[lo + k]`. |
| PyAst.BfsPermutesPreorder | chrono_ast_gate_v2.py:22 | The breadth-first queue of `ast.walk` yields the same multiset of nodes as a depth-first pre-order of the queue. |
| PyAst.WalkPermutesPreorder | chrono_validator_v3.py:177-183 | `ast.walk(tree)` and the visitor's depth-first traversal reach the same nodes, each the same number of times. |
| PyAst.WalkContains | chrono_ast_gate_v2.py:41 | Every node of the tree is yielded by `ast.walk`. |
| PyAst.PreorderClosed | chrono_validator_v3.py:160 | `generic_visit` descends: a child of a visited node is visited. |
| AstGate.AttrChain | chrono_ast_gate_v2.py:12-16 | A bare name gives `[id]`. An attribute gives a chain ending in its attribute, and `[id, attr]` when it is on a bare name. Any other node gives `[]`. |
| AstGate.ResolveAttrChain | chrono_ast_gate_v2.py:12-16 | The `while isinstance(node, ast.Attribute)` loop computes `AttrChain`. |
| AstGate.AliasRoot | chrono_ast_gate_v2.py:47-48 | The root whose canonical alias is the chain head, and None exactly when no root has that alias. |
| AstGate.FindRoot | chrono_ast_gate_v2.py:57-58 | The `for k, a in PYCHRONO_ROOTS.items()` search computes `AliasRoot`. |
| AstGate.ImportFromErrors | chrono_ast_gate_v2.py:23-30 | The messages of one `from BASE import ...` node, in source order. |
| AstGate.AliasErrors | chrono_ast_gate_v2.py:33-39 | The messages of one imported name. |
| AstGate.ImportNamesErrors | chrono_ast_gate_v2.py:32-39 | The messages of all names of one `import` node, in order. |
| AstGate.ImportNodeErrors | chrono_ast_gate_v2.py:23-39 | The messages the first walk appends for one node. |
| AstGate.SymbolNodeErrors | chrono_ast_gate_v2.py:42-61 | The messages the second walk appends for one node: legacy name, then attribute, then call. |
| AstGate.ImportWalk | chrono_ast_gate_v2.py:22-39 | The first walk produces the messages of `ImportPass` over the walk order. |
| AstGate.SymbolWalk | chrono_ast_gate_v2.py:41-61 | The second walk produces the messages of `SymbolPass` over the walk order. |
| AstGate.Validate | chrono_ast_gate_v2.py:17-62 | A syntax error gives the single `SyntaxError: ...` message. Otherwise the result is the import findings followed by the symbol findings, and `ok` holds exactly when there is no message. |
| AstGate.ImportFromRules | chrono_ast_gate_v2.py:23-30 | A root base gets the `import ... as ...` error and never the disallowed-base error. A non-root `pychrono*` base gets the disallowed-base error. A star among the names gives the star error, whatever the base. Every finding names the base. |
| AstGate.RootsArePychrono | chrono_ast_gate_v2.py:3-8 | Every root starts with `pychrono`, so the test `startswith("pychrono") and base in ROOTS` is just `base in ROOTS`. |
| AstGate.ImportRules | chrono_ast_gate_v2.py:31-39 | A root must be imported with exactly its canonical alias; a missing alias is an error too. Any other `pychrono*` module is a disallowed submodule. Anything else passes. |
| AstGate.ImportExamples | chrono_ast_gate_v2.py:34-39 | `import pychrono.core as chrono` and a bare `import pychrono` are rejected. `import pychrono as chrono` and `import numpy` pass. |
| AstGate.SymbolRules | chrono_ast_gate_v2.py:43-61 | Only chains of two or more names headed by a canonical alias are judged, and only on their second name. For an attribute, a legacy name comes before the allow-list. For a call, the finding is empty exactly when the name is allowed. |
| AstGate.ImportPassKinds | chrono_ast_gate_v2.py:22-39 | The first walk yields only import-discipline findings. |
| AstGate.ImportNamesKinds | chrono_ast_gate_v2.py:32-39 | The names of an `import` yield only import-discipline findings. |
| AstGate.SymbolPassKinds | chrono_ast_gate_v2.py:41-61 | The second walk yields no import-discipline finding. |
| AstGate.ImportFindingsFirst | chrono_ast_gate_v2.py:22-61 | Every import-discipline finding comes before every symbol or call finding. |
| AstGate.SymbolPassContains | chrono_ast_gate_v2.py:41-61 | Every finding of every walked node is in the second walk's result. |
| AstGate.LegacyNameAlwaysReported | chrono_ast_gate_v2.py:42 | A blocklisted bare name anywhere in the tree is reported, whatever was imported. |
| AstGate.UnknownCallReportedTwice | chrono_ast_gate_v2.py:43-61 | A call `chrono.X(...)` with `X` not allowed is reported as a missing symbol and also as a call to an unknown symbol. |
| AstGate.ImportPassEmpty | chrono_ast_gate_v2.py:22-39 | When no node has an import finding of its own, the first walk reports nothing. |
| AstGate.ImportNamesQuiet | chrono_ast_gate_v2.py:32-39 | An `import` of modules none of which starts with `pychrono` reports nothing. |
| AstGate.QuietImportFindings | chrono_ast_gate_v2.py:23-39 | `import` of non-`pychrono` modules, and `from BASE import ...` with a non-`pychrono` base and no `*`, report nothing. |
| AstGate.SymbolPassEmpty | chrono_ast_gate_v2.py:41-61 | Nodes without findings make the second walk report nothing. |
| AstGate.QuietNode | chrono_ast_gate_v2.py:41-61 | A node in a program without legacy names and without alias-headed chains has no symbol finding. |
| AstGate.VacuousPass | chrono_ast_gate_v2.py:17-62 | A program passes whatever the allow-list holds when it has no legacy bare name, no alias-headed attribute chain, and imports only non-`pychrono` modules, with no `from ... import *`. |
| OverloadValidator.InferType | chrono_validator_v3.py:50-85 | Each of the six tags names exactly one kind of node. `bool` is tested before `int`, so a boolean constant is never `int`. `ChAxis` and `ChContactMaterial` are recognised by name prefix. Everything else is `unknown`. |
| OverloadValidator.Accepts | chrono_validator_v3.py:94-104 | A declared type accepts its own tag. `double` also accepts `int`. Nothing accepts `unknown`. |
| OverloadValidator.MatchOverload | chrono_validator_v3.py:87-108 | True exactly when some overload has the argument count and accepts every argument in position. |
| OverloadValidator.UnknownNeverMatches | chrono_validator_v3.py:93-105 | One argument of unknown type defeats every overload. |
| OverloadValidator.ArityIsExact | chrono_validator_v3.py:89-91 | A match needs an overload of exactly the argument count; an empty overload list matches nothing. |
| OverloadValidator.IntWidensToDouble | chrono_validator_v3.py:94-95 | Where a `double` argument matches, an `int` in its place matches too. |
| OverloadValidator.SetDefault | chrono_validator_v3.py:44 | `dict.setdefault`: the key gets the value only if absent; other keys are untouched. |
| OverloadValidator.WithFullAndShort | chrono_validator_v3.py:41-44 | The fully qualified key is overwritten. The `pychrono.X` short key is added only when absent. No other key changes. |
| OverloadValidator.WithKeyVariants | chrono_validator_v3.py:39-47 | `add_key_variants`: the fully qualified key is set. The short key and the bare class name are added only when absent. Existing keys other than the fully qualified one keep their value. |
| OverloadValidator.LastEntryWins | chrono_validator_v3.py:167-169 | After building the table, a fully qualified name maps to the overloads of its last entry, whatever variants other entries added. |
| OverloadValidator.CtorTable.constructor | chrono_validator_v3.py:167 | The table starts empty. |
| OverloadValidator.CtorTable.AddKeyVariants | chrono_validator_v3.py:39-47 | The store becomes `WithKeyVariants` of the old store. |
| OverloadValidator.FirstHit | chrono_validator_v3.py:145-147 | The overloads under the first candidate key present, or None exactly when no candidate is present. |
| OverloadValidator.LookupSigs | chrono_validator_v3.py:144-147 | The `for k in (...)` loop with `break` returns `FirstHit` of `pychrono.core.X`, `pychrono.X`, `X`. |
| OverloadValidator.QualnameForCtor | chrono_validator_v3.py:110-116 | A class name is returned only for an attribute on a bare name, and it is that attribute; the chain is then `chrono.X`. The result is None for any callee that is not an attribute of a bare accepted alias. |
| OverloadValidator.CallErrors | chrono_validator_v3.py:141-159 | One call appends the messages of its findings: no metadata when no key is found or the list is empty, a mismatch when no overload matches, nothing otherwise. |
| OverloadValidator.KeywordsIgnored | chrono_validator_v3.py:141-159 | Keyword arguments never change the verdict. A call on a bare name, or on any alias other than `chrono`, is never checked. |
| OverloadValidator.LookupAfterBuild | chrono_validator_v3.py:145-169 | A class registered as `pychrono.core.X` by its last entry is found under `X` with that entry's overloads. |
| OverloadValidator.CallPassContains | chrono_validator_v3.py:160 | Every finding of every node the visitor reaches is in its result. |
| OverloadValidator.EveryCtorCallChecked | chrono_validator_v3.py:139-160 | Every `chrono.X(...)` call anywhere in the tree gets the no-metadata or mismatch finding its lookup and arguments call for. |
| OverloadValidator.CallPassKinds | chrono_validator_v3.py:139-160 | The visitor yields only no-metadata and mismatch findings. |
| OverloadValidator.LegacyPassKinds | chrono_validator_v3.py:183-186 | The final walk yields only legacy findings. |
| OverloadValidator.LegacyComesLast | chrono_validator_v3.py:177-188 | Every legacy finding comes after every call finding. |
| OverloadValidator.ChronoVisitor.constructor | chrono_validator_v3.py:119-120 | A new visitor has no errors and the given table. |
| OverloadValidator.ChronoVisitor.Visit | chrono_validator_v3.py:178 | Visiting a node appends the call findings of its subtree in depth-first order. |
| OverloadValidator.ChronoVisitor.VisitCall | chrono_validator_v3.py:139-160 | A call's own findings come before those of its children. |
| OverloadValidator.ChronoVisitor.GenericVisit | chrono_validator_v3.py:160 | The children are visited in order. |
| OverloadValidator.ReportLegacy | chrono_validator_v3.py:182-186 | Each walked attribute with a banned name appends one legacy message, in walk order. |
| OverloadValidator.BuildTable | chrono_validator_v3.py:164-169 | A fresh table holding `TableOf` the entries in order. |
| OverloadValidator.ValidatePython | chrono_validator_v3.py:162-188 | A syntax error gives the single `SyntaxError: ...` message. Otherwise the result is the visitor's call findings and then the legacy findings, and `ok` holds exactly when there is no message. |
| HelpText.StripLeadingUI | chrono_ctor_harvester_v5.py:21 | `LEADING_UI.sub("", s)`: a suffix of `s`. Everything removed is whitespace, `\|` or a box-drawing character. The result does not start with one. |
| HelpText.LastNonSpaceStrip | chrono_ctor_harvester_v5.py:136 | The last non-whitespace character is absent exactly when the stripped line is empty, and otherwise is the last character of the stripped line. |
| HelpText.StopsMeaning | chrono_ctor_harvester_v5.py:136 | The stop test is `INIT_HEAD.match(nxt) or nxt.strip().endswith(":")`, plus `nxt.strip() == ""` for v3. |
| HelpText.IsStopLine | chrono_ctor_harvester_v5.py:136 | The break test computes the stop predicate. |
| HelpText.Continuation | chrono_ctor_harvester_v5.py:133-142 | One line is taken per index consumed, and never past the end of the page. |
| HelpText.ContinuationLine | chrono_ctor_harvester_v5.py:133-142 | Line `k` taken is page line `j + k` without its UI prefix. No taken line is a stop line, and only the last may hold `)`. |
| HelpText.ContinuationEnd | chrono_ctor_harvester_v5.py:133-142 | Collection ends at the end of the page, after a line holding `)`, or before a stop line. |
| HelpText.CollectContinuation | chrono_ctor_harvester_v5.py:132-143 | The inner `while j < len(lines)` loop computes `Continuation`. |
| HelpText.SigLines | chrono_ctor_harvester_v5.py:130-143 | A signature starts with its head line, and its last line is at or after the head and on the page. |
| HelpText.CollectSignature | chrono_ctor_harvester_v5.py:130-143 | The accumulation, with `i = j - 1`, computes `SigLines`. |
| HelpText.InsideParens | chrono_ctor_harvester_v5.py:146-151 | Defined exactly when the signature holds both `(` and `)`. Its value is the text strictly between the first `(` and the last `)`, or empty when that `)` comes first. |
| HelpText.SplitChar | chrono_ctor_harvester_v5.py:59-70 | One character of `split_args` keeps the output tokens, the buffer and the bracket depth equal to those of the prefix read. |
| HelpText.SplitCommaStep | chrono_ctor_harvester_v5.py:64-69 | A comma at depth zero appends the stripped buffer when it is not empty and starts an empty buffer. |
| HelpText.SplitKeepStep | chrono_ctor_harvester_v5.py:59-70 | Any other character updates the `<`/`>` depth, never below zero, and is appended to the buffer. |
| HelpText.SplitArgs | chrono_ctor_harvester_v5.py:56-74 | `split_args` returns the stripped, non-empty pieces of the input cut at commas read at depth zero. |
| HelpText.JoinPieces | chrono_ctor_harvester_v5.py:56-74 | Joining the raw pieces with commas gives back the input: the splitter drops nothing but the separating commas. |
| HelpText.PiecesCount | chrono_ctor_harvester_v5.py:59-70 | There is one raw piece more than top-level commas. |
| HelpText.TokensClean | chrono_ctor_harvester_v5.py:65-73 | Every token is non-empty and stripped. |
| HelpText.NoTopCommaOneToken | chrono_ctor_harvester_v5.py:56-74 | Text without a top-level comma yields at most one token, so `std::map<int, double>` stays whole. |
| HelpText.CutAtSpace | chrono_ctor_harvester_v5.py:103-104 | `left.split(" ", 1)[0]`, taken when `left` holds a space, gives the word that `left` begins with when a space or nothing follows it. |
| HelpText.WordBeforeEquals | chrono_ctor_harvester_v3.py:55-57 | `p.split("=", 1)[0].strip()` followed by the cut at the first space gives the word that `p` begins with. |
| HelpText.TypeWordOf | chrono_ctor_harvester_v5.py:96-104 | The type word is the leading word whether or not the parameter is first cut at `=`. |
| HelpText.LeadingWordStrip | chrono_ctor_harvester_v5.py:87 | Stripping a parameter keeps the word it begins with. |
| HelpText.SharedPtrMatch | chrono_ctor_harvester_v5.py:29 | A match of `std::shared_ptr\s*<\s*([^>]+)\s*>` starts with `std::shared_ptr`, has a positive length within the text, and captures a non-empty group without `>`. |
| HelpText.SubSharedPtrIdentity | chrono_ctor_harvester_v5.py:29 | Text without `::` is left unchanged by the collapse. |
| HelpText.Canonical | chrono_ctor_harvester_v5.py:40-54 | `double`/`float` map to `double`; `int`, `unsigned`, `unsigned int`, `size_t` map to `int`; `bool` to `bool`; a type starting with `ChContactMaterial` or `ChAxis` to that prefix. Every other type maps to itself. |
| HelpText.CanonicalIdempotent | chrono_ctor_harvester_v5.py:40-54 | Applying the table twice equals applying it once. |
| HelpText.AddNew | chrono_ctor_harvester_v5.py:170-171 | `if rec not in overloads: overloads.append(rec)` leaves the record in the list. |
| HelpText.DedupProps | chrono_ctor_harvester_v5.py:168-171 | The harvested list holds no record twice, and holds exactly the records seen. |
| HelpText.DedupPrefix | chrono_ctor_harvester_v5.py:168-171 | The list so far is a prefix of the final list: records keep the order of their first appearance. |
| HelpText.DedupOfNoDup | chrono_ctor_harvester_v5.py:168-171 | Records without repeats are kept as they are. |
| HarvesterV5.NormTypeCompact | chrono_ctor_harvester_v5.py:24-54 | Whatever the token, `norm_type` returns a type without whitespace, `&` or `::`. |
| HarvesterV5.SqueezeCompact | chrono_ctor_harvester_v5.py:26-34 | A compact token passes through the stripping, blanking and squeezing unchanged. |
| HarvesterV5.CanonicalCompact | chrono_ctor_harvester_v5.py:40-54 | The canonical table keeps a type compact. |
| HarvesterV5.SqueezeClean | chrono_ctor_harvester_v5.py:26-34 | After stripping, the `shared_ptr` collapse, the blanking and the squeeze, the token holds no `&` and no `::`, and its only whitespace is the plain space. |
| HarvesterV5.NormTypeOfCompact | chrono_ctor_harvester_v5.py:24-54 | On a compact token `norm_type` is exactly the canonical table. |
| HarvesterV5.NormTypeFloat | chrono_ctor_harvester_v5.py:41-42 | `norm_type("float")` is `double`. |
| HarvesterV5.NormTypeSizeT | chrono_ctor_harvester_v5.py:43-44 | `norm_type("size_t")` is `int`. |
| HarvesterV5.NormTypeAxis | chrono_ctor_harvester_v5.py:51-52 | `norm_type("ChAxis_Z")` is `ChAxis`. |
| HarvesterV5.NormTypeIdempotent | chrono_ctor_harvester_v5.py:24-54 | Normalising a normalised type changes nothing. |
| HarvesterV5.ParamType | chrono_ctor_harvester_v5.py:95-106 | The type of a parameter is compact. When the text begins with a word followed by the end, a space or `=`, the type is `norm_type` of that word. |
| HarvesterV5.Param | chrono_ctor_harvester_v5.py:87-106 | A parameter is skipped exactly when it is empty, `self` or `... self` once stripped. Otherwise it yields a compact type, with a default flag that holds exactly when it has `=`. The type is `norm_type` of the parameter's leading word. |
| HarvesterV5.ParamOfWord | chrono_ctor_harvester_v5.py:87-106 | A token that begins with a word and is not `self` gives that word's `norm_type`, with a default exactly when it has `=`. |
| HarvesterV5.ParamsOfWords | chrono_ctor_harvester_v5.py:84-107 | Tokens that each begin with a word, none of them `self`, give one typed parameter per token, in order: the word's `norm_type` and whether the token has `=`. |
| HarvesterV5.ParamConstRef | chrono_ctor_harvester_v5.py:100-106 | `const double& r` gives the type `const` without a default: the name is cut off before `norm_type` could remove the qualifier. |
| HarvesterV5.NormTypeConst | chrono_ctor_harvester_v5.py:24-54 | A lone `const` is no type of the table and stays `const`. |
| HarvesterV5.Params | chrono_ctor_harvester_v5.py:84-107 | At most one typed parameter per token, each with a compact type. |
| HarvesterV5.ParseInitInside | chrono_ctor_harvester_v5.py:76-107 | `parse_init_inside` computes `Params` of the split tokens; `ParamsOfWords` says which type each token gets. |
| HarvesterV5.TrailingDefaults | chrono_ctor_harvester_v5.py:158-164 | The count is at most the number of parameters. The last `count` parameters all have a default, and the one before them, if any, does not. |
| HarvesterV5.CountTrailingDefaults | chrono_ctor_harvester_v5.py:158-164 | The `for ... in reversed(typed)` loop with `break` computes `TrailingDefaults`. |
| HarvesterV5.RecordOf | chrono_ctor_harvester_v5.py:146-169 | A record only from a signature with both parentheses, and it is well formed. |
| HarvesterV5.OverloadOf | chrono_ctor_harvester_v5.py:158-169 | A record has one type per typed parameter and is well formed: at least one type, no more defaults than types, every type compact. |
| HarvesterV5.Next | chrono_ctor_harvester_v5.py:125-172 | The outer loop always advances and never passes the end of the page. |
| HarvesterV5.ReadHead | chrono_ctor_harvester_v5.py:128-171 | At an `__init__` head the loop body yields that head's record, if any, and moves to the line after the signature. |
| HarvesterV5.HarvestFromHelp | chrono_ctor_harvester_v5.py:121-173 | `harvest_from_help` on the page lines returns `Dedup` of the records in page order. |
| HarvesterV5.HarvestProps | chrono_ctor_harvester_v5.py:166-173 | The result holds no record twice and exactly the records on the page, each well formed. |
| HarvesterV5.ScanWellFormed | chrono_ctor_harvester_v5.py:153-169 | Every record read from the page is well formed. |
| HarvesterV3.NormTokClean | chrono_ctor_harvester_v3.py:19-29 | `norm_tok` returns a stripped type without `&`. |
| HarvesterV3.NormTokOfPlain | chrono_ctor_harvester_v3.py:19-29 | On a stripped token without `::`, `const ` or `&`, `norm_tok` is exactly the canonical table. |
| HarvesterV3.NormTokFloat | chrono_ctor_harvester_v3.py:24 | `norm_tok("float")` is `double`. |
| HarvesterV3.NormTokUnsigned | chrono_ctor_harvester_v3.py:25 | `norm_tok("unsigned")` is `int`. |
| HarvesterV3.NormTokAxis | chrono_ctor_harvester_v3.py:28 | `norm_tok("ChAxis_Z")` is `ChAxis`. |
| HarvesterV3.Param | chrono_ctor_harvester_v3.py:53-57 | A token is skipped exactly when it is `self` or ends in ` self`. Otherwise its type is clean, and it is `norm_tok` of the token's leading word: what comes after `=` or after the first space is discarded. |
| HarvesterV3.ParamOfWord | chrono_ctor_harvester_v3.py:53-57 | A token that begins with a word and is not `self` gives that word's `norm_tok`. |
| HarvesterV3.ParamsOfWords | chrono_ctor_harvester_v3.py:50-58 | Tokens that each begin with a word, none of them `self`, give the words' `norm_tok`, one per token, in order. |
| HarvesterV3.ParamConstRef | chrono_ctor_harvester_v3.py:54-57 | `const double& r` gives the type `const`: the name is cut off before `norm_tok` could delete the qualifier. |
| HarvesterV3.NormTokConst | chrono_ctor_harvester_v3.py:19-29 | A lone `const` is no type of the table and stays `const`. |
| HarvesterV3.Params | chrono_ctor_harvester_v3.py:50-58 | At most one type per token, each clean. |
| HarvesterV3.ParseInitInside | chrono_ctor_harvester_v3.py:48-58 | `parse_init_inside` computes `Params` of the split tokens; `ParamsOfWords` says which type each token gets. |
| HarvesterV3.RecordOf | chrono_ctor_harvester_v3.py:89-98 | A record only from a signature with both parentheses: a non-empty list of clean types. |
| HarvesterV3.Next | chrono_ctor_harvester_v3.py:69-99 | The outer loop always advances and never passes the end of the page. |
| HarvesterV3.ReadHead | chrono_ctor_harvester_v3.py:72-98 | At an `__init__` head the loop body yields that head's record, if any, and moves to the line after the signature. Blank lines stop the signature too. |
| HarvesterV3.HarvestFromHelp | chrono_ctor_harvester_v3.py:65-100 | `harvest_from_help` on the page lines returns `Dedup` of the type lists in page order. |
| HarvesterV3.HarvestProps | chrono_ctor_harvester_v3.py:94-100 | The result holds no type list twice and exactly the lists on the page, each non-empty and clean. |
| HarvesterV3.ScanWellFormed | chrono_ctor_harvester_v3.py:89-98 | Every type list read from the page is non-empty and clean. |

## Left out

- Parsing is not modelled. `ast.parse` is not part of this model: the checkers take its outcome (a tree or a syntax-error message) as input.
- Rendering the help page is not modelled. `pydoc.render_doc` and `str.splitlines` are not part of this model: the harvesters take the page's lines as input. So the `except Exception: return []` path around `render_doc` is not modelled either.
- File and process I/O are out:
  - `load_allowlist` (JSON files);
  - the `ALLOWLIST_FILE` environment lookup;
  - each file's `main` and `argparse` handling;
  - `iter_classes`, `importlib` and the report files.
  The allow-list and the overload entries are parameters instead.
- Global tables: the validator's global `CtorOverloads`, cleared and refilled on each call, becomes a fresh `CtorTable` object per call.
- `normalize_class_key` is left out: it is the identity and is never called.
- `visit_Import`, `visit_ImportFrom` and the `imported`/`found_alias` fields of `ChronoVisitor` are left out, as is the gate's `alias_to_mod`. They only fill maps that nothing reads. Those two visitor methods do not descend either, but import nodes have no child nodes here (`alias` nodes are elided), so `ChronoVisitor.Visit` visits the same calls as the source.
- `ast.NameConstant` (Python before 3.8) is not modelled: constants are `ast.Constant` only.
- AST fields the checks never read are elided: `ctx`, operators, positions, and the kinds of statement other than imports.
- Constant values are reduced to their kind. A float's value, a string's content and `None` make no difference to any check.
- Python's `repr` of strings inside the mismatch message is modelled as quoting with `'`. Escaping of quotes and backslashes inside class or type names is not modelled.
- `OverloadValidator.MatchOverload`: the trailing-default counts the v5 harvester records are not used by the matcher in the code, so the model does not use them either.
- `HelpText.SubSharedPtr`: the model states when the collapse changes nothing and what a match captures. No lemma computes the collapse of a concrete `std::shared_ptr<...>` type.
- `HarvesterV3.NormTokClean`: idempotence is not claimed for v3's `norm_tok`. Deleting text can join what surrounds it into a new `const ` or `chrono::`, which a second pass would delete.
