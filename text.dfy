/** String primitives of the two runtimes the system is written for: JavaScript's
    `String.prototype.trim`, `Array.prototype.join`, `<` on strings and `toLowerCase`,
    and Python's `str.strip`, `str.join`, `str.lower`, `str.replace` and `re.split`
    on literal alternatives.  Strings are sequences of Unicode scalar values. */
module Text {
  import opened Wrappers
  import opened Collections

  // ---------------------------------------------------------------------------
  // Whitespace

  /** The characters `String.prototype.trim` removes: ECMAScript WhiteSpace and LineTerminator. */
  predicate IsJsSpace(c: char) {
    c == ' ' || c == '\t' || c == '\n' || c == '\r' || c == '\U{B}' || c == '\U{C}'
    || c == '\U{A0}' || c == '\U{FEFF}' || c == '\U{1680}' || ('\U{2000}' <= c <= '\U{200A}')
    || c == '\U{2028}' || c == '\U{2029}' || c == '\U{202F}' || c == '\U{205F}' || c == '\U{3000}'
  }

  /** The characters for which Python's `str.isspace` holds; `str.strip()` removes them and
      the regular expression `\s` matches them. */
  predicate IsPySpace(c: char) {
    c == ' ' || c == '\t' || c == '\n' || c == '\r' || c == '\U{B}' || c == '\U{C}'
    || ('\U{1C}' <= c <= '\U{1F}') || c == '\U{85}' || c == '\U{A0}' || c == '\U{1680}'
    || ('\U{2000}' <= c <= '\U{200A}') || c == '\U{2028}' || c == '\U{2029}'
    || c == '\U{202F}' || c == '\U{205F}' || c == '\U{3000}'
  }

  /** The characters a trim removes: the whitespace of one of the runtimes (`trim()`,
      `strip()`), or the characters given to Python's `strip(chars)` / `lstrip(chars)`. */
  datatype StripSet = JsSpaces | PySpaces | Chars(chars: set<char>)

  predicate Strips(sp: StripSet, c: char) {
    match sp
    case JsSpaces => IsJsSpace(c)
    case PySpaces => IsPySpace(c)
    case Chars(cs) => c in cs
  }

  /** Drops the longest prefix of characters of `sp`. */
  function TrimStart(s: string, sp: StripSet): (r: string)
    ensures |r| <= |s| && r == s[|s| - |r|..]
    ensures forall i :: 0 <= i < |s| - |r| ==> Strips(sp, s[i])
    ensures r != [] ==> !Strips(sp, r[0])
  {
    if s != [] && Strips(sp, s[0]) then
      var r := TrimStart(s[1..], sp);
      assert s[1..][|s| - 1 - |r|..] == s[|s| - |r|..];
      assert forall i :: 1 <= i < |s| - |r| ==> s[i] == s[1..][i - 1];
      r
    else s
  }

  /** Drops the longest suffix of characters of `sp`. */
  function TrimEnd(s: string, sp: StripSet): (r: string)
    ensures |r| <= |s| && r == s[..|r|]
    ensures forall i :: |r| <= i < |s| ==> Strips(sp, s[i])
    ensures r != [] ==> !Strips(sp, r[|r| - 1])
  {
    if s != [] && Strips(sp, s[|s| - 1]) then TrimEnd(s[..|s| - 1], sp) else s
  }

  predicate IsBlank(s: string, sp: StripSet) {
    forall i :: 0 <= i < |s| ==> Strips(sp, s[i])
  }

  /** Neither end of `s` is a character of `sp`. */
  predicate IsTrimmed(s: string, sp: StripSet) {
    s != [] ==> !Strips(sp, s[0]) && !Strips(sp, s[|s| - 1])
  }

  function Trim(s: string, sp: StripSet): (r: string)
    ensures |r| <= |s|
    ensures IsTrimmed(r, sp)
    ensures r == [] <==> IsBlank(s, sp)
  {
    var t := TrimStart(s, sp);
    var r := TrimEnd(t, sp);
    assert r != [] ==> r[0] == t[0];
    BlankWhenTrimmedAway(s, sp, t, r);
    r
  }

  lemma BlankWhenTrimmedAway(s: string, sp: StripSet, t: string, r: string)
    requires t == TrimStart(s, sp) && r == TrimEnd(t, sp)
    ensures r == [] ==> IsBlank(s, sp)
  {
    if r == [] {
      forall i | 0 <= i < |s| ensures Strips(sp, s[i]) {
        if i >= |s| - |t| {
          assert s[i] == t[i - (|s| - |t|)];
        }
      }
    }
  }

  /** The trimmed string is a contiguous piece of the original. */
  lemma TrimSlice(s: string, sp: StripSet) returns (i: nat)
    ensures i + |Trim(s, sp)| <= |s| && Trim(s, sp) == s[i..i + |Trim(s, sp)|]
  {
    var t := TrimStart(s, sp);
    i := |s| - |t|;
    assert Trim(s, sp) == t[..|Trim(s, sp)|];
  }

  /** Trimming twice is trimming once. */
  lemma {:induction false} TrimIdempotent(s: string, sp: StripSet)
    requires IsTrimmed(s, sp)
    ensures Trim(s, sp) == s
  {
  }

  function JsTrim(s: string): string { Trim(s, JsSpaces) }

  function PyStrip(s: string): string { Trim(s, PySpaces) }

  /** `x.strip()` is not empty. */
  predicate HasText(x: string) {
    PyStrip(x) != ""
  }

  // ---------------------------------------------------------------------------
  // Joining and splitting

  /** `xs.join(sep)` in JavaScript, `sep.join(xs)` in Python. */
  function Join(sep: string, xs: seq<string>): string
  {
    if xs == [] then "" else if |xs| == 1 then xs[0] else xs[0] + sep + Join(sep, xs[1..])
  }

  lemma JoinEdgeCases(sep: string, x: string)
    ensures Join(sep, []) == ""
    ensures Join(sep, [x]) == x
  {
  }

  lemma JoinCons(sep: string, x: string, xs: seq<string>)
    requires xs != []
    ensures Join(sep, [x] + xs) == x + sep + Join(sep, xs)
  {
    assert ([x] + xs)[1..] == xs;
  }

  predicate OccursAt(s: string, p: nat, t: string) {
    p + |t| <= |s| && s[p..p + |t|] == t
  }

  /** The length of the first alternative of `seps` that occurs in `s` at `p`: a regular
      expression `a|b|c` over literal alternatives tries its branches in this order. */
  function MatchAt(s: string, p: nat, seps: seq<string>): (r: Option<nat>)
    ensures r.None? <==> forall k :: 0 <= k < |seps| ==> !OccursAt(s, p, seps[k])
    ensures r.Some? ==> p + r.value <= |s| && s[p..p + r.value] in seps
  {
    if seps == [] then None
    else if OccursAt(s, p, seps[0]) then Some(|seps[0]|)
    else MatchAt(s, p, seps[1..])
  }

  /** `s` holds no occurrence of any of `seps`. */
  predicate NoMatch(s: string, seps: seq<string>) {
    forall q :: 0 <= q <= |s| ==> MatchAt(s, q, seps).None?
  }

  /** The leftmost match at or after position `p`: its position and length. */
  function FirstMatch(s: string, seps: seq<string>, p: nat): (r: Option<(nat, nat)>)
    requires p <= |s|
    ensures r.Some? ==> p <= r.value.0 <= |s| && MatchAt(s, r.value.0, seps) == Some(r.value.1)
    ensures r.Some? ==> forall q :: p <= q < r.value.0 ==> MatchAt(s, q, seps).None?
    ensures r.None? ==> forall q :: p <= q <= |s| ==> MatchAt(s, q, seps).None?
    decreases |s| - p
  {
    var m := MatchAt(s, p, seps);
    if m.Some? then Some((p, m.value))
    else if p == |s| then None
    else
      var r := FirstMatch(s, seps, p + 1);
      assert forall q :: p < q <= |s| && (r.None? || q < r.value.0) ==> MatchAt(s, q, seps).None?;
      r
  }

  /** An occurrence inside a prefix is an occurrence in the whole string. */
  lemma MatchAtPrefix(s: string, n: nat, q: nat, seps: seq<string>)
    requires q <= n <= |s|
    ensures MatchAt(s[..n], q, seps).Some? ==> MatchAt(s, q, seps).Some?
  {
    if MatchAt(s[..n], q, seps).Some? {
      var k :| 0 <= k < |seps| && OccursAt(s[..n], q, seps[k]);
      assert s[..n][q..q + |seps[k]|] == s[q..q + |seps[k]|];
      assert OccursAt(s, q, seps[k]);
    }
  }

  /** Python's `re.split` with a pattern made of literal alternatives, none of them empty:
      the pieces between successive leftmost matches. */
  function Split(s: string, seps: seq<string>): (r: seq<string>)
    requires "" !in seps
    ensures |r| >= 1
    ensures forall i :: 0 <= i < |r| ==> NoMatch(r[i], seps)
    decreases |s|
  {
    match FirstMatch(s, seps, 0)
    case None => [s]
    case Some((p, n)) =>
      assert s[p..p + n] in seps;
      var piece := s[..p];
      assert NoMatch(piece, seps) by {
        forall q | 0 <= q <= |piece| ensures MatchAt(piece, q, seps).None? {
          MatchAtPrefix(s, p, q, seps);
          if q == p {
            assert MatchAt(piece, q, seps).None?;
          }
        }
      }
      [piece] + Split(s[p + n..], seps)
  }

  /** A piece of a string with no occurrence of `seps` has none either. */
  lemma NoMatchSlice(s: string, i: nat, j: nat, r: string, seps: seq<string>)
    requires i <= j <= |s| && r == s[i..j] && NoMatch(s, seps)
    ensures NoMatch(r, seps)
  {
    assert forall m :: 0 <= m < |r| ==> r[m] == s[i + m];
    forall q | 0 <= q <= j - i ensures MatchAt(r, q, seps).None? {
      forall k | 0 <= k < |seps| ensures !OccursAt(r, q, seps[k]) {
        assert MatchAt(s, i + q, seps).None?;
        assert !OccursAt(s, i + q, seps[k]);
        if q + |seps[k]| <= j - i {
          assert r[q..q + |seps[k]|] == s[i + q..i + q + |seps[k]|];
        }
      }
    }
  }

  lemma StrippedPiece(x: string, seps: seq<string>)
    requires HasText(x) && NoMatch(x, seps)
    ensures PyStrip(x) != "" && IsTrimmed(PyStrip(x), PySpaces) && NoMatch(PyStrip(x), seps)
  {
    TrimStartNoMatch(x, PySpaces, seps);
    TrimEndNoMatch(TrimStart(x, PySpaces), PySpaces, seps);
  }

  lemma {:induction false} TrimStartNoMatch(s: string, sp: StripSet, seps: seq<string>)
    requires NoMatch(s, seps)
    ensures NoMatch(TrimStart(s, sp), seps)
    decreases |s|
  {
    if s != [] && Strips(sp, s[0]) {
      NoMatchSlice(s, 1, |s|, s[1..], seps);
      TrimStartNoMatch(s[1..], sp, seps);
    }
  }

  lemma {:induction false} TrimEndNoMatch(s: string, sp: StripSet, seps: seq<string>)
    requires NoMatch(s, seps)
    ensures NoMatch(TrimEnd(s, sp), seps)
    decreases |s|
  {
    if s != [] && Strips(sp, s[|s| - 1]) {
      NoMatchSlice(s, 0, |s| - 1, s[..|s| - 1], seps);
      TrimEndNoMatch(s[..|s| - 1], sp, seps);
    }
  }

  /** `[x.strip() for x in re.split(...) if x.strip()]`: the pieces with text, stripped.
      Each is non-empty, has no whitespace at either end and holds no separator. */
  function StrippedPieces(s: string, seps: seq<string>): (r: seq<string>)
    requires "" !in seps
    ensures forall k :: 0 <= k < |r| ==> r[k] != "" && IsTrimmed(r[k], PySpaces) && NoMatch(r[k], seps)
  {
    var all := Split(s, seps);
    var pieces := Filter(all, HasText);
    forall k | 0 <= k < |pieces|
      ensures PyStrip(pieces[k]) != "" && IsTrimmed(PyStrip(pieces[k]), PySpaces) && NoMatch(PyStrip(pieces[k]), seps)
    {
      var j :| 0 <= j < |all| && all[j] == pieces[k];
      StrippedPiece(pieces[k], seps);
    }
    Map(pieces, PyStrip)
  }

  /** Joining the pieces with the separator gives back the string. */
  lemma {:induction false} JoinSplit(s: string, sep: string)
    requires sep != ""
    ensures Join(sep, Split(s, [sep])) == s
    decreases |s|
  {
    match FirstMatch(s, [sep], 0)
    case None =>
    case Some((p, n)) =>
      var rest := Split(s[p + n..], [sep]);
      assert s[p..p + n] == sep;
      JoinSplit(s[p + n..], sep);
      JoinCons(sep, s[..p], rest);
      assert s == s[..p] + s[p..p + n] + s[p + n..];
  }

  /** The string put back together from its pieces and the separators matched between
      them. */
  function Rebuild(pieces: seq<string>, matched: seq<string>): string
    requires |pieces| == |matched| + 1
  {
    if matched == [] then pieces[0] else pieces[0] + matched[0] + Rebuild(pieces[1..], matched[1..])
  }

  /** With several alternatives, the pieces and the separators each match consumed give
      back the string: nothing is lost between the pieces. */
  lemma {:induction false} SplitRebuilds(s: string, seps: seq<string>) returns (matched: seq<string>)
    requires "" !in seps
    ensures |matched| + 1 == |Split(s, seps)|
    ensures forall k :: 0 <= k < |matched| ==> matched[k] in seps
    ensures Rebuild(Split(s, seps), matched) == s
    decreases |s|
  {
    match FirstMatch(s, seps, 0)
    case None =>
      matched := [];
      assert Split(s, seps) == [s];
    case Some((p, n)) =>
      assert s[p..p + n] in seps;
      var rest := SplitRebuilds(s[p + n..], seps);
      matched := [s[p..p + n]] + rest;
      RebuildStep(s, p, n, Split(s[p + n..], seps), rest);
  }

  /** One piece and the separator after it, in front of a rebuilt rest. */
  lemma RebuildStep(s: string, p: nat, n: nat, tail: seq<string>, rest: seq<string>)
    requires p + n <= |s| && |tail| == |rest| + 1 && Rebuild(tail, rest) == s[p + n..]
    ensures Rebuild([s[..p]] + tail, [s[p..p + n]] + rest) == s
  {
    assert ([s[..p]] + tail)[1..] == tail && ([s[p..p + n]] + rest)[1..] == rest;
    assert s == s[..p] + s[p..p + n] + s[p + n..];
  }

  /** The stripped pieces are, in order, the pieces of the split that have text, each
      stripped, and no piece with text is dropped. */
  lemma StrippedPiecesSpec(s: string, seps: seq<string>)
    requires "" !in seps
    ensures var r := StrippedPieces(s, seps);
      var pieces := Split(s, seps);
      var pos := Positions(pieces, HasText, 0);
      && |r| == |pos|
      && (forall k :: 0 <= k < |r| ==> HasText(pieces[pos[k]]) && r[k] == PyStrip(pieces[pos[k]]))
      && (forall j :: 0 <= j < |pieces| && HasText(pieces[j]) ==> j in pos)
  {
    var pieces := Split(s, seps);
    assert StrippedPieces(s, seps) == Map(Filter(pieces, HasText), PyStrip);
    KeptPiecesStripped(pieces);
  }

  lemma KeptPiecesStripped(pieces: seq<string>)
    ensures var r := Map(Filter(pieces, HasText), PyStrip);
      var pos := Positions(pieces, HasText, 0);
      && |r| == |pos|
      && (forall k :: 0 <= k < |r| ==> HasText(pieces[pos[k]]) && r[k] == PyStrip(pieces[pos[k]]))
      && (forall j :: 0 <= j < |pieces| && HasText(pieces[j]) ==> j in pos)
  {
    PositionsSelectFilter(pieces, HasText, 0);
    PositionsComplete(pieces, HasText, 0);
    assert pieces[0..] == pieces;
  }

  /** No occurrence of `sep` lies inside `x + sep + y` before the separator, when the
      character `sep[m]` appears neither in `x` nor elsewhere in `sep`. */
  lemma SeparatorFirstAt(x: string, sep: string, y: string, m: nat)
    requires m < |sep|
    requires forall j :: 0 <= j < |sep| && j != m ==> sep[j] != sep[m]
    requires sep[m] !in x
    ensures FirstMatch(x + sep + y, [sep], 0) == Some((|x|, |sep|))
  {
    var s := x + sep + y;
    assert OccursAt(s, |x|, sep) by {
      assert s[|x|..|x| + |sep|] == sep;
    }
    forall q | 0 <= q < |x| ensures MatchAt(s, q, [sep]).None? {
      if OccursAt(s, q, sep) {
        assert false;
      }
    }
    assert MatchAt(s, |x|, [sep]) == Some(|sep|);
  }

  /** Splitting a joined list on its separator gives the list back when some character of
      the separator is unique to it and occurs in no element (for " • " that is the bullet). */
  lemma {:induction false} SplitJoin(xs: seq<string>, sep: string, m: nat)
    requires xs != []
    requires m < |sep|
    requires forall j :: 0 <= j < |sep| && j != m ==> sep[j] != sep[m]
    requires forall i :: 0 <= i < |xs| ==> sep[m] !in xs[i]
    ensures Split(Join(sep, xs), [sep]) == xs
  {
    if |xs| == 1 {
      var s := xs[0];
      forall q | 0 <= q <= |s| ensures MatchAt(s, q, [sep]).None? {
        if OccursAt(s, q, sep) {
          assert false;
        }
      }
      assert FirstMatch(s, [sep], 0).None?;
    } else {
      var rest := Join(sep, xs[1..]);
      JoinCons(sep, xs[0], xs[1..]);
      assert [xs[0]] + xs[1..] == xs;
      SeparatorFirstAt(xs[0], sep, rest, m);
      var s := xs[0] + sep + rest;
      assert s[..|xs[0]|] == xs[0];
      assert s[|xs[0]| + |sep|..] == rest;
      SplitJoin(xs[1..], sep, m);
    }
  }

  // ---------------------------------------------------------------------------
  // Ordering and case

  /** JavaScript's `<` on strings and Python's `<` on `str`: lexicographic, character by
      character, a proper prefix first. */
  predicate Less(a: string, b: string) {
    if a == [] then b != []
    else if b == [] then false
    else if a[0] != b[0] then a[0] < b[0]
    else Less(a[1..], b[1..])
  }

  lemma {:induction false} LessIrreflexive(a: string)
    ensures !Less(a, a)
  {
    if a != [] {
      LessIrreflexive(a[1..]);
    }
  }

  lemma {:induction false} LessAsymmetric(a: string, b: string)
    ensures Less(a, b) ==> !Less(b, a)
  {
    if a != [] && b != [] && a[0] == b[0] {
      LessAsymmetric(a[1..], b[1..]);
    }
  }

  lemma {:induction false} LessTotal(a: string, b: string)
    ensures a == b || Less(a, b) || Less(b, a)
  {
    if a != [] && b != [] && a[0] == b[0] {
      LessTotal(a[1..], b[1..]);
      if a[1..] == b[1..] {
        assert a == [a[0]] + a[1..] && b == [b[0]] + b[1..];
      }
    }
  }

  lemma {:induction false} LessTransitive(a: string, b: string, c: string)
    requires Less(a, b) && Less(b, c)
    ensures Less(a, c)
  {
    if a != [] && a[0] == b[0] && b[0] == c[0] {
      LessTransitive(a[1..], b[1..], c[1..]);
    }
  }

  function LowerChar(c: char): char {
    if 'A' <= c <= 'Z' then (c as int + 32) as char else c
  }

  /** `toLowerCase()` / `lower()` on the ASCII letters. */
  function Lower(s: string): string {
    seq(|s|, i requires 0 <= i < |s| => LowerChar(s[i]))
  }

  predicate StartsWith(s: string, prefix: string) {
    |prefix| <= |s| && s[..|prefix|] == prefix
  }

  /** Python's `str.replace(pattern, replacement)`: every non-overlapping occurrence, left to right. */
  function Replace(s: string, pattern: string, replacement: string): string
    requires pattern != ""
    decreases |s|
  {
    if |s| < |pattern| then s
    else if s[..|pattern|] == pattern then replacement + Replace(s[|pattern|..], pattern, replacement)
    else [s[0]] + Replace(s[1..], pattern, replacement)
  }

  /** Whitespace inside `s` is single spaces. */
  predicate SingleSpaced(s: string) {
    && (forall i :: 0 <= i < |s| && IsPySpace(s[i]) ==> s[i] == ' ')
    && (forall i :: 0 <= i < |s| - 1 ==> !(IsPySpace(s[i]) && IsPySpace(s[i + 1])))
  }

  /** Any slice `r` of a single-spaced string is single-spaced. */
  lemma SingleSpacedSlice(s: string, i: nat, j: nat, r: string)
    requires i <= j <= |s| && SingleSpaced(s) && r == s[i..j]
    ensures SingleSpaced(r)
  {
    assert forall k :: 0 <= k < j - i ==> r[k] == s[i + k];
  }

  /** Trimming keeps a string single-spaced: it only ever drops an end character. */
  lemma TrimSingleSpaced(s: string, sp: StripSet)
    requires SingleSpaced(s)
    ensures SingleSpaced(Trim(s, sp))
  {
    TrimStartSingleSpaced(s, sp);
    TrimEndSingleSpaced(TrimStart(s, sp), sp);
  }

  lemma {:induction false} TrimStartSingleSpaced(s: string, sp: StripSet)
    requires SingleSpaced(s)
    ensures SingleSpaced(TrimStart(s, sp))
    decreases |s|
  {
    if s != [] && Strips(sp, s[0]) {
      SingleSpacedSlice(s, 1, |s|, s[1..]);
      TrimStartSingleSpaced(s[1..], sp);
    }
  }

  lemma {:induction false} TrimEndSingleSpaced(s: string, sp: StripSet)
    requires SingleSpaced(s)
    ensures SingleSpaced(TrimEnd(s, sp))
    decreases |s|
  {
    if s != [] && Strips(sp, s[|s| - 1]) {
      SingleSpacedSlice(s, 0, |s| - 1, s[..|s| - 1]);
      TrimEndSingleSpaced(s[..|s| - 1], sp);
    }
  }

  /** Python's `re.sub(r"\s+", " ", s)`: every maximal run of whitespace becomes one space. */
  function CollapseSpaces(s: string): (r: string)
    ensures |r| <= |s|
    ensures r == [] <==> s == []
    ensures r != [] ==> (IsPySpace(r[0]) <==> IsPySpace(s[0]))
    ensures SingleSpaced(r)
    ensures IsBlank(r, PySpaces) <==> IsBlank(s, PySpaces)
    decreases |s|
  {
    if s == [] then []
    else if IsPySpace(s[0]) then
      var t := TrimStart(s, PySpaces);
      var r := " " + CollapseSpaces(t);
      assert IsBlank(r, PySpaces) <==> IsBlank(t, PySpaces) by {
        assert r[1..] == CollapseSpaces(t);
      }
      r
    else [s[0]] + CollapseSpaces(s[1..])
  }

  /** A character that is not whitespace: what normalising whitespace never touches. */
  predicate NonSpace(c: char) {
    !IsPySpace(c)
  }

  /** Collapsing the runs of whitespace keeps every other character, in order. */
  lemma {:induction false} CollapseKeepsText(s: string)
    ensures Filter(CollapseSpaces(s), NonSpace) == Filter(s, NonSpace)
    decreases |s|
  {
    if s != [] {
      var r := CollapseSpaces(s);
      if IsPySpace(s[0]) {
        var t := TrimStart(s, PySpaces);
        assert r[1..] == CollapseSpaces(t);
        CollapseKeepsText(t);
        DropLeadingSpaces(s, |s| - |t|);
      } else {
        assert r[1..] == CollapseSpaces(s[1..]) && r[0] == s[0];
        CollapseKeepsText(s[1..]);
      }
    }
  }

  /** Whitespace in front does not count. */
  lemma {:induction false} DropLeadingSpaces(s: string, i: nat)
    requires i <= |s| && forall k :: 0 <= k < i ==> Strips(PySpaces, s[k])
    ensures Filter(s, NonSpace) == Filter(s[i..], NonSpace)
  {
    if i > 0 {
      DropLeadingSpaces(s, i - 1);
      FilterFrom(s, NonSpace, i - 1);
      assert !NonSpace(s[i - 1]);
    } else {
      assert s[i..] == s;
    }
  }

  /** Whitespace at the end does not count. */
  lemma {:induction false} DropTrailingSpaces(s: string, i: nat)
    requires i <= |s| && forall k :: i <= k < |s| ==> Strips(PySpaces, s[k])
    ensures Filter(s, NonSpace) == Filter(s[..i], NonSpace)
    decreases |s| - i
  {
    if i < |s| {
      DropTrailingSpaces(s, i + 1);
      var u := s[..i + 1];
      FilterSnoc(u, NonSpace);
      assert u[..|u| - 1] == s[..i] && !NonSpace(u[|u| - 1]);
    } else {
      assert s[..i] == s;
    }
  }

  /** `str.strip()` removes whitespace only. */
  lemma StripKeepsText(s: string)
    ensures Filter(PyStrip(s), NonSpace) == Filter(s, NonSpace)
  {
    var t := TrimStart(s, PySpaces);
    var r := TrimEnd(t, PySpaces);
    assert PyStrip(s) == r;
    DropLeadingSpaces(s, |s| - |t|);
    DropTrailingSpaces(t, |r|);
  }
}
