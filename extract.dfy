/** The text helpers of the PDF extraction script: the bullet-list parser, the cutting of
    an entry's text at its section headings, the splitting of the "(a.k.a. …)" line and
    the page range of each table-of-contents entry.  Reading the PDF, the heading regular
    expressions and the table-of-contents pattern are not part of this model: the heading
    matches are an input. */
module Extract {
  import opened Collections
  import opened Text
  import opened Sorting
  import opened Wrappers
  import opened Types

  // ---------------------------------------------------------------------------
  // Lines

  /** The characters Python's `str.splitlines` breaks at. */
  predicate IsLineBreak(c: char) {
    c in {'\n', '\r', '\U{B}', '\U{C}', '\U{1C}', '\U{1D}', '\U{1E}', '\U{85}', '\U{2028}', '\U{2029}'}
  }

  /** The lines of `s` when the current, unfinished, line so far is `cur`: a break ends
      the line, `"\r\n"` counts as one break, and a last line is kept only when it is
      non-empty. */
  function LinesFrom(s: string, cur: string): seq<string>
    decreases |s|
  {
    if s == [] then (if cur == [] then [] else [cur])
    else if s[0] == '\r' && |s| > 1 && s[1] == '\n' then [cur] + LinesFrom(s[2..], [])
    else if IsLineBreak(s[0]) then [cur] + LinesFrom(s[1..], [])
    else LinesFrom(s[1..], cur + [s[0]])
  }

  /** `s.splitlines()`. */
  function Lines(s: string): seq<string> {
    LinesFrom(s, [])
  }

  /** The lines of a blank text are blank. */
  lemma {:induction false} BlankLines(s: string, cur: string)
    requires IsBlank(s, PySpaces) && IsBlank(cur, PySpaces)
    ensures forall k :: 0 <= k < |LinesFrom(s, cur)| ==> IsBlank(LinesFrom(s, cur)[k], PySpaces)
    decreases |s|
  {
    if s == [] {
    } else if s[0] == '\r' && |s| > 1 && s[1] == '\n' {
      assert IsBlank(s[2..], PySpaces) by {
        assert forall i :: 0 <= i < |s[2..]| ==> s[2..][i] == s[i + 2];
      }
      BlankLines(s[2..], []);
    } else {
      assert IsBlank(s[1..], PySpaces) by {
        assert forall i :: 0 <= i < |s[1..]| ==> s[1..][i] == s[i + 1];
      }
      if IsLineBreak(s[0]) {
        BlankLines(s[1..], []);
      } else {
        assert Strips(PySpaces, s[0]);
        BlankLines(s[1..], cur + [s[0]]);
      }
    }
  }

  function RStrip(s: string): string {
    TrimEnd(s, PySpaces)
  }

  // ---------------------------------------------------------------------------
  // parse_bullets

  const BULLET: char := '•'

  /** `s.lstrip("•")`. */
  function StripBullets(s: string): string {
    TrimStart(s, Chars({BULLET}))
  }

  /** The parser's variables between two lines: the finished items, the lines of the open
      item and whether a bullet has been seen. */
  datatype Parser = Parser(items: seq<string>, cur: seq<string>, bulletOpen: bool)

  const START: Parser := Parser([], [], false)

  /** The items once the open item, if any, is joined with spaces, stripped and appended. */
  function Close(p: Parser): seq<string> {
    if p.cur != [] then p.items + [PyStrip(Join(" ", p.cur))] else p.items
  }

  /** The loop body on one line `s`, already stripped. */
  function Step(p: Parser, s: string): (r: Parser)
    ensures r.items == p.items || r.items == Close(p)
  {
    if s == [] then p
    else if s == [BULLET] then Parser(Close(p), [], true)
    else if s[0] == BULLET then Parser(Close(p), [PyStrip(StripBullets(s))], true)
    else Parser(p.items, p.cur + [s], p.bulletOpen)
  }

  /** The parser's variables after the stripped lines `ss`. */
  function Run(ss: seq<string>): Parser {
    if ss == [] then START else Step(Run(ss[..|ss| - 1]), ss[|ss| - 1])
  }

  /** `ln.strip()` for each `ln.rstrip()` of the block's lines: what the loop tests. */
  function StrippedLines(block: string): seq<string> {
    Map(Map(Lines(block), RStrip), PyStrip)
  }

  /** `re.sub(r"\s+", " ", it).strip()`. */
  function Normalize(it: string): string {
    PyStrip(CollapseSpaces(it))
  }

  /** A kept item, normalised, is non-empty, has no whitespace at either end and no run of
      whitespace, and its only whitespace is the plain space. */
  lemma NormalizedItem(it: string)
    requires HasText(it)
    ensures Normalize(it) != ""
    ensures IsTrimmed(Normalize(it), PySpaces)
    ensures SingleSpaced(Normalize(it))
    ensures Filter(Normalize(it), NonSpace) == Filter(it, NonSpace)
  {
    assert !IsBlank(CollapseSpaces(it), PySpaces);
    NormalizedSingleSpaced(it);
    NormalizeKeepsText(it);
  }

  /** Normalising changes whitespace only: the other characters stay, in order. */
  lemma NormalizeKeepsText(it: string)
    ensures Filter(Normalize(it), NonSpace) == Filter(it, NonSpace)
  {
    StripKeepsText(CollapseSpaces(it));
    CollapseKeepsText(it);
  }

  /** Normalising leaves no whitespace but single spaces. */
  lemma NormalizedSingleSpaced(it: string)
    ensures SingleSpaced(Normalize(it))
  {
    TrimSingleSpaced(CollapseSpaces(it), PySpaces);
  }

  /** What `parse_bullets(block)` returns. */
  function BulletItems(block: string): (r: seq<string>)
    ensures forall k :: 0 <= k < |r| ==> r[k] != "" && IsTrimmed(r[k], PySpaces) && SingleSpaced(r[k])
  {
    var kept := Filter(Close(Run(StrippedLines(block))), HasText);
    forall k | 0 <= k < |kept| ensures HasText(kept[k]) {
    }
    var r := Map(kept, Normalize);
    forall k | 0 <= k < |r| ensures r[k] != "" && IsTrimmed(r[k], PySpaces) && SingleSpaced(r[k]) {
      NormalizedItem(kept[k]);
    }
    r
  }

  /** `parse_bullets`: one pass over the stripped lines keeping the finished items,
      the lines of the open item and whether a bullet has been seen. */
  method ParseBullets(block: string) returns (result: seq<string>)
    ensures result == BulletItems(block)
    ensures forall k :: 0 <= k < |result| ==>
              result[k] != "" && IsTrimmed(result[k], PySpaces) && SingleSpaced(result[k])
  {
    var ss := StrippedLines(block);
    var items: seq<string> := [];
    var cur: seq<string> := [];
    var bulletOpen := false;
    for i := 0 to |ss|
      invariant Parser(items, cur, bulletOpen) == Run(ss[..i])
    {
      RunSnoc(ss, i);
      var s := ss[i];
      if s == [] {
        continue;
      }
      if s == [BULLET] {
        if cur != [] {
          items := items + [PyStrip(Join(" ", cur))];
          cur := [];
        }
        bulletOpen := true;
        continue;
      }
      if s[0] == BULLET {
        if cur != [] {
          items := items + [PyStrip(Join(" ", cur))];
        }
        cur := [PyStrip(StripBullets(s))];
        bulletOpen := true;
        continue;
      }
      // Both branches on `bullet_open` append the line.
      cur := cur + [s];
    }
    WholePrefix(ss);
    if cur != [] {
      items := items + [PyStrip(Join(" ", cur))];
    }
    result := Map(Filter(items, HasText), Normalize);
  }

  lemma RunSnoc(ss: seq<string>, i: nat)
    requires i < |ss|
    ensures Run(ss[..i + 1]) == Step(Run(ss[..i]), ss[i])
  {
    PrefixOfLongerPrefix(ss, i);
  }

  /** A blank line changes nothing. */
  lemma BlankLineSkipped(ss: seq<string>)
    ensures Run(ss + [""]) == Run(ss)
  {
    assert (ss + [""])[..|ss|] == ss;
  }

  /** A line that is a bullet alone closes the open item, if any, and opens an empty one. */
  lemma LoneBulletClosesItem(ss: seq<string>)
    ensures Run(ss + [[BULLET]]).items == Close(Run(ss))
    ensures Run(ss + [[BULLET]]).cur == []
    ensures Run(ss + [[BULLET]]).bulletOpen
  {
    assert (ss + [[BULLET]])[..|ss|] == ss;
  }

  /** A line that starts with a bullet closes the open item and opens one holding its text
      with the leading bullets and whitespace removed. */
  lemma BulletLineOpensItem(ss: seq<string>, s: string)
    requires s != [] && s != [BULLET] && s[0] == BULLET
    ensures Run(ss + [s]).items == Close(Run(ss))
    ensures Run(ss + [s]).cur == [PyStrip(StripBullets(s))]
    ensures Run(ss + [s]).bulletOpen
  {
    assert (ss + [s])[..|ss|] == ss;
  }

  /** Any other line with text joins the open item, whether or not a bullet has been seen. */
  lemma PlainLineJoinsItem(ss: seq<string>, s: string)
    requires s != [] && s[0] != BULLET
    ensures Run(ss + [s]).items == Run(ss).items
    ensures Run(ss + [s]).cur == Run(ss).cur + [s]
    ensures Run(ss + [s]).bulletOpen == Run(ss).bulletOpen
  {
    assert (ss + [s])[..|ss|] == ss;
  }

  predicate NonEmpty(s: string) {
    s != []
  }

  /** With no bullet, every line with text goes into one open item: text before the first
      bullet forms an item of its own. */
  lemma {:induction false} NoBulletOneItem(ss: seq<string>)
    requires forall k :: 0 <= k < |ss| ==> ss[k] == [] || ss[k][0] != BULLET
    ensures Run(ss) == Parser([], Filter(ss, NonEmpty), false)
  {
    if ss != [] {
      NoBulletOneItem(ss[..|ss| - 1]);
      FilterSnoc(ss, NonEmpty);
    }
  }

  /** A block with no text yields no items. */
  lemma NoTextNoItems(block: string)
    requires IsBlank(block, PySpaces)
    ensures BulletItems(block) == []
  {
    var ss := StrippedLines(block);
    forall k | 0 <= k < |ss| ensures ss[k] == [] {
      BlankLineOfBlankBlock(block, k);
    }
    NoBulletOneItem(ss);
    assert Filter(ss, NonEmpty) == [] by {
      EmptyFilter(ss);
    }
  }

  /** Every line of a blank block is blank after the right strip. */
  lemma BlankLineOfBlankBlock(block: string, k: nat)
    requires IsBlank(block, PySpaces)
    requires k < |Lines(block)|
    ensures PyStrip(RStrip(Lines(block)[k])) == []
  {
    var line := Lines(block)[k];
    BlankLines(block, []);
    assert IsBlank(line, PySpaces);
    assert IsBlank(RStrip(line), PySpaces);
  }

  lemma {:induction false} EmptyFilter(ss: seq<string>)
    requires forall k :: 0 <= k < |ss| ==> ss[k] == []
    ensures Filter(ss, NonEmpty) == []
  {
    if ss != [] {
      EmptyFilter(ss[1..]);
    }
  }

  // ---------------------------------------------------------------------------
  // split_sections

  /** The keys of the heading patterns, in the order the patterns are tried. */
  datatype SectionKey =
    | HowItShowsUp | EffectOnOthers | BeliefsAboutOthers | BeliefsAboutLife
    | SelfReinforcingBehaviors | SkillsToCultivate | Gifts | DeeperTruthStatements | TrueIdentity

  /** A heading match: where it starts and ends in the text and the section it opens. */
  datatype Hit = Hit(start: nat, end: nat, key: SectionKey)

  function ByStart(a: Hit, b: Hit): bool {
    a.start <= b.start
  }

  lemma ByStartIsTotalPreorder()
    ensures TotalPreorder(ByStart)
  {
  }

  /** `hits.sort(key=lambda x: x[0])`. */
  function SortedHits(hits: seq<Hit>): seq<Hit> {
    SortBy(hits, ByStart)
  }

  /** The sorted hits are the same hits, ordered by start, and hits that start at the same
      place keep their order of discovery. */
  lemma SortedHitsSpec(hits: seq<Hit>)
    ensures multiset(SortedHits(hits)) == multiset(hits)
    ensures forall i, j :: 0 <= i < j < |SortedHits(hits)| ==> SortedHits(hits)[i].start <= SortedHits(hits)[j].start
    ensures forall c :: Filter(SortedHits(hits), SameRank(ByStart, c)) == Filter(hits, SameRank(ByStart, c))
  {
    ByStartIsTotalPreorder();
    SortBySorted(hits, ByStart);
    forall c ensures Filter(SortedHits(hits), SameRank(ByStart, c)) == Filter(hits, SameRank(ByStart, c)) {
      SortByStable(hits, ByStart, c);
    }
  }

  function Min(a: int, b: int): int {
    if a <= b then a else b
  }

  /** Python's `text[a:b]` for non-negative bounds: both are clamped to the length, and a
      start past the end gives the empty string. */
  function PySlice(text: string, a: nat, b: nat): (r: string)
    ensures a <= b <= |text| ==> r == text[a..b]
    ensures b <= a ==> r == ""
  {
    var lo := Min(a, |text|);
    var hi := Min(b, |text|);
    if lo <= hi then text[lo..hi] else ""
  }

  /** Where the section of the `i`-th sorted hit ends: the next hit's start, or the end of
      the text after the last hit. */
  function NextStart(text: string, sorted: seq<Hit>, i: nat): nat
    requires i < |sorted|
  {
    if i + 1 < |sorted| then sorted[i + 1].start else |text|
  }

  /** The section the `i`-th sorted hit opens. */
  function SectionText(text: string, sorted: seq<Hit>, i: nat): string
    requires i < |sorted|
  {
    PyStrip(PySlice(text, sorted[i].end, NextStart(text, sorted, i)))
  }

  /** The sections of all sorted hits, in order. */
  ghost function SectionTexts(text: string, sorted: seq<Hit>): (r: seq<string>)
    ensures |r| == |sorted|
    ensures forall j :: 0 <= j < |r| ==> r[j] == SectionText(text, sorted, j)
  {
    seq(|sorted|, j requires 0 <= j < |sorted| => SectionText(text, sorted, j))
  }

  /** No hit after the `i`-th, up to `n`, has its key. */
  predicate LastOfKey(sorted: seq<Hit>, i: nat, n: nat)
    requires i < n <= |sorted|
  {
    forall j :: i < j < n ==> sorted[j].key != sorted[i].key
  }

  /** A key is in the map when some hit has it. */
  lemma SortedHitsKeys(hits: seq<Hit>, key: SectionKey)
    ensures (exists i :: 0 <= i < |SortedHits(hits)| && SortedHits(hits)[i].key == key)
        <==> (exists k :: 0 <= k < |hits| && hits[k].key == key)
  {
    var sorted := SortedHits(hits);
    if exists i :: 0 <= i < |sorted| && sorted[i].key == key {
      var i :| 0 <= i < |sorted| && sorted[i].key == key;
      assert sorted[i] in multiset(hits);
      var k :| 0 <= k < |hits| && hits[k] == sorted[i];
    }
    if exists k :: 0 <= k < |hits| && hits[k].key == key {
      var k :| 0 <= k < |hits| && hits[k].key == key;
      assert hits[k] in multiset(sorted);
      var i :| 0 <= i < |sorted| && sorted[i] == hits[k];
    }
  }

  /** `split_sections`: the hits sorted by start, then each hit's key mapped to the stripped
      text from the end of its heading to the start of the next hit, a later hit of the same
      key replacing an earlier one. */
  method SplitSections(text: string, hits: seq<Hit>) returns (sections: map<SectionKey, string>)
    ensures forall key :: key in sections <==> exists k :: 0 <= k < |hits| && hits[k].key == key
    ensures var sorted := SortedHits(hits);
            forall i :: 0 <= i < |sorted| && LastOfKey(sorted, i, |sorted|) ==>
              sorted[i].key in sections && sections[sorted[i].key] == SectionText(text, sorted, i)
    ensures forall key :: key in sections ==> IsTrimmed(sections[key], PySpaces)
  {
    var sorted := SortedHits(hits);
    ghost var bodies := SectionTexts(text, sorted);
    sections := map[];
    for i := 0 to |sorted|
      invariant SectionsSoFar(sorted, bodies, i, sections)
    {
      var nxt := if i + 1 < |sorted| then sorted[i + 1].start else |text|;
      var body := PyStrip(PySlice(text, sorted[i].end, nxt));
      assert nxt == NextStart(text, sorted, i);
      assert body == bodies[i];
      assert IsTrimmed(bodies[i], PySpaces);
      SectionsStep(sorted, bodies, i, sections);
      sections := sections[sorted[i].key := body];
    }
    AllSections(text, hits, sections);
  }

  /** What the invariant gives once every hit is processed. */
  lemma AllSections(text: string, hits: seq<Hit>, sections: map<SectionKey, string>)
    requires var sorted := SortedHits(hits);
             SectionsSoFar(sorted, SectionTexts(text, sorted), |sorted|, sections)
    ensures forall key :: key in sections <==> exists k :: 0 <= k < |hits| && hits[k].key == key
    ensures var sorted := SortedHits(hits);
            forall i :: 0 <= i < |sorted| && LastOfKey(sorted, i, |sorted|) ==>
              sorted[i].key in sections && sections[sorted[i].key] == SectionText(text, sorted, i)
    ensures forall key :: key in sections ==> IsTrimmed(sections[key], PySpaces)
  {
    var sorted := SortedHits(hits);
    assert KeysSeen(sorted, |sorted|, sections);
    forall key ensures key in sections <==> exists k :: 0 <= k < |hits| && hits[k].key == key {
      SortedHitsKeys(hits, key);
    }
  }

  /** After the first `n` hits, each key seen holds the value of its last hit so far. */
  predicate LastValues(sorted: seq<Hit>, vals: seq<string>, n: nat, m: map<SectionKey, string>)
    requires n <= |sorted| == |vals|
  {
    forall j :: 0 <= j < n && LastOfKey(sorted, j, n) ==> sorted[j].key in m && m[sorted[j].key] == vals[j]
  }

  /** The keys in the map are those of the first `n` hits. */
  predicate KeysSeen(sorted: seq<Hit>, n: nat, m: map<SectionKey, string>)
    requires n <= |sorted|
  {
    forall key :: key in m <==> exists j :: 0 <= j < n && sorted[j].key == key
  }

  /** The loop's invariant after `n` hits: the keys seen, the last value of each, and
      every value stripped. */
  predicate SectionsSoFar(sorted: seq<Hit>, vals: seq<string>, n: nat, m: map<SectionKey, string>)
    requires n <= |sorted| == |vals|
  {
    && KeysSeen(sorted, n, m)
    && LastValues(sorted, vals, n, m)
    && forall key :: key in m ==> IsTrimmed(m[key], PySpaces)
  }

  lemma SectionsStep(sorted: seq<Hit>, vals: seq<string>, i: nat, m: map<SectionKey, string>)
    requires i < |sorted| == |vals| && SectionsSoFar(sorted, vals, i, m)
    requires IsTrimmed(vals[i], PySpaces)
    ensures SectionsSoFar(sorted, vals, i + 1, m[sorted[i].key := vals[i]])
  {
    LastValuesStep(sorted, vals, i, m);
    KeysSeenStep(sorted, i, m, vals[i]);
  }

  lemma LastValuesStep(sorted: seq<Hit>, vals: seq<string>, i: nat, m: map<SectionKey, string>)
    requires i < |sorted| == |vals| && LastValues(sorted, vals, i, m)
    ensures LastValues(sorted, vals, i + 1, m[sorted[i].key := vals[i]])
  {
    forall j | 0 <= j < i && LastOfKey(sorted, j, i + 1) ensures LastOfKey(sorted, j, i) {
    }
  }

  lemma KeysSeenStep(sorted: seq<Hit>, i: nat, m: map<SectionKey, string>, v: string)
    requires i < |sorted| && KeysSeen(sorted, i, m)
    ensures KeysSeen(sorted, i + 1, m[sorted[i].key := v])
  {
    var m' := m[sorted[i].key := v];
    forall key ensures key in m' <==> exists j :: 0 <= j < i + 1 && sorted[j].key == key {
      if key != sorted[i].key {
        assert key in m' <==> key in m;
        if exists j :: 0 <= j < i + 1 && sorted[j].key == key {
          var j :| 0 <= j < i + 1 && sorted[j].key == key;
          assert j < i;
        }
      }
    }
  }

  // ---------------------------------------------------------------------------
  // The a.k.a. line

  const AKA_MARK: string := "(a.k.a."

  /** The alternatives of the pattern `,|/|;| and `, in its order. */
  const AKA_SEPS: seq<string> := [",", "/", ";", " and "]

  lemma AkaSepsNonEmpty()
    ensures "" !in AKA_SEPS
  {
    assert forall k :: 0 <= k < |AKA_SEPS| ==> |AKA_SEPS[k]| > 0;
  }

  /** `[ln.strip() for ln in text.splitlines() if ln.strip()]`. */
  function TextLines(text: string): seq<string> {
    Map(Filter(Lines(text), HasText), PyStrip)
  }

  /** `aka_line.replace("a.k.a.", "").replace("A.K.A.", "").strip()` of `line.strip("()")`. */
  function AkaInner(line: string): string {
    PyStrip(Replace(Replace(Trim(line, Chars({'(', ')'})), "a.k.a.", ""), "A.K.A.", ""))
  }

  /** The alternative names read from an entry's non-blank lines: nothing unless the second
      line starts, ignoring case, with "(a.k.a."; otherwise the pieces of that line between
      the separators, stripped, the blank ones dropped. */
  function AkaNames(lines: seq<string>): (aka: seq<string>)
    ensures aka != [] ==> |lines| > 1 && StartsWith(Lower(lines[1]), AKA_MARK)
    ensures |lines| > 1 && StartsWith(Lower(lines[1]), AKA_MARK) ==>
              "" !in AKA_SEPS && aka == StrippedPieces(AkaInner(lines[1]), AKA_SEPS)
    ensures forall k :: 0 <= k < |aka| ==>
              aka[k] != "" && IsTrimmed(aka[k], PySpaces) && NoMatch(aka[k], AKA_SEPS)
  {
    if |lines| > 1 && StartsWith(Lower(lines[1]), AKA_MARK) then
      AkaSepsNonEmpty();
      StrippedPieces(AkaInner(lines[1]), AKA_SEPS)
    else []
  }

  /** The `aka` list of the entry whose cleaned text is `text`. */
  function Aka(text: string): seq<string>
  {
    AkaNames(TextLines(text))
  }

  // ---------------------------------------------------------------------------
  // Page ranges

  /** The last page of entry `idx`: one before the next entry's first page, or the last
      page of the document for the last entry. */
  function EndPage(starts: seq<int>, idx: nat, pageCount: int): int
    requires idx < |starts|
  {
    if idx + 1 < |starts| then starts[idx + 1] - 1 else pageCount
  }

  /** Python's `range(a, b)`. */
  function Range(a: int, b: int): (r: seq<int>)
    ensures |r| == if a < b then b - a else 0
    ensures forall k :: 0 <= k < |r| ==> r[k] == a + k
    decreases b - a
  {
    if a >= b then [] else [a] + Range(a + 1, b)
  }

  lemma RangeConcat(a: int, b: int, c: int)
    requires a <= b <= c
    ensures Range(a, b) + Range(b, c) == Range(a, c)
  {
  }

  /** The zero-based indices of the pages read for entry `idx`. */
  function PagesRead(starts: seq<int>, idx: nat, pageCount: int): seq<int>
    requires idx < |starts|
  {
    Range(starts[idx] - 1, EndPage(starts, idx, pageCount))
  }

  /** The pages read for the entries from `idx` on, entry after entry. */
  function PagesFrom(starts: seq<int>, idx: nat, pageCount: int): seq<int>
    decreases |starts| - idx
  {
    if idx >= |starts| then [] else PagesRead(starts, idx, pageCount) + PagesFrom(starts, idx + 1, pageCount)
  }

  predicate Ascending(starts: seq<int>) {
    forall i, j :: 0 <= i < j < |starts| ==> starts[i] < starts[j]
  }

  /** With ascending start pages, the last one within the document, every entry has at
      least one page, and the entries from `idx` on read every page from the start of entry
      `idx` to the end of the document exactly once and in order. */
  lemma {:induction false} PageRangesTile(starts: seq<int>, idx: nat, pageCount: int)
    requires Ascending(starts) && idx < |starts| && starts[|starts| - 1] <= pageCount
    ensures starts[idx] <= EndPage(starts, idx, pageCount)
    ensures PagesFrom(starts, idx, pageCount) == Range(starts[idx] - 1, pageCount)
    decreases |starts| - idx
  {
    if idx + 1 < |starts| {
      PageRangesTile(starts, idx + 1, pageCount);
      RangeConcat(starts[idx] - 1, starts[idx + 1] - 1, pageCount);
    } else {
      assert PagesFrom(starts, idx + 1, pageCount) == [];
    }
  }

  // ---------------------------------------------------------------------------
  // One record

  /** `sections_raw.get(key, "")`. */
  function SectionOr(sections: map<SectionKey, string>, key: SectionKey): string {
    if key in sections then sections[key] else ""
  }

  /** The record `main` builds for one entry from its title, page range, cleaned text and
      the sections `split_sections` cut from that text. */
  function EntryRecord(title: string, startPage: int, endPage: int, text: string,
                       sections: map<SectionKey, string>): (r: FalseIdentity)
    ensures r.id == "" && r.title == title && r.tags == [] && r.relatedIds == []
    ensures r.sources == Some(Sources(Some(startPage), Some(endPage)))
    ensures IsTrimmed(r.trueIdentity, PySpaces) && SingleSpaced(r.trueIdentity)
  {
    var trueIdentity := SectionOr(sections, TrueIdentity);
    NormalizedField(trueIdentity);
    FalseIdentity(
      "",
      title,
      Aka(text),
      Normalize(trueIdentity),
      RecordSections(sections),
      [],
      [],
      Some(Sources(Some(startPage), Some(endPage))),
      Authoring(Licensed, "2026-01-14"))
  }

  /** Where the record's fields come from: the `aka` list from the entry's second line, the
      true identity from its section normalised (whitespace aside, the section's text), and
      the list sections from their blocks. */
  lemma EntryRecordFields(title: string, startPage: int, endPage: int, text: string,
                          sections: map<SectionKey, string>)
    ensures var r := EntryRecord(title, startPage, endPage, text, sections);
            && r.aka == Aka(text)
            && r.trueIdentity == Normalize(SectionOr(sections, TrueIdentity))
            && r.sections == RecordSections(sections)
            && Filter(r.trueIdentity, NonSpace) == Filter(SectionOr(sections, TrueIdentity), NonSpace)
  {
    NormalizeKeepsText(SectionOr(sections, TrueIdentity));
  }

  /** Each list section of the record: the bullet items of that section's text. */
  function RecordSections(sections: map<SectionKey, string>): FalseIdentitySections {
    FalseIdentitySections(
      BulletItems(SectionOr(sections, HowItShowsUp)),
      BulletItems(SectionOr(sections, EffectOnOthers)),
      BulletItems(SectionOr(sections, BeliefsAboutOthers)),
      BulletItems(SectionOr(sections, BeliefsAboutLife)),
      BulletItems(SectionOr(sections, SelfReinforcingBehaviors)),
      BulletItems(SectionOr(sections, SkillsToCultivate)),
      BulletItems(SectionOr(sections, Gifts)),
      BulletItems(SectionOr(sections, DeeperTruthStatements)))
  }

  /** A normalised field is trimmed and single-spaced, and empty when it held no text. */
  lemma NormalizedField(it: string)
    ensures IsTrimmed(Normalize(it), PySpaces) && SingleSpaced(Normalize(it))
    ensures Normalize(it) == "" <==> !HasText(it)
    ensures Filter(Normalize(it), NonSpace) == Filter(it, NonSpace)
  {
    if HasText(it) {
      NormalizedItem(it);
    }
    NormalizeKeepsText(it);
  }
}
