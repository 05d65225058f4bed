/** The guidance endpoint: it turns the client's step number and answers into one request to
    the language-model provider, flattens the provider's reply into one text, parses it
    (directly, or by salvaging the span from the first `{` to the last `}`), and cleans the
    `suggestions` of a directly parsed reply against the identity dataset.

    The HTTP transport is abstract: the provider's reply is a parameter, and `JSON.parse` is
    the partial function `parse` (`None` where it throws). */
module Guidance {
  import opened Wrappers
  import opened Collections
  import opened Text
  import opened JsonValues
  import opened Types

  // ---------------------------------------------------------------------------
  // JavaScript number and string conversions used by the handler

  /** A JavaScript number as far as the handler can meet one: an integer or `NaN`. */
  datatype JsNumber = Finite(value: int) | NaN

  function DigitChar(d: nat): char
    requires d < 10
  {
    "0123456789"[d]
  }

  /** Decimal rendering of a natural number, without leading zeros. */
  function NatToString(n: nat): (r: string)
    ensures 1 <= |r|
    ensures forall i :: 0 <= i < |r| ==> '0' <= r[i] <= '9'
  {
    if n < 10 then [DigitChar(n)] else NatToString(n / 10) + [DigitChar(n % 10)]
  }

  /** `String(n)` for an integer. */
  function IntToString(n: int): string {
    if n < 0 then "-" + NatToString(-n) else NatToString(n)
  }

  /** `String(x)` for a number that may be `NaN`. */
  function NumberToString(x: JsNumber): string {
    match x
    case Finite(n) => IntToString(n)
    case NaN => "NaN"
  }

  predicate IsDigit(c: char) { '0' <= c <= '9' }

  /** The value of a string of decimal digits. */
  function DigitsValue(d: string): nat
    requires forall i :: 0 <= i < |d| ==> IsDigit(d[i])
  {
    if d == [] then 0
    else
      assert IsDigit(d[|d| - 1]);
      DigitsValue(d[..|d| - 1]) * 10 + (d[|d| - 1] as int - '0' as int)
  }

  predicate AllDigits(d: string) {
    d != [] && forall i :: 0 <= i < |d| ==> IsDigit(d[i])
  }

  /** `Number(s)` for a string: blank gives 0, an optionally signed run of decimal digits
      gives its value, anything else `NaN`. */
  function StringToNumber(s: string): JsNumber {
    var t := JsTrim(s);
    if t == [] then Finite(0)
    else if AllDigits(t) then Finite(DigitsValue(t))
    else if (t[0] == '+' || t[0] == '-') && AllDigits(t[1..]) then
      Finite(if t[0] == '-' then -(DigitsValue(t[1..]) as int) else DigitsValue(t[1..]))
    else NaN
  }

  /** `Number(v)` for a JSON value. */
  function ToNumber(v: Json): JsNumber {
    match v
    case Null => Finite(0)
    case Bool(b) => Finite(if b then 1 else 0)
    case Num(n) => Finite(n)
    case Str(s) => StringToNumber(s)
    case Arr(_) => NaN
    case Obj(_) => NaN
  }

  /** `String(v)` for a JSON value: an array is its elements' strings joined with ",",
      `null` elements giving "". */
  function JsString(v: Json): string
    decreases v
  {
    match v
    case Null => "null"
    case Bool(b) => if b then "true" else "false"
    case Num(n) => IntToString(n)
    case Str(s) => s
    case Arr(elems) =>
      Join(",", seq(|elems|, i requires 0 <= i < |elems| =>
        if elems[i].Null? then "" else JsString(elems[i])))
    case Obj(_) => "[object Object]"
  }

  // ---------------------------------------------------------------------------
  // Step numbers

  const STEP_LABELS: seq<string> := [
    "State your complaint (trigger) about your spouse.",
    "State your primary emotional reaction.",
    "State the vulnerable feeling below your reaction.",
    "State the belief about yourself that underlies your vulnerable feeling.",
    "Recognize your deepest fear.",
    "Choose your false identity."
  ]

  const FALLBACK_LABEL: string := "Choose your false identity."

  /** `Math.max(1, Math.min(5, Number(step || 1)))`: a missing or falsy step counts as 1,
      a number is clamped into [1, 5], and a value `Number` cannot read stays `NaN`, which
      neither `min` nor `max` changes. */
  function CompletedStep(step: Option<Json>): (r: JsNumber)
    ensures !Truthy(step) ==> r == Finite(1)
    ensures r.Finite? ==> 1 <= r.value <= 5
    ensures Truthy(step) && ToNumber(step.value).Finite? ==>
              r.Finite? && (r.value == ToNumber(step.value).value
                            <==> 1 <= ToNumber(step.value).value <= 5)
    ensures Truthy(step) && ToNumber(step.value).Finite? && ToNumber(step.value).value > 5 ==>
              r == Finite(5)
    ensures Truthy(step) && ToNumber(step.value).Finite? && ToNumber(step.value).value < 1 ==>
              r == Finite(1)
    ensures r.NaN? <==> Truthy(step) && ToNumber(step.value).NaN?
  {
    var x := if Truthy(step) then ToNumber(step.value) else Finite(1);
    match x
    case NaN => NaN
    case Finite(n) => Finite(if n < 1 then 1 else if n > 5 then 5 else n)
  }

  /** `stepNum + 1`. */
  function NextStep(completed: JsNumber): (r: JsNumber)
    ensures completed.Finite? ==> r == Finite(completed.value + 1)
    ensures completed.NaN? ==> r.NaN?
  {
    match completed
    case NaN => NaN
    case Finite(n) => Finite(n + 1)
  }

  /** `steps[nextStep - 1] || "Choose your false identity."`. */
  function NextStepLabel(next: JsNumber): (r: string)
    ensures next.Finite? && 1 <= next.value <= 6 ==> r == STEP_LABELS[next.value - 1]
    ensures !(next.Finite? && 1 <= next.value <= 6) ==> r == FALLBACK_LABEL
  {
    if next.Finite? && 1 <= next.value <= 6 && STEP_LABELS[next.value - 1] != "" then
      STEP_LABELS[next.value - 1]
    else FALLBACK_LABEL
  }

  /** The next step always lies in [2, 6] unless the step was unreadable, and after the
      fifth step the next label is the identity choice. */
  lemma NextStepRange(step: Option<Json>)
    ensures var next := NextStep(CompletedStep(step));
      && (next.Finite? ==> 2 <= next.value <= 6)
      && (CompletedStep(step) == Finite(5) ==> NextStepLabel(next) == "Choose your false identity.")
      && (next.Finite? ==> NextStepLabel(next) == STEP_LABELS[next.value - 1])
  {
  }

  // ---------------------------------------------------------------------------
  // The answers as numbered text

  const ANSWER_KEYS: seq<string> := ["complaint", "reaction", "vulnerableFeeling", "belief", "fear"]

  const ANSWER_LABELS: seq<string> := [
    "1. Complaint: ",
    "2. Primary reaction: ",
    "3. Vulnerable feeling: ",
    "4. Belief about self: ",
    "5. Deepest fear: "
  ]

  /** `answers?.key`. */
  function AnswerValue(answers: Option<Json>, key: string): Option<Json> {
    if answers.Some? then Field(answers.value, key) else None
  }

  /** `String(answers?.key || "").trim()`. */
  function AnswerText(answers: Option<Json>, key: string): (r: string)
    ensures IsTrimmed(r, JsSpaces)
    ensures !Truthy(AnswerValue(answers, key)) ==> r == ""
    ensures var v := AnswerValue(answers, key); v.Some? && v.value.Str? ==> r == JsTrim(v.value.s)
    ensures Truthy(AnswerValue(answers, key)) ==> r == JsTrim(JsString(AnswerValue(answers, key).value))
  {
    var v := AnswerValue(answers, key);
    if Truthy(v) then JsTrim(JsString(v.value)) else ""
  }

  /** The five numbered lines. */
  function AnswerLines(answers: Option<Json>): (r: seq<string>)
    ensures |r| == 5
    ensures forall k :: 0 <= k < 5 ==> r[k] == ANSWER_LABELS[k] + AnswerText(answers, ANSWER_KEYS[k])
  {
    seq(5, k requires 0 <= k < 5 => ANSWER_LABELS[k] + AnswerText(answers, ANSWER_KEYS[k]))
  }

  /** `answersText`: the lines joined with line feeds. */
  function AnswersText(answers: Option<Json>): string {
    Join("\n", AnswerLines(answers))
  }

  /** A trimmed string holds no character its source lacks. */
  lemma TrimKeepsOut(s: string, c: char)
    requires c !in s
    ensures c !in JsTrim(s)
  {
    var i := TrimSlice(s, JsSpaces);
  }

  lemma LabelsHoldNoLineFeed()
    ensures forall k :: 0 <= k < 5 ==> '\n' !in ANSWER_LABELS[k]
  {
    assert '\n' !in ANSWER_LABELS[0];
    assert '\n' !in ANSWER_LABELS[1];
    assert '\n' !in ANSWER_LABELS[2];
    assert '\n' !in ANSWER_LABELS[3];
    assert '\n' !in ANSWER_LABELS[4];
  }

  /** When no answer's string holds a line feed, the text has exactly five lines, and line k
      is the k-th label followed by the k-th trimmed answer. */
  lemma AnswersTextLines(answers: Option<Json>)
    requires forall k :: 0 <= k < 5 && Truthy(AnswerValue(answers, ANSWER_KEYS[k])) ==>
               '\n' !in JsString(AnswerValue(answers, ANSWER_KEYS[k]).value)
    ensures Split(AnswersText(answers), ["\n"]) == AnswerLines(answers)
  {
    var lines := AnswerLines(answers);
    LabelsHoldNoLineFeed();
    forall k | 0 <= k < 5 ensures '\n' !in AnswerText(answers, ANSWER_KEYS[k]) {
      var v := AnswerValue(answers, ANSWER_KEYS[k]);
      if Truthy(v) {
        TrimKeepsOut(JsString(v.value), '\n');
      }
    }
    assert forall k :: 0 <= k < 5 ==> '\n' !in lines[k];
    SplitJoin(lines, "\n", 0);
  }

  // ---------------------------------------------------------------------------
  // The dataset as sent to the provider

  /** The fields of a record the provider sees. */
  datatype ReducedIdentity = ReducedIdentity(
    id: string,
    title: string,
    aka: seq<string>,
    tags: seq<string>,
    beliefsAboutLife: seq<string>,
    beliefsAboutOthers: seq<string>,
    selfReinforcingBehaviors: seq<string>)

  function ReduceOne(i: FalseIdentity): ReducedIdentity {
    ReducedIdentity(i.id, i.title, i.aka, i.tags, i.sections.beliefsAboutLife,
                    i.sections.beliefsAboutOthers, i.sections.selfReinforcingBehaviors)
  }

  /** `identities`: one reduced record per record, in dataset order. */
  function Reduce(items: seq<FalseIdentity>): (r: seq<ReducedIdentity>)
    ensures |r| == |items|
    ensures forall k :: 0 <= k < |r| ==> r[k].id == items[k].id && r[k].title == items[k].title
    ensures forall k :: 0 <= k < |r| ==> r[k].aka == items[k].aka && r[k].tags == items[k].tags
    ensures forall k :: 0 <= k < |r| ==>
              && r[k].beliefsAboutLife == items[k].sections.beliefsAboutLife
              && r[k].beliefsAboutOthers == items[k].sections.beliefsAboutOthers
              && r[k].selfReinforcingBehaviors == items[k].sections.selfReinforcingBehaviors
  {
    Map(items, ReduceOne)
  }

  /** Datasets that differ only in the sections the provider is not sent (how it shows up,
      effect on others, skills, gifts, deeper truths), the true identity, related ids,
      sources and authoring reduce alike. */
  lemma {:induction false} ReduceIgnoresOtherFields(a: seq<FalseIdentity>, b: seq<FalseIdentity>)
    requires |a| == |b|
    requires forall k :: 0 <= k < |a| ==>
      && a[k].id == b[k].id && a[k].title == b[k].title && a[k].aka == b[k].aka && a[k].tags == b[k].tags
      && a[k].sections.beliefsAboutLife == b[k].sections.beliefsAboutLife
      && a[k].sections.beliefsAboutOthers == b[k].sections.beliefsAboutOthers
      && a[k].sections.selfReinforcingBehaviors == b[k].sections.selfReinforcingBehaviors
    ensures Reduce(a) == Reduce(b)
  {
    if a != [] {
      ReduceIgnoresOtherFields(a[1..], b[1..]);
      assert ReduceOne(a[0]) == ReduceOne(b[0]);
    }
  }

  // ---------------------------------------------------------------------------
  // Flattening the provider's reply into one text

  /** `Array.isArray(j?.output) ? j.output : []`. */
  function OutputItems(j: Json): seq<Json> {
    ArrayOr(Field(j, "output"))
  }

  /** The content entries of one output item: its `content` array, a string content as one
      `output_text` entry, and nothing otherwise. */
  function ItemContent(item: Json): (r: seq<Json>)
    ensures (var c := Field(item, "content"); c.Some? && c.value.Arr?) ==>
              r == item.fields["content"].elems
    ensures (var c := Field(item, "content"); c.Some? && c.value.Str?) ==>
              r == [Obj(map["type" := Str("output_text"), "text" := item.fields["content"]])]
    ensures (var c := Field(item, "content"); !(c.Some? && (c.value.Arr? || c.value.Str?))) ==>
              r == []
  {
    var c := Field(item, "content");
    if c.Some? && c.value.Arr? then c.value.elems
    else if c.Some? && c.value.Str? then [Obj(map["type" := Str("output_text"), "text" := c.value])]
    else []
  }

  /** `outputItems.flatMap(...)`. */
  function ContentItems(items: seq<Json>): seq<Json> {
    if items == [] then [] else ItemContent(items[0]) + ContentItems(items[1..])
  }

  predicate IsTextEntry(c: Json) {
    Field(c, "type") == Some(Str("output_text")) || Field(c, "type") == Some(Str("text"))
  }

  /** An entry that survives the filters: typed `output_text` or `text`, with a `text` that
      is a string that is not blank. */
  predicate IsKeptText(c: Json) {
    var t := Field(c, "text");
    IsTextEntry(c) && t.Some? && t.value.Str? && JsTrim(t.value.s) != ""
  }

  /** `c?.text` of an entry whose text is a string. */
  function TextOf(c: Json): string {
    StringOr(Field(c, "text"), "")
  }

  /** The texts of the entries that survive the filters, in order. */
  function KeptTexts(contents: seq<Json>): (r: seq<string>)
    ensures forall k :: 0 <= k < |r| ==> JsTrim(r[k]) != ""
    ensures |r| <= |contents|
  {
    if contents == [] then []
    else
      var c := contents[0];
      var t := Field(c, "text");
      var keep := IsTextEntry(c) && t.Some? && t.value.Str? && JsTrim(t.value.s) != "";
      (if keep then [t.value.s] else []) + KeptTexts(contents[1..])
  }

  /** The kept texts are the texts of the kept entries. */
  lemma {:induction false} KeptTextsFilter(contents: seq<Json>)
    ensures KeptTexts(contents) == Map(Filter(contents, IsKeptText), TextOf)
  {
    if contents != [] {
      var c, rest := contents[0], Filter(contents[1..], IsKeptText);
      KeptTextsFilter(contents[1..]);
      if IsKeptText(c) {
        assert Filter(contents, IsKeptText) == [c] + rest;
        assert ([c] + rest)[1..] == rest;
      }
    }
  }

  /** Entry by entry: the k-th kept text is the text of the k-th entry that is typed
      `output_text` or `text` and holds a non-blank string, so order is kept, and every
      such entry contributes its text. */
  lemma KeptTextsSpec(contents: seq<Json>)
    ensures var r := KeptTexts(contents);
      var pos := Positions(contents, IsKeptText, 0);
      && |r| == |pos|
      && (forall k :: 0 <= k < |r| ==> IsKeptText(contents[pos[k]]) && r[k] == TextOf(contents[pos[k]]))
      && (forall j :: 0 <= j < |contents| && IsKeptText(contents[j]) ==> j in pos)
  {
    KeptTextsFilter(contents);
    PositionsSelectFilter(contents, IsKeptText, 0);
    PositionsComplete(contents, IsKeptText, 0);
    assert contents[0..] == contents;
  }

  /** `(joined || j?.output_text || "").trim()`; `None` where `trim` is called on a truthy
      `output_text` that is not a string, which throws. */
  function ExtractText(j: Json): (r: Option<string>)
    ensures r.Some? ==> IsTrimmed(r.value, JsSpaces)
    ensures KeptTexts(ContentItems(OutputItems(j))) != [] ==>
              r == Some(JsTrim(Join("\n", KeptTexts(ContentItems(OutputItems(j))))))
    ensures KeptTexts(ContentItems(OutputItems(j))) == [] ==>
              var fallback := Field(j, "output_text");
              && (Truthy(fallback) && fallback.value.Str? ==> r == Some(JsTrim(fallback.value.s)))
              && (Truthy(fallback) && !fallback.value.Str? ==> r.None?)
              && (!Truthy(fallback) ==> r == Some(""))
  {
    var joined := Join("\n", KeptTexts(ContentItems(OutputItems(j))));
    var fallback := Field(j, "output_text");
    if joined != "" then Some(JsTrim(joined))
    else if Truthy(fallback) then
      if fallback.value.Str? then Some(JsTrim(fallback.value.s)) else None
    else Some("")
  }

  /** A join whose first entry is not blank is not blank. */
  lemma {:induction false} JoinNotBlank(sep: string, xs: seq<string>)
    requires xs != [] && !IsBlank(xs[0], JsSpaces)
    ensures !IsBlank(Join(sep, xs), JsSpaces)
  {
    var k :| 0 <= k < |xs[0]| && !Strips(JsSpaces, xs[0][k]);
    if |xs| > 1 {
      assert Join(sep, xs)[k] == xs[0][k];
    }
  }

  /** The extracted text is empty only when no entry survives the filters and the fallback
      `output_text` is not a non-blank string. */
  lemma ExtractTextEmpty(j: Json)
    requires ExtractText(j).Some?
    ensures var kept := KeptTexts(ContentItems(OutputItems(j)));
      ExtractText(j).value == "" <==>
        kept == [] && !(Field(j, "output_text").Some? && Field(j, "output_text").value.Str?
                        && !IsBlank(Field(j, "output_text").value.s, JsSpaces))
  {
    var kept := KeptTexts(ContentItems(OutputItems(j)));
    if kept != [] {
      assert JsTrim(kept[0]) != "";
      JoinNotBlank("\n", kept);
    } else {
      assert Join("\n", kept) == "";
    }
  }

  // ---------------------------------------------------------------------------
  // Salvaging a JSON object from the text

  /** The first position of `c` in `s`. */
  function IndexOf(s: string, c: char): (r: Option<nat>)
    ensures r.None? <==> c !in s
    ensures r.Some? ==> r.value < |s| && s[r.value] == c && c !in s[..r.value]
  {
    if s == [] then None
    else if s[0] == c then Some(0)
    else
      var r := IndexOf(s[1..], c);
      if r.Some? then
        assert s[..r.value + 1] == [s[0]] + s[1..][..r.value];
        Some(r.value + 1)
      else None
  }

  /** The last position of `c` in `s`. */
  function LastIndexOf(s: string, c: char): (r: Option<nat>)
    ensures r.None? <==> c !in s
    ensures r.Some? ==> r.value < |s| && s[r.value] == c && c !in s[r.value + 1..]
  {
    if s == [] then None
    else if s[|s| - 1] == c then Some(|s| - 1)
    else
      var r := LastIndexOf(s[..|s| - 1], c);
      if r.Some? then
        assert s[r.value + 1..] == s[..|s| - 1][r.value + 1..] + [s[|s| - 1]];
        Some(r.value)
      else
        assert s == s[..|s| - 1] + [s[|s| - 1]];
        None
  }

  /** `outText.match(/\{[\s\S]*\}/)`: the greedy match runs from the first `{` to the last
      `}`, and there is none unless some `}` follows the first `{`. */
  function Salvage(s: string): (r: Option<string>)
    ensures r.Some? ==> exists p, q :: 0 <= p < q < |s| && s[p] == '{' && s[q] == '}'
                                       && '{' !in s[..p] && '}' !in s[q + 1..] && r.value == s[p..q + 1]
    ensures r.None? <==> !exists p, q :: 0 <= p < q < |s| && s[p] == '{' && s[q] == '}'
  {
    var open := IndexOf(s, '{');
    var close := LastIndexOf(s, '}');
    if open.Some? && close.Some? && open.value < close.value then
      var p, q := open.value, close.value;
      assert 0 <= p < q < |s| && s[p] == '{' && s[q] == '}' && '{' !in s[..p] && '}' !in s[q + 1..];
      Some(s[p..q + 1])
    else
      NoBracePairBeyondEnds(s, open, close);
      None
  }

  /** With no `}` after the first `{`, no `}` follows any `{`. */
  lemma NoBracePairBeyondEnds(s: string, open: Option<nat>, close: Option<nat>)
    requires open == IndexOf(s, '{') && close == LastIndexOf(s, '}')
    requires !(open.Some? && close.Some? && open.value < close.value)
    ensures !exists p, q :: 0 <= p < q < |s| && s[p] == '{' && s[q] == '}'
  {
    forall p, q | 0 <= p < q < |s| && s[p] == '{' ensures s[q] != '}' {
    }
  }

  /** The salvaged span is an object-shaped slice: it starts with `{` and ends with `}`. */
  lemma SalvageShape(s: string)
    requires Salvage(s).Some?
    ensures var span := Salvage(s).value;
      2 <= |span| <= |s| && span[0] == '{' && span[|span| - 1] == '}'
  {
  }

  // ---------------------------------------------------------------------------
  // Cleaning the suggestions

  /** `byId.has(s.identityId)`: the suggestion is an object whose `identityId` is a string
      that is the id of some record. */
  predicate Known(ids: set<string>, s: Json) {
    var v := Field(s, "identityId");
    v.Some? && v.value.Str? && v.value.s in ids
  }

  function Ids(identities: seq<ReducedIdentity>): (r: set<string>)
    ensures forall id :: id in r <==> exists k :: 0 <= k < |identities| && identities[k].id == id
  {
    set k | 0 <= k < |identities| :: identities[k].id
  }

  /** `byId.get(id)`: the map is built entry by entry, so a repeated id ends up with the last
      record that carries it. */
  function LastWithId(identities: seq<ReducedIdentity>, id: string): (r: Option<ReducedIdentity>)
    ensures r.None? <==> forall k :: 0 <= k < |identities| ==> identities[k].id != id
    ensures r.Some? ==> exists k :: 0 <= k < |identities| && identities[k] == r.value && r.value.id == id
                                    && forall k' :: k < k' < |identities| ==> identities[k'].id != id
  {
    if identities == [] then None
    else
      var n := |identities| - 1;
      if identities[n].id == id then Some(identities[n])
      else
        var prefix := identities[..n];
        var r := LastWithId(prefix, id);
        assert forall k :: 0 <= k < n ==> prefix[k] == identities[k];
        if r.Some? then
          var k :| 0 <= k < n && prefix[k] == r.value
                   && forall k' :: k < k' < n ==> prefix[k'].id != id;
          assert forall k' :: k < k' < |identities| ==> identities[k'].id != id;
          r
        else r
  }

  /** The title a kept suggestion ends up with: its own when truthy, else the dataset's when
      not empty, else the id. */
  function SuggestionTitle(identities: seq<ReducedIdentity>, s: Json, id: string): Json {
    var own := Field(s, "title");
    if Truthy(own) then own.value
    else
      var entry := LastWithId(identities, id);
      if entry.Some? && entry.value.title != "" then Str(entry.value.title) else Str(id)
  }

  /** The object a kept suggestion becomes. */
  function CleanSuggestion(identities: seq<ReducedIdentity>, s: Json): Json {
    var id := StringOr(Field(s, "identityId"), "");
    var reason := Field(s, "reason");
    Obj(map[
      "identityId" := Str(id),
      "title" := SuggestionTitle(identities, s, id),
      "reason" := if Truthy(reason) then reason.value else Str("")])
  }

  /** The filter's test, `s => byId.has(s.identityId)`. */
  function IsKnown(identities: seq<ReducedIdentity>): Json -> bool {
    s => Known(Ids(identities), s)
  }

  /** The map's function. */
  function Cleaner(identities: seq<ReducedIdentity>): Json -> Json {
    s => CleanSuggestion(identities, s)
  }

  /** `parsed.suggestions.filter(...).slice(0, 3).map(...)`; `None` when an entry is `null`,
      on which `s.identityId` throws. */
  function CleanSuggestions(identities: seq<ReducedIdentity>, elems: seq<Json>): (r: Option<seq<Json>>)
    ensures r.None? <==> Null in elems
    ensures r.Some? ==> |r.value| <= 3
  {
    if Null in elems then None
    else
      var known := Filter(elems, IsKnown(identities));
      var kept := if |known| <= 3 then known else known[..3];
      Some(Map(kept, Cleaner(identities)))
  }

  const SUGGESTIONS: string := "suggestions"

  /** The in-place rewrite of `parsed.suggestions`: only an array there is replaced, and
      `None` is the exception its cleaning throws. */
  function Sanitise(identities: seq<ReducedIdentity>, parsed: Json): (r: Option<Json>)
    ensures !(Field(parsed, SUGGESTIONS).Some? && Field(parsed, SUGGESTIONS).value.Arr?) ==>
              r == Some(parsed)
    ensures r.Some? && r.value != parsed ==>
              && parsed.Obj? && r.value.Obj?
              && r.value.fields.Keys == parsed.fields.Keys
              && forall key :: key in parsed.fields && key != SUGGESTIONS ==>
                   r.value.fields[key] == parsed.fields[key]
    ensures Field(parsed, SUGGESTIONS).Some? && Field(parsed, SUGGESTIONS).value.Arr? ==>
              var elems := parsed.fields[SUGGESTIONS].elems;
              && (r.None? <==> Null in elems)
              && (r.Some? ==>
                    r.value == Obj(parsed.fields[SUGGESTIONS := Arr(CleanSuggestions(identities, elems).value)]))
  {
    var v := Field(parsed, SUGGESTIONS);
    if v.Some? && v.value.Arr? then
      match CleanSuggestions(identities, v.value.elems)
      case None => None
      case Some(cleaned) => Some(Obj(parsed.fields[SUGGESTIONS := Arr(cleaned)]))
    else Some(parsed)
  }

  /** The cleaned suggestions, entry by entry: the k-th is the cleaning of the k-th known
      entry of the input (so input order is kept), there are at most three, and fewer only
      when the input has fewer known entries. */
  lemma CleanSuggestionsSpec(identities: seq<ReducedIdentity>, elems: seq<Json>)
    requires Null !in elems
    ensures var r := CleanSuggestions(identities, elems).value;
      var pos := Positions(elems, IsKnown(identities), 0);
      && |r| == (if |pos| <= 3 then |pos| else 3)
      && forall k :: 0 <= k < |r| ==>
           Known(Ids(identities), elems[pos[k]]) && r[k] == CleanSuggestion(identities, elems[pos[k]])
  {
    var pos := Positions(elems, IsKnown(identities), 0);
    var known := Filter(elems, IsKnown(identities));
    var kept := if |known| <= 3 then known else known[..3];
    PositionsSelectFilter(elems, IsKnown(identities), 0);
    assert elems[0..] == elems;
    forall k | 0 <= k < |kept|
      ensures Known(Ids(identities), elems[pos[k]])
      ensures Map(kept, Cleaner(identities))[k] == CleanSuggestion(identities, elems[pos[k]])
    {
      assert IsKnown(identities)(elems[pos[k]]);
      assert kept[k] == known[k] == elems[pos[k]];
    }
  }

  /** The reply `POST` returns when the provider's text parses and holds a `suggestions`
      array: the k-th returned suggestion is the cleaning of the k-th entry whose id is a
      dataset id, so every returned suggestion names a dataset id, input order is kept, and
      there are min(3, known entries) of them. */
  lemma SanitisedSuggestions(identities: seq<ReducedIdentity>, parsed: Json)
    requires Field(parsed, SUGGESTIONS).Some? && Field(parsed, SUGGESTIONS).value.Arr?
    requires Null !in parsed.fields[SUGGESTIONS].elems
    ensures Sanitise(identities, parsed).Some?
    ensures var elems := parsed.fields[SUGGESTIONS].elems;
      var reply := Sanitise(identities, parsed).value;
      var pos := Positions(elems, IsKnown(identities), 0);
      && reply.Obj? && SUGGESTIONS in reply.fields && reply.fields[SUGGESTIONS].Arr?
      && |reply.fields[SUGGESTIONS].elems| == (if |pos| <= 3 then |pos| else 3)
      && forall k :: 0 <= k < |reply.fields[SUGGESTIONS].elems| ==>
           && Known(Ids(identities), reply.fields[SUGGESTIONS].elems[k])
           && reply.fields[SUGGESTIONS].elems[k] == CleanSuggestion(identities, elems[pos[k]])
           && (forall l :: k < l < |reply.fields[SUGGESTIONS].elems| ==> pos[k] < pos[l])
  {
    var elems := parsed.fields[SUGGESTIONS].elems;
    var out := CleanSuggestions(identities, elems).value;
    assert Sanitise(identities, parsed).value.fields[SUGGESTIONS] == Arr(out);
    CleanedInOrder(identities, elems);
  }

  /** The cleaned list: min(3, number of known entries) suggestions, each the cleaning of a
      known entry and naming a known id, in input order. */
  lemma CleanedInOrder(identities: seq<ReducedIdentity>, elems: seq<Json>)
    requires Null !in elems
    ensures var out := CleanSuggestions(identities, elems).value;
      var pos := Positions(elems, IsKnown(identities), 0);
      && |out| == (if |pos| <= 3 then |pos| else 3)
      && forall k :: 0 <= k < |out| ==>
           && Known(Ids(identities), out[k])
           && out[k] == CleanSuggestion(identities, elems[pos[k]])
           && (forall l :: k < l < |out| ==> pos[k] < pos[l])
  {
    CleanSuggestionsSpec(identities, elems);
    CleanedAreKnown(identities, elems);
  }

  /** Every cleaned suggestion names a dataset id. */
  lemma CleanedAreKnown(identities: seq<ReducedIdentity>, elems: seq<Json>)
    requires Null !in elems
    ensures var out := CleanSuggestions(identities, elems).value;
      forall k :: 0 <= k < |out| ==> Known(Ids(identities), out[k])
  {
    CleanSuggestionsSpec(identities, elems);
    var out := CleanSuggestions(identities, elems).value;
    var pos := Positions(elems, IsKnown(identities), 0);
    forall k | 0 <= k < |out| ensures Known(Ids(identities), out[k]) {
      CleanedIsKnown(identities, elems[pos[k]]);
    }
  }

  /** Cleaning a known suggestion keeps its id. */
  lemma CleanedIsKnown(identities: seq<ReducedIdentity>, s: Json)
    requires Known(Ids(identities), s)
    ensures Known(Ids(identities), CleanSuggestion(identities, s))
  {
    var id := s.fields["identityId"].s;
    assert Field(CleanSuggestion(identities, s), "identityId") == Some(Str(id));
  }

  /** A kept suggestion becomes an object of exactly three fields: its id, which is a
      dataset id; its own title when truthy, else the title of the last record with that id
      when not empty, else the id; its own reason when truthy, else "". */
  lemma CleanSuggestionFields(identities: seq<ReducedIdentity>, s: Json)
    requires Known(Ids(identities), s)
    ensures var id := s.fields["identityId"].s;
      var entry := LastWithId(identities, id);
      && entry.Some?
      && CleanSuggestion(identities, s) == Obj(map[
           "identityId" := Str(id),
           "title" := (if Truthy(Field(s, "title")) then s.fields["title"]
                       else if entry.value.title != "" then Str(entry.value.title)
                       else Str(id)),
           "reason" := (if Truthy(Field(s, "reason")) then s.fields["reason"] else Str(""))])
  {
    var id := s.fields["identityId"].s;
    var k :| 0 <= k < |identities| && identities[k].id == id;
  }

  /** A kept suggestion with a non-empty id always gets a non-empty title. */
  lemma CleanTitleNeverBlank(identities: seq<ReducedIdentity>, s: Json)
    requires StringOr(Field(s, "identityId"), "") != ""
    ensures Truthy(Field(CleanSuggestion(identities, s), "title"))
  {
  }

  /** A reply naming an id that is not in the dataset is changed by the cleaning, so
      returning a salvaged reply unchanged can hand unknown ids to the client. */
  lemma CleaningDropsUnknownIds(identities: seq<ReducedIdentity>, id: string)
    requires forall k :: 0 <= k < |identities| ==> identities[k].id != id
    ensures var reply := Obj(map[SUGGESTIONS := Arr([Obj(map["identityId" := Str(id)])])]);
      Sanitise(identities, reply) == Some(Obj(map[SUGGESTIONS := Arr([])]))
  {
    var entry := Obj(map["identityId" := Str(id)]);
    var reply := Obj(map[SUGGESTIONS := Arr([entry])]);
    assert !Known(Ids(identities), entry);
    assert Filter([entry], s => Known(Ids(identities), s)) == [];
    assert reply.fields[SUGGESTIONS := Arr([])] == map[SUGGESTIONS := Arr([])];
  }

  // ---------------------------------------------------------------------------
  // The handler

  /** The reply `POST` returns on its direct-parse path with a `suggestions` array: at most
      three suggestions, each naming the id of a record of the dataset. */
  lemma DirectReplySuggestions(dataset: seq<FalseIdentity>, parsed: Json)
    requires Field(parsed, SUGGESTIONS).Some? && Field(parsed, SUGGESTIONS).value.Arr?
    requires Null !in parsed.fields[SUGGESTIONS].elems
    ensures Sanitise(Reduce(dataset), parsed).Some?
    ensures var reply := Sanitise(Reduce(dataset), parsed).value;
      && reply.Obj? && SUGGESTIONS in reply.fields && reply.fields[SUGGESTIONS].Arr?
      && |reply.fields[SUGGESTIONS].elems| <= 3
      && forall k :: 0 <= k < |reply.fields[SUGGESTIONS].elems| ==>
           var id := StringOr(Field(reply.fields[SUGGESTIONS].elems[k], "identityId"), "");
           exists i :: 0 <= i < |dataset| && dataset[i].id == id
  {
    var identities := Reduce(dataset);
    var elems := parsed.fields[SUGGESTIONS].elems;
    var out := CleanSuggestions(identities, elems).value;
    assert Sanitise(identities, parsed).value.fields[SUGGESTIONS] == Arr(out);
    CleanedAreKnown(identities, elems);
    forall k | 0 <= k < |out|
      ensures exists i :: 0 <= i < |dataset| && dataset[i].id == StringOr(Field(out[k], "identityId"), "")
    {
      KnownInDataset(dataset, out[k]);
    }
  }

  /** An id the map knows is the id of a record of the dataset. */
  lemma KnownInDataset(dataset: seq<FalseIdentity>, s: Json)
    requires Known(Ids(Reduce(dataset)), s)
    ensures exists i :: 0 <= i < |dataset| && dataset[i].id == StringOr(Field(s, "identityId"), "")
  {
    var identities := Reduce(dataset);
    var id := s.fields["identityId"].s;
    var i :| 0 <= i < |identities| && identities[i].id == id;
    assert dataset[i].id == id;
  }

  /** The server's environment: the API key and model name, either possibly unset. */
  datatype Env = Env(apiKey: Option<string>, model: Option<string>)

  const DEFAULT_MODEL: string := "gpt-5-nano"

  /** `process.env.OPENAI_MODEL || "gpt-5-nano"`. */
  function ModelName(env: Env): string {
    if env.model.Some? && env.model.value != "" then env.model.value else DEFAULT_MODEL
  }

  /** What the handler sends to the provider, less the constant prompt and schema and the
      serialisation of the identities. */
  datatype Outbound = Outbound(
    model: string,
    authorization: string,
    stepCompleted: string,
    nextStep: string,
    answersSoFar: string,
    identities: seq<ReducedIdentity>)

  /** The provider's HTTP reply: whether its status was OK, and its body text. */
  datatype UpstreamReply = UpstreamReply(ok: bool, text: string)

  /** The handler's result: a JSON reply with a status, or an exception that escapes it. */
  datatype Outcome = Respond(status: int, body: Json) | Threw

  function ErrorBody(message: string): Json {
    Obj(map["error" := Str(message)])
  }

  function ErrorDetailBody(message: string, detail: string): Json {
    Obj(map["error" := Str(message), "detail" := Str(detail)])
  }

  function BuildOutbound(env: Env, key: string, step: Option<Json>, answers: Option<Json>,
                         dataset: seq<FalseIdentity>): Outbound
  {
    var completed := CompletedStep(step);
    var next := NextStep(completed);
    Outbound(
      ModelName(env),
      "Bearer " + key,
      "STEP_COMPLETED: " + NumberToString(completed),
      "NEXT_STEP: " + NumberToString(next) + " - " + NextStepLabel(next),
      "ANSWERS_SO_FAR:\n" + AnswersText(answers),
      Reduce(dataset))
  }

  /** `POST`.  `request` is the parsed request body (`None` where `req.json()` throws);
      `upstream` is the reply the provider gives to the request sent, which is returned in
      `sent`. */
  method Post(env: Env, request: Option<Json>, dataset: seq<FalseIdentity>,
              upstream: UpstreamReply, parse: string -> Option<Json>)
    returns (sent: Option<Outbound>, outcome: Outcome)
    ensures env.apiKey.None? || env.apiKey == Some("") ==>
              sent.None? && outcome == Respond(400, ErrorBody("Missing OPENAI_API_KEY"))
    ensures sent.Some? <==>
              env.apiKey.Some? && env.apiKey.value != "" && request.Some? && !request.value.Null?
    ensures sent.Some? ==>
              sent.value == BuildOutbound(env, env.apiKey.value, Field(request.value, "step"),
                                          Field(request.value, "answers"), dataset)
    ensures env.apiKey.Some? && env.apiKey.value != "" && sent.None? ==> outcome.Threw?
    ensures sent.Some? && !upstream.ok ==>
              outcome == Respond(500, ErrorDetailBody("OpenAI API error", upstream.text))
    ensures sent.Some? && upstream.ok ==>
              var j := parse(upstream.text);
              var text := if j.Some? then ExtractText(j.value) else None;
              && (text.None? ==> outcome.Threw?)
              && (text.Some? ==>
                    var direct := parse(text.value);
                    var clean := if direct.Some? then Sanitise(Reduce(dataset), direct.value) else None;
                    var span := Salvage(text.value);
                    if clean.Some? then outcome == Respond(200, clean.value)
                    else if span.Some? && parse(span.value).Some? then
                      outcome == Respond(200, parse(span.value).value)
                    else
                      outcome == Respond(502, ErrorDetailBody("OpenAI response parse error", text.value)))
  {
    if env.apiKey.None? || env.apiKey.value == "" {
      return None, Respond(400, ErrorBody("Missing OPENAI_API_KEY"));
    }
    if request.None? || request.value.Null? {
      return None, Threw;
    }
    var step := Field(request.value, "step");
    var answers := Field(request.value, "answers");
    var identities := Reduce(dataset);
    var completed := CompletedStep(step);
    var next := NextStep(completed);
    var out := Outbound(
      ModelName(env),
      "Bearer " + env.apiKey.value,
      "STEP_COMPLETED: " + NumberToString(completed),
      "NEXT_STEP: " + NumberToString(next) + " - " + NextStepLabel(next),
      "ANSWERS_SO_FAR:\n" + AnswersText(answers),
      identities);
    sent := Some(out);

    if !upstream.ok {
      return sent, Respond(500, ErrorDetailBody("OpenAI API error", upstream.text));
    }
    var j := parse(upstream.text);
    if j.None? {
      return sent, Threw;
    }
    var extracted := ExtractText(j.value);
    if extracted.None? {
      return sent, Threw;
    }
    var outText := extracted.value;

    var direct := parse(outText);
    if direct.Some? {
      var parsed := direct.value;
      var suggestions := Field(parsed, SUGGESTIONS);
      if suggestions.Some? && suggestions.value.Arr? {
        var cleaned := CleanSuggestions(identities, suggestions.value.elems);
        if cleaned.Some? {
          parsed := Obj(parsed.fields[SUGGESTIONS := Arr(cleaned.value)]);
          return sent, Respond(200, parsed);
        }
      } else {
        return sent, Respond(200, parsed);
      }
    }
    var span := Salvage(outText);
    if span.Some? {
      var salvaged := parse(span.value);
      if salvaged.Some? {
        return sent, Respond(200, salvaged.value);
      }
    }
    return sent, Respond(502, ErrorDetailBody("OpenAI response parse error", outText));
  }
}
