/** The exercise page: a six-step questionnaire whose last step is the choice of a false
    identity, its state kept in browser storage, and the library list filtered by tag and
    query.  The browser's storage is the field `storage` (the text under the storage key);
    `JSON.parse` and `JSON.stringify` are the parameters `parse` and `stringify`; the call
    to the guidance endpoint is split into the request `StartContinue` returns and the two
    ways it can settle. */
module Session {
  import opened Wrappers
  import opened Collections
  import opened Text
  import opened JsonValues
  import opened Types
  import Guidance

  // ---------------------------------------------------------------------------
  // Steps and answers

  datatype StepKey = Complaint | Reaction | VulnerableFeeling | Belief | Fear | FalseIdentityChoice

  /** The steps in order; the last is the choice step. */
  const STEPS: seq<StepKey> := [Complaint, Reaction, VulnerableFeeling, Belief, Fear, FalseIdentityChoice]

  const LAST_STEP: int := 5

  /** The key each answer is stored and sent under. */
  function KeyName(k: StepKey): string {
    match k
    case Complaint => "complaint"
    case Reaction => "reaction"
    case VulnerableFeeling => "vulnerableFeeling"
    case Belief => "belief"
    case Fear => "fear"
    case FalseIdentityChoice => "falseIdentity"
  }

  datatype Answers = Answers(
    complaint: string,
    reaction: string,
    vulnerableFeeling: string,
    belief: string,
    fear: string,
    falseIdentity: string)
  {
    function Get(k: StepKey): string {
      match k
      case Complaint => complaint
      case Reaction => reaction
      case VulnerableFeeling => vulnerableFeeling
      case Belief => belief
      case Fear => fear
      case FalseIdentityChoice => falseIdentity
    }

    /** `{ ...answers, [k]: v }`. */
    function With(k: StepKey, v: string): (r: Answers)
      ensures r.Get(k) == v
      ensures forall k' :: k' != k ==> r.Get(k') == Get(k')
    {
      match k
      case Complaint => this.(complaint := v)
      case Reaction => this.(reaction := v)
      case VulnerableFeeling => this.(vulnerableFeeling := v)
      case Belief => this.(belief := v)
      case Fear => this.(fear := v)
      case FalseIdentityChoice => this.(falseIdentity := v)
    }
  }

  const EMPTY_ANSWERS: Answers := Answers("", "", "", "", "", "")

  /** The answers with the one under `k` trimmed. */
  function TrimmedAt(a: Answers, k: StepKey): Answers {
    a.With(k, JsTrim(a.Get(k)))
  }

  /** Only the answer at `k` changes, and it becomes its own trimmed text. */
  lemma TrimmedAtOnlyTrimsKey(a: Answers, k: StepKey)
    ensures TrimmedAt(a, k).Get(k) == JsTrim(a.Get(k)) && IsTrimmed(TrimmedAt(a, k).Get(k), JsSpaces)
    ensures forall k' :: k' != k ==> TrimmedAt(a, k).Get(k') == a.Get(k')
  {
  }

  datatype HintStatus = Idle | Loading | Ready

  datatype Suggestion = Suggestion(identityId: string, title: string, reason: string)

  /** The body of the request to the guidance endpoint. */
  datatype ContinueRequest = ContinueRequest(step: int, answers: Answers)

  // ---------------------------------------------------------------------------
  // The stored snapshot

  /** The part of the state that is written to storage. */
  datatype Saved = Saved(
    stepIndex: int,
    answers: Answers,
    guidance: string,
    hintBullets: seq<Json>,
    suggestions: seq<Json>,
    selectedTitle: string)

  function AnswersJson(a: Answers): Json {
    Obj(map[
      "complaint" := Str(a.complaint),
      "reaction" := Str(a.reaction),
      "vulnerableFeeling" := Str(a.vulnerableFeeling),
      "belief" := Str(a.belief),
      "fear" := Str(a.fear),
      "falseIdentity" := Str(a.falseIdentity)])
  }

  /** The payload the persist effect serialises. */
  function Encode(s: Saved): Json {
    Obj(map[
      "stepIndex" := Num(s.stepIndex),
      "answers" := AnswersJson(s.answers),
      "guidance" := Str(s.guidance),
      "hintBullets" := Arr(s.hintBullets),
      "suggestions" := Arr(s.suggestions),
      "selectedTitle" := Str(s.selectedTitle)])
  }

  /** `parsed?.answers ?? {}`. */
  function StoredAnswers(p: Json): Json {
    var a := Field(p, "answers");
    if a.Some? && !a.value.Null? then a.value else Obj(map[])
  }

  /** `parsed?.stepIndex ?? 0` as `Number` reads it. */
  function StoredStep(p: Json): Guidance.JsNumber {
    var v := Field(p, "stepIndex");
    if v.None? || v.value.Null? then Guidance.Finite(0) else Guidance.ToNumber(v.value)
  }

  /** The stored step index is absent, `null`, or a value `Number` reads as a number. */
  predicate StepReadable(p: Json) {
    StoredStep(p).Finite?
  }

  /** Each stored answer that is a string, and "" for one that is missing or is not. */
  function DecodeAnswers(a: Json): (r: Answers)
    ensures forall k :: r.Get(k) == StringOr(Field(a, KeyName(k)), "")
  {
    Answers(
      StringOr(Field(a, KeyName(Complaint)), ""),
      StringOr(Field(a, KeyName(Reaction)), ""),
      StringOr(Field(a, KeyName(VulnerableFeeling)), ""),
      StringOr(Field(a, KeyName(Belief)), ""),
      StringOr(Field(a, KeyName(Fear)), ""),
      StringOr(Field(a, KeyName(FalseIdentityChoice)), ""))
  }

  /** The restore effect's coercions: each answer is the stored string or "", the step is
      clamped into [0, 5], and guidance, hints, suggestions and title fall back to empty
      when they have the wrong type. */
  function Decode(p: Json): (r: Saved)
    requires StepReadable(p)
    ensures 0 <= r.stepIndex <= LAST_STEP
    ensures 0 <= StoredStep(p).value <= LAST_STEP ==> r.stepIndex == StoredStep(p).value
    ensures StoredStep(p).value > LAST_STEP ==> r.stepIndex == LAST_STEP
    ensures StoredStep(p).value < 0 ==> r.stepIndex == 0
    ensures r.answers == DecodeAnswers(StoredAnswers(p))
    ensures r.guidance == StringOr(Field(p, "guidance"), "")
    ensures r.hintBullets == ArrayOr(Field(p, "hintBullets"))
    ensures r.suggestions == ArrayOr(Field(p, "suggestions"))
    ensures r.selectedTitle == StringOr(Field(p, "selectedTitle"), "")
  {
    var n := StoredStep(p).value;
    Saved(
      if n < 0 then 0 else if n > LAST_STEP then LAST_STEP else n,
      DecodeAnswers(StoredAnswers(p)),
      StringOr(Field(p, "guidance"), ""),
      ArrayOr(Field(p, "hintBullets")),
      ArrayOr(Field(p, "suggestions")),
      StringOr(Field(p, "selectedTitle"), ""))
  }

  /** Restoring a persisted snapshot gives back the state that was persisted. */
  lemma DecodeEncode(s: Saved)
    requires 0 <= s.stepIndex <= LAST_STEP
    ensures StepReadable(Encode(s)) && Decode(Encode(s)) == s
  {
    var p := Encode(s);
    assert Field(p, "stepIndex") == Some(Num(s.stepIndex));
    assert StoredAnswers(p) == AnswersJson(s.answers);
    AnswersRoundTrip(s.answers);
    assert Field(p, "guidance") == Some(Str(s.guidance));
    assert Field(p, "hintBullets") == Some(Arr(s.hintBullets));
    assert Field(p, "suggestions") == Some(Arr(s.suggestions));
    assert Field(p, "selectedTitle") == Some(Str(s.selectedTitle));
  }

  /** The stored answers read back as the answers that were stored. */
  lemma AnswersRoundTrip(a: Answers)
    ensures DecodeAnswers(AnswersJson(a)) == a
  {
    var j := AnswersJson(a);
    assert Field(j, KeyName(Complaint)) == Some(Str(a.complaint));
    assert Field(j, KeyName(Reaction)) == Some(Str(a.reaction));
    assert Field(j, KeyName(VulnerableFeeling)) == Some(Str(a.vulnerableFeeling));
    assert Field(j, KeyName(Belief)) == Some(Str(a.belief));
    assert Field(j, KeyName(Fear)) == Some(Str(a.fear));
    assert Field(j, KeyName(FalseIdentityChoice)) == Some(Str(a.falseIdentity));
  }

  /** The hint panel is ready after a restore exactly when something was restored into it. */
  function StatusFor(s: Saved): (r: HintStatus)
    ensures r == Ready <==> s.guidance != "" || s.hintBullets != [] || s.suggestions != []
    ensures r != Loading
  {
    if s.guidance != "" || |s.hintBullets| > 0 || |s.suggestions| > 0 then Ready else Idle
  }

  /** The value the restore effect reads: nothing when storage holds no text or the text
      does not parse. */
  function StoredValue(raw: Option<string>, parse: string -> Option<Json>): Option<Json> {
    if raw.Some? && raw.value != "" then parse(raw.value) else None
  }

  /** `canContinue` over the state it depends on: the trimmed answer to the step on screen
      is not empty and no request is in flight. */
  predicate Continuable(answers: Answers, stepIndex: int, busy: bool)
    requires 0 <= stepIndex <= LAST_STEP
  {
    JsTrim(answers.Get(STEPS[stepIndex])) != "" && !busy
  }

  const RETRY_MESSAGE: string := "Unable to generate guidance. Please try again."

  // ---------------------------------------------------------------------------
  // The page state

  class ExerciseSession {
    var stepIndex: int
    var answers: Answers
    var guidance: string
    var hintBullets: seq<Json>
    var suggestions: seq<Json>
    var selectedTitle: string
    var busy: bool
    var error: string
    var loaded: bool
    var hintStatus: HintStatus
    /** The text under the storage key, if any. */
    var storage: Option<string>

    ghost predicate Valid()
      reads this
    {
      0 <= stepIndex <= LAST_STEP
    }

    /** The initial state of the page, over whatever storage holds. */
    constructor(stored: Option<string>)
      ensures Valid()
      ensures stepIndex == 0 && answers == EMPTY_ANSWERS && guidance == "" && hintBullets == []
      ensures suggestions == [] && selectedTitle == "" && !busy && error == "" && !loaded
      ensures hintStatus == Idle && storage == stored
    {
      stepIndex := 0;
      answers := EMPTY_ANSWERS;
      guidance := "";
      hintBullets := [];
      suggestions := [];
      selectedTitle := "";
      busy := false;
      error := "";
      loaded := false;
      hintStatus := Idle;
      storage := stored;
    }

    function Snapshot(): Saved
      reads this
    {
      Saved(stepIndex, answers, guidance, hintBullets, suggestions, selectedTitle)
    }

    /** The key of the step on screen. */
    function CurrentKey(): StepKey
      reads this
      requires Valid()
    {
      STEPS[stepIndex]
    }

    /** `canContinue`. */
    predicate CanContinue()
      reads this
      requires Valid()
    {
      Continuable(answers, stepIndex, busy)
    }

    /** `isComplete`. */
    predicate IsComplete()
      reads this
    {
      answers.falseIdentity != ""
    }

    /** The restore effect. */
    method Restore(parse: string -> Option<Json>)
      modifies this
      requires Valid()
      requires var p := StoredValue(storage, parse); p.Some? ==> StepReadable(p.value)
      ensures Valid() && loaded
      ensures storage == old(storage) && busy == old(busy) && error == old(error)
      ensures var p := StoredValue(old(storage), parse);
        if p.None? then
          Snapshot() == old(Snapshot()) && hintStatus == old(hintStatus)
        else
          Snapshot() == Decode(p.value) && hintStatus == StatusFor(Decode(p.value))
    {
      var p := StoredValue(storage, parse);
      if p.Some? {
        Load(Decode(p.value));
      }
      loaded := true;
    }

    /** The setters the restore effect calls with a decoded snapshot. */
    method Load(s: Saved)
      modifies this
      requires 0 <= s.stepIndex <= LAST_STEP
      ensures Valid() && Snapshot() == s && hintStatus == StatusFor(s)
      ensures storage == old(storage) && busy == old(busy) && error == old(error) && loaded == old(loaded)
    {
      answers := s.answers;
      stepIndex := s.stepIndex;
      guidance := s.guidance;
      hintBullets := s.hintBullets;
      suggestions := s.suggestions;
      selectedTitle := s.selectedTitle;
      hintStatus := StatusFor(s);
    }

    /** The persist effect: it writes the snapshot, but only once the restore has run. */
    method Persist(stringify: Json -> string)
      modifies this
      ensures storage == if old(loaded) then Some(stringify(Encode(old(Snapshot())))) else old(storage)
      ensures Snapshot() == old(Snapshot()) && busy == old(busy) && error == old(error)
      ensures loaded == old(loaded) && hintStatus == old(hintStatus)
    {
      if !loaded {
        return;
      }
      storage := Some(stringify(Encode(Snapshot())));
    }

    /** `handleChange`: the answer to the step on screen becomes `value`. */
    method Change(value: string)
      modifies this
      requires Valid()
      ensures Valid()
      ensures answers == old(answers).With(old(CurrentKey()), value)
      ensures stepIndex == old(stepIndex) && guidance == old(guidance) && hintBullets == old(hintBullets)
      ensures suggestions == old(suggestions) && selectedTitle == old(selectedTitle)
      ensures busy == old(busy) && error == old(error) && loaded == old(loaded)
      ensures hintStatus == old(hintStatus) && storage == old(storage)
    {
      answers := answers.With(CurrentKey(), value);
    }

    /** The synchronous part of `handleContinue`: nothing happens unless the trimmed
      answer is non-empty and no request is in flight; otherwise the trimmed answer is
      stored, the step advances (at most to the last), the hint panel is cleared and
      loading, and the request for step `old index + 1` is returned. */
    method StartContinue() returns (request: Option<ContinueRequest>)
      modifies this
      requires Valid()
      ensures Valid()
      ensures request.None? <==> !Continuable(old(answers), old(stepIndex), old(busy))
      ensures !Continuable(old(answers), old(stepIndex), old(busy)) ==>
        Snapshot() == old(Snapshot()) && busy == old(busy) && error == old(error)
        && hintStatus == old(hintStatus)
      ensures Continuable(old(answers), old(stepIndex), old(busy)) ==>
        && answers == TrimmedAt(old(answers), STEPS[old(stepIndex)])
        && stepIndex == (if old(stepIndex) + 1 > LAST_STEP then LAST_STEP else old(stepIndex) + 1)
        && guidance == "" && hintBullets == [] && suggestions == []
        && selectedTitle == old(selectedTitle)
        && busy && error == "" && hintStatus == Loading
      ensures request.Some? ==> request.value == ContinueRequest(old(stepIndex) + 1, answers)
      ensures loaded == old(loaded) && storage == old(storage)
    {
      if !Continuable(answers, stepIndex, busy) {
        return None;
      }
      var requested := stepIndex + 1;
      var nextIndex := if requested > LAST_STEP then LAST_STEP else requested;
      var nextAnswers := TrimmedAt(answers, STEPS[stepIndex]);
      Begin(nextAnswers, nextIndex);
      request := Some(ContinueRequest(requested, nextAnswers));
    }

    /** The state updates `handleContinue` makes before it sends its request. */
    method Begin(nextAnswers: Answers, nextStepIndex: int)
      modifies this
      requires 0 <= nextStepIndex <= LAST_STEP
      ensures Valid()
      ensures answers == nextAnswers && stepIndex == nextStepIndex
      ensures guidance == "" && hintBullets == [] && suggestions == []
      ensures busy && error == "" && hintStatus == Loading
      ensures selectedTitle == old(selectedTitle) && loaded == old(loaded) && storage == old(storage)
    {
      busy := true;
      error := "";
      answers := nextAnswers;
      stepIndex := nextStepIndex;
      guidance := "";
      hintBullets := [];
      suggestions := [];
      hintStatus := Loading;
    }

    /** The request failed, answered with an error status, or sent no JSON. */
    method FinishFailure()
      modifies this
      ensures error == RETRY_MESSAGE && hintStatus == Ready && !busy
      ensures Snapshot() == old(Snapshot()) && loaded == old(loaded) && storage == old(storage)
    {
      error := RETRY_MESSAGE;
      hintStatus := Ready;
      busy := false;
    }

    /** The endpoint answered with an OK status and the JSON value `j`: guidance, hints and
      suggestions are taken from it when they have the right type and emptied otherwise.
      A `null` body makes `j.guidance` throw, which ends like a failure. */
    method FinishSuccess(j: Json)
      modifies this
      ensures hintStatus == Ready && !busy
      ensures j.Null? ==> error == RETRY_MESSAGE && Snapshot() == old(Snapshot())
      ensures !j.Null? ==>
        && guidance == StringOr(Field(j, "guidance"), "")
        && hintBullets == ArrayOr(Field(j, "hintBullets"))
        && suggestions == ArrayOr(Field(j, "suggestions"))
        && error == old(error)
      ensures stepIndex == old(stepIndex) && answers == old(answers) && selectedTitle == old(selectedTitle)
      ensures loaded == old(loaded) && storage == old(storage)
    {
      if j.Null? {
        FinishFailure();
        return;
      }
      guidance := StringOr(Field(j, "guidance"), "");
      hintBullets := ArrayOr(Field(j, "hintBullets"));
      suggestions := ArrayOr(Field(j, "suggestions"));
      hintStatus := Ready;
      busy := false;
    }

    /** `handleSelect`: only the choice answer and the selected title change. */
    method Select(choice: Suggestion)
      modifies this
      requires Valid()
      ensures Valid()
      ensures answers == old(answers).With(FalseIdentityChoice, choice.identityId)
      ensures selectedTitle == choice.title && IsComplete() == (choice.identityId != "")
      ensures stepIndex == old(stepIndex) && guidance == old(guidance) && hintBullets == old(hintBullets)
      ensures suggestions == old(suggestions) && busy == old(busy) && error == old(error)
      ensures loaded == old(loaded) && hintStatus == old(hintStatus) && storage == old(storage)
    {
      answers := answers.With(FalseIdentityChoice, choice.identityId);
      selectedTitle := choice.title;
    }

    /** `handleReset`: everything back to the start, and the stored snapshot removed. */
    method Reset()
      modifies this
      ensures Valid()
      ensures Snapshot() == Saved(0, EMPTY_ANSWERS, "", [], [], "")
      ensures error == "" && !busy && hintStatus == Idle && storage.None?
      ensures loaded == old(loaded)
    {
      answers := EMPTY_ANSWERS;
      stepIndex := 0;
      guidance := "";
      hintBullets := [];
      suggestions := [];
      selectedTitle := "";
      error := "";
      busy := false;
      hintStatus := Idle;
      storage := None;
    }
  }

  /** A reload: the state is persisted, the page is opened again over that storage, and its
      restore runs.  When parsing gives back what was serialised, the new page shows the
      state the old one persisted. */
  method Reload(page: ExerciseSession, parse: string -> Option<Json>, stringify: Json -> string)
    returns (next: ExerciseSession)
    modifies page
    requires page.Valid() && page.loaded
    requires stringify(Encode(page.Snapshot())) != ""
    requires parse(stringify(Encode(page.Snapshot()))) == Some(Encode(page.Snapshot()))
    ensures next.Valid() && next.loaded && !next.busy && next.error == ""
    ensures next.Snapshot() == old(page.Snapshot())
    ensures next.hintStatus == StatusFor(old(page.Snapshot()))
  {
    page.Persist(stringify);
    next := new ExerciseSession(page.storage);
    DecodeEncode(page.Snapshot());
    next.Restore(parse);
  }

  // ---------------------------------------------------------------------------
  // What the endpoint makes of the request

  /** The step the page requests is read by the endpoint as itself, except that continuing
      from the choice step (index 5) is read as step 5; answering the fifth question asks for
      the identity choice next. */
  lemma RequestedStepAsRead(index: int)
    requires 0 <= index <= LAST_STEP
    ensures Guidance.CompletedStep(Some(Num(index + 1)))
              == Guidance.Finite(if index + 1 > 5 then 5 else index + 1)
    ensures index >= 4 ==>
              Guidance.NextStepLabel(Guidance.NextStep(Guidance.CompletedStep(Some(Num(index + 1)))))
                == Guidance.FALLBACK_LABEL
  {
  }

  /** The i-th key the endpoint reads holds the page's i-th answer. */
  lemma AnswerFieldSent(a: Answers, i: nat)
    requires i < 5
    ensures Field(AnswersJson(a), Guidance.ANSWER_KEYS[i]) == Some(Str(a.Get(STEPS[i])))
  {
    var key := Guidance.ANSWER_KEYS[i];
    if i == 0 { assert key == "complaint"; }
    else if i == 1 { assert key == "reaction"; }
    else if i == 2 { assert key == "vulnerableFeeling"; }
    else if i == 3 { assert key == "belief"; }
    else { assert key == "fear"; }
  }

  /** A string answer is read as itself, trimmed; an empty one is falsy and reads as "". */
  lemma StringAnswerAsRead(answers: Json, key: string, s: string)
    requires Field(answers, key) == Some(Str(s))
    ensures Guidance.AnswerText(Some(answers), key) == JsTrim(s)
  {
    assert Guidance.AnswerValue(Some(answers), key) == Some(Str(s));
    if s == "" {
      assert TrimStart(s, JsSpaces) == s;
    } else {
      assert Truthy(Some(Str(s)));
    }
  }

  lemma SentAnswerAsRead(a: Answers, i: nat)
    requires i < 5
    ensures Guidance.AnswerText(Some(AnswersJson(a)), Guidance.ANSWER_KEYS[i]) == JsTrim(a.Get(STEPS[i]))
  {
    AnswerFieldSent(a, i);
    StringAnswerAsRead(AnswersJson(a), Guidance.ANSWER_KEYS[i], a.Get(STEPS[i]));
  }

  /** The endpoint's numbered lines carry the page's answers, trimmed. */
  lemma SentAnswersAsRead(a: Answers)
    ensures forall i :: 0 <= i < 5 ==>
              Guidance.AnswerText(Some(AnswersJson(a)), Guidance.ANSWER_KEYS[i]) == JsTrim(a.Get(STEPS[i]))
  {
    forall i | 0 <= i < 5
      ensures Guidance.AnswerText(Some(AnswersJson(a)), Guidance.ANSWER_KEYS[i]) == JsTrim(a.Get(STEPS[i]))
    {
      SentAnswerAsRead(a, i);
    }
  }

  // ---------------------------------------------------------------------------
  // The library list

  /** A search hit or a listed record: its id and title. */
  datatype Entry = Entry(id: string, title: string)

  function HasTag(tag: string): FalseIdentity -> bool {
    (i: FalseIdentity) => tag in i.tags
  }

  /** `tag ? items.filter(i => i.tags.includes(tag)) : items`. */
  function TagFiltered(items: seq<FalseIdentity>, tag: string): seq<FalseIdentity> {
    if tag != "" then Filter(items, HasTag(tag)) else items
  }

  function AsEntry(i: FalseIdentity): Entry {
    Entry(i.id, i.title)
  }

  /** The hit's id belongs to one of the records. */
  function IdAmong(records: seq<FalseIdentity>): Entry -> bool {
    (h: Entry) => exists i :: 0 <= i < |records| && records[i].id == h.id
  }

  /** `results`: with a blank query the tag-filtered records, otherwise the search hits
      (`hits`, in the order the index ranks them) whose id is among the tag-filtered
      records. */
  function LibraryResults(items: seq<FalseIdentity>, q: string, tag: string, hits: seq<Entry>): seq<Entry> {
    var filtered := TagFiltered(items, tag);
    if JsTrim(q) == "" then Map(filtered, AsEntry)
    else Filter(hits, IdAmong(filtered))
  }

  /** A blank query lists, in dataset order, exactly the records that carry the tag (all
      records when no tag is chosen). */
  lemma BlankQueryLists(items: seq<FalseIdentity>, q: string, tag: string, hits: seq<Entry>)
    requires IsBlank(q, JsSpaces)
    ensures var r := LibraryResults(items, q, tag, hits);
      var pos := Positions(items, HasTag(tag), 0);
      && (tag == "" ==> |r| == |items| && forall k :: 0 <= k < |r| ==> r[k] == AsEntry(items[k]))
      && (tag != "" ==> |r| == |pos| && forall k :: 0 <= k < |r| ==>
            r[k] == AsEntry(items[pos[k]]) && tag in items[pos[k]].tags)
  {
    PositionsSelectFilter(items, HasTag(tag), 0);
    assert items[0..] == items;
    var pos := Positions(items, HasTag(tag), 0);
    forall k | 0 <= k < |pos| ensures tag in items[pos[k]].tags {
      assert HasTag(tag)(items[pos[k]]);
    }
  }

  /** A record that carries the tag (any record when no tag is chosen) survives the tag
      filter, and only those do. */
  lemma TagFilteredMembers(items: seq<FalseIdentity>, tag: string, id: string)
    ensures (exists f :: 0 <= f < |TagFiltered(items, tag)| && TagFiltered(items, tag)[f].id == id) <==>
            (exists i :: 0 <= i < |items| && items[i].id == id && (tag != "" ==> tag in items[i].tags))
  {
    var filtered := TagFiltered(items, tag);
    if exists f :: 0 <= f < |filtered| && filtered[f].id == id {
      var f :| 0 <= f < |filtered| && filtered[f].id == id;
      assert filtered[f] in items;
      var i :| 0 <= i < |items| && items[i] == filtered[f];
      if tag != "" {
        assert HasTag(tag)(filtered[f]);
      }
    }
    if exists i :: 0 <= i < |items| && items[i].id == id && (tag != "" ==> tag in items[i].tags) {
      var i :| 0 <= i < |items| && items[i].id == id && (tag != "" ==> tag in items[i].tags);
      if tag != "" {
        assert HasTag(tag)(items[i]);
      }
      assert items[i] in filtered;
    }
  }

  /** A non-blank query lists, in ranking order, exactly the hits whose id is that of a
      record carrying the tag (of any record when no tag is chosen). */
  lemma QueryListsHits(items: seq<FalseIdentity>, q: string, tag: string, hits: seq<Entry>)
    requires !IsBlank(q, JsSpaces)
    ensures var r := LibraryResults(items, q, tag, hits);
      var pos := Positions(hits, IdAmong(TagFiltered(items, tag)), 0);
      && |r| == |pos|
      && (forall k :: 0 <= k < |r| ==> r[k] == hits[pos[k]])
      && (forall j :: 0 <= j < |hits| ==>
            (j in pos <==> exists i :: 0 <= i < |items| && items[i].id == hits[j].id
                                       && (tag != "" ==> tag in items[i].tags)))
  {
    var filtered := TagFiltered(items, tag);
    PositionsSelectFilter(hits, IdAmong(filtered), 0);
    PositionsComplete(hits, IdAmong(filtered), 0);
    assert hits[0..] == hits;
    var pos := Positions(hits, IdAmong(filtered), 0);
    forall j | 0 <= j < |hits|
      ensures j in pos <==> exists i :: 0 <= i < |items| && items[i].id == hits[j].id
                                        && (tag != "" ==> tag in items[i].tags)
    {
      TagFilteredMembers(items, tag, hits[j].id);
      if j in pos {
        var k :| 0 <= k < |pos| && pos[k] == j;
        assert IdAmong(filtered)(hits[pos[k]]);
      }
      assert IdAmong(filtered)(hits[j]) <==>
        exists f :: 0 <= f < |filtered| && filtered[f].id == hits[j].id;
    }
  }
}
