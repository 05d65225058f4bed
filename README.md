# False Identities — a Dafny model of the exercise, the library and the extraction script

False Identities is a small web application built around a reflective exercise. The user
answers five questions: a complaint, a reaction, a vulnerable feeling, a belief about
themselves and a fear. Then they choose one "false identity" from a dataset of such
identities. Each answer is sent to a guidance endpoint. That endpoint asks a language-model
provider for guidance and for suggested identities, and it cleans the suggestions against
the dataset before returning them. The home page also lists the dataset. The list can be
filtered by a tag and searched through a full-text index. A Python script builds the
dataset by cutting the entries of a PDF into sections and bullet lists.

This project models the logic of those pieces in Dafny and proves what the code promises.
Each module follows one source file or one concern:

| module | models |
|---|---|
| `Types` | the record types (`FalseIdentity`, its sections, the dataset) |
| `Wrappers`, `Collections`, `JsonValues`, `Text`, `Sorting` | the library behaviour the code relies on: `filter`/`map`, untyped JSON values and optional chaining, JavaScript `trim` and Python `strip`, `join`, `split`, `splitlines`, `re.split` on alternatives, `toLowerCase`, string comparison, and the stable sorts of both runtimes |
| `Data` | `getIdentity` and `allTags` |
| `Search` | the documents `buildSearchIndex` feeds to the index |
| `Guidance` | the `POST` handler of the guidance endpoint |
| `Session` | the home page: the exercise state as a class, its restore and persist effects, its handlers, and the library list |
| `Extract` | `parse_bullets`, `split_sections`, the a.k.a. line, the page ranges and the record built for each entry |

The page's state is mutable, so `Session.ExerciseSession` is a class. Its fields are the
React state variables, plus the text that browser storage holds under the page's key.
Every handler is a method that states the whole new state. The loops of `allTags`,
`parse_bullets` and `split_sections` are methods, proved against specification
functions. Everything else is a function, with lemmas about it.

## Model

| member | source | states |
|---|---|---|
| `Data.GetIdentity` | src/lib/data.ts:6-8 | Finds a record only when one has the id. The result is the first record with that id. There is no result exactly when no record has it. |
| `Data.TagOccurrencesMembers` | src/lib/data.ts:12 | A string is among the collected tag occurrences exactly when it is a tag of some record. |
| `Data.Dedup` | src/lib/data.ts:11-12 | Adding tags to a `Set` keeps exactly the strings added, each once. |
| `Data.DedupFirstSeenOrder` | src/lib/data.ts:11-12 | `Array.from(set)` lists the tags in order of first insertion: of two listed tags, the earlier one was added before the later one was first added. |
| `Data.TagOrderIsKeyOrder` | src/lib/data.ts:13-19 | The comparator lets `a` come first exactly when `b`'s lower-cased key is not smaller than `a`'s. |
| `Data.TagOrderIsTotalPreorder` | src/lib/data.ts:13-19 | The comparator is consistent (total and transitive), so the sort's result is well defined. |
| `Data.SameRankIsSameKey` | src/lib/data.ts:13-19 | Tags the comparator ties are exactly the tags with the same lower-cased key. |
| `Data.SortedTags` | src/lib/data.ts:13-19 | Sorting the distinct tags keeps the same tags, each once, in non-decreasing order of lower-cased key. Tags whose keys differ only in case keep their insertion order. |
| `Data.AllTags` | src/lib/data.ts:10-20 | `allTags` returns exactly the tags of the records, with no repeats, ordered by lower-cased key. Tags with equal keys are in first-insertion order. |
| `Sorting.SortBy` | src/lib/data.ts:13 | The sort returns a permutation of its input. |
| `Sorting.SortBySorted` | src/lib/data.ts:13 | Under a total preorder, the sort's result is ordered. |
| `Sorting.SortByStable` | src/lib/data.ts:13 | The sort is stable: the elements of any one rank keep their input order. |
| `Search.BuildDocs` | src/lib/search.ts:23-33 | One document per record, in dataset order. Each document carries its record's id and title and is built from that record alone. |
| `Search.FieldRecoversEntries` | src/lib/search.ts:26 | Splitting a joined field on `" • "` gives back the entries, when there is at least one entry and no entry contains a bullet. |
| `Search.DocumentFieldsRecoverable` | src/lib/search.ts:26-32 | Every list field of a document splits back into the record's entries. For the beliefs field these are the beliefs about others followed by the beliefs about life. |
| `Search.BulletInEntryIsAmbiguous` | src/lib/search.ts:26 | If entries may contain bullets, two different lists give the same field. |
| `Search.DocumentIgnoresUnindexedFields` | src/lib/search.ts:23-33 | Records that agree on id, title, aka, tags and the six indexed sections give the same document. |
| `Text.Trim` | src/app/api/ai/route.ts:36 | Trimming gives a string no longer than the input, with no stripped character at either end. The result is empty exactly when the input is blank. |
| `Text.TrimSlice` | src/app/api/ai/route.ts:36 | The trimmed string is one contiguous piece of the input, at some position within its bounds. |
| `Text.TrimIdempotent` | src/app/page.tsx:215 | Trimming an already trimmed string changes nothing. |
| `Text.SplitJoin` | src/app/api/ai/route.ts:41 | Splitting a join on its separator gives back the entries, when one separator character occurs in no entry. |
| `Text.JoinSplit` | scripts/extract_from_pdf.py:105 | Splitting on one separator loses nothing but the separators: joining the pieces with it gives back the string. |
| `Text.SplitRebuilds` | scripts/extract_from_pdf.py:105 | Splitting on several alternatives loses nothing: the pieces, with the separator each match consumed put back between them, give back the string. |
| `Text.StrippedPiecesSpec` | scripts/extract_from_pdf.py:105 | The list comprehension keeps, in order, exactly the pieces of the split that have text, each stripped. |
| `Text.LessTotal` | src/lib/data.ts:16-17 | Of two different strings, one is smaller in code-point order. |
| `Text.LessTransitive` | src/lib/data.ts:16-17 | String `<` is transitive. |
| `Text.CollapseSpaces` | scripts/extract_from_pdf.py:64 | Replacing each whitespace run with one space leaves no run of whitespace. The result is empty or blank exactly when the input was, it is no longer than the input, and it starts with whitespace exactly when the input did. |
| `Text.CollapseKeepsText` | scripts/extract_from_pdf.py:64 | Collapsing whitespace keeps every other character, in order. |
| `Text.StripKeepsText` | scripts/extract_from_pdf.py:64 | `strip()` removes whitespace only: the other characters stay, in order. |
| `JsonValues.Field` | src/app/api/ai/route.ts:36 | Optional chaining gives a value exactly when the value is an object with that key. |
| `Guidance.CompletedStep` | src/app/api/ai/route.ts:13 | A missing or falsy step counts as 1. A number is clamped into [1, 5]: above 5 it becomes 5, below 1 it becomes 1, and it is kept exactly when it already lies there. A value `Number` cannot read stays `NaN`. |
| `Guidance.NextStep` | src/app/api/ai/route.ts:14 | The next step is one more than the completed step, and `NaN` stays `NaN`. |
| `Guidance.NextStepLabel` | src/app/api/ai/route.ts:26-33 | The label of a next step in [1, 6] is that step's label. Any other step gets the identity-choice label. |
| `Guidance.NextStepRange` | src/app/api/ai/route.ts:13-33 | A readable next step lies in [2, 6] and names its own label. After step 5 the label is the identity choice. |
| `Guidance.AnswerText` | src/app/api/ai/route.ts:36-40 | A string answer gives that string trimmed. Any other truthy answer gives its string form trimmed. A missing or falsy answer gives "". The result is always trimmed. |
| `Guidance.AnswersTextLines` | src/app/api/ai/route.ts:35-41 | When no answer contains a line feed, the answers text splits at line feeds into exactly the five labelled lines. |
| `Guidance.Reduce` | src/app/api/ai/route.ts:16-24 | One reduced record per record, in order. Each carries its record's id, title, aka, tags, beliefs about life, beliefs about others and self-reinforcing behaviours. |
| `Guidance.ReduceIgnoresOtherFields` | src/app/api/ai/route.ts:16-24 | The provider sees only id, title, aka, tags and three sections. Datasets that differ elsewhere reduce alike. |
| `Guidance.ItemContent` | src/app/api/ai/route.ts:121-125 | An array `content` gives its entries. A string `content` becomes one `output_text` entry that carries that string. Anything else gives no entries. |
| `Guidance.KeptTexts` | src/app/api/ai/route.ts:127-130 | Only texts that are not blank survive the filters, and there are no more of them than there were entries. |
| `Guidance.KeptTextsFilter` | src/app/api/ai/route.ts:127-130 | The surviving texts are the `text` fields of the entries that pass both filters, in order. |
| `Guidance.KeptTextsSpec` | src/app/api/ai/route.ts:127-130 | The k-th surviving text is the text of the k-th entry that is an `output_text` or `text` entry with a non-blank string `text`. No such entry is skipped. |
| `Guidance.ExtractText` | src/app/api/ai/route.ts:126-134 | The reply text is trimmed. When some entry survives the filters, it is the trimmed line-feed join of the surviving texts. Otherwise a truthy string `output_text` gives that string trimmed, a falsy one gives "", and a truthy one that is not a string throws. |
| `Guidance.ExtractTextEmpty` | src/app/api/ai/route.ts:126-134 | The reply text is empty exactly when no entry survives and `output_text` is not a non-blank string. |
| `Guidance.Salvage` | src/app/api/ai/route.ts:151 | The regular expression matches exactly when some `}` follows some `{`. The match runs from the first `{` to the last `}`. |
| `Guidance.SalvageShape` | src/app/api/ai/route.ts:151-152 | The salvaged span starts with `{` and ends with `}`. |
| `Guidance.Ids` | src/app/api/ai/route.ts:139 | The map's keys are exactly the dataset ids. |
| `Guidance.LastWithId` | src/app/api/ai/route.ts:139 | `byId.get` finds a record exactly when one has the id. When ids repeat, it returns the last record with that id. |
| `Guidance.CleanSuggestions` | src/app/api/ai/route.ts:140-147 | The cleaning throws exactly when an entry is `null`. Otherwise it keeps at most three suggestions. |
| `Guidance.CleanSuggestionsSpec` | src/app/api/ai/route.ts:140-147 | The k-th cleaned suggestion is the cleaning of the k-th entry with a known id, so input order is kept. There are min(3, number of known entries) of them. |
| `Guidance.CleanSuggestionFields` | src/app/api/ai/route.ts:142-146 | A kept suggestion has exactly three fields: its id, a title and a reason. The title is its own when truthy, else the dataset title when not empty, else the id. The reason is its own when truthy, else "". |
| `Guidance.CleanTitleNeverBlank` | src/app/api/ai/route.ts:145 | A kept suggestion with a non-empty id always gets a truthy title. |
| `Guidance.Sanitise` | src/app/api/ai/route.ts:138-147 | A reply without a `suggestions` array is returned unchanged. With one, the handler throws exactly when an entry is `null`. Otherwise `suggestions` becomes the cleaned list and no other field changes. |
| `Guidance.SanitisedSuggestions` | src/app/api/ai/route.ts:138-147 | The sanitised `suggestions` hold min(3, number of known entries) suggestions. Each names a known id and is the cleaning of a known entry, and they keep the provider's order. |
| `Guidance.CleanedAreKnown` | src/app/api/ai/route.ts:140-147 | Every cleaned suggestion names an id of the dataset map. |
| `Guidance.DirectReplySuggestions` | src/app/api/ai/route.ts:137-149 | The 200 reply of the direct-parse path holds at most three suggestions, each naming the id of a record of the dataset. |
| `Guidance.CleaningDropsUnknownIds` | src/app/api/ai/route.ts:138-147 | A suggestion naming an id that is not in the dataset is dropped. |
| `Guidance.Post` | src/app/api/ai/route.ts:7-162 | The handler's response on every path: 400 without a key; no request sent when the key is missing or the body is unreadable; the prompt built from the step, the answers and the reduced dataset; 500 with the provider's text when it fails; 200 with the sanitised reply, else with the salvaged object; else 502 with the text. |
| `Session.Answers.With` | src/app/page.tsx:216 | Only the answer under the given key changes, and it takes the new value. |
| `Session.TrimmedAtOnlyTrimsKey` | src/app/page.tsx:215-216 | Continuing trims the answer on screen and leaves the other answers alone. |
| `Session.DecodeAnswers` | src/app/page.tsx:163-171 | Each restored answer is the stored string, or "" when it is missing or not a string. |
| `Session.Decode` | src/app/page.tsx:163-184 | The restored step is clamped into [0, 5]: above 5 it becomes 5, below 0 it becomes 0, and it is kept when it lies there. Every other field is the stored value when it has the right type, else empty. |
| `Session.DecodeEncode` | src/app/page.tsx:172-204 | Restoring a persisted snapshot gives back the snapshot that was persisted. |
| `Session.AnswersRoundTrip` | src/app/page.tsx:163-171 | Stored answers read back as the answers that were stored. |
| `Session.StatusFor` | src/app/page.tsx:182-184 | After a restore the hint panel is ready exactly when guidance, hints or suggestions were restored. It is never loading. |
| `Session.ExerciseSession.constructor` | src/app/page.tsx:75-84 | The page's initial state. |
| `Session.ExerciseSession.Restore` | src/app/page.tsx:157-191 | With nothing stored, or stored text that does not parse, the state is kept. Otherwise the state becomes the decoded snapshot. Either way the page is marked loaded. |
| `Session.ExerciseSession.Load` | src/app/page.tsx:173-184 | The setters of the restore effect install the snapshot and the matching hint status. |
| `Session.ExerciseSession.Persist` | src/app/page.tsx:193-208 | Once loaded, storage holds the serialised snapshot. Before that nothing is written. The state is unchanged. |
| `Session.ExerciseSession.Change` | src/app/page.tsx:246-248 | Only the answer to the step on screen changes. |
| `Session.ExerciseSession.StartContinue` | src/app/page.tsx:210-224 | Returns a request exactly when the trimmed answer is non-empty and nothing is in flight. Otherwise nothing changes. When it continues, the answer is stored trimmed, the step advances to at most the last, the hints are cleared and loading, and the request names step old index + 1 with the new answers. |
| `Session.ExerciseSession.Begin` | src/app/page.tsx:212-223 | The state set before the request is sent. |
| `Session.ExerciseSession.FinishFailure` | src/app/page.tsx:238-243 | A failed request shows the retry message, marks the hints ready and clears busy. It leaves the snapshot alone. |
| `Session.ExerciseSession.FinishSuccess` | src/app/page.tsx:232-243 | A successful reply sets the guidance, hints and suggestions, each emptied when its type is wrong. A `null` reply ends like a failure. |
| `Session.ExerciseSession.Select` | src/app/page.tsx:250-253 | Only the choice answer and the selected title change. The exercise is complete exactly when the chosen id is non-empty. |
| `Session.ExerciseSession.Reset` | src/app/page.tsx:255-272 | Everything goes back to the start, and the stored snapshot is removed. |
| `Session.Reload` | src/app/page.tsx:157-208 | Persisting and then restoring in a fresh page reproduces the snapshot, with the hint status it implies. |
| `Session.RequestedStepAsRead` | src/app/page.tsx:224 | The endpoint reads the step the page sends as itself, capped at 5. From the fifth question on, it asks for the identity choice next. |
| `Session.SentAnswersAsRead` | src/app/page.tsx:224 | Each numbered line the endpoint builds carries the page's answer, trimmed. |
| `Session.BlankQueryLists` | src/app/page.tsx:87-90 | A blank query lists, in dataset order, exactly the records carrying the tag, or all records when no tag is chosen. |
| `Session.TagFilteredMembers` | src/app/page.tsx:89 | A record survives the tag filter exactly when it carries the tag, or when no tag is chosen. |
| `Session.QueryListsHits` | src/app/page.tsx:91-94 | A non-blank query lists, in ranking order, exactly the hits whose id belongs to a record carrying the tag. |
| `Extract.BlankLines` | scripts/extract_from_pdf.py:38 | Every line of a blank text is blank. |
| `Extract.Step` | scripts/extract_from_pdf.py:43-61 | A line either leaves the finished items alone or closes the open item. |
| `Extract.BulletItems` | scripts/extract_from_pdf.py:62-64 | Every item returned is non-empty, stripped and single-spaced. |
| `Extract.ParseBullets` | scripts/extract_from_pdf.py:37-64 | The loop computes the bullet items of the block. |
| `Extract.BlankLineSkipped` | scripts/extract_from_pdf.py:44-45 | A blank line changes nothing. |
| `Extract.LoneBulletClosesItem` | scripts/extract_from_pdf.py:46-51 | A lone bullet closes the open item and opens an empty one. |
| `Extract.BulletLineOpensItem` | scripts/extract_from_pdf.py:52-57 | A bulleted line closes the open item and starts a new one with its text. |
| `Extract.PlainLineJoinsItem` | scripts/extract_from_pdf.py:58-61 | A plain line joins the open item, with or without a bullet before it. |
| `Extract.NoBulletOneItem` | scripts/extract_from_pdf.py:42-61 | Without bullet lines no item is finished: the open item is all the non-empty lines, in order. |
| `Extract.NoTextNoItems` | scripts/extract_from_pdf.py:37-64 | A blank block has no items. |
| `Extract.NormalizedItem` | scripts/extract_from_pdf.py:64 | A kept item, normalised, is non-empty, trimmed and single-spaced, and keeps all its other characters in order. |
| `Extract.NormalizeKeepsText` | scripts/extract_from_pdf.py:64 | Normalising changes only whitespace: the other characters stay, in order. |
| `Extract.SortedHitsSpec` | scripts/extract_from_pdf.py:71 | Sorting the hits keeps the same hits, ordered by start. Hits at the same start keep their order of discovery. |
| `Extract.PySlice` | scripts/extract_from_pdf.py:75 | A Python slice within bounds is that slice. A slice with its end before its start is empty. |
| `Extract.SortedHitsKeys` | scripts/extract_from_pdf.py:71-75 | Sorting neither adds nor loses a key. |
| `Extract.SplitSections` | scripts/extract_from_pdf.py:66-76 | The keys are those of the hits. Each key holds the stripped text between the end of its last heading and the next hit's start (or the end of the text). Every value is stripped. |
| `Extract.AkaNames` | scripts/extract_from_pdf.py:101-105 | Names are found only when the second line starts, ignoring case, with "(a.k.a.". When it does, the names are the stripped non-blank pieces of the text inside the parenthesis, split at the separators. Each name is non-empty, stripped, and free of the separators. |
| `Extract.Range` | scripts/extract_from_pdf.py:98 | `range(a, b)` lists a, a + 1, …, b - 1. |
| `Extract.RangeConcat` | scripts/extract_from_pdf.py:98 | Adjacent ranges join into one. |
| `Extract.PageRangesTile` | scripts/extract_from_pdf.py:96-98 | With ascending start pages, the last within the document, every entry has at least one page. The entries read each page from the first entry's start to the end exactly once, in order. |
| `Extract.EntryRecord` | scripts/extract_from_pdf.py:107-127 | The record has an empty id, no tags, no related ids and the entry's title and page range. Its true identity is stripped and single-spaced. |
| `Extract.EntryRecordFields` | scripts/extract_from_pdf.py:107-127 | The record's `aka` is the entry's a.k.a. names, and its sections are the bullet items of their blocks. Its true identity is the true-identity section normalised, so it keeps that section's characters other than whitespace, in order. |
| `Extract.NormalizedField` | scripts/extract_from_pdf.py:112 | A normalised field is stripped and single-spaced, and keeps the field's other characters in order. It is empty exactly when it held no text. |

## Left out

- Network and server plumbing: the provider call, `NextResponse`, `req.json()` and the page's `fetch` are not modelled. The provider's reply is the parameter `upstream`. An unreadable request body is `None`, which ends in `Threw`. The page's request is split into `StartContinue` and the two ways it settles.
- `process.env` is the parameter `env`. `JSON.parse` and `JSON.stringify` are the function parameters `parse` and `stringify`.
- The prompt's fixed system text and the response schema sent to the provider are constants that no other code inspects. Only the three prompt lines that depend on the input are modelled.
- The full-text index (ranking, prefix and fuzzy matching) belongs to a library. The hits it returns are an input of `Session.LibraryResults`.
- Browser storage is the field `storage`. Errors thrown by `setItem` and `removeItem` are not modelled.
- Session.ExerciseSession.Restore: requires that a stored step index is absent, `null` or readable as a number. The source would store `NaN` for an unreadable one.
- Guidance.ToNumber: reads only optionally signed decimal integers, `true`, `false`, `null` and whitespace. Hexadecimal, exponent and fraction notation, `Infinity` and arrays are read as `NaN`, although `Number` reads an empty or one-element array as a number.
- Numbers are integers throughout. Fractional steps and page numbers are not modelled.
- React rendering and the asynchronous order of effects are not modelled. The persist effect is the explicit `Persist` call. After `Reset`, the real effect writes the empty snapshot again, which `Persist` then does.
- The page metadata, the identity detail page and the social images are not part of this model.
- The extraction script's PDF reading, the table-of-contents pattern and the heading patterns are not modelled. The entry titles, start pages, page count and heading matches are inputs. `clean_text`'s regular-expression substitutions are not modelled either.
- `main`'s loop over the entries and the writing of the JSON file are not modelled. One entry's record is `Extract.EntryRecord`.
- Extract.EntryRecord: its own contract does not state where `aka`, the true identity and the sections come from. `Extract.EntryRecordFields` states that.
- Session.ExerciseSession.Select: takes the choice as a suggestion whose fields are strings. The page stores whatever `identityId` the chosen entry holds, since the stored suggestions are untyped; an `identityId` that is missing or not a string is not modelled.
- Lower-casing covers ASCII letters only.
- Strings compare by code point, not by UTF-16 code unit. The two orders differ only above the Basic Multilingual Plane.
- Both sorts are modelled as stable insertion sort on values. They are not modelled as in-place array sorts.
- The heading keys are an enumeration, not the strings the script uses.
- `handleContinue` does not guard the choice step, so the model does not either. Continuing from it requests step 6, which the endpoint reads as 5.
- `bullet_open` in `parse_bullets` is tracked but never changes the outcome, since both of its branches append the line.
