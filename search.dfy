/** The search documents built from the records: one flat document per record, each list
    field joined into one string with " • " between the entries.  The full-text index
    these documents are fed to is a library and not part of this model. */
module Search {
  import opened Collections
  import opened Text
  import opened Types

  /** The separator placed between list entries. */
  const BULLET_SEP: string := " • "

  /** The fields the index searches, in the order it is configured with. */
  const INDEXED_FIELDS: seq<string> :=
    ["title", "aka", "tags", "howItShowsUp", "beliefs", "behaviors", "skills", "truths"]

  /** The fields the index hands back with each hit. */
  const STORED_FIELDS: seq<string> := ["id", "title"]

  datatype SearchDoc = SearchDoc(
    id: string,
    title: string,
    aka: string,
    tags: string,
    howItShowsUp: string,
    beliefs: string,
    behaviors: string,
    skills: string,
    truths: string)

  /** The document of one record. */
  function Document(i: FalseIdentity): SearchDoc {
    SearchDoc(
      i.id,
      i.title,
      Join(BULLET_SEP, i.aka),
      Join(BULLET_SEP, i.tags),
      Join(BULLET_SEP, i.sections.howItShowsUp),
      Join(BULLET_SEP, i.sections.beliefsAboutOthers + i.sections.beliefsAboutLife),
      Join(BULLET_SEP, i.sections.selfReinforcingBehaviors),
      Join(BULLET_SEP, i.sections.skillsToCultivate),
      Join(BULLET_SEP, i.sections.deeperTruthStatements))
  }

  /** `buildSearchIndex`'s documents: one per record, in dataset order, under the record's id. */
  function BuildDocs(items: seq<FalseIdentity>): (docs: seq<SearchDoc>)
    ensures |docs| == |items|
    ensures forall k :: 0 <= k < |docs| ==> docs[k].id == items[k].id && docs[k].title == items[k].title
    ensures forall k :: 0 <= k < |docs| ==> docs[k] == Document(items[k])
  {
    Map(items, Document)
  }

  /** The character of the separator that no entry may contain for a field to be readable. */
  const BULLET: char := '•'

  predicate Unbulleted(xs: seq<string>) {
    forall k :: 0 <= k < |xs| ==> BULLET !in xs[k]
  }

  lemma BulletIsUniqueInSeparator()
    ensures BULLET_SEP[1] == BULLET
    ensures forall j :: 0 <= j < |BULLET_SEP| && j != 1 ==> BULLET_SEP[j] != BULLET
  {
  }

  /** A non-empty list with no bullet in any entry is recovered from its joined field by
      splitting on the separator. */
  lemma FieldRecoversEntries(xs: seq<string>)
    requires xs != [] && Unbulleted(xs)
    ensures Split(Join(BULLET_SEP, xs), [BULLET_SEP]) == xs
  {
    BulletIsUniqueInSeparator();
    SplitJoin(xs, BULLET_SEP, 1);
  }

  /** Every list field of a document splits back into its entries; the beliefs field gives
      the beliefs about others followed by the beliefs about life. */
  lemma DocumentFieldsRecoverable(i: FalseIdentity)
    requires i.aka != [] && Unbulleted(i.aka)
    requires i.tags != [] && Unbulleted(i.tags)
    requires i.sections.howItShowsUp != [] && Unbulleted(i.sections.howItShowsUp)
    requires i.sections.beliefsAboutOthers + i.sections.beliefsAboutLife != []
    requires Unbulleted(i.sections.beliefsAboutOthers + i.sections.beliefsAboutLife)
    requires i.sections.selfReinforcingBehaviors != [] && Unbulleted(i.sections.selfReinforcingBehaviors)
    requires i.sections.skillsToCultivate != [] && Unbulleted(i.sections.skillsToCultivate)
    requires i.sections.deeperTruthStatements != [] && Unbulleted(i.sections.deeperTruthStatements)
    ensures var d := Document(i);
      && Split(d.aka, [BULLET_SEP]) == i.aka
      && Split(d.tags, [BULLET_SEP]) == i.tags
      && Split(d.howItShowsUp, [BULLET_SEP]) == i.sections.howItShowsUp
      && Split(d.beliefs, [BULLET_SEP]) == i.sections.beliefsAboutOthers + i.sections.beliefsAboutLife
      && Split(d.behaviors, [BULLET_SEP]) == i.sections.selfReinforcingBehaviors
      && Split(d.skills, [BULLET_SEP]) == i.sections.skillsToCultivate
      && Split(d.truths, [BULLET_SEP]) == i.sections.deeperTruthStatements
  {
    FieldRecoversEntries(i.aka);
    FieldRecoversEntries(i.tags);
    FieldRecoversEntries(i.sections.howItShowsUp);
    FieldRecoversEntries(i.sections.beliefsAboutOthers + i.sections.beliefsAboutLife);
    FieldRecoversEntries(i.sections.selfReinforcingBehaviors);
    FieldRecoversEntries(i.sections.skillsToCultivate);
    FieldRecoversEntries(i.sections.deeperTruthStatements);
  }

  /** Without the bullet restriction the joined field is ambiguous: two different lists give
      the same field. */
  lemma BulletInEntryIsAmbiguous()
    ensures Join(BULLET_SEP, ["a •", "c"]) == Join(BULLET_SEP, ["a", "• c"])
    ensures ["a •", "c"] != ["a", "• c"]
  {
    JoinCons(BULLET_SEP, "a •", ["c"]);
    JoinCons(BULLET_SEP, "a", ["• c"]);
    assert ["a •", "c"][0] != ["a", "• c"][0];
  }

  /** The sections that are not indexed (effect on others, beliefs aside, gifts, skills
      aside) and the true identity, related ids, sources and authoring never reach a
      document: records that agree on the indexed fields give the same document. */
  lemma DocumentIgnoresUnindexedFields(i: FalseIdentity, j: FalseIdentity)
    requires i.id == j.id && i.title == j.title && i.aka == j.aka && i.tags == j.tags
    requires i.sections.howItShowsUp == j.sections.howItShowsUp
    requires i.sections.beliefsAboutOthers == j.sections.beliefsAboutOthers
    requires i.sections.beliefsAboutLife == j.sections.beliefsAboutLife
    requires i.sections.selfReinforcingBehaviors == j.sections.selfReinforcingBehaviors
    requires i.sections.skillsToCultivate == j.sections.skillsToCultivate
    requires i.sections.deeperTruthStatements == j.sections.deeperTruthStatements
    ensures Document(i) == Document(j)
  {
  }
}
