/** The records of the identity dataset. */
module Types {
  import opened Wrappers

  datatype FalseIdentitySections = FalseIdentitySections(
    howItShowsUp: seq<string>,
    effectOnOthers: seq<string>,
    beliefsAboutOthers: seq<string>,
    beliefsAboutLife: seq<string>,
    selfReinforcingBehaviors: seq<string>,
    skillsToCultivate: seq<string>,
    gifts: seq<string>,
    deeperTruthStatements: seq<string>)

  datatype Sources = Sources(pdfPageStart: Option<int>, pdfPageEnd: Option<int>)

  datatype LicenseStatus = Licensed | Paraphrased | UserNotesOnly

  datatype Authoring = Authoring(licenseStatus: LicenseStatus, lastUpdated: string)

  datatype FalseIdentity = FalseIdentity(
    id: string,
    title: string,
    aka: seq<string>,
    trueIdentity: string,
    sections: FalseIdentitySections,
    tags: seq<string>,
    relatedIds: seq<string>,
    sources: Option<Sources>,
    authoring: Authoring)

  /** The dataset file: a version string and the records in file order. */
  datatype Dataset = Dataset(version: string, falseIdentities: seq<FalseIdentity>)
}
