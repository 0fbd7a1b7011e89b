/** Parsed rows, the JSON-safe rows stored on a job, and validation errors. */
module UploadTypes {
  import opened Collections
  import opened Dates
  import opened Options

  datatype SheetFile = EntitiesFile | OwnershipFile | FilingsFile

  datatype Column =
    | WholeFile
    | EntityNameColumn
    | RegistrationTypeColumn
    | DomesticEntityColumn
    | BusinessIdColumn
    | ParentEntity
    | ChildEntity
    | OwnershipPercent
    | JurisdictionColumn
    | FilingTypeColumn
    | DueDateColumn
    | FiledDateColumn
    | FilingStatusColumn
    | EntityTypeColumn
    | EntityStatusColumn
    | StatusDateColumn
    | FormationDateColumn
    | GlobalRegionColumn

  /** An error is addressed to a line of one sheet; the message text is not modelled. */
  datatype ValidationError = ValidationError(file: SheetFile, line: nat, column: Column)

  datatype RegistrationType = Entity | FQ

  // ----- Rows accepted by the validators -----

  datatype EntityRow = EntityRow(
    line: nat,
    entityName: string,
    registrationType: RegistrationType,
    jurisdiction: string,
    entityType: string,
    entityStatus: string,
    statusDate: Option<Date>,
    domesticEntity: Option<string>,
    formationDate: Option<Date>,
    businessId: Option<string>,
    globalRegion: Option<string>)

  /** Percentages are integer hundredths throughout. */
  datatype OwnershipRow = OwnershipRow(line: nat, parentEntity: string, childEntity: string, ownershipPct: int)

  datatype FilingRow = FilingRow(
    line: nat,
    entityName: string,
    filingType: string,
    jurisdiction: string,
    filingAuthority: Option<string>,
    dueDate: Date,
    filedDate: Option<Date>,
    status: string)

  /** A persisted edge as the graph validator sees it. */
  datatype ExistingEdge = ExistingEdge(parentName: string, childName: string, pct: int)

  // ----- Rows as stored on an upload job -----

  /** The columns of an entity that no rule below looks into. */
  datatype EntityDetails = EntityDetails(
    jurisdiction: string,
    entityType: string,
    entityStatus: string,
    statusDate: Option<string>,
    formationDate: Option<string>,
    globalRegion: Option<string>)

  datatype UploadEntityRow = UploadEntityRow(
    entityName: string,
    registrationType: RegistrationType,
    details: EntityDetails,
    domesticEntity: Option<string>,
    businessId: Option<string>)

  datatype UploadOwnershipRow = UploadOwnershipRow(parentEntity: string, childEntity: string, ownershipPct: int)

  datatype FilingContent = FilingContent(
    jurisdiction: string,
    filingAuthority: Option<string>,
    filedDate: Option<string>,
    status: string)

  datatype UploadFilingRow = UploadFilingRow(
    entityName: string,
    filingType: string,
    dueDate: string,
    content: FilingContent)

  datatype UploadBatch = UploadBatch(
    entityRows: seq<UploadEntityRow>,
    ownershipRows: seq<UploadOwnershipRow>,
    filingRows: seq<UploadFilingRow>)

  datatype UploadCounts = UploadCounts(entities: nat, ownershipEdges: nat, filings: nat)

  // ----- toUploadBatchRows -----

  function PrintOptional(date: Option<Date>): Option<string> {
    match date
    case None => None
    case Some(day) => Some(ToDateOnlyString(day))
  }

  function ToUploadEntity(row: EntityRow): UploadEntityRow {
    UploadEntityRow(row.entityName, row.registrationType,
                    EntityDetails(row.jurisdiction, row.entityType, row.entityStatus, PrintOptional(row.statusDate),
                                  PrintOptional(row.formationDate), row.globalRegion),
                    row.domesticEntity, row.businessId)
  }

  function ToUploadOwnership(row: OwnershipRow): UploadOwnershipRow {
    UploadOwnershipRow(row.parentEntity, row.childEntity, row.ownershipPct)
  }

  function ToUploadFiling(row: FilingRow): UploadFilingRow {
    UploadFilingRow(row.entityName, row.filingType, ToDateOnlyString(row.dueDate),
                    FilingContent(row.jurisdiction, row.filingAuthority, PrintOptional(row.filedDate), row.status))
  }

  function ToUploadBatch(entityRows: seq<EntityRow>, ownershipRows: seq<OwnershipRow>, filingRows: seq<FilingRow>)
    : UploadBatch
  {
    UploadBatch(Map(ToUploadEntity, entityRows), Map(ToUploadOwnership, ownershipRows),
                Map(ToUploadFiling, filingRows))
  }
}
