/** The two CSV exports: the bid list of the export job and the ranked shortlist. */
module CsvExports {
  import opened Options
  import opened Bids
  import opened Csv
  import opened Strings

  // ----- the export job -----

  const EXPORT_HEADER := [
    "key", "project_name", "organization_name", "prefecture", "city", "category", "procedure_type", "certification",
    "notice_date", "tender_submission_deadline", "opening_tenders_event", "period_end_time", "external_document_uri"]

  function ExportRow(bid: Bid): (row: seq<string>)
    ensures |row| == |EXPORT_HEADER|
  {
    [bid.key, bid.projectName, bid.organizationName.GetOr(""), bid.prefectureName.GetOr(""), bid.cityName.GetOr(""),
     bid.category.GetOr(""), bid.procedureType.GetOr(""), bid.certification.GetOr(""), bid.cftIssueDate.GetOr(""),
     bid.tenderSubmissionDeadline.GetOr(""), bid.openingTendersEvent.GetOr(""), bid.periodEndTime.GetOr(""),
     bid.externalDocumentUri.GetOr("")]
  }

  function ExportRows(bids: seq<Bid>): (rows: seq<seq<string>>)
    ensures |rows| == |bids| && forall i :: 0 <= i < |rows| ==> rows[i] == ExportRow(bids[i])
  {
    seq(|bids|, i requires 0 <= i < |bids| => ExportRow(bids[i]))
  }

  /** `toCsv`. */
  function ToCsv(bids: seq<Bid>): string { Print([EXPORT_HEADER] + ExportRows(bids)) }

  /** Reading the export gives back the header and every bid's cells, whatever they contain, and every
      record has as many cells as the header. */
  lemma ExportReadsBack(bids: seq<Bid>)
    ensures Read(ToCsv(bids)) == Some([EXPORT_HEADER] + ExportRows(bids))
    ensures forall row :: row in [EXPORT_HEADER] + ExportRows(bids) ==> |row| == |EXPORT_HEADER|
  {
    ReadOfPrint([EXPORT_HEADER] + ExportRows(bids));
  }

  /** The record has the cell under the column of this name. */
  ghost predicate Under(header: seq<string>, row: seq<string>, name: string, cell: string)
    requires |row| == |header|
  {
    exists k :: 0 <= k < |header| && header[k] == name && row[k] == cell
  }

  /** No two columns have one name. */
  ghost predicate NamesDiffer(header: seq<string>) {
    forall j, k :: 0 <= j < k < |header| ==> header[j] != header[k]
  }

  /** The cell a record has under a column is the only one. */
  lemma UnderIsUnique(header: seq<string>, row: seq<string>, name: string, a: string, b: string)
    requires |row| == |header| && NamesDiffer(header) && Under(header, row, name, a) && Under(header, row, name, b)
    ensures a == b
  {
    var j :| 0 <= j < |header| && header[j] == name && row[j] == a;
    var k :| 0 <= k < |header| && header[k] == name && row[k] == b;
    assert j == k;
  }

  lemma ExportNamesDiffer()
    ensures NamesDiffer(EXPORT_HEADER)
  {
    assert |EXPORT_HEADER[0]| == 3 && |EXPORT_HEADER[1]| == 12 && |EXPORT_HEADER[2]| == 17;
  }

  /** What the record of a bid has under the first seven columns, */
  ghost predicate IdentifiesBid(header: seq<string>, row: seq<string>, bid: Bid)
    requires |row| == |header|
  {
    && Under(header, row, "key", bid.key) && Under(header, row, "project_name", bid.projectName)
    && Under(header, row, "organization_name", bid.organizationName.GetOr(""))
    && Under(header, row, "prefecture", bid.prefectureName.GetOr(""))
    && Under(header, row, "city", bid.cityName.GetOr(""))
    && Under(header, row, "category", bid.category.GetOr(""))
    && Under(header, row, "procedure_type", bid.procedureType.GetOr(""))
  }

  /** and under those of dates both exports have. */
  ghost predicate DatesBid(header: seq<string>, row: seq<string>, bid: Bid)
    requires |row| == |header|
  {
    && Under(header, row, "notice_date", bid.cftIssueDate.GetOr(""))
    && Under(header, row, "tender_submission_deadline", bid.tenderSubmissionDeadline.GetOr(""))
    && Under(header, row, "opening_tenders_event", bid.openingTendersEvent.GetOr(""))
  }

  lemma CellStands(header: seq<string>, row: seq<string>, k: nat)
    requires |row| == |header| && k < |header|
    ensures Under(header, row, header[k], row[k])
  {}

  lemma IdentifyingCells(bid: Bid)
    ensures IdentifiesBid(EXPORT_HEADER, ExportRow(bid), bid)
  {
    var h, row := EXPORT_HEADER, ExportRow(bid);
    CellStands(h, row, 0);
    CellStands(h, row, 1);
    CellStands(h, row, 2);
    CellStands(h, row, 3);
    CellStands(h, row, 4);
    CellStands(h, row, 5);
    CellStands(h, row, 6);
  }

  /** Every bid's fields stand under the columns of their names. */
  lemma ExportCells(bid: Bid)
    ensures NamesDiffer(EXPORT_HEADER)
    ensures var row := ExportRow(bid);
            && IdentifiesBid(EXPORT_HEADER, row, bid) && DatesBid(EXPORT_HEADER, row, bid)
            && Under(EXPORT_HEADER, row, "certification", bid.certification.GetOr(""))
            && Under(EXPORT_HEADER, row, "period_end_time", bid.periodEndTime.GetOr(""))
            && Under(EXPORT_HEADER, row, "external_document_uri", bid.externalDocumentUri.GetOr(""))
  {
    var h, row := EXPORT_HEADER, ExportRow(bid);
    ExportNamesDiffer();
    IdentifyingCells(bid);
    CellStands(h, row, 7);
    CellStands(h, row, 8);
    CellStands(h, row, 9);
    CellStands(h, row, 10);
    CellStands(h, row, 11);
    CellStands(h, row, 12);
  }

  // ----- the shortlist -----

  const BASE_COLUMNS := [
    "priority", "score", "key", "project_name", "organization_name", "prefecture", "city", "category", "procedure_type",
    "notice_date", "tender_submission_deadline", "opening_tenders_event", "fit_reasons", "risks",
    "next_action", "official_url"]

  const PDF_COLUMNS := [
    "pdf_eligibility", "pdf_required_documents", "pdf_submission_deadline", "pdf_opening_date", "pdf_contact_point"]

  datatype RankedBid = RankedBid(
    bid: Bid, priority: string, score: string, reasons: seq<string>, risks: seq<string>, nextActions: seq<string>)

  datatype Requirements = Requirements(
    eligibility: seq<string>, requiredDocuments: seq<string>, tenderSubmissionDeadline: Option<string>,
    openingDate: Option<string>, contactPoint: Option<string>)

  /** Extracted requirements by bid key; a bid may be listed without any. */
  type Extractions = map<string, Option<Requirements>>

  function JoinSlash(parts: seq<string>): string { Join(parts, " / ") }

  function Columns(x: Extractions): seq<string> { if |x| > 0 then BASE_COLUMNS + PDF_COLUMNS else BASE_COLUMNS }

  function BaseCells(r: RankedBid): (row: seq<string>)
    ensures |row| == |BASE_COLUMNS|
  {
    [r.priority, r.score, r.bid.key, r.bid.projectName, r.bid.organizationName.GetOr(""),
     r.bid.prefectureName.GetOr(""), r.bid.cityName.GetOr(""), r.bid.category.GetOr(""), r.bid.procedureType.GetOr(""),
     r.bid.cftIssueDate.GetOr(""), r.bid.tenderSubmissionDeadline.GetOr(""), r.bid.openingTendersEvent.GetOr(""),
     JoinSlash(r.reasons), JoinSlash(r.risks),
     if r.nextActions == [] then "" else r.nextActions[0], r.bid.externalDocumentUri.GetOr("")]
  }

  function PdfCells(found: Option<Requirements>): (row: seq<string>)
    ensures |row| == |PDF_COLUMNS|
  {
    if found.None? then ["", "", "", "", ""]
    else
      var q := found.value;
      [JoinSlash(q.eligibility), JoinSlash(q.requiredDocuments), q.tenderSubmissionDeadline.GetOr(""),
       q.openingDate.GetOr(""), q.contactPoint.GetOr("")]
  }

  /** `toShortlistRow`. */
  function ShortlistRow(r: RankedBid, x: Extractions): (row: seq<string>)
    ensures |row| == |Columns(x)|
  {
    if |x| == 0 then BaseCells(r)
    else BaseCells(r) + PdfCells(if r.bid.key in x then x[r.bid.key] else None)
  }

  function ShortlistRows(ranked: seq<RankedBid>, x: Extractions): (rows: seq<seq<string>>)
    ensures |rows| == |ranked| && forall i :: 0 <= i < |rows| ==> rows[i] == ShortlistRow(ranked[i], x)
  {
    seq(|ranked|, i requires 0 <= i < |ranked| => ShortlistRow(ranked[i], x))
  }

  /** `exportBidShortlistCsv`. */
  function ShortlistCsv(ranked: seq<RankedBid>, x: Extractions): string {
    Print([Columns(x)] + ShortlistRows(ranked, x))
  }

  /** The same for the shortlist, with and without extracted requirements. */
  lemma ShortlistReadsBack(ranked: seq<RankedBid>, x: Extractions)
    ensures Read(ShortlistCsv(ranked, x)) == Some([Columns(x)] + ShortlistRows(ranked, x))
    ensures forall row :: row in [Columns(x)] + ShortlistRows(ranked, x) ==> |row| == |Columns(x)|
  {
    var table := [Columns(x)] + ShortlistRows(ranked, x);
    forall i | 0 <= i < |table|
      ensures |table[i]| == |Columns(x)| && table[i] != []
    {
      if i > 0 { assert table[i] == ShortlistRow(ranked[i - 1], x); }
    }
    ReadOfPrint(table);
  }

  /** The cells of the ranking. */
  ghost predicate ShowsRanking(header: seq<string>, row: seq<string>, r: RankedBid)
    requires |row| == |header|
  {
    && Under(header, row, "priority", r.priority) && Under(header, row, "score", r.score)
    && Under(header, row, "fit_reasons", Join(r.reasons, " / ")) && Under(header, row, "risks", Join(r.risks, " / "))
    && Under(header, row, "next_action", if |r.nextActions| > 0 then r.nextActions[0] else "")
    && Under(header, row, "official_url", r.bid.externalDocumentUri.GetOr(""))
  }

  /** The cells of the requirements found for the bid; empty ones without any. */
  ghost predicate ShowsRequirements(header: seq<string>, row: seq<string>, found: Option<Requirements>)
    requires |row| == |header|
  {
    var q := found.GetOr(Requirements([], [], None, None, None));
    && Under(header, row, "pdf_eligibility", Join(q.eligibility, " / "))
    && Under(header, row, "pdf_required_documents", Join(q.requiredDocuments, " / "))
    && Under(header, row, "pdf_submission_deadline", q.tenderSubmissionDeadline.GetOr(""))
    && Under(header, row, "pdf_opening_date", q.openingDate.GetOr(""))
    && Under(header, row, "pdf_contact_point", q.contactPoint.GetOr(""))
  }

  lemma RankingCells(r: RankedBid)
    ensures ShowsRanking(BASE_COLUMNS, BaseCells(r), r)
  {
    var h, row := BASE_COLUMNS, BaseCells(r);
    CellStands(h, row, 0);
    CellStands(h, row, 1);
    CellStands(h, row, 12);
    CellStands(h, row, 13);
    CellStands(h, row, 14);
    CellStands(h, row, 15);
  }

  lemma BidCells(r: RankedBid)
    ensures IdentifiesBid(BASE_COLUMNS, BaseCells(r), r.bid)
  {
    var h, row := BASE_COLUMNS, BaseCells(r);
    CellStands(h, row, 2);
    CellStands(h, row, 3);
    CellStands(h, row, 4);
    CellStands(h, row, 5);
    CellStands(h, row, 6);
    CellStands(h, row, 7);
    CellStands(h, row, 8);
  }

  lemma DateCells(r: RankedBid)
    ensures DatesBid(BASE_COLUMNS, BaseCells(r), r.bid)
  {
    var h, row := BASE_COLUMNS, BaseCells(r);
    CellStands(h, row, 9);
    CellStands(h, row, 10);
    CellStands(h, row, 11);
  }

  lemma RequirementCells(found: Option<Requirements>)
    ensures ShowsRequirements(PDF_COLUMNS, PdfCells(found), found)
  {
    var h, row := PDF_COLUMNS, PdfCells(found);
    CellStands(h, row, 0);
    CellStands(h, row, 1);
    CellStands(h, row, 2);
    CellStands(h, row, 3);
    CellStands(h, row, 4);
  }

  lemma BaseNamesDiffer()
    ensures NamesDiffer(BASE_COLUMNS)
  {}

  lemma PdfNamesDiffer()
    ensures NamesDiffer(PDF_COLUMNS)
  {}

  /** The columns of the requirements begin with "pd", and no other does. */
  predicate BeginsWithPd(name: string) { |name| >= 2 && name[0] == 'p' && name[1] == 'd' }

  lemma PdfNamesAreApart()
    ensures forall k :: 0 <= k < |PDF_COLUMNS| ==> BeginsWithPd(PDF_COLUMNS[k])
    ensures forall k :: 0 <= k < |BASE_COLUMNS| ==> !BeginsWithPd(BASE_COLUMNS[k])
  {}

  lemma ShortlistNamesDiffer(x: Extractions)
    ensures NamesDiffer(Columns(x))
  {
    BaseNamesDiffer();
    PdfNamesDiffer();
    PdfNamesAreApart();
    ApartNamesDiffer(BASE_COLUMNS, PDF_COLUMNS);
  }

  lemma ApartNamesDiffer(a: seq<string>, b: seq<string>)
    requires NamesDiffer(a) && NamesDiffer(b)
    requires (forall k :: 0 <= k < |a| ==> !BeginsWithPd(a[k])) && forall k :: 0 <= k < |b| ==> BeginsWithPd(b[k])
    ensures NamesDiffer(a + b)
  {}

  /** A cell stays under its column when columns are added at the end. */
  lemma UnderStays(header: seq<string>, row: seq<string>, more: seq<string>, cells: seq<string>)
    requires |row| == |header| && |cells| == |more|
    ensures forall name, cell :: Under(header, row, name, cell) ==> Under(header + more, row + cells, name, cell)
    ensures forall name, cell :: Under(more, cells, name, cell) ==> Under(header + more, row + cells, name, cell)
  {
    forall name, cell | Under(header, row, name, cell)
      ensures Under(header + more, row + cells, name, cell)
    {
      var k :| 0 <= k < |header| && header[k] == name && row[k] == cell;
      assert (header + more)[k] == name && (row + cells)[k] == cell;
    }
    forall name, cell | Under(more, cells, name, cell)
      ensures Under(header + more, row + cells, name, cell)
    {
      var k :| 0 <= k < |more| && more[k] == name && cells[k] == cell;
      assert (header + more)[|header| + k] == name && (row + cells)[|header| + k] == cell;
    }
  }

  /** The requirements extracted for the bid. */
  function Found(r: RankedBid, x: Extractions): Option<Requirements> {
    if r.bid.key in x then x[r.bid.key] else None
  }

  lemma ColumnsAre(r: RankedBid, x: Extractions)
    ensures |x| == 0 ==> Columns(x) == BASE_COLUMNS && ShortlistRow(r, x) == BaseCells(r)
    ensures |x| > 0 ==> Columns(x) == BASE_COLUMNS + PDF_COLUMNS &&
                        ShortlistRow(r, x) == BaseCells(r) + PdfCells(Found(r, x))
  {}

  /** Every ranked bid's fields stand under the columns of their names, and its requirements where any were
      extracted. */
  lemma ShortlistCells(r: RankedBid, x: Extractions)
    ensures NamesDiffer(Columns(x))
    ensures var header, row := Columns(x), ShortlistRow(r, x);
            && ShowsRanking(header, row, r) && IdentifiesBid(header, row, r.bid) && DatesBid(header, row, r.bid)
            && (|x| > 0 ==> ShowsRequirements(header, row, Found(r, x)))
  {
    ShortlistNamesDiffer(x);
    ColumnsAre(r, x);
    RankingCells(r);
    BidCells(r);
    DateCells(r);
    RequirementCells(Found(r, x));
    UnderStays(BASE_COLUMNS, BaseCells(r), PDF_COLUMNS, PdfCells(Found(r, x)));
  }
}
