/** A public notice, with the fields the summaries, exports and rankings read. */
module Bids {
  import opened Options

  datatype Bid = Bid(
    resultId: nat, key: string, projectName: string, projectDescription: Option<string>,
    organizationName: Option<string>, prefectureName: Option<string>, cityName: Option<string>,
        category: Option<string>, procedureType: Option<string>,
    certification: Option<string>, date: Option<string>, cftIssueDate: Option<string>,
    tenderSubmissionDeadline: Option<string>, openingTendersEvent: Option<string>, periodEndTime: Option<string>,
    externalDocumentUri: Option<string>)

  /** The date a notice is dated by: `bid.cftIssueDate ?? bid.date ?? ""`. */
  function NoticeDate(bid: Bid): string {
    if bid.cftIssueDate.Some? then bid.cftIssueDate.value else bid.date.GetOr("")
  }
}
