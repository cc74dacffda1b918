/**
 * The report loop of the daily screenshot job: each configured report is sent
 * to one of three screenshot routines according to its name.
 */
module ReportDispatch {
  import opened Wrappers

  /** A configured report: its name, its page number, and the optional `has_tail` flag. */
  datatype Report = Report(name: string, page: int, hasTail: Option<bool>)

  /** The three screenshot routines a report can be sent to. */
  datatype Handler = NewOrderHandler | DelayShipmentHandler | CompanyShipmentHandler(hasTail: bool)

  const NewOrderName: string := "今日新单报表"
  const DelayShipmentName: string := "延期出货明细表"

  /** The reports the job is configured with, in configuration order. */
  const Reports: seq<Report> := [
    Report("今日新单报表", 208, None),
    Report("延期出货明细表", 220, None),
    Report("宏智出货报表", 210, Some(false)),
    Report("技果出货报表", 207, Some(false)),
    Report("迅成出货报表", 206, Some(false)),
    Report("金安出货报表", 212, Some(false)),
    Report("长嘉出货报表", 205, Some(true))
  ]

  /**
   * The handler a report is dispatched to: by name for the two special
   * reports, the company shipment handler for every other name, with a
   * missing `has_tail` read as false.
   */
  function Dispatch(report: Report): (h: Handler)
    ensures h == NewOrderHandler <==> report.name == NewOrderName
    ensures h == DelayShipmentHandler <==> report.name == DelayShipmentName && report.name != NewOrderName
    ensures h.CompanyShipmentHandler? <==> report.name != NewOrderName && report.name != DelayShipmentName
    ensures h.CompanyShipmentHandler? ==> (h.hasTail <==> report.hasTail == Some(true))
  {
    if report.name == NewOrderName then NewOrderHandler
    else if report.name == DelayShipmentName then DelayShipmentHandler
    else CompanyShipmentHandler(if report.hasTail.Some? then report.hasTail.value else false)
  }

  /** The loop over the configured reports: one screenshot per report, in order, each from its handler. */
  method Screenshot(reports: seq<Report>) returns (handlers: seq<Handler>)
    ensures |handlers| == |reports|
    ensures forall k :: 0 <= k < |reports| ==> handlers[k] == Dispatch(reports[k])
  {
    handlers := [];
    var i := 0;
    while i < |reports|
      invariant 0 <= i <= |reports|
      invariant |handlers| == i
      invariant forall k :: 0 <= k < i ==> handlers[k] == Dispatch(reports[k])
    {
      handlers := handlers + [Dispatch(reports[i])];
      i := i + 1;
    }
  }

  /** Of the configured reports, only the last company report has a tail slice. */
  lemma ConfiguredDispatch()
    ensures |Reports| == 7
    ensures Dispatch(Reports[0]) == NewOrderHandler
    ensures Dispatch(Reports[1]) == DelayShipmentHandler
    ensures forall k :: 2 <= k < 6 ==> Dispatch(Reports[k]) == CompanyShipmentHandler(false)
    ensures Dispatch(Reports[6]) == CompanyShipmentHandler(true)
  {
    assert NewOrderName[0] != DelayShipmentName[0];
    forall k | 2 <= k < 7
      ensures Reports[k].name != NewOrderName && Reports[k].name != DelayShipmentName
    {
      assert Reports[k].name[0] != NewOrderName[0] && |Reports[k].name| != |DelayShipmentName|;
    }
  }
}
