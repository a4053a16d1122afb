/** The fetcher's RebootInfo structure, filled in place by its parsers and classifiers. */
module RebootInfos {
  import opened RecordText

  class RebootInfo {
    var timestamp: string
    var source: string
    var reason: string
    var customReason: string
    var otherReason: string

    ghost function View(): Record
      reads this
    {
      Record(timestamp, Cause(source, reason, customReason, otherReason))
    }

    /** memset to zero, then the time stamp. */
    constructor (ts: string)
      ensures View() == Record(ts, Cause("", "", "", ""))
    {
      timestamp, source, reason, customReason, otherReason := ts, "", "", "", "";
    }
  }
}
