/** The VMWatch status the probe loop reports (main/vmWatch.go), and the receive in its select. */
module VMWatch {
  import opened Health

  datatype VMWatchStatus = NotRunning | Disabled | Running | Failed {
    function Type(): StatusType {
      match this
      case Disabled => StatusWarning
      case Failed => StatusError
      case _ => StatusSuccess
    }
  }

  /** What one pass of the loop finds on the result channel. */
  datatype ChannelRead = Nothing | Received(status: VMWatchStatus) | ChannelClosed

  function AfterSelect(status: VMWatchStatus, read: ChannelRead): VMWatchStatus {
    match read
    case Nothing => status
    case Received(s) => s
    case ChannelClosed => Failed
  }
}
