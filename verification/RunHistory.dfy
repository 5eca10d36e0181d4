/** What the history rows of backups and of updates have in common. */
module RunHistory {
  import opened Numbers

  datatype RunStatus = Running | Succeeded | Failed

  function StatusWord(status: RunStatus): string {
    match status
    case Running => "running"
    case Succeeded => "ok"
    case Failed => "failed"
  }

  // The first line of a report.
  function Title(what: string, name: string, vmid: int): string {
    what + " · " + name + " (" + PrintInt(vmid) + ")"
  }

  // The summary of a finished row.
  function Summary(title: string, status: RunStatus): string {
    title + " → " + StatusWord(status)
  }

  /** The summary of a terminal row, written out. */
  lemma SummaryText(what: string, name: string, vmid: int, status: RunStatus)
    requires !status.Running?
    ensures Summary(Title(what, name, vmid), status)
         == what + " · " + name + " (" + PrintInt(vmid) + ") → " + if status.Succeeded? then "ok" else "failed"
  {
    var start := what + " · " + name + " (" + PrintInt(vmid);
    assert start + ")" + " → " == start + ") → ";
  }
}
