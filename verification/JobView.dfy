/** The wire shape of a job (internal/jobs/view.go). */
module JobView {
  import opened Common
  import opened JobState
  import opened JobTable
  import Int64

  datatype View = View(
    id: int, serverId: int, serverName: string, kind: Kind,
    remotePath: string, destPath: string, status: Status,
    total: int, transferred: int, speed: int, eta: int, percent: int,
    exitCode: Option<int>, error: string, started: bool, finished: bool)

  function Percent(done: int, total: int): int {
    if total <= 0 then 0
    else
      var p := Int64.Quotient(Int64.Wrap(done * 100), total);
      if p > 100 then 100 else p
  }

  /** A view carries the row's columns as they are; done is always 100 percent. */
  predicate Shows(v: View, j: Job) {
    && v.id == j.id && v.serverId == j.serverId && v.serverName == j.serverName && v.kind == j.kind
    && v.remotePath == j.remotePath && v.destPath == j.destPath && v.status == j.status
    && v.total == j.total && v.transferred == j.transferred && v.speed == j.speed && v.eta == j.eta
    && v.exitCode == j.exitCode && v.error == j.error && v.started == j.started && v.finished == j.finished
    && (j.status == Done ==> v.percent == 100) && (j.status != Done ==> v.percent == Percent(j.transferred, j.total))
  }

  function ViewOf(j: Job): View {
    View(j.id, j.serverId, j.serverName, j.kind, j.remotePath, j.destPath, j.status,
         j.total, j.transferred, j.speed, j.eta,
         if Terminal(j.status) && j.status == Done then 100 else Percent(j.transferred, j.total),
         j.exitCode, j.error, j.started, j.finished)
  }

  lemma ViewShows(j: Job)
    ensures Shows(ViewOf(j), j)
  {
  }
}
