/** checkexit: judging how a reaped child ended.  The blocking waitpid(2)
    call is not modelled; its result is the input. */
module Supervisor {

  const EXIT_SUCCESS: int := 0

  /** A wait status, as the WIFEXITED / WIFSIGNALED macros classify it. */
  datatype Status =
    | Exited(code: int)        // exited normally, with WEXITSTATUS = code
    | Signaled(signo: nat)     // killed by signal WTERMSIG = signo
    | NeitherExitedNorSignaled // any other status, such as a stopped child

  /** What waitpid(pid, &c, 0) yields. */
  datatype Wait = WaitFails | Reaped(status: Status)

  /** The diagnostic checkexit issues before reporting failure (its text is not
      modelled, only which of the three reports it is). */
  datatype Complaint =
    | WaitpidFailed             // "waitpid"
    | BadExit(signo: int)       // "bad exit", naming the signal; -1 for "not-a-signal"
    | BadExitCode(code: int)    // "bad exit code"

  /** The report for a wait result that is not a clean exit. */
  function Diagnose(w: Wait): (c: Complaint)
    requires w != Reaped(Exited(EXIT_SUCCESS))
    ensures c == WaitpidFailed <==> w.WaitFails?
    ensures c.BadExit? <==> w.Reaped? && !w.status.Exited?
    ensures c.BadExit? && c.signo >= 0 ==> w.status == Signaled(c.signo)
    ensures w.Reaped? && w.status.Signaled? ==> c == BadExit(w.status.signo)
    ensures w == Reaped(NeitherExitedNorSignaled) ==> c == BadExit(-1)
    ensures c.BadExitCode? ==> w == Reaped(Exited(c.code)) && c.code != EXIT_SUCCESS
  {
    match w
    case WaitFails => WaitpidFailed
    case Reaped(Signaled(signo)) => BadExit(signo)
    case Reaped(NeitherExitedNorSignaled) => BadExit(-1)
    case Reaped(Exited(code)) => BadExitCode(code)
  }

  /** checkexit: true only for a child that was reaped and exited normally
      with EXIT_SUCCESS. */
  function CheckExit(w: Wait): (ok: bool)
    ensures ok <==> w == Reaped(Exited(EXIT_SUCCESS))
  {
    if w.WaitFails? then false
    else if !w.status.Exited? then false
    else if w.status.code != EXIT_SUCCESS then false
    else true
  }
}
