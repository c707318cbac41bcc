/**
 * The Process Controller's decisions: which command runs the filtering
 * program (`execFirewall`), how a failed run is reported, and how the
 * output of `--status` becomes a status (`getFirewallStatus`). The program
 * itself is outside the model: each run is described by its outcome.
 */
module ProcessController {
  import opened Text

  /** The outcome of one run of an external command, as `execFile` reports it. */
  datatype ExecResult =
    | Completed(stdout: string, stderr: string)
    | Failed(stderr: string, message: string)

  datatype Status = Online | Offline

  /** A command line: the program and its arguments. */
  datatype Command = Command(program: string, args: seq<string>)

  const Python: string := "python3"
  const Sudo: string := "sudo"
  const StatusArgs: seq<string> := ["--status"]

  /** Arguments that touch the kernel's packet filter and so need root. */
  predicate NeedsPrivilege(args: seq<string>)
  {
    "--add" in args || "--del" in args || "--run" in args
  }

  /** The command line with a leading `sudo` removed. */
  function Unprivileged(c: Command): seq<string>
  {
    if c.program == Sudo then c.args else [c.program] + c.args
  }

  /**
   * The command `execFirewall(args)` runs: the script under `python3`,
   * wrapped in `sudo` exactly when the arguments need privilege.
   */
  function SelectCommand(script: string, args: seq<string>): (c: Command)
    ensures c.program == Sudo <==> NeedsPrivilege(args)
    ensures c.program == Sudo || c.program == Python
    ensures Unprivileged(c) == [Python, script] + args
  {
    if NeedsPrivilege(args) then Command(Sudo, [Python, script] + args)
    else Command(Python, [script] + args)
  }

  /** The message of the error a failed run raises: its error stream, else the failure message. */
  function ErrorText(r: ExecResult): (e: string)
    requires r.Failed?
    ensures r.stderr != [] ==> e == r.stderr
    ensures r.stderr == [] ==> e == r.message
  {
    if r.stderr != [] then r.stderr else r.message
  }

  /** `getFirewallStatus`: ONLINE only when `--status` completes and prints ONLINE. */
  function ClassifyStatus(r: ExecResult): (s: Status)
    ensures s == Online <==> r.Completed? && Trim(r.stdout) == "ONLINE"
  {
    match r
    case Completed(out, _) => if Trim(out) == "ONLINE" then Online else Offline
    case Failed(_, _) => Offline
  }

  /** Any ONLINE verdict comes from output that is ONLINE surrounded by white space. */
  lemma OnlineOutput(r: ExecResult) returns (lead: string, trail: string)
    requires ClassifyStatus(r) == Online
    ensures r.Completed?
    ensures r.stdout == lead + "ONLINE" + trail
    ensures AllSpace(lead) && AllSpace(trail)
  {
    lead, trail := TrimShape(r.stdout);
  }

  /** Conversely, ONLINE padded with any white space, line breaks included, is ONLINE. */
  lemma PaddedOnline(lead: string, trail: string, stderr: string)
    requires AllSpace(lead) && AllSpace(trail)
    ensures ClassifyStatus(Completed(lead + "ONLINE" + trail, stderr)) == Online
  {
    TrimPadded(lead, "ONLINE", trail);
  }

  /** A status query that fails for any reason reads as OFFLINE, never as an error. */
  lemma FailureIsOffline(stderr: string, message: string)
    ensures ClassifyStatus(Failed(stderr, message)) == Offline
  {
  }
}
