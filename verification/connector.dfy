/**
 `authenticate`: one run of `nmcli device wifi connect <ssid> password <pwd>` and
 the classification of its outcome. Running the process is an oracle: a
 function from the argument vector to what the process did.
 */
module Connector {

  /** What starting `nmcli` with some arguments produced. */
  datatype ProcessResult =
    | LaunchFailed
    | Exited(success: bool, stdout: string, stderr: string)

  /** `AuthError`: the program could not be started, or it ran and failed. */
  datatype AuthError = Program | Command(stderr: string)

  /** `Result<String, AuthError>` of `authenticate`. */
  datatype AuthResult = Ok(message: string) | Err(error: AuthError)

  /** The argument vector passed to `nmcli`. */
  function ConnectArgs(ssid: string, pwd: string): seq<string>
  {
    ["device", "wifi", "connect", ssid, "password", pwd]
  }

  /** Each of ssid and password is passed as one whole argument, so the
      vector determines them: no quoting or splitting can mix them up. */
  lemma ConnectArgsInjective(s1: string, p1: string, s2: string, p2: string)
    ensures ConnectArgs(s1, p1) == ConnectArgs(s2, p2) <==> s1 == s2 && p1 == p2
  {
  }

  /** `authenticate`: a launch failure is `Program`, a successful exit yields the
      standard output, any other exit yields the standard error as `Command`. */
  function Authenticate(ssid: string, pwd: string, nmcli: seq<string> -> ProcessResult): (r: AuthResult)
    ensures r.Ok? <==> nmcli(ConnectArgs(ssid, pwd)).Exited? && nmcli(ConnectArgs(ssid, pwd)).success
    ensures r == Err(Program) <==> nmcli(ConnectArgs(ssid, pwd)).LaunchFailed?
    ensures r.Ok? ==> r.message == nmcli(ConnectArgs(ssid, pwd)).stdout
    ensures r.Err? && r.error.Command? ==> r.error.stderr == nmcli(ConnectArgs(ssid, pwd)).stderr
  {
    match nmcli(ConnectArgs(ssid, pwd))
    case LaunchFailed => Err(Program)
    case Exited(success, out, err) =>
      if success then Ok(out) else Err(Command(err))
  }

  /** The outcome depends on the process only through the one argument vector
      built from ssid and password: two oracles that agree on it agree. */
  lemma AuthenticateUsesOnlyConnectArgs(ssid: string, pwd: string, f: seq<string> -> ProcessResult, g: seq<string> -> ProcessResult)
    requires f(ConnectArgs(ssid, pwd)) == g(ConnectArgs(ssid, pwd))
    ensures Authenticate(ssid, pwd, f) == Authenticate(ssid, pwd, g)
  {
  }
}
