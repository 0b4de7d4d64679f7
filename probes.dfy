/**
 * The per-row decisions of the two bulk workers: which status a row gets,
 * which command is sent, and how the command's reply is read. The network
 * is not modelled: what `subprocess.check_output`, `SSHClient.connect` and
 * `exec_command` return (or raise) is an input here.
 */
module Probes {
  import opened Wrappers
  import opened Text
  import opened Roster

  /** What one probe of one row concluded. */
  datatype Outcome =
    | Reachable        // a TTL marker was seen in the reply
    | Unreachable      // ping pass: no TTL marker, or the ping raised
    | NoAddress        // the row has no static IP
    | InvalidPort      // VPN pass: SSH PORT fails int(float(...))
    | NoResponse       // VPN pass: the remote ping printed no TTL marker
    | Failed(detail: string)  // VPN pass: connect or exec raised, with its message

  const StatusPrefixFailed := "❌ Hata: "

  /** The status text the worker emits for an outcome. */
  function Status(o: Outcome): string {
    match o
    case Reachable => "✅"
    case Unreachable => "❌"
    case NoAddress => "❌ IP yok"
    case InvalidPort => "❌ Hatalı port"
    case NoResponse => "❌ Yanıt yok"
    case Failed(detail) => StatusPrefixFailed + detail
  }

  /** Reads an emitted status text back as the outcome it reports. */
  function OutcomeOf(status: string): Option<Outcome> {
    if StartsWith(status, StatusPrefixFailed) then Some(Failed(status[|StatusPrefixFailed|..]))
    else if status == "✅" then Some(Reachable)
    else if status == "❌" then Some(Unreachable)
    else if status == "❌ IP yok" then Some(NoAddress)
    else if status == "❌ Hatalı port" then Some(InvalidPort)
    else if status == "❌ Yanıt yok" then Some(NoResponse)
    else None
  }

  /**
   * Every status text names its outcome unambiguously: no error message can
   * make a failure read like one of the fixed statuses.
   */
  lemma StatusDecodes(o: Outcome)
    ensures OutcomeOf(Status(o)) == Some(o)
  {
    match o
    case Failed(detail) =>
      assert Status(o)[..|StatusPrefixFailed|] == StatusPrefixFailed;
    case InvalidPort =>
      assert Status(o)[6] != StatusPrefixFailed[6];
    case NoAddress =>
      assert Status(o)[2] != StatusPrefixFailed[2];
    case NoResponse =>
      assert Status(o)[2] != StatusPrefixFailed[2];
    case Reachable =>
    case Unreachable =>
  }

  /** Distinct outcomes are reported with distinct status texts. */
  lemma StatusInjective(o1: Outcome, o2: Outcome)
    requires Status(o1) == Status(o2)
    ensures o1 == o2
  {
    StatusDecodes(o1);
    StatusDecodes(o2);
  }

  /** What a transport call gave back: its output text, or the message of what it raised. */
  datatype Reply = Output(text: string) | Raised(message: string)

  /** What `SSHClient.connect` did: returned, or raised with a message. */
  datatype Handshake = Accepted | Rejected(message: string)

  /** Seconds allowed to the ping subprocess and to the SSH connect. */
  const ProbeTimeout := 5

  /** The SSH connection a VPN probe opens. */
  datatype Endpoint = Endpoint(host: string, port: int, username: string, password: string, timeout: nat)

  /** A reply text shows an answering host when it holds 'TTL=' or 'ttl=' (no other casing). */
  predicate HasTtl(text: string) {
    Contains(text, "TTL=") || Contains(text, "ttl=")
  }

  // ---------------------------------------------------------------------
  // Ping pass

  /** The packet-count flag: '-n' when the platform name starts with 'win', '-c' otherwise. */
  function CountFlag(platform: string): (flag: string)
    ensures flag == "-n" <==> StartsWith(platform, "win")
    ensures flag == "-n" || flag == "-c"
  {
    if StartsWith(platform, "win") then "-n" else "-c"
  }

  /** The argument vector of the ping subprocess: five echo requests to `ip`. */
  function PingArgv(platform: string, ip: string): (argv: seq<string>)
    ensures |argv| == 4 && argv[0] == "ping" && argv[2] == "5" && argv[3] == ip
    ensures argv[1] == "-n" <==> StartsWith(platform, "win")
  {
    ["ping", CountFlag(platform), "5", ip]
  }

  /** How the ping pass reads the subprocess result. */
  function PingVerdict(r: Reply): (o: Outcome)
    ensures o == Reachable <==>
      r.Output? && exists k :: OccursAt(r.text, "TTL=", k) || OccursAt(r.text, "ttl=", k)
    ensures o == Reachable || o == Unreachable
  {
    if r.Output? && HasTtl(r.text) then Reachable else Unreachable
  }

  /**
   * One row of the ping pass, given what the ping of that row returned.
   * A row without a static IP is never pinged.
   */
  function PingRowOutcome(row: SiteRow, reply: Reply): (o: Outcome)
    ensures o == NoAddress <==> row.staticIp == ""
    ensures row.staticIp != "" ==> o == PingVerdict(reply)
  {
    if row.staticIp == "" then NoAddress else PingVerdict(reply)
  }

  /** Only the two casings 'TTL=' and 'ttl=' count as an answer. */
  lemma MixedCaseTtlIgnored()
    ensures PingVerdict(Output("Ttl=")) == Unreachable
    ensures PingVerdict(Output("tTL=")) == Unreachable
    ensures PingVerdict(Output("TTL=")) == Reachable
  {
    ContainsSameLength("Ttl=", "TTL=");
    ContainsSameLength("Ttl=", "ttl=");
    ContainsSameLength("tTL=", "TTL=");
    ContainsSameLength("tTL=", "ttl=");
    ContainsSameLength("TTL=", "TTL=");
    assert "Ttl="[1] != "TTL="[1] && "Ttl="[0] != "ttl="[0];
    assert "tTL="[0] != "TTL="[0] && "tTL="[1] != "ttl="[1];
  }

  // ---------------------------------------------------------------------
  // VPN pass

  /** The rendezvous address pinged from inside the router unless another is given. */
  const DefaultTarget := "10.34.255.18"

  const FourFaith := "Four Faith"

  /**
   * The remote command: Four Faith routers need an explicit count ('-c5'),
   * every other router gets the bare form. The router match is a
   * case-sensitive substring test.
   */
  function VpnCommand(router: string, target: string): (cmd: string)
    ensures Contains(router, FourFaith) ==> cmd == "ping -c5 " + target
    ensures !Contains(router, FourFaith) ==> cmd == "ping " + target
  {
    if Contains(router, FourFaith) then "ping -c5 " + target else "ping " + target
  }

  /** How the VPN pass reads the remote command's output (after `strip()`). */
  function VpnVerdict(output: string): (o: Outcome)
    ensures o == Reachable || o == NoResponse
  {
    var reply := Strip(output);
    if Contains(reply, "ttl=") || Contains(reply, "TTL=") then Reachable else NoResponse
  }

  /** Stripping the output never changes the verdict: it is the TTL test on the raw text. */
  lemma VpnVerdictIgnoresStrip(output: string)
    ensures VpnVerdict(output) == Reachable <==> HasTtl(output)
  {
    StripKeepsOccurrence(output, "ttl=");
    StripKeepsOccurrence(output, "TTL=");
  }

  /** Both passes agree on what a reply text means. */
  lemma VerdictsAgree(output: string)
    ensures VpnVerdict(output) == Reachable <==> PingVerdict(Output(output)) == Reachable
  {
    VpnVerdictIgnoresStrip(output);
  }

  /** The SSH connection a VPN probe of `row` opens once its port is `port`. */
  function VpnEndpoint(row: SiteRow, port: int): Endpoint {
    Endpoint(row.staticIp, port, row.routerUser, row.routerPassword, ProbeTimeout)
  }

  /**
   * One row of the VPN pass, given what connecting and running the command
   * for that row give: the port is checked before the IP, and every
   * exception becomes a failure with its message.
   */
  function VpnRowOutcome(row: SiteRow, port: Option<int>, handshake: Handshake, reply: Reply): Outcome {
    match port
    case None => InvalidPort
    case Some(_) =>
      if row.staticIp == "" then NoAddress
      else
        match handshake
        case Rejected(message) => Failed(message)
        case Accepted =>
          match reply
          case Raised(message) => Failed(message)
          case Output(text) => VpnVerdict(text)
  }

  /**
   * What a VPN row reports: an unreadable port first, then a missing IP;
   * a failure carries the message of the connect or of the command,
   * whichever raised; success exactly when the command ran and its output
   * holds a TTL marker; and never the ping pass's bare '❌'.
   */
  lemma VpnRowOutcomeCases(row: SiteRow, port: Option<int>, handshake: Handshake, reply: Reply)
    ensures var o := VpnRowOutcome(row, port, handshake, reply);
      && (port == None <==> o == InvalidPort)
      && (o == NoAddress <==> port != None && row.staticIp == "")
      && (o.Failed? <==> port != None && row.staticIp != "" && (handshake.Rejected? || reply.Raised?))
      && (o.Failed? ==> o.detail == if handshake.Rejected? then handshake.message else reply.message)
      && (o == Reachable <==>
            port != None && row.staticIp != "" && handshake.Accepted? && reply.Output? && HasTtl(reply.text))
      && o != Unreachable
  {
    if reply.Output? {
      VpnVerdictIgnoresStrip(reply.text);
    }
  }
}
