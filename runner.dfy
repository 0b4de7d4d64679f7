/**
 * The two bulk workers. Each walks the roster in row order, checks its
 * `running` flag before every row, emits one (row index, status) result per
 * row it processes and, after the loop, one finished signal. Signals are
 * appended to `events`; every transport call a worker makes is appended to
 * a call log, so that which rows reach the network can be stated.
 */
module Runner {
  import opened Wrappers
  import opened Roster
  import opened Probes
  import Text

  /** A signal of a worker: `result_signal(index, status)` or `finished_signal()`. */
  datatype Event = Result(index: nat, status: string) | Finished

  /** The result events for rows 0 .. n-1, in row order. */
  function Results(statuses: seq<string>, n: nat): seq<Event>
    requires n <= |statuses|
  {
    if n == 0 then [] else Results(statuses, n - 1) + [Result(n - 1, statuses[n - 1])]
  }

  /** Regroups an append, so that a row's event or a finished signal lands after the earlier results. */
  lemma AppendAssoc<T>(a: seq<T>, b: seq<T>, x: T)
    ensures (a + b) + [x] == a + (b + [x])
  {
  }

  /** Regroups a join, so that a row's calls land after the earlier rows' calls. */
  lemma ConcatAssoc<T>(a: seq<T>, b: seq<T>, c: seq<T>)
    ensures (a + b) + c == a + (b + c)
  {
  }

  /** The parts 0 .. n-1 of `parts`, joined in order. */
  function Concat<T>(parts: seq<seq<T>>, n: nat): seq<T>
    requires n <= |parts|
  {
    if n == 0 then [] else Concat(parts, n - 1) + parts[n - 1]
  }

  /** What a pass that processes rows 0 .. n-1 emits. */
  function Stream(statuses: seq<string>, n: nat): seq<Event>
    requires n <= |statuses|
  {
    Results(statuses, n) + [Finished]
  }

  lemma {:induction false} ResultsAt(statuses: seq<string>, n: nat)
    requires n <= |statuses|
    ensures |Results(statuses, n)| == n
    ensures forall j :: 0 <= j < n ==> Results(statuses, n)[j] == Result(j, statuses[j])
  {
    if 0 < n {
      ResultsAt(statuses, n - 1);
    }
  }

  /**
   * A pass over n rows emits n results, the j-th for row j, then a single
   * finished signal as its last event.
   */
  lemma StreamShape(statuses: seq<string>, n: nat)
    requires n <= |statuses|
    ensures |Stream(statuses, n)| == n + 1
    ensures forall j :: 0 <= j < n ==> Stream(statuses, n)[j] == Result(j, statuses[j])
    ensures forall j :: 0 <= j <= n ==> (Stream(statuses, n)[j].Finished? <==> j == n)
  {
    ResultsAt(statuses, n);
  }

  /**
   * How many rows a pass processes: none when the flag was already cleared,
   * every row when it is never cleared, and the rows before k when it is
   * cleared just before row k is checked.
   */
  function Started(rows: nat, running: bool, stopAt: Option<nat>): (n: nat)
    ensures n <= rows
    ensures !running ==> n == 0
    ensures running && stopAt.None? ==> n == rows
    ensures stopAt.Some? ==> n <= stopAt.value
    ensures running && stopAt.Some? && stopAt.value <= rows ==> n == stopAt.value
  {
    if !running then 0
    else if stopAt.Some? && stopAt.value < rows then stopAt.value
    else rows
  }

  /** A stop requested past the last row does not cut the pass short: every row is processed. */
  lemma StopPastLastRow(rows: nat, running: bool, stopAt: Option<nat>)
    requires running && stopAt.Some? && rows < stopAt.value
    ensures Started(rows, running, stopAt) == rows
  {
  }

  /** A row reached with the flag still set lies below the number of rows the pass processes. */
  lemma StartedBeyond(rows: nat, running: bool, stopAt: Option<nat>, i: nat)
    requires i < rows && running && !(stopAt.Some? && stopAt.value <= i)
    ensures i < Started(rows, running, stopAt)
  {
  }

  /** The first of rows 0 .. n-1 whose call blocks for ever, or n when none of them does. */
  function FirstHang(hangs: seq<bool>, n: nat): (f: nat)
    requires n <= |hangs|
    ensures f <= n
    ensures forall j :: 0 <= j < f ==> !hangs[j]
    ensures f < n ==> hangs[f]
  {
    if n == 0 then 0
    else if FirstHang(hangs, n - 1) < n - 1 then FirstHang(hangs, n - 1)
    else if hangs[n - 1] then n - 1
    else n
  }

  /** `FirstHang` is the one row with no hang before it and a hang at it (or n). */
  lemma FirstHangIs(hangs: seq<bool>, n: nat, f: nat)
    requires f <= n <= |hangs|
    requires forall j :: 0 <= j < f ==> !hangs[j]
    requires f < n ==> hangs[f]
    ensures FirstHang(hangs, n) == f
  {
  }

  /**
   * A pass stuck at row f has reported rows 0 .. f-1, one result each in
   * row order, and never signals that it finished.
   */
  lemma StalledPass(statuses: seq<string>, f: nat)
    requires f <= |statuses|
    ensures |Results(statuses, f)| == f
    ensures forall j :: 0 <= j < f ==> Results(statuses, f)[j] == Result(j, statuses[j])
    ensures Finished !in Results(statuses, f)
  {
    ResultsAt(statuses, f);
  }

  /**
   * A pass that is never stopped emits exactly one result per row, in
   * increasing row order, then exactly one finished signal.
   */
  lemma CompletePass(statuses: seq<string>)
    ensures var events := Stream(statuses, Started(|statuses|, true, None));
      && |events| == |statuses| + 1
      && (forall j :: 0 <= j < |statuses| ==> events[j] == Result(j, statuses[j]))
      && events[|statuses|] == Finished
  {
    StreamShape(statuses, |statuses|);
  }

  /**
   * When the flag is cleared before row k is checked, no row from k on gets
   * a result; every row before k has already emitted its result, the row in
   * flight when it was cleared included; and the finished signal still comes
   * exactly once, last.
   */
  lemma CancelledPass(statuses: seq<string>, running: bool, k: nat)
    ensures var n := Started(|statuses|, running, Some(k));
      var events := Stream(statuses, n);
      && |events| <= k + 1
      && (running && k <= |statuses| ==> |events| == k + 1)
      && (running && |statuses| < k ==> |events| == |statuses| + 1)
      && (forall j :: 0 <= j < |events| - 1 ==>
            events[j].Result? && events[j].index == j && events[j].index < k)
      && (forall j :: 0 <= j < |events| ==> (events[j].Finished? <==> j == |events| - 1))
  {
    StreamShape(statuses, Started(|statuses|, running, Some(k)));
  }

  /** A worker stopped before it runs processes no row and only signals that it finished. */
  lemma StoppedBeforeRun(statuses: seq<string>, stopAt: Option<nat>)
    ensures Stream(statuses, Started(|statuses|, false, stopAt)) == [Finished]
  {
  }

  // ---------------------------------------------------------------------
  // Ping pass

  /** One ping subprocess: its row, argument vector and timeout in seconds. */
  datatype PingCall = PingCall(row: nat, argv: seq<string>, timeout: nat)

  function PingCallOf(i: nat, row: SiteRow, platform: string): PingCall {
    PingCall(i, PingArgv(platform, row.staticIp), ProbeTimeout)
  }

  /**
   * The status of every row of a ping pass; `replies[i]` is what the ping
   * subprocess of row i gives back, when that row is pinged at all.
   */
  function PingStatuses(roster: seq<SiteRow>, replies: seq<Reply>): seq<string>
    requires |replies| == |roster|
  {
    seq(|roster|, i requires 0 <= i < |roster| => Status(PingRowOutcome(roster[i], replies[i])))
  }

  /** The pings made for row i: one, unless the row has no static IP. */
  function PingCallsAt(roster: seq<SiteRow>, platform: string, i: nat): seq<PingCall>
    requires i < |roster|
  {
    if roster[i].staticIp == "" then [] else [PingCallOf(i, roster[i], platform)]
  }

  /** The pings of a pass that processes rows 0 .. n-1, in the order they are made. */
  function PingCalls(roster: seq<SiteRow>, platform: string, n: nat): seq<PingCall>
    requires n <= |roster|
  {
    if n == 0 then [] else PingCalls(roster, platform, n - 1) + PingCallsAt(roster, platform, n - 1)
  }

  /** The pings of every row, row by row. */
  function PingPlan(roster: seq<SiteRow>, platform: string): (plan: seq<seq<PingCall>>)
    ensures |plan| == |roster|
  {
    seq(|roster|, i requires 0 <= i < |roster| => PingCallsAt(roster, platform, i))
  }

  /** Joining the pings of rows 0 .. n-1 gives the pings of a pass over those rows. */
  lemma {:induction false} PingPlanJoined(roster: seq<SiteRow>, platform: string, n: nat)
    requires n <= |roster|
    ensures Concat(PingPlan(roster, platform), n) == PingCalls(roster, platform, n)
  {
    if 0 < n {
      PingPlanJoined(roster, platform, n - 1);
    }
  }

  /**
   * A ping pass over rows 0 .. n-1 pings only rows that have a static IP,
   * each with that row's command line.
   */
  lemma {:induction false} PingCallsSound(roster: seq<SiteRow>, platform: string, n: nat)
    requires n <= |roster|
    ensures forall c :: c in PingCalls(roster, platform, n) ==>
      c.row < n && roster[c.row].staticIp != "" && c == PingCallOf(c.row, roster[c.row], platform)
  {
    if 0 < n {
      PingCallsSound(roster, platform, n - 1);
    }
  }

  /** A ping pass over rows 0 .. n-1 pings every one of them that has a static IP. */
  lemma {:induction false} PingCallsComplete(roster: seq<SiteRow>, platform: string, n: nat)
    requires n <= |roster|
    ensures forall i :: 0 <= i < n && roster[i].staticIp != "" ==>
      PingCallOf(i, roster[i], platform) in PingCalls(roster, platform, n)
  {
    if 0 < n {
      PingCallsComplete(roster, platform, n - 1);
    }
  }

  predicate PingsInRowOrder(calls: seq<PingCall>) {
    forall j, k :: 0 <= j < k < |calls| ==> calls[j].row < calls[k].row
  }

  /** Rows are pinged in order, each at most once. */
  lemma {:induction false} PingCallsOrdered(roster: seq<SiteRow>, platform: string, n: nat)
    requires n <= |roster|
    ensures PingsInRowOrder(PingCalls(roster, platform, n))
  {
    if 0 < n {
      PingCallsOrdered(roster, platform, n - 1);
      PingCallsSound(roster, platform, n - 1);
      var earlier, last := PingCalls(roster, platform, n - 1), PingCallsAt(roster, platform, n - 1);
      var calls := earlier + last;
      forall j, k | 0 <= j < k < |calls| ensures calls[j].row < calls[k].row {
        assert j < |earlier|;
        assert earlier[j] in earlier;
        assert calls[j] == earlier[j];
        if k < |earlier| {
          assert calls[k] == earlier[k];
        } else {
          assert calls[k] == last[k - |earlier|];
        }
      }
    }
  }

  /** `PingWorker`: the ping pass over a roster. */
  class PingWorker {
    const roster: seq<SiteRow>
    var running: bool
    var events: seq<Event>
    var pings: seq<PingCall>

    constructor (roster: seq<SiteRow>)
      ensures this.roster == roster && running && events == [] && pings == []
    {
      this.roster := roster;
      running := true;
      events := [];
      pings := [];
    }

    /** `stop()`: clears the flag; the current row, if any, still completes. */
    method Stop()
      modifies this`running
      ensures !running
    {
      running := false;
    }

    /**
     * The loop body of `run()` for row i once the flag check passed: a row
     * without a static IP reports so and is not pinged; any other row is
     * pinged once and reports what the reply shows.
     */
    method ProbeRow(i: nat, platform: string, replies: seq<Reply>)
      requires i < |roster| == |replies|
      modifies this`events, this`pings
      ensures events == old(events) + [Result(i, PingStatuses(roster, replies)[i])]
      ensures pings == old(pings) + PingCallsAt(roster, platform, i)
    {
      var row := roster[i];
      if row.staticIp == "" {
        events := events + [Result(i, Status(NoAddress))];
      } else {
        var argv := PingArgv(platform, row.staticIp);
        pings := pings + [PingCall(i, argv, ProbeTimeout)];
        var reply := replies[i];
        events := events + [Result(i, Status(PingVerdict(reply)))];
      }
    }

    /** `statuses[i]` is the status row i reports and `plan[i]` the pings it makes. */
    ghost predicate Planned(platform: string, replies: seq<Reply>,
                            statuses: seq<string>, plan: seq<seq<PingCall>>)
    {
      && |roster| == |replies| == |statuses| == |plan|
      && forall i {:trigger roster[i]} :: 0 <= i < |roster| ==>
           && statuses[i] == PingStatuses(roster, replies)[i]
           && plan[i] == PingCallsAt(roster, platform, i)
    }

    /** `events` and `pings` hold what rows 0 .. n-1 emit and call, after `events0` and `pings0`. */
    ghost predicate Processed(statuses: seq<string>, plan: seq<seq<PingCall>>,
                              events0: seq<Event>, pings0: seq<PingCall>, n: nat)
      reads this
    {
      && n <= |statuses| == |plan|
      && events == events0 + Results(statuses, n)
      && pings == pings0 + Concat(plan, n)
    }

    /** Row i's step of the loop, stated on the whole of what rows 0 .. i have emitted and called. */
    method ProcessRow(i: nat, platform: string, replies: seq<Reply>,
                      ghost statuses: seq<string>, ghost plan: seq<seq<PingCall>>,
                      ghost events0: seq<Event>, ghost pings0: seq<PingCall>)
      requires i < |roster| && Planned(platform, replies, statuses, plan)
      requires Processed(statuses, plan, events0, pings0, i)
      modifies this`events, this`pings
      ensures Processed(statuses, plan, events0, pings0, i + 1)
    {
      ProbeRow(i, platform, replies);
    }

    /**
     * The loop of `run()`: rows are taken in order, the flag is checked
     * before each one, and the loop ends at the first cleared flag; it
     * returns how many rows were processed. `statuses` and `plan` say what
     * each row reports and calls.
     */
    method ProcessRows(platform: string, replies: seq<Reply>, stopAt: Option<nat>,
                       ghost statuses: seq<string>, ghost plan: seq<seq<PingCall>>) returns (n: nat)
      requires Planned(platform, replies, statuses, plan)
      modifies this`running, this`events, this`pings
      ensures n == Started(|roster|, old(running), stopAt)
      ensures events == old(events) + Results(statuses, n)
      ensures pings == old(pings) + Concat(plan, n)
      ensures running == (old(running) && !(stopAt.Some? && stopAt.value < |roster|))
    {
      n := 0;
      while n < |roster|
        invariant n <= Started(|roster|, old(running), stopAt)
        invariant running == (old(running) && !(stopAt.Some? && stopAt.value < n))
        invariant Processed(statuses, plan, old(events), old(pings), n)
      {
        if stopAt == Some(n) {
          Stop();
        }
        if !running {
          break;
        }
        StartedBeyond(|roster|, old(running), stopAt, n);
        ProcessRow(n, platform, replies, statuses, plan, old(events), old(pings));
        n := n + 1;
      }
    }

    /**
     * `run()`. `platform` stands for `sys.platform`; `replies[i]` is what
     * the ping subprocess of row i returns or raises. `stopAt == Some(k)`
     * means that `stop()` is called from outside just before row k's flag
     * check.
     */
    method Run(platform: string, replies: seq<Reply>, stopAt: Option<nat>)
      requires |replies| == |roster|
      modifies this`running, this`events, this`pings
      ensures events == old(events)
        + Stream(PingStatuses(roster, replies), Started(|roster|, old(running), stopAt))
      ensures pings == old(pings) + PingCalls(roster, platform, Started(|roster|, old(running), stopAt))
      ensures running == (old(running) && !(stopAt.Some? && stopAt.value < |roster|))
    {
      ghost var statuses := PingStatuses(roster, replies);
      ghost var plan := PingPlan(roster, platform);
      var n := ProcessRows(platform, replies, stopAt, statuses, plan);
      PingPlanJoined(roster, platform, n);
      AppendAssoc(old(events), Results(statuses, n), Finished);
      events := events + [Finished];
    }
  }

  // ---------------------------------------------------------------------
  // VPN pass

  /** An SSH call of the VPN pass, with its row: `SSHClient.connect` or `exec_command`. */
  datatype SshCall = Connect(row: nat, endpoint: Endpoint) | Exec(row: nat, command: string)

  /** The port of every row as `int(float(...))` reads it. */
  function Ports(roster: seq<SiteRow>): (ports: seq<Option<int>>)
    ensures |ports| == |roster|
  {
    seq(|roster|, i requires 0 <= i < |roster| => ParsePort(roster[i].sshPort))
  }

  /** A row whose port (as parsed) and IP pass the checks, so that the VPN pass connects to it. */
  predicate Dials(row: SiteRow, port: Option<int>) {
    port.Some? && row.staticIp != ""
  }

  function EndpointOf(row: SiteRow, port: Option<int>): Endpoint
    requires port.Some?
  {
    VpnEndpoint(row, port.value)
  }

  /**
   * The status of every row of a VPN pass whose ports parse to `ports`;
   * `handshakes[i]` is what connecting to row i does and `replies[i]` what
   * the remote command on row i gives back, when those calls are made.
   */
  function VpnStatuses(roster: seq<SiteRow>, ports: seq<Option<int>>,
                       handshakes: seq<Handshake>, replies: seq<Reply>): seq<string>
    requires |ports| == |roster| == |handshakes| == |replies|
  {
    seq(|roster|, i requires 0 <= i < |roster| =>
      Status(VpnRowOutcome(roster[i], ports[i], handshakes[i], replies[i])))
  }

  /**
   * Row i's remote command was sent and never exits, so that reading its
   * output (`stdout.read()`, which has no time limit) blocks for ever.
   * `endless` means that `exec_command` returned and the read of its output
   * never does; a row whose `exec_command` raises is not `endless`, so
   * `endless` overrides the reply only where no reply ever comes.
   */
  predicate Hangs(row: SiteRow, port: Option<int>, handshake: Handshake, endless: bool) {
    Dials(row, port) && handshake == Accepted && endless
  }

  /** Which rows of a VPN pass block for ever on their remote command. */
  function VpnHangs(roster: seq<SiteRow>, ports: seq<Option<int>>,
                    handshakes: seq<Handshake>, endless: seq<bool>): (hangs: seq<bool>)
    requires |ports| == |roster| == |handshakes| == |endless|
    ensures |hangs| == |roster|
  {
    seq(|roster|, i requires 0 <= i < |roster| => Hangs(roster[i], ports[i], handshakes[i], endless[i]))
  }

  /**
   * The SSH calls made for row i: none when the port or IP check fails; a
   * connect otherwise; and the remote command after a connect that succeeded.
   */
  function SshCallsAt(roster: seq<SiteRow>, ports: seq<Option<int>>, target: string,
                      handshakes: seq<Handshake>, i: nat): seq<SshCall>
    requires |ports| == |roster| == |handshakes| && i < |roster|
  {
    if !Dials(roster[i], ports[i]) then []
    else
      var endpoint := EndpointOf(roster[i], ports[i]);
      if handshakes[i] == Accepted then
        [Connect(i, endpoint), Exec(i, VpnCommand(roster[i].router, target))]
      else
        [Connect(i, endpoint)]
  }

  /**
   * The SSH calls of a VPN pass over rows 0 .. n-1 whose ports parse to
   * `ports`: each row's calls (`SshCallsAt`), joined in row order.
   */
  function SshCalls(roster: seq<SiteRow>, ports: seq<Option<int>>, target: string,
                    handshakes: seq<Handshake>, n: nat): seq<SshCall>
    requires |ports| == |roster| == |handshakes| && n <= |roster|
  {
    Concat(SshPlan(roster, ports, target, handshakes), n)
  }

  /** The SSH calls of every row, row by row. */
  function SshPlan(roster: seq<SiteRow>, ports: seq<Option<int>>, target: string,
                   handshakes: seq<Handshake>): (plan: seq<seq<SshCall>>)
    requires |ports| == |roster| == |handshakes|
    ensures |plan| == |roster|
  {
    seq(|roster|, i requires 0 <= i < |roster| => SshCallsAt(roster, ports, target, handshakes, i))
  }

  /**
   * A VPN pass over rows 0 .. n-1 connects only to rows whose port and IP
   * pass the checks, to the row's own endpoint, and runs the remote command,
   * in the dialect of the row's router, only where that connect succeeded.
   */
  lemma {:induction false} SshCallsSound(roster: seq<SiteRow>, ports: seq<Option<int>>, target: string,
                                         handshakes: seq<Handshake>, n: nat)
    requires |ports| == |roster| == |handshakes| && n <= |roster|
    ensures forall c :: c in SshCalls(roster, ports, target, handshakes, n) ==>
      && c.row < n && Dials(roster[c.row], ports[c.row])
      && (c.Connect? ==> c.endpoint == EndpointOf(roster[c.row], ports[c.row]))
      && (c.Exec? ==> handshakes[c.row] == Accepted && c.command == VpnCommand(roster[c.row].router, target))
  {
    if 0 < n {
      SshCallsSound(roster, ports, target, handshakes, n - 1);
    }
  }
  /**
   * Joining the calls of rows 0 .. n-1 gives the calls of a pass over those
   * rows. This holds by the definition of `SshCalls`; as a lemma it hands
   * the equation to a caller as a fact.
   */
  lemma SshPlanJoined(roster: seq<SiteRow>, ports: seq<Option<int>>, target: string,
                      handshakes: seq<Handshake>, n: nat)
    requires |ports| == |roster| == |handshakes| && n <= |roster|
    ensures Concat(SshPlan(roster, ports, target, handshakes), n) == SshCalls(roster, ports, target, handshakes, n)
  {
  }


  /** A VPN pass over rows 0 .. n-1 connects to every row whose port and IP pass the checks. */
  lemma {:induction false} SshConnectsComplete(roster: seq<SiteRow>, ports: seq<Option<int>>, target: string,
                                               handshakes: seq<Handshake>, n: nat)
    requires |ports| == |roster| == |handshakes| && n <= |roster|
    ensures forall i :: 0 <= i < n && Dials(roster[i], ports[i]) ==>
      Connect(i, EndpointOf(roster[i], ports[i])) in SshCalls(roster, ports, target, handshakes, n)
  {
    if 0 < n {
      SshConnectsComplete(roster, ports, target, handshakes, n - 1);
      var earlier, last := SshCalls(roster, ports, target, handshakes, n - 1),
        SshCallsAt(roster, ports, target, handshakes, n - 1);
      forall i | 0 <= i < n && Dials(roster[i], ports[i])
        ensures Connect(i, EndpointOf(roster[i], ports[i])) in earlier + last
      {
        if i < n - 1 {
          assert Connect(i, EndpointOf(roster[i], ports[i])) in earlier;
        } else {
          assert (earlier + last)[|earlier|] == last[0];
        }
      }
    }
  }

  /** A VPN pass over rows 0 .. n-1 runs the remote command on every row whose connect succeeded. */
  lemma {:induction false} SshExecsComplete(roster: seq<SiteRow>, ports: seq<Option<int>>, target: string,
                                            handshakes: seq<Handshake>, n: nat)
    requires |ports| == |roster| == |handshakes| && n <= |roster|
    ensures forall i :: 0 <= i < n && Dials(roster[i], ports[i]) && handshakes[i] == Accepted ==>
      Exec(i, VpnCommand(roster[i].router, target)) in SshCalls(roster, ports, target, handshakes, n)
  {
    if 0 < n {
      SshExecsComplete(roster, ports, target, handshakes, n - 1);
      var earlier, last := SshCalls(roster, ports, target, handshakes, n - 1),
        SshCallsAt(roster, ports, target, handshakes, n - 1);
      forall i | 0 <= i < n && Dials(roster[i], ports[i]) && handshakes[i] == Accepted
        ensures Exec(i, VpnCommand(roster[i].router, target)) in earlier + last
      {
        if i < n - 1 {
          assert Exec(i, VpnCommand(roster[i].router, target)) in earlier;
        } else {
          assert (earlier + last)[|earlier| + 1] == last[1];
        }
      }
    }
  }

  predicate SshInRowOrder(calls: seq<SshCall>) {
    forall j, k :: 0 <= j < k < |calls| ==>
      calls[j].row < calls[k].row || (calls[j].row == calls[k].row && calls[j].Connect? && calls[k].Exec?)
  }

  /** A pass over rows 0 .. n-1 makes the calls of rows 0 .. n-2, then those of row n-1. */
  lemma SshCallsStep(roster: seq<SiteRow>, ports: seq<Option<int>>, target: string,
                     handshakes: seq<Handshake>, n: nat)
    requires |ports| == |roster| == |handshakes| && 0 < n <= |roster|
    ensures SshCalls(roster, ports, target, handshakes, n)
      == SshCalls(roster, ports, target, handshakes, n - 1) + SshCallsAt(roster, ports, target, handshakes, n - 1)
  {
    assert SshPlan(roster, ports, target, handshakes)[n - 1] == SshCallsAt(roster, ports, target, handshakes, n - 1);
  }

  /** Row i's calls are at most a connect and then a command, all on row i. */
  lemma SshCallsAtShape(roster: seq<SiteRow>, ports: seq<Option<int>>, target: string,
                        handshakes: seq<Handshake>, i: nat)
    requires |ports| == |roster| == |handshakes| && i < |roster|
    ensures var calls := SshCallsAt(roster, ports, target, handshakes, i);
      && |calls| <= 2
      && (forall j :: 0 <= j < |calls| ==> calls[j].row == i)
      && (|calls| == 2 ==> calls[0].Connect? && calls[1].Exec?)
  {
  }

  /** Calls are made row by row, and within a row the connect comes before the command. */
  lemma {:induction false} SshCallsOrdered(roster: seq<SiteRow>, ports: seq<Option<int>>, target: string,
                                           handshakes: seq<Handshake>, n: nat)
    requires |ports| == |roster| == |handshakes| && n <= |roster|
    ensures SshInRowOrder(SshCalls(roster, ports, target, handshakes, n))
    ensures forall j :: 0 <= j < |SshCalls(roster, ports, target, handshakes, n)| ==>
      SshCalls(roster, ports, target, handshakes, n)[j].row < n
  {
    if 0 < n {
      SshCallsOrdered(roster, ports, target, handshakes, n - 1);
      SshCallsStep(roster, ports, target, handshakes, n);
      SshCallsAtShape(roster, ports, target, handshakes, n - 1);
      var earlier, last := SshCalls(roster, ports, target, handshakes, n - 1),
        SshCallsAt(roster, ports, target, handshakes, n - 1);
      InRowOrderJoined(earlier, last, n - 1);
    }
  }

  /**
   * Calls in row order on rows below m, followed by at most a connect and
   * then a command on row m, are in row order on rows up to m.
   */
  lemma InRowOrderJoined(earlier: seq<SshCall>, last: seq<SshCall>, m: nat)
    requires SshInRowOrder(earlier) && forall j :: 0 <= j < |earlier| ==> earlier[j].row < m
    requires |last| <= 2 && (forall j :: 0 <= j < |last| ==> last[j].row == m)
    requires |last| == 2 ==> last[0].Connect? && last[1].Exec?
    ensures SshInRowOrder(earlier + last)
    ensures forall j :: 0 <= j < |earlier + last| ==> (earlier + last)[j].row <= m
  {
    var calls := earlier + last;
    forall j | 0 <= j < |calls| ensures calls[j].row <= m {
      if j < |earlier| {
        assert calls[j] == earlier[j];
      } else {
        assert calls[j] == last[j - |earlier|];
      }
    }
    forall j, k | 0 <= j < k < |calls|
      ensures calls[j].row < calls[k].row || (calls[j].row == calls[k].row && calls[j].Connect? && calls[k].Exec?)
    {
      if k < |earlier| {
        assert calls[j] == earlier[j] && calls[k] == earlier[k];
      } else if j < |earlier| {
        assert calls[j] == earlier[j] && calls[k] == last[k - |earlier|];
      } else {
        assert calls[j] == last[0] && calls[k] == last[1];
      }
    }
  }

  /**
   * The validation failures never reach the network: a row whose port fails
   * `int(float(...))`, or whose IP is empty, is neither connected to nor
   * sent a command.
   */
  lemma NoSshForRejectedRows(roster: seq<SiteRow>, target: string, handshakes: seq<Handshake>, n: nat, i: nat)
    requires |handshakes| == |roster| && n <= |roster| && i < |roster|
    requires ParsePort(roster[i].sshPort) == None || roster[i].staticIp == ""
    ensures forall c :: c in SshCalls(roster, Ports(roster), target, handshakes, n) ==> c.row != i
  {
    SshCallsSound(roster, Ports(roster), target, handshakes, n);
  }

  /**
   * As written, a router whose ping never stops stalls the pass. A router
   * that is not a Four-Faith one is sent `ping <target>` with no count, and
   * the output is read with no time limit, so a one-row roster whose port,
   * IP and login pass blocks at row 0 after the connect and the command: by
   * `VpnTestWorker.Run` it reports no row and never signals that it finished.
   */
  lemma UnboundedReadStalls(row: SiteRow, target: string)
    requires ParsePort(row.sshPort).Some? && row.staticIp != "" && !Text.Contains(row.router, FourFaith)
    ensures FirstHang(VpnHangs([row], Ports([row]), [Accepted], [true]), 1) == 0
    ensures SshCalls([row], Ports([row]), target, [Accepted], 1)
      == [Connect(0, VpnEndpoint(row, ParsePort(row.sshPort).value)), Exec(0, "ping " + target)]
  {
    FirstHangIs(VpnHangs([row], Ports([row]), [Accepted], [true]), 1, 0);
    var plan := SshPlan([row], Ports([row]), target, [Accepted]);
    assert plan[0] == SshCallsAt([row], Ports([row]), target, [Accepted], 0);
    assert Concat(plan, 1) == Concat(plan, 0) + plan[0] == plan[0];
  }

  /**
   * A read of the remote command's output bounded by a time limit: a row
   * whose command is still running when the limit is up raises `message`
   * instead of blocking.
   */
  function BoundedReplies(replies: seq<Reply>, endless: seq<bool>, message: string): (bounded: seq<Reply>)
    requires |replies| == |endless|
    ensures |bounded| == |replies|
  {
    seq(|replies|, i requires 0 <= i < |replies| => if endless[i] then Raised(message) else replies[i])
  }

  /**
   * With a bounded read no row blocks, so the first n rows of every pass
   * are all reported (and by `VpnTestWorker.Run` the finished signal
   * follows). A row that would have blocked reports '❌ Hata: ' with the
   * time-out's message; every other row reports what it reports as written.
   */
  lemma BoundedReadsFinish(roster: seq<SiteRow>, handshakes: seq<Handshake>, replies: seq<Reply>,
                           endless: seq<bool>, message: string, n: nat)
    requires |roster| == |handshakes| == |replies| == |endless| && n <= |roster|
    ensures FirstHang(VpnHangs(roster, Ports(roster), handshakes, seq(|roster|, _ => false)), n) == n
    ensures forall i :: 0 <= i < |roster| ==>
      VpnStatuses(roster, Ports(roster), handshakes, BoundedReplies(replies, endless, message))[i]
        == if VpnHangs(roster, Ports(roster), handshakes, endless)[i] then Status(Failed(message))
           else VpnStatuses(roster, Ports(roster), handshakes, replies)[i]
  {
    FirstHangIs(VpnHangs(roster, Ports(roster), handshakes, seq(|roster|, _ => false)), n, n);
  }

  /** `VPNTestWorker`: the VPN pass over a roster, pinging `target` from inside each router. */
  class VpnTestWorker {
    const roster: seq<SiteRow>
    const target: string
    var running: bool
    var events: seq<Event>
    var sshCalls: seq<SshCall>

    constructor (roster: seq<SiteRow>, target: string)
      ensures this.roster == roster && this.target == target
      ensures running && events == [] && sshCalls == []
    {
      this.roster := roster;
      this.target := target;
      running := true;
      events := [];
      sshCalls := [];
    }

    /** The worker with the default rendezvous address. */
    constructor Default(roster: seq<SiteRow>)
      ensures this.roster == roster && target == DefaultTarget
      ensures running && events == [] && sshCalls == []
    {
      this.roster := roster;
      target := DefaultTarget;
      running := true;
      events := [];
      sshCalls := [];
    }

    /** `stop()`: clears the flag; the current row, if any, still completes. */
    method Stop()
      modifies this`running
      ensures !running
    {
      running := false;
    }

    /**
     * The loop body of `run()` for row i once the flag check passed: the
     * port is checked, then the IP; only a row passing both is connected
     * to, and only a successful connect is followed by the remote command.
     * `hung` means that reading the command's output never returns: the row
     * then reports nothing, and `run()` never gets past it.
     */
    method ProbeRow(i: nat, handshakes: seq<Handshake>, replies: seq<Reply>, endless: seq<bool>)
      returns (hung: bool)
      requires i < |roster| == |handshakes| == |replies| == |endless|
      modifies this`events, this`sshCalls
      ensures hung == VpnHangs(roster, Ports(roster), handshakes, endless)[i]
      ensures events == old(events)
        + if hung then [] else [Result(i, VpnStatuses(roster, Ports(roster), handshakes, replies)[i])]
      ensures sshCalls == old(sshCalls) + SshCallsAt(roster, Ports(roster), target, handshakes, i)
    {
      hung := false;
      var row := roster[i];
      var port := ParsePort(row.sshPort);
      if port.None? {
        events := events + [Result(i, Status(InvalidPort))];
      } else if row.staticIp == "" {
        events := events + [Result(i, Status(NoAddress))];
      } else {
        var endpoint := VpnEndpoint(row, port.value);
        sshCalls := sshCalls + [Connect(i, endpoint)];
        var handshake := handshakes[i];
        match handshake {
          case Rejected(message) =>
            events := events + [Result(i, Status(Failed(message)))];
          case Accepted =>
            var command := VpnCommand(row.router, target);
            sshCalls := sshCalls + [Exec(i, command)];
            assert sshCalls == old(sshCalls) + [Connect(i, endpoint), Exec(i, command)];
            if endless[i] {
              hung := true;
            } else {
              var reply := replies[i];
              var outcome := match reply
                case Raised(message) => Failed(message)
                case Output(text) => VpnVerdict(text);
              assert outcome == VpnRowOutcome(row, port, handshake, reply);
              events := events + [Result(i, Status(outcome))];
            }
        }
      }
    }

    /**
     * `statuses[i]` is the status row i reports, `plan[i]` the SSH calls it
     * makes and `hangs[i]` whether it blocks for ever on its remote command.
     */
    ghost predicate Planned(handshakes: seq<Handshake>, replies: seq<Reply>, endless: seq<bool>,
                            statuses: seq<string>, plan: seq<seq<SshCall>>, hangs: seq<bool>)
    {
      && |roster| == |handshakes| == |replies| == |endless| == |statuses| == |plan| == |hangs|
      && forall i {:trigger roster[i]} :: 0 <= i < |roster| ==>
           && statuses[i] == VpnStatuses(roster, Ports(roster), handshakes, replies)[i]
           && plan[i] == SshCallsAt(roster, Ports(roster), target, handshakes, i)
           && hangs[i] == VpnHangs(roster, Ports(roster), handshakes, endless)[i]
    }

    /** `events` and `sshCalls` hold what rows 0 .. n-1 emit and call, after `events0` and `calls0`. */
    ghost predicate Processed(statuses: seq<string>, plan: seq<seq<SshCall>>,
                              events0: seq<Event>, calls0: seq<SshCall>, n: nat)
      reads this
    {
      && n <= |statuses| == |plan|
      && events == events0 + Results(statuses, n)
      && sshCalls == calls0 + Concat(plan, n)
    }

    /**
     * Row i's step of the loop, stated on the whole of what rows 0 .. i have
     * emitted and called; a row that hangs has made its calls but emitted
     * nothing.
     */
    method ProcessRow(i: nat, handshakes: seq<Handshake>, replies: seq<Reply>, endless: seq<bool>,
                      ghost statuses: seq<string>, ghost plan: seq<seq<SshCall>>, ghost hangs: seq<bool>,
                      ghost events0: seq<Event>, ghost calls0: seq<SshCall>)
      returns (hung: bool)
      requires i < |roster| && Planned(handshakes, replies, endless, statuses, plan, hangs)
      requires Processed(statuses, plan, events0, calls0, i)
      modifies this`events, this`sshCalls
      ensures hung == hangs[i]
      ensures !hung ==> Processed(statuses, plan, events0, calls0, i + 1)
      ensures hung ==> events == events0 + Results(statuses, i) && sshCalls == calls0 + Concat(plan, i + 1)
    {
      hung := ProbeRow(i, handshakes, replies, endless);
      AppendAssoc(events0, Results(statuses, i), Result(i, statuses[i]));
      ConcatAssoc(calls0, Concat(plan, i), plan[i]);
    }

    /**
     * The loop of `run()`: rows are taken in order, the flag is checked
     * before each one, and the loop ends at the first cleared flag or at the
     * first row whose remote command never exits. `n` is the number of rows
     * reported; `hung` says that row n blocks. `statuses`, `plan` and
     * `hangs` say what each row reports, calls and whether it blocks.
     */
    method ProcessRows(handshakes: seq<Handshake>, replies: seq<Reply>, endless: seq<bool>, stopAt: Option<nat>,
                       ghost statuses: seq<string>, ghost plan: seq<seq<SshCall>>, ghost hangs: seq<bool>)
      returns (n: nat, hung: bool)
      requires Planned(handshakes, replies, endless, statuses, plan, hangs)
      modifies this`running, this`events, this`sshCalls
      ensures n == FirstHang(hangs, Started(|roster|, old(running), stopAt))
      ensures hung <==> n < Started(|roster|, old(running), stopAt)
      ensures events == old(events) + Results(statuses, n)
      ensures sshCalls == old(sshCalls) + Concat(plan, if hung then n + 1 else n)
      ensures running == (old(running) && !(stopAt.Some? && stopAt.value < if hung then n + 1 else |roster|))
    {
      n := 0;
      hung := false;
      while n < |roster|
        invariant n <= Started(|roster|, old(running), stopAt)
        invariant forall j :: 0 <= j < n ==> !hangs[j]
        invariant running == (old(running) && !(stopAt.Some? && stopAt.value < n))
        invariant Processed(statuses, plan, old(events), old(sshCalls), n)
      {
        if stopAt == Some(n) {
          Stop();
        }
        if !running {
          break;
        }
        StartedBeyond(|roster|, old(running), stopAt, n);
        hung := ProcessRow(n, handshakes, replies, endless, statuses, plan, hangs, old(events), old(sshCalls));
        if hung {
          FirstHangIs(hangs, Started(|roster|, old(running), stopAt), n);
          return;
        }
        n := n + 1;
      }
      FirstHangIs(hangs, Started(|roster|, old(running), stopAt), n);
    }

    /**
     * `run()`. `handshakes[i]` is what `SSHClient.connect` does for row i,
     * `replies[i]` what `exec_command` plus reading and decoding its output
     * gives for row i, and `endless[i]` whether that command never exits.
     * `stopAt == Some(k)` means that `stop()` is called from outside just
     * before row k's flag check. `hung` means that the pass is stuck for ever
     * reading the output of row f, the first processed row that blocks: it
     * has reported rows 0 .. f-1 only, made row f's connect and command, and
     * never signals that it finished.
     */
    method Run(handshakes: seq<Handshake>, replies: seq<Reply>, endless: seq<bool>, stopAt: Option<nat>)
      returns (hung: bool)
      requires |roster| == |handshakes| == |replies| == |endless|
      modifies this`running, this`events, this`sshCalls
      ensures var n := Started(|roster|, old(running), stopAt);
        var f := FirstHang(VpnHangs(roster, Ports(roster), handshakes, endless), n);
        var statuses := VpnStatuses(roster, Ports(roster), handshakes, replies);
        && (hung <==> f < n)
        && events == old(events) + (if hung then Results(statuses, f) else Stream(statuses, n))
        && sshCalls == old(sshCalls) + SshCalls(roster, Ports(roster), target, handshakes, if hung then f + 1 else n)
        && running == (old(running) && !(stopAt.Some? && stopAt.value < if hung then f + 1 else |roster|))
    {
      ghost var statuses := VpnStatuses(roster, Ports(roster), handshakes, replies);
      ghost var plan := SshPlan(roster, Ports(roster), target, handshakes);
      ghost var hangs := VpnHangs(roster, Ports(roster), handshakes, endless);
      var n;
      n, hung := ProcessRows(handshakes, replies, endless, stopAt, statuses, plan, hangs);
      if hung {
        SshPlanJoined(roster, Ports(roster), target, handshakes, n + 1);
      } else {
        SshPlanJoined(roster, Ports(roster), target, handshakes, n);
        AppendAssoc(old(events), Results(statuses, n), Finished);
        events := events + [Finished];
      }
    }
  }
}


