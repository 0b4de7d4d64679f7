# SCADA site checker: the two bulk workers

This project models the diagnosis core of `scada.py`, a desktop tool that
keeps a roster of solar plants (one spreadsheet row per plant) and checks
them in bulk:

- `PingWorker` pings every plant's static IP five times.
- `VPNTestWorker` opens an SSH session to every plant's router and pings a
  rendezvous address from inside it.
- Both workers walk the roster in row order and check a `running` flag
  before every row; `stop()` clears that flag. They emit one
  `(row index, status)` signal per row they process, then one finished
  signal.
- The detail view selects the first row whose plant name equals the chosen
  name.

The model has five modules:

- `Wrappers` (`wrappers.dfy`): `Option`.
- `Text` (`text.dfy`): the Python string operations the workers use. These
  are `p in s`, `str.strip()` with Python's `isspace` set, and
  `str.startswith`.
- `Roster` (`roster.dfy`):
  - `SiteRow`, one row. The spreadsheet is read as text with empty cells
    as `""`.
  - `int(float(port))` on decimal text (`ParsePort`).
  - The detail-view lookup.
- `Probes` (`probes.dfy`):
  - the status texts and the per-row decisions of both workers;
  - the ping argument vector and the remote ping command;
  - the TTL classification.
- `Runner` (`runner.dfy`): `PingWorker` and `VpnTestWorker` as classes. Each
  has a `running` flag, the emitted `events`, and a log of the transport
  calls it makes (`pings`, `sshCalls`). `Stop` and `Run` update these in
  place. `Run` is proved against specification functions:
  - `PingStatuses` / `VpnStatuses` give the status of every row.
  - `PingCalls` / `SshCalls` give the calls of a pass.
  - `Stream` gives what a pass over the first n rows emits.
  - `Started` gives how many rows a pass processes.

The VPN pass reads the remote command's output with no time limit
(`stdout.read()` after `exec_command`, neither given a timeout). A per-row
input `endless` says that on that row `exec_command` returned and the read
of its output never does. A row whose `exec_command` raises is therefore
never `endless`. An `endless` row whose connect succeeds blocks the pass for
ever, after the connect and the command:
- the row reports nothing;
- no later row is processed;
- no finished signal comes.

`FirstHang` gives the first such row, and `VpnTestWorker.Run` returns `hung`
when the pass stalls there.

Each loop method takes ghost per-row sequences (`statuses`, `plan` and, for
the VPN pass, `hangs`). A `Planned` predicate ties them to the specification
functions. The loop's proof then does not need to look inside the per-row
decisions.

## Model

| member | source | states |
|---|---|---|
| Text.Contains | scada.py:39 | `p in s` is true exactly when `p` occurs in `s` at some offset |
| Text.LeftEndSpec | scada.py:93 | everything before the left cut of `strip()` is whitespace, and the character at the cut is not |
| Text.RightEndSpec | scada.py:93 | everything after the right cut of `strip()` is whitespace, and the character before the cut is not |
| Text.StripEmpty | scada.py:93 | `Strip` (`str.strip()`) gives the empty string exactly when the text is all whitespace |
| Text.StripSpec | scada.py:93 | `Strip` (`str.strip()`) keeps the characters from the first non-whitespace one on, in order, and stays inside the text |
| Text.StripEnds | scada.py:93 | the stripped text neither begins nor ends with whitespace |
| Text.StripOccurrenceInText | scada.py:93-95 | an occurrence in the stripped output is an occurrence in the raw output, shifted by the left cut |
| Text.TextOccurrenceInStrip | scada.py:93-95 | an occurrence of a pattern with non-whitespace ends in the raw output lies inside the stripped output |
| Text.StripKeepsOccurrence | scada.py:93-95 | stripping never changes whether `ttl=` / `TTL=` occurs in the output |
| Roster.ParsePort | scada.py:72-76 | a port cell that passes `int(float(port))` has a digit in it |
| Roster.SeparatorBeforePortRejected | scada.py:72-76 | a port cell with an information separator (U+001C to U+001F) in its leading whitespace fails `int(float(port))`: `float` does not strip those |
| Roster.SeparatorAfterPortRejected | scada.py:72-76 | a port cell with an information separator (U+001C to U+001F) in its trailing whitespace fails `int(float(port))` |
| Roster.NoDigitNoPort | scada.py:72-76 | an ASCII port cell with no digit never passes `int(float(port))` (`inf` and `nan` included) |
| Roster.PortOfDigitEnds | scada.py:73 | a port text that begins and ends with a digit is read without stripping or sign |
| Roster.UnsignedFraction | scada.py:73 | digits, a '.', then one more digit read as the whole part, for whole parts below 2^50 |
| Roster.PortRoundTrip | scada.py:73 | the decimal numeral of a number up to 2^53 reads back as that number |
| Roster.PortFractionTruncated | scada.py:73 | a spreadsheet float such as "22.0" truncates to its whole part, for whole parts below 2^50 |
| Roster.FindSite | scada.py:233-237 | the index found is that of the first row with exactly that name; None exactly when no row has it |
| Roster.DisplayDetails | scada.py:229-237 | an empty name or a name no row carries selects nothing; otherwise the first row with exactly that name is selected |
| Probes.StatusDecodes | scada.py:94-100 | every status text `Status` gives reads back as the outcome it reports, whatever a failure message says |
| Probes.StatusInjective | scada.py:94-100 | distinct outcomes are reported with distinct status texts |
| Probes.CountFlag | scada.py:36 | the count flag is '-n' exactly when the platform name starts with 'win', '-c' otherwise |
| Probes.PingArgv | scada.py:36-38 | the ping runs `ping <flag> 5 <ip>`, with '-n' exactly on Windows |
| Probes.PingVerdict | scada.py:37-45 | '✅' exactly when the ping returned output containing 'TTL=' or 'ttl='; '❌' otherwise, including any exception |
| Probes.PingRowOutcome | scada.py:32-45 | an empty static IP gives '❌ IP yok'; any other row gets the ping verdict |
| Probes.MixedCaseTtlIgnored | scada.py:39 | 'Ttl=' and 'tTL=' are not answers; 'TTL=' is |
| Probes.VpnCommand | scada.py:87-90 | 'ping -c5 ' + target when the router field contains 'Four Faith' (case-sensitive), 'ping ' + target otherwise |
| Probes.VpnVerdict | scada.py:93-98 | the VPN reply is classified as success or as '❌ Yanıt yok', nothing else |
| Probes.VpnVerdictIgnoresStrip | scada.py:93-98 | success exactly when the raw output holds 'ttl=' or 'TTL=' |
| Probes.VerdictsAgree | scada.py:39 | both workers read a reply text the same way |
| Probes.VpnRowOutcomeCases | scada.py:72-100 | in `VpnRowOutcome`, the port check comes first ('❌ Hatalı port' even with an empty IP), then the IP check; a failure carries the connect's or the command's message; success exactly when the command ran and its output holds a TTL marker; never the ping pass's bare '❌' |
| Runner.ResultsAt | scada.py:29-45 | the results of n rows are n events, the j-th for row j |
| Runner.StreamShape | scada.py:27-46 | a pass over n rows emits n results in row order, then a single finished signal, last |
| Runner.Started | scada.py:29-31 | no row when the flag is already cleared; every row when it is never cleared; the rows before k when it is cleared before row k's check |
| Runner.StopPastLastRow | scada.py:29-31 | a stop requested after the last row's check leaves every row processed |
| Runner.CompletePass | scada.py:27-46 | without `stop()`, N rows give exactly N results for rows 0..N-1 in order, then exactly one finished signal |
| Runner.CancelledPass | scada.py:62-102 | after the flag is cleared before row k, no row from k on is reported; every row before k is (all rows when k is past the end) when the worker was running; the finished signal comes once, last |
| Runner.FirstHang | scada.py:62-93 | the first of rows 0..n-1 that blocks: no row before it blocks, and it blocks unless it is n |
| Runner.StalledPass | scada.py:62-102 | a pass stuck at row f has reported rows 0..f-1, one result each in row order, and no finished signal |
| Runner.StoppedBeforeRun | scada.py:29-31 | a worker stopped before it runs only signals that it finished |
| Runner.PingPlanJoined | scada.py:29-38 | the pings of rows 0..n-1, joined row by row, are the pings of a pass over those rows |
| Runner.PingCallsSound | scada.py:32-38 | the ping pass pings only rows with a static IP, each with that row's command line |
| Runner.PingCallsComplete | scada.py:32-38 | the ping pass pings every processed row that has a static IP |
| Runner.PingCallsOrdered | scada.py:29-38 | rows are pinged in increasing row order, each at most once |
| Runner.PingWorker.constructor | scada.py:22-25 | a new worker is running, has emitted nothing and made no call |
| Runner.PingWorker.Stop | scada.py:48-49 | `stop()` clears the flag and changes nothing else |
| Runner.PingWorker.ProbeRow | scada.py:32-45 | one row adds its status event and, when it has an IP, its one ping |
| Runner.PingWorker.ProcessRow | scada.py:29-45 | one row of the loop extends what rows 0..i-1 emitted and called by row i's part |
| Runner.PingWorker.ProcessRows | scada.py:29-45 | the loop processes `Started(...)` rows and emits and calls exactly their parts, in order |
| Runner.PingWorker.Run | scada.py:27-46 | `run()` emits `Stream` of the row statuses and makes `PingCalls` for the rows processed |
| Runner.SshCallsSound | scada.py:72-92 | the VPN pass connects only to rows whose port and IP pass the checks, to the row's own endpoint (`VpnEndpoint`: its IP, parsed port, user name, password and the 5-second timeout), and runs the command only after a successful connect |
| Runner.SshConnectsComplete | scada.py:82-85 | every processed row whose port and IP pass is connected to |
| Runner.SshExecsComplete | scada.py:85-92 | every processed row whose connect succeeded is sent the command for its router |
| Runner.SshCallsOrdered | scada.py:62-92 | calls are made row by row, and within a row the connect comes before the command |
| Runner.NoSshForRejectedRows | scada.py:72-80 | a row whose port fails to parse, or whose IP is empty, is never connected to or sent a command |
| Runner.VpnTestWorker.constructor | scada.py:55-59 | a new worker keeps the roster and target, is running, and has emitted nothing |
| Runner.VpnTestWorker.Default | scada.py:55 | the target defaults to '10.34.255.18' |
| Runner.VpnTestWorker.Stop | scada.py:104-105 | `stop()` clears the flag and changes nothing else |
| Runner.VpnTestWorker.ProbeRow | scada.py:65-100 | one row makes exactly the SSH calls its checks allow, and adds its status event unless its command never exits, in which case it reports `hung` |
| Runner.VpnTestWorker.ProcessRow | scada.py:62-100 | one row of the loop extends what rows 0..i-1 called by row i's part, and what they emitted by row i's event unless row i blocks |
| Runner.VpnTestWorker.ProcessRows | scada.py:62-100 | the loop stops at the first cleared flag or the first blocking row; it emits exactly the parts of the rows before that and makes the calls of those rows and of the blocking one, in order |
| Runner.VpnTestWorker.Run | scada.py:61-102 | `run()` either emits `Stream` of the row statuses for `Started(...)` rows, or, when a processed row blocks, only the results of the rows before the first one that does and no finished signal; it makes `SshCalls` up to and including that row |
| Runner.UnboundedReadStalls | scada.py:87-93 | a non-Four-Faith router is sent `ping <target>` with no count, after the connect; if that ping never stops, a one-row pass blocks at row 0 |
| Runner.BoundedReadsFinish | scada.py:92-100 | with a time-limited read no row blocks, so every processed row is reported; a row that would block reports '❌ Hata: ' with the time-out's message, and every other row reports as before |

## Left out

- The Qt user interface: widgets, dialogs, the progress bar, signal wiring
  and `processEvents`. A signal emission is an append to `events`.
- The transport. Per-row inputs stand for the ping subprocess, the SSH
  connect, and the remote command with its read and decode. The inputs are
  `replies` for the ping pass, and `handshakes` and `replies` for the VPN
  pass. Each gives an output text or the message of what was raised. The
  model records which calls are made and with which arguments (the argument
  vector, endpoint, 5-second timeout and command). It does not model what
  the network does.
- The SSH host-key policy (`AutoAddPolicy`).
- Real concurrency. A `stop()` from the UI thread is the `stopAt` parameter:
  `stop()` runs just before row k's flag check. A stop before `run()` is a
  worker whose flag is already clear. The on-close teardown is not part of
  this model.
- Roster loading and refresh (`read_excel(dtype=str).fillna('')` and the
  file-time check). The roster is a given sequence of text rows, with empty
  cells as `""`.
- Row indices. The roster is taken to carry pandas' default positional
  index, so `idx` is the row position.
- The search filter `update_list`, which needs pandas' regular-expression
  `str.contains`.
- The single-plant actions `ping_selected` and `vpn_test`, and the link and
  file openers. These only show message boxes or open external programs.
- Roster.ParsePort: accepts decimal text only and reads it exactly. It
  takes optional surrounding whitespace, an optional sign, then ASCII digits
  with at most one '.' and at least one digit, truncating toward zero. The
  surrounding whitespace is that of `float`: Python's `isspace` set without
  the information separators U+001C to U+001F, which `float` rejects. It
  departs from Python's `int(float(port))`, which goes through a double, in
  these ways:
  - Python also reads exponents and digit underscores, and this model
    rejects them.
  - Python reads any Unicode decimal digit, so '２２' is 22 there and
    rejected here.
  - Above 2^53, Python rounds the numeral to a double, so the port it gets
    can differ from the one written.
  - A numeral past the double range becomes `inf` in Python, so `int`
    raises and the row reports `❌ Hatalı port`. Here it is a port.
  - A long enough fraction can round up to the next whole number in Python
    (such as '3.99999999999999999' or '1125899906842624.9').
- Roster.NoDigitNoPort: stated for ASCII text only, because Python's
  `float` reads non-ASCII decimal digits.
- Roster.PortRoundTrip: stated up to 2^53 only, because above it `float`
  rounds.
- Roster.UnsignedFraction: stated for whole parts below 2^50 only, because
  from there on `float` rounds some one-digit fractions up to the next
  whole number.
- Roster.PortFractionTruncated: stated for whole parts below 2^50 only, for
  the same reason.
- Runner.VpnTestWorker.Run: whether a router's command never exits is the
  `endless` input. The model does not derive it from the command or the
  router.
- Probes.VpnVerdict: its own contract only bounds the verdict to two
  outcomes. The exact condition is stated by `VpnVerdictIgnoresStrip`.

The model keeps these behaviours as the code has them:

- Only 'TTL=' and 'ttl=' count as an answer. 'Ttl=' and other casings do
  not.
- A cancelled pass emits the same finished signal as a complete one.
- The port gets no range or positivity check: '0', '-5' and '70000' pass the
  port check.
- The SSH session is never closed: `SshCall` has no close, so the call log
  never shows one.

## Findings

| source | as written | input that shows it | evidently intended | confidence | as-written member | corrected member |
|---|---|---|---|---|---|---|
| scada.py:87-93 | A router that is not a Four-Faith one is sent `ping <target>` with no count. The output is then read with `stdout.read()`, with no time limit. | One row with a valid port and IP, an accepted login, a router field without 'Four Faith', and a router whose `ping` runs until interrupted. The pass blocks at that row, reports nothing more and never signals that it finished. | A bounded wait, like the 5-second connect time-out: a command still running at the limit raises, and the row reports '❌ Hata: ' with that message. | medium; not executed (whether a given router's `ping` stops by itself is not in the source) | Runner.UnboundedReadStalls | Runner.BoundedReadsFinish |

`VpnTestWorker.Run` keeps the read as written, with `endless` saying which
commands never exit. The corrected read is `BoundedReplies`: each row that
would block raises the time-out instead. `BoundedReadsFinish` proves that
with it no row blocks, so `Run` with no endless row reports every processed
row and then the finished signal.
