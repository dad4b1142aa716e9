# gpg-bridge: a verified model

gpg-bridge carries opaque GnuPG bytes between a local Unix socket and a remote agent, over
mutually authenticated TLS. This project models its protocols, timing, parsers and renewal
service in Dafny and proves what they keep, over every run and every input. Check it with
`dafny verify dfyconfig.toml`.

## How it is built

Code that changes things step by step is a class or a method with a loop (`OwnedUnixListener`,
`FileSystem`, `CopyBuffer`, `Copying`, `Listener`, `ReconnectBackoff`, `Host`, `RelaySession`,
`LoadMetadata`, `ConnectGpg4win`, the renewal script). Where other parties act in between, the
atomic steps are also functions on values; each method is proved equal to its function, and the
functions are the transitions of a state machine whose runs the theorems are about.

- `UnixSocket`, `SocketProtocol`: the ownership of one socket path, contended for by any number
  of bridge processes and by peers that create, listen, close, unlink, link and rename at will.
- `Watch`, `Relay`, `Chain`: the shutdown channel, the two-way relay, and the composition
  application - client - server - agent under any schedule.
- `AcceptLoop`, `Session`, `Retry`: permits, session tasks, shutdown and drain; the reconnect
  loop before the relay and its backoff.
- `Agent`, `Utf8`, `Text`, `Tailscale`, `ServiceCommandLine`: the parsers and printers.
- `RenewalService`, `RenewalScript`: the stop channel against the child process, and the
  certificate transaction under failure and kill.

## Assumptions

- Socket path: a bridge process runs from one await to the next without interruption, and peers
  act between these blocks. The kernel gives a new inode an id that no linked or open inode has;
  `UnixListener::bind` creates exclusively and listens at once.
- Relay: between client and server an end of stream is only seen after the sender's orderly
  shutdown (TLS reports a truncated stream as an error). A pump may move any number of bytes at a
  time. In `Chain` every stream holds a fixed number of unread bytes, and an endpoint may go on
  writing to a relay that has stopped; such bytes stay in transit.
- Sessions: timeouts are exact and the code between two awaits takes no time. In `RelaySession`
  every attempt takes at least one nanosecond, which is what ends the loop. Sleeps may wake late, here
  and in `Agent`; the statements that need exact timers say so.
- Accept loop: the caller's receiver has seen the channel's current version when the loop starts,
  and the timer of the drain fires on time, which is where its upper bound comes from.
- Renewal service: stops arrive, the sender goes away and a child exits between the service's own
  calls; a sender that is gone sends no more.
- Renewal script: moving a file over another is atomic, `step ca renew --out` writes nothing but
  the temporary file, and a check of a certificate succeeds only if the certificate has the
  checked property. Temporary names carry a fresh GUID.

## Where the promise and the code differ

- A live socket is never replaced (README.md:71 of the repository) except by the removal of a
  stale one, and there exactly when, after a process was told that a socket is stale, a live
  socket with the same device and inode number appears at the path. `WrongfulExactly`,
  `ExposedExactly`, `HazardFreeRunsAreSafe`, `PlainRunsAreSafe` and `HazardsAreFatal` say this for every run;
  `ReusedIdDefeatsProbe` (two bridge processes, a re-used inode number) and
  `LateListenerDefeatsProbe` (a peer that listens late) are two such runs.
- An end of stream is not always the end of the other side's output. A relay that fails or is
  cancelled drops its streams, and the endpoint at it reads an ordinary end of stream, perhaps
  in the middle of the output. `EndsTrueExactly`, `AppEndArrives` and `AgentEndArrives` say when,
  for every run; `CancelledClientCutsReply` is such a run.
- A failed renewal is said to leave certificate and service unchanged (docs/certificates.md:85-87).
  A failure after the move leaves the new certificate installed and exits with 1; if the log could
  not be written the bridge is not restarted either. `RenewalScript.Run` says exactly when, and
  `FailingRunCanInstall` gives the input and `FailingRunInstalls` the run on it.
- At most one renewal child, and no lost stop, hold as long as `try_wait` and `kill` succeed.
  `AbandonedExactly` and `StopLostExactly` say that these two failures, and nothing else, break it.
- The service's command line comes back to the program exactly if the executable holds no quote
  and no supplied value has a backslash directly before a quote or at its end.
- Client session ids are distinct exactly until the 64-bit counter has gone round.

## Model

| member | source | states |
|---|---|---|
| UnixSocket.OwnedUnixListener.New | src/unix_socket.rs:41-57 | a listener records the id of the very inode it listens on; a failure after the bind leaves a closed socket at the path and removes nothing |
| UnixSocket.OwnedUnixListener.Verify | src/unix_socket.rs:99-119 | the rebind, system call by system call, is the specified transition, dropping the old value while the replacement is at the path; after Ok the path names the listener's own socket |
| UnixSocket.OwnedUnixListener.Drop | src/unix_socket.rs:138-147 | performs exactly the specified drop: unlinks if the path names the listener's own inode, then closes |
| UnixSocket.Begin | src/unix_socket.rs:24-38 | the part of `bind` before its await: probe a socket, refuse anything else, bind a free path |
| UnixSocket.Resume | src/unix_socket.rs:62-89 | the part of `bind` after its await: re-check the id, remove, bind |
| SocketProtocol.EntryIsHeldInode | src/unix_socket.rs:100-107 | an entry with the recorded id is the inode that the listener holds open |
| SocketProtocol.VerifyEffect | src/unix_socket.rs:99-119 | whatever fails inside it, a rebind changes no other inode and never touches an entry that is already there |
| SocketProtocol.DropEffect | src/unix_socket.rs:138-147 | a drop closes its own inode, changes no other, and takes the entry away exactly if it is its own and neither the stat nor the removal fails |
| SocketProtocol.LeavingCleansUp | src/unix_socket.rs:138-147 | in every run, after a process has dropped its listener, at its end or on a monitor error, its inode is closed and the path does not name it unless the stat or the removal failed |
| SocketProtocol.BindNewExactly | src/unix_socket.rs:41-57 | `bind_new` succeeds exactly on a free path without a fault; each error, and what it leaves at the path |
| SocketProtocol.BeginExactly | src/unix_socket.rs:24-38 | when `bind` probes, binds at once, or refuses, and with which error |
| SocketProtocol.ResumeExactly | src/unix_socket.rs:62-83 | `bind` succeeds exactly over a socket that is still the probed one and stale; each other answer and its error |
| SocketProtocol.VerifyExactly | src/unix_socket.rs:99-118 | `verify_or_rebind` returns Ok exactly for its own socket, left as it is, or for a free path that can be bound, where the old socket ends up closed |
| SocketProtocol.ProcessesFollow | src/unix_socket.rs:17-148 | in every run, what a process becomes at each of its steps, in terms of the path and the calls |
| SocketProtocol.ResumeEffect | src/unix_socket.rs:59-92 | `bind` takes the entry away if and only if the answer was stale and the entry is a socket with the probed id |
| SocketProtocol.StepKeepsInv | src/unix_socket.rs:17-148 | every step of every process and peer keeps: recorded ids match held live inodes, distinct processes hold distinct inodes |
| SocketProtocol.ReachableInv | src/unix_socket.rs:17-148 | the same in every reachable state, for any number of processes |
| SocketProtocol.WrongfulExactly | src/unix_socket.rs:59-147 | rebinding, error exits and drops never take away another owner's live socket; stale removal does so exactly when its process is exposed |
| SocketProtocol.ExposedExactly | src/unix_socket.rs:62-77 | a process becomes exposed exactly by a step that brings a live socket with the probed id to the path after the stale answer |
| SocketProtocol.HazardFreeRunsAreSafe | src/unix_socket.rs:59-147 | in every run without such a step no live socket of another owner is ever unlinked |
| SocketProtocol.PlainRunsAreSafe | src/unix_socket.rs:59-147 | so in every run without inode re-use under a probe, late listeners and moves to the path no process takes away a live socket it does not own |
| SocketProtocol.HazardsAreFatal | src/unix_socket.rs:67-77 | after every such step, resuming removes the live socket |
| SocketProtocol.MonitorLeavesOwnSocket | src/client.rs:142 | after Ok the path names the listener's own socket; on an error with another entry at the path that entry stays |
| SocketProtocol.MatchingEntryIsOwn | src/unix_socket.rs:100-107 | in every reachable state an entry that matches a listener's record is the inode it holds |
| SocketProtocol.OtherKindsAreRefused | src/unix_socket.rs:85-88 | a file, directory or symbolic link at the path is never removed, and `bind` fails on it |
| SocketProtocol.ReusedIdDefeatsProbe | src/unix_socket.rs:68-77 | a run of two bridge processes in which a re-used inode number makes one remove the other's live socket |
| SocketProtocol.LateListenerDefeatsProbe | src/unix_socket.rs:62-77 | a run in which a peer that listens after its bind loses its live socket |
| Watch.Receiver.Clone | src/client.rs:148 | a cloned receiver has seen what its original had seen |
| Watch.Receiver.Changed | src/relay.rs:30-34 | `changed()` completes for an unseen version or a dropped sender and marks the version as seen |
| Relay.CopyBuffer.Poll | src/relay.rs:27 | one poll of a direction performs exactly the specified move, or nothing if the streams do not allow it |
| Relay.MoveKeepsFaithful | src/relay.rs:27 | every move of a pump keeps: written and buffered bytes are the bytes read, in order, and counted; the sink is closed only after the end of the source |
| Relay.DoneDelivers | src/relay.rs:27-29 | a finished direction has delivered its whole source and counted it |
| Relay.Copying.Turn | src/relay.rs:26-35 | one poll of either direction, completion, cancellation, a failure or a peer's act is exactly the specified turn |
| Relay.Run | src/relay.rs:17-36 | against any schedule the relay leaves the streams, the signal and its result exactly as the specified play does |
| Relay.PlayedDelivers | src/relay.rs:17-36 | in every play each side holds a prefix of what the other sent, the end arrives last, Ok means everything was delivered and the counts are the lengths, and `Interrupted` only after a signal |
| Relay.EndsExactly | src/relay.rs:26-35 | after any schedule: a running relay ends with `Interrupted` exactly at a cancellation turn after a signal, with Ok exactly at a copying turn after both sinks are closed, and at no other turn but an error |
| Relay.CancellationEnds | src/relay.rs:30-34 | once a signal has been sent, the next turn of the cancellation branch ends the relay |
| Relay.CanComplete | src/relay.rs:27-29 | a running relay whose peers have ended can always be polled to Ok, with everything delivered |
| Chain.StepKeepsInv | src/relay.rs:17-36 | every step of either relay, of the nonce write or of an endpoint keeps all four hops faithful |
| Chain.InputsArePrefixes | src/agent.rs:187-196 | in every run the agent's input is a prefix of nonce and application output, the application's input a prefix of agent output |
| Chain.BytesConserved | src/relay.rs:26-35 | in every state of every run, failures and cancellations included: what an endpoint has been sent, followed by what is in transit, is exactly what the other has written (after the nonce) |
| Chain.EndsTrueExactly | src/relay.rs:26-35 | an endpoint sees an end of stream when the pump towards it is done or its relay has stopped; a pump that is done has delivered everything first; otherwise the end is true exactly if the other endpoint has ended and nothing is in transit |
| Chain.AppEndArrives | src/client.rs:84-111 | the step that brings the application its end, and when that end is true: exactly for the pump's last move, or for a stop with nothing in transit after the agent's end |
| Chain.AgentEndArrives | src/server.rs:74-91 | the same at the agent's side |
| Chain.CancelledClientCutsReply | src/client.rs:84-111 | a run in which a cancelled client ends the application's stream before the rest of the reply |
| Chain.BothOkDelivered | src/server.rs:83-87 | when both relays return Ok everything was delivered both ways and client and server report the same counts |
| Chain.OutputsAreWritten | src/relay.rs:27 | the streams from the endpoints hold exactly what these have written, in order |
| Chain.ProgressWorks | src/relay.rs:27 | every step of the bridge itself and every read of an endpoint lowers a measure of remaining work |
| Chain.NeverStuck | src/relay.rs:27 | with streams of any positive capacity: once both endpoints have ended, the bridge can go on until both relays have returned Ok, unless an endpoint leaves its own stream full, and then that endpoint can read |
| Chain.EveryScheduleDelivers | src/client.rs:84-88 | from every reachable state with both endpoints ended and no relay stopped, every schedule of the bridge's steps and the endpoints' reads is finite, however small the streams, and ends with both relays Ok and everything delivered and read |
| AcceptLoop.Listener.OnAccept | src/client.rs:143-152 | one accepted connection: a permit and a task with the next id and the loop's seen version, or a rejection at zero permits |
| AcceptLoop.Listener.Turn | src/client.rs:139-162 | each branch of the select, the drain and the task endings perform the specified transition |
| AcceptLoop.Listener.RunUntil | src/server.rs:122-145 | against any schedule the loop ends exactly where the state machine does; permits and unfinished sessions add up, and it has stopped only after a signal |
| AcceptLoop.PlayedKeepsInv | src/server.rs:122-145 | under any schedule the invariant holds: permits, ids in order, every session's seen version, aborts only at the end |
| AcceptLoop.StepKeepsPermits | src/server.rs:126-137 | every step, also a panic or an abort, keeps permits plus unfinished sessions |
| AcceptLoop.PermitsConserved | src/client.rs:133-155 | in every reachable state permits plus unfinished sessions equal the limit |
| AcceptLoop.RejectedOnlyWhenFull | src/client.rs:144-151 | a connection is rejected exactly when the limit of unfinished sessions is reached |
| AcceptLoop.LeavesAcceptingExactly | src/client.rs:139-156 | the loop stops accepting exactly when it sees the signal or its monitor fails; a failed accept changes nothing |
| AcceptLoop.SeesShutdownExactly | src/client.rs:141 | it can see the signal exactly from the first send, or the loss of the sender, on |
| AcceptLoop.JoinsExactly | src/client.rs:143-150 | a session joins exactly by an accept with a permit left, about to connect, with the loop's seen version |
| AcceptLoop.LeavesExactly | src/client.rs:155 | it leaves exactly by being reaped, after it has finished |
| AcceptLoop.SessionsFollow | src/client.rs:139-163 | how an unfinished session goes on: returned, panicked, aborted, on to another stage, or told to abort, each by exactly which events |
| AcceptLoop.RelaysToTheEnd | src/client.rs:83-111 | a session that relays never connects again |
| AcceptLoop.IdsDistinctExactly | src/client.rs:136-146 | ids are distinct up to 2^64 sessions and increasing below that, and no further |
| AcceptLoop.NoSessionMissesShutdown | src/client.rs:148 | once the signal is sent or its sender is gone, `changed()` is ready for every unfinished session |
| AcceptLoop.SignalStays | src/shutdown.rs:31-35 | and stays so for the rest of the run |
| AcceptLoop.SignalExactly | src/shutdown.rs:31-35 | the signal is ready exactly from the first send, or the loss of the sender, on |
| AcceptLoop.NothingSpawnedAfterwards | src/server.rs:140-145 | after the loop breaks no session is spawned and no id given out |
| AcceptLoop.DrainEndsOnTime | src/client.rs:158-162 | the loop returns when every session ever spawned has finished and all permits are back, or exactly ten seconds after it saw the signal |
| AcceptLoop.DrainTerminates | src/server.rs:140-145 | a measure of tasks, sessions and time that each drain step lowers: every schedule of them ends with the return, and until then one is possible |
| AcceptLoop.EndsOnceAllFinished | src/client.rs:158-161 | once every session has finished the loop can return at that very moment |
| AcceptLoop.PermitsReturn | src/client.rs:162 | after the return each session that ends gives back a permit, each one left can be aborted, and when none is left all permits are back |
| AcceptLoop.DrainBounded | src/client.rs:158-162 | in every reachable state the drain is within its ten seconds, and after the return every unfinished session has been told to abort |
| Retry.ReconnectBackoff.NextDelayWith | src/retry.rs:19-27 | the delay and the saturating counter |
| Retry.ReconnectBackoff.NextDelay | src/retry.rs:30-35 | full jitter: the draw itself is the delay |
| Retry.CapTable | src/retry.rs:20-25 | caps of 200, 400, 800, 1600, 3200 ms and then 5 s for ever |
| Retry.DrawIsDelay | src/retry.rs:26 | a draw within the cap is the delay itself, a larger one is cut to the cap |
| Retry.CapsNeverDecrease | src/retry.rs:20-26 | caps never decrease nor exceed 5 s, also once the u32 counter saturates |
| Retry.TotalDelayBounded | src/retry.rs:19-27 | the first n delays take at most the closed form, and exactly that for the jitter that picks each cap and no smaller one |
| Session.RelaySession | src/client.rs:68-112 | the retry loop with its backoff is exactly the specified session, and reads from the local stream exactly what its one relay reads |
| Session.SessionFollowsEnvironment | src/client.rs:76-111 | verdict and duration of each attempt, each delay and next start, and what the relay reads are what the environment makes them; the session is refused, relayed, exhausted or shut down exactly by what happened at its last attempt |
| Session.EverySessionIsOrderly | src/client.rs:76-111 | whatever the network, the jitter and the signal: every attempt starts and every sleep ends inside 60 s, no sleep outlasts the shutdown, an attempt comes only after a sleep, nothing follows a relay or a rejection |
| Session.WholeInTime | src/client.rs:23-24 | with exact timers the pre-relay phase is over before 75 s |
| Session.FourAttemptsAtLeast | src/client.rs:78-104 | if the network fails every attempt transiently and no signal comes, a session gives up only after at least four attempts, for every jitter and duration, and after exactly four when connection, handshake and jitter all take longest |
| Session.Round | src/client.rs:83-109 | one attempt and the relay or pause after it, exactly as specified; the relay starts at offset zero |
| Session.Pause | src/client.rs:94-105 | how the backoff ends: exhausted, shut down, or another attempt |
| Session.RelayedOnceAndLast | src/client.rs:83-111 | no replay: at most one relay, last whatever its outcome, at offset zero, after the one successful attempt |
| Session.EstablishTakes | src/client.rs:50-66 | an attempt takes at most 5 s + 10 s and succeeds exactly on a connect, a handshake and the ALPN protocol in time |
| Session.EstablishExactly | src/client.rs:38-66 | which failures are retried, which end the session, and how long an attempt takes, in terms of the network and the peer |
| Session.FourAttemptsFit | src/client.rs:23-24 | three longest attempts and delays leave time for a fourth to start, not for a fifth |
| Utf8.DecodesExactly | src/agent.rs:65-66 | the accepted bytes are exactly the encodings of texts |
| Text.TrimsExactly | src/agent.rs:67 | trimming removes exactly the white space at both ends |
| Text.AccumulatesExactly | src/agent.rs:71-73 | overflow-checked reading of digits accepts exactly the digit sequences whose value is in range |
| Agent.ParsesExactly | src/agent.rs:61-83 | a port and nonce are returned exactly for UTF-8 white space around an optional plus and digits of value 1 to 65535, followed by sixteen bytes |
| Agent.ParseFailsExactly | src/agent.rs:61-80 | with which error each other file is refused |
| Agent.PrintParses | src/agent.rs:219-232 | every printed port, padding and nonce parses back |
| Agent.ReadingIsUnique | src/agent.rs:61-83 | no file has two readings |
| Agent.LoadMetadata | src/agent.rs:85-118 | the bounded chunked read is exactly the reading of the whole contents, of at most 128 bytes, or the right failure; a truncated file is never parsed |
| Agent.LoadsExactly | src/agent.rs:85-118 | when loading succeeds and with what, and when it fails for the size or for a failing call |
| Agent.ConnectGpg4win | src/agent.rs:173-211 | ends with the first attempt that reaches the agent or fails at or after the deadline; Ok exactly if that attempt dialled an accepting port in time from a valid file and no write failed |
| Agent.TriesExactly | src/agent.rs:180-202 | what one attempt comes to and how long it takes, in terms of the file, the dial and the write |
| Agent.VerdictExactly | src/agent.rs:180-210 | the result that the last attempt decides, with the last error inside |
| Agent.StartIsTotal | src/agent.rs:178-206 | an attempt starts after all earlier attempts, delays and oversleeping, and no later |
| Agent.EndsInTime | src/agent.rs:178-206 | at most ceil(W / 200 ms) + 1 attempts, over before W + 200 ms + 5 s, the last load and nonce write, and what the sleep before it overslept |
| Agent.StartupAttempts |  src/agent.rs:164-166 | at most 76 attempts in the 15 s window of `connect_gpg4win` |
| Agent.MostAttempts | src/agent.rs:178-206 | and that many are made when every attempt fails at once and sleeps wake on time |
| Agent.ReachedFromOneRead | src/agent.rs:181-197 | nonce and dialled port come from the same complete valid file; a prefix of the nonce is sent, all of it unless writing fails |
| Tailscale.ParsesExactly | src/tailscale.rs:38-39 | an address is accepted exactly in its strict dotted-decimal form |
| Tailscale.ParsesIpv4Exactly | src/tailscale.rs:32-47 | the result for every output: one address exactly for one filled line that is its strict form; none; or several |
| Tailscale.MalformedLineIsNamed | src/tailscale.rs:37-41 | a malformed line takes precedence, and the first one is named |
| Tailscale.PrintParses | src/tailscale.rs:32-47 | a printed address with any blank padding is read back |
| Tailscale.LinesAreRead | src/tailscale.rs:33-34 | printed lines, with either line ending, are read back in order |
| Tailscale.PrintedLinesParse | src/tailscale.rs:32-47 | any printed list of blank lines and padded addresses gives the one address, none, or several |
| ServiceCommandLine.BuildArguments | contrib/windows/install-service.ps1:40-53 | the list built by repeated appending is the fifteen arguments of the service |
| ServiceCommandLine.SettingsArePassed | contrib/windows/install-service.ps1:40-53 | each setting stands behind its own option and behind no other |
| ServiceCommandLine.NameExactly | contrib/windows/install-service.ps1:55 | the executable comes back exactly if it holds no quote |
| ServiceCommandLine.ListExactly | contrib/windows/install-service.ps1:36-55 | exactly the surviving argument lists come back |
| ServiceCommandLine.RoundTripsExactly | contrib/windows/install-service.ps1:36-55 | the round trip of executable and arguments, if and only if |
| ServiceCommandLine.ServiceRoundTripsExactly | contrib/windows/install-service.ps1:40-55 | for the service's own list: exactly if no supplied value has a backslash before a quote or at its end |
| RenewalService.StepKeepsInv | src/windows_renewal_service.rs:84-155 | every step without a failing `try_wait` or `kill` keeps the service's invariant |
| RenewalService.AtMostOneChild | src/windows_renewal_service.rs:84-155 | at most one live child, the one waited for, and none when Stopped is reported |
| RenewalService.StopNeverLost | src/windows_renewal_service.rs:71-74 | a queued stop stays in the channel until the service leaves its loop |
| RenewalService.OneMoreChildAtMost | src/windows_renewal_service.rs:84-94 | after a stop at most one further child, and only if a renewal was about to start |
| RenewalService.StopsInFourSteps | src/windows_renewal_service.rs:84-96 | after a stop the service takes at most four more steps of its own |
| RenewalService.NeverStuck | src/windows_renewal_service.rs:84-96 | and can always take one until it has reported Stopped |
| RenewalService.AbandonedExactly | src/windows_renewal_service.rs:139-150 | a child is abandoned exactly by a failing `try_wait` or `kill` while it is alive |
| RenewalService.StopLostExactly | src/windows_renewal_service.rs:147-151 | a stop is consumed without leaving exactly when `kill` fails |
| RenewalService.FaultDoublesChildren | src/windows_renewal_service.rs:139-146 | one failing `try_wait` leads to two live children |
| RenewalService.TwoChildrenAfterFault | src/windows_renewal_service.rs:84-94 | the whole run from the start to two live children |
| RenewalService.Host.WaitForChild | src/windows_renewal_service.rs:134-156 | the polling loop stays where the script of stops, exits and failures leads, and returns what it leaves behind |
| RenewalService.Host.RunService | src/windows_renewal_service.rs:84-96 | the service loop ends exactly where the script leads, and reports Stopped exactly when it is out of its loop |
| RenewalService.NextPointExactly | src/windows_renewal_service.rs:84-155 | what each call of the service leads to, in terms of how it goes and of what has happened before it |
| RenewalService.ReportsExactly | src/windows_renewal_service.rs:96 | Stopped is reported exactly when the service is out of its loop |
| RenewalService.TakesOneStop | src/windows_renewal_service.rs:90-93 | a stop leaves the channel one at a time and exactly when the service takes it |
| RenewalService.SimulatedIsReachable | src/windows_renewal_service.rs:84-155 | whatever the script, that is a state on a run of the state machine, fault-free if no `try_wait` or `kill` fails |
| RenewalService.SimulatedIsSafe | src/windows_renewal_service.rs:84-155 | so without a fault no script leads to two children, to a lost stop, or to Stopped with a child alive or no stop asked |
| RenewalScript.RequestAndCheck | contrib/windows/renew-step-ca-server-certificate.ps1:38-72 | falls through exactly if the request and every check pass; the installed certificate is untouched |
| RenewalScript.SameNameExactly | contrib/windows/renew-step-ca-server-certificate.ps1:70 | two names match exactly if they differ at most in the case of letters |
| RenewalScript.InstallAndRestart | contrib/windows/renew-step-ca-server-certificate.ps1:74-77 | installs the checked certificate, and restarts only after the install |
| RenewalScript.Run | contrib/windows/renew-step-ca-server-certificate.ps1:22-91 | which runs install, restart and exit with 0, exactly, and over which certificate; other files stay, the temporary file goes |
| RenewalScript.RunPeriodically | src/windows_renewal_service.rs:84-94 | over any number of renewals, failing or killed anywhere: the installed certificate is that of the last one that installed, and every restart is accounted for |
| RenewalScript.InstalledIsChecked | contrib/windows/renew-step-ca-server-certificate.ps1:54-74 | so the installed certificate is the original or one that passed every check |
| RenewalScript.RestartsAreChecked | contrib/windows/renew-step-ca-server-certificate.ps1:74-76 | and every restart was over a checked certificate, at most one for each install |
| RenewalScript.FailingRunCanInstall | contrib/windows/renew-step-ca-server-certificate.ps1:74-84 | the input on which a failing run leaves a new certificate behind |
| RenewalScript.FailingRunInstalls | contrib/windows/renew-step-ca-server-certificate.ps1:74-91 | the run on it: exit with 1, the new certificate installed, no restart |

## Left out

- TLS handshakes, certificates and PEM parsing (src/tls.rs): foreign libraries; a handshake is an outcome followed by the ALPN comparison.
- System-call races inside one atomic block, such as between `symlink_metadata` and `remove_file`: the identity check is not designed for them.
- The permission bits of the socket: `chmod` and the mode check are only modelled as places where `bind_new` fails.
- Socket options, logging text, command-line options and their validation: one branch each.
- Service registration, service status calls and the Tailscale CLI: foreign calls.
- Chain.EndsTrueExactly: does not promise that every end of stream is true, because a session that stops drops its streams.
- The direct Unix agent backend of src/agent.rs:153-160: one connect; in `Chain` it is the agent with the empty nonce.
- `step`'s own output text and the wording of log lines and errors.
- install-server.ps1, request-step-ca-server-certificate.ps1, the Nix files and the systemd unit: installation of external tools.
