# watchfile-remote, modelled in Dafny

A model of the two daemons of `rust-watchfile-remote`, a dead-man's switch for
a home internet link:

- the **marker publisher** (`watchfile-remote-sender`) pushes a marker file to
  a remote directory over SFTP on a fixed cadence, choosing password or
  key-file authentication from a sentinel in its configuration, logging each
  failed transfer by category and never stopping on one;
- the **staleness monitor** (`watchfile-remote-receiver`) polls the local
  copy's modification time, sleeping long while UP and short while DOWN. It
  goes DOWN with a "down" e-mail when two consecutive reads are equal, and
  comes back UP with a "back up" e-mail when they differ again.

Files (one module each):

- `wrappers.dfy` (`Wrappers`): `Option`, `Result`.
- `text.dfy` (`Text`): which text an error line contains.
- `paths.dfy` (`Paths`): `Path::join` as it behaves on Unix, the final
  component of a path, and `Probe`, the outcome of `try_exists`.
- `receiver.dfy` (`Receiver`): the monitor.
  - `Transition` is the compare-and-notify step as a function.
  - `Loop` runs it over a finite sequence of reads, and `Process` adds the
    startup checks in front.
  - The class `Monitor` holds the mutable state `isUp` and `observed`.
  - `Poll` is `main`'s loop. It drives a `Monitor` and is proved equal to
    `Loop`. `Watch` is `main`, proved equal to `Process`.
- `transport.dfy` (`Transport`): `send_file_via_sftp`.
  - Each fallible call (connect, handshake, authenticate, create, open, close,
    …) is answered by an injected oracle `fault: Call -> Option<IoError>`.
  - The copy loop runs on a `LocalReader` (the local bytes and a read
    position) and a `RemoteHost` (the receiver's file map). It copies through
    a 1024-element `array<byte>` buffer, one `CopyPass` per pass.
  - Each pass of the loop is answered by an injected `Pass`: a read of some
    size, a failed read, or a failed write.
  - `SendOutcome` is what the transfer returns, as a function of the
    environment. `SendFile` is proved to return it.
- `sender.dfy` (`Sender`): the publisher's `main`: credential selection,
  startup checks, error classification and the publish loop.

What is proved, in the system's terms:

- The monitor:
  - It starts UP, holding the first read.
  - After every step it holds the value just read. It is UP exactly when that
    value differs from the one before, whatever the values are.
  - It sleeps `sleep_interval_up` while UP and `sleep_interval_down` while
    DOWN.
  - An alert fires exactly when the state changes. Over any sequence of reads
    the alerts go Down, Up, Down, … starting with Down, so no alert is ever
    sent twice in a row.
  - A failed read ends the run, and only a failed read does.
- The publisher:
  - `"use_ssh_keys"` selects key-file authentication with an empty
    passphrase. Any other string is used as the password, unchanged.
  - In key mode a missing key file stops startup before the loop. A missing
    marker stops it too.
  - The remote path keeps the marker's file name.
  - The calls made are the planned ones, in order, up to the first failure.
    That failure is the error returned. A failing read or write in the copy
    loop ends the transfer with its own error.
  - The copy loop writes between 1 and 1024 bytes per pass, exactly the bytes
    just read. It terminates on any file length, including lengths that are
    not a multiple of 1024. When no call, read or write fails, it leaves the
    remote file equal to the local bytes; when the copy loop fails, the remote
    file holds a prefix of them.
  - Every error kind falls in exactly one of five categories. Each attempt
    logs the category of its own transfer's error, and nothing when the
    transfer succeeds. A refused connection is logged as a closed port. No
    outcome ends the publish loop: every attempt is followed by the
    configured sleep.

## Model

| member | source | states |
|---|---|---|
| `Receiver.Initial` | src/bin/watchfile-remote-receiver.rs:152-162 | the state after the first successful read is UP and holds that read |
| `Receiver.SleepInterval` | src/bin/watchfile-remote-receiver.rs:173-177 | the sleep is `sleep_interval_up` when UP and `sleep_interval_down` when DOWN |
| `Receiver.Transition` | src/bin/watchfile-remote-receiver.rs:197-214 | the new observed value is the read; the new state is UP iff the read differs from the previous one; an alert fires iff the state changes; it is `Down(t)` iff UP and the read is equal, `Up(t)` iff DOWN and the read differs |
| `Receiver.MonitorMailsAlternate` | src/bin/watchfile-remote-receiver.rs:197-209 | the e-mails sent for the monitor's alerts alternate: the i-th has the "down" subject exactly when i is even, the "back up" subject exactly when i is odd |
| `Receiver.Compose` | src/bin/watchfile-remote-receiver.rs:199-207 | the down alert uses subject "Home Internet Service is Down!", the up alert "Home Internet Service is Back Up!"; the body is the matching prefix followed by the local time of the timestamp just read |
| `Receiver.StartupMessage` | src/bin/watchfile-remote-receiver.rs:140-156 | the line for a missing marker names its path; the line for a failed existence check ends with that check's error text |
| `Receiver.ReadFailureMessage` | src/bin/watchfile-remote-receiver.rs:187-191 | the line for a failed read inside the loop names the marker's path |
| `Receiver.Process` | src/bin/watchfile-remote-receiver.rs:132-215 | `main` starts its loop iff the marker exists and the first read succeeds; a missing marker aborts naming the joined path, a failed check or first read aborts with its own error; the loop starts from the initial state |
| `Receiver.StopMessage` | src/bin/watchfile-remote-receiver.rs:138-191 | the receiver writes a line when it stops iff startup failed or a read failed; a startup failure writes its own message, a failed read names the marker's path |
| `Receiver.LoopAlternates` | src/bin/watchfile-remote-receiver.rs:167-215 | over any sequence of reads the alerts alternate, starting opposite to the current state, and the final state equals the starting one iff an even number of alerts fired |
| `Receiver.MonitorAlternatesFromDown` | src/bin/watchfile-remote-receiver.rs:162-215 | started from the initial UP state, the alerts go Down, Up, Down, …; the first alert is Down |
| `Receiver.LoopFinalState` | src/bin/watchfile-remote-receiver.rs:187-214 | after any run of successful reads the monitor holds the last read and is UP iff the last two reads differ; one sleep was taken per read |
| `Receiver.LoopSplit` | src/bin/watchfile-remote-receiver.rs:167-215 | a run splits after any prefix of successful reads: the rest of the run starts from the state the prefix reached |
| `Receiver.SleepFollowsState` | src/bin/watchfile-remote-receiver.rs:173-182 | the k-th sleep is the interval chosen by the state reached after the first k reads |
| `Receiver.LoopStopsOnFailedRead` | src/bin/watchfile-remote-receiver.rs:187-192 | the run ends on a failed read iff some read fails; never more sleeps than reads |
| `Receiver.ScenarioDownThenUp` | src/bin/watchfile-remote-receiver.rs:197-209 | initial read 1000, then 1000 and 1050: sleeps up then down, alerts `Down(1000)` then `Up(1050)`, ending UP at 1050 |
| `Receiver.Monitor.constructor` | src/bin/watchfile-remote-receiver.rs:152-162 | a new monitor is in the initial state for the first read |
| `Receiver.Monitor.Step` | src/bin/watchfile-remote-receiver.rs:197-214 | the fields move as `Transition` says and the returned alert is its alert; afterwards `isUp` iff the read differs from the old `observed`, and `observed` is the read |
| `Receiver.Poll` | src/bin/watchfile-remote-receiver.rs:162-215 | the polling loop, driving a `Monitor` from its initial state, produces exactly the sleeps, alerts, final state and stop reason of `Loop` |
| `Receiver.Watch` | src/bin/watchfile-remote-receiver.rs:134-215 | `main` computes exactly `Process`; it starts the loop iff the marker exists and the first read succeeds; its alerts alternate starting with Down; it stops on a failed read iff one occurs |
| `Paths.Join` | src/bin/watchfile-remote-sender.rs:160-161 | an absolute name replaces the directory; otherwise the result is the directory, one separator when the directory is non-empty and does not end in one, then the name |
| `Paths.JoinKeepsFinalComponent` | src/bin/watchfile-remote-sender.rs:146-161 | joining any directory leaves the name's final component unchanged |
| `Transport.Address` | src/bin/watchfile-remote-sender.rs:32 | the address dialled is the server name followed by `:22` |
| `Transport.AuthFor` | src/bin/watchfile-remote-sender.rs:41-45 | `Some(pwd)` gives password authentication with `pwd`; `None` gives key-file authentication with the configured key and the empty passphrase; the username is passed through |
| `Transport.EstablishCalls` | src/bin/watchfile-remote-sender.rs:32-51 | the session starts by dialling `server:22`, authenticates fourth and creates the remote file sixth |
| `Transport.FirstFaultSpec` | src/bin/watchfile-remote-sender.rs:32-72 | a run of calls, each `?`-checked, fails iff one of its calls fails, and then with an error one of them raised |
| `Transport.FirstFaultOfLog` | src/bin/watchfile-remote-sender.rs:32-72 | calls made in order and stopped at the first failure return exactly the first fault of the planned calls |
| `Transport.ReadSize` | src/bin/watchfile-remote-sender.rs:60 | a read returns at most the buffer length and at most what remains, 0 only at end of file, and what the system offers when that fits |
| `Transport.CopyOutcomeSpec` | src/bin/watchfile-remote-sender.rs:59-65 | the copy loop fails only with the error of one of its passes, and succeeds when no pass fails |
| `Transport.Sequence` | src/bin/watchfile-remote-sender.rs:25-75 | stages run one after another: the result is `Ok` iff no stage fails, and otherwise the earliest failing stage's error, the third stage's (the teardown's) included |
| `Transport.RefusedDialIsTheError` | src/bin/watchfile-remote-sender.rs:32 | a refused connection is the transfer's error, whatever the later calls would do |
| `Transport.SendOutcomeClean` | src/bin/watchfile-remote-sender.rs:25-75 | with every planned call and every copy pass succeeding, the transfer returns `Ok` |
| `Transport.SendOutcomeErrorSource` | src/bin/watchfile-remote-sender.rs:25-75 | a failed transfer carries an error that one of the planned calls or one of the copy passes raised |
| `Transport.LocalReader.Read` | src/bin/watchfile-remote-sender.rs:60 | a read returns at most the buffer length and at most what remains, 0 only at end of file, advances the position by what it returned and puts exactly those bytes in the buffer |
| `Transport.RemoteHost.Create` | src/bin/watchfile-remote-sender.rs:51 | creating the remote file leaves it empty |
| `Transport.RemoteHost.Append` | src/bin/watchfile-remote-sender.rs:64 | `write_all` appends exactly the first `n` buffer bytes to that file and changes nothing else |
| `Transport.CopyPass` | src/bin/watchfile-remote-sender.rs:59-64 | one pass reads into the buffer and, when the read returned bytes, writes exactly those bytes; a failed read returns its error and writes nothing; a failed write returns its error; an empty read writes nothing |
| `Transport.CopyChunks` | src/bin/watchfile-remote-sender.rs:57-65 | every write carries 1 to 1024 bytes, and the writes, in order, are a prefix of the local bytes appended to the remote file; on success they are all of them; the loop stops at the first failing read or write, with that pass's error, and every earlier pass succeeded; the result is `CopyOutcome`'s |
| `Transport.Establish` | src/bin/watchfile-remote-sender.rs:32-51 | the calls made are the planned ones up to the first failure, whose error is returned; the remote file exists and is empty only when every call succeeded |
| `Transport.Upload` | src/bin/watchfile-remote-sender.rs:56-65 | the error is a failed open's, else the copy loop's first failing pass's; the remote file ends as a prefix of the local bytes, and as all of them when nothing failed |
| `Transport.Teardown` | src/bin/watchfile-remote-sender.rs:66-72 | close, shutdown, disconnect are made in order up to the first failure, whose error is returned |
| `Transport.Transfer` | src/bin/watchfile-remote-sender.rs:56-72 | open, copy, then close, shutdown, disconnect, stopping at the first failure, whose error is returned; only the remote file changes |
| `Transport.SendFile` | src/bin/watchfile-remote-sender.rs:25-75 | the calls are the plan's, in order, up to the first failure; the result is `SendOutcome`'s; only the remote file changes, and only after it was created; on `Ok` it holds exactly the local bytes |
| `Sender.Credential` | src/bin/watchfile-remote-sender.rs:125-141 | the result is `None` iff the password is `"use_ssh_keys"`, otherwise `Some` of the password unchanged |
| `Sender.Startup` | src/bin/watchfile-remote-sender.rs:125-161 | startup succeeds iff (in key mode the key exists) and the marker exists; a missing key in key mode aborts naming the key, a failed check aborts with its own error; a missing marker aborts naming the local path; on success the credential, local path and remote path are the ones `main` computes |
| `Sender.StartupKeepsFileName` | src/bin/watchfile-remote-sender.rs:146-161 | the remote path, the local path and the configured file name have the same final component |
| `Sender.StartupMessage` | src/bin/watchfile-remote-sender.rs:131-156 | the line for a missing key or marker names it; the line for a failed existence check ends with that check's error text |
| `Sender.Classify` | src/bin/watchfile-remote-sender.rs:183-189 | ConnectionRefused, ConnectionReset, TimedOut and Unsupported each have their own category (port closed, reset, timed out, unsupported), and every other kind is undefined, in both directions |
| `Sender.DiagnosticNamesServer` | src/bin/watchfile-remote-sender.rs:184-188 | every logged line names the server; the line for an uncategorised error ends with the error's own text |
| `Sender.DiagnosticNamesCategory` | src/bin/watchfile-remote-sender.rs:184-188 | two errors that log the same line against one server have the same category |
| `Sender.CycleOf` | src/bin/watchfile-remote-sender.rs:170-195 | a pass of the loop logs a line iff its transfer failed, that line being the failure's classified diagnostic, and always sleeps `sleep_interval` |
| `Sender.RefusedConnectionLogsClosedPort` | src/bin/watchfile-remote-sender.rs:170-195 | a refused dial gives that error, logs "Port 22 is closed on" the server, and still sleeps |
| `Sender.CleanAttemptLogsNothing` | src/bin/watchfile-remote-sender.rs:170-178 | a transfer in which nothing fails gives `Ok` and logs nothing |
| `Sender.CyclesOfAt` | src/bin/watchfile-remote-sender.rs:166-196 | the i-th cycle of the loop is the one the i-th attempt produces |
| `Sender.PublishOnce` | src/bin/watchfile-remote-sender.rs:170-195 | one pass of the loop produces `CycleOf` of its attempt; a successful one leaves the attempt's bytes as the remote marker; only the remote marker can change |
| `Sender.Publish` | src/bin/watchfile-remote-sender.rs:166-196 | one cycle per attempt, the loop's cycles being `CyclesOf` the attempts, so each `CycleOf` its own attempt, so each taking the configured sleep and logging exactly its own failure; after a final good attempt the remote file holds that attempt's bytes; no other remote file changes |
| `Sender.RunPublisher` | src/bin/watchfile-remote-sender.rs:116-196 | the publisher stops before its loop iff `Startup` fails, and then with that error and no remote change; otherwise each cycle is `CycleOf` its attempt under the credential and paths `Startup` computed; only the remote marker changes |

## Left out

- Configuration loading (`watchfilelib::load_toml_config`, TOML parsing): each daemon's configuration is an input value. src/watchfile-lib.rs is not part of this model.
- E-mail composition and delivery through lettre/SMTP. `Receiver.Compose` keeps the subjects and body texts as data. The From/Reply-To/To headers and the relay are not modelled.
- The model assumes a well-formed e-mail configuration. `send_email` unwraps the parsed From, Reply-To and To addresses, the built message and the `starttls_relay` transport. A malformed address or a rejected relay host panics there, which ends the monitor at its first alert before `is_internet` changes. `Loop` and `Watch` do not model that panic. Only the error that `mailer.send` returns is swallowed. No delivery outcome is an input to `Monitor.Step`, so a failed delivery cannot change the state.
- `unix_epoch_to_local_datetime_string` depends on the host's time zone. It is the parameter `localTime: nat -> string`.
- `get_file_date` (file metadata) becomes injected reads of type `Option<nat>`. `try_exists` becomes a `Probe` input.
- `thread::sleep` and real time: the chosen duration is recorded instead.
- The infinite loops are bounded by finite input sequences: the reads for the monitor, the attempts for the publisher.
- TCP, the SSH handshake and SFTP internals. Each library call is a `Call` whose outcome comes from the injected `fault` oracle.
- Cleanup performed by Rust destructors on the early-return paths. When a call fails, the code returns without closing the remote file or disconnecting. The model likewise makes no further calls.
- `Transport.CopyChunks`: the model assumes a failed `write_all` appended nothing. A real partial write before the error is not modelled. A read is answered by the schedule's pass, or by a full-buffer read once the schedule runs out. An interrupted read (`Read::read` on a `File` does not retry it) ends the transfer with its error, as a `ReadFails` pass does. An interrupted write is retried inside `write_all` and is not modelled.
- Timestamps are `u64` in the source and `nat` here. Only equality is used, so the width does not matter.
- `Paths.Join`: models Unix `Path::join` only. `display()` is taken as the identity on the (UTF-8) path text.
- `Paths.FinalComponent`: the text after the last `/`. It does not model `Path::file_name`'s handling of trailing separators, `.` or `..`.
- `Transport.ErrorKind`: names only the kinds the sender distinguishes, ConnectionRefused, ConnectionReset, TimedOut and Unsupported. It adds NotFound, which `File::open` yields. Every other kind is `OtherKind(name)`.
- The two daemons' process exit. Both stop with `return eprintln!(…)` from `main`, which exits with status 0. The model records why each daemon stopped (`StartupError`, `readFailed`) and the line it prints (`Sender.StartupMessage`, `Receiver.StopMessage`). It does not model an exit status.
- An absolute `watchfile_name` makes `Path::join` discard the directory, so the remote path is then the name itself (`Paths.Join`). The file name is still preserved (`Paths.JoinKeepsFinalComponent`).
