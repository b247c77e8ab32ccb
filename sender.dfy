/** The marker publisher (watchfile-remote-sender's `main`): choose the
    credential, check the key file and the marker exist, build the remote path,
    then push the marker on a fixed cadence forever, logging each failure by
    category and never stopping on one. */
module Sender {
  import opened Wrappers
  import opened Paths
  import opened Transport
  import opened Text

  datatype AppConfig = AppConfig(watchfileName: string, watchfileDir: string, sleepInterval: nat)

  datatype ReceiverConfig = ReceiverConfig(
    username: string,
    server: string,
    password: string,
    sshKey: string,
    dir: string)

  datatype Config = Config(app: AppConfig, receiver: ReceiverConfig)

  /** The configured password that selects key-file authentication. */
  const UseSshKeys: string := "use_ssh_keys"

  /** Why the publisher stopped before entering its loop. */
  datatype StartupError =
    | KeyMissing(keyPath: string)
    | KeyCheckFailed(detail: string)
    | MarkerMissing(path: string)
    | MarkerCheckFailed(detail: string)

  /** What the loop runs with once the startup checks pass. */
  datatype Launch = Launch(password: Option<string>, localPath: string, remotePath: string)

  /** How a failed attempt is reported. */
  datatype Category = PortClosed | ConnectionWasReset | TimeOut | NotSupported | Undefined

  /** What the environment does during one publish attempt: what the marker
      holds, how each transport call is answered, how the copy loop's reads
      and writes go. */
  datatype Attempt = Attempt(localBytes: seq<byte>, fault: Call -> Option<IoError>, schedule: seq<Pass>)

  /** What the publish loop produces over a sequence of attempts: one cycle
      per attempt, in order. */
  function CyclesOf(config: Config, launch: Launch, attempts: seq<Attempt>): (cs: seq<Cycle>)
    ensures |cs| == |attempts|
  {
    if attempts == [] then []
    else CyclesOf(config, launch, attempts[..|attempts| - 1]) + [CycleOf(config, launch, attempts[|attempts| - 1])]
  }

  /** The i-th cycle is the one the i-th attempt produces. */
  lemma {:induction false} CyclesOfAt(config: Config, launch: Launch, attempts: seq<Attempt>, i: nat)
    requires i < |attempts|
    ensures CyclesOf(config, launch, attempts)[i] == CycleOf(config, launch, attempts[i])
    decreases |attempts|
  {
    if i < |attempts| - 1 {
      var init := attempts[..|attempts| - 1];
      CyclesOfAt(config, launch, init, i);
      assert init[i] == attempts[i];
    }
  }

  /** The remote files are as before except, at most, the marker at `path`. */
  ghost predicate OnlyMarkerChanged(before: map<string, seq<byte>>, after: map<string, seq<byte>>, path: string)
  {
    || after == before
    || (path in after && after == before[path := after[path]])
  }

  /** Two passes that each change at most the marker change at most the
      marker together. */
  lemma OnlyMarkerChangedTwice(before: map<string, seq<byte>>, middle: map<string, seq<byte>>,
                               after: map<string, seq<byte>>, path: string)
    requires OnlyMarkerChanged(before, middle, path) && OnlyMarkerChanged(middle, after, path)
    ensures OnlyMarkerChanged(before, after, path)
  {
    if after != middle && middle != before {
      assert before[path := middle[path]][path := after[path]] == before[path := after[path]];
    }
  }

  lemma OnlyMarkerChangedFrames(before: map<string, seq<byte>>, after: map<string, seq<byte>>, path: string)
    requires OnlyMarkerChanged(before, after, path)
    ensures forall p :: p != path ==> (p in after <==> p in before)
    ensures forall p :: p != path && p in after ==> after[p] == before[p]
  {
  }

  /** One pass of the publish loop: the transfer's outcome, the line logged
      for a failure, the sleep taken afterwards. */
  datatype Cycle = Cycle(outcome: Result<(), IoError>, diagnostic: Option<string>, slept: nat)

  /** The sentinel selects key-file authentication (`None`); anything else is
      the password itself. */
  function Credential(password: string): (r: Option<string>)
    ensures r.None? <==> password == UseSshKeys
    ensures r.Some? ==> r.value == password
  {
    if password == UseSshKeys then None else Some(password)
  }

  /** The startup part of `main`: credential selection with the key-file check
      in key mode, the marker check, and the two paths. */
  function Startup(config: Config, keyProbe: Probe, markerProbe: Probe): (r: Result<Launch, StartupError>)
    ensures r.Ok? <==> (config.receiver.password == UseSshKeys ==> keyProbe == Present) && markerProbe == Present
    ensures config.receiver.password == UseSshKeys && keyProbe == Absent ==> r == Err(KeyMissing(config.receiver.sshKey))
    ensures config.receiver.password == UseSshKeys && keyProbe.ProbeFailed? ==> r == Err(KeyCheckFailed(keyProbe.detail))
    ensures (config.receiver.password == UseSshKeys ==> keyProbe == Present) && markerProbe == Absent
         ==> r == Err(MarkerMissing(Join(config.app.watchfileDir, config.app.watchfileName)))
    ensures (config.receiver.password == UseSshKeys ==> keyProbe == Present) && markerProbe.ProbeFailed?
         ==> r == Err(MarkerCheckFailed(markerProbe.detail))
    ensures r.Ok? ==> r.value.password == Credential(config.receiver.password)
    ensures r.Ok? ==> r.value.localPath == Join(config.app.watchfileDir, config.app.watchfileName)
    ensures r.Ok? ==> r.value.remotePath == Join(config.receiver.dir, config.app.watchfileName)
  {
    var password := Credential(config.receiver.password);
    if password.None? && keyProbe == Absent then Err(KeyMissing(config.receiver.sshKey))
    else if password.None? && keyProbe.ProbeFailed? then Err(KeyCheckFailed(keyProbe.detail))
    else
      match markerProbe
      case Absent => Err(MarkerMissing(Join(config.app.watchfileDir, config.app.watchfileName)))
      case ProbeFailed(detail) => Err(MarkerCheckFailed(detail))
      case Present => Ok(Launch(password, Join(config.app.watchfileDir, config.app.watchfileName),
                                Join(config.receiver.dir, config.app.watchfileName)))
  }

  /** The marker keeps its file name: the local and the remote path differ
      only in their directory. */
  lemma StartupKeepsFileName(config: Config, keyProbe: Probe, markerProbe: Probe)
    requires Startup(config, keyProbe, markerProbe).Ok?
    ensures var launch := Startup(config, keyProbe, markerProbe).value;
      FinalComponent(launch.remotePath) == FinalComponent(launch.localPath) == FinalComponent(config.app.watchfileName)
  {
    JoinKeepsFinalComponent(config.app.watchfileDir, config.app.watchfileName);
    JoinKeepsFinalComponent(config.receiver.dir, config.app.watchfileName);
  }

  /** The line written to standard error when the publisher stops early: it
      names the missing file, or ends with the failed check's own text. */
  function StartupMessage(e: StartupError): (m: string)
    ensures e.KeyMissing? ==> Mentions(m, e.keyPath)
    ensures e.MarkerMissing? ==> Mentions(m, e.path)
    ensures e.KeyCheckFailed? || e.MarkerCheckFailed? ==> EndsWith(m, e.detail)
  {
    match e
    case KeyMissing(keyPath) =>
      MentionsInside("The configured SSH key (", keyPath, ") does not exist");
      "The configured SSH key (" + keyPath + ") does not exist"
    case KeyCheckFailed(detail) => "Error checking SSH key existence: " + detail
    case MarkerMissing(path) =>
      MentionsInside("The local filepath ", path, " does not exist");
      "The local filepath " + path + " does not exist"
    case MarkerCheckFailed(detail) => "Error checking local file existence: " + detail
  }

  /** Every error kind falls in exactly one category; four kinds have their
      own, all others are undefined. */
  function Classify(kind: ErrorKind): (c: Category)
    ensures c == PortClosed <==> kind == ConnectionRefused
    ensures c == ConnectionWasReset <==> kind == ConnectionReset
    ensures c == TimeOut <==> kind == TimedOut
    ensures c == NotSupported <==> kind == Unsupported
    ensures c == Undefined <==> !(kind == ConnectionRefused || kind == ConnectionReset || kind == TimedOut || kind == Unsupported)
  {
    match kind
    case ConnectionRefused => PortClosed
    case ConnectionReset => ConnectionWasReset
    case TimedOut => TimeOut
    case Unsupported => NotSupported
    case _ => Undefined
  }

  /** The line logged for a failed attempt against `server`. */
  function Diagnostic(e: IoError, server: string): string
  {
    match Classify(e.kind)
    case PortClosed => "Port 22 is closed on " + server
    case ConnectionWasReset => "Connection reset by " + server
    case TimeOut => "Transactions with " + server + " timed out"
    case NotSupported => "Transactions with " + server + " are unsupported"
    case Undefined => "An undefined error occurred attempting to transact with " + server + ": " + e.detail
  }

  /** Every logged line names the server, and an uncategorised error's line
      ends with the error's own text. */
  lemma DiagnosticNamesServer(e: IoError, server: string)
    ensures Mentions(Diagnostic(e, server), server)
    ensures Classify(e.kind) == Undefined ==> EndsWith(Diagnostic(e, server), e.detail)
  {
    match Classify(e.kind)
    case PortClosed => MentionsAtEnd("Port 22 is closed on ", server);
    case ConnectionWasReset => MentionsAtEnd("Connection reset by ", server);
    case TimeOut => MentionsInside("Transactions with ", server, " timed out");
    case NotSupported => MentionsInside("Transactions with ", server, " are unsupported");
    case Undefined =>
      var prefix := "An undefined error occurred attempting to transact with ";
      MentionsInside(prefix, server, ": " + e.detail);
      assert prefix + server + ": " + e.detail == prefix + server + (": " + e.detail);
      EndsWithAppend(prefix + server + ": ", e.detail);
  }

  /** The logged line tells the category apart: two errors against the same
      server that log the same line fall in the same category. */
  lemma DiagnosticNamesCategory(e1: IoError, e2: IoError, server: string)
    requires Diagnostic(e1, server) == Diagnostic(e2, server)
    ensures Classify(e1.kind) == Classify(e2.kind)
  {
  }

  /** What one pass of the publish loop produces for an attempt: the
      transfer's own outcome, the classified line for a failure and nothing
      for a success, and the configured sleep. */
  function CycleOf(config: Config, launch: Launch, a: Attempt): (c: Cycle)
    ensures c.slept == config.app.sleepInterval
    ensures c.diagnostic.None? <==> c.outcome.Ok?
    ensures c.outcome.Err? ==> c.diagnostic == Some(Diagnostic(c.outcome.error, config.receiver.server))
  {
    var outcome := SendOutcome(config.receiver.server, config.receiver.username, launch.password,
                               config.receiver.sshKey, launch.localPath, launch.remotePath,
                               a.localBytes, a.fault, a.schedule);
    Cycle(outcome, if outcome.Err? then Some(Diagnostic(outcome.error, config.receiver.server)) else None,
          config.app.sleepInterval)
  }

  /** A receiver that refuses the connection is logged as a closed port, and
      the loop carries on to its sleep. */
  lemma RefusedConnectionLogsClosedPort(config: Config, launch: Launch, a: Attempt, e: IoError)
    requires a.fault(TcpConnect(Address(config.receiver.server))) == Some(e) && e.kind == ConnectionRefused
    ensures CycleOf(config, launch, a).outcome == Err(e)
    ensures CycleOf(config, launch, a).diagnostic == Some("Port 22 is closed on " + config.receiver.server)
    ensures CycleOf(config, launch, a).slept == config.app.sleepInterval
  {
    RefusedDialIsTheError(config.receiver.server, config.receiver.username, launch.password,
                          config.receiver.sshKey, launch.localPath, launch.remotePath,
                          a.localBytes, a.fault, a.schedule, e);
  }

  /** An attempt in which every call and every pass of the copy loop
      succeeds logs nothing. */
  lemma CleanAttemptLogsNothing(config: Config, launch: Launch, a: Attempt)
    requires var plan := Plan(config.receiver.server, config.receiver.username, launch.password,
                              config.receiver.sshKey, launch.localPath, launch.remotePath);
      forall j :: 0 <= j < |plan| ==> a.fault(plan[j]).None?
    requires Clean(a.schedule)
    ensures CycleOf(config, launch, a).outcome == Ok(())
    ensures CycleOf(config, launch, a).diagnostic == None
  {
    SendOutcomeClean(config.receiver.server, config.receiver.username, launch.password,
                     config.receiver.sshKey, launch.localPath, launch.remotePath,
                     a.localBytes, a.fault, a.schedule);
  }

  /** One pass of the publish loop: send the marker, log a failure by its
      category, sleep. Only the remote marker can change. */
  method PublishOnce(config: Config, launch: Launch, host: RemoteHost, a: Attempt) returns (cycle: Cycle)
    modifies host
    ensures cycle == CycleOf(config, launch, a)
    ensures cycle.outcome.Ok? ==> host.files == old(host.files)[launch.remotePath := a.localBytes]
    ensures OnlyMarkerChanged(old(host.files), host.files, launch.remotePath)
  {
    var outcome, _ := SendFile(config.receiver.server, config.receiver.username, launch.password,
                               config.receiver.sshKey, launch.localPath, launch.remotePath,
                               a.localBytes, host, a.fault, a.schedule);
    var diagnostic := if outcome.Err? then Some(Diagnostic(outcome.error, config.receiver.server)) else None;
    // thread::sleep(sleep_interval)
    cycle := Cycle(outcome, diagnostic, config.app.sleepInterval);
  }

  /** The publish loop, bounded by a finite sequence of attempts: each attempt
      sends the marker, logs a failure by category, and sleeps; no outcome
      ends the loop. */
  method Publish(config: Config, launch: Launch, host: RemoteHost, attempts: seq<Attempt>)
    returns (cycles: seq<Cycle>)
    modifies host
    ensures |cycles| == |attempts|
    ensures cycles == CyclesOf(config, launch, attempts)
    // the last successful attempt left its marker bytes on the receiver
    ensures |cycles| > 0 && cycles[|cycles| - 1].outcome.Ok?
        ==> launch.remotePath in host.files && host.files[launch.remotePath] == attempts[|attempts| - 1].localBytes
    // no other remote file is touched
    ensures forall p :: p != launch.remotePath ==> (p in host.files <==> p in old(host.files))
    ensures forall p :: p != launch.remotePath && p in host.files ==> host.files[p] == old(host.files)[p]
  {
    cycles := [];
    var i := 0;
    while i < |attempts|
      invariant 0 <= i <= |attempts| && |cycles| == i
      invariant cycles == CyclesOf(config, launch, attempts[..i])
      invariant i > 0 && cycles[i - 1].outcome.Ok?
        ==> launch.remotePath in host.files && host.files[launch.remotePath] == attempts[i - 1].localBytes
      invariant OnlyMarkerChanged(old(host.files), host.files, launch.remotePath)
    {
      ghost var files := host.files;
      var cycle := PublishOnce(config, launch, host, attempts[i]);
      OnlyMarkerChangedTwice(old(host.files), files, host.files, launch.remotePath);
      cycles := cycles + [cycle];
      assert attempts[..i + 1][..i] == attempts[..i];
      i := i + 1;
    }
    assert attempts[..i] == attempts;
    OnlyMarkerChangedFrames(old(host.files), host.files, launch.remotePath);
  }

  /** The publisher's `main` after configuration loading: startup checks, then
      the publish loop over the given attempts. */
  method RunPublisher(config: Config, keyProbe: Probe, markerProbe: Probe, host: RemoteHost, attempts: seq<Attempt>)
    returns (r: Result<seq<Cycle>, StartupError>)
    modifies host
    ensures Startup(config, keyProbe, markerProbe).Err? <==> r.Err?
    ensures r.Err? ==> r.error == Startup(config, keyProbe, markerProbe).error && host.files == old(host.files)
    ensures r.Ok? ==> |r.value| == |attempts|
    // the loop runs with the credential and the paths startup computed
    ensures r.Ok? ==> r.value == CyclesOf(config, Startup(config, keyProbe, markerProbe).value, attempts)
    ensures r.Ok? && |r.value| > 0 && r.value[|r.value| - 1].outcome.Ok? ==>
      var remotePath := Join(config.receiver.dir, config.app.watchfileName);
      remotePath in host.files && host.files[remotePath] == attempts[|attempts| - 1].localBytes
    ensures var remotePath := Join(config.receiver.dir, config.app.watchfileName);
      forall p :: p != remotePath ==> (p in host.files <==> p in old(host.files))
    ensures var remotePath := Join(config.receiver.dir, config.app.watchfileName);
      forall p :: p != remotePath && p in host.files ==> host.files[p] == old(host.files)[p]
  {
    var start := Startup(config, keyProbe, markerProbe);
    if start.Err? {
      return Err(start.error);
    }
    var cycles := Publish(config, start.value, host, attempts);
    r := Ok(cycles);
  }
}
