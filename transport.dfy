/** The secure transport client (`send_file_via_sftp`): connect on port 22,
    authenticate, create the remote file, stream the local file into it through
    a 1024-byte buffer, then close everything. Every transport call may fail
    with an I/O error; the first failure is returned and nothing is retried. */
module Transport {
  import opened Wrappers

  newtype byte = b: int | 0 <= b < 256

  /** Size of the copy buffer (`vec![0; 1024]`). */
  const BufferSize: nat := 1024

  /** The `std::io::ErrorKind`s the sender tells apart, plus the one `File::open`
      yields for a missing file; every other kind is `OtherKind`. */
  datatype ErrorKind =
    | ConnectionRefused
    | ConnectionReset
    | TimedOut
    | Unsupported
    | NotFound
    | OtherKind(name: string)

  /** An `io::Error`: its kind and its displayed text. */
  datatype IoError = IoError(kind: ErrorKind, detail: string)

  /** The two ways the session authenticates. */
  datatype Auth =
    | PasswordAuth(username: string, password: string)
    | KeyFileAuth(username: string, keyPath: string, passphrase: string)

  /** The fallible calls the client makes on the network, the SSH library and
      the local file system, in the order it makes them. */
  datatype Call =
    | TcpConnect(address: string)
    | NewSession
    | Handshake
    | Authenticate(auth: Auth)
    | OpenSftp
    | CreateRemote(path: string)
    | OpenLocal(path: string)
    | CloseRemote
    | ShutdownSftp
    | Disconnect

  /** What the environment does on one pass of the copy loop: the read returns
      up to `want` bytes, or the read fails, or the read succeeds and the
      following `write_all` fails. */
  datatype Pass =
    | Deliver(want: nat)
    | ReadFails(error: IoError)
    | WriteFails(want: nat, error: IoError)

  /** The address dialled: the server name on the secure-shell port. */
  function Address(server: string): (a: string)
    ensures |a| == |server| + 3 && a[..|server|] == server && a[|server|..] == ":22"
  {
    server + ":22"
  }

  /** `Some(pwd)` authenticates with the password; `None` with the private-key
      file and an empty passphrase. */
  function AuthFor(username: string, password: Option<string>, sshKey: string): (a: Auth)
    ensures a.username == username
    ensures a.PasswordAuth? <==> password.Some?
    ensures password.Some? ==> a.password == password.value
    ensures password.None? ==> a.keyPath == sshKey && a.passphrase == ""
  {
    match password
    case Some(pwd) => PasswordAuth(username, pwd)
    case None => KeyFileAuth(username, sshKey, "")
  }

  /** The calls that open the session and create the remote file, in order. */
  function EstablishCalls(server: string, username: string, password: Option<string>, sshKey: string,
                          remotePath: string): (calls: seq<Call>)
    ensures |calls| == 6
    ensures calls[0] == TcpConnect(Address(server))
    ensures calls[3] == Authenticate(AuthFor(username, password, sshKey))
    ensures calls[5] == CreateRemote(remotePath)
  {
    [TcpConnect(Address(server)), NewSession, Handshake, Authenticate(AuthFor(username, password, sshKey)),
     OpenSftp, CreateRemote(remotePath)]
  }

  /** The calls made after the copy loop, in order. */
  const TeardownCalls: seq<Call> := [CloseRemote, ShutdownSftp, Disconnect]

  /** The calls made once the remote file exists: open the local file,
      then the teardown. */
  function TransferCalls(localPath: string): (calls: seq<Call>)
    ensures |calls| == 4 && calls[0] == OpenLocal(localPath) && calls[1..] == TeardownCalls
  {
    [OpenLocal(localPath)] + TeardownCalls
  }

  /** Every call `send_file_via_sftp` makes when nothing fails, in order:
      the session set-up, the local open, the teardown. */
  function Plan(server: string, username: string, password: Option<string>, sshKey: string,
                localPath: string, remotePath: string): (calls: seq<Call>)
    ensures |calls| == 10
    ensures calls[..6] == EstablishCalls(server, username, password, sshKey, remotePath)
    ensures calls[6] == OpenLocal(localPath) && calls[7..] == TeardownCalls
  {
    EstablishCalls(server, username, password, sshKey, remotePath) + TransferCalls(localPath)
  }

  /** The error a pass of the copy loop fails with, if it fails. */
  function PassError(step: Pass): Option<IoError>
  {
    match step
    case Deliver(_) => None
    case ReadFails(e) => Some(e)
    case WriteFails(_, e) => Some(e)
  }

  /** The error of a failed outcome, if it failed. */
  function ErrorOf(r: Result<(), IoError>): (e: Option<IoError>)
    ensures e.Some? <==> r.Err?
    ensures r.Err? ==> e.value == r.error
  {
    if r.Err? then Some(r.error) else None
  }

  /** No pass of the copy loop fails. */
  predicate Clean(schedule: seq<Pass>)
  {
    forall i :: 0 <= i < |schedule| ==> schedule[i].Deliver?
  }

  /** The bytes of consecutive writes, in order. */
  function Flatten(chunks: seq<seq<byte>>): seq<byte>
  {
    if chunks == [] then [] else Flatten(chunks[..|chunks| - 1]) + chunks[|chunks| - 1]
  }

  lemma FlattenSnoc(chunks: seq<seq<byte>>, c: seq<byte>)
    ensures Flatten(chunks + [c]) == Flatten(chunks) + c
  {
    assert (chunks + [c])[..|chunks|] == chunks;
  }

  lemma PrefixOfConcat<T>(a: seq<T>, b: seq<T>, n: nat)
    requires n <= |b|
    ensures (a + b)[..|a| + n] == a + b[..n]
  {
  }

  /** The first error the environment raises over `calls`, made in order. */
  function FirstFault(calls: seq<Call>, fault: Call -> Option<IoError>): Option<IoError>
  {
    if calls == [] then None
    else if fault(calls[0]).Some? then fault(calls[0])
    else FirstFault(calls[1..], fault)
  }

  /** A run of calls fails iff one of them fails, and then with an error one
      of them raised. */
  lemma {:induction false} FirstFaultSpec(calls: seq<Call>, fault: Call -> Option<IoError>)
    ensures FirstFault(calls, fault).None? <==> forall j :: 0 <= j < |calls| ==> fault(calls[j]).None?
    ensures FirstFault(calls, fault).Some? ==> exists j :: 0 <= j < |calls| && fault(calls[j]) == FirstFault(calls, fault)
  {
    if calls != [] && fault(calls[0]).None? {
      FirstFaultSpec(calls[1..], fault);
      assert forall j :: 1 <= j < |calls| ==> calls[j] == calls[1..][j - 1];
    }
  }

  /** A call sequence stopped at its first failure: the calls made are a
      prefix of `calls`, all but the last succeeded, and `e` is the last one's
      error, or none when all of `calls` were made and succeeded. Then `e` is
      `calls`'s first fault. */
  lemma {:induction false} FirstFaultOfLog(calls: seq<Call>, fault: Call -> Option<IoError>,
                                           log: seq<Call>, e: Option<IoError>)
    requires 0 < |log| <= |calls| && log == calls[..|log|]
    requires forall j :: 0 <= j < |log| - 1 ==> fault(log[j]).None?
    requires e.Some? ==> fault(log[|log| - 1]) == e
    requires e.None? ==> log == calls && fault(log[|log| - 1]).None?
    ensures e == FirstFault(calls, fault)
    decreases |log|
  {
    if |log| > 1 {
      assert fault(calls[0]).None?;
      assert log[1..] == calls[1..][..|log| - 1];
      FirstFaultOfLog(calls[1..], fault, log[1..], e);
    } else if e.None? {
      assert calls == [log[0]] && calls[1..] == [];
    }
  }

  /** The size `Read::read` returns from a buffer of `capacity` bytes with
      `remaining` bytes left in the file: what the operating system offers
      (`want`), clamped to at least 1 and at most what fits and what is left;
      0 only at end of file or for an empty buffer. */
  function ReadSize(want: nat, capacity: nat, remaining: nat): (n: nat)
    ensures n <= capacity && n <= remaining
    ensures n == 0 <==> remaining == 0 || capacity == 0
    ensures 0 < want <= capacity && want <= remaining ==> n == want
  {
    var m := if want <= capacity && want <= remaining then want
             else if capacity <= remaining then capacity else remaining;
    if m == 0 && remaining > 0 && capacity > 0 then 1 else m
  }

  /** The pass of the copy loop numbered `k`: once the schedule runs out,
      every read returns a full buffer and every write succeeds. */
  function PassAt(schedule: seq<Pass>, k: nat): (step: Pass)
    ensures k < |schedule| ==> step == schedule[k]
    ensures k >= |schedule| ==> step == Deliver(BufferSize)
  {
    if k < |schedule| then schedule[k] else Deliver(BufferSize)
  }

  /** The outcome of the copy loop from pass `k` on, with `remaining` bytes
      still to read: the first failing read, or the first failing write of a
      non-empty chunk, is the error; a read of 0 bytes ends the loop
      successfully. */
  function CopyOutcome(remaining: nat, schedule: seq<Pass>, k: nat): Result<(), IoError>
    decreases remaining
  {
    var step := PassAt(schedule, k);
    if step.ReadFails? then Err(step.error)
    else
      var n := ReadSize(step.want, BufferSize, remaining);
      if n == 0 then Ok(())
      else if step.WriteFails? then Err(step.error)
      else CopyOutcome(remaining - n, schedule, k + 1)
  }

  /** The copy loop fails only with the error of one of its passes, and
      succeeds when none of its passes fails. */
  lemma {:induction false} CopyOutcomeSpec(remaining: nat, schedule: seq<Pass>, k: nat)
    ensures CopyOutcome(remaining, schedule, k).Err? ==>
      exists j :: k <= j < |schedule| && PassError(schedule[j]) == Some(CopyOutcome(remaining, schedule, k).error)
    ensures (forall j :: k <= j < |schedule| ==> schedule[j].Deliver?) ==> CopyOutcome(remaining, schedule, k).Ok?
    decreases remaining
  {
    var step := PassAt(schedule, k);
    if !step.ReadFails? {
      var n := ReadSize(step.want, BufferSize, remaining);
      if n > 0 && step.Deliver? {
        CopyOutcomeSpec(remaining - n, schedule, k + 1);
      }
    }
  }

  /** The outcome of three stages run one after the other, each only when
      the ones before it succeeded: the first stage's error, if any, wins. */
  function Sequence(first: Option<IoError>, second: Option<IoError>, third: Option<IoError>): (r: Result<(), IoError>)
    ensures r.Ok? <==> first.None? && second.None? && third.None?
    ensures first.Some? ==> r == Err(first.value)
    ensures first.None? && second.Some? ==> r == Err(second.value)
    ensures first.None? && second.None? && third.Some? ==> r == Err(third.value)
  {
    if first.Some? then Err(first.value)
    else if second.Some? then Err(second.value)
    else if third.Some? then Err(third.value)
    else Ok(())
  }

  /** The error of opening the local file and copying it: a failing open,
      else the copy loop's first failing pass. */
  function UploadError(localPath: string, localBytes: seq<byte>, fault: Call -> Option<IoError>,
                       schedule: seq<Pass>): Option<IoError>
  {
    if fault(OpenLocal(localPath)).Some? then fault(OpenLocal(localPath))
    else ErrorOf(CopyOutcome(|localBytes|, schedule, 0))
  }

  /** What `send_file_via_sftp` returns: the first failing call of the
      session set-up, else a failing open of the local file or the copy
      loop's error, else the first failing call of the teardown, else `Ok`. */
  function SendOutcome(server: string, username: string, password: Option<string>, sshKey: string,
                       localPath: string, remotePath: string, localBytes: seq<byte>,
                       fault: Call -> Option<IoError>, schedule: seq<Pass>): Result<(), IoError>
  {
    Sequence(FirstFault(EstablishCalls(server, username, password, sshKey, remotePath), fault),
             UploadError(localPath, localBytes, fault, schedule),
             FirstFault(TeardownCalls, fault))
  }

  /** A refused connection is the transfer's error: nothing after the dial
      is attempted. */
  lemma RefusedDialIsTheError(server: string, username: string, password: Option<string>, sshKey: string,
                              localPath: string, remotePath: string, localBytes: seq<byte>,
                              fault: Call -> Option<IoError>, schedule: seq<Pass>, e: IoError)
    requires fault(TcpConnect(Address(server))) == Some(e)
    ensures SendOutcome(server, username, password, sshKey, localPath, remotePath, localBytes, fault, schedule) == Err(e)
  {
    assert EstablishCalls(server, username, password, sshKey, remotePath)[0] == TcpConnect(Address(server));
  }

  /** With every planned call and every pass of the copy loop succeeding,
      the transfer succeeds. */
  lemma SendOutcomeClean(server: string, username: string, password: Option<string>, sshKey: string,
                         localPath: string, remotePath: string, localBytes: seq<byte>,
                         fault: Call -> Option<IoError>, schedule: seq<Pass>)
    requires var plan := Plan(server, username, password, sshKey, localPath, remotePath);
      forall j :: 0 <= j < |plan| ==> fault(plan[j]).None?
    requires Clean(schedule)
    ensures SendOutcome(server, username, password, sshKey, localPath, remotePath, localBytes, fault, schedule) == Ok(())
  {
    var establish := EstablishCalls(server, username, password, sshKey, remotePath);
    var plan := Plan(server, username, password, sshKey, localPath, remotePath);
    assert forall j :: 0 <= j < |establish| ==> establish[j] == plan[j];
    assert plan[6] == OpenLocal(localPath);
    assert forall j :: 0 <= j < |TeardownCalls| ==> TeardownCalls[j] == plan[7 + j];
    FirstFaultSpec(establish, fault);
    FirstFaultSpec(TeardownCalls, fault);
    CopyOutcomeSpec(|localBytes|, schedule, 0);
  }

  /** A failed transfer carries an error the environment raised: one of the
      planned calls' or one of the copy loop's passes'. */
  lemma SendOutcomeErrorSource(server: string, username: string, password: Option<string>, sshKey: string,
                               localPath: string, remotePath: string, localBytes: seq<byte>,
                               fault: Call -> Option<IoError>, schedule: seq<Pass>)
    requires SendOutcome(server, username, password, sshKey, localPath, remotePath, localBytes, fault, schedule).Err?
    ensures var plan := Plan(server, username, password, sshKey, localPath, remotePath);
      var e := SendOutcome(server, username, password, sshKey, localPath, remotePath, localBytes, fault, schedule).error;
      || (exists j :: 0 <= j < |plan| && fault(plan[j]) == Some(e))
      || (exists j :: 0 <= j < |schedule| && PassError(schedule[j]) == Some(e))
  {
    var establish := EstablishCalls(server, username, password, sshKey, remotePath);
    var plan := Plan(server, username, password, sshKey, localPath, remotePath);
    assert forall j :: 0 <= j < |establish| ==> establish[j] == plan[j];
    assert plan[6] == OpenLocal(localPath);
    assert forall j :: 0 <= j < |TeardownCalls| ==> TeardownCalls[j] == plan[7 + j];
    FirstFaultSpec(establish, fault);
    FirstFaultSpec(TeardownCalls, fault);
    CopyOutcomeSpec(|localBytes|, schedule, 0);
  }

  /** An open local file: its bytes and the read position. */
  class LocalReader {
    const bytes: seq<byte>
    var pos: nat

    ghost predicate Valid()
      reads this
    {
      pos <= |bytes|
    }

    constructor (bytes: seq<byte>)
      ensures this.bytes == bytes && pos == 0 && Valid()
    {
      this.bytes := bytes;
      pos := 0;
    }

    /** `Read::read` into `buffer`: it returns some `n` between 1 and the
        smaller of the buffer length and what remains (`want`, clamped into
        that range, is the size the operating system happens to return), and
        0 only at end of file (or for an empty buffer). */
    method Read(buffer: array<byte>, want: nat) returns (n: nat)
      requires Valid()
      modifies this, buffer
      ensures Valid()
      ensures n <= buffer.Length && n <= |bytes| - old(pos)
      ensures n == 0 <==> old(pos) == |bytes| || buffer.Length == 0
      ensures pos == old(pos) + n
      ensures buffer[..n] == bytes[old(pos)..pos]
      ensures n == ReadSize(want, buffer.Length, |bytes| - old(pos))
    {
      n := ReadSize(want, buffer.Length, |bytes| - pos);
      var start := pos;
      forall i | 0 <= i < n {
        buffer[i] := bytes[start + i];
      }
      pos := pos + n;
    }
  }

  /** The receiving host's file system as seen through SFTP. */
  class RemoteHost {
    var files: map<string, seq<byte>>

    constructor (files: map<string, seq<byte>>)
      ensures this.files == files
    {
      this.files := files;
    }

    /** `sftp.create`: an empty file at `path`, replacing any old one. */
    method Create(path: string)
      modifies this
      ensures files == old(files)[path := []]
    {
      files := files[path := []];
    }

    /** `write_all(&buffer[..n])` on the file at `path`. */
    method Append(path: string, buffer: array<byte>, n: nat)
      requires path in files && n <= buffer.Length
      modifies this
      ensures files == old(files)[path := old(files)[path] + buffer[..n]]
    {
      files := files[path := files[path] + buffer[..n]];
    }
  }

  /** One pass of the copy loop: a read into the buffer and, when it
      returned bytes, the write of exactly those bytes to `path`. `n` is the
      count the read returned (0 when it failed), `failed` the error of the
      failing call. */
  method CopyPass(local: LocalReader, host: RemoteHost, path: string, buffer: array<byte>, step: Pass)
    returns (n: nat, failed: Option<IoError>)
    requires local.Valid() && path in host.files && buffer.Length == BufferSize
    modifies local, host, buffer
    ensures local.Valid() && local.pos == old(local.pos) + n && n <= BufferSize
    ensures buffer[..n] == local.bytes[old(local.pos)..local.pos]
    ensures step.ReadFails? ==> n == 0 && failed == Some(step.error)
    ensures !step.ReadFails? ==> n == ReadSize(step.want, BufferSize, |local.bytes| - old(local.pos))
    ensures !step.ReadFails? ==> failed == if n > 0 && step.WriteFails? then Some(step.error) else None
    ensures failed.None? && n > 0 ==> host.files == old(host.files)[path := old(host.files)[path] + buffer[..n]]
    ensures failed.Some? || n == 0 ==> host.files == old(host.files)
  {
    if step.ReadFails? {
      return 0, Some(step.error);
    }
    n := local.Read(buffer, step.want);
    if n == 0 {
      return 0, None;
    }
    if step.WriteFails? {
      return n, Some(step.error);
    }
    host.Append(path, buffer, n);
    failed := None;
  }

  /** The copy loop: read into the buffer until a read returns 0, writing
      exactly the bytes each read returned. */
  method CopyChunks(local: LocalReader, host: RemoteHost, path: string, schedule: seq<Pass>)
    returns (r: Result<(), IoError>, chunks: seq<seq<byte>>)
    requires local.Valid() && path in host.files
    modifies local, host
    ensures local.Valid() && old(local.pos) <= local.pos
    // each write carries between 1 and 1024 bytes
    ensures forall i :: 0 <= i < |chunks| ==> 1 <= |chunks[i]| <= BufferSize
    // the writes are the file's bytes in order, appended to the remote file
    ensures Flatten(chunks) <= local.bytes[old(local.pos)..]
    ensures host.files == old(host.files)[path := old(host.files)[path] + Flatten(chunks)]
    // on success the whole rest of the file was copied
    ensures r.Ok? ==> local.pos == |local.bytes| && Flatten(chunks) == local.bytes[old(local.pos)..]
    ensures r.Err? ==> exists i :: 0 <= i < |schedule| && PassError(schedule[i]) == Some(r.error)
    ensures Clean(schedule) ==> r.Ok?
    // the loop stops at the first failing pass, with that pass's error
    ensures r == CopyOutcome(|local.bytes| - old(local.pos), schedule, 0)
    ensures forall i :: 0 <= i < |chunks| && i < |schedule| ==> schedule[i].Deliver?
    ensures r.Err? ==> |chunks| < |schedule| && PassError(schedule[|chunks|]) == Some(r.error)
    ensures r.Ok? && |chunks| < |schedule| ==> !schedule[|chunks|].ReadFails?
  {
    var buffer := new byte[BufferSize];
    ghost var start := local.pos;
    chunks := [];
    assert old(host.files)[path := old(host.files)[path] + Flatten(chunks)] == old(host.files) by {
      assert old(host.files)[path] + [] == old(host.files)[path];
    }
    var k := 0;
    while true
      invariant local.Valid() && start <= local.pos
      invariant forall i :: 0 <= i < |chunks| ==> 1 <= |chunks[i]| <= BufferSize
      invariant Flatten(chunks) == local.bytes[start..local.pos]
      invariant host.files == old(host.files)[path := old(host.files)[path] + Flatten(chunks)]
      invariant k == |chunks|
      invariant forall i :: 0 <= i < k && i < |schedule| ==> schedule[i].Deliver?
      invariant CopyOutcome(|local.bytes| - start, schedule, 0) == CopyOutcome(|local.bytes| - local.pos, schedule, k)
      decreases |local.bytes| - local.pos
    {
      var step := PassAt(schedule, k);
      ghost var before := local.pos;
      var n, failed := CopyPass(local, host, path, buffer, step);
      if failed.Some? {
        return Err(failed.value), chunks;
      }
      if n == 0 {
        break;
      }
      assert step.Deliver? && (k < |schedule| ==> schedule[k] == step);
      assert local.bytes[start..local.pos] == local.bytes[start..before] + buffer[..n];
      FlattenSnoc(chunks, buffer[..n]);
      assert old(host.files)[path] + Flatten(chunks) + buffer[..n] == old(host.files)[path] + Flatten(chunks + [buffer[..n]]);
      chunks := chunks + [buffer[..n]];
      k := k + 1;
    }
    r := Ok(());
  }

  /** The first part of `send_file_via_sftp`: connect, start the session,
      handshake, authenticate, open SFTP and create the remote file. `e` is
      the first failure, if any; `log` the calls made up to it. */
  method Establish(server: string, username: string, password: Option<string>, sshKey: string,
                   remotePath: string, host: RemoteHost, fault: Call -> Option<IoError>)
    returns (e: Option<IoError>, log: seq<Call>)
    modifies host
    ensures var plan := EstablishCalls(server, username, password, sshKey, remotePath);
      && 0 < |log| <= 6 && log == plan[..|log|]
      && (forall j :: 0 <= j < |log| - 1 ==> fault(log[j]).None?)
      && (e.Some? ==> fault(log[|log| - 1]) == e)
      && (e.None? ==> log == plan && fault(log[5]).None?)
    ensures e.Some? ==> host.files == old(host.files)
    ensures e.None? ==> host.files == old(host.files)[remotePath := []]
  {
    ghost var plan := EstablishCalls(server, username, password, sshKey, remotePath);
    // connect, start the session, handshake
    var connect := TcpConnect(Address(server));
    log := [connect];
    if fault(connect).Some? { return fault(connect), log; }
    log := log + [NewSession];
    if fault(NewSession).Some? { return fault(NewSession), log; }
    log := log + [Handshake];
    if fault(Handshake).Some? { return fault(Handshake), log; }
    // authenticate with the password, or the key file and an empty passphrase
    var authenticate := Authenticate(AuthFor(username, password, sshKey));
    log := log + [authenticate];
    if fault(authenticate).Some? { return fault(authenticate), log; }
    // open SFTP and create the remote file
    log := log + [OpenSftp];
    if fault(OpenSftp).Some? { return fault(OpenSftp), log; }
    var create := CreateRemote(remotePath);
    log := log + [create];
    if fault(create).Some? { return fault(create), log; }
    host.Create(remotePath);
    assert log == plan;
    e := None;
  }

  /** The last part of `send_file_via_sftp`: close the remote file, shut
      SFTP down and disconnect, stopping at the first failure. */
  method Teardown(fault: Call -> Option<IoError>) returns (e: Option<IoError>, log: seq<Call>)
    ensures 0 < |log| <= 3 && log == TeardownCalls[..|log|]
    ensures forall j :: 0 <= j < |log| - 1 ==> fault(log[j]).None?
    ensures e.Some? ==> fault(log[|log| - 1]) == e
    ensures e.None? ==> log == TeardownCalls && fault(log[2]).None?
  {
    log := [CloseRemote];
    if fault(CloseRemote).Some? { return fault(CloseRemote), log; }
    log := log + [ShutdownSftp];
    if fault(ShutdownSftp).Some? { return fault(ShutdownSftp), log; }
    log := log + [Disconnect];
    if fault(Disconnect).Some? { return fault(Disconnect), log; }
    e := None;
  }

  /** The middle of `send_file_via_sftp`: open the local file and run the
      copy loop into the freshly created remote file. */
  method Upload(localPath: string, remotePath: string, localBytes: seq<byte>,
                host: RemoteHost, fault: Call -> Option<IoError>, schedule: seq<Pass>)
    returns (e: Option<IoError>)
    requires remotePath in host.files && host.files[remotePath] == []
    modifies host
    ensures e.Some? ==>
      || e == fault(OpenLocal(localPath))
      || (fault(OpenLocal(localPath)).None? && exists i :: 0 <= i < |schedule| && PassError(schedule[i]) == e)
    ensures fault(OpenLocal(localPath)).Some? ==> e == fault(OpenLocal(localPath))
    ensures fault(OpenLocal(localPath)).None? && Clean(schedule) ==> e.None?
    ensures remotePath in host.files && host.files[remotePath] <= localBytes
    ensures host.files == old(host.files)[remotePath := host.files[remotePath]]
    ensures e.None? ==> host.files == old(host.files)[remotePath := localBytes]
    // the open's error, else the copy loop's first failing pass
    ensures e == UploadError(localPath, localBytes, fault, schedule)
  {
    if fault(OpenLocal(localPath)).Some? {
      assert host.files == old(host.files)[remotePath := host.files[remotePath]];
      return fault(OpenLocal(localPath));
    }
    var local := new LocalReader(localBytes);
    var copied, chunks := CopyChunks(local, host, remotePath, schedule);
    assert [] + Flatten(chunks) == Flatten(chunks);
    e := if copied.Err? then Some(copied.error) else None;
    assert localBytes[0..] == localBytes;
  }

  /** The part of `send_file_via_sftp` after the remote file is created:
      open the local file, copy it, close everything, stopping at the first
      failure. */
  method Transfer(localPath: string, remotePath: string, localBytes: seq<byte>,
                  host: RemoteHost, fault: Call -> Option<IoError>, schedule: seq<Pass>)
    returns (e: Option<IoError>, log: seq<Call>)
    requires remotePath in host.files && host.files[remotePath] == []
    modifies host
    ensures 0 < |log| <= 4 && log == TransferCalls(localPath)[..|log|]
    ensures forall j :: 0 <= j < |log| - 1 ==> fault(log[j]).None?
    ensures e.Some? ==> fault(log[|log| - 1]) == e || |log| == 1
    ensures e.None? ==> log == TransferCalls(localPath) && fault(log[3]).None?
    ensures e == if UploadError(localPath, localBytes, fault, schedule).Some?
                 then UploadError(localPath, localBytes, fault, schedule) else FirstFault(TeardownCalls, fault)
    ensures remotePath in host.files && host.files[remotePath] <= localBytes
    ensures host.files == old(host.files)[remotePath := host.files[remotePath]]
    ensures e.None? ==> host.files == old(host.files)[remotePath := localBytes]
  {
    e := Upload(localPath, remotePath, localBytes, host, fault, schedule);
    log := [OpenLocal(localPath)];
    if e.None? {
      // close the remote file, shut SFTP down, disconnect
      var tail;
      e, tail := Teardown(fault);
      FirstFaultOfLog(TeardownCalls, fault, tail, e);
      log := log + tail;
    }
  }

  /** `send_file_via_sftp`: the calls of `Plan` in order, with the copy loop
      after the local open; `fault` says how the environment
      answers each call, `schedule` how it answers the copy loop, and
      `localBytes` is what the local file holds when it is opened. */
  method SendFile(server: string, username: string, password: Option<string>, sshKey: string,
                  localPath: string, remotePath: string, localBytes: seq<byte>,
                  host: RemoteHost, fault: Call -> Option<IoError>, schedule: seq<Pass>)
    returns (r: Result<(), IoError>, log: seq<Call>)
    modifies host
    ensures var plan := Plan(server, username, password, sshKey, localPath, remotePath);
      // the calls made are the plan's, in order, up to the one that failed
      && 0 < |log| <= |plan| && log == plan[..|log|]
      && (forall j :: 0 <= j < |log| - 1 ==> fault(log[j]).None?)
      && (r.Ok? ==> log == plan && fault(log[|log| - 1]).None?)
    // an error is the failing call's, or the copy loop's right after opening the local file
    ensures r.Err? ==> fault(log[|log| - 1]) == Some(r.error) || |log| == 7
    // only the remote file changes, and only once it has been created
    ensures |log| <= 6 ==> host.files == old(host.files)
    ensures |log| > 6 ==>
      && remotePath in host.files && host.files[remotePath] <= localBytes
      && host.files == old(host.files)[remotePath := host.files[remotePath]]
    // a successful send leaves an exact copy of the local bytes
    ensures r.Ok? ==> host.files == old(host.files)[remotePath := localBytes]
    // the result is the one the environment determines
    ensures r == SendOutcome(server, username, password, sshKey, localPath, remotePath, localBytes, fault, schedule)
  {
    ghost var establish := EstablishCalls(server, username, password, sshKey, remotePath);
    ghost var plan := Plan(server, username, password, sshKey, localPath, remotePath);
    var failed;
    failed, log := Establish(server, username, password, sshKey, remotePath, host, fault);
    FirstFaultOfLog(establish, fault, log, failed);
    PrefixOfConcat(establish, TransferCalls(localPath), 0);
    if failed.None? {
      var tail;
      failed, tail := Transfer(localPath, remotePath, localBytes, host, fault, schedule);
      PrefixOfConcat(establish, TransferCalls(localPath), |tail|);
      log := log + tail;
    }
    r := if failed.Some? then Err(failed.value) else Ok(());
  }
}
