/** The staleness monitor (watchfile-remote-receiver): a two-state UP/DOWN
    machine that polls the marker's modification time, sleeping long while UP
    and short while DOWN, and raises one alert per transition. */
module Receiver {
  import opened Wrappers
  import opened Paths
  import opened Text

  /** The `app` table of the receiver's configuration (the `email` table only
      feeds the mail sink, which is not part of this model). */
  datatype AppConfig = AppConfig(
    watchfileDir: string,
    watchfileName: string,
    sleepIntervalUp: nat,
    sleepIntervalDown: nat)

  /** The monitor's whole state: UP/DOWN and the last timestamp observed. */
  datatype State = State(up: bool, observed: nat)

  /** Which alert fired, carrying the timestamp just read. */
  datatype Notification = Down(at: nat) | Up(at: nat)

  datatype Mail = Mail(subject: string, body: string)

  /** Why the monitor stopped before entering its loop. */
  datatype StartupError =
    | MarkerAbsent(path: string)
    | ProbeError(detail: string)
    | NoInitialTimestamp

  /** The line written to standard error when the monitor stops early: it
      names the missing marker, or ends with the failed check's own text. */
  function StartupMessage(e: StartupError): (m: string)
    ensures e.MarkerAbsent? ==> Mentions(m, e.path)
    ensures e.ProbeError? ==> EndsWith(m, e.detail)
  {
    match e
    case MarkerAbsent(path) =>
      MentionsInside("The filepath ", path, " does not exist");
      "The filepath " + path + " does not exist"
    case ProbeError(detail) => "Error checking local file existence: " + detail
    case NoInitialTimestamp => "Error: Unable to retrieve INITIAL timestamp from watchfile"
  }

  /** The line written to standard error when a read inside the loop fails:
      it names the marker's path. */
  function ReadFailureMessage(path: string): (m: string)
    ensures Mentions(m, path)
  {
    MentionsInside("Unable to retrieve timestamp from watchfile (", path, ")");
    "Unable to retrieve timestamp from watchfile (" + path + ")"
  }

  /** A bounded run of the poll loop: the sleeps taken, the alerts raised,
      the state reached, and whether the run ended because a read failed
      (the process exits) rather than because the inputs ran out. */
  datatype Run = Run(sleeps: seq<nat>, alerts: seq<Notification>, final: State, readFailed: bool)

  datatype Session = Aborted(error: StartupError) | Started(run: Run)

  const DownSubject: string := "Home Internet Service is Down!"
  const UpSubject: string := "Home Internet Service is Back Up!"
  const DownBodyPrefix: string := "Home internet down as of "
  const UpBodyPrefix: string := "Home internet is back up as of "

  /** The state right after a successful first read: UP, holding that read. */
  function Initial(t0: nat): (s: State)
    ensures s.up && s.observed == t0
  {
    State(true, t0)
  }

  /** The sleep chosen before each poll: the long interval while UP, the short
      one while DOWN. */
  function SleepInterval(up: bool, config: AppConfig): (d: nat)
    ensures up ==> d == config.sleepIntervalUp
    ensures !up ==> d == config.sleepIntervalDown
  {
    if up then config.sleepIntervalUp else config.sleepIntervalDown
  }

  datatype StepResult = StepResult(next: State, alert: Option<Notification>)

  /** One compare-and-transition step on a freshly read timestamp `t`. */
  function Transition(s: State, t: nat): (r: StepResult)
    // the observed timestamp is always the value just read
    ensures r.next.observed == t
    // the new state depends only on whether the last two polls differed
    ensures r.next.up <==> t != s.observed
    // an alert fires exactly when the state changes, and names the new state
    ensures r.alert.Some? <==> r.next.up != s.up
    ensures r.alert == Some(Down(t)) <==> s.up && t == s.observed
    ensures r.alert == Some(Up(t)) <==> !s.up && t != s.observed
  {
    if s.observed == t then
      if s.up then StepResult(State(false, t), Some(Down(t)))
      else StepResult(s, None)
    else if !s.up then StepResult(State(true, t), Some(Up(t)))
    else StepResult(State(true, t), None)
  }

  /** The e-mail handed to the notifier for an alert; `localTime` stands for
      the host's epoch-to-local-time formatting. */
  function Compose(n: Notification, localTime: nat -> string): (m: Mail)
    ensures n.Down? <==> m.subject == DownSubject
    ensures n.Up? <==> m.subject == UpSubject
    ensures m.body == (if n.Down? then DownBodyPrefix else UpBodyPrefix) + localTime(n.at)
  {
    match n
    case Down(t) => Mail(DownSubject, DownBodyPrefix + localTime(t))
    case Up(t) => Mail(UpSubject, UpBodyPrefix + localTime(t))
  }

  /** Prefix a run with sleeps and alerts that happened before it. */
  function Prepend(sleeps: seq<nat>, alerts: seq<Notification>, r: Run): Run
  {
    Run(sleeps + r.sleeps, alerts + r.alerts, r.final, r.readFailed)
  }

  lemma PrependPrepend(s1: seq<nat>, a1: seq<Notification>, s2: seq<nat>, a2: seq<Notification>, r: Run)
    ensures Prepend(s1, a1, Prepend(s2, a2, r)) == Prepend(s1 + s2, a1 + a2, r)
  {
    assert s1 + (s2 + r.sleeps) == (s1 + s2) + r.sleeps;
    assert a1 + (a2 + r.alerts) == (a1 + a2) + r.alerts;
  }

  /** The poll loop over a finite sequence of polls, `None` being a read that
      failed: sleep, read, stop on a failed read, otherwise transition. */
  function Loop(config: AppConfig, s: State, polls: seq<Option<nat>>): Run
    decreases |polls|
  {
    if polls == [] then Run([], [], s, false)
    else
      var d := SleepInterval(s.up, config);
      match polls[0]
      case None => Run([d], [], s, true)
      case Some(t) =>
        var step := Transition(s, t);
        Prepend([d], ToSeq(step.alert), Loop(config, step.next, polls[1..]))
  }

  /** The whole receiver process up to its loop's bound: path construction,
      the existence check, the initial read, then the loop. */
  function Process(config: AppConfig, probe: Probe, initial: Option<nat>, polls: seq<Option<nat>>): (r: Session)
    ensures r.Started? <==> probe == Present && initial.Some?
    ensures probe == Absent ==> r == Aborted(MarkerAbsent(Join(config.watchfileDir, config.watchfileName)))
    ensures probe.ProbeFailed? ==> r == Aborted(ProbeError(probe.detail))
    ensures probe == Present && initial.None? ==> r == Aborted(NoInitialTimestamp)
    ensures r.Started? ==> r.run == Loop(config, Initial(initial.value), polls)
  {
    var path := Paths.Join(config.watchfileDir, config.watchfileName);
    match probe
    case Absent => Aborted(MarkerAbsent(path))
    case ProbeFailed(detail) => Aborted(ProbeError(detail))
    case Present =>
      match initial
      case None => Aborted(NoInitialTimestamp)
      case Some(t0) => Started(Loop(config, Initial(t0), polls))
  }

  /** The line the receiver writes to standard error when it stops: the
      startup failure, or the failed read naming the marker; nothing when
      the reads ran out first. */
  function StopMessage(config: AppConfig, session: Session): (m: Option<string>)
    ensures m.None? <==> session.Started? && !session.run.readFailed
    ensures session.Aborted? ==> m == Some(StartupMessage(session.error))
    ensures session.Started? && session.run.readFailed
        ==> Mentions(m.value, Join(config.watchfileDir, config.watchfileName))
  {
    match session
    case Aborted(e) => Some(StartupMessage(e))
    case Started(run) =>
      if run.readFailed then Some(ReadFailureMessage(Join(config.watchfileDir, config.watchfileName))) else None
  }

  /** The alerts strictly alternate, starting with Down when `up` holds and
      with Up otherwise. */
  ghost predicate Alternates(alerts: seq<Notification>, up: bool)
  {
    forall i :: 0 <= i < |alerts| ==> (alerts[i].Down? <==> (up <==> i % 2 == 0))
  }

  predicate AllRead(polls: seq<Option<nat>>)
  {
    forall i :: 0 <= i < |polls| ==> polls[i].Some?
  }

  /** Over any sequence of polls the alerts alternate starting from the
      opposite of the current state, and the final state is the starting one
      exactly when an even number of alerts fired. */
  lemma {:induction false} LoopAlternates(config: AppConfig, s: State, polls: seq<Option<nat>>)
    ensures Alternates(Loop(config, s, polls).alerts, s.up)
    ensures Loop(config, s, polls).final.up <==> (s.up <==> |Loop(config, s, polls).alerts| % 2 == 0)
    decreases |polls|
  {
    if polls != [] && polls[0].Some? {
      var step := Transition(s, polls[0].value);
      var rest := Loop(config, step.next, polls[1..]);
      LoopAlternates(config, step.next, polls[1..]);
      var alerts := Loop(config, s, polls).alerts;
      assert alerts == ToSeq(step.alert) + rest.alerts;
      if step.alert.Some? {
        forall i | 0 <= i < |alerts|
          ensures alerts[i].Down? <==> (s.up <==> i % 2 == 0)
        {
          if i > 0 {
            assert alerts[i] == rest.alerts[i - 1];
          }
        }
      }
    }
  }

  /** Started from the initial state, the alerts go Down, Up, Down, ...: there
      is never a duplicate alert. */
  lemma MonitorAlternatesFromDown(config: AppConfig, t0: nat, polls: seq<Option<nat>>)
    ensures Alternates(Loop(config, Initial(t0), polls).alerts, true)
    ensures |Loop(config, Initial(t0), polls).alerts| > 0 ==> Loop(config, Initial(t0), polls).alerts[0].Down?
  {
    LoopAlternates(config, Initial(t0), polls);
  }

  /** The e-mails the monitor sends for its alerts go "down", "back up",
      "down", …: the i-th one has the down subject exactly when i is even. */
  lemma MonitorMailsAlternate(config: AppConfig, t0: nat, polls: seq<Option<nat>>, localTime: nat -> string, i: nat)
    requires i < |Loop(config, Initial(t0), polls).alerts|
    ensures var m := Compose(Loop(config, Initial(t0), polls).alerts[i], localTime);
      (m.subject == DownSubject <==> i % 2 == 0) && (m.subject == UpSubject <==> i % 2 == 1)
  {
    MonitorAlternatesFromDown(config, t0, polls);
  }

  /** After a run of successful polls the monitor holds the last read, and it
      is UP exactly when the last two readings differed. */
  lemma {:induction false} LoopFinalState(config: AppConfig, s: State, polls: seq<Option<nat>>)
    requires |polls| > 0 && AllRead(polls)
    ensures Loop(config, s, polls).final.observed == polls[|polls| - 1].value
    ensures Loop(config, s, polls).final.up
        <==> polls[|polls| - 1].value != (if |polls| == 1 then s.observed else polls[|polls| - 2].value)
    ensures !Loop(config, s, polls).readFailed
    ensures |Loop(config, s, polls).sleeps| == |polls|
    decreases |polls|
  {
    var step := Transition(s, polls[0].value);
    if |polls| > 1 {
      assert AllRead(polls[1..]) by {
        forall i | 0 <= i < |polls[1..]| ensures polls[1..][i].Some? {
          assert polls[1..][i] == polls[i + 1];
        }
      }
      LoopFinalState(config, step.next, polls[1..]);
      assert polls[1..][|polls[1..]| - 1] == polls[|polls| - 1];
      if |polls| > 2 {
        assert polls[1..][|polls[1..]| - 2] == polls[|polls| - 2];
      }
    } else {
      assert polls[1..] == [];
    }
  }

  /** A run splits at any point before which every read succeeded: the state
      after the first `k` polls is where the rest of the run starts. */
  lemma {:induction false} LoopSplit(config: AppConfig, s: State, polls: seq<Option<nat>>, k: nat)
    requires k <= |polls| && AllRead(polls[..k])
    ensures var head := Loop(config, s, polls[..k]);
      Loop(config, s, polls) == Prepend(head.sleeps, head.alerts, Loop(config, head.final, polls[k..]))
    decreases k
  {
    if k == 0 {
      assert polls[..0] == [] && polls[0..] == polls;
    } else {
      var head := polls[..k];
      assert head[0] == polls[0];
      var step := Transition(s, polls[0].value);
      var d := SleepInterval(s.up, config);
      var tail := polls[1..][..k - 1];
      assert tail == head[1..];
      assert AllRead(tail) by {
        forall i | 0 <= i < |tail| ensures tail[i].Some? {
          assert tail[i] == head[i + 1];
        }
      }
      LoopSplit(config, step.next, polls[1..], k - 1);
      assert polls[1..][k - 1..] == polls[k..];
      var rest := Loop(config, step.next, tail);
      assert Loop(config, s, head) == Prepend([d], ToSeq(step.alert), rest);
      assert Loop(config, s, polls) == Prepend([d], ToSeq(step.alert), Loop(config, step.next, polls[1..]));
      PrependPrepend([d], ToSeq(step.alert), rest.sleeps, rest.alerts, Loop(config, rest.final, polls[k..]));
    }
  }

  /** Each sleep is chosen by the state the monitor is in at that moment:
      the long interval if it is UP after the polls so far, the short one
      otherwise. */
  lemma SleepFollowsState(config: AppConfig, s: State, polls: seq<Option<nat>>, k: nat)
    requires k < |polls| && AllRead(polls[..k])
    ensures |Loop(config, s, polls).sleeps| > k
    ensures Loop(config, s, polls).sleeps[k] == SleepInterval(Loop(config, s, polls[..k]).final.up, config)
  {
    LoopSplit(config, s, polls, k);
    if k > 0 {
      LoopFinalState(config, s, polls[..k]);
    } else {
      assert polls[..k] == [];
    }
  }

  /** The run ends on a failed read exactly when some read fails. */
  lemma {:induction false} LoopStopsOnFailedRead(config: AppConfig, s: State, polls: seq<Option<nat>>)
    ensures Loop(config, s, polls).readFailed <==> !AllRead(polls)
    ensures |Loop(config, s, polls).sleeps| <= |polls|
    decreases |polls|
  {
    if polls != [] && polls[0].Some? {
      LoopStopsOnFailedRead(config, Transition(s, polls[0].value).next, polls[1..]);
      assert AllRead(polls) <==> AllRead(polls[1..]) by {
        if AllRead(polls[1..]) {
          forall i | 0 <= i < |polls| ensures polls[i].Some? {
            if i > 0 { assert polls[i] == polls[1..][i - 1]; }
          }
        }
        if AllRead(polls) {
          forall i | 0 <= i < |polls[1..]| ensures polls[1..][i].Some? {
            assert polls[1..][i] == polls[i + 1];
          }
        }
      }
    }
  }

  /** The first two cycles of a marker that stops and then resumes: a read of
      the same 1000 flips UP to DOWN with one "down" alert, then a read of
      1050 flips back with one "back up" alert. */
  lemma ScenarioDownThenUp(config: AppConfig)
    ensures Process(config, Present, Some(1000), [Some(1000), Some(1050)]).run
         == Run([config.sleepIntervalUp, config.sleepIntervalDown], [Down(1000), Up(1050)], State(true, 1050), false)
  {
  }

  /** The monitor's mutable state: the `is_internet` flag and the timestamp
      last read from the marker. */
  class Monitor {
    const config: AppConfig
    var isUp: bool
    var observed: nat

    function Current(): State
      reads this
    {
      State(isUp, observed)
    }

    /** Starts UP on the first successful read. */
    constructor (config: AppConfig, t0: nat)
      ensures this.config == config
      ensures Current() == Initial(t0)
    {
      this.config := config;
      isUp := true;
      observed := t0;
    }

    /** Compare a freshly read timestamp with the stored one, switch state and
      report the alert to send, then store the new timestamp. */
    method Step(tNew: nat) returns (alert: Option<Notification>)
      modifies this
      ensures Current() == Transition(old(Current()), tNew).next
      ensures alert == Transition(old(Current()), tNew).alert
      ensures isUp <==> tNew != old(observed)
      ensures observed == tNew
    {
      alert := None;
      if observed == tNew {
        if isUp {
          alert := Some(Down(tNew));
          isUp := false;
        }
      } else if !isUp {
        alert := Some(Up(tNew));
        isUp := true;
      }
      observed := tNew;
    }
  }

  /** The receiver's `main`, bounded by a finite sequence of polls. */
  method Watch(config: AppConfig, probe: Probe, initial: Option<nat>, polls: seq<Option<nat>>)
    returns (session: Session)
    ensures session == Process(config, probe, initial, polls)
    ensures session.Started? <==> probe == Present && initial.Some?
    ensures session.Started? ==> Alternates(session.run.alerts, true)
    ensures session.Started? ==> (session.run.readFailed <==> !AllRead(polls))
  {
    var path := Paths.Join(config.watchfileDir, config.watchfileName);
    match probe {
      case Absent =>
        return Aborted(MarkerAbsent(path));
      case ProbeFailed(detail) =>
        return Aborted(ProbeError(detail));
      case Present =>
    }
    if initial.None? {
      return Aborted(NoInitialTimestamp);
    }
    var run := Poll(config, initial.value, polls);
    MonitorAlternatesFromDown(config, initial.value, polls);
    LoopStopsOnFailedRead(config, Initial(initial.value), polls);
    return Started(run);
  }

  /** The polling loop of the receiver's `main`, started UP on `t0`: sleep,
      read the marker, compare, alert, until a read fails or the polls run
      out. */
  method Poll(config: AppConfig, t0: nat, polls: seq<Option<nat>>) returns (run: Run)
    ensures run == Loop(config, Initial(t0), polls)
  {
    var w := new Monitor(config, t0);
    var sleeps: seq<nat> := [];
    var alerts: seq<Notification> := [];
    var i := 0;
    while i < |polls|
      invariant 0 <= i <= |polls|
      invariant w.config == config
      invariant Loop(config, Initial(t0), polls) == Prepend(sleeps, alerts, Loop(config, w.Current(), polls[i..]))
    {
      ghost var before := w.Current();
      var d := SleepInterval(w.isUp, config);
      match polls[i] {
        case None =>
          return Run(sleeps + [d], alerts, w.Current(), true);
        case Some(t) =>
          assert polls[i..][1..] == polls[i + 1..];
          var alert := w.Step(t);
          assert Loop(config, before, polls[i..])
              == Prepend([d], ToSeq(alert), Loop(config, w.Current(), polls[i + 1..]));
          PrependPrepend(sleeps, alerts, [d], ToSeq(alert), Loop(config, w.Current(), polls[i + 1..]));
          sleeps := sleeps + [d];
          alerts := alerts + ToSeq(alert);
      }
      i := i + 1;
    }
    assert polls[i..] == [];
    return Run(sleeps, alerts, w.Current(), false);
  }
}
