/**
 The renewal transaction of contrib/windows/renew-step-ca-server-certificate.ps1, under failure
 at any command and under a kill at any moment.

 `step` is an external program: what it writes and how it exits is part of the environment, but
 a check of a certificate only succeeds on a certificate that has the checked property.  Moving
 a file over another is atomic.
 */
module RenewalScript {
  import opened Prelude

  datatype Certificate = Certificate(
    serial: nat,
    chainVerifies: bool,        // against the configured root
    inspectable: bool,
    serverAuth: bool,
    dnsNames: seq<string>)

  function Lower(s: string): string {
    if s == "" then "" else [if 'A' <= s[0] <= 'Z' then (s[0] as int + 32) as char else s[0]] + Lower(s[1..])
  }

  /** The same letter, but for the case. */
  predicate SameButCase(c: char, d: char) {
    || c == d
    || ('A' <= c <= 'Z' && 'a' <= d <= 'z' && d as int - c as int == 32)
    || ('a' <= c <= 'z' && 'A' <= d <= 'Z' && c as int - d as int == 32)
  }

  /** Names that are distinct for other reasons than the case of their letters stay distinct. */
  lemma {:induction false} SameNameExactly(s: string, t: string)
    ensures Lower(s) == Lower(t) <==> |s| == |t| && forall k :: 0 <= k < |s| ==> SameButCase(s[k], t[k])
  {
    if s != "" && t != "" {
      SameNameExactly(s[1..], t[1..]);
      assert Lower(s)[0] == Lower(t)[0] <==> SameButCase(s[0], t[0]);
      assert Lower(s)[1..] == Lower(s[1..]) && Lower(t)[1..] == Lower(t[1..]);
      if Lower(s) == Lower(t) {
        forall k | 0 <= k < |s|
          ensures SameButCase(s[k], t[k])
        {
          if k > 0 {
            assert s[k] == s[1..][k - 1] && t[k] == t[1..][k - 1];
          }
        }
      }
    }
  }

  /** `-contains`, which ignores case. */
  predicate Names(c: Certificate, name: string) {
    exists k :: 0 <= k < |c.dnsNames| && Lower(c.dnsNames[k]) == Lower(name)
  }

  /** What the script demands of a certificate before it installs it. */
  predicate IsAcceptable(c: Certificate, name: string) {
    c.chainVerifies && c.inspectable && c.serverAuth && Names(c, name)
  }

  // `restarts` records, for each restart of the bridge, the certificate that was installed then.
  datatype Disk = Disk(files: map<string, Certificate>, restarts: seq<Certificate>)

  datatype Command =
    | CheckArguments | MakeLogDirectory
    | LogStart | Renew | Verify | Inspect | ParseInspection | Move | LogInstalled | Restart | LogDone
    | LogError | TestTemporary | RemoveTemporary

  // A command may throw or be interrupted by a kill, in either case with or without having taken effect.
  datatype Fault = NoFault | ThrowsBefore | ThrowsAfter | KilledBefore | KilledAfter

  datatype Flow = Normal | Thrown | Killed

  datatype Env = Env(
    guid: string,
    argumentsValid: bool,             // https, and all four files exist
    renewed: Option<Certificate>,     // what `step ca renew` leaves at the temporary path
    renewExit: int,
    faults: Command -> Fault)

  function TakesEffect(f: Fault): bool {
    f == NoFault || f == ThrowsAfter || f == KilledAfter
  }

  function FlowOf(f: Fault): Flow {
    match f
    case NoFault => Normal
    case ThrowsBefore => Thrown
    case ThrowsAfter => Thrown
    case KilledBefore => Killed
    case KilledAfter => Killed
  }

  function TemporaryPath(serverCert: string, guid: string): string {
    serverCert + ".renewed-" + guid + ".pem"
  }

  /** The certificate that the bridge would load. */
  function Installed(disk: Disk, serverCert: string): Option<Certificate> {
    if serverCert in disk.files then Some(disk.files[serverCert]) else None
  }

  /** What one run may do to the installed certificate and to the bridge. */
  ghost predicate Sound(before: Disk, after: Disk, serverCert: string, temporary: string, name: string) {
    && (Installed(after, serverCert) == Installed(before, serverCert)
        || (serverCert in after.files && IsAcceptable(after.files[serverCert], name)))
    && before.restarts <= after.restarts
    && (forall k :: |before.restarts| <= k < |after.restarts| ==>
          IsAcceptable(after.restarts[k], name) && Installed(after, serverCert) == Some(after.restarts[k]))
    && (forall path :: path != serverCert && path != temporary ==>
          (path in after.files <==> path in before.files)
          && (path in before.files ==> after.files[path] == before.files[path]))
  }

  /** Every check passes on what was written. */
  predicate PassesChecks(env: Env, name: string) {
    && env.renewExit == 0 && env.renewed.Some? && IsAcceptable(env.renewed.value, name)
    && (forall c :: c == LogStart || c == Renew || c == Verify || c == Inspect || c == ParseInspection ==> env.faults(c) == NoFault)
  }

  ghost predicate NeverKilled(env: Env) {
    forall c :: FlowOf(env.faults(c)) != Killed
  }

  /** The only thing that can go wrong is a kill. */
  ghost predicate OnlyKills(env: Env, name: string) {
    && env.argumentsValid && env.renewExit == 0 && env.renewed.Some? && IsAcceptable(env.renewed.value, name)
    && (forall c :: FlowOf(env.faults(c)) != Thrown)
  }

  /** The part of the `try` block before the move: requests a certificate into the temporary file and checks it. */
  method RequestAndCheck(disk: Disk, serverCert: string, temporary: string, name: string, env: Env)
    returns (after: Disk, flow: Flow)
    requires temporary != serverCert && temporary !in disk.files
    ensures Sound(disk, after, serverCert, temporary, name)
    ensures after.restarts == disk.restarts && Installed(after, serverCert) == Installed(disk, serverCert)
    ensures flow == Normal <==> PassesChecks(env, name)
    ensures flow == Normal ==> temporary in after.files && after.files[temporary] == env.renewed.value
    ensures NeverKilled(env) ==> flow != Killed
    ensures OnlyKills(env, name) ==> flow != Thrown
  {
    after := disk;
    if env.faults(LogStart) != NoFault {
      return after, FlowOf(env.faults(LogStart));
    }
    if TakesEffect(env.faults(Renew)) && env.renewed.Some? {
      after := after.(files := after.files[temporary := env.renewed.value]);
    }
    if env.faults(Renew) != NoFault {
      return after, FlowOf(env.faults(Renew));
    }
    if env.renewExit != 0 {
      return after, Thrown;
    }
    if env.faults(Verify) != NoFault {
      return after, FlowOf(env.faults(Verify));
    }
    if temporary !in after.files || !after.files[temporary].chainVerifies {
      return after, Thrown;
    }
    if env.faults(Inspect) != NoFault {
      return after, FlowOf(env.faults(Inspect));
    }
    if !after.files[temporary].inspectable {
      return after, Thrown;
    }
    if env.faults(ParseInspection) != NoFault {
      return after, FlowOf(env.faults(ParseInspection));
    }
    if !after.files[temporary].serverAuth {
      return after, Thrown;
    }
    if !Names(after.files[temporary], name) {
      return after, Thrown;
    }
    flow := Normal;
  }

  /** The rest of the `try` block: installs the checked certificate and restarts the bridge. */
  method InstallAndRestart(disk: Disk, serverCert: string, temporary: string, name: string, env: Env)
    returns (after: Disk, flow: Flow)
    requires temporary != serverCert && temporary in disk.files && IsAcceptable(disk.files[temporary], name)
    ensures Sound(disk, after, serverCert, temporary, name)
    ensures TakesEffect(env.faults(Move)) ==> Installed(after, serverCert) == Some(disk.files[temporary]) && temporary !in after.files
    ensures !TakesEffect(env.faults(Move)) ==> after == disk && flow != Normal
    ensures after.restarts == disk.restarts
              + (if env.faults(Move) == NoFault && env.faults(LogInstalled) == NoFault && TakesEffect(env.faults(Restart))
                 then [disk.files[temporary]] else [])
    ensures flow == Normal <==> env.faults(Move) == NoFault && env.faults(LogInstalled) == NoFault
                                && env.faults(Restart) == NoFault && env.faults(LogDone) == NoFault
    ensures NeverKilled(env) ==> flow != Killed
    ensures OnlyKills(env, name) ==> flow != Thrown
  {
    after := disk;
    if TakesEffect(env.faults(Move)) {
      after := after.(files := after.files[serverCert := after.files[temporary]] - {temporary});
    }
    if env.faults(Move) != NoFault {
      return after, FlowOf(env.faults(Move));
    }
    if env.faults(LogInstalled) != NoFault {
      return after, FlowOf(env.faults(LogInstalled));
    }
    if TakesEffect(env.faults(Restart)) {
      after := after.(restarts := after.restarts + [after.files[serverCert]]);
    }
    if env.faults(Restart) != NoFault {
      return after, FlowOf(env.faults(Restart));
    }
    flow := FlowOf(env.faults(LogDone));
  }

  /** The `try` block. */
  method TryBlock(disk: Disk, serverCert: string, temporary: string, name: string, env: Env)
    returns (after: Disk, flow: Flow)
    requires temporary != serverCert && temporary !in disk.files
    ensures Sound(disk, after, serverCert, temporary, name)
    ensures Moves(env, name) ==> Installed(after, serverCert) == env.renewed
    ensures !Moves(env, name) ==> Installed(after, serverCert) == Installed(disk, serverCert) && flow != Normal
    ensures after.restarts == disk.restarts + (if Restarts(env, name) then [env.renewed.value] else [])
    ensures flow == Normal <==> Restarts(env, name) && env.faults(Restart) == NoFault && env.faults(LogDone) == NoFault
    ensures flow == Normal ==> temporary !in after.files
    ensures NeverKilled(env) ==> flow != Killed
    ensures OnlyKills(env, name) ==> flow != Thrown
  {
    after, flow := RequestAndCheck(disk, serverCert, temporary, name, env);
    if flow == Normal {
      after, flow := InstallAndRestart(after, serverCert, temporary, name, env);
    }
  }

  predicate Moves(env: Env, name: string) {
    PassesChecks(env, name) && TakesEffect(env.faults(Move))
  }

  predicate Restarts(env: Env, name: string) {
    PassesChecks(env, name) && env.faults(Move) == NoFault && env.faults(LogInstalled) == NoFault && TakesEffect(env.faults(Restart))
  }

  datatype Exit = Exited(code: nat) | WasKilled

  predicate Starts(env: Env) {
    env.argumentsValid && env.faults(CheckArguments) == NoFault && env.faults(MakeLogDirectory) == NoFault
  }

  /** The run gets as far as replacing the certificate. */
  predicate Installs(env: Env, name: string) {
    Starts(env) && Moves(env, name)
  }

  /** The certificate over which the run restarts the bridge, if it does. */
  function Restarted(env: Env, name: string): seq<Certificate> {
    if Starts(env) && Restarts(env, name) then [env.renewed.value] else []
  }

  predicate Succeeds(env: Env, name: string) {
    && Installs(env, name) && Restarts(env, name)
    && env.faults(Restart) == NoFault && env.faults(LogDone) == NoFault && env.faults(TestTemporary) == NoFault
  }

  lemma RemovalIsSound(before: Disk, disk: Disk, serverCert: string, temporary: string, name: string)
    requires temporary != serverCert && Sound(before, disk, serverCert, temporary, name)
    ensures var after := disk.(files := disk.files - {temporary});
            Sound(before, after, serverCert, temporary, name) && Installed(after, serverCert) == Installed(disk, serverCert)
  {
  }

  /** The `finally` block, and the exit with `exitCode` if it goes well. */
  method CleanUp(disk: Disk, serverCert: string, temporary: string, env: Env, exitCode: nat) returns (after: Disk, exit: Exit)
    requires temporary != serverCert && exitCode <= 1
    ensures after == disk || after == disk.(files := disk.files - {temporary})
    ensures exit.Exited? ==> exit.code <= 1
    ensures exit == Exited(0) <==> exitCode == 0 && env.faults(TestTemporary) == NoFault
                                   && (temporary in disk.files ==> env.faults(RemoveTemporary) == NoFault)
    ensures exit.Exited? && env.faults(TestTemporary) == NoFault && env.faults(RemoveTemporary) == NoFault ==>
              temporary !in after.files
    ensures NeverKilled(env) ==> exit.Exited?
    ensures (forall c :: FlowOf(env.faults(c)) != Thrown) ==> exit == WasKilled || exit == Exited(exitCode)
  {
    after := disk;
    if env.faults(TestTemporary) != NoFault {
      return after, if FlowOf(env.faults(TestTemporary)) == Killed then WasKilled else Exited(1);
    }
    if temporary in after.files {
      if TakesEffect(env.faults(RemoveTemporary)) {
        after := after.(files := after.files - {temporary});
      }
      if env.faults(RemoveTemporary) != NoFault {
        return after, if FlowOf(env.faults(RemoveTemporary)) == Killed then WasKilled else Exited(1);
      }
    }
    exit := Exited(exitCode);
  }

  /** The whole script. */
  method Run(disk: Disk, serverCert: string, name: string, env: Env) returns (after: Disk, exit: Exit)
    requires TemporaryPath(serverCert, env.guid) !in disk.files
    ensures Sound(disk, after, serverCert, TemporaryPath(serverCert, env.guid), name)
    ensures Installs(env, name) ==> Installed(after, serverCert) == env.renewed
    ensures !Installs(env, name) ==> Installed(after, serverCert) == Installed(disk, serverCert)
    ensures after.restarts == disk.restarts + Restarted(env, name)
    ensures exit == Exited(0) <==> Succeeds(env, name)
    ensures exit.Exited? && env.faults(TestTemporary) == NoFault && env.faults(RemoveTemporary) == NoFault ==>
              TemporaryPath(serverCert, env.guid) !in after.files
    ensures exit.Exited? ==> exit.code <= 1
    ensures NeverKilled(env) ==> exit.Exited?
    ensures OnlyKills(env, name) ==> exit == WasKilled || exit == Exited(0)
  {
    var temporary := TemporaryPath(serverCert, env.guid);
    assert |temporary| > |serverCert|;
    after := disk;
    if env.faults(CheckArguments) != NoFault {
      return after, if FlowOf(env.faults(CheckArguments)) == Killed then WasKilled else Exited(1);
    }
    if !env.argumentsValid {
      return after, Exited(1);
    }
    if env.faults(MakeLogDirectory) != NoFault {
      return after, if FlowOf(env.faults(MakeLogDirectory)) == Killed then WasKilled else Exited(1);
    }
    var flow;
    after, flow := TryBlock(disk, serverCert, temporary, name, env);
    // catch: whatever else happens there, the exit code is one
    if flow == Killed || (flow == Thrown && FlowOf(env.faults(LogError)) == Killed) {
      return after, WasKilled;
    }
    RemovalIsSound(disk, after, serverCert, temporary, name);
    after, exit := CleanUp(after, serverCert, temporary, env, if flow == Thrown then 1 else 0);
  }

  /**
   A failing run does not always leave the certificate alone: if the log cannot be written after the
   move, the new certificate is installed, the bridge is not restarted and the exit code is 1.
   By the contract of `Run` that is so exactly for the runs that install and do not succeed.
   */
  lemma FailingRunCanInstall(c: Certificate, name: string) returns (env: Env)
    requires IsAcceptable(c, name)
    ensures Installs(env, name) && !Succeeds(env, name)
    ensures env.renewed == Some(c) && env.faults(LogInstalled) == ThrowsBefore
    ensures forall command :: command != LogInstalled ==> env.faults(command) == NoFault
  {
    env := Env("", true, Some(c), 0, command => if command == LogInstalled then ThrowsBefore else NoFault);
    assert env.faults(LogInstalled) != NoFault;
  }

  /** And so it goes: the script exits with 1 over a replaced certificate and a bridge that still has the old one. */
  method FailingRunInstalls(disk: Disk, serverCert: string, name: string, c: Certificate) returns (after: Disk, exit: Exit)
    requires IsAcceptable(c, name) && TemporaryPath(serverCert, "") !in disk.files
    ensures exit == Exited(1) && Installed(after, serverCert) == Some(c) && after.restarts == disk.restarts
  {
    var env := Env("", true, Some(c), 0, command => if command == LogInstalled then ThrowsBefore else NoFault);
    assert env.faults(LogInstalled) != NoFault;
    after, exit := Run(disk, serverCert, name, env);
  }

  /** What is installed after a number of renewals, each failing or killed anywhere. */
  function InstalledAfter(original: Option<Certificate>, envs: seq<Env>, name: string): Option<Certificate> {
    if envs == [] then original
    else if Installs(envs[|envs| - 1], name) then envs[|envs| - 1].renewed
    else InstalledAfter(original, envs[..|envs| - 1], name)
  }

  /** The certificates over which they have restarted the bridge. */
  function RestartedOver(envs: seq<Env>, name: string): seq<Certificate> {
    if envs == [] then []
    else RestartedOver(envs[..|envs| - 1], name) + Restarted(envs[|envs| - 1], name)
  }

  /** The installed certificate is the original one or has passed every check. */
  lemma {:induction false} InstalledIsChecked(original: Option<Certificate>, envs: seq<Env>, name: string)
    ensures var installed := InstalledAfter(original, envs, name);
            installed == original || (installed.Some? && IsAcceptable(installed.value, name))
    ensures InstalledAfter(original, envs, name) != original ==> exists k :: 0 <= k < |envs| && Installs(envs[k], name)
  {
    if envs != [] && !Installs(envs[|envs| - 1], name) {
      InstalledIsChecked(original, envs[..|envs| - 1], name);
      if InstalledAfter(original, envs, name) != original {
        var k :| 0 <= k < |envs| - 1 && Installs(envs[..|envs| - 1][k], name);
        assert Installs(envs[k], name);
      }
    }
  }

  /** Every restart was over a checked certificate, and no more often than a certificate was installed. */
  lemma {:induction false} RestartsAreChecked(envs: seq<Env>, name: string)
    ensures forall k :: 0 <= k < |RestartedOver(envs, name)| ==> IsAcceptable(RestartedOver(envs, name)[k], name)
    ensures |RestartedOver(envs, name)| <= Installations(envs, name)
  {
    if envs != [] {
      RestartsAreChecked(envs[..|envs| - 1], name);
    }
  }

  function Installations(envs: seq<Env>, name: string): nat {
    if envs == [] then 0
    else Installations(envs[..|envs| - 1], name) + (if Installs(envs[|envs| - 1], name) then 1 else 0)
  }

  lemma OneMore(original: Option<Certificate>, restarts: seq<Certificate>, envs: seq<Env>, n: nat, name: string)
    requires n < |envs|
    ensures InstalledAfter(original, envs[..n + 1], name)
         == if Installs(envs[n], name) then envs[n].renewed else InstalledAfter(original, envs[..n], name)
    ensures restarts + RestartedOver(envs[..n + 1], name)
         == restarts + RestartedOver(envs[..n], name) + Restarted(envs[n], name)
  {
    assert envs[..n + 1][..n] == envs[..n];
  }

  predicate HaveOwnGuids(envs: seq<Env>) {
    forall j, k :: 0 <= j < k < |envs| ==> envs[j].guid != envs[k].guid
  }

  /** The temporary paths of the runs from number `n` on are free. */
  predicate Unused(disk: Disk, serverCert: string, envs: seq<Env>, n: nat) {
    forall k :: n <= k < |envs| ==> TemporaryPath(serverCert, envs[k].guid) !in disk.files
  }

  lemma StillUnused(before: Disk, after: Disk, serverCert: string, name: string, envs: seq<Env>, n: nat)
    requires n < |envs| && Unused(before, serverCert, envs, n) && HaveOwnGuids(envs)
    requires Sound(before, after, serverCert, TemporaryPath(serverCert, envs[n].guid), name)
    ensures Unused(after, serverCert, envs, n + 1)
  {
    forall k | n < k < |envs|
      ensures TemporaryPath(serverCert, envs[k].guid) !in after.files
    {
      TemporariesDiffer(serverCert, envs[n].guid, envs[k].guid);
    }
  }

  /** Any number of renewals, one after the other: what is installed then, and every restart on the way. */
  method RunPeriodically(disk: Disk, serverCert: string, name: string, envs: seq<Env>) returns (after: Disk)
    requires Unused(disk, serverCert, envs, 0) && HaveOwnGuids(envs)
    ensures Installed(after, serverCert) == InstalledAfter(Installed(disk, serverCert), envs, name)
    ensures after.restarts == disk.restarts + RestartedOver(envs, name)
  {
    after := disk;
    var n := 0;
    while n < |envs|
      invariant n <= |envs|
      invariant Installed(after, serverCert) == InstalledAfter(Installed(disk, serverCert), envs[..n], name)
      invariant after.restarts == disk.restarts + RestartedOver(envs[..n], name)
      invariant Unused(after, serverCert, envs, n)
    {
      var before := after;
      var exit;
      after, exit := Run(before, serverCert, name, envs[n]);
      StillUnused(before, after, serverCert, name, envs, n);
      OneMore(Installed(disk, serverCert), disk.restarts, envs, n, name);
      n := n + 1;
    }
    assert envs[..n] == envs;
  }

  lemma TemporariesDiffer(serverCert: string, g: string, h: string)
    ensures TemporaryPath(serverCert, g) != serverCert
    ensures g != h ==> TemporaryPath(serverCert, g) != TemporaryPath(serverCert, h)
  {
    var p := serverCert + ".renewed-";
    assert |TemporaryPath(serverCert, g)| > |serverCert|;
    if TemporaryPath(serverCert, g) == TemporaryPath(serverCert, h) {
      assert |g| == |h|;
      assert g == TemporaryPath(serverCert, g)[|p|..|p| + |g|];
      assert h == TemporaryPath(serverCert, h)[|p|..|p| + |h|];
    }
  }
}
