/**
 * install_ca, one variant per operating system: which commands are spawned to
 * put the root certificate into the platform's trust store, in which order,
 * and which of their outcomes turn into an error.
 */
module TrustStore {
  import opened Outcomes
  import opened Environment

  /** Where the Linux variant copies the certificate before refreshing the trust store. */
  const TrustAnchorPath: string := "/usr/local/share/ca-certificates/mitmproxy-desktop.crt"

  /** The login keychain, relative to the home directory. */
  const LoginKeychainSuffix: string := "/Library/Keychains/login.keychain-db"

  /** The user's login keychain. */
  function LoginKeychain(home: string): (k: string)
    ensures |k| == |home| + |LoginKeychainSuffix|
    ensures k[..|home|] == home && k[|home|..] == LoginKeychainSuffix
  {
    home + LoginKeychainSuffix
  }

  /** A step done as the user, retried with administrator rights when it exits unsuccessfully, succeeds. */
  predicate Succeeds(run: Command -> Option<Exit>, first: Command, escalated: Command) {
    ExitedOk(run(first)) || (run(first).Some? && ExitedOk(run(escalated)))
  }

  /**
   * Run `first`; when it exits unsuccessfully run `escalated` instead, and
   * report `refused` when that one exits unsuccessfully too.
   */
  function Escalate(run: Command -> Option<Exit>, first: Command, escalated: Command, refused: Error): (r: Ran)
    ensures r.result.Ok? <==> Succeeds(run, first, escalated)
    ensures r.result.Err? ==>
              (run(first).None? && r.result.error == SpawnFailed(first)) ||
              (run(first).Some? && run(escalated).None? && r.result.error == SpawnFailed(escalated)) ||
              (run(first).Some? && run(escalated).Some? && r.result.error == refused)
    ensures r.log == if ExitedOk(run(first)) || run(first).None? then [first] else [first, escalated]
  {
    match run(first)
    case None => Ran(Err(SpawnFailed(first)), [first])
    case Some(answer) =>
      if answer.success then Ran(Ok(()), [first])
      else match run(escalated)
        case None => Ran(Err(SpawnFailed(escalated)), [first, escalated])
        case Some(retried) => Ran(if retried.success then Ok(()) else Err(refused), [first, escalated])
  }

  /** The import step of the macOS variant. */
  function ImportStep(certPath: string, home: string, run: Command -> Option<Exit>): (r: Ran)
    ensures r.result.Ok? <==> Succeeds(run, Import(certPath, LoginKeychain(home)), ImportAsAdmin(certPath))
    ensures r.log != [] && r.log[0] == Import(certPath, LoginKeychain(home))
    ensures r.result.Err? && run(Import(certPath, LoginKeychain(home))).Some? && run(ImportAsAdmin(certPath)).Some?
            ==> r.result.error == ImportFailed
  {
    Escalate(run, Import(certPath, LoginKeychain(home)), ImportAsAdmin(certPath), ImportFailed)
  }

  /** The trust step of the macOS variant. */
  function TrustStep(certPath: string, home: string, run: Command -> Option<Exit>): (r: Ran)
    ensures r.result.Ok? <==> Succeeds(run, AddTrusted(certPath, LoginKeychain(home)), AddTrustedAsAdmin(certPath))
    ensures r.log != [] && r.log[0] == AddTrusted(certPath, LoginKeychain(home))
    ensures r.result.Err? && run(AddTrusted(certPath, LoginKeychain(home))).Some? && run(AddTrustedAsAdmin(certPath)).Some?
            ==> r.result.error == TrustFailed
  {
    Escalate(run, AddTrusted(certPath, LoginKeychain(home)), AddTrustedAsAdmin(certPath), TrustFailed)
  }

  /** The closing verify-cert: only its spawn can fail the installation, never its exit status. */
  function VerifyStep(certPath: string, run: Command -> Option<Exit>): (r: Ran)
    ensures r.log == [VerifyCert(certPath)]
    ensures r.result.Ok? <==> run(VerifyCert(certPath)).Some?
  {
    if run(VerifyCert(certPath)).None? then Ran(Err(SpawnFailed(VerifyCert(certPath))), [VerifyCert(certPath)])
    else Ran(Ok(()), [VerifyCert(certPath)])
  }

  /** Run `next` only when `r` succeeded. */
  function Then(r: Ran, next: Ran): (s: Ran)
    ensures r.result.Err? ==> s == r
    ensures r.result.Ok? ==> s == Prepend(r.log, next)
  {
    if r.result.Err? then r else Prepend(r.log, next)
  }

  /** The macOS install_ca: import, then trust, then verify. */
  function InstallMacOs(certPath: string, host: Host): (r: Ran)
    ensures host.home.None? ==> r == Ran(Err(HomeNotSet), [])
    ensures host.home.Some? ==>
              (r.result.Ok? <==>
                 Succeeds(host.run, Import(certPath, LoginKeychain(host.home.value)), ImportAsAdmin(certPath)) &&
                 Succeeds(host.run, AddTrusted(certPath, LoginKeychain(host.home.value)), AddTrustedAsAdmin(certPath)) &&
                 host.run(VerifyCert(certPath)).Some?)
  {
    match host.home
    case None => Ran(Err(HomeNotSet), [])
    case Some(home) =>
      Then(ImportStep(certPath, home, host.run),
           Then(TrustStep(certPath, home, host.run), VerifyStep(certPath, host.run)))
  }

  /** The commands of the trust and verify steps. */
  predicate AfterImport(c: Command) {
    c.AddTrusted? || c.AddTrustedAsAdmin? || c.VerifyCert?
  }

  /**
   * An import that the administrator retry cannot rescue ends the installation
   * with "Failed to import certificate" before any trust step is attempted.
   */
  lemma FailedImportAborts(certPath: string, host: Host)
    requires host.home.Some?
    requires host.run(Import(certPath, LoginKeychain(host.home.value))).Some?
    requires !ExitedOk(host.run(Import(certPath, LoginKeychain(host.home.value))))
    requires host.run(ImportAsAdmin(certPath)).Some? && !ExitedOk(host.run(ImportAsAdmin(certPath)))
    ensures InstallMacOs(certPath, host)
            == Ran(Err(ImportFailed), [Import(certPath, LoginKeychain(host.home.value)), ImportAsAdmin(certPath)])
    ensures forall c :: c in InstallMacOs(certPath, host).log ==> !AfterImport(c)
  {
  }

  /** Verification is spawned only after both the import and the trust step succeeded, and last. */
  lemma VerifyOnlyAfterTrust(certPath: string, host: Host)
    requires VerifyCert(certPath) in InstallMacOs(certPath, host).log
    ensures host.home.Some?
    ensures Succeeds(host.run, Import(certPath, LoginKeychain(host.home.value)), ImportAsAdmin(certPath))
    ensures Succeeds(host.run, AddTrusted(certPath, LoginKeychain(host.home.value)), AddTrustedAsAdmin(certPath))
    ensures InstallMacOs(certPath, host).log[|InstallMacOs(certPath, host).log| - 1] == VerifyCert(certPath)
  {
  }

  /** Two machines that differ at most in the exit status of verify-cert. */
  ghost predicate DifferInVerifyStatus(run1: Command -> Option<Exit>, run2: Command -> Option<Exit>, certPath: string) {
    (forall c :: c != VerifyCert(certPath) ==> run1(c) == run2(c)) &&
    run1(VerifyCert(certPath)).Some? == run2(VerifyCert(certPath)).Some?
  }

  /** The exit status of verify-cert never changes what the macOS installation does or returns. */
  lemma VerifyStatusIgnored(certPath: string, host1: Host, host2: Host)
    requires host1.home == host2.home
    requires DifferInVerifyStatus(host1.run, host2.run, certPath)
    ensures InstallMacOs(certPath, host1) == InstallMacOs(certPath, host2)
  {
  }

  /**
   * The Linux install_ca, once the certificate was (or was not) copied to the
   * trust-anchor directory: a failed copy is reported before anything is spawned.
   */
  function InstallLinux(copied: bool, host: Host): (r: Ran)
    ensures !copied ==> r == Ran(Err(CopyFailed(TrustAnchorPath)), [])
    ensures copied ==> r.log == [UpdateCaCertificates]
    ensures r.result.Ok? <==> copied && ExitedOk(host.run(UpdateCaCertificates))
  {
    if !copied then Ran(Err(CopyFailed(TrustAnchorPath)), [])
    else match host.run(UpdateCaCertificates)
      case None => Ran(Err(SpawnFailed(UpdateCaCertificates)), [UpdateCaCertificates])
      case Some(answer) => Ran(if answer.success then Ok(()) else Err(UpdateFailed), [UpdateCaCertificates])
  }

  /** The Windows install_ca: one certutil call into the ROOT store. */
  function InstallWindows(certPath: string, host: Host): (r: Ran)
    ensures r.log == [CertutilAddStore(certPath)]
    ensures r.result.Ok? <==> ExitedOk(host.run(CertutilAddStore(certPath)))
    ensures r.result.Err? && host.run(CertutilAddStore(certPath)).Some? ==> r.result.error == CertutilFailed
  {
    match host.run(CertutilAddStore(certPath))
    case None => Ran(Err(SpawnFailed(CertutilAddStore(certPath))), [CertutilAddStore(certPath)])
    case Some(answer) => Ran(if answer.success then Ok(()) else Err(CertutilFailed), [CertutilAddStore(certPath)])
  }

  /** install_ca as compiled for `os`; `copied` is the outcome of the Linux copy and is ignored elsewhere. */
  function InstallFor(os: Os, certPath: string, copied: bool, host: Host): Ran {
    match os
    case MacOs => InstallMacOs(certPath, host)
    case Linux => InstallLinux(copied, host)
    case Windows => InstallWindows(certPath, host)
  }
}
