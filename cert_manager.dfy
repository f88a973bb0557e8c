/**
 * The certificate manager: where the root CA's files live, whether the CA is
 * ready, and how a new CA is generated, stored and installed.
 */
module CertManagement {
  import opened Outcomes
  import opened RustText
  import opened Environment
  import opened Keychain
  import opened TrustStore

  /** A generated root CA, as the PEM text of its certificate and of its private key. */
  datatype Ca = Ca(certPem: string, keyPem: string)

  /** `PathBuf::join` with a relative name: a separator is added unless the directory is empty or already ends in one. */
  function Join(dir: string, name: string): (path: string)
    ensures |path| >= |name| && path[|path| - |name|..] == name
    ensures dir <= path
  {
    if dir == [] || dir[|dir| - 1] == '/' then dir + name else dir + "/" + name
  }

  const CertFileName: string := "ca.crt"
  const KeyFileName: string := "ca.key"

  /** The certificate and the key never share a path. */
  lemma CertAndKeyApart(dir: string)
    ensures Join(dir, CertFileName) != Join(dir, KeyFileName)
  {
  }

  // ---------------------------------------------------------------------------
  // The specification of generate_ca over the files on disk

  /** Whether the Linux copy into the trust-anchor directory succeeds. */
  predicate Copies(certPath: string, files: map<string, string>, failing: set<string>) {
    certPath in files && TrustAnchorPath !in failing
  }

  /** The files after install_ca: only the Linux variant writes one. */
  function InstalledFiles(os: Os, certPath: string, files: map<string, string>, failing: set<string>): (after: map<string, string>)
    ensures os != Linux || !Copies(certPath, files, failing) ==> after == files
    ensures os == Linux && Copies(certPath, files, failing) ==> after == files[TrustAnchorPath := files[certPath]]
  {
    if os == Linux && Copies(certPath, files, failing) then files[TrustAnchorPath := files[certPath]] else files
  }

  /** What install_ca returns and spawns. */
  function Install(os: Os, certPath: string, files: map<string, string>, failing: set<string>, host: Host): Ran {
    InstallFor(os, certPath, Copies(certPath, files, failing), host)
  }

  /** The state generate_ca leaves behind: its outcome, the files, and the manager's CA. */
  datatype Generation = Generation(ran: Ran, files: map<string, string>, ca: Option<Ca>)

  /** The stale-certificate cleanup, which only the macOS build runs. */
  function CleanupFor(os: Os, host: Host): Ran {
    if os == MacOs then Cleanup(host) else Ran(Ok(()), [])
  }

  /**
   * generate_ca: clean up (macOS), generate (`generated` is None when key or
   * certificate generation fails), write the certificate, write the key, keep
   * the CA, install it; the first failure ends the operation.
   */
  function Generate(os: Os, certPath: string, keyPath: string, ca: Option<Ca>,
                    files: map<string, string>, failing: set<string>,
                    host: Host, generated: Option<Ca>): (g: Generation)
    ensures g.ca == ca || g.ca == generated
  {
    var cleanup := CleanupFor(os, host);
    if cleanup.result.Err? then Generation(cleanup, files, ca)
    else if generated.None? then Generation(Ran(Err(GenerationFailed), cleanup.log), files, ca)
    else if certPath in failing then Generation(Ran(Err(WriteFailed(certPath)), cleanup.log), files, ca)
    else
      var withCert := files[certPath := generated.value.certPem];
      if keyPath in failing then Generation(Ran(Err(WriteFailed(keyPath)), cleanup.log), withCert, ca)
      else
        var withKey := withCert[keyPath := generated.value.keyPem];
        Generation(Prepend(cleanup.log, Install(os, certPath, withKey, failing, host)),
                   InstalledFiles(os, certPath, withKey, failing), generated)
  }

  /** A failed cleanup ends generate_ca before anything is generated or written. */
  lemma CleanupFailureWritesNothing(os: Os, certPath: string, keyPath: string, ca: Option<Ca>,
                                    files: map<string, string>, failing: set<string>,
                                    host: Host, generated: Option<Ca>)
    requires os == MacOs && Cleanup(host).result.Err?
    ensures Generate(os, certPath, keyPath, ca, files, failing, host, generated) == Generation(Cleanup(host), files, ca)
  {
  }

  /**
   * The certificate is written before the key: when the certificate cannot be
   * written the key is left alone, and when the key cannot be written the new
   * certificate is already on disk; in both cases the manager keeps its old CA.
   */
  lemma CertWrittenBeforeKey(os: Os, certPath: string, keyPath: string, ca: Option<Ca>,
                             files: map<string, string>, failing: set<string>,
                             host: Host, generated: Option<Ca>)
    requires generated.Some? && CleanupFor(os, host).result.Ok?
    ensures var g := Generate(os, certPath, keyPath, ca, files, failing, host, generated);
            (certPath in failing ==>
               g == Generation(Ran(Err(WriteFailed(certPath)), CleanupFor(os, host).log), files, ca)) &&
            (certPath !in failing && keyPath in failing ==>
               g.ran.result == Err(WriteFailed(keyPath)) && g.ca == ca &&
               g.files == files[certPath := generated.value.certPem])
  {
  }

  /**
   * The manager adopts the new CA only once both files were written, and the
   * installation runs last: whatever install_ca reports, the new files and the
   * new CA are already in place.
   */
  lemma CaKeptOnlyAfterBothWrites(os: Os, certPath: string, keyPath: string, ca: Option<Ca>,
                                  files: map<string, string>, failing: set<string>,
                                  host: Host, generated: Option<Ca>)
    requires certPath != keyPath && keyPath != TrustAnchorPath
    ensures var g := Generate(os, certPath, keyPath, ca, files, failing, host, generated);
            g.ca != ca ==>
              CleanupFor(os, host).result.Ok? && generated.Some? && g.ca == generated &&
              certPath !in failing && keyPath !in failing &&
              certPath in g.files && g.files[certPath] == generated.value.certPem &&
              keyPath in g.files && g.files[keyPath] == generated.value.keyPem
  {
  }

  /** Once both files are written, the outcome is install_ca's, after the cleanup's commands. */
  lemma InstallRunsLast(os: Os, certPath: string, keyPath: string, ca: Option<Ca>,
                        files: map<string, string>, failing: set<string>,
                        host: Host, generated: Option<Ca>)
    requires CleanupFor(os, host).result.Ok? && generated.Some?
    requires certPath !in failing && keyPath !in failing
    ensures var g := Generate(os, certPath, keyPath, ca, files, failing, host, generated);
            var withKey := files[certPath := generated.value.certPem][keyPath := generated.value.keyPem];
            g.ca == generated &&
            g.files == InstalledFiles(os, certPath, withKey, failing) &&
            g.ran == Prepend(CleanupFor(os, host).log, Install(os, certPath, withKey, failing, host))
  {
  }

  /** When the certificate generator fails, after the cleanup's commands, nothing is written and the CA stays. */
  lemma GenerationFailureChangesNothing(os: Os, certPath: string, keyPath: string, ca: Option<Ca>,
                                        files: map<string, string>, failing: set<string>, host: Host)
    requires CleanupFor(os, host).result.Ok?
    ensures Generate(os, certPath, keyPath, ca, files, failing, host, None)
            == Generation(Ran(Err(GenerationFailed), CleanupFor(os, host).log), files, ca)
  {
  }

  // ---------------------------------------------------------------------------
  // The manager

  class CertManager {
    /** The CA generated during this run, if any. */
    var caCert: Option<Ca>
    const certPath: string
    const keyPath: string
    /** The operating system the manager was built for. */
    const os: Os

    /** The manager for a configuration directory: the CA's files are ca.crt and ca.key inside it. */
    constructor (configDir: string, os: Os)
      ensures caCert.None?
      ensures certPath == Join(configDir, CertFileName) && keyPath == Join(configDir, KeyFileName)
      ensures this.os == os
    {
      caCert := None;
      certPath := Join(configDir, CertFileName);
      keyPath := Join(configDir, KeyFileName);
      this.os := os;
    }

    /**
     * CertManager::new: the project's configuration directory (None when the
     * platform has none) is created, then the manager is built over it.
     */
    static method New(configDir: Option<string>, fs: FileSystem, os: Os) returns (r: Result<CertManager, Error>)
      ensures configDir.None? ==> r == Err(NoProjectDirs)
      ensures configDir.Some? && configDir.value in fs.failing ==> r == Err(CreateDirFailed(configDir.value))
      ensures configDir.Some? && configDir.value !in fs.failing ==> r.Ok?
      ensures r.Ok? ==>
                configDir.Some? && configDir.value !in fs.failing && fresh(r.value) &&
                r.value.caCert.None? && r.value.os == os &&
                r.value.certPath == Join(configDir.value, CertFileName) &&
                r.value.keyPath == Join(configDir.value, KeyFileName)
    {
      if configDir.None? {
        return Err(NoProjectDirs);
      }
      var created := fs.CreateDirAll(configDir.value);
      if !created {
        return Err(CreateDirFailed(configDir.value));
      }
      var manager := new CertManager(configDir.value, os);
      r := Ok(manager);
    }

    /**
     * has_ca: both files must exist; on macOS the CA must also show up in the
     * find-identity output, and a find-identity that cannot be spawned counts as absent.
     */
    function HasCa(fs: FileSystem, host: Host): (ready: bool)
      reads fs
      ensures certPath !in fs.files || keyPath !in fs.files ==> !ready
      ensures certPath in fs.files && keyPath in fs.files && os != MacOs ==> ready
      ensures certPath in fs.files && keyPath in fs.files && os == MacOs ==>
                (ready <==> host.run(FindIdentity).Some? && Occurs(host.run(FindIdentity).value.stdout, CaName))
    {
      if certPath !in fs.files || keyPath !in fs.files then false
      else if os == MacOs then
        match VerifyCertInKeychain(host.run(FindIdentity))
        case Ok(present) => present
        case Err(_) => false
      else true
    }

    /** install_ca: the Linux variant copies the certificate first; the others only spawn commands. */
    method InstallCa(fs: FileSystem, host: Host) returns (r: Ran)
      modifies fs
      ensures r == Install(os, certPath, old(fs.files), fs.failing, host)
      ensures fs.files == InstalledFiles(os, certPath, old(fs.files), fs.failing)
    {
      var copied := false;
      if os == Linux {
        copied := fs.Copy(certPath, TrustAnchorPath);
      }
      r := InstallFor(os, certPath, copied, host);
    }

    /** generate_ca, step by step; `generated` is what the certificate generator produced, if anything. */
    method GenerateCa(fs: FileSystem, host: Host, generated: Option<Ca>) returns (r: Ran)
      modifies this`caCert, fs
      ensures var g := Generate(os, certPath, keyPath, old(caCert), old(fs.files), fs.failing, host, generated);
              r == g.ran && fs.files == g.files && caCert == g.ca
    {
      var cleaned: Result<(), Error> := Ok(());
      var log: seq<Command> := [];
      if os == MacOs {
        cleaned, log := CleanupOldCertificates(host);
        if cleaned.Err? {
          return Ran(cleaned, log);
        }
      }
      assert Ran(cleaned, log) == CleanupFor(os, host);
      if generated.None? {
        return Ran(Err(GenerationFailed), log);
      }
      var wroteCert := fs.Write(certPath, generated.value.certPem);
      if !wroteCert {
        return Ran(Err(WriteFailed(certPath)), log);
      }
      var wroteKey := fs.Write(keyPath, generated.value.keyPem);
      if !wroteKey {
        return Ran(Err(WriteFailed(keyPath)), log);
      }
      caCert := generated;
      var installed := InstallCa(fs, host);
      r := Prepend(log, installed);
    }
  }

  /**
   * Outside macOS a generation whose two writes succeed leaves the manager
   * ready, whatever the installation reports.
   */
  lemma GeneratedCaIsReady(os: Os, certPath: string, keyPath: string, ca: Option<Ca>,
                           files: map<string, string>, failing: set<string>,
                           host: Host, generated: Option<Ca>)
    requires os != MacOs && generated.Some? && certPath !in failing && keyPath !in failing
    ensures var g := Generate(os, certPath, keyPath, ca, files, failing, host, generated);
            certPath in g.files && keyPath in g.files
  {
  }
}
