/**
 * What the certificate manager sees of the machine it runs on. Every external
 * program it spawns is answered by an oracle (`Host.run`), and the files it
 * writes live in a `FileSystem` object whose failing paths are given up front.
 */
module Environment {
  import opened Outcomes

  /** The operating system the binary was built for (`#[cfg(target_os = …)]`). */
  datatype Os = MacOs | Linux | Windows

  /** What a child process that could be spawned reports: its exit status and its standard output. */
  datatype Exit = Exit(success: bool, stdout: string)

  /** The external commands the certificate manager runs. */
  datatype Command =
    | FindIdentity                                     // security find-identity -p ssl -a
    | ListKeychains                                    // security list-keychains
    | FindCertificate(keychain: string)                // security find-certificate -c <CA> -a -Z -k <keychain>
    | DeleteCertificate(hash: string, keychain: string) // sudo security delete-certificate -Z <hash> <keychain>
    | Import(cert: string, keychain: string)           // security import <cert> -k <keychain> -t cert -f pemseq
    | ImportAsAdmin(cert: string)                      // the same into the System keychain, through osascript
    | AddTrusted(cert: string, keychain: string)       // security add-trusted-cert -d -r trustRoot -p ssl -k <keychain> <cert>
    | AddTrustedAsAdmin(cert: string)                  // the same for the System keychain, through osascript
    | VerifyCert(cert: string)                         // security verify-cert -c <cert> -p ssl
    | UpdateCaCertificates                             // update-ca-certificates
    | CertutilAddStore(cert: string)                   // certutil -addstore ROOT <cert>

  /**
   * The machine: the HOME variable (None when unset or not Unicode), the answer
   * to each command (None when the program cannot be spawned), and the answer
   * to the find-identity query repeated once stale certificates were deleted.
   */
  datatype Host = Host(home: Option<string>, run: Command -> Option<Exit>, recheck: Option<Exit>)

  /** The process was spawned and exited successfully. */
  predicate ExitedOk(answer: Option<Exit>) {
    answer.Some? && answer.value.success
  }

  /** Everything the certificate manager reports as an error. */
  datatype Error =
    | SpawnFailed(command: Command)     // `?` on `.output()` / `.status()`
    | HomeNotSet                        // "Failed to get HOME directory"
    | ImportFailed                      // "Failed to import certificate to keychain"
    | TrustFailed                       // "Failed to trust certificate. …"
    | UpdateFailed                      // "Failed to update CA certificates"
    | CertutilFailed                    // "Failed to install CA certificate"
    | CopyFailed(to: string)            // `?` on `std::fs::copy`
    | WriteFailed(path: string)         // `?` on `std::fs::write`
    | GenerationFailed                  // key pair, certificate or PEM serialisation refused
    | NoProjectDirs                     // "Failed to get project directories"
    | CreateDirFailed(path: string)     // `?` on `std::fs::create_dir_all`

  /** The outcome of an operation that spawns commands: its result and the commands it spawned, in order. */
  datatype Ran = Ran(result: Result<(), Error>, log: seq<Command>)

  /** `r`, preceded by the commands `first` spawned before it. */
  function Prepend(first: seq<Command>, r: Ran): Ran {
    Ran(r.result, first + r.log)
  }

  /** The files on disk, by path; a write or copy to a path in `failing` fails. */
  class FileSystem {
    var files: map<string, string>
    const failing: set<string>

    constructor (files: map<string, string>, failing: set<string>)
      ensures this.files == files && this.failing == failing
    {
      this.files := files;
      this.failing := failing;
    }

    /** `std::fs::write`: replaces the whole file, or fails and leaves it as it was. */
    method Write(path: string, contents: string) returns (ok: bool)
      modifies this
      ensures ok <==> path !in failing
      ensures files == if ok then old(files)[path := contents] else old(files)
    {
      ok := path !in failing;
      if ok {
        files := files[path := contents];
      }
    }

    /** `std::fs::create_dir_all`: directories are not modelled, only whether the call fails. */
    method CreateDirAll(path: string) returns (ok: bool)
      ensures ok <==> path !in failing
    {
      ok := path !in failing;
    }

    /** `std::fs::copy`: fails when the source is missing or the target cannot be written. */
    method Copy(from: string, to: string) returns (ok: bool)
      modifies this
      ensures ok <==> from in old(files) && to !in failing
      ensures files == if ok then old(files)[to := old(files)[from]] else old(files)
    {
      ok := from in files && to !in failing;
      if ok {
        files := files[to := files[from]];
      }
    }
  }
}
