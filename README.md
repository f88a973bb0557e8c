# Mitmproxy Desktop — certificate manager, proxy slot and window reducer in Dafny

This project models the decision logic at the core of Mitmproxy Desktop, an
iced desktop front end for a hudsucker intercepting proxy. It covers three
pieces and proves properties about each.

**The certificate manager** (`cert_manager.rs`):
- `has_ca`, the readiness rule for the root CA.
- The `find-identity` substring check.
- The macOS cleanup pass, which lists keychains, extracts SHA-1 hashes and deletes stale copies of the CA.
- The `install_ca` outcome tables for macOS, Linux and Windows.
- The step order of `generate_ca`: cleanup, then write the certificate, then write the key, then adopt the CA, then install.
- The file layout set up by `new`.

**The proxy lifecycle** (`proxy.rs`): `ProxyManager` keeps one `Option<Sender>` slot.
- `start` is a no-op while the slot is occupied.
- `start` fails with the slot still empty when the certificate is missing, unreadable or not valid PEM.
- `start` fills the slot before the proxy is built.
- `stop` takes the sender out of the slot.
- The HTTP and WebSocket handlers are identities.

**The window** (`app.rs`):
- `new`, and `update` with every message arm.
- The `u16` port parse that falls back to 8080.
- How a command's result maps to the next `ProxyState`.
- The control button and the status lines shown by `view`.

**How the environment is represented:**
- External programs (`security`, `osascript`, `sudo`, `update-ca-certificates`, `certutil`) are answered by an oracle, `Environment.Host.run`. Its answer is the exit status and stdout, or None when the program cannot be spawned.
- Each operation that spawns programs returns its result together with the list of commands it spawned, in order.
- Files live in `Environment.FileSystem`, a class whose map of files the write and copy methods update in place.
- `CertManager`, `ProxyManager` and `MitmproxyDesktop` are classes whose methods update their fields. `GenerateCa`, `InstallCa`, `Start`, `Stop`, `Update` and `Perform` are each proved equal to a pure step function, and the lemmas are proved about those step functions. `CertManager.New` is specified directly by its outcomes.

**The certificate line.** It reads
"Certificate: Not selected" not only when no path is set. It reads the same when the selected path is
literally `Not selected`, because the code prints `unwrap_or("Not selected")`.
`Desktop.CertificateTextNotSelected` proves the exact condition.

Files:
- `outcomes.dfy`: `Option` and `Result`.
- `rust_text.dfy`: the `str` operations the parsers rely on: `lines`, `trim`, `trim_matches`, `contains` and `split_whitespace`.
- `environment.dfy`: the oracle, the commands, the errors and the file system.
- `keychain.dfy`: the macOS check, the parsers and the cleanup pass.
- `trust_store.dfy`: `install_ca`.
- `cert_manager.dfy`: `CertManager`.
- `proxy.dfy`: `ProxyManager` and the handlers.
- `app.dfy`: `MitmproxyDesktop`.

## Model

| member | source | states |
|---|---|---|
| Keychain.VerifyCertInKeychain | mitmproxy-desktop/src/cert_manager.rs:118-136 | It is an error exactly when `security find-identity` cannot be spawned. Otherwise it is true iff the output contains "Mitmproxy Desktop Root CA"; the exit status is never consulted. |
| RustText.ContainsIff | mitmproxy-desktop/src/cert_manager.rs:135 | `contains` is true iff the substring occurs at some index. |
| RustText.Lines | mitmproxy-desktop/src/cert_manager.rs:158 | `str::lines` yields at most one line per character, and no line holds a line feed. |
| RustText.LinesOfOneLine | mitmproxy-desktop/src/cert_manager.rs:158 | Non-empty text without a line feed is a single line, kept whole. |
| RustText.LinesSplitAtFeed | mitmproxy-desktop/src/cert_manager.rs:158 | The first line is the text before the first line feed, with a carriage return just before that feed removed, and the remaining lines come from the text after the feed. With `Lines("") == []` this determines every line. |
| Keychain.CleanLine | mitmproxy-desktop/src/cert_manager.rs:160 | A cleaned line neither begins nor ends with `"`. |
| Keychain.CleanLineIsPiece | mitmproxy-desktop/src/cert_manager.rs:160 | A cleaned line is a contiguous piece of the listed line; only whitespace and `"` are cut from either side. |
| Keychain.KeychainPaths | mitmproxy-desktop/src/cert_manager.rs:161-166 | Only cleaned lines containing "keychain" are kept, each one taken from the input, and there are never more than the input has. |
| Keychain.KeychainPathsKeepOrder | mitmproxy-desktop/src/cert_manager.rs:157-167 | The kept paths are a subsequence of the cleaned lines: input order is preserved. |
| Keychain.KeychainPathsComplete | mitmproxy-desktop/src/cert_manager.rs:161-165 | Every cleaned line that contains "keychain" is kept. |
| Keychain.KeychainPathsSelect | mitmproxy-desktop/src/cert_manager.rs:157-167 | The paths are exactly the cleaned lines that contain "keychain": each such line is kept once, in input order, and nothing else is kept. |
| Keychain.KeychainPathsCount | mitmproxy-desktop/src/cert_manager.rs:161-165 | There are as many paths as cleaned lines containing "keychain", so a keychain listed twice is cleaned twice. |
| Keychain.ParseKeychainsShape | mitmproxy-desktop/src/cert_manager.rs:157-167 | The list-keychains output gives at most one path per line. Each path contains "keychain" and neither begins nor ends with `"`. |
| Keychain.Sha1LineHasToken | mitmproxy-desktop/src/cert_manager.rs:192-194 | A line starting with "SHA-1 hash:" always has a last whitespace-separated word, so the token is never empty and the emptiness guard never fires. |
| Keychain.HashToken | mitmproxy-desktop/src/cert_manager.rs:193 | The token holds no whitespace, and it is non-empty whenever the line has a non-whitespace character. |
| RustText.LastWordAt | mitmproxy-desktop/src/cert_manager.rs:193 | The last word `split_whitespace` yields stands in the text at the start or after whitespace, with only whitespace after it. |
| RustText.LastRunUnique | mitmproxy-desktop/src/cert_manager.rs:193 | A text has at most one non-empty whitespace-free word that ends it that way. |
| Keychain.HashTokenIsLastWord | mitmproxy-desktop/src/cert_manager.rs:193 | The token is "" exactly when the line is blank. Otherwise it is a piece of the line that starts it or follows whitespace, and only whitespace comes after it. |
| Keychain.HashTokenIsTheLastWord | mitmproxy-desktop/src/cert_manager.rs:193 | Any non-empty whitespace-free word that ends the line that way is the token: the token is the line's last whitespace-separated word. |
| Keychain.Sha1Hashes | mitmproxy-desktop/src/cert_manager.rs:191-201 | At most one token per line; every token is non-empty and free of whitespace. |
| Keychain.Sha1HashesSelect | mitmproxy-desktop/src/cert_manager.rs:191-194 | The tokens are the last words of exactly the lines that start with "SHA-1 hash:": one per such line, in order, and none from any other line. |
| Keychain.Sha1HashesFromLines | mitmproxy-desktop/src/cert_manager.rs:191-194 | Every token is the last word of some line that starts with "SHA-1 hash:". |
| Keychain.Sha1HashesCount | mitmproxy-desktop/src/cert_manager.rs:191-194 | There are as many tokens as lines that start with "SHA-1 hash:". |
| Keychain.BareSha1Line | mitmproxy-desktop/src/cert_manager.rs:192-194 | A bare "SHA-1 hash:" line yields the token "hash:". |
| Keychain.DeleteListed | mitmproxy-desktop/src/cert_manager.rs:191-201 | The deletion loop fails only with a spawn failure, and the command that failed is a `sudo security delete-certificate` on this keychain that could not be spawned. |
| Keychain.CleanKeychains | mitmproxy-desktop/src/cert_manager.rs:172-202 | The keychain loop fails only on a spawn failure. With no keychains it is Ok and spawns nothing. |
| Keychain.CleanKeychainsStartsWithFind | mitmproxy-desktop/src/cert_manager.rs:172-186 | The loop opens with find-certificate on the first keychain. |
| Keychain.Recheck | mitmproxy-desktop/src/cert_manager.rs:204-211 | After a successful pass, find-identity is spawned once more and logged last. The pass is then Ok iff that command can be spawned, whether or not the CA is still present. A failed pass is returned unchanged, without the re-check. |
| Keychain.Cleanup | mitmproxy-desktop/src/cert_manager.rs:138-212 | The pass starts with find-identity and can fail only on a spawn failure. When the CA is absent it returns Ok after that single command, with no delete attempt. |
| Keychain.DeleteHashes | mitmproxy-desktop/src/cert_manager.rs:191-201 | The loop over the find-certificate lines spawns and returns exactly what `DeleteListed` specifies. |
| Keychain.CleanEachKeychain | mitmproxy-desktop/src/cert_manager.rs:172-202 | The loop over the keychains, including its early returns, spawns and returns exactly what `CleanKeychains` specifies. |
| Keychain.CleanupOldCertificates | mitmproxy-desktop/src/cert_manager.rs:138-212 | `cleanup_old_certificates` spawns and returns exactly what `Cleanup` specifies. |
| Keychain.CleanupDeletesEveryHash | mitmproxy-desktop/src/cert_manager.rs:172-202 | When the CA is present and every program can be spawned, cleanup returns Ok. It makes exactly one delete attempt per extracted hash per parsed keychain, in order. |
| Keychain.CleanupIgnoresExitStatus | mitmproxy-desktop/src/cert_manager.rs:196-209 | Hosts that print the same output give the same cleanup result and commands, whatever the exit statuses. Neither a failed delete nor a CA still present at the re-check produces `Err`. |
| TrustStore.LoginKeychain | mitmproxy-desktop/src/cert_manager.rs:222-223 | The login keychain is `$HOME/Library/Keychains/login.keychain-db`. |
| TrustStore.Escalate | mitmproxy-desktop/src/cert_manager.rs:239-255 | A step succeeds iff the user-level command exits successfully, or it ran and the administrator retry exits successfully. On failure the error is exactly one of three: the user command could not be spawned; it ran but the retry could not be spawned; or both ran and the retry exited unsuccessfully, which gives the step's own error. The retry runs only after a user-level failure. |
| TrustStore.ImportStep | mitmproxy-desktop/src/cert_manager.rs:225-255 | The import starts with `security import` into the login keychain. It succeeds iff that exits successfully, or it ran and the administrator import exits successfully. Two unsuccessful exits are "Failed to import certificate". |
| TrustStore.TrustStep | mitmproxy-desktop/src/cert_manager.rs:259-289 | The trust step starts with `security add-trusted-cert` on the login keychain. It succeeds iff that exits successfully, or it ran and the administrator retry exits successfully. Two unsuccessful exits are "Failed to trust certificate". |
| TrustStore.Then | mitmproxy-desktop/src/cert_manager.rs:237-300 | A failed step ends the installation with its own result and commands. After a successful step the next one runs, and its commands follow. |
| TrustStore.VerifyStep | mitmproxy-desktop/src/cert_manager.rs:291-307 | `verify-cert` fails the installation only when it cannot be spawned. |
| TrustStore.InstallMacOs | mitmproxy-desktop/src/cert_manager.rs:214-310 | An unset HOME fails before any command. Otherwise the result is Ok iff the import succeeds (user or admin), the trust step succeeds (user or admin), and verify-cert can be spawned. |
| TrustStore.FailedImportAborts | mitmproxy-desktop/src/cert_manager.rs:239-254 | When both imports run and fail, the result is "failed to import" after exactly those two commands, with no trust or verify step. |
| TrustStore.VerifyOnlyAfterTrust | mitmproxy-desktop/src/cert_manager.rs:257-300 | verify-cert runs only after both the import and the trust step succeeded, and it is the last command. |
| TrustStore.VerifyStatusIgnored | mitmproxy-desktop/src/cert_manager.rs:302-309 | The exit status of verify-cert never changes the macOS result or commands. |
| TrustStore.InstallLinux | mitmproxy-desktop/src/cert_manager.rs:312-333 | A failed copy is an error before anything is spawned. Otherwise the result is Ok iff `update-ca-certificates` exits successfully. |
| TrustStore.InstallWindows | mitmproxy-desktop/src/cert_manager.rs:335-352 | The result is Ok iff `certutil -addstore ROOT` exits successfully. An unsuccessful exit is "Failed to install CA certificate". |
| CertManagement.Join | mitmproxy-desktop/src/cert_manager.rs:27-28 | `PathBuf::join` keeps the directory as a prefix and ends with the file name. |
| CertManagement.CertAndKeyApart | mitmproxy-desktop/src/cert_manager.rs:27-28 | `ca.crt` and `ca.key` never share a path. |
| CertManagement.CertManager.constructor | mitmproxy-desktop/src/cert_manager.rs:25-29 | A new manager has no CA. Its files are `ca.crt` and `ca.key` in the configuration directory. |
| CertManagement.CertManager.New | mitmproxy-desktop/src/cert_manager.rs:17-30 | A missing project directory and a failed `create_dir_all` are errors. A directory that can be created always gives Ok: a fresh manager with no CA, over ca.crt and ca.key inside that directory. |
| Environment.FileSystem.CreateDirAll | mitmproxy-desktop/src/cert_manager.rs:23 | Creating the configuration directory succeeds iff its path can be written. |
| Environment.FileSystem.Write | mitmproxy-desktop/src/cert_manager.rs:108-109 | A write succeeds iff the path can be written. It then replaces that one file with the new contents and leaves every other file alone; a failed write changes nothing. |
| Environment.FileSystem.Copy | mitmproxy-desktop/src/cert_manager.rs:319-322 | A copy succeeds iff the source exists and the target can be written. It then gives the target the source's contents and changes nothing else; a failed copy changes nothing. |
| CertManagement.CertManager.HasCa | mitmproxy-desktop/src/cert_manager.rs:32-51 | Without both files the CA is not ready, on every platform. With both files it is ready on other platforms. On macOS it is ready iff find-identity runs and names the CA; a spawn error counts as false. |
| CertManagement.InstalledFiles | mitmproxy-desktop/src/cert_manager.rs:318-322 | Only a successful Linux copy changes the files: the trust anchor receives the certificate's contents. |
| CertManagement.CertManager.InstallCa | mitmproxy-desktop/src/cert_manager.rs:312-333 | `install_ca` on the manager's certificate: the Linux copy through the file system, then that platform's outcome table. |
| CertManagement.Generate | mitmproxy-desktop/src/cert_manager.rs:87-116 | `generate_ca` either keeps the manager's CA or adopts the generated one. |
| CertManagement.CertManager.GenerateCa | mitmproxy-desktop/src/cert_manager.rs:87-116 | `generate_ca`, step by step, returns, writes and adopts exactly what `Generate` specifies. |
| CertManagement.CleanupFailureWritesNothing | mitmproxy-desktop/src/cert_manager.rs:90-92 | On macOS a failed cleanup is returned before anything is generated or written. |
| CertManagement.CertWrittenBeforeKey | mitmproxy-desktop/src/cert_manager.rs:107-109 | A failed certificate write leaves every file as it was. A failed key write leaves the new certificate on disk. In both cases the old CA is kept. |
| CertManagement.CaKeptOnlyAfterBothWrites | mitmproxy-desktop/src/cert_manager.rs:107-111 | The manager adopts a new CA only after the cleanup, the generation and both writes succeeded, and both new files are then on disk. |
| CertManagement.InstallRunsLast | mitmproxy-desktop/src/cert_manager.rs:108-112 | Once both files are written the new CA is adopted. The files are the two new PEMs plus what `install_ca` copies, and the outcome is `install_ca`'s after the cleanup's commands. An install error therefore comes with the files and the CA already in place. |
| CertManagement.GenerationFailureChangesNothing | mitmproxy-desktop/src/cert_manager.rs:103-105 | A failed key or certificate generation returns an error after the cleanup's commands, with the files and the CA unchanged. |
| CertManagement.GeneratedCaIsReady | mitmproxy-desktop/src/cert_manager.rs:107-112 | Off macOS, once both writes succeed both files exist, whatever the installation reports. |
| Proxy.HandleRequest | mitmproxy-desktop/src/proxy.rs:27-34 | The request is forwarded unchanged. |
| Proxy.HandleResponse | mitmproxy-desktop/src/proxy.rs:36-39 | The response is passed back unchanged. |
| Proxy.HandleMessage | mitmproxy-desktop/src/proxy.rs:43-46 | Every WebSocket message is relayed as `Some(msg)`, never dropped. |
| Proxy.HttpIsTransparent | mitmproxy-desktop/src/proxy.rs:26-39 | The request goes on unchanged and the response comes back unchanged. |
| Proxy.RelayIsTransparent | mitmproxy-desktop/src/proxy.rs:43-46 | Every WebSocket message is relayed as `Some(msg)`, so a stream passes through unchanged and in order. |
| Proxy.LoadCa | mitmproxy-desktop/src/proxy.rs:68-73 | Loading succeeds iff a path is set, the file reads, and its contents parse both as a certificate and as a private key. |
| Proxy.Initial | mitmproxy-desktop/src/proxy.rs:55-59 | A new manager's slot is empty and nothing has been launched. |
| Proxy.StartStep | mitmproxy-desktop/src/proxy.rs:61-108 | On an occupied slot, start is Ok and changes nothing. A loading error leaves the slot empty. Otherwise a fresh sender fills the slot, and a listener is launched iff the build succeeds; a build failure is `Err` with the slot occupied. |
| Proxy.StopStep | mitmproxy-desktop/src/proxy.rs:110-116 | Stop empties the slot and signals the sender's listener if there was one. On an empty slot it changes nothing. |
| Proxy.InitialValid | mitmproxy-desktop/src/proxy.rs:55-59 | A new manager satisfies the slot invariant. |
| Proxy.AtMostOneListener | mitmproxy-desktop/src/proxy.rs:62-65 | Under the invariant, two running listeners are the same listener. |
| Proxy.StartKeepsValid | mitmproxy-desktop/src/proxy.rs:61-108 | Start preserves the invariant that a running listener is the one the slot's sender stops. |
| Proxy.StopKeepsValid | mitmproxy-desktop/src/proxy.rs:110-116 | Stop preserves the invariant. |
| Proxy.NeverTwoListeners | mitmproxy-desktop/src/proxy.rs:61-116 | After any sequence of starts and stops the invariant holds, so at most one listener runs. |
| Proxy.RepeatedStartIsNoOp | mitmproxy-desktop/src/proxy.rs:62-65 | Once a start has filled the slot, another start is Ok and changes nothing. |
| Proxy.BuildFailureLatches | mitmproxy-desktop/src/proxy.rs:84-97 | A build failure leaves the slot occupied with nothing launched. Every later start then reports Ok without launching. |
| Proxy.StopIsIdempotent | mitmproxy-desktop/src/proxy.rs:110-116 | Stopping twice is the same as stopping once. |
| Proxy.StartStopStartLaunchesTwice | mitmproxy-desktop/src/proxy.rs:61-116 | Start, stop, start launches two listeners on distinct channels, and the first one is signalled to shut down. |
| Proxy.ProxyManager.constructor | mitmproxy-desktop/src/proxy.rs:55-59 | The manager starts with an empty slot. |
| Proxy.ProxyManager.Start | mitmproxy-desktop/src/proxy.rs:61-108 | `start` under the mutex changes the slot and returns exactly as `StartStep` specifies. |
| Proxy.ProxyManager.Stop | mitmproxy-desktop/src/proxy.rs:110-116 | `stop` always returns Ok and changes the slot as `StopStep` specifies. |
| Desktop.InitialState | mitmproxy-desktop/src/app.rs:43-45 | A new window starts as `Stopped`, port "8080", no certificate. |
| Desktop.Reduce | mitmproxy-desktop/src/app.rs:55-114 | The three button messages change no field and only return a command. `CertificateSelected`, `PortChanged` and `ProxyStateChanged` each replace their one field verbatim. |
| Desktop.UpdateChangesAtMostOneField | mitmproxy-desktop/src/app.rs:101-112 | Every message leaves at least two fields unchanged. A command is returned iff the message comes from a button. |
| Desktop.ParseU16 | mitmproxy-desktop/src/app.rs:66 | A text parses iff, after one optional '+', it is a non-empty run of ASCII digits whose value is below 65536. The parsed port is that value. |
| Desktop.StartPort | mitmproxy-desktop/src/app.rs:66 | The port given to start is the parsed `u16`, or 8080 when the text does not parse. |
| Desktop.PortRoundTrip | mitmproxy-desktop/src/app.rs:66 | Every port written in decimal parses back to itself and is the port the proxy starts on. |
| Desktop.PortFallbacks | mitmproxy-desktop/src/app.rs:66 | An empty text, a lone '+', a leading '-', and any non-digit after the optional '+' all fall back to 8080. |
| Desktop.LargePortsFallBack | mitmproxy-desktop/src/app.rs:66 | Every run of digits worth 65536 or more falls back to 8080, with or without a leading '+'. |
| Desktop.Reported | mitmproxy-desktop/src/app.rs:70-72 | An Ok result reports the target state (Running after a start, Stopped after a stop). An `Err` reports Error. |
| Desktop.Picked | mitmproxy-desktop/src/app.rs:88-100 | The dialog reports the picked path. A cancelled dialog, or a path that is not Unicode, reports the empty path. |
| Desktop.Execute | mitmproxy-desktop/src/app.rs:57-100 | Every command except the empty one replies with exactly one message. Start reports Running iff the manager's start is Ok, and Error otherwise. Stop always reports Stopped. The dialog reports the picked path, or the empty one. Only start and stop touch the manager. |
| Desktop.CancelledDialogSelectsEmptyPath | mitmproxy-desktop/src/app.rs:99-103 | A cancelled dialog sets the certificate path to `Some("")`, never None. |
| Desktop.ControlButton | mitmproxy-desktop/src/app.rs:124-128 | The button sends `StartProxy` iff the state is not Running, and `StopProxy` iff it is Running. It reads "Start Proxy" exactly when Stopped, "Stop Proxy" exactly when Running, and "Retry" exactly in Error. |
| Desktop.ControlLabelsDistinct | mitmproxy-desktop/src/app.rs:124-128 | "Start Proxy", "Stop Proxy" and "Retry" tell the three states apart. |
| Desktop.StatusText | mitmproxy-desktop/src/app.rs:134 | The status line is "Status: " followed by the state's `Debug` name. |
| Desktop.StatusTextNamesState | mitmproxy-desktop/src/app.rs:134 | Two states show the same status line iff they are the same state. |
| Desktop.CertificateText | mitmproxy-desktop/src/app.rs:135-138 | The certificate line is "Certificate: " followed by the selected path, or by "Not selected" when there is none. |
| Desktop.CertificateTextShowsPath | mitmproxy-desktop/src/app.rs:135-138 | A selected path is shown verbatim, so two paths show the same line iff they are the same path. |
| Desktop.CertificateTextNotSelected | mitmproxy-desktop/src/app.rs:135-138 | The line reads "Certificate: Not selected" iff there is no path or the path is the text "Not selected". |
| Desktop.PressStartShowsRunning | mitmproxy-desktop/src/app.rs:57-74 | Pressing Start Proxy with a loadable CA and a working builder launches one listener on the typed port. The window then shows Running, whose button sends `StopProxy`. |
| Desktop.RetryAfterBuildFailureShowsRunningWithoutListener | mitmproxy-desktop/src/app.rs:57-74 | After a build failure the window shows Error. Pressing Retry then shows Running although no listener is launched. |
| Desktop.MitmproxyDesktop.constructor | mitmproxy-desktop/src/app.rs:37-49 | A new window is `Stopped`, port "8080", no certificate, and owns a manager with an empty slot. |
| Desktop.MitmproxyDesktop.Update | mitmproxy-desktop/src/app.rs:55-114 | `update` assigns the fields and returns the command exactly as `Reduce` specifies. |
| Desktop.MitmproxyDesktop.Perform | mitmproxy-desktop/src/app.rs:57-100 | Performing a command drives the shared manager and replies exactly as `Execute` specifies. |
| Desktop.MitmproxyDesktop.View | mitmproxy-desktop/src/app.rs:116-151 | The control button offers Stop iff the proxy state is Running. |

## Left out

**Foreign libraries and outside processes:**
- Key and certificate generation with rcgen: `GenerateCa` takes the generated PEM texts, or None for a generation failure, as an input.
- PEM parsing with openssl: `StartEnv` carries a certificate test and a private-key test.
- `security`, `osascript`, `sudo`, `update-ca-certificates` and `certutil` are oracles. Each command gets one answer per host; only the find-identity re-check after the deletions gets its own answer. Process semantics, privileges and keychain contents are not modelled.
- `String::from_utf8_lossy`: program output is taken as already decoded text.

**The file system:**
- Files are a map with a fixed set of failing paths.
- Directories exist only as `create_dir_all` succeeding or failing.
- A failed write is modelled as leaving the file unchanged; a partial write is not modelled.

**Paths, concurrency and networking:**
- `CertManagement.Join` uses '/' as the only separator and assumes relative file names; Windows separators and prefixes are not modelled.
- The tokio mutex is modelled as atomic steps, because every `start` and `stop` runs wholly under it.
- The hudsucker proxy, rustls, the socket bind and `tokio::spawn` are not modelled. A launch is an event in the manager's log, and an error inside the spawned task is only logged, so it is not visible.
- Oneshot delivery and graceful-shutdown draining are not modelled. A signal is the `ShutdownSent` event.

**The user interface:**
- iced rendering, layout, sizes, `title`, the executor and the message loop are not modelled. `Perform` stands for the runtime running one command.
- The rfd file dialog is an input: the picked path, or None.

**Parts of the program outside this model:**
- `get_install_instructions` is fixed text per platform, with nothing to prove.
- `get_cert_path` and `get_key_path` are plain accessors of the `certPath` and `keyPath` constants.
- `config.rs` is not part of this model: the loaded configuration is never read by the window.
- `main.rs` (logging and GUI bootstrap) and the `tracing` log messages are not modelled.
