/**
 * The proxy lifecycle: a manager holding at most one shutdown sender. Starting
 * fills the slot and launches a listener; stopping takes the sender out of the
 * slot and signals the listener it belongs to. Every call runs under the
 * manager's mutex and is therefore one atomic step here.
 */
module Proxy {
  import opened Outcomes

  /** What the interface shows about the proxy. */
  datatype ProxyState = Running | Stopped | Error

  // ---------------------------------------------------------------------------
  // The interception handlers

  /** What an HTTP request handler hands back: the request to forward, or a response to answer with. */
  datatype RequestOrResponse<Req, Res> = Request(request: Req) | Response(response: Res)

  /** handle_request: the request is forwarded as it came. */
  function HandleRequest<Req, Res>(request: Req): (out: RequestOrResponse<Req, Res>)
    ensures out.Request? && out.request == request
  {
    Request(request)
  }

  /** handle_response: the response is passed back as it came. */
  function HandleResponse<Res>(response: Res): (out: Res)
    ensures out == response
  {
    response
  }

  /** handle_message: a WebSocket message is relayed as it came. */
  function HandleMessage<Msg>(message: Msg): (out: Option<Msg>)
    ensures out == Some(message)
  {
    Some(message)
  }

  /** What reaches the other side of the WebSocket for one handler answer: nothing for None. */
  function Forwarded<Msg>(answer: Option<Msg>): (sent: seq<Msg>)
    ensures |sent| <= 1
  {
    match answer
    case None => []
    case Some(m) => [m]
  }

  /** The WebSocket messages that reach the other side: those the handler returns, in order. */
  function Relay<Msg>(messages: seq<Msg>): (relayed: seq<Msg>)
    ensures |relayed| <= |messages|
  {
    if messages == [] then [] else Forwarded(HandleMessage(messages[0])) + Relay(messages[1..])
  }

  /** The proxy is transparent: a WebSocket stream passes through unchanged and in order. */
  lemma {:induction false} RelayIsTransparent<Msg>(messages: seq<Msg>)
    ensures Relay(messages) == messages
  {
    if messages != [] {
      RelayIsTransparent(messages[1..]);
      assert [messages[0]] + messages[1..] == messages;
    }
  }

  /** HTTP traffic is transparent too: the request goes on, the response comes back, untouched. */
  lemma HttpIsTransparent<Req, Res>(request: Req, response: Res)
    ensures HandleRequest<Req, Res>(request) == Request(request)
    ensures HandleResponse(response) == response
  {
  }

  // ---------------------------------------------------------------------------
  // The shutdown slot

  /** A TCP port, as the `u16` the manager is given. */
  type Port = p: int | 0 <= p < 65536

  /** The sending half of a oneshot channel; `channel` tells channels apart. */
  datatype Sender = Sender(channel: nat)

  /** What happens outside the manager: a listener is launched, or a shutdown signal is sent. */
  datatype Event = Launched(port: Port, channel: nat) | ShutdownSent(channel: nat)

  /**
   * The manager's observable state: the slot, the next fresh channel, and the
   * listeners launched and signals sent so far.
   */
  datatype Slot = Slot(sender: Option<Sender>, nextChannel: nat, events: seq<Event>)

  /** Why start fails. */
  datatype StartError =
    | CertPathNotSet        // "Certificate path not set"
    | ReadFailed(path: string)
    | BadCertificate        // X509::from_pem refused the file
    | BadPrivateKey         // PKey::private_key_from_pem refused the file
    | BuildFailed           // Proxy::builder().build() refused

  /**
   * What start depends on besides the slot: the contents of each readable
   * file, whether text parses as a PEM certificate and as a PEM private key,
   * and whether the proxy builder succeeds.
   */
  datatype StartEnv = StartEnv(read: string -> Option<string>,
                               isCertificate: string -> bool,
                               isPrivateKey: string -> bool,
                               builds: bool)

  /** Loading the CA: one file holds both the certificate and its private key. */
  function LoadCa(certPath: Option<string>, env: StartEnv): (r: Result<(), StartError>)
    ensures r.Ok? <==> certPath.Some? && env.read(certPath.value).Some? &&
                       env.isCertificate(env.read(certPath.value).value) &&
                       env.isPrivateKey(env.read(certPath.value).value)
    ensures r.Err? ==> r.error != BuildFailed
  {
    match certPath
    case None => Err(CertPathNotSet)
    case Some(path) =>
      match env.read(path)
      case None => Err(ReadFailed(path))
      case Some(contents) =>
        if !env.isCertificate(contents) then Err(BadCertificate)
        else if !env.isPrivateKey(contents) then Err(BadPrivateKey)
        else Ok(())
  }

  /** The outcome of a start: the new state and what start returns. */
  datatype Started = Started(slot: Slot, result: Result<(), StartError>)

  /**
   * start: nothing happens while the slot is occupied; otherwise the CA is
   * loaded, a fresh sender fills the slot, and the proxy is built and, when
   * that succeeds, launched on `port`.
   */
  function StartStep(m: Slot, port: Port, certPath: Option<string>, env: StartEnv): (s: Started)
    ensures m.sender.Some? ==> s == Started(m, Ok(()))
    ensures m.sender.None? && LoadCa(certPath, env).Err? ==> s == Started(m, LoadCa(certPath, env))
    ensures m.sender.None? && LoadCa(certPath, env).Ok? ==>
              s.slot.sender == Some(Sender(m.nextChannel)) && s.slot.nextChannel == m.nextChannel + 1 &&
              s.slot.events == m.events + (if env.builds then [Launched(port, m.nextChannel)] else []) &&
              (s.result.Ok? <==> env.builds) && (s.result.Err? ==> s.result.error == BuildFailed)
  {
    if m.sender.Some? then Started(m, Ok(()))
    else match LoadCa(certPath, env)
      case Err(e) => Started(m, Err(e))
      case Ok(_) =>
        var filled := Slot(Some(Sender(m.nextChannel)), m.nextChannel + 1, m.events);
        if env.builds then Started(filled.(events := m.events + [Launched(port, m.nextChannel)]), Ok(()))
        else Started(filled, Err(BuildFailed))
  }

  /** stop: the sender, if any, is taken out of the slot and signals its listener. */
  function StopStep(m: Slot): (after: Slot)
    ensures after.sender.None? && after.nextChannel == m.nextChannel
    ensures m.sender.None? ==> after == m
    ensures m.sender.Some? ==> after.events == m.events + [ShutdownSent(m.sender.value.channel)]
  {
    match m.sender
    case None => m
    case Some(s) => Slot(None, m.nextChannel, m.events + [ShutdownSent(s.channel)])
  }

  /** The listener on `channel` has been launched. */
  ghost predicate IsLaunched(events: seq<Event>, channel: nat) {
    exists i :: 0 <= i < |events| && events[i].Launched? && events[i].channel == channel
  }

  /** The listener on `channel` has been launched and not yet signalled to shut down. */
  ghost predicate Live(m: Slot, channel: nat) {
    IsLaunched(m.events, channel) && ShutdownSent(channel) !in m.events
  }

  /**
   * The slot's invariant: every channel seen so far is older than the next
   * fresh one, and a listener still running is the one the slot's sender stops.
   */
  ghost predicate Valid(m: Slot) {
    (forall i :: 0 <= i < |m.events| ==> m.events[i].channel < m.nextChannel) &&
    (m.sender.Some? ==> m.sender.value.channel < m.nextChannel) &&
    (forall c :: Live(m, c) ==> m.sender == Some(Sender(c)))
  }

  /** A new manager's state. */
  function Initial(): (m: Slot)
    ensures m.sender.None? && m.events == []
  {
    Slot(None, 0, [])
  }

  lemma InitialValid()
    ensures Valid(Initial())
  {
  }

  /** Under the invariant at most one listener runs at a time. */
  lemma AtMostOneListener(m: Slot, c1: nat, c2: nat)
    requires Valid(m) && Live(m, c1) && Live(m, c2)
    ensures c1 == c2
  {
  }

  /** start keeps the invariant, whatever it returns. */
  lemma StartKeepsValid(m: Slot, port: Port, certPath: Option<string>, env: StartEnv)
    requires Valid(m)
    ensures Valid(StartStep(m, port, certPath, env).slot)
  {
  }

  /** stop keeps the invariant. */
  lemma StopKeepsValid(m: Slot)
    requires Valid(m)
    ensures Valid(StopStep(m))
  {
  }

  /** A start on an occupied slot is a no-op: repeated starts never register a second sender. */
  lemma RepeatedStartIsNoOp(m: Slot, port1: Port, path1: Option<string>, env1: StartEnv,
                            port2: Port, path2: Option<string>, env2: StartEnv)
    requires StartStep(m, port1, path1, env1).slot.sender.Some?
    ensures var first := StartStep(m, port1, path1, env1).slot;
            StartStep(first, port2, path2, env2) == Started(first, Ok(()))
  {
  }

  /**
   * A build failure leaves the slot occupied: every later start reports
   * success without launching anything, until a stop empties the slot.
   */
  lemma BuildFailureLatches(m: Slot, port: Port, certPath: Option<string>, env: StartEnv,
                            port2: Port, path2: Option<string>, env2: StartEnv)
    requires m.sender.None? && StartStep(m, port, certPath, env).result == Err(BuildFailed)
    ensures var failed := StartStep(m, port, certPath, env).slot;
            failed.sender.Some? && failed.events == m.events &&
            StartStep(failed, port2, path2, env2) == Started(failed, Ok(()))
  {
  }

  /** stop always succeeds, and a second stop changes nothing. */
  lemma StopIsIdempotent(m: Slot)
    ensures StopStep(StopStep(m)) == StopStep(m)
  {
  }

  /** The number of listeners launched. */
  function Launches(events: seq<Event>): (n: nat)
    ensures n <= |events|
  {
    if events == [] then 0
    else Launches(events[..|events| - 1]) + (if events[|events| - 1].Launched? then 1 else 0)
  }

  lemma LaunchesAppend(events: seq<Event>, e: Event)
    ensures Launches(events + [e]) == Launches(events) + (if e.Launched? then 1 else 0)
  {
  }

  /**
   * After a stop, start passes the occupancy guard again: start, stop, start
   * on a readable CA and a working builder launches two listeners on two
   * different channels, the first of them signalled to shut down.
   */
  lemma StartStopStartLaunchesTwice(m: Slot, port1: Port, port2: Port, certPath: Option<string>, env: StartEnv)
    requires m.sender.None? && LoadCa(certPath, env).Ok? && env.builds
    ensures var s1 := StartStep(m, port1, certPath, env).slot;
            var s3 := StartStep(StopStep(s1), port2, certPath, env).slot;
            s3.events == m.events + [Launched(port1, m.nextChannel), ShutdownSent(m.nextChannel),
                                     Launched(port2, m.nextChannel + 1)] &&
            Launches(s3.events) == Launches(m.events) + 2
  {
    var s1 := StartStep(m, port1, certPath, env).slot;
    var s2 := StopStep(s1);
    var s3 := StartStep(s2, port2, certPath, env).slot;
    assert s3.events == m.events + [Launched(port1, m.nextChannel)] + [ShutdownSent(m.nextChannel)]
                                 + [Launched(port2, m.nextChannel + 1)];
    LaunchesAppend(m.events, Launched(port1, m.nextChannel));
    LaunchesAppend(m.events + [Launched(port1, m.nextChannel)], ShutdownSent(m.nextChannel));
    LaunchesAppend(m.events + [Launched(port1, m.nextChannel)] + [ShutdownSent(m.nextChannel)],
                   Launched(port2, m.nextChannel + 1));
  }

  /** A call made to the manager. */
  datatype Call = Start(port: Port, certPath: Option<string>, env: StartEnv) | Stop

  /** The state after a sequence of calls. */
  function Apply(m: Slot, calls: seq<Call>): Slot
    decreases |calls|
  {
    if calls == [] then m
    else
      var next := match calls[0]
        case Start(port, certPath, env) => StartStep(m, port, certPath, env).slot
        case Stop => StopStep(m);
      Apply(next, calls[1..])
  }

  /** Whatever the calls, a manager never has two listeners running at once. */
  lemma {:induction false} NeverTwoListeners(m: Slot, calls: seq<Call>)
    requires Valid(m)
    ensures Valid(Apply(m, calls))
    decreases |calls|
  {
    if calls != [] {
      match calls[0]
      case Start(port, certPath, env) =>
        StartKeepsValid(m, port, certPath, env);
        NeverTwoListeners(StartStep(m, port, certPath, env).slot, calls[1..]);
      case Stop =>
        StopKeepsValid(m);
        NeverTwoListeners(StopStep(m), calls[1..]);
    }
  }

  // ---------------------------------------------------------------------------
  // The manager object

  class ProxyManager {
    /** The slot: the sender that stops the running listener, if any. */
    var shutdownSender: Option<Sender>
    /** The next fresh channel. */
    var nextChannel: nat
    /** The listeners launched and the signals sent, in order. */
    var events: seq<Event>

    function State(): Slot
      reads this
    {
      Slot(shutdownSender, nextChannel, events)
    }

    /** ProxyManager::new: the slot starts empty. */
    constructor ()
      ensures State() == Initial()
    {
      shutdownSender := None;
      nextChannel := 0;
      events := [];
    }

    /** start, under the mutex. */
    method Start(port: Port, certPath: Option<string>, env: StartEnv) returns (r: Result<(), StartError>)
      modifies this
      ensures Started(State(), r) == StartStep(old(State()), port, certPath, env)
    {
      if shutdownSender.Some? {
        return Ok(());
      }
      if certPath.None? {
        return Err(CertPathNotSet);
      }
      var contents := env.read(certPath.value);
      if contents.None? {
        return Err(ReadFailed(certPath.value));
      }
      if !env.isCertificate(contents.value) {
        return Err(BadCertificate);
      }
      if !env.isPrivateKey(contents.value) {
        return Err(BadPrivateKey);
      }
      var channel := nextChannel;
      nextChannel := nextChannel + 1;
      shutdownSender := Some(Sender(channel));
      if !env.builds {
        return Err(BuildFailed);
      }
      events := events + [Launched(port, channel)];
      r := Ok(());
    }

    /** stop, under the mutex: always succeeds. */
    method Stop() returns (r: Result<(), StartError>)
      modifies this
      ensures r == Ok(())
      ensures State() == StopStep(old(State()))
    {
      if shutdownSender.Some? {
        var sender := shutdownSender.value;
        shutdownSender := None;
        events := events + [ShutdownSent(sender.channel)];
      }
      r := Ok(());
    }
  }
}
