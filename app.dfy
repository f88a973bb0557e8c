/**
 * The desktop window: its state (proxy status, port text, certificate path),
 * how each message updates it, the commands an update asks the runtime to
 * perform, and what the window shows.
 */
module Desktop {
  import opened Outcomes
  import opened Proxy

  /** The messages the window reacts to. */
  datatype Message =
    | StartProxy
    | StopProxy
    | SelectCertificate
    | CertificateSelected(path: string)
    | PortChanged(port: string)
    | ProxyStateChanged(state: ProxyState)

  /** The asynchronous command an update hands to the runtime. */
  datatype Task =
    | NoTask
    | StartTask(port: string, certPath: Option<string>)  // start the manager with the port text and path copied now
    | StopTask
    | PickCertificate                                    // open the file dialog

  /** The window's fields the update reads and writes. */
  datatype AppState = AppState(proxyState: ProxyState, port: string, certificatePath: Option<string>)

  /** The state a new window starts in. */
  function InitialState(): (s: AppState)
    ensures s.proxyState == Stopped && s.port == "8080" && s.certificatePath.None?
  {
    AppState(Stopped, "8080", None)
  }

  /** The outcome of an update: the new state and the command to perform. */
  datatype Updated = Updated(state: AppState, task: Task)

  /**
   * update: the three button messages change nothing and only ask for a
   * command; the other three each replace exactly one field.
   */
  function Reduce(s: AppState, message: Message): (u: Updated)
    ensures message.StartProxy? ==> u == Updated(s, StartTask(s.port, s.certificatePath))
    ensures message.StopProxy? ==> u == Updated(s, StopTask)
    ensures message.SelectCertificate? ==> u == Updated(s, PickCertificate)
    ensures message.CertificateSelected? ==> u == Updated(s.(certificatePath := Some(message.path)), NoTask)
    ensures message.PortChanged? ==> u == Updated(s.(port := message.port), NoTask)
    ensures message.ProxyStateChanged? ==> u == Updated(s.(proxyState := message.state), NoTask)
  {
    match message
    case StartProxy => Updated(s, StartTask(s.port, s.certificatePath))
    case StopProxy => Updated(s, StopTask)
    case SelectCertificate => Updated(s, PickCertificate)
    case CertificateSelected(path) => Updated(s.(certificatePath := Some(path)), NoTask)
    case PortChanged(port) => Updated(s.(port := port), NoTask)
    case ProxyStateChanged(state) => Updated(s.(proxyState := state), NoTask)
  }

  /** Every message leaves at least two of the three fields as they were, and only button messages ask for a command. */
  lemma UpdateChangesAtMostOneField(s: AppState, message: Message)
    ensures var t := Reduce(s, message).state;
            (t.proxyState == s.proxyState && t.port == s.port) ||
            (t.proxyState == s.proxyState && t.certificatePath == s.certificatePath) ||
            (t.port == s.port && t.certificatePath == s.certificatePath)
    ensures Reduce(s, message).task != NoTask <==>
              message.StartProxy? || message.StopProxy? || message.SelectCertificate?
  {
  }

  // ---------------------------------------------------------------------------
  // The port text

  predicate IsDigit(c: char) {
    '0' <= c <= '9'
  }

  predicate AllDigits(text: string) {
    forall i :: 0 <= i < |text| ==> IsDigit(text[i])
  }

  /** The value of a run of ASCII digits, most significant first. */
  function DigitsValue(digits: string): nat
    requires AllDigits(digits)
  {
    if digits == [] then 0
    else
      var last := digits[|digits| - 1];
      assert IsDigit(last);
      DigitsValue(digits[..|digits| - 1]) * 10 + (last as int - '0' as int)
  }

  /** The text after one optional leading '+'. */
  function Unsigned(text: string): (digits: string)
    ensures text != [] && text[0] == '+' ==> digits == text[1..]
    ensures (text == [] || text[0] != '+') ==> digits == text
  {
    if text != [] && text[0] == '+' then text[1..] else text
  }

  /**
   * `str::parse::<u16>`: an optional '+', then at least one ASCII digit, and
   * a value that fits in 16 bits; anything else ('-' included) is refused.
   */
  function ParseU16(text: string): (p: Option<Port>)
    ensures p.Some? <==> Unsigned(text) != [] && AllDigits(Unsigned(text)) && DigitsValue(Unsigned(text)) < 65536
    ensures p.Some? ==> p.value == DigitsValue(Unsigned(text))
  {
    var digits := Unsigned(text);
    if digits == [] || !AllDigits(digits) then None
    else if DigitsValue(digits) < 65536 then Some(DigitsValue(digits))
    else None
  }

  /** The port handed to start: the parsed text, or 8080 when it does not parse. */
  function StartPort(text: string): (port: Port)
    ensures ParseU16(text).None? ==> port == 8080
    ensures ParseU16(text).Some? ==> port == ParseU16(text).value
  {
    ParseU16(text).GetOr(8080)
  }

  /** The decimal digit of a value below ten. */
  function Digit(d: nat): (c: char)
    requires d < 10
    ensures IsDigit(c) && c as int - '0' as int == d
  {
    ('0' as int + d) as char
  }

  /** The usual decimal rendering of `n`, without sign or leading zeros. */
  function Decimal(n: nat): (text: string)
    ensures text != [] && AllDigits(text)
  {
    if n < 10 then [Digit(n)] else Decimal(n / 10) + [Digit(n % 10)]
  }

  lemma {:induction false} DecimalValue(n: nat)
    ensures DigitsValue(Decimal(n)) == n
  {
    if n >= 10 {
      DecimalValue(n / 10);
      var text := Decimal(n);
      assert text[..|text| - 1] == Decimal(n / 10);
    }
  }

  /** Every port typed in decimal is the port the proxy is started on. */
  lemma PortRoundTrip(n: Port)
    ensures ParseU16(Decimal(n)) == Some(n)
    ensures StartPort(Decimal(n)) == n
  {
    DecimalValue(n);
    assert Decimal(n)[0] != '+' by {
      assert IsDigit(Decimal(n)[0]);
    }
  }

  /** Every digit run past 65535 falls back to 8080, with or without a leading '+'. */
  lemma {:induction false} LargePortsFallBack(digits: string)
    requires digits != [] && AllDigits(digits) && DigitsValue(digits) >= 65536
    ensures StartPort(digits) == 8080
    ensures StartPort("+" + digits) == 8080
  {
    assert IsDigit(digits[0]);
    assert ("+" + digits)[1..] == digits;
  }

  /**
   * An empty field, a lone '+', a sign of '-', and any character other than an
   * ASCII digit after the optional '+' all fall back to 8080.
   */
  lemma {:induction false} PortFallbacks(text: string)
    ensures StartPort("") == 8080
    ensures StartPort("+") == 8080
    ensures text != [] && text[0] == '-' ==> StartPort(text) == 8080
    ensures (exists i :: 0 <= i < |Unsigned(text)| && !IsDigit(Unsigned(text)[i])) ==> StartPort(text) == 8080
  {
    assert "+"[1..] == [];
    if text != [] && text[0] == '-' {
      assert !IsDigit(Unsigned(text)[0]);
    }
  }

  // ---------------------------------------------------------------------------
  // Performing the commands

  /** What a start or stop command reports back: the state it succeeded into, or Error. */
  function Reported<E>(result: Result<(), E>, success: ProxyState): (m: Message)
    ensures m.ProxyStateChanged?
    ensures result.Ok? ==> m.state == success
    ensures result.Err? ==> m.state == Error
  {
    ProxyStateChanged(if result.Ok? then success else Error)
  }

  /** The file dialog's answer: a picked path, or the empty path when it was cancelled or is not Unicode. */
  function Picked(choice: Option<string>): (m: Message)
    ensures m.CertificateSelected?
    ensures choice.Some? ==> m.path == choice.value
    ensures choice.None? ==> m.path == ""
  {
    CertificateSelected(choice.GetOr(""))
  }

  /** The manager's state and the message a command hands back once performed. */
  datatype Performed = Performed(slot: Slot, reply: Option<Message>)

  /** A command, performed against the manager's state. */
  function Execute(task: Task, m: Slot, env: StartEnv, choice: Option<string>): (p: Performed)
    ensures task == NoTask <==> p.reply.None?
    ensures task == NoTask || task == PickCertificate ==> p.slot == m
    ensures task == StopTask ==> p.slot == StopStep(m) && p.reply == Some(ProxyStateChanged(Stopped))
    ensures task.StartTask? ==>
              var started := StartStep(m, StartPort(task.port), task.certPath, env);
              p.slot == started.slot &&
              p.reply == Some(ProxyStateChanged(if started.result.Ok? then Running else Error))
    ensures task == PickCertificate ==> p.reply == Some(CertificateSelected(choice.GetOr("")))
  {
    match task
    case NoTask => Performed(m, None)
    case StartTask(port, certPath) =>
      var started := StartStep(m, StartPort(port), certPath, env);
      Performed(started.slot, Some(Reported(started.result, Running)))
    case StopTask => Performed(StopStep(m), Some(Reported<StartError>(Ok(()), Stopped)))
    case PickCertificate => Performed(m, Some(Picked(choice)))
  }

  /** A cancelled dialog leaves a path selected: the empty one, never none. */
  lemma CancelledDialogSelectsEmptyPath(s: AppState, m: Slot, env: StartEnv)
    ensures var reply := Execute(PickCertificate, m, env, None).reply.value;
            Reduce(s, reply).state.certificatePath == Some("")
  {
  }

  // ---------------------------------------------------------------------------
  // What the window shows

  /** A button: its caption and the message it sends when pressed. */
  datatype Button = Button(caption: string, onPress: Message)

  /** The control button, chosen from the proxy state alone. */
  function ControlButton(state: ProxyState): (b: Button)
    ensures b.onPress == StartProxy <==> state != Running
    ensures b.onPress == StopProxy <==> state == Running
    ensures b.caption == "Start Proxy" <==> state == Stopped
    ensures b.caption == "Stop Proxy" <==> state == Running
    ensures b.caption == "Retry" <==> state == Error
  {
    match state
    case Stopped => Button("Start Proxy", StartProxy)
    case Running => Button("Stop Proxy", StopProxy)
    case Error => Button("Retry", StartProxy)
  }

  /** Each state has its own caption. */
  lemma ControlLabelsDistinct(s1: ProxyState, s2: ProxyState)
    ensures ControlButton(s1).caption == ControlButton(s2).caption <==> s1 == s2
  {
  }

  /** The `{:?}` rendering of a proxy state. */
  function DebugName(state: ProxyState): string {
    match state
    case Running => "Running"
    case Stopped => "Stopped"
    case Error => "Error"
  }

  /** The status line: "Status: " and the state's name. */
  function StatusText(state: ProxyState): (text: string)
    ensures |text| > 8 && text[..8] == "Status: "
    ensures text[8..] == DebugName(state)
  {
    "Status: " + DebugName(state)
  }

  /** The status line tells the three states apart. */
  lemma StatusTextNamesState(s1: ProxyState, s2: ProxyState)
    ensures StatusText(s1) == StatusText(s2) <==> s1 == s2
  {
    if StatusText(s1) == StatusText(s2) {
      assert DebugName(s1) == StatusText(s1)[8..] == StatusText(s2)[8..] == DebugName(s2);
      assert DebugName(s1)[0] == DebugName(s2)[0];
    }
  }

  const CertificateLabel: string := "Certificate: "
  const NotSelected: string := "Not selected"

  /** The certificate line: the path, or "Not selected" when there is none. */
  function CertificateText(path: Option<string>): (text: string)
    ensures |text| >= |CertificateLabel| && text[..|CertificateLabel|] == CertificateLabel
    ensures path.Some? ==> text[|CertificateLabel|..] == path.value
    ensures path.None? ==> text[|CertificateLabel|..] == NotSelected
  {
    CertificateLabel + path.GetOr(NotSelected)
  }

  /**
   * The certificate line reads "Not selected" exactly when there is no path
   * or the path itself is the text "Not selected".
   */
  lemma CertificateTextNotSelected(path: Option<string>)
    ensures CertificateText(path) == CertificateLabel + NotSelected <==> path.None? || path == Some(NotSelected)
  {
  }

  /** Two selected paths show the same line only when they are the same path. */
  lemma CertificateTextShowsPath(p1: string, p2: string)
    ensures CertificateText(Some(p1)) == CertificateLabel + p1
    ensures CertificateText(Some(p1)) == CertificateText(Some(p2)) <==> p1 == p2
  {
    if CertificateText(Some(p1)) == CertificateText(Some(p2)) {
      assert p1 == CertificateText(Some(p1))[|CertificateLabel|..];
    }
  }

  // ---------------------------------------------------------------------------
  // End to end: window, manager, window

  /**
   * Pressing the control button of a stopped window with a loadable CA and a
   * working builder launches a listener on the typed port and shows Running,
   * which offers Stop.
   */
  lemma PressStartShowsRunning(s: AppState, m: Slot, env: StartEnv, choice: Option<string>)
    requires s.proxyState == Stopped && m.sender.None?
    requires LoadCa(s.certificatePath, env).Ok? && env.builds
    ensures var pressed := Reduce(s, ControlButton(s.proxyState).onPress);
            var done := Execute(pressed.task, m, env, choice);
            var shown := Reduce(pressed.state, done.reply.value).state;
            done.slot.events == m.events + [Launched(StartPort(s.port), m.nextChannel)] &&
            shown == s.(proxyState := Running) &&
            ControlButton(shown.proxyState).onPress == StopProxy
  {
  }

  /**
   * A start whose build fails shows Error; pressing Retry then shows Running
   * although no listener was launched, because the failed start left its
   * sender in the slot.
   */
  lemma RetryAfterBuildFailureShowsRunningWithoutListener(s: AppState, m: Slot, env: StartEnv,
                                                          env2: StartEnv, choice: Option<string>)
    requires s.proxyState == Stopped && m.sender.None?
    requires LoadCa(s.certificatePath, env).Ok? && !env.builds
    ensures var first := Execute(Reduce(s, StartProxy).task, m, env, choice);
            var failed := Reduce(s, first.reply.value).state;
            var retry := Reduce(failed, ControlButton(failed.proxyState).onPress);
            var second := Execute(retry.task, first.slot, env2, choice);
            failed.proxyState == Error &&
            Reduce(failed, second.reply.value).state.proxyState == Running &&
            second.slot.events == m.events
  {
  }

  // ---------------------------------------------------------------------------
  // The window object

  class MitmproxyDesktop {
    /** The manager, shared with the commands the window spawns. */
    const proxyManager: ProxyManager
    var proxyState: ProxyState
    var port: string
    var certificatePath: Option<string>

    function State(): AppState
      reads this
    {
      AppState(proxyState, port, certificatePath)
    }

    /** new: a stopped proxy, port 8080, no certificate, and a manager with an empty slot. */
    constructor ()
      ensures State() == InitialState()
      ensures fresh(proxyManager) && proxyManager.State() == Initial()
    {
      proxyManager := new ProxyManager();
      proxyState := Stopped;
      port := "8080";
      certificatePath := None;
    }

    /** update, assigning the field the message concerns. */
    method Update(message: Message) returns (task: Task)
      modifies this
      ensures Updated(State(), task) == Reduce(old(State()), message)
    {
      match message
      case StartProxy => task := StartTask(port, certificatePath);
      case StopProxy => task := StopTask;
      case SelectCertificate => task := PickCertificate;
      case CertificateSelected(path) =>
        certificatePath := Some(path);
        task := NoTask;
      case PortChanged(text) =>
        port := text;
        task := NoTask;
      case ProxyStateChanged(state) =>
        proxyState := state;
        task := NoTask;
    }

    /** The runtime performing a command: start and stop go through the shared manager. */
    method Perform(task: Task, env: StartEnv, choice: Option<string>) returns (reply: Option<Message>)
      modifies proxyManager
      ensures Performed(proxyManager.State(), reply) == Execute(task, old(proxyManager.State()), env, choice)
    {
      match task
      case NoTask => reply := None;
      case StartTask(text, certPath) =>
        var result := proxyManager.Start(StartPort(text), certPath, env);
        reply := Some(Reported(result, Running));
      case StopTask =>
        var result := proxyManager.Stop();
        reply := Some(Reported(result, Stopped));
      case PickCertificate => reply := Some(Picked(choice));
    }

    /** view: the control button and the two status lines. */
    function View(): (shown: (Button, string, string))
      reads this
      ensures shown.0.onPress == StopProxy <==> proxyState == Running
    {
      (ControlButton(proxyState), StatusText(proxyState), CertificateText(certificatePath))
    }
  }
}
