/**
 * The message-driven door controller of iott.py.
 *
 * The globals `door_has_valid_access` and `alarm_triggered`, the two LED pins
 * and the MQTT client become the fields of `Controller`; every payload the
 * client publishes (always on the topic `fastapi/topic`) is appended to
 * `outbox`. `connected` says whether the client is usable: when it is not,
 * `publish` and `check_msg` raise and the exception is swallowed.
 *
 * The pure functions `Decode`, `AfterCommand`, `AfterCheck` and `AfterStep`
 * give the state each operation leaves behind; the methods of `Controller`
 * do the same work step by step and are proved to end in that state.
 */
module MessageDriven {
  import opened Text
  import opened Signals

  const Topic := "fastapi/topic"
  const IntrusionNotice := "intrusion/door_opened_without_permission"
  const StatusReply := "status_response/device_alive"
  const ResetReply := "reset_acknowledged"

  function GrantReply(user: string, lock: string): string {
    "access_granted/" + user + "/roomX/" + lock
  }

  /** What `mqtt_callback` makes of one payload. */
  datatype Command =
    | Grant(lock: string, user: string)  // `access/<lock>/<user>`
    | Deny(user: string)                 // `noaccess/...`; the user defaults to "unknown"
    | Intrusion(info: string)            // `intrusion/<info>`
    | StatusQuery                        // `status/...`
    | Reset                              // `reset/...`
    | Unknown(name: string)              // any other command word
    | MissingUser                        // `access/<lock>`: `parts[2]` raises and is swallowed
    | Malformed                          // fewer than two `/`-separated parts

  const Commands: set<string> := {"access", "noaccess", "intrusion", "status", "reset"}

  /** The decoding done by iott.py:60-99, before any state is touched. */
  function Decode(payload: string): (c: Command)
    ensures c == Malformed <==> '/' !in payload
  {
    SplitSingleIff(payload, '/');
    DecodeParts(Split(payload, '/'))
  }

  /** The command named by the `/`-separated pieces of a payload. */
  function DecodeParts(parts: seq<string>): Command
    requires |parts| >= 1
  {
    if |parts| < 2 then Malformed
    else DecodeWord(Strip(parts[0]), parts)
  }

  /** The branch of iott.py:66-99 that the stripped command word `command` selects. */
  function DecodeWord(command: string, parts: seq<string>): Command
    requires |parts| >= 2
  {
    if command == "access" then
      if |parts| < 3 then MissingUser else Grant(Strip(parts[1]), Strip(parts[2]))
    else if command == "noaccess" then
      Deny(if |parts| > 2 then Strip(parts[2]) else "unknown")
    else if command == "intrusion" then Intrusion(parts[1])
    else if command == "status" then StatusQuery
    else if command == "reset" then Reset
    else Unknown(command)
  }

  /** A field of a payload as the decoder hands it on: no separator, no outer whitespace. */
  predicate IsField(s: string) {
    '/' !in s && Stripped(s)
  }

  predicate WellFormed(c: Command) {
    match c
    case Grant(lock, user) => IsField(lock) && IsField(user)
    case Deny(user) => IsField(user)
    case Intrusion(info) => '/' !in info
    case Unknown(name) => IsField(name) && name !in Commands
    case _ => true
  }

  /** A payload that a publisher would send for `c`. */
  function Render(c: Command): string {
    match c
    case Grant(lock, user) => "access" + "/" + lock + "/" + user
    case Deny(user) => "noaccess" + "/" + "/" + user
    case Intrusion(info) => "intrusion" + "/" + info
    case StatusQuery => "status" + "/"
    case Reset => "reset" + "/"
    case Unknown(name) => name + "/"
    case MissingUser => "access" + "/"
    case Malformed => ""
  }

  /** Peeling the command word off the front of a payload. */
  lemma DecodeLeading(word: string, rest: string)
    requires '/' !in word
    ensures Decode(word + "/" + rest) == DecodeWord(Strip(word), [word] + Split(rest, '/'))
  {
    SplitAtFirst(word, '/', rest);
    assert word + "/" + rest == word + ['/'] + rest;
  }

  /** The same, for a command word that needs no stripping. */
  lemma DecodeKeyword(word: string, rest: string)
    requires '/' !in word && Stripped(word)
    ensures Decode(word + "/" + rest) == DecodeWord(word, [word] + Split(rest, '/'))
  {
    DecodeLeading(word, rest);
    StripStripped(word);
  }

  lemma StripSeparatorFree(x: string)
    requires '/' !in x
    ensures '/' !in Strip(x)
  {
    StripKeeps(x, '/');
  }

  lemma DecodeWordWellFormed(command: string, parts: seq<string>)
    requires |parts| >= 2
    requires IsField(command)
    requires forall i :: 0 <= i < |parts| ==> '/' !in parts[i]
    ensures WellFormed(DecodeWord(command, parts))
  {
    if command == "access" {
      if |parts| >= 3 {
        StripSeparatorFree(parts[1]);
        StripSeparatorFree(parts[2]);
      }
    } else if command == "noaccess" {
      if |parts| > 2 {
        StripSeparatorFree(parts[2]);
      }
    }
  }

  /** Every command the decoder produces is well formed. */
  lemma DecodeWellFormed(payload: string)
    ensures WellFormed(Decode(payload))
  {
    var parts := Split(payload, '/');
    SplitPiecesFree(payload, '/');
    if |parts| >= 2 {
      StripSeparatorFree(parts[0]);
      DecodeWordWellFormed(Strip(parts[0]), parts);
    }
  }

  /** `access/<lock>/<user>`, possibly followed by more fields, decodes to a grant. */
  lemma DecodeGrantPayload(lock: string, user: string, tail: string)
    requires '/' !in lock && '/' !in user
    requires tail == [] || tail[0] == '/'
    ensures Decode("access" + "/" + lock + "/" + user + tail) == Grant(Strip(lock), Strip(user))
  {
    var rest := lock + ['/'] + (user + tail);
    assert "access" + "/" + lock + "/" + user + tail == "access" + "/" + rest;
    DecodeKeyword("access", rest);
    SplitAtFirst(lock, '/', user + tail);
    SplitFirstPiece(user, '/', tail);
    var parts := ["access"] + Split(rest, '/');
    assert parts[1] == lock && parts[2] == user;
  }

  /** Decoding a rendered well-formed command gives the command back. */
  lemma DecodeRender(c: Command)
    requires WellFormed(c)
    ensures Decode(Render(c)) == c
  {
    match c {
      case Grant(lock, user) => DecodeGrantRender(lock, user);
      case Deny(user) => DecodeDenyRender(user);
      case Intrusion(info) => DecodeIntrusionRender(info);
      case Unknown(name) => DecodeUnknownRender(name);
      case StatusQuery => DecodeBareRender(c);
      case Reset => DecodeBareRender(c);
      case MissingUser => DecodeBareRender(c);
      case Malformed =>
    }
  }

  lemma DecodeGrantRender(lock: string, user: string)
    requires IsField(lock) && IsField(user)
    ensures Decode(Render(Grant(lock, user))) == Grant(lock, user)
  {
    assert Render(Grant(lock, user)) == "access" + "/" + lock + "/" + user + "";
    DecodeGrantPayload(lock, user, "");
    StripStripped(lock);
    StripStripped(user);
  }

  lemma DecodeIntrusionRender(info: string)
    requires '/' !in info
    ensures Decode(Render(Intrusion(info))) == Intrusion(info)
  {
    DecodeKeyword("intrusion", info);
    SplitWithoutSeparator(info, '/');
    assert (["intrusion"] + Split(info, '/'))[1] == info;
  }

  /** A command word followed by a single `/` and nothing else. */
  lemma DecodeWordAlone(word: string)
    requires '/' !in word && Stripped(word)
    ensures |[word] + Split("", '/')| == 2
    ensures Decode(word + "/") == DecodeWord(word, [word] + Split("", '/'))
  {
    SplitWithoutSeparator("", '/');
    calc {
      Decode(word + "/");
      { assert word + "/" == word + "/" + ""; }
      Decode(word + "/" + "");
      { DecodeKeyword(word, ""); }
      DecodeWord(word, [word] + Split("", '/'));
    }
  }

  /** A word that names none of the five commands decodes to an unknown command. */
  lemma DecodeWordUnknown(command: string, parts: seq<string>)
    requires |parts| >= 2 && command !in Commands
    ensures DecodeWord(command, parts) == Unknown(command)
  {
    assert command != "access" && command != "noaccess" && command != "intrusion";
    assert command != "status" && command != "reset";
  }

  lemma DecodeUnknownRender(name: string)
    requires IsField(name) && name !in Commands
    ensures Decode(Render(Unknown(name))) == Unknown(name)
  {
    DecodeWordAlone(name);
    DecodeWordUnknown(name, [name] + Split("", '/'));
  }

  lemma DecodeBareRender(c: Command)
    requires c == StatusQuery || c == Reset || c == MissingUser
    ensures Decode(Render(c)) == c
  {
    match c {
      case StatusQuery => DecodeWordAlone("status");
      case Reset => DecodeWordAlone("reset");
      case MissingUser => DecodeWordAlone("access");
    }
  }

  lemma DecodeDenyRender(user: string)
    requires IsField(user)
    ensures Decode(Render(Deny(user))) == Deny(user)
  {
    assert Render(Deny(user)) == "noaccess" + "/" + ("/" + user);
    DecodeKeyword("noaccess", "/" + user);
    SplitLeadingSeparator('/', user);
    SplitWithoutSeparator(user, '/');
    var parts := ["noaccess"] + Split("/" + user, '/');
    assert |parts| == 3 && parts[2] == user;
    StripStripped(user);
  }

  /** The controller's state between two operations. */
  datatype State = State(
    valid: bool,            // door_has_valid_access
    alarmTriggered: bool,   // alarm_triggered
    red: bool,              // red_led
    green: bool,            // green_led
    connected: bool,        // the MQTT client can publish and receive
    outbox: seq<string>)    // payloads published on `Topic`, oldest first

  /** The state after the start-up code of iott.py:22-25 and 156-161. */
  function Initial(connected: bool): State {
    State(false, false, false, false, connected, [])
  }

  /** The outbox after `send_custom_mqtt_message(payload)`. */
  function Published(s: State, payload: string): seq<string> {
    if s.connected then s.outbox + [payload] else s.outbox
  }

  /** The payload, if any, that handling `c` publishes. */
  function Reply(c: Command): (r: Option<string>)
    ensures r.Some? ==> r.value != IntrusionNotice
  {
    match c
    case Grant(lock, user) =>
      assert GrantReply(user, lock)[0] == 'a';
      Some(GrantReply(user, lock))
    case StatusQuery => Some(StatusReply)
    case Reset => Some(ResetReply)
    case _ => None
  }

  /** The state after `mqtt_callback` has handled `c` (iott.py:63-101). */
  function AfterCommand(s: State, c: Command): (r: State)
    ensures r.alarmTriggered == s.alarmTriggered && r.connected == s.connected
    ensures r.valid != s.valid ==> c.Grant? || c.Reset?
    ensures r.outbox == if Reply(c).Some? then Published(s, Reply(c).value) else s.outbox
  {
    match c
    case Grant(lock, user) =>
      s.(valid := true, red := false, green := true, outbox := Published(s, GrantReply(user, lock)))
    case Deny(_) => s.(red := true, green := false)
    case Intrusion(_) => s.(red := true, green := false)
    case StatusQuery => s.(outbox := Published(s, StatusReply))
    case Reset =>
      // `alarm_triggered = False` at iott.py:95 binds a local name: the global keeps its value.
      s.(valid := false, red := false, green := false, outbox := Published(s, ResetReply))
    case _ => s
  }

  function AfterMessage(s: State, payload: string): State {
    AfterCommand(s, Decode(payload))
  }

  /** The alarm of `check_door_state` fires: open door, no valid access, no alarm yet. */
  predicate AlarmFires(s: State, open: bool) {
    open && !s.valid && !s.alarmTriggered
  }

  /**
   * The effects of `trigger_alarm` in order: `ticks` blink cycles on the red
   * LED, then the intrusion report if the client is usable.
   */
  function AlarmTrace(connected: bool, ticks: nat): seq<Effect<string>> {
    RedWrites(Blinks(ticks)) + (if connected then [Pub(IntrusionNotice)] else [])
  }

  /** The intrusion report comes after every LED write of the alarm. */
  lemma AlarmReportsAfterBlinking(connected: bool, ticks: nat)
    ensures var t := AlarmTrace(connected, ticks);
      && |t| == 2 * ticks + (if connected then 1 else 0)
      && (forall i :: 0 <= i < 2 * ticks ==> t[i] == Red(i % 2 == 0))
      && (connected ==> t[2 * ticks] == Pub(IntrusionNotice))
  {
    BlinksAlternate(ticks);
  }

  /**
   * The state after `trigger_alarm` (iott.py:122-133). `ticks` is the number of
   * blink cycles the wall clock allowed; with none the red LED keeps its level.
   */
  function AfterAlarm(s: State, ticks: nat): (r: State)
    ensures r.alarmTriggered && r.valid == s.valid && r.green == s.green && r.connected == s.connected
  {
    s.(red := if ticks == 0 then s.red else false, alarmTriggered := true,
       outbox := Published(s, IntrusionNotice))
  }

  /** What the alarm adds to the outbox is exactly the reports of its effect trace. */
  lemma AlarmOutboxFollowsTrace(s: State, ticks: nat)
    ensures AfterAlarm(s, ticks).outbox == s.outbox + Pubs(AlarmTrace(s.connected, ticks))
  {
    var report: seq<Effect<string>> := if s.connected then [Pub(IntrusionNotice)] else [];
    PubsAppend(RedWrites<string>(Blinks(ticks)), report);
    PubsRedWrites<string>(Blinks(ticks));
    assert Pubs(report) == if s.connected then [IntrusionNotice] else [];
  }

  /**
   * The state after `check_door_state` with the sensor reading `open`
   * (iott.py:135-153). Access survives only an open door, and the alarm flag
   * ends set exactly when the door is open and the flag was set already or
   * access is not valid.
   */
  function AfterCheck(s: State, open: bool, ticks: nat): (r: State)
    ensures r.valid == (open && s.valid)
    ensures r.alarmTriggered == (open && (s.alarmTriggered || !s.valid))
    ensures r.connected == s.connected
  {
    if AlarmFires(s, open) then AfterAlarm(s, ticks)
    else if !open then s.(valid := false, alarmTriggered := false, red := false, green := false)
    else s
  }

  /**
   * One pass of the main loop (iott.py:165-172): `check_msg` hands over at most
   * one payload, then the door is checked. Without a usable client `check_msg`
   * raises, the handler at iott.py:170 swallows it, and the door check of that
   * pass is skipped.
   */
  function AfterStep(s: State, msg: Option<string>, open: bool, ticks: nat): (r: State)
    ensures r.connected == s.connected
    ensures r.valid ==> open || !s.connected
    ensures s.outbox <= r.outbox
  {
    if !s.connected then s
    else
      var t := if msg.Some? then AfterMessage(s, msg.value) else s;
      AfterCheck(t, open, ticks)
  }

  /** The effects of handling `c`: its reply, when it has one. */
  function CommandTrace(s: State, c: Command): seq<Effect<string>> {
    if Reply(c).Some? then Report(s.connected, Reply(c).value) else []
  }

  /** The effects of `check_door_state`: the alarm's, when it fires. */
  function CheckTrace(s: State, open: bool, ticks: nat): seq<Effect<string>> {
    if AlarmFires(s, open) then AlarmTrace(s.connected, ticks) else []
  }

  /** The effects of one pass in order: the message's reply, then the door check's. */
  function StepTrace(s: State, msg: Option<string>, open: bool, ticks: nat): seq<Effect<string>> {
    if !s.connected then []
    else if msg.None? then CheckTrace(s, open, ticks)
    else CommandTrace(s, Decode(msg.value)) + CheckTrace(AfterMessage(s, msg.value), open, ticks)
  }

  /** What a pass adds to the outbox is exactly the reports of its effect trace, in order. */
  lemma StepOutboxFollowsTrace(s: State, msg: Option<string>, open: bool, ticks: nat)
    ensures AfterStep(s, msg, open, ticks).outbox == s.outbox + Pubs(StepTrace(s, msg, open, ticks))
  {
    if s.connected {
      var t := if msg.Some? then AfterMessage(s, msg.value) else s;
      var sent: seq<Effect<string>> := if msg.Some? then CommandTrace(s, Decode(msg.value)) else [];
      if msg.Some? {
        var c := Decode(msg.value);
        if Reply(c).Some? {
          PubsReport(s.connected, Reply(c).value);
        }
      }
      assert t.outbox == s.outbox + Pubs(sent);
      if AlarmFires(t, open) {
        AlarmOutboxFollowsTrace(t, ticks);
      }
      assert AfterCheck(t, open, ticks).outbox == t.outbox + Pubs(CheckTrace(t, open, ticks));
      PubsAppend(sent, CheckTrace(t, open, ticks));
      assert StepTrace(s, msg, open, ticks) == sent + CheckTrace(t, open, ticks);
    }
  }

  /** Green is lit only while access is valid, and the two LEDs are never lit together. */
  predicate Consistent(s: State) {
    (s.green ==> s.valid) && !(s.red && s.green)
  }

  // ---------------------------------------------------------------------------
  // The decode table, payload by payload.

  /** A payload with no `/` (a bare `status` or `reset` among them) changes nothing. */
  lemma NoSeparatorChangesNothing(s: State, payload: string)
    requires '/' !in payload
    ensures AfterMessage(s, payload) == s
  {
  }

  lemma BareStatusAndResetIgnored(s: State)
    ensures AfterMessage(s, "status") == s
    ensures AfterMessage(s, "reset") == s
  {
    NoSeparatorChangesNothing(s, "status");
    NoSeparatorChangesNothing(s, "reset");
  }

  /**
   * `access/<lock>/<user>`, possibly followed by more `/`-separated fields,
   * grants access, lights green and announces the whitespace-stripped ids.
   */
  lemma AccessGrants(s: State, lock: string, user: string, tail: string)
    requires '/' !in lock && '/' !in user
    requires tail == [] || tail[0] == '/'
    ensures AfterMessage(s, "access" + "/" + lock + "/" + user + tail) ==
      s.(valid := true, red := false, green := true,
         outbox := Published(s, GrantReply(Strip(user), Strip(lock))))
  {
    DecodeGrantPayload(lock, user, tail);
  }

  /** A bare `access/<lock>` raises on the missing user before anything changes. */
  lemma AccessWithoutUserIgnored(s: State, lock: string)
    requires '/' !in lock
    ensures AfterMessage(s, "access" + "/" + lock) == s
  {
    DecodeKeyword("access", lock);
    SplitWithoutSeparator(lock, '/');
    assert Decode("access" + "/" + lock) == DecodeWord("access", ["access", lock]) == MissingUser;
  }

  /** `noaccess/...` lights red only: a valid access stays valid. */
  lemma NoAccessKeepsAuthorization(s: State, rest: string)
    ensures AfterMessage(s, "noaccess" + "/" + rest) == s.(red := true, green := false)
  {
    DecodeKeyword("noaccess", rest);
    assert Decode("noaccess" + "/" + rest).Deny?;
  }

  /** `intrusion/...` lights red only. */
  lemma IntrusionLightsRed(s: State, rest: string)
    ensures AfterMessage(s, "intrusion" + "/" + rest) == s.(red := true, green := false)
  {
    DecodeKeyword("intrusion", rest);
    assert Decode("intrusion" + "/" + rest).Intrusion?;
  }

  /** `status/...` only answers `status_response/device_alive`. */
  lemma StatusAnswers(s: State, rest: string)
    ensures AfterMessage(s, "status" + "/" + rest) == s.(outbox := Published(s, StatusReply))
  {
    DecodeKeyword("status", rest);
    assert Decode("status" + "/" + rest) == StatusQuery;
  }

  /** `reset/...` clears access and both LEDs and acknowledges, but leaves the alarm flag. */
  lemma ResetClears(s: State, rest: string)
    ensures AfterMessage(s, "reset" + "/" + rest) ==
      s.(valid := false, red := false, green := false, outbox := Published(s, ResetReply))
  {
    DecodeKeyword("reset", rest);
    assert Decode("reset" + "/" + rest) == Reset;
  }

  /** A second `reset/...` changes no flag or LED; it only acknowledges again. */
  lemma ResetTwiceAsOnce(s: State, rest: string)
    ensures var once := AfterMessage(s, "reset" + "/" + rest);
      var twice := AfterMessage(once, "reset" + "/" + rest);
      twice.(outbox := once.outbox) == once && twice.outbox == Published(once, ResetReply)
  {
    ResetClears(s, rest);
    ResetClears(AfterMessage(s, "reset" + "/" + rest), rest);
  }

  /** Any other command word changes nothing and publishes nothing. */
  lemma UnknownCommandIgnored(s: State, word: string, rest: string)
    requires '/' !in word && Strip(word) !in Commands
    ensures AfterMessage(s, word + "/" + rest) == s
  {
    DecodeLeading(word, rest);
    DecodeWordUnknown(Strip(word), [word] + Split(rest, '/'));
  }

  /** No payload touches the alarm flag, and every payload keeps the LED invariant. */
  lemma MessageKeepsConsistent(s: State, payload: string)
    requires Consistent(s)
    ensures Consistent(AfterMessage(s, payload))
    ensures AfterMessage(s, payload).alarmTriggered == s.alarmTriggered
  {
  }

  // ---------------------------------------------------------------------------
  // The door check and the main loop.

  /** An unauthorised opening raises the alarm once, leaves green alone and reports the intrusion. */
  lemma UnauthorisedOpeningAlarms(s: State, ticks: nat)
    requires !s.valid && !s.alarmTriggered
    ensures var r := AfterCheck(s, true, ticks);
      && r.alarmTriggered && r.valid == s.valid && r.green == s.green
      && (ticks > 0 ==> !r.red)
      && r.outbox == Published(s, IntrusionNotice)
  {
  }

  /** With the door open and access valid, the check does nothing. */
  lemma AuthorisedOpeningQuiet(s: State, ticks: nat)
    requires s.valid
    ensures AfterCheck(s, true, ticks) == s
  {
  }

  /** A closed door wipes both flags and both LEDs, and checking again changes nothing more. */
  lemma ClosedCheckIdempotent(s: State, ticks: nat)
    ensures var r := AfterCheck(s, false, ticks);
      && !r.valid && !r.alarmTriggered && !r.red && !r.green && r.outbox == s.outbox
      && AfterCheck(r, false, ticks) == r
  {
  }

  /** A grant handled in a pass whose sensor reads closed does not survive that pass. */
  lemma ClosedStepWipesGrant(s: State, msg: Option<string>, ticks: nat)
    requires s.connected
    ensures var r := AfterStep(s, msg, false, ticks);
      !r.valid && !r.alarmTriggered && !r.red && !r.green
  {
  }

  /** Every pass keeps the LED invariant. */
  lemma StepKeepsConsistent(s: State, msg: Option<string>, open: bool, ticks: nat)
    requires Consistent(s)
    ensures Consistent(AfterStep(s, msg, open, ticks))
  {
    if s.connected && msg.Some? {
      MessageKeepsConsistent(s, msg.value);
    }
  }

  /** The inputs of one pass of the main loop. */
  datatype Tick = Tick(msg: Option<string>, open: bool, ticks: nat)

  function Run(s: State, ts: seq<Tick>): State
    decreases |ts|
  {
    if ts == [] then s else Run(AfterStep(s, ts[0].msg, ts[0].open, ts[0].ticks), ts[1..])
  }

  predicate DoorHeldOpen(ts: seq<Tick>) {
    forall i :: 0 <= i < |ts| ==> ts[i].open
  }

  function Alarms(outbox: seq<string>): nat {
    multiset(outbox)[IntrusionNotice]
  }

  /**
   * While the door stays open the alarm fires at most once, whatever payloads
   * arrive meanwhile, and not at all if it has already fired.
   */
  lemma {:induction false} HeldOpenAlarmsAtMostOnce(s: State, ts: seq<Tick>)
    requires DoorHeldOpen(ts)
    ensures s.alarmTriggered ==> Run(s, ts).alarmTriggered
    ensures Alarms(Run(s, ts).outbox) <= Alarms(s.outbox) + (if s.alarmTriggered then 0 else 1)
    decreases |ts|
  {
    if ts != [] {
      var t := ts[0];
      var m := if s.connected && t.msg.Some? then AfterMessage(s, t.msg.value) else s;
      assert Alarms(m.outbox) == Alarms(s.outbox) by {
        if s.connected && t.msg.Some? {
          var c := Decode(t.msg.value);
          if Reply(c).Some? && s.connected {
            assert m.outbox == s.outbox + [Reply(c).value];
          }
        }
      }
      var n := AfterStep(s, t.msg, t.open, t.ticks);
      assert DoorHeldOpen(ts[1..]) by {
        assert forall i :: 0 <= i < |ts[1..]| ==> ts[1..][i] == ts[i + 1];
      }
      HeldOpenAlarmsAtMostOnce(n, ts[1..]);
      if !s.connected {
        assert n == s;
      } else if AlarmFires(m, true) {
        assert n.alarmTriggered && Alarms(n.outbox) == Alarms(m.outbox) + 1;
      } else {
        assert n == m;
      }
    }
  }

  // ---------------------------------------------------------------------------
  // The controller as the source runs it: globals updated in place.

  class Controller {
    var valid: bool
    var alarmTriggered: bool
    var red: bool
    var green: bool
    var connected: bool
    var outbox: seq<string>
    /** Every publish and every LED write of an alarm, in the order they happen. */
    ghost var effects: seq<Effect<string>>

    function Snapshot(): State
      reads this
    {
      State(valid, alarmTriggered, red, green, connected, outbox)
    }

    ghost predicate Valid()
      reads this
    {
      Consistent(Snapshot())
    }

    /** Start-up: flags cleared, LEDs off, nothing published yet. */
    constructor (connected: bool)
      ensures Snapshot() == Initial(connected)
      ensures Valid()
    {
      valid := false;
      alarmTriggered := false;
      this.connected := connected;
      outbox := [];
      red := false;
      green := false;
      effects := [];
    }

    /** `send_custom_mqtt_message`: a publish without a usable client is dropped. */
    method Publish(payload: string)
      modifies this`outbox, this`effects
      ensures outbox == Published(old(Snapshot()), payload)
      ensures effects == old(effects) + Report(connected, payload)
    {
      if connected {
        outbox := outbox + [payload];
        effects := effects + [Pub(payload)];
      }
    }

    /** `mqtt_callback`: split the payload on `/` and act on its command word. */
    method OnMessage(payload: string)
      requires Valid()
      modifies this
      ensures Snapshot() == AfterMessage(old(Snapshot()), payload)
      ensures effects == old(effects) + CommandTrace(old(Snapshot()), Decode(payload))
      ensures Valid()
    {
      var parts := Split(payload, '/');
      assert Decode(payload) == DecodeParts(parts);
      if |parts| >= 2 {
        var command := Strip(parts[0]);
        assert DecodeParts(parts) == DecodeWord(command, parts);
        Dispatch(command, parts);
      }
    }

    /** The branches of `mqtt_callback` on the stripped command word (iott.py:66-99). */
    method Dispatch(command: string, parts: seq<string>)
      requires Valid()
      requires |parts| >= 2
      modifies this
      ensures Snapshot() == AfterCommand(old(Snapshot()), DecodeWord(command, parts))
      ensures effects == old(effects) + CommandTrace(old(Snapshot()), DecodeWord(command, parts))
      ensures Valid()
    {
      if command == "access" {
        var lockId := Strip(parts[1]);
        if |parts| < 3 {
          // `parts[2]` raises IndexError; the handler at iott.py:102 swallows it.
          return;
        }
        var userId := Strip(parts[2]);
        valid := true;
        red := false;
        green := true;
        Publish(GrantReply(userId, lockId));
      } else if command == "noaccess" {
        red := true;
        green := false;
      } else if command == "intrusion" {
        red := true;
        green := false;
      } else if command == "status" {
        Publish(StatusReply);
      } else if command == "reset" {
        red := false;
        green := false;
        valid := false;
        Publish(ResetReply);
      }
    }

    /** The blink loop of `trigger_alarm`: `ticks` times red on, then red off. */
    method BlinkRed(ticks: nat)
      modifies this`red, this`effects
      ensures effects == old(effects) + RedWrites(Blinks(ticks))
      ensures red == (if ticks == 0 then old(red) else false)
    {
      var cycles := 0;
      while cycles < ticks
        invariant 0 <= cycles <= ticks
        invariant effects == old(effects) + RedWrites(Blinks(cycles))
        invariant red == (if cycles == 0 then old(red) else false)
      {
        RedWritesCycle<string>(Blinks(cycles));
        red := true;
        effects := effects + [Red(true)];
        red := false;
        effects := effects + [Red(false)];
        cycles := cycles + 1;
      }
    }

    /**
     * `trigger_alarm`: blink the red LED for as many cycles as the clock allows,
     * then mark the alarm as fired and report the intrusion.
     */
    method TriggerAlarm(ticks: nat)
      modifies this
      ensures Snapshot() == AfterAlarm(old(Snapshot()), ticks)
      ensures effects == old(effects) + AlarmTrace(old(connected), ticks)
    {
      BlinkRed(ticks);
      alarmTriggered := true;
      Publish(IntrusionNotice);
    }

    /** `check_door_state` with the sensor reading `open`. */
    method CheckDoor(open: bool, ticks: nat)
      requires Valid()
      modifies this
      ensures Snapshot() == AfterCheck(old(Snapshot()), open, ticks)
      ensures effects == old(effects) + CheckTrace(old(Snapshot()), open, ticks)
      ensures Valid()
    {
      if open && !valid && !alarmTriggered {
        TriggerAlarm(ticks);
      } else if !open {
        valid := false;
        alarmTriggered := false;
        red := false;
        green := false;
      }
    }

    /** One pass of the main loop. */
    method Step(msg: Option<string>, open: bool, ticks: nat)
      requires Valid()
      modifies this
      ensures Snapshot() == AfterStep(old(Snapshot()), msg, open, ticks)
      ensures effects == old(effects) + StepTrace(old(Snapshot()), msg, open, ticks)
      ensures Valid()
    {
      if !connected {
        // `check_msg` raises; the rest of the pass is skipped.
        return;
      }
      if msg.Some? {
        OnMessage(msg.value);
      }
      CheckDoor(open, ticks);
    }
  }
}
