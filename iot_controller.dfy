/**
 * The counter-driven door controller of iot.py.
 *
 * The globals `DOOR_OPEN`, `ACCESS_GRANTED` and `ALARM_ACTIVE`, the two LED
 * pins, the loop-local `access_counter` and the MQTT client returned by
 * `connect_mqtt` become the fields of `Controller`; every message the client
 * publishes is appended to `outbox` with its topic. `connected` is false when
 * `connect_mqtt` returned None: then `publish` raises and the exception is
 * swallowed.
 *
 * There is no authorisation message in this variant: the door's n-th opening
 * is granted when n is odd and denied, with an alarm, when n is even.
 */
module CounterDriven {
  import opened Signals

  const AccessTopic := "fastapi/access"
  const SecurityTopic := "fastapi/security"
  const GrantedNotice := "ACCESS_GRANTED"
  const DeniedNotice := "ACCESS_DENIED"
  const AlarmNotice := "UNAUTHORIZED_ACCESS"

  /** The number of on/off cycles `trigger_alarm` blinks (`range(10)`). */
  const AlarmCycles := 10

  datatype Publication = Publication(topic: string, message: string)

  /** The controller's state at the top of the main loop. */
  datatype State = State(
    doorOpen: bool,        // DOOR_OPEN: the last sensor reading acted on
    accessGranted: bool,   // ACCESS_GRANTED
    alarmActive: bool,     // ALARM_ACTIVE
    green: bool,           // GREEN_LED
    red: bool,             // RED_LED
    counter: nat,          // access_counter: door openings seen so far
    connected: bool,       // connect_mqtt returned a client
    outbox: seq<Publication>)

  /**
   * What a state at a loop boundary always satisfies: access is granted
   * exactly while the door is open after an odd-numbered opening, green shows
   * exactly that, red is lit only at start-up, and no alarm is running.
   */
  ghost predicate Invariant(s: State) {
    && s.accessGranted == (s.doorOpen && s.counter % 2 == 1)
    && s.green == s.accessGranted
    && (s.red ==> !s.doorOpen && s.counter == 0)
    && !s.alarmActive
  }

  /** The state `main` enters its loop with (iot.py:25-27, 97-105): red lit, nothing counted yet. */
  function Boot(connected: bool): (s: State)
    ensures Invariant(s) && s.red && !s.green && s.outbox == []
  {
    State(false, false, false, false, true, 0, connected, [])
  }

  /** The outbox after `send_mqtt_message(client, topic, message)`. */
  function Sent(s: State, topic: string, message: string): seq<Publication> {
    if s.connected then s.outbox + [Publication(topic, message)] else s.outbox
  }

  /** The state after `grant_access` (iot.py:61-67): green alone shows the grant, which is announced. */
  function AfterGrant(s: State): (r: State)
    ensures r.accessGranted && r.green && !r.red
    ensures r.outbox == s.outbox + (if s.connected then [Publication(AccessTopic, GrantedNotice)] else [])
    ensures r.doorOpen == s.doorOpen && r.counter == s.counter && r.connected == s.connected
  {
    s.(accessGranted := true, green := true, red := false,
       outbox := Sent(s, AccessTopic, GrantedNotice))
  }

  /** The state after `deny_access` (iot.py:69-75): red alone shows the denial, which is announced. */
  function AfterDeny(s: State): (r: State)
    ensures !r.accessGranted && !r.green && r.red
    ensures r.outbox == s.outbox + (if s.connected then [Publication(AccessTopic, DeniedNotice)] else [])
    ensures r.doorOpen == s.doorOpen && r.counter == s.counter && r.connected == s.connected
  {
    s.(accessGranted := false, green := false, red := true,
       outbox := Sent(s, AccessTopic, DeniedNotice))
  }

  /**
   * The effects of `trigger_alarm` in order: the report on the security topic
   * if there is a client, then `AlarmCycles` blink cycles on the red LED.
   */
  function AlarmTrace(connected: bool): seq<Effect<Publication>> {
    (if connected then [Pub(Publication(SecurityTopic, AlarmNotice))] else []) + RedWrites(Blinks(AlarmCycles))
  }

  /** The report comes before every LED write of the alarm, and the LED blinks ten times. */
  lemma AlarmReportsBeforeBlinking(connected: bool)
    ensures var t := AlarmTrace(connected);
      var k := if connected then 1 else 0;
      && |t| == k + 2 * AlarmCycles
      && (connected ==> t[0] == Pub(Publication(SecurityTopic, AlarmNotice)))
      && (forall i :: k <= i < |t| ==> t[i] == Red((i - k) % 2 == 0))
  {
    BlinksAlternate(AlarmCycles);
  }

  /** The report followed by `AlarmCycles` blink cycles is the alarm's trace. */
  lemma AlarmEffects(before: seq<Effect<Publication>>, reported: seq<Effect<Publication>>,
                     after: seq<Effect<Publication>>, connected: bool, cycles: nat)
    requires cycles == AlarmCycles
    requires reported == before + Report(connected, Publication(SecurityTopic, AlarmNotice))
    requires after == reported + RedWrites(Blinks(cycles))
    ensures after == before + AlarmTrace(connected)
  {
  }

  /**
   * The state after `trigger_alarm` (iot.py:77-90) has blinked and finished:
   * the alarm is over, red is off, and the outbox has gained the alarm's report.
   */
  function AfterAlarm(s: State): (r: State)
    ensures !r.alarmActive && !r.red
    ensures r.accessGranted == s.accessGranted && r.green == s.green
    ensures r.doorOpen == s.doorOpen && r.counter == s.counter && r.connected == s.connected
  {
    s.(alarmActive := false, red := false, outbox := Sent(s, SecurityTopic, AlarmNotice))
  }

  /** What the alarm adds to the outbox is exactly the reports of its effect trace. */
  lemma AlarmOutboxFollowsTrace(s: State)
    ensures AfterAlarm(s).outbox == s.outbox + Pubs(AlarmTrace(s.connected))
  {
    var report: seq<Effect<Publication>> := if s.connected then [Pub(Publication(SecurityTopic, AlarmNotice))] else [];
    var blinks := RedWrites<Publication>(Blinks(AlarmCycles));
    PubsAppend(report, blinks);
    PubsRedWrites<Publication>(Blinks(AlarmCycles));
    assert Pubs(report) == if s.connected then [Publication(SecurityTopic, AlarmNotice)] else [];
  }

  datatype Edge = Opened | Closed | Steady

  /** The edge the loop reacts to, given `DOOR_OPEN` and the new sensor reading. */
  function Detect(doorOpen: bool, sensor: bool): Edge {
    if sensor && !doorOpen then Opened
    else if !sensor && doorOpen then Closed
    else Steady
  }

  /** The simulated access check: odd-numbered attempts are granted. */
  predicate FallbackGrants(attempt: nat) {
    attempt % 2 == 1
  }

  /**
   * One pass of the loop in `main` (iot.py:107-141): react to the sensor
   * reading, then keep the MQTT link alive. `reachable` says whether the
   * broker answered, either to `check_msg` or to the reconnect that follows
   * its failure; a client that is already None is never retried.
   */
  function AfterTick(s: State, sensor: bool, reachable: bool): (r: State)
    ensures r.doorOpen == sensor
    ensures r.counter == s.counter + (if sensor && !s.doorOpen then 1 else 0)
    ensures r.connected == (s.connected && reachable)
    ensures s.outbox <= r.outbox
  {
    var t :=
      match Detect(s.doorOpen, sensor)
      case Opened =>
        var o := s.(doorOpen := true, counter := s.counter + 1);
        if FallbackGrants(o.counter) then AfterGrant(o) else AfterAlarm(AfterDeny(o))
      case Closed => s.(doorOpen := false, accessGranted := false, green := false, red := false)
      case Steady => s;
    t.(connected := t.connected && reachable)
  }

  /**
   * The effects of one pass in order: nothing unless the door opens; then the
   * grant, or the denial followed by the alarm's effects.
   */
  function TickTrace(s: State, sensor: bool): seq<Effect<Publication>> {
    if !(sensor && !s.doorOpen) then []
    else if FallbackGrants(s.counter + 1) then Report(s.connected, Publication(AccessTopic, GrantedNotice))
    else Report(s.connected, Publication(AccessTopic, DeniedNotice)) + AlarmTrace(s.connected)
  }

  /** What a pass adds to the outbox is exactly the reports of its effect trace, in order. */
  lemma TickOutboxFollowsTrace(s: State, sensor: bool, reachable: bool)
    ensures AfterTick(s, sensor, reachable).outbox == s.outbox + Pubs(TickTrace(s, sensor))
  {
    if sensor && !s.doorOpen {
      var o := s.(doorOpen := true, counter := s.counter + 1);
      if FallbackGrants(o.counter) {
        PubsReport(s.connected, Publication(AccessTopic, GrantedNotice));
      } else {
        var denial := Report(s.connected, Publication(AccessTopic, DeniedNotice));
        PubsReport(s.connected, Publication(AccessTopic, DeniedNotice));
        AlarmOutboxFollowsTrace(AfterDeny(o));
        PubsAppend(denial, AlarmTrace(s.connected));
        AppendAssoc(s.outbox, Pubs(denial), Pubs(AlarmTrace(s.connected)));
        assert AfterTick(s, sensor, reachable).outbox == AfterAlarm(AfterDeny(o)).outbox;
      }
    }
  }

  /** The effects of an opening's grant, or of its denial and alarm, are the pass's trace. */
  lemma OpeningEffects(s: State, before: seq<Effect<Publication>>, denied: seq<Effect<Publication>>,
                       after: seq<Effect<Publication>>)
    requires !s.doorOpen
    requires FallbackGrants(s.counter + 1) ==>
      after == before + Report(s.connected, Publication(AccessTopic, GrantedNotice))
    requires !FallbackGrants(s.counter + 1) ==>
      denied == before + Report(s.connected, Publication(AccessTopic, DeniedNotice)) &&
      after == denied + AlarmTrace(s.connected)
    ensures after == before + TickTrace(s, true)
  {
    if !FallbackGrants(s.counter + 1) {
      var denial := Report(s.connected, Publication(AccessTopic, DeniedNotice));
      assert TickTrace(s, true) == denial + AlarmTrace(s.connected);
      AppendAssoc(before, denial, AlarmTrace(s.connected));
    }
  }

  /** The publications of one opening: a grant, or a denial followed by the alarm report. */
  function OpeningReport(attempt: nat): seq<Publication> {
    if FallbackGrants(attempt) then [Publication(AccessTopic, GrantedNotice)]
    else [Publication(AccessTopic, DeniedNotice), Publication(SecurityTopic, AlarmNotice)]
  }

  // ---------------------------------------------------------------------------
  // One pass.

  /** A reading equal to `DOOR_OPEN` changes no flag, counter, LED or outbox. */
  lemma SteadyReadingChangesNothing(s: State, sensor: bool, reachable: bool)
    requires sensor == s.doorOpen
    ensures AfterTick(s, sensor, reachable) == s.(connected := s.connected && reachable)
  {
  }

  /**
   * An opening counts one more attempt; odd attempts are granted with green lit,
   * even ones denied, reported and alarmed, leaving both LEDs off.
   */
  lemma OpeningDecides(s: State, reachable: bool)
    requires !s.doorOpen
    ensures var r := AfterTick(s, true, reachable);
      && r.doorOpen && r.counter == s.counter + 1
      && r.accessGranted == FallbackGrants(s.counter + 1)
      && r.green == r.accessGranted && !r.red
      && r.outbox == s.outbox + (if s.connected then OpeningReport(s.counter + 1) else [])
  {
  }

  /** A closing clears access and both LEDs and publishes nothing. */
  lemma ClosingClears(s: State, reachable: bool)
    requires s.doorOpen
    ensures var r := AfterTick(s, false, reachable);
      && !r.doorOpen && !r.accessGranted && !r.green && !r.red
      && r.counter == s.counter && r.outbox == s.outbox
  {
  }

  /** Without a client nothing is ever published and no client appears. */
  lemma OfflineTickSilent(s: State, sensor: bool, reachable: bool)
    requires !s.connected
    ensures AfterTick(s, sensor, reachable).outbox == s.outbox
    ensures !AfterTick(s, sensor, reachable).connected
  {
  }

  /** Every pass keeps the invariant. */
  lemma TickKeepsInvariant(s: State, sensor: bool, reachable: bool)
    requires Invariant(s)
    ensures Invariant(AfterTick(s, sensor, reachable))
  {
  }

  /** At every loop boundary the two LEDs are not both lit, and access implies an open door. */
  lemma InvariantSafe(s: State)
    requires Invariant(s)
    ensures !(s.green && s.red)
    ensures s.accessGranted ==> s.doorOpen
  {
  }

  // ---------------------------------------------------------------------------
  // Many passes.

  /** The inputs of one pass: the sensor reading and whether the broker answered. */
  datatype Reading = Reading(sensor: bool, reachable: bool)

  function Run(s: State, rs: seq<Reading>): State
    decreases |rs|
  {
    if rs == [] then s else Run(AfterTick(s, rs[0].sensor, rs[0].reachable), rs[1..])
  }

  /** The number of closed-to-open transitions in the readings, starting from `last`. */
  function Openings(last: bool, rs: seq<Reading>): nat
    decreases |rs|
  {
    if rs == [] then 0
    else (if rs[0].sensor && !last then 1 else 0) + Openings(rs[0].sensor, rs[1..])
  }

  /**
   * `access_counter` counts exactly the openings, and `DOOR_OPEN` follows the
   * last reading.
   */
  lemma {:induction false} RunCountsOpenings(s: State, rs: seq<Reading>)
    ensures Run(s, rs).counter == s.counter + Openings(s.doorOpen, rs)
    ensures Run(s, rs).doorOpen == if rs == [] then s.doorOpen else rs[|rs| - 1].sensor
    decreases |rs|
  {
    if rs != [] {
      RunCountsOpenings(AfterTick(s, rs[0].sensor, rs[0].reachable), rs[1..]);
    }
  }

  lemma {:induction false} RunKeepsInvariant(s: State, rs: seq<Reading>)
    requires Invariant(s)
    ensures Invariant(Run(s, rs))
    decreases |rs|
  {
    if rs != [] {
      TickKeepsInvariant(s, rs[0].sensor, rs[0].reachable);
      RunKeepsInvariant(AfterTick(s, rs[0].sensor, rs[0].reachable), rs[1..]);
    }
  }

  /** Once `connect_mqtt` has returned None the controller stays silent for good. */
  lemma {:induction false} OfflineRunSilent(s: State, rs: seq<Reading>)
    requires !s.connected
    ensures Run(s, rs).outbox == s.outbox && !Run(s, rs).connected
    decreases |rs|
  {
    if rs != [] {
      OfflineTickSilent(s, rs[0].sensor, rs[0].reachable);
      OfflineRunSilent(AfterTick(s, rs[0].sensor, rs[0].reachable), rs[1..]);
    }
  }

  /** From start-up with the broker reachable, the first opening is granted. */
  lemma FirstOpeningGranted()
    ensures var r := Run(Boot(true), [Reading(true, true)]);
      && r.accessGranted && r.green && !r.red && r.counter == 1
      && r.outbox == [Publication(AccessTopic, GrantedNotice)]
  {
    var s0 := Boot(true);
    var s1 := AfterTick(s0, true, true);
    OpeningDecides(s0, true);
    assert Run(s0, [Reading(true, true)]) == Run(s1, []) == s1;
  }

  /**
   * From start-up with the broker reachable, after a first opening and a
   * closing, the second opening is denied, the alarm runs and is reported once,
   * and both LEDs end off.
   */
  lemma SecondOpeningAlarmed()
    ensures var r := Run(Boot(true), [Reading(true, true), Reading(false, true), Reading(true, true)]);
      && !r.accessGranted && !r.green && !r.red && r.counter == 2
      && r.outbox == [Publication(AccessTopic, GrantedNotice),
                      Publication(AccessTopic, DeniedNotice),
                      Publication(SecurityTopic, AlarmNotice)]
  {
    var s0 := Boot(true);
    var s1 := AfterTick(s0, true, true);
    OpeningDecides(s0, true);
    var s2 := AfterTick(s1, false, true);
    ClosingClears(s1, true);
    var s3 := AfterTick(s2, true, true);
    OpeningDecides(s2, true);
    var r1, r2, r3 := Reading(true, true), Reading(false, true), Reading(true, true);
    assert Run(s2, [r3]) == Run(s3, []) == s3;
    assert Run(s1, [r2, r3]) == Run(s2, [r3]) by {
      assert [r2, r3][1..] == [r3];
    }
    assert Run(s0, [r1, r2, r3]) == Run(s1, [r2, r3]) by {
      assert [r1, r2, r3][1..] == [r2, r3];
    }
  }

  // ---------------------------------------------------------------------------
  // The controller as the source runs it: globals updated in place.

  class Controller {
    var doorOpen: bool
    var accessGranted: bool
    var alarmActive: bool
    var green: bool
    var red: bool
    var counter: nat
    var connected: bool
    var outbox: seq<Publication>
    /** Every publish and every LED write of an alarm, in the order they happen. */
    ghost var effects: seq<Effect<Publication>>

    function Snapshot(): State
      reads this
    {
      State(doorOpen, accessGranted, alarmActive, green, red, counter, connected, outbox)
    }

    ghost predicate Valid()
      reads this
    {
      Invariant(Snapshot())
    }

    /** The start of `main`, up to its loop; `connected` is the outcome of `connect_mqtt`. */
    constructor (connected: bool)
      ensures Snapshot() == Boot(connected)
      ensures Valid()
    {
      accessGranted := false;
      doorOpen := false;
      alarmActive := false;
      green := false;
      red := true;
      this.connected := connected;
      outbox := [];
      counter := 0;
      effects := [];
    }

    /** `send_mqtt_message`: a publish without a client is dropped. */
    method Send(topic: string, message: string)
      modifies this`outbox, this`effects
      ensures outbox == Sent(old(Snapshot()), topic, message)
      ensures effects == old(effects) + Report(connected, Publication(topic, message))
    {
      if connected {
        outbox := outbox + [Publication(topic, message)];
        effects := effects + [Pub(Publication(topic, message))];
      }
    }

    method GrantAccess()
      modifies this
      ensures Snapshot() == AfterGrant(old(Snapshot()))
      ensures effects == old(effects) + Report(connected, Publication(AccessTopic, GrantedNotice))
    {
      accessGranted := true;
      green := true;
      red := false;
      Send(AccessTopic, GrantedNotice);
    }

    method DenyAccess()
      modifies this
      ensures Snapshot() == AfterDeny(old(Snapshot()))
      ensures effects == old(effects) + Report(connected, Publication(AccessTopic, DeniedNotice))
    {
      accessGranted := false;
      green := false;
      red := true;
      Send(AccessTopic, DeniedNotice);
    }

    /** The blink loop of `trigger_alarm`: `cycles` times red on, then red off. */
    method BlinkRed(cycles: nat)
      modifies this`red, this`effects
      ensures effects == old(effects) + RedWrites(Blinks(cycles))
      ensures red == (if cycles == 0 then old(red) else false)
    {
      for cycle := 0 to cycles
        invariant effects == old(effects) + RedWrites(Blinks(cycle))
        invariant red == (if cycle == 0 then old(red) else false)
      {
        RedWritesCycle<Publication>(Blinks(cycle));
        red := true;
        effects := effects + [Red(true)];
        red := false;
        effects := effects + [Red(false)];
      }
    }

    /**
     * `trigger_alarm`: report the intrusion, then blink red `AlarmCycles` times.
     */
    method TriggerAlarm()
      modifies this
      ensures Snapshot() == AfterAlarm(old(Snapshot()))
      ensures effects == old(effects) + AlarmTrace(old(connected))
    {
      alarmActive := true;
      var cycles := AlarmCycles;
      ghost var before := effects;
      Send(SecurityTopic, AlarmNotice);
      ghost var reported := effects;
      BlinkRed(cycles);
      AlarmEffects(before, reported, effects, connected, cycles);
      alarmActive := false;
    }

    /** One pass of the loop in `main`. */
    method Step(sensor: bool, reachable: bool)
      requires Valid()
      modifies this
      ensures Snapshot() == AfterTick(old(Snapshot()), sensor, reachable)
      ensures effects == old(effects) + TickTrace(old(Snapshot()), sensor)
      ensures Valid()
    {
      if sensor && !doorOpen {
        ghost var before := effects;
        ghost var denied := before;
        doorOpen := true;
        counter := counter + 1;
        if counter % 2 == 1 {
          GrantAccess();
        } else {
          DenyAccess();
          denied := effects;
          if !accessGranted {
            TriggerAlarm();
          }
        }
        OpeningEffects(old(Snapshot()), before, denied, effects);
      } else if !sensor && doorOpen {
        doorOpen := false;
        accessGranted := false;
        green := false;
        red := false;
      }
      if connected {
        // `check_msg` either succeeds or fails and is followed by a reconnect.
        connected := reachable;
      }
      TickKeepsInvariant(old(Snapshot()), sensor, reachable);
    }
  }
}
