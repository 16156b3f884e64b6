/** The decision logic of the controller (fw/main.c): temperature bands
    with hysteresis, the manual override and its timeout, the control-mode
    table, the debounced relay change, the LED mask, the heartbeat and the
    report schedule.  `Tick` is one run of periodic_task on a snapshot of
    the controller's fields; the class in controller.dfy performs the same
    steps in place and is proved equal to it.

    Time is an integer count of milliseconds since boot; a deadline t is
    "reached" when now >= t. */
module Control {
  import opened Leds

  datatype Option<T> = None | Some(value: T)

  datatype Band = Cold | Mild | Hot

  datatype ManualMode = Auto | AutoDark | ManualOff | ManualOn | ManualBoost

  datatype ControlMode = Off | On | Boost

  /** The levels written to the boost and mains relay GPIOs. */
  datatype Relays = Relays(boost: bool, mains: bool)

  /** The settings read at start-up (the report address is not modelled). */
  datatype Config = Config(
    coldThreshold: real,
    notColdThreshold: real,
    notHotThreshold: real,
    hotThreshold: real,
    changeDelayS: int,
    reportPort: int,
    reportIntervalS: int,
    manualTimeoutS: int,
    controlPort: int)

  /** The thresholds are ordered as their names suggest. */
  predicate ThresholdsOrdered(cfg: Config)
  {
    cfg.coldThreshold < cfg.notColdThreshold <= cfg.notHotThreshold < cfg.hotThreshold
  }

  /** A delay of some seconds as the milliseconds handed to the timer
      functions, computed without overflow (see Settings.TimeoutMsAsWritten
      for the 32-bit product the firmware computes). */
  function SecondsToMs(seconds: int): (ms: int)
    ensures seconds >= 1 ==> ms >= 1000
  {
    seconds * 1000
  }

  /** is_manual_mode: the modes that a timeout ends. */
  predicate IsManual(m: ManualMode)
    ensures IsManual(m) <==> m == ManualOff || m == ManualOn || m == ManualBoost
  {
    match m
    case Auto | AutoDark => false
    case _ => true
  }

  /** The temperature band after one reading, with hysteresis: a band is
      left only once the temperature has passed the band's own exit
      threshold, and Cold and Hot are never neighbours.  From Mild the cold
      test runs second, so it wins if both tests pass. */
  function NextBand(band: Band, t: real, cfg: Config): (r: Band)
    ensures band == Cold ==> r != Hot && (r == Mild <==> t > cfg.notColdThreshold)
    ensures band == Hot ==> r != Cold && (r == Mild <==> t < cfg.notHotThreshold)
    ensures band == Mild ==> (r == Cold <==> t < cfg.coldThreshold)
    ensures band == Mild ==> (r == Hot <==> t > cfg.hotThreshold && !(t < cfg.coldThreshold))
  {
    match band
    case Cold => if t > cfg.notColdThreshold then Mild else Cold
    case Hot => if t < cfg.notHotThreshold then Mild else Hot
    case Mild =>
      var afterHotTest := if t > cfg.hotThreshold then Hot else Mild;
      if t < cfg.coldThreshold then Cold else afterHotTest
  }

  /** With ordered thresholds a reading strictly between the two exit
      thresholds puts every band into Mild. */
  lemma ComfortableIsMild(band: Band, t: real, cfg: Config)
    requires ThresholdsOrdered(cfg)
    requires cfg.notColdThreshold < t < cfg.notHotThreshold
    ensures NextBand(band, t, cfg) == Mild
  {
  }

  /** A manual mode ends once its end time is reached; the automatic modes
      have no end. */
  function ExpireManual(m: ManualMode, endTime: int, now: int): (r: ManualMode)
    ensures !IsManual(m) ==> r == m
    ensures IsManual(m) ==> (r == Auto <==> now >= endTime)
    ensures r != Auto ==> r == m
  {
    if IsManual(m) && now >= endTime then Auto else m
  }

  /** The control-mode table: the automatic modes run the fan only in the
      Mild band (AutoDark at boost), the manual modes force their mode. */
  function Desired(m: ManualMode, band: Band): (r: ControlMode)
    ensures r == On <==> m == ManualOn || (m == Auto && band == Mild)
    ensures r == Boost <==> m == ManualBoost || (m == AutoDark && band == Mild)
    ensures !IsManual(m) ==> (r != Off <==> band == Mild)
  {
    match m
    case Auto => if band == Mild then On else Off
    case AutoDark => if band == Mild then Boost else Off
    case ManualOff => Off
    case ManualOn => On
    case ManualBoost => Boost
  }

  /** Exactly the manual modes ignore the temperature band. */
  lemma ManualIgnoresBand(m: ManualMode)
    ensures IsManual(m) <==> (Desired(m, Cold) == Desired(m, Mild) == Desired(m, Hot))
  {
    match m
    case Auto => assert Desired(m, Cold) != Desired(m, Mild);
    case AutoDark => assert Desired(m, Cold) != Desired(m, Mild);
    case _ =>
  }

  /** The relay levels for a control mode: the mains relay is on unless
      the mode is Off, and the boost relay only in Boost. */
  function RelaysFor(c: ControlMode): (r: Relays)
    ensures r.mains <==> c != Off
    ensures r.boost <==> c == Boost
    ensures r.boost ==> r.mains
  {
    match c
    case On => Relays(false, true)
    case Boost => Relays(true, true)
    case Off => Relays(false, false)
  }

  /** The LED state shown for a controller state. */
  function LedMask(current: ControlMode, band: Band, manual: ManualMode, heartbeat: int): (r: bv8)
    ensures r & POWER_LED_BIT != 0
    ensures r & HEARTBEAT_LED_BIT != 0 <==> heartbeat == 0
    ensures r & MAINS_RELAY_LED_BIT != 0 <==> current != Off
    ensures r & BOOST_RELAY_LED_BIT != 0 <==> current == Boost
    ensures !IsManual(manual) ==>
              (r & COLD_LED_BIT != 0 <==> band == Cold) && (r & HOT_LED_BIT != 0 <==> band == Hot)
    ensures IsManual(manual) ==>
              (r & HOT_LED_BIT != 0 <==> heartbeat == 1) && (r & COLD_LED_BIT != 0 <==> heartbeat == 2)
    ensures !(r & HOT_LED_BIT != 0 && r & COLD_LED_BIT != 0)
    ensures r & 0xC0 == 0
  {
    var power := POWER_LED_BIT;
    var beat := if heartbeat == 0 then HEARTBEAT_LED_BIT else 0;
    var relays := match current
      case On => MAINS_RELAY_LED_BIT
      case Boost => BOOST_RELAY_LED_BIT | MAINS_RELAY_LED_BIT
      case Off => 0;
    var temperature :=
      if !IsManual(manual) then
        match band
        case Cold => COLD_LED_BIT
        case Hot => HOT_LED_BIT
        case Mild => 0
      else
        if heartbeat == 1 then HOT_LED_BIT else if heartbeat == 2 then COLD_LED_BIT else 0;
    power | beat | relays | temperature
  }

  /** The heartbeat counter: it counts 0..9 and wraps, and drops straight
      back to 0 while WiFi is down so that the heartbeat LED flashes faster. */
  function NextHeartbeat(counter: int, wifiConnected: bool): (r: int)
    ensures 0 <= counter <= 9 ==> 0 <= r <= 9
    ensures counter >= 0 ==> (r == 0 <==> (counter > 0 && !wifiConnected) || counter >= 9)
    ensures r != 0 ==> r == counter + 1
  {
    if counter > 0 && !wifiConnected then 0
    else if counter >= 9 then 0
    else counter + 1
  }

  /** The fields of `control_status_t` that periodic_task and
      manual_setting read and write. */
  datatype ControlState = ControlState(
    heartbeatCounter: int,
    band: Band,
    manual: ManualMode,
    next: ControlMode,
    current: ControlMode,
    controlModeUpdateTime: int,
    reportUpdateTime: int,
    manualModeEndTime: int,
    externalTemperature: real)

  /** The invariant the controller keeps. */
  predicate ValidState(s: ControlState)
  {
    0 <= s.heartbeatCounter <= 9
  }

  /** What one tick reads from outside: the clock, the freshly converted
      external temperature and whether WiFi is connected. */
  datatype TickInput = TickInput(now: int, externalTemperature: real, wifiConnected: bool)

  /** What one tick does to the outside: the relay levels when they are
      written, the LED state, and whether a report is sent. */
  datatype TickOutput = TickOutput(relays: Option<Relays>, leds: bv8, reportDue: bool)

  datatype TickResult = TickResult(state: ControlState, output: TickOutput)

  /** One run of periodic_task. */
  function Tick(cfg: Config, s: ControlState, input: TickInput): (r: TickResult)
    ensures r.state.band == NextBand(s.band, input.externalTemperature, cfg)
    ensures r.state.manual == ExpireManual(s.manual, s.manualModeEndTime, input.now)
    ensures r.state.next == Desired(r.state.manual, r.state.band)
    // debounce: the mode changes only to the desired one, only once the
    // dwell time is over, and every change writes the relays and re-arms
    // the dwell timer
    ensures r.output.relays.Some? <==> s.current != r.state.next && input.now >= s.controlModeUpdateTime
    ensures r.output.relays.Some? ==>
              r.state.current == r.state.next &&
              r.output.relays.value == RelaysFor(r.state.current) &&
              r.state.controlModeUpdateTime == input.now + SecondsToMs(cfg.changeDelayS)
    ensures r.output.relays.None? ==>
              r.state.current == s.current && r.state.controlModeUpdateTime == s.controlModeUpdateTime
    // the LEDs show the new mode and band but the heartbeat counter as it
    // was before this tick
    ensures r.output.leds == LedMask(r.state.current, r.state.band, r.state.manual, s.heartbeatCounter)
    ensures r.state.heartbeatCounter == NextHeartbeat(s.heartbeatCounter, input.wifiConnected)
    // a report is due at its scheduled time or after a change, and the
    // next one is scheduled one interval after the previous schedule
    ensures r.output.reportDue <==> input.now >= s.reportUpdateTime || r.output.relays.Some?
    ensures r.state.reportUpdateTime ==
              if r.output.reportDue then s.reportUpdateTime + SecondsToMs(cfg.reportIntervalS)
              else s.reportUpdateTime
    ensures r.state.manualModeEndTime == s.manualModeEndTime
    ensures r.state.externalTemperature == input.externalTemperature
    ensures ValidState(s) ==> ValidState(r.state)
  {
    var band := NextBand(s.band, input.externalTemperature, cfg);
    var manual := ExpireManual(s.manual, s.manualModeEndTime, input.now);
    var next := Desired(manual, band);
    var changed := next != s.current && input.now >= s.controlModeUpdateTime;
    var current := if changed then next else s.current;
    var updateTime := if changed then input.now + SecondsToMs(cfg.changeDelayS) else s.controlModeUpdateTime;
    var leds := LedMask(current, band, manual, s.heartbeatCounter);
    var heartbeat := NextHeartbeat(s.heartbeatCounter, input.wifiConnected);
    var reportDue := input.now >= s.reportUpdateTime || changed;
    var reportTime := if reportDue then s.reportUpdateTime + SecondsToMs(cfg.reportIntervalS) else s.reportUpdateTime;
    TickResult(
      ControlState(heartbeat, band, manual, next, current, updateTime, reportTime,
                   s.manualModeEndTime, input.externalTemperature),
      TickOutput(if changed then Some(RelaysFor(current)) else None, leds, reportDue))
  }

  /** A tick does not depend on the temperature stored by the previous
      tick, only on the one it is given. */
  lemma TickIgnoresOldTemperature(cfg: Config, s: ControlState, t: real, input: TickInput)
    ensures Tick(cfg, s.(externalTemperature := t), input) == Tick(cfg, s, input)
  {
  }

  /** Consecutive ticks. */
  function Run(cfg: Config, s: ControlState, inputs: seq<TickInput>): (r: ControlState)
    ensures r.manualModeEndTime == s.manualModeEndTime
    ensures inputs != [] ==> r.externalTemperature == inputs[|inputs| - 1].externalTemperature
    decreases |inputs|
  {
    if inputs == [] then s else Run(cfg, Tick(cfg, s, inputs[0]).state, inputs[1..])
  }

  /** The controller invariant holds after any number of ticks. */
  lemma {:induction false} RunKeepsValid(cfg: Config, s: ControlState, inputs: seq<TickInput>)
    requires ValidState(s)
    ensures ValidState(Run(cfg, s, inputs))
    decreases |inputs|
  {
    if inputs != [] {
      RunKeepsValid(cfg, Tick(cfg, s, inputs[0]).state, inputs[1..]);
    }
  }

  /** Dwell: while the dwell timer has not been reached the control mode
      and the timer stay as they are, whatever the temperature. */
  lemma {:induction false} DwellHolds(cfg: Config, s: ControlState, inputs: seq<TickInput>)
    requires forall k :: 0 <= k < |inputs| ==> inputs[k].now < s.controlModeUpdateTime
    ensures Run(cfg, s, inputs).current == s.current
    ensures Run(cfg, s, inputs).controlModeUpdateTime == s.controlModeUpdateTime
    decreases |inputs|
  {
    if inputs != [] {
      DwellHolds(cfg, Tick(cfg, s, inputs[0]).state, inputs[1..]);
    }
  }

  /** Two changes of the control mode are at least change_delay_s apart:
      after a change at time t no tick before t + change_delay_s changes
      the mode again. */
  lemma {:induction false} ChangesAreSpaced(cfg: Config, s: ControlState, input: TickInput, later: seq<TickInput>)
    requires Tick(cfg, s, input).state.current != s.current
    requires forall k :: 0 <= k < |later| ==> later[k].now < input.now + SecondsToMs(cfg.changeDelayS)
    ensures Run(cfg, Tick(cfg, s, input).state, later).current == Tick(cfg, s, input).state.current
  {
    DwellHolds(cfg, Tick(cfg, s, input).state, later);
  }

  /** A manual mode stays in force until its end time is reached. */
  lemma {:induction false} ManualHeld(cfg: Config, s: ControlState, inputs: seq<TickInput>)
    requires forall k :: 0 <= k < |inputs| ==> inputs[k].now < s.manualModeEndTime
    ensures Run(cfg, s, inputs).manual == s.manual
    ensures Run(cfg, s, inputs).manualModeEndTime == s.manualModeEndTime
    decreases |inputs|
  {
    if inputs != [] {
      ManualHeld(cfg, Tick(cfg, s, inputs[0]).state, inputs[1..]);
    }
  }

  /** A manual mode holds through every tick before its end time and the
      first tick at or after the end time returns to Auto. */
  lemma {:induction false} ManualExpires(cfg: Config, s: ControlState, before: seq<TickInput>, expiry: TickInput)
    requires IsManual(s.manual)
    requires forall k :: 0 <= k < |before| ==> before[k].now < s.manualModeEndTime
    requires expiry.now >= s.manualModeEndTime
    ensures Run(cfg, s, before).manual == s.manual
    ensures Tick(cfg, Run(cfg, s, before), expiry).state.manual == Auto
  {
    ManualHeld(cfg, s, before);
  }

  /** Hysteresis over time: once Hot, the band stays Hot as long as the
      temperature does not drop below not_hot_threshold. */
  lemma {:induction false} HotPersists(cfg: Config, s: ControlState, inputs: seq<TickInput>)
    requires s.band == Hot
    requires forall k :: 0 <= k < |inputs| ==> inputs[k].externalTemperature >= cfg.notHotThreshold
    ensures Run(cfg, s, inputs).band == Hot
    decreases |inputs|
  {
    if inputs != [] {
      HotPersists(cfg, Tick(cfg, s, inputs[0]).state, inputs[1..]);
    }
  }

  /** Once Cold, the band stays Cold as long as the temperature does not
      rise above not_cold_threshold. */
  lemma {:induction false} ColdPersists(cfg: Config, s: ControlState, inputs: seq<TickInput>)
    requires s.band == Cold
    requires forall k :: 0 <= k < |inputs| ==> inputs[k].externalTemperature <= cfg.notColdThreshold
    ensures Run(cfg, s, inputs).band == Cold
    decreases |inputs|
  {
    if inputs != [] {
      ColdPersists(cfg, Tick(cfg, s, inputs[0]).state, inputs[1..]);
    }
  }

  /** With WiFi up the heartbeat counter just counts modulo 10, so the
      heartbeat LED is lit on one tick in ten. */
  lemma {:induction false} HeartbeatCounts(cfg: Config, s: ControlState, inputs: seq<TickInput>)
    requires ValidState(s)
    requires forall k :: 0 <= k < |inputs| ==> inputs[k].wifiConnected
    ensures Run(cfg, s, inputs).heartbeatCounter == (s.heartbeatCounter + |inputs|) % 10
    decreases |inputs|
  {
    if inputs != [] {
      var s1 := Tick(cfg, s, inputs[0]).state;
      assert s1.heartbeatCounter == (s.heartbeatCounter + 1) % 10;
      HeartbeatCounts(cfg, s1, inputs[1..]);
    }
  }

  /** With WiFi down the counter alternates between 0 and 1, so the
      heartbeat LED is lit on every other tick. */
  lemma HeartbeatWithoutWifi(counter: int)
    requires 0 <= counter <= 9
    ensures NextHeartbeat(counter, false) == if counter == 0 then 1 else 0
  {
  }

  /** Report text for the control mode. */
  function ControlLabel(c: ControlMode): (r: string)
    ensures r == "OFF" <==> c == Off
    ensures r == "ON" <==> c == On
    ensures r == "BOOST" <==> c == Boost
  {
    match c
    case On => "ON"
    case Boost => "BOOST"
    case Off => "OFF"
  }

  /** Report text for the band. */
  function BandLabel(b: Band): (r: string)
    ensures r == "COLD" <==> b == Cold
    ensures r == "MILD" <==> b == Mild
    ensures r == "HOT" <==> b == Hot
  {
    match b
    case Cold => "COLD"
    case Hot => "HOT"
    case Mild => "MILD"
  }

  /** The "auto" field of the report. */
  function AutoFlag(m: ManualMode): (r: nat)
    ensures r <= 1
    ensures r == 1 <==> !IsManual(m)
  {
    if IsManual(m) then 0 else 1
  }

  /** The fields of a status report (the text layout is not modelled). */
  datatype Report = Report(
    externalTemperature: real,
    internalTemperature: real,
    control: string,
    autoFlag: nat,
    band: string,
    uptimeS: nat)

  /** make_report, with the internal temperature and the uptime given. */
  function MakeReport(s: ControlState, internalTemperature: real, uptimeS: nat): (r: Report)
    ensures r.externalTemperature == s.externalTemperature && r.internalTemperature == internalTemperature
    ensures r.control == ControlLabel(s.current) && r.band == BandLabel(s.band)
    ensures r.autoFlag == AutoFlag(s.manual) && (r.autoFlag == 1 <==> !IsManual(s.manual))
    ensures r.uptimeS == uptimeS
  {
    Report(s.externalTemperature, internalTemperature, ControlLabel(s.current),
           AutoFlag(s.manual), BandLabel(s.band), uptimeS)
  }

  /** Different control modes and different bands are reported with
      different labels, so the report text identifies both. */
  lemma {:induction false} LabelsDistinct(a: ControlMode, b: ControlMode, x: Band, y: Band)
    ensures ControlLabel(a) == ControlLabel(b) ==> a == b
    ensures BandLabel(x) == BandLabel(y) ==> x == y
  {
    match a
    case Off =>
    case On => assert ControlLabel(On) != "OFF";
    case Boost => assert ControlLabel(Boost) != "OFF" && ControlLabel(Boost) != "ON";
  }

  /** A reader of the report recovering the control mode (the model's own
      reference reader; the firmware only writes the text). */
  function ParseControlLabel(text: string): Option<ControlMode>
  {
    if text == "OFF" then Some(Off)
    else if text == "ON" then Some(On)
    else if text == "BOOST" then Some(Boost)
    else None
  }

  /** A reader of the report recovering the band (the model's own
      reference reader). */
  function ParseBandLabel(text: string): Option<Band>
  {
    if text == "COLD" then Some(Cold)
    else if text == "MILD" then Some(Mild)
    else if text == "HOT" then Some(Hot)
    else None
  }

  /** The report identifies the control mode, the band and whether the
      controller is in an automatic mode. */
  lemma {:induction false} ReportRoundTrip(s: ControlState, internalTemperature: real, uptimeS: nat)
    ensures ParseControlLabel(MakeReport(s, internalTemperature, uptimeS).control) == Some(s.current)
    ensures ParseBandLabel(MakeReport(s, internalTemperature, uptimeS).band) == Some(s.band)
    ensures MakeReport(s, internalTemperature, uptimeS).autoFlag == 1 <==> !IsManual(s.manual)
    ensures MakeReport(s, internalTemperature, uptimeS).externalTemperature == s.externalTemperature
  {
    match s.current
    case Off => assert ControlLabel(Off) == "OFF";
    case On => assert ControlLabel(On) == "ON" && ControlLabel(On) != "OFF";
    case Boost => assert ControlLabel(Boost) == "BOOST" && ControlLabel(Boost) != "OFF" && ControlLabel(Boost) != "ON";
  }
}
