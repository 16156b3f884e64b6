/** The controller object (`control_status_t` in fw/main.c) and the
    operations that update it in place: state_init, periodic_task and
    manual_setting.  Each is proved to perform exactly the step described
    by the value-level functions of Control, Commands and Settings, so the
    properties proved there hold for the object.

    The sensor readings, the WiFi status and the clock are parameters;
    the float conversions temperature_external and temperature_internal
    are parameters from the history total to degrees Celsius. */
module Controller {
  import opened Leds
  import opened Control
  import opened Commands
  import opened Settings
  import opened SampleHistory

  /** A report as make_report_and_send_by_udp sends it: nothing when no
      report port is configured, the uptime in whole seconds. */
  function ReportSent(cfg: Config, s: ControlState, internalTemperature: real, now: nat): (r: Option<Report>)
    ensures r.Some? <==> cfg.reportPort != 0
    ensures r.Some? ==> r.value == MakeReport(s, internalTemperature, now / 1000)
    ensures r.Some? ==> r.value.uptimeS == now / 1000 && r.value.control == ControlLabel(s.current)
  {
    if cfg.reportPort == 0 then None else Some(MakeReport(s, internalTemperature, now / 1000))
  }

  class ControlStatus {
    const config: Config
    var heartbeatCounter: int
    var temperatureBand: Band
    var manualMode: ManualMode
    var nextControlMode: ControlMode
    var currentControlMode: ControlMode
    var controlModeUpdateTime: int
    var reportUpdateTime: int
    var manualModeEndTime: int
    var externalTemperatureValue: real
    const temperatureHandle: Temperature

    /** The fields as a ControlState value. */
    function State(): ControlState
      reads this
    {
      ControlState(heartbeatCounter, temperatureBand, manualMode, nextControlMode,
                   currentControlMode, controlModeUpdateTime, reportUpdateTime,
                   manualModeEndTime, externalTemperatureValue)
    }

    ghost predicate Valid()
      reads this, temperatureHandle, temperatureHandle.internal, temperatureHandle.external,
            temperatureHandle.internal.data, temperatureHandle.external.data
    {
      temperatureHandle.Valid() && ValidState(State())
    }

    /** state_init: zeroed fields, band Mild, mode Auto, relays off, the
        configuration read, the sensor histories pre-filled and the three
        deadlines set one interval after `now`. */
    constructor (stored: StoredSettings, internalReadings: seq<AdcSample>, externalReadings: seq<AdcSample>,
                 externalCelsius: int -> real, now: nat)
      requires |internalReadings| == HISTORY_SIZE && |externalReadings| == HISTORY_SIZE
      ensures Valid()
      ensures fresh(temperatureHandle) && fresh(temperatureHandle.internal) && fresh(temperatureHandle.external)
      ensures fresh(temperatureHandle.internal.data) && fresh(temperatureHandle.external.data)
      ensures config == ConfigInit(stored)
      ensures temperatureHandle.external.Value() == History(externalReadings, 0, Sum(externalReadings))
      ensures temperatureHandle.internal.Value() == History(internalReadings, 0, Sum(internalReadings))
      ensures State() == InitialState(config, externalCelsius(Sum(externalReadings)), now)
    {
      heartbeatCounter := 0;
      temperatureBand := Mild;
      manualMode := Auto;
      nextControlMode := Off;
      currentControlMode := Off;
      var cfg := ConfigInit(stored);
      config := cfg;
      var handle := new Temperature(internalReadings, externalReadings);
      temperatureHandle := handle;
      externalTemperatureValue := externalCelsius(handle.external.total);
      controlModeUpdateTime := now + SecondsToMs(cfg.changeDelayS);
      reportUpdateTime := now + SecondsToMs(cfg.reportIntervalS);
      manualModeEndTime := now + SecondsToMs(cfg.manualTimeoutS);
    }

    /** periodic_task: read the sensors, update band, manual mode and
        control mode, drive relays and LEDs, advance the heartbeat and send
        the report when it is due. */
    method PeriodicTask(internalReading: AdcSample, externalReading: AdcSample,
                        externalCelsius: int -> real, internalCelsius: int -> real,
                        now: nat, wifiConnected: bool)
      returns (relays: Option<Relays>, ledWord: bv32, report: Option<Report>)
      requires Valid()
      modifies this, temperatureHandle.internal, temperatureHandle.internal.data,
               temperatureHandle.external, temperatureHandle.external.data
      ensures Valid()
      ensures temperatureHandle.internal.Value() == Push(old(temperatureHandle.internal.Value()), internalReading)
      ensures temperatureHandle.external.Value() == Push(old(temperatureHandle.external.Value()), externalReading)
      ensures var r := Tick(config, old(State()),
                            TickInput(now, externalCelsius(temperatureHandle.external.total), wifiConnected));
              State() == r.state && relays == r.output.relays && ledWord == ControlWord(r.output.leds) &&
              report == (if r.output.reportDue
                         then ReportSent(config, State(), internalCelsius(temperatureHandle.internal.total), now)
                         else None)
    {
      temperatureHandle.TemperatureUpdate(internalReading, externalReading);
      externalTemperatureValue := externalCelsius(temperatureHandle.external.total);
      relays, ledWord, report := Decide(now, wifiConnected, internalCelsius);
      TickIgnoresOldTemperature(config, old(State()), externalTemperatureValue,
                                TickInput(now, externalTemperatureValue, wifiConnected));
    }

    /** Everything periodic_task does once the new external temperature is
        stored: one Tick on the fields. */
    method Decide(now: nat, wifiConnected: bool, internalCelsius: int -> real)
      returns (relays: Option<Relays>, ledWord: bv32, report: Option<Report>)
      modifies this
      ensures var r := Tick(config, old(State()), TickInput(now, old(externalTemperatureValue), wifiConnected));
              State() == r.state && relays == r.output.relays && ledWord == ControlWord(r.output.leds) &&
              report == (if r.output.reportDue
                         then ReportSent(config, State(), internalCelsius(temperatureHandle.internal.total), now)
                         else None)
    {
      UpdateBand();
      LeaveManualMode(now);
      DecideControlMode();
      var outputChanged;
      relays, outputChanged := ChangeControlMode(now);
      var leds := LedState();
      ledWord := LedsOutputSet(leds);
      UpdateHeartbeat(wifiConnected);
      report := None;
      if now >= reportUpdateTime || outputChanged {
        reportUpdateTime := reportUpdateTime + SecondsToMs(config.reportIntervalS);
        report := ReportSent(config, State(), internalCelsius(temperatureHandle.internal.total), now);
      }
    }

    /** The temperature-band step of periodic_task. */
    method UpdateBand()
      modifies this
      ensures State() == old(State()).(band := NextBand(old(temperatureBand), externalTemperatureValue, config))
    {
      match temperatureBand {
        case Cold =>
          if externalTemperatureValue > config.notColdThreshold {
            temperatureBand := Mild;
          }
        case Hot =>
          if externalTemperatureValue < config.notHotThreshold {
            temperatureBand := Mild;
          }
        case Mild =>
          if externalTemperatureValue > config.hotThreshold {
            temperatureBand := Hot;
          }
          if externalTemperatureValue < config.coldThreshold {
            temperatureBand := Cold;
          }
      }
    }

    /** The manual-timeout step of periodic_task. */
    method LeaveManualMode(now: int)
      modifies this
      ensures State() == old(State()).(manual := ExpireManual(old(manualMode), manualModeEndTime, now))
    {
      if IsManual(manualMode) && now >= manualModeEndTime {
        manualMode := Auto;
      }
    }

    /** The control-mode table step of periodic_task. */
    method DecideControlMode()
      modifies this
      ensures State() == old(State()).(next := Desired(manualMode, temperatureBand))
    {
      match manualMode {
        case Auto => nextControlMode := if temperatureBand == Mild then On else Off;
        case AutoDark => nextControlMode := if temperatureBand == Mild then Boost else Off;
        case ManualOff => nextControlMode := Off;
        case ManualOn => nextControlMode := On;
        case ManualBoost => nextControlMode := Boost;
      }
    }

    /** The debounced change of the control mode: the relays are written
        and the dwell timer re-armed only when the desired mode differs
        and the dwell time is over. */
    method ChangeControlMode(now: int) returns (relays: Option<Relays>, changed: bool)
      modifies this
      ensures changed <==> old(nextControlMode) != old(currentControlMode) && now >= old(controlModeUpdateTime)
      ensures changed ==> relays == Some(RelaysFor(nextControlMode)) &&
                          State() == old(State()).(current := nextControlMode,
                                                   controlModeUpdateTime := now + SecondsToMs(config.changeDelayS))
      ensures !changed ==> relays == None && State() == old(State())
    {
      changed := false;
      relays := None;
      if nextControlMode != currentControlMode && now >= controlModeUpdateTime {
        currentControlMode := nextControlMode;
        match currentControlMode {
          case On => relays := Some(Relays(false, true));
          case Boost => relays := Some(Relays(true, true));
          case Off => relays := Some(Relays(false, false));
        }
        controlModeUpdateTime := now + SecondsToMs(config.changeDelayS);
        changed := true;
      }
    }

    /** The LED state of periodic_task, built up one group at a time. */
    method LedState() returns (leds: bv8)
      ensures leds == LedMask(currentControlMode, temperatureBand, manualMode, heartbeatCounter)
    {
      leds := POWER_LED_BIT;
      leds := leds | (if heartbeatCounter == 0 then HEARTBEAT_LED_BIT else 0);
      match currentControlMode {
        case On => leds := leds | MAINS_RELAY_LED_BIT;
        case Boost =>
          leds := leds | BOOST_RELAY_LED_BIT;
          leds := leds | MAINS_RELAY_LED_BIT;
        case Off =>
      }
      if !IsManual(manualMode) {
        match temperatureBand {
          case Cold => leds := leds | COLD_LED_BIT;
          case Hot => leds := leds | HOT_LED_BIT;
          case Mild =>
        }
      } else {
        if heartbeatCounter == 1 {
          leds := leds | HOT_LED_BIT;
        } else if heartbeatCounter == 2 {
          leds := leds | COLD_LED_BIT;
        }
      }
    }

    /** The heartbeat step of periodic_task. */
    method UpdateHeartbeat(wifiConnected: bool)
      modifies this
      ensures State() == old(State()).(heartbeatCounter := NextHeartbeat(old(heartbeatCounter), wifiConnected))
    {
      if heartbeatCounter > 0 && !wifiConnected {
        heartbeatCounter := 0;
      } else if heartbeatCounter >= 9 {
        heartbeatCounter := 0;
      } else {
        heartbeatCounter := heartbeatCounter + 1;
      }
    }

    /** manual_setting: a recognised command selects its manual mode,
        starts the manual timeout and sends a report; anything else
        changes nothing. */
    method ManualSetting(command: string, internalCelsius: int -> real, now: nat)
      returns (ok: bool, report: Option<Report>)
      requires Valid()
      modifies this
      ensures Valid()
      ensures ok == MatchCommand(command).Some?
      ensures State() == Commands.ManualSetting(config, old(State()), command, now).state
      ensures report == (if ok then ReportSent(config, State(), internalCelsius(temperatureHandle.internal.total), now)
                         else None)
    {
      ok := false;
      if StrnEqual(command, "piv auto", |command|) {
        manualMode := Auto;
        ok := true;
      } else if StrnEqual(command, "piv dark", |command|) {
        manualMode := AutoDark;
        ok := true;
      } else if StrnEqual(command, "piv on", |command|) {
        manualMode := ManualOn;
        ok := true;
      } else if StrnEqual(command, "piv boost", |command|) {
        manualMode := ManualBoost;
        ok := true;
      } else if StrnEqual(command, "piv off", |command|) {
        manualMode := ManualOff;
        ok := true;
      }
      report := None;
      if ok {
        manualModeEndTime := now + SecondsToMs(config.manualTimeoutS);
        report := ReportSent(config, State(), internalCelsius(temperatureHandle.internal.total), now);
      }
    }
  }
}
