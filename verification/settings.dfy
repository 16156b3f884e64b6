/** Start-up configuration and initial state (config_get_int,
    config_get_float, config_init and state_init in fw/main.c).

    The settings store and the text parsing are outside the model: each
    key arrives as `None` when it is missing or its text is not entirely a
    number, and as `Some(value)` otherwise. */
module Settings {
  import opened Control

  const INT_MAX: int := 0x7FFF_FFFF
  const UINT16_MAX: int := 0xFFFF

  /** config_get_int: a stored value inside [minValue, maxValue] is used,
      anything else falls back to the default. */
  function ConfigGetInt(stored: Option<int>, minValue: int, defaultValue: int, maxValue: int): (r: int)
    ensures stored.Some? && minValue <= stored.value <= maxValue ==> r == stored.value
    ensures !(stored.Some? && minValue <= stored.value <= maxValue) ==> r == defaultValue
    ensures minValue <= defaultValue <= maxValue ==> minValue <= r <= maxValue
  {
    match stored
    case Some(value) => if minValue <= value <= maxValue then value else defaultValue
    case None => defaultValue
  }

  /** C's conversion of a float to an integer, which discards the
      fractional part (rounding toward zero). */
  function TruncateTowardZero(x: real): (r: int)
    ensures x >= 0.0 ==> 0.0 <= r as real <= x < r as real + 1.0
    ensures x < 0.0 ==> r as real - 1.0 < x <= r as real <= 0.0
  {
    if x >= 0.0 then x.Floor else -((-x).Floor)
  }

  /** config_get_float as written: its result type is `int`, so the value
      read (or the default) is truncated before it is stored back into the
      float threshold. */
  function ConfigGetFloatAsWritten(stored: Option<real>, defaultValue: real): (r: real)
    ensures r == (TruncateTowardZero(if stored.Some? then stored.value else defaultValue)) as real
  {
    match stored
    case Some(value) => TruncateTowardZero(value) as real
    case None => TruncateTowardZero(defaultValue) as real
  }

  /** config_get_float as intended: the stored threshold is used as it is. */
  function ConfigGetFloat(stored: Option<real>, defaultValue: real): (r: real)
    ensures stored.Some? ==> r == stored.value
    ensures stored.None? ==> r == defaultValue
  {
    match stored
    case Some(value) => value
    case None => defaultValue
  }

  /** A threshold of 2.5 degrees is read back as 2.0, and thresholds
      0.5 < 0.9 collapse to the same value 0.0, so a stored configuration
      whose thresholds are ordered loses its hysteresis. */
  lemma ThresholdsTruncated()
    ensures ConfigGetFloatAsWritten(Some(2.5), 2.0) == 2.0
    ensures ConfigGetFloat(Some(2.5), 2.0) == 2.5
    ensures ConfigGetFloatAsWritten(Some(-0.5), 0.0) == 0.0
    ensures ConfigGetFloatAsWritten(Some(0.5), 0.0) == ConfigGetFloatAsWritten(Some(0.9), 2.0)
  {
    assert TruncateTowardZero(2.5) == 2;
    assert TruncateTowardZero(-0.5) == 0;
    assert TruncateTowardZero(0.5) == 0;
    assert TruncateTowardZero(0.9) == 0;
  }

  /** The milliseconds handed to the timer functions as written:
      `seconds * 1000` is an `int` product, wrapping modulo 2^32 in two's
      complement, and the timer functions take it as a `uint32_t`. */
  function TimeoutMsAsWritten(seconds: int): (r: int)
    requires 0 <= seconds <= INT_MAX
    ensures 0 <= r < 0x1_0000_0000
    ensures seconds * 1000 < 0x1_0000_0000 ==> r == SecondsToMs(seconds)
  {
    var product := seconds * 1000;
    var asInt32 := (product + 0x8000_0000) % 0x1_0000_0000 - 0x8000_0000;
    asInt32 % 0x1_0000_0000
  }

  /** change_delay_s = 4294968 is accepted by config_init, yet its timeout
      is 704 ms, shorter than the 4294967000 ms of one second less. */
  lemma TimeoutWraps()
    ensures ConfigGetInt(Some(4294968), 1, 30, INT_MAX) == 4294968
    ensures TimeoutMsAsWritten(4294968) == 704
    ensures TimeoutMsAsWritten(4294967) == 4294967000
    ensures SecondsToMs(4294968) == 4294968000
  {
  }

  /** The intended conversion grows with the delay and never undercuts it. */
  lemma DelayMonotone(a: int, b: int)
    requires 0 <= a <= b
    ensures SecondsToMs(a) <= SecondsToMs(b)
    ensures SecondsToMs(b) >= b
  {
  }

  /** What the settings store holds for each key config_init reads, and
      whether report_address is present and parses as an IP address. */
  datatype StoredSettings = StoredSettings(
    coldThreshold: Option<real>,
    notColdThreshold: Option<real>,
    notHotThreshold: Option<real>,
    hotThreshold: Option<real>,
    changeDelayS: Option<int>,
    reportAddressValid: bool,
    reportPort: Option<int>,
    reportIntervalS: Option<int>,
    controlPort: Option<int>,
    manualTimeoutS: Option<int>)

  /** config_init.  The report port and interval are only read when the
      report address is valid; otherwise they stay 0. */
  function ConfigInit(st: StoredSettings): (cfg: Config)
    ensures cfg.coldThreshold == ConfigGetFloat(st.coldThreshold, 0.0)
    ensures cfg.notColdThreshold == ConfigGetFloat(st.notColdThreshold, 2.0)
    ensures cfg.notHotThreshold == ConfigGetFloat(st.notHotThreshold, 28.0)
    ensures cfg.hotThreshold == ConfigGetFloat(st.hotThreshold, 30.0)
    ensures 1 <= cfg.changeDelayS <= INT_MAX && 1 <= cfg.manualTimeoutS <= INT_MAX
    ensures 0 <= cfg.controlPort <= UINT16_MAX && 0 <= cfg.reportPort <= UINT16_MAX
    ensures st.reportAddressValid ==> 1 <= cfg.reportIntervalS <= INT_MAX
    ensures !st.reportAddressValid ==> cfg.reportPort == 0 && cfg.reportIntervalS == 0
    ensures cfg.changeDelayS == ConfigGetInt(st.changeDelayS, 1, 30, INT_MAX)
    ensures cfg.manualTimeoutS == ConfigGetInt(st.manualTimeoutS, 1, 60 * 60 * 24, INT_MAX)
    ensures cfg.controlPort == ConfigGetInt(st.controlPort, 0, 0, UINT16_MAX)
    ensures st.reportAddressValid ==> cfg.reportPort == ConfigGetInt(st.reportPort, 0, 0, UINT16_MAX)
    ensures st.reportAddressValid ==> cfg.reportIntervalS == ConfigGetInt(st.reportIntervalS, 1, 30, INT_MAX)
  {
    Config(
      ConfigGetFloat(st.coldThreshold, 0.0),
      ConfigGetFloat(st.notColdThreshold, 2.0),
      ConfigGetFloat(st.notHotThreshold, 28.0),
      ConfigGetFloat(st.hotThreshold, 30.0),
      ConfigGetInt(st.changeDelayS, 1, 30, INT_MAX),
      if st.reportAddressValid then ConfigGetInt(st.reportPort, 0, 0, UINT16_MAX) else 0,
      if st.reportAddressValid then ConfigGetInt(st.reportIntervalS, 1, 30, INT_MAX) else 0,
      ConfigGetInt(st.manualTimeoutS, 1, 60 * 60 * 24, INT_MAX),
      ConfigGetInt(st.controlPort, 0, 0, UINT16_MAX))
  }

  /** With an empty settings store the defaults apply: thresholds 0, 2, 28
      and 30 degrees (ordered), 30 s between changes, a one-day manual
      timeout and no reports. */
  lemma DefaultConfig()
    ensures var cfg := ConfigInit(StoredSettings(None, None, None, None, None, false, None, None, None, None));
            cfg == Config(0.0, 2.0, 28.0, 30.0, 30, 0, 0, 86400, 0) && ThresholdsOrdered(cfg)
  {
  }

  /** Stored thresholds reach the configuration unchanged, so stored
      thresholds that are ordered stay ordered. */
  lemma {:induction false} ConfigInitKeepsOrder(st: StoredSettings)
    requires st.coldThreshold.Some? && st.notColdThreshold.Some? && st.notHotThreshold.Some? && st.hotThreshold.Some?
    requires st.coldThreshold.value < st.notColdThreshold.value <= st.notHotThreshold.value < st.hotThreshold.value
    ensures ThresholdsOrdered(ConfigInit(st))
  {
  }

  /** state_init: band Mild, mode Auto, relays off, heartbeat 0, and the
      three deadlines one configured interval after start-up. */
  function InitialState(cfg: Config, externalTemperature: real, now: int): (s: ControlState)
    ensures ValidState(s)
    ensures s.heartbeatCounter == 0 && s.externalTemperature == externalTemperature
    ensures s.band == Mild && s.manual == Auto && s.current == Off && s.next == Off
    ensures s.controlModeUpdateTime == now + SecondsToMs(cfg.changeDelayS)
    ensures s.reportUpdateTime == now + SecondsToMs(cfg.reportIntervalS)
    ensures s.manualModeEndTime == now + SecondsToMs(cfg.manualTimeoutS)
  {
    ControlState(0, Mild, Auto, Off, Off,
                 now + SecondsToMs(cfg.changeDelayS),
                 now + SecondsToMs(cfg.reportIntervalS),
                 now + SecondsToMs(cfg.manualTimeoutS),
                 externalTemperature)
  }

  /** After start-up the relays stay off for change_delay_s, whatever the
      temperature. */
  lemma {:induction false} QuietAfterStart(cfg: Config, externalTemperature: real, now: int, inputs: seq<TickInput>)
    requires forall k :: 0 <= k < |inputs| ==> inputs[k].now < now + SecondsToMs(cfg.changeDelayS)
    ensures Run(cfg, InitialState(cfg, externalTemperature, now), inputs).current == Off
  {
    DwellHolds(cfg, InitialState(cfg, externalTemperature, now), inputs);
  }
}
