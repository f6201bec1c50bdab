/**
 * The parts of the YAML configuration both monitors read: the `logging`
 * section, the `monitor` section with its timeout, retries and delay, and
 * the `endpoints` list. A key that is absent is `None`.
 */
module MonitorConfig {
  import opened Common

  datatype LoggingSection = LoggingSection(file: Option<string>, level: Option<string>)

  datatype MonitorSection = MonitorSection(timeout: Option<int>, retries: Option<int>, delay: Option<int>)

  datatype EndpointConfig = EndpointConfig(name: Option<string>, url: Option<string>, expectedStatus: Option<int>)

  /**
   * A loaded configuration map. `otherKeys` stands for the top-level keys
   * the monitor never reads; they matter only to whether the map is empty.
   */
  datatype Config = Config(
    logging: Option<LoggingSection>,
    monitor: Option<MonitorSection>,
    endpoints: Option<seq<EndpointConfig>>,
    otherKeys: set<string>)
  {
    /** `not config` for a dict: it has no keys at all. */
    predicate IsEmpty()
    {
      logging.None? && monitor.None? && endpoints.None? && otherKeys == {}
    }
  }

  const EmptyConfig := Config(None, None, None, {})

  /** The monitor settings once the `.get(..., default)` defaults are applied. */
  datatype Settings = Settings(timeout: int, retries: int, delay: int)

  const DefaultTimeout := 5
  const DefaultRetries := 3
  const DefaultDelay := 2

  /** `config.get('monitor', {})` followed by `.get('timeout', 5)`, `.get('retries', 3)`, `.get('delay', 2)`. */
  function SettingsOf(m: Option<MonitorSection>): (s: Settings)
    // a key that is present is used as given
    ensures m.Some? && m.value.timeout.Some? ==> s.timeout == m.value.timeout.value
    ensures m.Some? && m.value.retries.Some? ==> s.retries == m.value.retries.value
    ensures m.Some? && m.value.delay.Some? ==> s.delay == m.value.delay.value
    // a missing key, or a missing section, takes its default
    ensures (m.None? || m.value.timeout.None?) ==> s.timeout == DefaultTimeout
    ensures (m.None? || m.value.retries.None?) ==> s.retries == DefaultRetries
    ensures (m.None? || m.value.delay.None?) ==> s.delay == DefaultDelay
  {
    var section := GetOr(m, MonitorSection(None, None, None));
    Settings(GetOr(section.timeout, DefaultTimeout), GetOr(section.retries, DefaultRetries), GetOr(section.delay, DefaultDelay))
  }

  /** `config.get('endpoints', [])` */
  function EndpointsOf(c: Config): (eps: seq<EndpointConfig>)
    ensures c.endpoints.Some? ==> eps == c.endpoints.value
    ensures c.endpoints.None? ==> eps == []
  {
    GetOr(c.endpoints, [])
  }
}
