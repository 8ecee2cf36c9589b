/** The handler settings of main/handlersettings.go: defaults, schema ranges, logical validation. */
module Settings {
  import opened Health

  datatype Option<+T> = None | Some(value: T)

  datatype SettingsError =
    | SchemaViolation
    | TcpConfigurationMustIncludePort
    | TcpMustNotIncludeRequestPath
    | ProbeSettleTimeExceedsThreshold

  const DEFAULT_INTERVAL_IN_SECONDS := 5
  const DEFAULT_NUMBER_OF_PROBES := 1
  const MAXIMUM_PROBE_SETTLE_TIME := 240
  const NS_PER_SECOND := 1_000_000_000

  /** The public settings; a number that is absent from the document reads as 0. */
  datatype PublicSettings = PublicSettings(
    protocol: string, port: int, requestPath: string,
    intervalInSeconds: int, numberOfProbes: int, gracePeriod: int,
    vmWatch: Option<bool>)
  {
    function Interval(): int {
      if intervalInSeconds == 0 then DEFAULT_INTERVAL_IN_SECONDS else intervalInSeconds
    }

    function Probes(): int {
      if numberOfProbes == 0 then DEFAULT_NUMBER_OF_PROBES else numberOfProbes
    }

    function Grace(): int {
      if gracePeriod == 0 then Interval() * Probes() else gracePeriod
    }

    /** The numeric ranges of the JSON schema, each number being optional. */
    predicate InSchema() {
      && protocol in ["", "tcp", "http", "https"]
      && (port == 0 || 1 <= port <= 65535)
      && (intervalInSeconds == 0 || 5 <= intervalInSeconds <= 60)
      && (numberOfProbes == 0 || 1 <= numberOfProbes <= 24)
      && (gracePeriod == 0 || 5 <= gracePeriod <= 14400)
    }

    function Validate(): Option<SettingsError> {
      if protocol == "tcp" && port == 0 then Some(TcpConfigurationMustIncludePort)
      else if protocol == "tcp" && requestPath != "" then Some(TcpMustNotIncludeRequestPath)
      else if Interval() * Probes() > MAXIMUM_PROBE_SETTLE_TIME then Some(ProbeSettleTimeExceedsThreshold)
      else None
    }

    function ParseAndValidate(): Option<SettingsError> {
      if !InSchema() then Some(SchemaViolation) else Validate()
    }

    function Kind(): ProbeKind {
      if protocol == "tcp" then TcpProbe
      else if protocol == "http" || protocol == "https" then HttpProbe
      else DefaultProbe
    }

    function IntervalNs(): int {
      Interval() * NS_PER_SECOND
    }

    /** What the probe loop works with. */
    function LoopConfig(): Config
      requires ParseAndValidate() == None
    {
      Config(Probes(), Grace() * NS_PER_SECOND, Kind().AfterGrace())
    }
  }

  /** Which settings are accepted: the ranges of the schema, a port and no path for TCP, and at most four
      minutes for interval times probes, with 5 s and one probe where nothing is set. */
  lemma {:induction false} WhichAreAccepted(s: PublicSettings)
    ensures s.ParseAndValidate() == None <==>
            && (s.protocol == "" || s.protocol == "tcp" || s.protocol == "http" || s.protocol == "https")
            && (s.port == 0 || 1 <= s.port <= 65535)
            && (s.intervalInSeconds == 0 || 5 <= s.intervalInSeconds <= 60)
            && (s.numberOfProbes == 0 || 1 <= s.numberOfProbes <= 24)
            && (s.gracePeriod == 0 || 5 <= s.gracePeriod <= 14400)
            && (s.protocol == "tcp" ==> s.port != 0 && s.requestPath == "")
            && (if s.intervalInSeconds == 0 then 5 else s.intervalInSeconds) *
               (if s.numberOfProbes == 0 then 1 else s.numberOfProbes) <= 240
  {
  }

  /** What validation buys the probe loop: the grace period is always honoured at first, and the
      settle time is positive and at most four minutes. */
  lemma {:induction false} AcceptedSettings(s: PublicSettings)
    requires s.ParseAndValidate() == None
    ensures 5 <= s.Interval() <= 60 && 1 <= s.Probes() <= 24
    ensures 5 <= s.Interval() * s.Probes() <= 240
    ensures s.LoopConfig().gracePeriod > 0
    ensures s.protocol == "tcp" ==> s.port != 0 && s.requestPath == ""
  {
    SettleTimeIsPositive(s.Interval(), s.Probes());
  }

  lemma {:induction false} SettleTimeIsPositive(interval: int, probes: int)
    requires interval >= 5 && probes >= 1
    ensures interval * probes >= 5
  {
    assert interval * probes >= 5 * probes;
  }
}
