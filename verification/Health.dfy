/** The health states of main/health.go, the way they are reported, and what each kind of probe can say. */
module Health {

  /** A health state; `Empty` stands for the empty string the loop starts from. */
  datatype HealthStatus = Empty | Initializing | Healthy | Unhealthy | Unknown {

    /** The status type of the ApplicationHealthState substatus. */
    function StateStatusType(): StatusType {
      match this
      case Initializing => StatusTransitioning
      case Unknown => StatusError
      case _ => StatusSuccess
    }

    /** The status type of the AppHealthStatus substatus, the one the health store reads. */
    function AppHealthStatusType(): StatusType {
      match this
      case Unhealthy | Unknown => StatusError
      case _ => StatusSuccess
    }
  }

  datatype StatusType = StatusTransitioning | StatusWarning | StatusError | StatusSuccess

  /** What a probe can return: never the empty string and never Initializing. */
  type ProbeState = s: HealthStatus | s != Empty && s != Initializing witness Healthy

  type Positive = n: int | n >= 1 witness 1

  datatype ProbeKind = TcpProbe | HttpProbe | DefaultProbe {

    /** The state the application is in when the grace period runs out. */
    function AfterGrace(): ProbeState {
      match this
      case TcpProbe => Unhealthy
      case HttpProbe => Unknown
      case DefaultProbe => Unhealthy
    }

    /** The states `evaluate` can return for this kind of probe. */
    predicate CanReturn(s: ProbeState) {
      match this
      case TcpProbe => s == Healthy || s == Unhealthy
      case HttpProbe => true
      case DefaultProbe => s == Healthy
    }
  }

  /** The parameters of the probe loop, times in nanoseconds, as Go counts durations. */
  datatype Config = Config(numberOfProbes: Positive, gracePeriod: int, afterGrace: ProbeState)

  /** One pass of the loop: what the probe said, and the time since the grace period started
      when the grace period was looked at. */
  datatype Observation = Observation(state: ProbeState, elapsed: int)
}
