/** The probes of main/health.go and main/probeResponse.go: what `evaluate` makes of what the network
    answers, and what that means for the reports. */
module Probe {
  import opened Health
  import opened Settings
  import opened GraceSpec
  import opened Timeline
  import E = EnableLoop

  datatype Body = Unreadable | NotJson | Json(applicationHealthState: string)

  datatype HttpAnswer = CannotAsk | NoAnswer | Answered(code: int, body: Body)

  /** What the network would say to one probe: whether a TCP connection comes about, and the answer to
      an HTTP request. */
  datatype Network = Network(connects: bool, answer: HttpAnswer)

  function EvaluateTcp(connects: bool): ProbeState {
    if connects then Healthy else Unhealthy
  }

  function EvaluateHttp(a: HttpAnswer): ProbeState {
    match a
    case CannotAsk => Unknown
    case NoAnswer => Unknown
    case Answered(code, body) =>
      if code < 200 || code > 299 then Unknown
      else
        match body
        case Unreadable => Unknown
        case NotJson => Unknown
        case Json(state) => if state == "Healthy" then Healthy else if state == "Unhealthy" then Unhealthy else Unknown
  }

  /** The probe that the protocol selects, and what it makes of the network. */
  function Evaluate(protocol: string, net: Network): ProbeState {
    match protocol
    case "tcp" => EvaluateTcp(net.connects)
    case "http" => EvaluateHttp(net.answer)
    case "https" => EvaluateHttp(net.answer)
    case _ => Healthy
  }

  /** The network decides: a TCP probe says Healthy exactly if a connection comes about, else Unhealthy; an
      HTTP probe says Healthy or Unhealthy exactly if a successful response says so in its body, else
      Unknown; without a protocol the application is taken to be Healthy. */
  lemma {:induction false} NetworkDecides(net: Network)
    ensures Evaluate("tcp", net) == if net.connects then Healthy else Unhealthy
    ensures Evaluate("http", net) == Evaluate("https", net)
    ensures var a := net.answer;
            && (Evaluate("http", net) == Healthy <==> a.Answered? && 200 <= a.code <= 299 && a.body == Json("Healthy"))
            && (Evaluate("http", net) == Unhealthy <==>
                a.Answered? && 200 <= a.code <= 299 && a.body == Json("Unhealthy"))
    ensures Evaluate("", net) == Healthy
  {
    assert "Healthy"[0] != "Unhealthy"[0];
  }

  /** What a probe can return is exactly what it makes of some network. */
  lemma {:induction false} WhatProbesReturn(s: PublicSettings, x: ProbeState)
    ensures s.Kind().CanReturn(x) <==> exists net :: Evaluate(s.protocol, net) == x
  {
    var up, down := Network(true, NoAnswer), Network(false, NoAnswer);
    var good, bad := Network(true, Answered(200, Json("Healthy"))), Network(true, Answered(200, Json("Unhealthy")));
    NetworkDecides(up);
    NetworkDecides(down);
    NetworkDecides(good);
    NetworkDecides(bad);
    assert Evaluate(s.protocol, up) == Evaluate(s.protocol, up);
  }

  /** In the status file: Unknown is reported only for HTTP and HTTPS, and without a protocol Unhealthy
      only if the grace period has expired. */
  lemma {:induction false} ReportedStateFitsTheProbe(seqNum: nat, s: PublicSettings, its: seq<Iteration>,
                                                     nets: seq<Network>, i: nat)
    requires s.ParseAndValidate() == None && i < |its| == |nets|
    requires forall k :: 0 <= k < |its| ==> its[k].state == Evaluate(s.protocol, nets[k])
    ensures var reported := E.ReportedState(seqNum, E.SetupOf(s), its, i);
            && (reported == Unknown ==> s.protocol == "http" || s.protocol == "https")
            && (reported == Unhealthy && s.protocol == "" ==>
                  EndedByExpiry(s.LoopConfig(), HistoryOf(s.IntervalNs(), its)[..i + 1]))
  {
    var cfg, h := s.LoopConfig(), HistoryOf(s.IntervalNs(), its)[..i + 1];
    E.ReportedIsCommitted(seqNum, E.SetupOf(s), its, i);
    forall k | 0 <= k < |h| ensures h[k].state == Evaluate(s.protocol, nets[k]) && s.Kind().CanReturn(h[k].state) {
      HistoryAt(s.IntervalNs(), its, k);
      WhatProbesReturn(s, h[k].state);
    }
    UnknownNeedsHttp(s.Kind(), cfg, h);
    if !InGrace(cfg, h) { CommittedWasObserved(cfg, h); }
  }
}
