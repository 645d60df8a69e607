/**
 * One upstream target of the load balancer (loadbalancer/backend.go).
 *
 * The backend's URL is fixed when it is built; only its liveness flag changes.
 * The health probe's HTTP request is not made here: its outcome, an error or a
 * status code, is given to `UpdateStatus` as an input.
 */
module Backends {

  const StatusOK: int := 200
  const StatusMultipleChoices: int := 300

  /** What a `GET <url>/healthcheck` came back with. */
  datatype ProbeOutcome = ProbeError | Status(code: int)

  /**
   * The probe counts as UP when it returned a response whose status lies in
   * [StatusOK, StatusMultipleChoices]; both ends are included.
   */
  predicate IsUp(probe: ProbeOutcome)
  {
    probe.Status? && StatusOK <= probe.code <= StatusMultipleChoices
  }

  class Backend {
    /** The string form of the backend's URL. */
    const url: string
    var alive: bool

    /** NewBackend: a backend starts alive. */
    constructor (url: string)
      ensures this.url == url && alive
    {
      this.url := url;
      alive := true;
    }

    method SetAlive(alive: bool)
      modifies this
      ensures this.alive == alive
    {
      this.alive := alive;
    }

    method IsAlive() returns (r: bool)
      ensures r == alive
    {
      r := alive;
    }

    /**
     * One health probe: the new flag is decided by the probe outcome alone,
     * whatever the flag was before.
     */
    method UpdateStatus(probe: ProbeOutcome)
      modifies this
      ensures alive == IsUp(probe)
      ensures probe.ProbeError? ==> !alive
      ensures probe.Status? ==> (alive <==> StatusOK <= probe.code <= StatusMultipleChoices)
    {
      if probe.ProbeError? || !(StatusOK <= probe.code && probe.code <= StatusMultipleChoices) {
        SetAlive(false);
        return;
      }
      SetAlive(true);
    }
  }

  /**
   * The boundary cases of IsUp, written out: both 200 and 300 are UP, 199 and
   * 301 are not. It documents the inclusive upper bound; UpdateStatus's
   * contract already covers every outcome.
   */
  lemma ProbeBoundaries()
    ensures IsUp(Status(200)) && IsUp(Status(300))
    ensures !IsUp(Status(199)) && !IsUp(Status(301)) && !IsUp(ProbeError)
  {
  }
}
