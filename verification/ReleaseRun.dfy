/** A run from a fresh candidate to an accepted release: the calibrated, unlocked bundle is applied, the
    host tested and accepted, storage enabled, the release armed, production started and the release
    accepted. Every call works. */
module ReleaseRun {
  import opened Wrappers
  import opened CandidateState
  import opened Commissioning
  import opened ConfigDeploy
  import opened CandidateRuns
  import opened OverlapRun

  const DELIVERED := Config(0, true, false)
  const RELEASE := Config(1, false, true)
  const BUNDLE := Bundle(true, 7, 0, DELIVERED, RELEASE, true, false, false)
  const NO_FAILURE := Schedule(true, true, true, Complete, true, true, Complete, true, true,
                               true, true, true, true, Removed, true, true, true, true)

  function On(config: Config, checks: set<string>): Evidence { Evidence(true, 0, config, checks, 0) }

  const READY_MARKERS: map<Gate, Marker> := map[
    HostGate := Marker(Validated, 0, RELEASE, None, None, None),
    StorageGate := Marker(Enabled, 0, RELEASE, None, None, None)]
  const UNLOCKED_MARKER := Marker(Started, 0, RELEASE, Some(false), Some(7), None)

  /** On the way: this configuration and its journal, with these markers and units. */
  predicate IsAt(h: Host, markers: map<Gate, Marker>, active: set<Unit>) {
    && h.candidate == 0 && h.config == RELEASE && h.markers == markers && h.active == active
    && h.journal == Some(Journal(true, 0, RELEASE, true, false, 7))
  }

  lemma BundleIsApplied() returns (h: Host)
    ensures Reached(DELIVERED, h) && IsAt(h, map[], {})
  {
    var h0 := Host(0, DELIVERED, map[], {}, {}, None, [], false);
    ReachedFirst(DELIVERED);
    h := After(h0, BUNDLE, NO_FAILURE);
    var ev := On(DELIVERED, ConfigDeploy.REQUIRED_IDLE_CHECKS);
    assert DeployStep(h0, BUNDLE, ev, REQUEST, NO_FAILURE, true, Applied, h);
    ReachedNext(DELIVERED, h0, ApplyBundle(BUNDLE, ev, REQUEST, NO_FAILURE, 1, 1), Deployed(Applied), h);
  }

  lemma HostIsTested(h0: Host) returns (h: Host)
    requires Reached(DELIVERED, h0) && IsAt(h0, map[], {})
    ensures Reached(DELIVERED, h) && IsAt(h, map[HostGate := READY_MARKERS[HostGate].(state := Testing)], HOST_UNITS)
  {
    HostTestWorks(h0);
    h := WithMarker(h0, HostGate, FreshMarker(h0, Testing)).(active := h0.active + HOST_UNITS);
    ReachedNext(DELIVERED, h0, HostTestStart(REQUEST, WORKS), Answered(Done), h);
  }

  lemma HostIsAccepted(h0: Host) returns (h: Host)
    requires Reached(DELIVERED, h0)
    requires IsAt(h0, map[HostGate := READY_MARKERS[HostGate].(state := Testing)], HOST_UNITS)
    ensures Reached(DELIVERED, h) && IsAt(h, map[HostGate := READY_MARKERS[HostGate]], HOST_UNITS)
  {
    var ev := On(RELEASE, REQUIRED_HOST_EVIDENCE);
    HostAcceptWorks(h0, ev);
    h := HostValidated(h0).(enabled := h0.enabled + HOST_UNITS);
    ReachedNext(DELIVERED, h0, HostTestAccept(ev, REQUEST, WORKS), Answered(Done), h);
  }

  lemma StorageIsMounted(h0: Host) returns (h: Host)
    requires Reached(DELIVERED, h0) && IsAt(h0, map[HostGate := READY_MARKERS[HostGate]], HOST_UNITS)
    ensures Reached(DELIVERED, h) && IsAt(h, READY_MARKERS, HOST_UNITS + STORAGE_UNITS)
  {
    StorageWorks(h0, true);
    h := WithMarker(h0, StorageGate, FreshMarker(h0, Enabled)).(
      active := h0.active + STORAGE_UNITS, enabled := h0.enabled + STORAGE_UNITS);
    ReachedNext(DELIVERED, h0, StorageEnable(REQUEST, MOUNTS), Answered(Done), h);
  }

  lemma ReleaseArmWorks(h: Host, ev: Evidence)
    requires MayArmRelease(h, ev)
    ensures ReleaseArmStep(h, ev, REQUEST, WORKS, Done,
              ReleaseCandidateArmed(h).(enabled := h.enabled + PRODUCTION_UNITS))
  {
  }

  lemma ReleaseIsArmed(h0: Host) returns (h: Host)
    requires Reached(DELIVERED, h0) && IsAt(h0, READY_MARKERS, HOST_UNITS + STORAGE_UNITS)
    ensures Reached(DELIVERED, h)
    ensures IsAt(h, READY_MARKERS[ProductionGate := UNLOCKED_MARKER.(state := Armed)], HOST_UNITS + STORAGE_UNITS)
  {
    var ev := On(RELEASE, REQUIRED_RELEASE_EVIDENCE);
    ReleaseArmWorks(h0, ev);
    h := ReleaseCandidateArmed(h0).(enabled := h0.enabled + PRODUCTION_UNITS);
    ReachedNext(DELIVERED, h0, ReleaseArm(ev, REQUEST, WORKS), Answered(Done), h);
  }

  lemma ProductionFollows(h: Host)
    requires IsAt(h, READY_MARKERS[ProductionGate := UNLOCKED_MARKER.(state := Armed)], HOST_UNITS + STORAGE_UNITS)
    ensures MayStartProduction(h) && ReadsAs(h, HostGate, Validated) && TransportClosed(h)
    ensures IsAt(MarkedStarted(h).(active := h.active + PRODUCTION_UNITS),
                 READY_MARKERS[ProductionGate := UNLOCKED_MARKER], HOST_UNITS + STORAGE_UNITS + PRODUCTION_UNITS)
  {
    assert MarkedStarted(h).markers == READY_MARKERS[ProductionGate := UNLOCKED_MARKER];
  }

  lemma ProductionRuns(h0: Host) returns (h: Host)
    requires Reached(DELIVERED, h0)
    requires IsAt(h0, READY_MARKERS[ProductionGate := UNLOCKED_MARKER.(state := Armed)], HOST_UNITS + STORAGE_UNITS)
    ensures Reached(DELIVERED, h)
    ensures IsAt(h, READY_MARKERS[ProductionGate := UNLOCKED_MARKER], HOST_UNITS + STORAGE_UNITS + PRODUCTION_UNITS)
  {
    ProductionFollows(h0);
    ProductionWorks(h0);
    h := MarkedStarted(h0).(active := h0.active + PRODUCTION_UNITS);
    ReachedNext(DELIVERED, h0, ProductionStart(REQUEST, WORKS), Answered(Done), h);
  }

  lemma ReleaseAcceptWorks(h: Host)
    requires IsAt(h, READY_MARKERS[ProductionGate := UNLOCKED_MARKER], HOST_UNITS + STORAGE_UNITS + PRODUCTION_UNITS)
    ensures ReleaseAcceptStep(h, On(RELEASE, REQUIRED_FINAL_RELEASE_EVIDENCE), REQUEST, WORKS, Done, Released(h))
  {
  }

  lemma ReleaseIsAccepted(h0: Host) returns (h: Host)
    requires Reached(DELIVERED, h0)
    requires IsAt(h0, READY_MARKERS[ProductionGate := UNLOCKED_MARKER], HOST_UNITS + STORAGE_UNITS + PRODUCTION_UNITS)
    ensures Reached(DELIVERED, h) && ReleaseGate in h.markers
  {
    var ev := On(RELEASE, REQUIRED_FINAL_RELEASE_EVIDENCE);
    h := Released(h0);
    ReleaseAcceptWorks(h0);
    ReachedNext(DELIVERED, h0, ReleaseAccept(ev, REQUEST, WORKS), Answered(Done), h);
  }

  /** A release can be reached. */
  lemma ReleaseIsReached() returns (h: Host)
    ensures Reached(DELIVERED, h) && ReleaseGate in h.markers
  {
    h := BundleIsApplied();
    h := HostIsTested(h);
    h := HostIsAccepted(h);
    h := StorageIsMounted(h);
    h := ReleaseIsArmed(h);
    h := ProductionRuns(h);
    h := ReleaseIsAccepted(h);
  }
}
