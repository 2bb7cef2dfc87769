/** A run from a fresh candidate that ends with maintenance and the admission daemon running together:
    commissioning up to a locked production start, production stops, maintenance starts, and systemd
    restarts the admission daemon, whose production gate does not look at maintenance and whose unit
    conflicts with nothing. Every call works. */
module OverlapRun {
  import opened Wrappers
  import opened CandidateState
  import opened Commissioning
  import opened CandidateRuns

  const CONFIG := Config(0, true, false)
  const STAGED := Staged(true, true)
  const REQUEST := Request(true, true, true, true)
  const EVERY := Call(HOST_UNITS + PRODUCTION_UNITS + STORAGE_UNITS + {KlipperMaintenance}, true)
  const STOPS := StopCall({}, {}, true)
  const WORKS := Answers(true, true, EVERY, true, STOPS, true)
  const MOUNTS := StorageAnswers(true, true, true, EVERY, EVERY, true, EVERY, EVERY, STOPS, EVERY, STOPS, STOPS)
  const HOST_EVIDENCE := Evidence(true, 0, CONFIG, REQUIRED_HOST_EVIDENCE, 0)
  const MAINTENANCE_EVIDENCE := Evidence(true, 0, CONFIG, REQUIRED_MAINTENANCE_EVIDENCE, 0)

  // ------------------------------------------------ transitions that work

  predicate OneOf(units: seq<Unit>, of: set<Unit>) { forall u :: u in units ==> u in of }

  function Elements(units: seq<Unit>): set<Unit> { set u | u in units }

  lemma HostUnitStarts(h: Host, more: set<Unit>, u: Unit)
    requires HostGateOpen(h) && more <= HOST_UNITS && u in HOST_UNITS
    ensures StartUnit(h.(active := h.active + more), u, true) == h.(active := h.active + (more + {u}))
  {
    var h' := h.(active := h.active + more);
    assert HostGateOpen(h');
    assert h'.active - Conflicts(u) + {u} == h.active + (more + {u});
  }

  lemma {:induction false} HostUnitsStart(h: Host, units: seq<Unit>)
    requires HostGateOpen(h) && OneOf(units, HOST_UNITS)
    ensures StartAll(h, units, EVERY.effect) == h.(active := h.active + Elements(units))
  {
    if units == [] {
      assert h.active + Elements(units) == h.active;
    } else {
      var before, u := units[..|units| - 1], units[|units| - 1];
      HostUnitsStart(h, before);
      HostUnitStarts(h, Elements(before), u);
      assert u in EVERY.effect && Elements(units) == Elements(before) + {u};
    }
  }

  lemma ProductionUnitStarts(h: Host, more: set<Unit>, u: Unit)
    requires ProductionGateOpen(h) && KlipperMaintenance !in h.active
    requires more <= PRODUCTION_UNITS && u in PRODUCTION_UNITS
    ensures StartUnit(h.(active := h.active + more), u, true) == h.(active := h.active + (more + {u}))
  {
    var h' := h.(active := h.active + more);
    assert ProductionGateOpen(h');
    assert h'.active - Conflicts(u) + {u} == h.active + (more + {u});
  }

  lemma {:induction false} ProductionUnitsStart(h: Host, units: seq<Unit>)
    requires ProductionGateOpen(h) && KlipperMaintenance !in h.active && OneOf(units, PRODUCTION_UNITS)
    ensures StartAll(h, units, EVERY.effect) == h.(active := h.active + Elements(units))
  {
    if units == [] {
      assert h.active + Elements(units) == h.active;
    } else {
      var before, u := units[..|units| - 1], units[|units| - 1];
      ProductionUnitsStart(h, before);
      ProductionUnitStarts(h, Elements(before), u);
      assert u in EVERY.effect && Elements(units) == Elements(before) + {u};
    }
  }

  lemma HostTestWorks(h: Host)
    requires MayStartHostTest(h)
    ensures HostTestStartStep(h, REQUEST, WORKS, Done,
              WithMarker(h, HostGate, FreshMarker(h, Testing)).(active := h.active + HOST_UNITS))
  {
    HostUnitsStart(WithMarker(h, HostGate, FreshMarker(h, Testing)), HOST_ORDER);
    assert Elements(HOST_ORDER) == HOST_UNITS;
  }

  lemma HostAcceptWorks(h: Host, ev: Evidence)
    requires MayAcceptHost(h, ev)
    ensures HostTestAcceptStep(h, ev, REQUEST, WORKS, Done,
              HostValidated(h).(enabled := h.enabled + HOST_UNITS))
  {
  }

  lemma MountWorks(h: Host, u: Unit)
    requires StorageGate in h.markers && u in STORAGE_UNITS
    ensures StartAll(Enabling(h, {u}, EVERY), [u], EVERY.effect) ==
            h.(active := h.active + {u}, enabled := h.enabled + {u})
  {
    var h1 := Enabling(h, {u}, EVERY);
    assert StartAll(h1, [], EVERY.effect) == h1;
  }

  lemma BridgeWorks(h: Host)
    requires HostGateOpen(h) && TouchscreenBridge in h.active
    ensures BridgeRefreshed(h, MOUNTS) == Mounting(h, true)
  {
    var down := Stopping(h, {TouchscreenBridge}, false, STOPS);
    HostUnitsStart(down, [TouchscreenBridge]);
    assert down.active + Elements([TouchscreenBridge]) == h.active;
  }

  lemma MountsWork(h: Host)
    requires StorageGate in h.markers && HostGateOpen(h) && TouchscreenBridge in h.active
    ensures StorageMounted(h, MOUNTS) ==
            Mounting(h.(active := h.active + STORAGE_UNITS, enabled := h.enabled + STORAGE_UNITS), true)
  {
    MountWorks(h, DataMount);
    var h1 := DataMounted(h, MOUNTS).h;
    MountWorks(h1, GcodeBindMount);
    var h2 := BindMounted(h1, MOUNTS).h;
    assert h2 == h.(active := h.active + STORAGE_UNITS, enabled := h.enabled + STORAGE_UNITS);
    BridgeWorks(h2);
  }

  /** Storage on a validated host, whose bridge is restarted. */
  lemma StorageWorks(h: Host, staged: bool)
    requires MayEnableStorage(h) && staged && HostGateOpen(h) && TouchscreenBridge in h.active
    ensures StorageEnableStep(h, staged, REQUEST, MOUNTS, Done,
              WithMarker(h, StorageGate, FreshMarker(h, Enabled)).(
                active := h.active + STORAGE_UNITS, enabled := h.enabled + STORAGE_UNITS))
  {
    MountsWork(WithMarker(h, StorageGate, FreshMarker(h, Enabled)));
  }

  lemma ArmWorks(h: Host)
    requires MayArm(h) && h.config.lockTrue
    ensures ProductionArmStep(h, REQUEST, WORKS, Done, LockArmed(h).(enabled := h.enabled + PRODUCTION_UNITS))
  {
  }

  lemma ProductionWorks(h: Host)
    requires MayStartProduction(h) && ReadsAs(h, HostGate, Validated) && TransportClosed(h)
    ensures ProductionStartStep(h, REQUEST, WORKS, Done,
              MarkedStarted(h).(active := h.active + PRODUCTION_UNITS))
  {
    ProductionUnitsStart(MarkedStarted(h), PRODUCTION_ORDER);
    assert Elements(PRODUCTION_ORDER) == PRODUCTION_UNITS;
  }

  lemma MaintenanceWorks(h: Host)
    requires MayStartMaintenance(h)
    ensures MaintenanceStartStep(h, REQUEST, WORKS, Done,
              Activated(WithoutMarker(h, MaintenanceGate), KlipperMaintenance))
  {
  }

  // ---------------------------------------------------------------- the run

  /** Some run of a fresh candidate with this configuration ends in h. */
  ghost predicate Reached(config: Config, h: Host) {
    exists steps: seq<Step>, replies: seq<Reply>, trace: seq<Host> ::
      IsRun(Host(0, config, map[], {}, {}, None, [], false), STAGED, steps, replies, trace) && trace[|steps|] == h
  }

  lemma ReachedFirst(config: Config)
    ensures Reached(config, Host(0, config, map[], {}, {}, None, [], false))
  {
    var h := Host(0, config, map[], {}, {}, None, [], false);
    assert IsRun(h, STAGED, [], [], [h]);
  }

  lemma ReachedNext(config: Config, h: Host, s: Step, reply: Reply, h': Host)
    requires Reached(config, h) && Follows(h, STAGED, s, reply, h')
    ensures Reached(config, h')
  {
    var fresh0 := Host(0, config, map[], {}, {}, None, [], false);
    var steps: seq<Step>, replies: seq<Reply>, trace: seq<Host> :|
      IsRun(fresh0, STAGED, steps, replies, trace) && trace[|steps|] == h;
    RunMore(STAGED, steps, replies, trace, s, reply, h');
    assert IsRun(fresh0, STAGED, steps + [s], replies + [reply], trace + [h']);
  }

  // What the candidate looks like on the way.
  const VALIDATED := Marker(Validated, 0, CONFIG, None, None, None)
  const MOUNTED := VALIDATED.(state := Enabled)
  const STARTED := Marker(Started, 0, CONFIG, Some(true), None, None)

  predicate IsAccepted(h: Host) {
    && h.candidate == 0 && h.config == CONFIG && h.markers == map[HostGate := VALIDATED]
    && h.active == HOST_UNITS
  }

  predicate IsMounted(h: Host, production: map<Gate, Marker>) {
    && h.candidate == 0 && h.config == CONFIG && h.active == HOST_UNITS + STORAGE_UNITS
    && h.markers == map[HostGate := VALIDATED, StorageGate := MOUNTED] + production
  }

  predicate IsStarted(h: Host, active: set<Unit>) {
    && h.candidate == 0 && h.config == CONFIG && h.active == HOST_UNITS + STORAGE_UNITS + active
    && h.markers == map[HostGate := VALIDATED, StorageGate := MOUNTED, ProductionGate := STARTED]
  }

  lemma HostIsAccepted() returns (h: Host)
    ensures Reached(CONFIG, h) && IsAccepted(h)
  {
    var h0 := Host(0, CONFIG, map[], {}, {}, None, [], false);
    ReachedFirst(CONFIG);
    HostTestWorks(h0);
    var h1 := WithMarker(h0, HostGate, FreshMarker(h0, Testing)).(active := h0.active + HOST_UNITS);
    ReachedNext(CONFIG, h0, HostTestStart(REQUEST, WORKS), Answered(Done), h1);
    HostAcceptWorks(h1, HOST_EVIDENCE);
    h := HostValidated(h1).(enabled := h1.enabled + HOST_UNITS);
    ReachedNext(CONFIG, h1, HostTestAccept(HOST_EVIDENCE, REQUEST, WORKS), Answered(Done), h);
  }

  lemma StorageIsMounted(h0: Host) returns (h: Host)
    requires Reached(CONFIG, h0) && IsAccepted(h0)
    ensures Reached(CONFIG, h) && IsMounted(h, map[])
  {
    StorageWorks(h0, true);
    h := WithMarker(h0, StorageGate, FreshMarker(h0, Enabled)).(
      active := h0.active + STORAGE_UNITS, enabled := h0.enabled + STORAGE_UNITS);
    ReachedNext(CONFIG, h0, StorageEnable(REQUEST, MOUNTS), Answered(Done), h);
  }

  lemma ProductionIsArmed(h0: Host) returns (h: Host)
    requires Reached(CONFIG, h0) && IsMounted(h0, map[])
    ensures Reached(CONFIG, h) && IsMounted(h, map[ProductionGate := STARTED.(state := Armed)])
  {
    ArmWorks(h0);
    h := LockArmed(h0).(enabled := h0.enabled + PRODUCTION_UNITS);
    ReachedNext(CONFIG, h0, ProductionArm(REQUEST, WORKS), Answered(Done), h);
  }

  lemma ProductionFollows(h: Host)
    requires IsMounted(h, map[ProductionGate := STARTED.(state := Armed)])
    ensures MayStartProduction(h) && ReadsAs(h, HostGate, Validated) && TransportClosed(h)
    ensures IsStarted(MarkedStarted(h).(active := h.active + PRODUCTION_UNITS), PRODUCTION_UNITS)
  {
  }

  lemma ProductionIsStarted(h0: Host) returns (h: Host)
    requires Reached(CONFIG, h0) && IsMounted(h0, map[ProductionGate := STARTED.(state := Armed)])
    ensures Reached(CONFIG, h) && IsStarted(h, PRODUCTION_UNITS)
  {
    ProductionFollows(h0);
    ProductionWorks(h0);
    h := MarkedStarted(h0).(active := h0.active + PRODUCTION_UNITS);
    ReachedNext(CONFIG, h0, ProductionStart(REQUEST, WORKS), Answered(Done), h);
  }

  lemma UnitStops(h0: Host, active: set<Unit>, u: Unit) returns (h: Host)
    requires Reached(CONFIG, h0) && IsStarted(h0, active) && u in PRODUCTION_UNITS
    ensures Reached(CONFIG, h) && IsStarted(h, active - {u})
  {
    h := h0.(active := h0.active - {u});
    ReachedNext(CONFIG, h0, UnitExits(u), Happened, h);
  }

  lemma MaintenanceIsReady(h0: Host) returns (h: Host)
    requires Reached(CONFIG, h0) && IsStarted(h0, {})
    ensures Reached(CONFIG, h) && h == MaintenanceReady(h0)
  {
    h := MaintenanceReady(h0);
    ReachedNext(CONFIG, h0, MaintenanceArm(MAINTENANCE_EVIDENCE, REQUEST, WORKS), Answered(Done), h);
  }

  lemma MaintenanceFollows(h0: Host, h1: Host)
    requires IsStarted(h0, {}) && h1 == MaintenanceReady(h0)
    ensures MayStartMaintenance(h1)
    ensures IsStarted(Activated(WithoutMarker(h1, MaintenanceGate), KlipperMaintenance), {KlipperMaintenance})
  {
    var h := Activated(WithoutMarker(h1, MaintenanceGate), KlipperMaintenance);
    assert h.markers == h0.markers && h.active == h0.active + {KlipperMaintenance};
  }

  lemma MaintenanceRuns(h0: Host, h1: Host) returns (h: Host)
    requires Reached(CONFIG, h1) && IsStarted(h0, {}) && h1 == MaintenanceReady(h0)
    ensures Reached(CONFIG, h) && IsStarted(h, {KlipperMaintenance})
  {
    MaintenanceFollows(h0, h1);
    MaintenanceWorks(h1);
    h := Activated(WithoutMarker(h1, MaintenanceGate), KlipperMaintenance);
    ReachedNext(CONFIG, h1, MaintenanceStart(REQUEST, WORKS), Answered(Done), h);
  }

  /** The overlap is reached. */
  lemma OverlapIsReached() returns (h: Host)
    ensures Reached(CONFIG, h) && Overlaps(h)
  {
    h := HostIsAccepted();
    h := StorageIsMounted(h);
    h := ProductionIsArmed(h);
    h := ProductionIsStarted(h);
    h := UnitStops(h, PRODUCTION_UNITS, Klipper);
    h := UnitStops(h, PRODUCTION_UNITS - {Klipper}, Moonraker);
    h := UnitStops(h, PRODUCTION_UNITS - {Klipper} - {Moonraker}, Admission);
    assert PRODUCTION_UNITS - {Klipper} - {Moonraker} - {Admission} == {};
    var ready := MaintenanceIsReady(h);
    h := MaintenanceRuns(h, ready);
    h := AdmissionRestarts(h);
  }

  lemma AdmissionRestarts(h0: Host) returns (h: Host)
    requires Reached(CONFIG, h0) && IsStarted(h0, {KlipperMaintenance})
    ensures Reached(CONFIG, h) && Overlaps(h)
  {
    h := StartUnit(h0, Admission, true);
    ReachedNext(CONFIG, h0, AutomaticStart(Admission, true), Happened, h);
  }
}
