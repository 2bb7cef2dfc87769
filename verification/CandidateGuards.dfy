/** What the candidate and the files given must look like for each command, and for each start, said a
    second time: on the markers, units and fields themselves. */
module CandidateGuards {
  import opened Wrappers
  import opened CandidateState
  import opened Commissioning
  import opened ConfigDeploy
  import opened CandidateRuns

  /** The marker is there, names this candidate and its present configuration, and is in this state. */
  predicate Marked(h: Host, g: Gate, state: GateState) {
    && g in h.markers && h.markers[g].state == state
    && h.markers[g].candidate == h.candidate && h.markers[g].config == h.config
  }

  predicate PrinterOff(h: Host) {
    Admission !in h.active && Klipper !in h.active && Moonraker !in h.active && KlipperMaintenance !in h.active
  }

  predicate HostRuns(h: Host) {
    && Crowsnest in h.active && Mainsail in h.active
    && TouchscreenGateway in h.active && TouchscreenBridge in h.active
  }

  predicate ProductionRuns(h: Host) { Admission in h.active && Klipper in h.active && Moonraker in h.active }

  predicate ChannelClosed(h: Host) { Ssh !in h.active && TransportGate !in h.markers }

  predicate StorageUp(h: Host) {
    Marked(h, StorageGate, Enabled) && DataMount in h.active && GcodeBindMount in h.active
  }

  /** The evidence file is for this candidate and configuration, and confirms these checks. */
  predicate OnFile(h: Host, ev: Evidence, checks: set<string>) {
    && ev.wellFormed && ev.candidate == h.candidate && ev.config == h.config
    && forall check :: check in checks ==> check in ev.confirmed
  }

  /** It is at most ten minutes old, and at most one from the future. */
  predicate Recent(ev: Evidence) { -60 <= ev.age && ev.age <= 600 }

  predicate Calibrated(h: Host) {
    && h.journal.Some? && h.journal.value.complete && h.journal.value.candidate == h.candidate
    && h.journal.value.newConfig == h.config
    && h.journal.value.calibrationReady && !h.journal.value.commissioningLock
  }

  predicate ReadyToArm(h: Host) {
    && Marked(h, HostGate, Validated) && StorageUp(h) && PrinterOff(h) && ChannelClosed(h)
    && MaintenanceGate !in h.markers && ProductionGate !in h.markers
  }

  /** What a command finds before it may preview, or be attempted. */
  predicate Finds(h: Host, staged: Staged, s: Step)
    requires IsCommand(s)
  {
    match s
    case HostTestStart(_, a) =>
      && PrinterOff(h) && a.asks
      && HostGate !in h.markers && ProductionGate !in h.markers && MaintenanceGate !in h.markers
    case HostTestAccept(ev, _, a) =>
      && Marked(h, HostGate, Testing) && PrinterOff(h) && HostRuns(h) && a.asks
      && OnFile(h, ev, {
           "screen_visible", "touch_works", "backlight_works", "cooling_fan_observed", "ethernet_works",
           "wifi_works", "usb_camera_detected", "camera_stream_works", "data_usb_mount_verified"})
    case HostTestAbort(_, _) => Marked(h, HostGate, Testing)
    case StorageEnable(_, sa) =>
      && PrinterOff(h) && ChannelClosed(h) && StorageGate !in h.markers
      && DataMount !in h.active && GcodeBindMount !in h.active && staged.usb && sa.asks
    case ProductionArm(r, a) => ReadyToArm(h) && r.usb && h.config.lockTrue && a.asks
    case ReleaseArm(ev, r, a) =>
      && ReadyToArm(h) && r.usb && h.config.lockFalse && !h.config.lockTrue && Calibrated(h) && a.asks
      && Recent(ev) && OnFile(h, ev, {
           "owner_at_printer", "steel_sheet_installed", "printer_idle", "hotend_target_zero", "bed_target_zero",
           "hotend_below_50c", "bed_below_50c", "normal_services_stopped", "mcu_connected_without_motion_or_heat",
           "thermal_sensor_readings_plausible", "endstop_and_probe_states_reviewed", "calibration_values_reviewed"})
    case ProductionStart(r, a) =>
      && Marked(h, ProductionGate, Armed) && h.markers[ProductionGate].lock.Some?
      && KlipperMaintenance !in h.active && StorageUp(h) && r.usb && a.asks
    case ReleaseAccept(ev, r, a) =>
      && Marked(h, HostGate, Validated) && StorageUp(h) && r.usb && ChannelClosed(h)
      && Marked(h, ProductionGate, Started) && h.markers[ProductionGate].lock == Some(false)
      && MaintenanceGate !in h.markers && ReleaseGate !in h.markers && HostRuns(h) && ProductionRuns(h) && a.asks
      && OnFile(h, ev, {
           "owner_at_printer", "printer_idle", "hotend_target_zero", "bed_target_zero",
           "full_safety_validation_passed", "ui_peripheral_parity_passed", "first_layer_test_passed",
           "dimensional_print_passed", "orange_camera_bracket_passed", "normal_end_and_cancel_passed",
           "rendered_timelapse_verified", "network_camera_soak_passed", "recovery_image_filesystems_verified",
           "vendor_rollback_drill_passed"})
    case MaintenanceArm(ev, _, a) =>
      && PrinterOff(h) && ChannelClosed(h) && a.asks && Recent(ev)
      && OnFile(h, ev, {
           "owner_at_printer", "bed_clear", "printer_idle", "hotend_below_50c", "bed_below_50c",
           "normal_services_stopped"})
    case MaintenanceStart(_, a) =>
      PrinterOff(h) && ChannelClosed(h) && Marked(h, MaintenanceGate, ArmedOnce) && a.asks
    case ConsumeMaintenance(r, a) =>
      && Admission !in h.active && Klipper !in h.active && Moonraker !in h.active
      && Marked(h, MaintenanceGate, ArmedOnce) && a.asks
    case TransportEnable(_, a) => PrinterOff(h) && ChannelClosed(h) && staged.transport && a.asks
    case TransportDisable(_, _) => Marked(h, TransportGate, Enabled)
  }

  predicate Confirmed(r: Request) { r.apply && r.confirmed && r.live }

  /** --apply with its confirmation, on the live root, and what the first write needs. */
  predicate Applied(s: Step)
    requires IsCommand(s)
  {
    match s
    case HostTestStart(r, a) => Confirmed(r) && a.writes
    case HostTestAccept(_, r, a) => Confirmed(r) && a.writes
    case HostTestAbort(r, _) => Confirmed(r)
    case StorageEnable(r, sa) => Confirmed(r) && r.usb && sa.identified && sa.writes
    case ProductionArm(r, a) => Confirmed(r) && a.writes
    case ReleaseArm(_, r, a) => Confirmed(r) && a.writes
    case ProductionStart(r, a) => Confirmed(r) && a.writes
    case ReleaseAccept(_, r, a) => Confirmed(r) && a.writes
    case MaintenanceArm(_, r, a) => Confirmed(r) && a.writes
    case MaintenanceStart(r, _) => Confirmed(r)
    case ConsumeMaintenance(r, _) => r.live
    case TransportEnable(r, a) => Confirmed(r) && a.writes
    case TransportDisable(r, _) => Confirmed(r)
  }

  /** A command is attempted exactly if it finds what it needs and is applied; it previews exactly if it
      finds it and --apply is missing. (The marker consumer takes no --apply.) */
  lemma AttemptedExactly(h: Host, staged: Staged, s: Step, o: Outcome, h': Host)
    requires IsCommand(s) && Commanded(h, staged, s, o, h')
    ensures Tried(o) <==> Finds(h, staged, s) && Applied(s)
    ensures o.Previewed? <==> Finds(h, staged, s) && !s.ConsumeMaintenance? && !s.r.apply
  {
    SetsWrittenOut();
    if s.HostTestAccept? || s.ReleaseArm? || s.ReleaseAccept? || s.MaintenanceArm? {
      EvidenceExactly(h, s.ev);
    }
  }

  lemma SetsWrittenOut()
    ensures forall h :: Inactive(h, NORMAL_PRINTER_UNITS) <==> PrinterOff(h)
    ensures forall h: Host :: HOST_UNITS <= h.active <==> HostRuns(h)
    ensures forall h: Host :: HOST_UNITS + PRODUCTION_UNITS <= h.active <==> HostRuns(h) && ProductionRuns(h)
  {
  }

  lemma EvidenceExactly(h: Host, ev: Evidence)
    ensures forall checks :: EvidenceOk(h, ev, checks) <==> OnFile(h, ev, checks)
    ensures forall checks :: RecentEvidenceOk(h, ev, checks) <==> OnFile(h, ev, checks) && Recent(ev)
  {
  }

  // ------------------------------------------------------------------ gates

  /** What systemd must find before it starts a unit. */
  predicate Opens(h: Host, u: Unit) {
    match u
    case Ssh => PrinterOff(h) && Marked(h, TransportGate, Enabled)
    case KlipperMaintenance =>
      && Admission !in h.active && Klipper !in h.active && Moonraker !in h.active
      && Marked(h, MaintenanceGate, ArmedOnce)
    case DataMount => StorageGate in h.markers
    case GcodeBindMount => StorageGate in h.markers
    case Admission => OpensProduction(h)
    case Klipper => OpensProduction(h)
    case Moonraker => OpensProduction(h)
    case _ => Marked(h, HostGate, Validated) || (Marked(h, HostGate, Testing) && PrinterOff(h))
  }

  predicate OpensProduction(h: Host) {
    ChannelClosed(h) && Marked(h, ProductionGate, Started) && Marked(h, HostGate, Validated) && StorageUp(h)
  }

  lemma GateExactly(h: Host, u: Unit)
    ensures GateOpen(h, u) <==> Opens(h, u)
  {
    assert Inactive(h, NORMAL_PRINTER_UNITS) <==> PrinterOff(h);
    assert Inactive(h, PRODUCTION_UNITS) <==>
           Admission !in h.active && Klipper !in h.active && Moonraker !in h.active;
    assert STORAGE_UNITS <= h.active <==> DataMount in h.active && GcodeBindMount in h.active;
  }

  /** A start job runs its unit exactly if systemd can and the gate is open; then only maintenance may
      have to stop for it, and only for Klipper and Moonraker. */
  lemma StartExactly(h: Host, u: Unit, runs: bool)
    ensures u != KlipperMaintenance ==>
      StartUnit(h, u, runs).active ==
        if !runs || !Opens(h, u) then h.active
        else if u == Klipper || u == Moonraker then h.active - {KlipperMaintenance} + {u}
        else h.active + {u}
    ensures StartUnit(h, KlipperMaintenance, true).active ==
      if Opens(h, KlipperMaintenance) then h.active - {Klipper, Moonraker} + {KlipperMaintenance} else h.active
  {
    GateExactly(h, u);
    GateExactly(h, KlipperMaintenance);
    assert h.active - {} + {u} == h.active + {u};
  }

  // ------------------------------------------------------- what a command leaves

  function Plain(h: Host, state: GateState): Marker { Marker(state, h.candidate, h.config, None, None, None) }

  /** The candidate after a command that is done. */
  function Leaves(h: Host, s: Step): Host
    requires IsCommand(s)
  {
    match s
    case HostTestStart(_, _) =>
      h.(markers := h.markers[HostGate := Plain(h, Testing)],
         active := h.active + {Crowsnest, Mainsail, TouchscreenGateway, TouchscreenBridge})
    case HostTestAccept(_, _, _) =>
      h.(markers := h.markers[HostGate := MarkerAt(h, HostGate).(state := Validated)],
         enabled := h.enabled + {Crowsnest, Mainsail, TouchscreenGateway, TouchscreenBridge},
         log := h.log + [HostAccepted(h.config)])
    case HostTestAbort(_, a) =>
      h.(markers := h.markers - {HostGate},
         active := h.active - ({Crowsnest, Mainsail, TouchscreenGateway, TouchscreenBridge} - a.stop.running),
         enabled := h.enabled - ({Crowsnest, Mainsail, TouchscreenGateway, TouchscreenBridge} - a.stop.enabled))
    case StorageEnable(_, _) =>
      h.(markers := h.markers[StorageGate := Plain(h, Enabled)],
         active := h.active + {DataMount, GcodeBindMount}, enabled := h.enabled + {DataMount, GcodeBindMount})
    case ProductionArm(_, _) =>
      h.(markers := h.markers[ProductionGate := Plain(h, Armed).(lock := Some(true))],
         enabled := h.enabled + {Admission, Klipper, Moonraker}, log := h.log + [LockedArmed(h.config)])
    case ReleaseArm(_, _, _) =>
      var bundle := if h.journal.Some? then h.journal.value.bundle else 0;
      h.(markers := h.markers[ProductionGate := Plain(h, Armed).(lock := Some(false), bundle := Some(bundle))],
         enabled := h.enabled + {Admission, Klipper, Moonraker}, log := h.log + [ReleaseArmed(h.config, bundle)])
    case ProductionStart(_, _) =>
      h.(markers := h.markers[ProductionGate := MarkerAt(h, ProductionGate).(state := Started)],
         active := h.active + {Admission, Klipper, Moonraker}, log := h.log + [ProductionStarted(h.config)])
    case ReleaseAccept(_, _, _) =>
      var m := MarkerAt(h, ProductionGate);
      var digest := Digest(Started, h.candidate, h.config, Some(false), m.bundle);
      h.(markers := h.markers[ReleaseGate := Plain(h, Validated).(production := Some(digest))],
         log := h.log + [ReleaseAccepted(h.config)])
    case MaintenanceArm(_, _, _) =>
      h.(markers := h.markers[MaintenanceGate := Plain(h, ArmedOnce)], log := h.log + [MaintenanceArmed])
    case MaintenanceStart(_, _) =>
      h.(markers := h.markers - {MaintenanceGate}, active := h.active + {KlipperMaintenance},
         log := h.log + [MaintenanceStarted], overlapped := false)
    case ConsumeMaintenance(_, _) => h.(markers := h.markers - {MaintenanceGate})
    case TransportEnable(_, _) =>
      h.(markers := h.markers[TransportGate := Plain(h, Enabled)], active := h.active + {Ssh})
    case TransportDisable(_, _) => h.(markers := h.markers - {TransportGate}, active := h.active - {Ssh})
  }

  function MarkerAt(h: Host, g: Gate): Marker { if g in h.markers then h.markers[g] else Plain(h, Armed) }

  /** What a done command leaves behind, to the last field. */
  lemma DoneExactly(h: Host, staged: Staged, s: Step, o: Outcome, h': Host)
    requires IsCommand(s) && Commanded(h, staged, s, o, h') && o.Done?
    ensures h' == Leaves(h, s)
  {
    if s.HostTestStart? || s.StorageEnable? || s.ProductionStart? || s.TransportEnable? {
      StartedDone(h, staged, s, o, h');
    } else if s.MaintenanceStart? {
      assert h.active - Conflicts(KlipperMaintenance) + {KlipperMaintenance} == h.active + {KlipperMaintenance};
    } else if s.TransportDisable? {
      assert h.active - ({Ssh} - s.a.stop.running) == h.active - {Ssh};
    }
  }

  lemma StartedDone(h: Host, staged: Staged, s: Step, o: Outcome, h': Host)
    requires Commanded(h, staged, s, o, h') && o.Done?
    requires s.HostTestStart? || s.StorageEnable? || s.ProductionStart? || s.TransportEnable?
    ensures h' == Leaves(h, s)
  {
    match s {
      case HostTestStart(_, a) =>
        AllRun(WithMarker(h, HostGate, FreshMarker(h, Testing)), HOST_ORDER, HOST_UNITS, a.act.effect);
      case StorageEnable(_, sa) => StorageDone(WithMarker(h, StorageGate, FreshMarker(h, Enabled)), sa);
      case ProductionStart(_, a) => AllRun(MarkedStarted(h), PRODUCTION_ORDER, PRODUCTION_UNITS, a.act.effect);
      case TransportEnable(_, a) =>
        AllRun(WithMarker(h, TransportGate, FreshMarker(h, Enabled)), [Ssh], {Ssh}, a.act.effect);
    }
  }

  /** Start jobs after which all their units run, where maintenance does not. */
  lemma AllRun(h: Host, order: seq<Unit>, units: set<Unit>, runs: set<Unit>)
    requires KlipperMaintenance !in units && KlipperMaintenance !in h.active && forall u :: u in order ==> u in units
    requires units <= StartAll(h, order, runs).active
    ensures StartAll(h, order, runs) == h.(active := h.active + units)
  {
    StartAllFrame(h, order, runs);
    assert StartAll(h, order, runs).active == h.active + units;
  }

  lemma StorageDone(h: Host, sa: StorageAnswers)
    requires KlipperMaintenance !in h.active && StorageMounted(h, sa).ok
    ensures StorageMounted(h, sa).h ==
            h.(active := h.active + {DataMount, GcodeBindMount}, enabled := h.enabled + {DataMount, GcodeBindMount})
  {
    var h1 := DataMounted(h, sa).h;
    MountDone(h, DataMount, sa.enableData, sa.startData);
    var h2 := BindMounted(h1, sa).h;
    MountDone(h1, GcodeBindMount, sa.enableBind, sa.startBind);
    assert h2 == h.(active := h.active + {DataMount, GcodeBindMount},
                    enabled := h.enabled + {DataMount, GcodeBindMount});
    if TouchscreenBridge in h2.active {
      var down := Stopping(h2, {TouchscreenBridge}, false, sa.stopBridge);
      AllRun(down, [TouchscreenBridge], {TouchscreenBridge}, sa.startBridge.effect);
      assert down.active + {TouchscreenBridge} == h2.active;
    }
  }

  lemma MountDone(h: Host, u: Unit, enable: Call, start: Call)
    requires KlipperMaintenance !in h.active && u != KlipperMaintenance && enable.ok
    requires u in StartAll(Enabling(h, {u}, enable), [u], start.effect).active
    ensures StartAll(Enabling(h, {u}, enable), [u], start.effect) ==
            h.(active := h.active + {u}, enabled := h.enabled + {u})
  {
    AllRun(Enabling(h, {u}, enable), [u], {u}, start.effect);
  }

  // ------------------------------------------------------------- deployments

  /** What apply_bundle finds before it may preview, or be attempted. */
  predicate FindsBundle(h: Host, b: Bundle, ev: Evidence, s: Schedule) {
    && b.verified && b.baseCandidate == h.candidate && b.baseConfig == h.config
    && PrinterOff(h) && Ssh !in h.active
    && Crowsnest !in h.active && Mainsail !in h.active
    && TouchscreenGateway !in h.active && TouchscreenBridge !in h.active
    && MaintenanceGate !in h.markers && TransportGate !in h.markers && s.asks
    && Recent(ev) && OnFile(h, ev, {
         "owner_at_printer", "printer_idle", "hotend_target_zero", "bed_target_zero",
         "hotend_below_50c", "bed_below_50c", "normal_services_stopped"})
  }

  lemma DeployedExactly(h: Host, b: Bundle, ev: Evidence, r: Request, s: Schedule, clear: bool, o: Deployment, h': Host)
    requires DeployStep(h, b, ev, r, s, clear, o, h')
    ensures o.Previewed? <==> FindsBundle(h, b, ev, s) && !r.apply
    ensures Attempted(o) <==> FindsBundle(h, b, ev, s) && Confirmed(r) && clear && s.space && s.opens
  {
    EvidenceExactly(h, ev);
    SetsWrittenOut();
  }

  /** What an installed tree has for markers: four are gone; storage is bound to the new configuration
      and to the bundle, and otherwise as it was; maintenance, if it was there, is untouched. */
  lemma MarkersExactly(h: Host, b: Bundle, s: Schedule)
    requires Completes(s) || RollbackFails(s)
    ensures
      var markers := After(h, b, s).markers;
      && HostGate !in markers && ProductionGate !in markers && TransportGate !in markers && ReleaseGate !in markers
      && Get(markers, StorageGate) == (match Get(h.markers, StorageGate)
                                       case None => None
                                       case Some(m) => Some(Marker(m.state, m.candidate, b.newConfig, m.lock,
                                                                   Some(b.sha), m.production)))
      && Get(markers, MaintenanceGate) == Get(h.markers, MaintenanceGate)
  {
  }

  function Get(m: map<Gate, Marker>, g: Gate): Option<Marker> { if g in m then Some(m[g]) else None }

  /** So storage that was up stays up, for the new configuration. */
  lemma StorageSurvives(h: Host, b: Bundle, s: Schedule)
    ensures Marked(h, StorageGate, Enabled) ==> Marked(After(h, b, s), StorageGate, Enabled)
    ensures StorageUp(h) ==> StorageUp(After(h, b, s))
    ensures (Completes(s) || RollbackFails(s)) && StorageGate in h.markers ==>
      After(h, b, s).config == b.newConfig && After(h, b, s).markers[StorageGate].bundle == Some(b.sha)
  {
  }

  /** The journal of an attempt is about this candidate and this bundle. */
  lemma JournalExactly(h: Host, b: Bundle, s: Schedule)
    ensures
      var j := After(h, b, s).journal.value;
      && j.candidate == h.candidate && j.newConfig == b.newConfig && j.bundle == b.sha
      && j.calibrationReady == b.calibrationReady && j.commissioningLock == b.commissioningLock
  {
  }

  // ------------------------------------------------------------------ runs

  /** What a step's reply says about the state it was made in, and the state it left. */
  predicate Explained(h: Host, staged: Staged, s: Step, reply: Reply, h': Host) {
    if IsCommand(s) then
      reply.Answered? &&
      (if Finds(h, staged, s) && Applied(s) then Tried(reply.o) && (reply.o.Done? ==> h' == Leaves(h, s))
       else
         var previews := Finds(h, staged, s) && !s.ConsumeMaintenance? && !s.r.apply;
         h' == h && reply.o == if previews then Outcome.Previewed else Outcome.Refused)
    else if s.ApplyBundle? then
      reply.Deployed? &&
      (if Attempted(reply.d) then FindsBundle(h, s.b, s.ev, s.s) && Confirmed(s.r) && h' == After(h, s.b, s.s)
       else h' == h && (reply.d.Previewed? <==> FindsBundle(h, s.b, s.ev, s.s) && !s.r.apply))
    else reply.Happened?
  }

  lemma StepIsExplained(h: Host, staged: Staged, s: Step, reply: Reply, h': Host)
    requires Follows(h, staged, s, reply, h')
    ensures Explained(h, staged, s, reply, h')
  {
    if IsCommand(s) {
      CommandIsExplained(h, staged, s, reply.o, h');
    } else if s.ApplyBundle? {
      var clear :| DeployStep(h, s.b, s.ev, s.r, s.s, clear, reply.d, h');
      DeployedExactly(h, s.b, s.ev, s.r, s.s, clear, reply.d, h');
    }
  }

  lemma CommandIsExplained(h: Host, staged: Staged, s: Step, o: Outcome, h': Host)
    requires IsCommand(s) && Commanded(h, staged, s, o, h')
    ensures Explained(h, staged, s, Answered(o), h')
  {
    AttemptedExactly(h, staged, s, o, h');
    CommandFrame(h, staged, s, o, h');
    if o.Done? { DoneExactly(h, staged, s, o, h'); }
  }

  /** In every run, every attempt and every preview was made on what the step asks for: evidence files
      for this candidate and configuration with their checks confirmed, recent where that is asked,
      markers, units and locks as they must be. */
  lemma RunIsExplained(start: Host, staged: Staged, steps: seq<Step>, replies: seq<Reply>, trace: seq<Host>)
    requires IsRun(start, staged, steps, replies, trace)
    ensures forall i :: 0 <= i < |steps| ==> Explained(trace[i], staged, steps[i], replies[i], trace[i + 1])
  {
    forall i | 0 <= i < |steps| ensures Explained(trace[i], staged, steps[i], replies[i], trace[i + 1]) {
      StepIsExplained(trace[i], staged, steps[i], replies[i], trace[i + 1]);
    }
  }
}
