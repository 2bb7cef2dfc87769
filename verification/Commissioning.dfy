/** The commissioning controller (CandidateController in t300_mainline/commissioning.py).
    systemctl, the USB device and every file write may fail at any call, with the answers given as
    inputs; nothing else writes while a transition runs. */
module Commissioning {
  import opened Wrappers
  import opened CandidateState

  // The evidence lists of lines 41-90.
  const REQUIRED_HOST_EVIDENCE: set<string> := {
    "screen_visible", "touch_works", "backlight_works", "cooling_fan_observed", "ethernet_works",
    "wifi_works", "usb_camera_detected", "camera_stream_works", "data_usb_mount_verified"}
  const REQUIRED_MAINTENANCE_EVIDENCE: set<string> := {
    "owner_at_printer", "bed_clear", "printer_idle", "hotend_below_50c", "bed_below_50c",
    "normal_services_stopped"}
  const REQUIRED_RELEASE_EVIDENCE: set<string> := {
    "owner_at_printer", "steel_sheet_installed", "printer_idle", "hotend_target_zero", "bed_target_zero",
    "hotend_below_50c", "bed_below_50c", "normal_services_stopped", "mcu_connected_without_motion_or_heat",
    "thermal_sensor_readings_plausible", "endstop_and_probe_states_reviewed", "calibration_values_reviewed"}
  const REQUIRED_FINAL_RELEASE_EVIDENCE: set<string> := {
    "owner_at_printer", "printer_idle", "hotend_target_zero", "bed_target_zero",
    "full_safety_validation_passed", "ui_peripheral_parity_passed", "first_layer_test_passed",
    "dimensional_print_passed", "orange_camera_bracket_passed", "normal_end_and_cancel_passed",
    "rendered_timelapse_verified", "network_camera_soak_passed", "recovery_image_filesystems_verified",
    "vendor_rollback_drill_passed"}

  /** An evidence file: what it names, what it confirms, and its age in seconds. */
  datatype Evidence = Evidence(wellFormed: bool, candidate: nat, config: Config, confirmed: set<string>, age: int)

  predicate EvidenceOk(h: Host, ev: Evidence, required: set<string>) {
    ev.wellFormed && ev.candidate == h.candidate && ev.config == h.config && required <= ev.confirmed
  }

  predicate RecentEvidenceOk(h: Host, ev: Evidence, required: set<string>) {
    EvidenceOk(h, ev, required) && -60 <= ev.age <= 600
  }

  /** --apply, the typed confirmation, whether this is the live root, and whether the commissioned
      data USB is connected. */
  datatype Request = Request(apply: bool, confirmed: bool, live: bool, usb: bool)

  /** The answer to systemctl start or enable: the units it has an effect on, and whether the call, and
      the questions asked about the units after it, return without an error. */
  datatype Call = Call(effect: set<Unit>, ok: bool)

  /** The answer to systemctl stop or disable --now, whose exit status nobody looks at: the units that
      still run, those that are still enabled, and whether the call returns. */
  datatype StopCall = StopCall(running: set<Unit>, enabled: set<Unit>, ok: bool)

  /** What the world answers during one transition: the questions of its guard, the marker write, the
      start or enable call, the clean-up call, and the write that puts a marker back. `consumes`
      says that the maintenance unit gets as far as its ExecStartPre. */
  datatype Answers = Answers(asks: bool, writes: bool, act: Call, consumes: bool, stop: StopCall, rewrites: bool)

  /** The same for storage_enable. `identified`: the USB holds a vfat filesystem of the staged identity. */
  datatype StorageAnswers = StorageAnswers(
    asks: bool, identified: bool, writes: bool,
    enableData: Call, startData: Call, prepares: bool, enableBind: Call, startBind: Call,
    stopBridge: StopCall, startBridge: Call, disableBind: StopCall, disableData: StopCall)

  /** Previewed and Refused change nothing. Failed: an exception after the first write. */
  datatype Outcome = Previewed | Refused | Done | Failed

  // ----------------------------------------------------------------- guards

  predicate MayStartHostTest(h: Host) {
    && Inactive(h, NORMAL_PRINTER_UNITS)
    && HostGate !in h.markers && ProductionGate !in h.markers && MaintenanceGate !in h.markers
  }

  predicate MayAcceptHost(h: Host, ev: Evidence) {
    && ReadsAs(h, HostGate, Testing) && Inactive(h, NORMAL_PRINTER_UNITS)
    && EvidenceOk(h, ev, REQUIRED_HOST_EVIDENCE) && HOST_UNITS <= h.active
  }

  predicate MayEnableStorage(h: Host) {
    && Inactive(h, NORMAL_PRINTER_UNITS) && TransportClosed(h)
    && StorageGate !in h.markers && Inactive(h, STORAGE_UNITS)
  }

  /** Host validated, storage ready, printer units off, transfer closed, no other gate. */
  predicate MayArm(h: Host) {
    && ReadsAs(h, HostGate, Validated) && StorageReady(h)
    && Inactive(h, NORMAL_PRINTER_UNITS) && TransportClosed(h)
    && MaintenanceGate !in h.markers && ProductionGate !in h.markers
  }

  /** _release_deployment: the installed configuration is a completed calibrated deployment. */
  predicate ReleaseDeployment(h: Host) {
    && h.journal.Some? && h.journal.value.complete && h.journal.value.candidate == h.candidate
    && h.journal.value.newConfig == h.config && h.journal.value.calibrationReady && !h.journal.value.commissioningLock
  }

  predicate MayArmRelease(h: Host, ev: Evidence) {
    && MayArm(h) && h.config.lockFalse && !h.config.lockTrue
    && ReleaseDeployment(h) && RecentEvidenceOk(h, ev, REQUIRED_RELEASE_EVIDENCE)
  }

  predicate MayStartProduction(h: Host) {
    && ReadsAs(h, ProductionGate, Armed) && KlipperMaintenance !in h.active
    && StorageReady(h) && h.markers[ProductionGate].lock.Some?
  }

  /** Unlocked production runs on a validated host with its storage, transfer closed, and neither
      maintenance armed nor release accepted. */
  predicate MayAcceptRelease(h: Host, ev: Evidence) {
    && ReadsAs(h, HostGate, Validated) && StorageReady(h) && TransportClosed(h)
    && ReadsAs(h, ProductionGate, Started) && h.markers[ProductionGate].lock == Some(false)
    && MaintenanceGate !in h.markers && ReleaseGate !in h.markers
    && HOST_UNITS + PRODUCTION_UNITS <= h.active
    && EvidenceOk(h, ev, REQUIRED_FINAL_RELEASE_EVIDENCE)
  }

  predicate MayArmMaintenance(h: Host, ev: Evidence) {
    && Inactive(h, NORMAL_PRINTER_UNITS) && TransportClosed(h)
    && RecentEvidenceOk(h, ev, REQUIRED_MAINTENANCE_EVIDENCE)
  }

  predicate MayStartMaintenance(h: Host) {
    Inactive(h, NORMAL_PRINTER_UNITS) && TransportClosed(h) && ReadsAs(h, MaintenanceGate, ArmedOnce)
  }

  predicate MayOpenTransport(h: Host) { Inactive(h, NORMAL_PRINTER_UNITS) && TransportClosed(h) }

  predicate Tried(o: Outcome) { o.Done? || o.Failed? }

  /** A transition previews exactly when its guard holds and --apply is not given, and is attempted
      exactly when the guard holds, the request is applied, confirmed and live, and it is ready:
      its first write succeeds. */
  predicate AsAsked(guard: bool, r: Request, ready: bool, o: Outcome) {
    && (o.Previewed? <==> guard && !r.apply)
    && (Tried(o) <==> guard && r.apply && r.confirmed && r.live && ready)
  }

  /** How an attempt ends: with its work done, or undone. */
  predicate Ends(ok: bool, done: Host, undone: Host, o: Outcome, h': Host) {
    if ok then o.Done? && h' == done else o.Failed? && h' == undone
  }

  /** absent < testing < validated, absent < armed < started; one state for the others. */
  function Rank(markers: map<Gate, Marker>, g: Gate): nat {
    if g !in markers then 0
    else if markers[g].state in {Validated, Started} && g != ReleaseGate then 2 else 1
  }

  predicate NothingAdvanced(before: map<Gate, Marker>, after: map<Gate, Marker>) {
    forall g :: Rank(after, g) <= Rank(before, g)
  }

  // ------------------------------------------------- what transitions do

  function FreshMarker(h: Host, state: GateState): Marker { Marker(state, h.candidate, h.config, None, None, None) }

  function LockedMarker(h: Host): Marker { FreshMarker(h, Armed).(lock := Some(true)) }

  function ReleaseCandidateMarker(h: Host): Marker
    requires ReleaseDeployment(h)
  {
    FreshMarker(h, Armed).(lock := Some(false), bundle := Some(h.journal.value.bundle))
  }

  /** systemctl enable: all the units when it returns, or some of them. */
  function Enabling(h: Host, units: set<Unit>, c: Call): Host {
    h.(enabled := h.enabled + if c.ok then units else units * c.effect)
  }

  /** systemctl stop, or disable --now. */
  function Stopping(h: Host, units: set<Unit>, disable: bool, c: StopCall): Host {
    h.(active := h.active - (units - c.running),
       enabled := if disable then h.enabled - (units - c.enabled) else h.enabled)
  }

  /** The except block most transitions share: stop or disable the units, then revoke the marker; when
      the stop itself raises, the marker stays. */
  function Undone(h: Host, units: set<Unit>, disable: bool, g: Gate, c: StopCall): Host {
    var stopped := Stopping(h, units, disable, c);
    if c.ok then WithoutMarker(stopped, g) else stopped
  }

  const HOST_ORDER := [Crowsnest, Mainsail, TouchscreenGateway, TouchscreenBridge]
  const PRODUCTION_ORDER := [Admission, Klipper, Moonraker]

  function HostStarted(h: Host, c: Call): Host {
    StartAll(WithMarker(h, HostGate, FreshMarker(h, Testing)), HOST_ORDER, c.effect)
  }

  predicate HostTestStartStep(h: Host, r: Request, a: Answers, o: Outcome, h': Host) {
    && AsAsked(MayStartHostTest(h) && a.asks, r, a.writes, o)
    && if !Tried(o) then h' == h
       else
         var up := HostStarted(h, a.act);
         Ends(a.act.ok && HOST_UNITS <= up.active && Inactive(up, NORMAL_PRINTER_UNITS), up,
              Undone(up, HOST_UNITS + NORMAL_PRINTER_UNITS, false, HostGate, a.stop), o, h')
  }

  function HostValidated(h: Host): Host
    requires HostGate in h.markers
  {
    WithMarker(Logged(h, HostAccepted(h.config)), HostGate, h.markers[HostGate].(state := Validated))
  }

  predicate HostTestAcceptStep(h: Host, ev: Evidence, r: Request, a: Answers, o: Outcome, h': Host) {
    && AsAsked(MayAcceptHost(h, ev) && a.asks, r, a.writes, o)
    && if !Tried(o) then h' == h
       else
         var up := Enabling(HostValidated(h), HOST_UNITS, a.act);
         Ends(a.act.ok, up, Undone(up, HOST_UNITS, true, HostGate, a.stop), o, h')
  }

  predicate HostTestAbortStep(h: Host, r: Request, a: Answers, o: Outcome, h': Host) {
    && AsAsked(ReadsAs(h, HostGate, Testing), r, true, o)
    && if !Tried(o) then h' == h
       else
         var down := Stopping(h, HOST_UNITS, true, a.stop);
         Ends(a.stop.ok, WithoutMarker(down, HostGate), down, o, h')
  }

  /** The try block of storage_enable, as far as it gets. */
  datatype Mounting = Mounting(h: Host, ok: bool)

  function DataMounted(h: Host, a: StorageAnswers): Mounting {
    var h1 := Enabling(h, {DataMount}, a.enableData);
    if !a.enableData.ok then Mounting(h1, false)
    else
      var h2 := StartAll(h1, [DataMount], a.startData.effect);
      Mounting(h2, a.startData.ok && DataMount in h2.active && a.prepares)
  }

  function BindMounted(h: Host, a: StorageAnswers): Mounting {
    var h1 := Enabling(h, {GcodeBindMount}, a.enableBind);
    if !a.enableBind.ok then Mounting(h1, false)
    else
      var h2 := StartAll(h1, [GcodeBindMount], a.startBind.effect);
      Mounting(h2, a.startBind.ok && GcodeBindMount in h2.active)
  }

  /** The touchscreen bridge is restarted if it runs. */
  function BridgeRefreshed(h: Host, a: StorageAnswers): Mounting {
    if TouchscreenBridge !in h.active then Mounting(h, true)
    else
      var down := Stopping(h, {TouchscreenBridge}, false, a.stopBridge);
      var h1 := StartAll(down, [TouchscreenBridge], a.startBridge.effect);
      Mounting(h1, a.stopBridge.ok && a.startBridge.ok && TouchscreenBridge in h1.active)
  }

  function StorageMounted(h: Host, a: StorageAnswers): Mounting {
    var data := DataMounted(h, a);
    if !data.ok then data
    else
      var bind := BindMounted(data.h, a);
      if !bind.ok then bind else BridgeRefreshed(bind.h, a)
  }

  function StorageUndone(h: Host, a: StorageAnswers): Host {
    var unbound := Stopping(h, {GcodeBindMount}, true, a.disableBind);
    if a.disableBind.ok then Undone(unbound, {DataMount}, true, StorageGate, a.disableData) else unbound
  }

  predicate StorageEnableStep(h: Host, stagedUsb: bool, r: Request, a: StorageAnswers, o: Outcome, h': Host) {
    && AsAsked(MayEnableStorage(h) && stagedUsb && a.asks, r, r.usb && a.identified && a.writes, o)
    && if !Tried(o) then h' == h
       else
         var up := StorageMounted(WithMarker(h, StorageGate, FreshMarker(h, Enabled)), a);
         Ends(up.ok, up.h, StorageUndone(up.h, a), o, h')
  }

  /** An armed marker was written, and the production units are being enabled. */
  predicate ArmEnds(armed: Host, a: Answers, o: Outcome, h': Host) {
    var up := Enabling(armed, PRODUCTION_UNITS, a.act);
    Ends(a.act.ok, up, Undone(up, PRODUCTION_UNITS, true, ProductionGate, a.stop), o, h')
  }

  function LockArmed(h: Host): Host {
    WithMarker(Logged(h, LockedArmed(h.config)), ProductionGate, LockedMarker(h))
  }

  predicate ProductionArmStep(h: Host, r: Request, a: Answers, o: Outcome, h': Host) {
    && AsAsked(MayArm(h) && r.usb && h.config.lockTrue && a.asks, r, a.writes, o)
    && if !Tried(o) then h' == h else ArmEnds(LockArmed(h), a, o, h')
  }

  function ReleaseCandidateArmed(h: Host): Host
    requires ReleaseDeployment(h)
  {
    WithMarker(Logged(h, ReleaseArmed(h.config, h.journal.value.bundle)), ProductionGate, ReleaseCandidateMarker(h))
  }

  predicate ReleaseArmStep(h: Host, ev: Evidence, r: Request, a: Answers, o: Outcome, h': Host) {
    && AsAsked(MayArmRelease(h, ev) && r.usb && a.asks, r, a.writes, o)
    && if !Tried(o) then h' == h else ArmEnds(ReleaseCandidateArmed(h), a, o, h')
  }

  /** The armed marker rewritten to started. */
  function MarkedStarted(h: Host): Host
    requires ProductionGate in h.markers
  {
    WithMarker(Logged(h, ProductionStarted(h.config)), ProductionGate, h.markers[ProductionGate].(state := Started))
  }

  /** The except block of production_start: stop, then put the armed marker back or revoke it. */
  function Rearmed(h: Host, armed: Marker, a: Answers): Host {
    var down := Stopping(h, PRODUCTION_UNITS, false, a.stop);
    if !a.stop.ok then down
    else if a.rewrites then WithMarker(down, ProductionGate, armed)
    else WithoutMarker(down, ProductionGate)
  }

  predicate ProductionStartStep(h: Host, r: Request, a: Answers, o: Outcome, h': Host) {
    && AsAsked(MayStartProduction(h) && r.usb && a.asks, r, a.writes, o)
    && if !Tried(o) then h' == h
       else
         var up := StartAll(MarkedStarted(h), PRODUCTION_ORDER, a.act.effect);
         Ends(a.act.ok && PRODUCTION_UNITS <= up.active, up, Rearmed(up, h.markers[ProductionGate], a), o, h')
  }

  predicate ReleaseAcceptStep(h: Host, ev: Evidence, r: Request, a: Answers, o: Outcome, h': Host) {
    && AsAsked(MayAcceptRelease(h, ev) && r.usb && a.asks, r, a.writes, o)
    && !o.Failed? && h' == if o.Done? then Released(h) else h
  }

  /** The release marker, which records the digest of the production marker. */
  function Released(h: Host): Host
    requires ProductionGate in h.markers
  {
    WithMarker(Logged(h, ReleaseAccepted(h.config)), ReleaseGate,
               FreshMarker(h, Validated).(production := Some(DigestOf(h.markers[ProductionGate]))))
  }

  function MaintenanceReady(h: Host): Host {
    WithMarker(Logged(h, MaintenanceArmed), MaintenanceGate, FreshMarker(h, ArmedOnce))
  }

  predicate MaintenanceArmStep(h: Host, ev: Evidence, r: Request, a: Answers, o: Outcome, h': Host) {
    && AsAsked(MayArmMaintenance(h, ev) && a.asks, r, a.writes, o)
    && !o.Failed? && h' == if o.Done? then MaintenanceReady(h) else h
  }

  /** systemctl start klipper-maintenance: ExecStartPre consumes the marker, then the unit runs. */
  function MaintenanceRun(h: Host, a: Answers): Host {
    if !a.consumes || !MaintenanceGateOpen(h) then h
    else
      var consumed := WithoutMarker(h, MaintenanceGate);
      if KlipperMaintenance in a.act.effect then Activated(consumed, KlipperMaintenance) else consumed
  }

  predicate MaintenanceStartStep(h: Host, r: Request, a: Answers, o: Outcome, h': Host) {
    && AsAsked(MayStartMaintenance(h) && a.asks, r, true, o)
    && if !Tried(o) then h' == h
       else
         var up := MaintenanceRun(h, a);
         Ends(a.act.ok && KlipperMaintenance in up.active && MaintenanceGate !in up.markers, up,
              Stopping(up, {KlipperMaintenance}, false, a.stop), o, h')
  }

  predicate ConsumeStep(h: Host, r: Request, a: Answers, o: Outcome, h': Host) {
    && o == (if r.live && a.asks && MaintenanceGateOpen(h) then Done else Refused)
    && h' == if o.Done? then WithoutMarker(h, MaintenanceGate) else h
  }

  function TransportOpened(h: Host, c: Call): Host {
    StartAll(WithMarker(h, TransportGate, FreshMarker(h, Enabled)), [Ssh], c.effect)
  }

  predicate TransportEnableStep(h: Host, staged: bool, r: Request, a: Answers, o: Outcome, h': Host) {
    && AsAsked(MayOpenTransport(h) && staged && a.asks, r, a.writes, o)
    && if !Tried(o) then h' == h
       else
         var up := TransportOpened(h, a.act);
         Ends(a.act.ok && Ssh in up.active, up, Undone(up, {Ssh}, false, TransportGate, a.stop), o, h')
  }

  /** `act.ok`: the question after the stop is answered. */
  predicate TransportDisableStep(h: Host, r: Request, a: Answers, o: Outcome, h': Host) {
    && AsAsked(ReadsAs(h, TransportGate, Enabled), r, true, o)
    && if !Tried(o) then h' == h
       else
         var down := Stopping(h, {Ssh}, false, a.stop);
         Ends(a.stop.ok && a.act.ok && Ssh !in down.active, WithoutMarker(down, TransportGate), down, o, h')
  }

  predicate Lists(order: seq<Unit>, units: set<Unit>) {
    && (forall u :: u in order <==> u in units)
    && (forall i, j :: 0 <= i < j < |order| ==> order[i] != order[j])
  }

  /** Power loss and boot: nothing runs, then all enabled units start past their gates, in some order. */
  ghost predicate RebootStep(h: Host, runs: set<Unit>, h': Host) {
    exists order: seq<Unit> :: Lists(order, h.enabled) && h' == StartAll(h.(active := {}), order, runs)
  }

  class CandidateController {
    const candidate: nat
    const stagedUsb: bool         // the stage manifest names a valid data USB UUID
    const stagedTransport: bool   // a deployment key and a host fingerprint are staged
    var config: Config
    var markers: map<Gate, Marker>
    var active: set<Unit>
    var enabled: set<Unit>
    var journal: Option<Journal>
    ghost var log: seq<Event>
    ghost var overlapped: bool

    /** A freshly provisioned candidate. */
    constructor (candidate: nat, config: Config, stagedUsb: bool, stagedTransport: bool)
      ensures Valid() && Now() == Host(candidate, config, map[], {}, {}, None, [], false)
      ensures this.stagedUsb == stagedUsb && this.stagedTransport == stagedTransport
    {
      this.candidate, this.config := candidate, config;
      this.stagedUsb, this.stagedTransport := stagedUsb, stagedTransport;
      markers, active, enabled, journal := map[], {}, {}, None;
      log, overlapped := [], false;
    }

    ghost function Now(): Host reads this {
      Host(candidate, config, markers, active, enabled, journal, log, overlapped)
    }

    ghost predicate Valid() reads this { Inv(Now()) }

    /** The compiled state, for evaluating guards. */
    function Current(): Host reads this {
      Host(candidate, config, markers, active, enabled, journal, [], false)
    }

    // -------------------------------------------------------------- systemctl

    /** systemctl start of units other than maintenance: each starts only past its gate. */
    method Start(units: seq<Unit>, c: Call) returns (ok: bool)
      requires Valid() && KlipperMaintenance !in units
      modifies this`active, this`overlapped
      ensures Valid() && ok == c.ok && Now() == StartAll(old(Now()), units, c.effect)
    {
      for i := 0 to |units|
        invariant Valid() && Now() == StartAll(old(Now()), units[..i], c.effect)
      {
        assert units[..i + 1][..i] == units[..i];
        StartOne(units[i], units[i] in c.effect);
      }
      assert units[..|units|] == units;
      ok := c.ok;
    }

    /** One start job, which systemd may or may not be able to carry out. */
    method StartOne(u: Unit, runs: bool)
      requires Valid() && u != KlipperMaintenance
      modifies this`active, this`overlapped
      ensures Valid() && Now() == StartUnit(old(Now()), u, runs)
    {
      if runs && GateOpen(Current(), u) { Activate(u); }
    }

    method Activate(u: Unit)
      requires Valid() && u != KlipperMaintenance && GateOpen(Now(), u)
      modifies this`active, this`overlapped
      ensures Valid() && Now() == Activated(old(Now()), u)
    {
      StartKeeps(Now(), Activated(Now(), u), u);
      overlapped := if u == Admission && KlipperMaintenance in active then true else overlapped;
      active := active - Conflicts(u) + {u};
    }

    /** systemctl start klipper-maintenance: ExecStartPre consumes the marker. */
    method StartMaintenance(a: Answers) returns (ok: bool)
      requires Valid() && TransportClosed(Now())
      modifies this`active, this`overlapped, this`markers, this`log
      ensures Valid() && ok == a.act.ok && Now() == MaintenanceRun(old(Now()), a)
    {
      if a.consumes && MaintenanceGateOpen(Current()) {
        ghost var h := Now();
        markers := markers - {MaintenanceGate};
        if KlipperMaintenance in a.act.effect {
          active := active - Conflicts(KlipperMaintenance) + {KlipperMaintenance};
          overlapped := false;
          log := log + [MaintenanceStarted];
        }
        StartKeeps(h, Now(), KlipperMaintenance);
      }
      ok := a.act.ok;
    }

    /** systemctl stop / disable --now with check=False; `ok` is false when the call itself raises. */
    method Stop(units: set<Unit>, disable: bool, c: StopCall) returns (ok: bool)
      requires Valid()
      modifies this`active, this`enabled
      ensures Valid() && ok == c.ok && Now() == Stopping(old(Now()), units, disable, c)
    {
      ghost var h := Now();
      active := active - (units - c.running);
      if disable { enabled := enabled - (units - c.enabled); }
      UnitsShrinkKeeps(h, active, enabled);
      ok := c.ok;
    }

    method Enable(units: set<Unit>, c: Call) returns (ok: bool)
      requires Valid() && units <= ENABLEABLE
      modifies this`enabled
      ensures Valid() && ok == c.ok && Now() == Enabling(old(Now()), units, c)
    {
      ghost var h := Now();
      enabled := enabled + if c.ok then units else units * c.effect;
      UnitsShrinkKeeps(h, active, enabled);
      ok := c.ok;
    }

    // ---------------------------------------------------------------- markers

    method DropMarker(g: Gate)
      requires Valid()
      modifies this`markers
      ensures Valid() && Now() == WithoutMarker(old(Now()), g)
    {
      DropMarkerKeeps(Now(), g);
      markers := markers - {g};
    }

    /** The except block most transitions share. */
    method Undo(units: set<Unit>, disable: bool, g: Gate, c: StopCall)
      requires Valid()
      modifies this`active, this`enabled, this`markers
      ensures Valid() && Now() == Undone(old(Now()), units, disable, g, c)
    {
      var stopped := Stop(units, disable, c);
      if stopped { DropMarker(g); }
    }

    // ------------------------------------------------------------ transitions

    method HostTestStart(r: Request, a: Answers) returns (o: Outcome)
      requires Valid()
      modifies this
      ensures Valid() && HostTestStartStep(old(Now()), r, a, o, Now())
    {
      if r.apply && !r.confirmed { return Refused; }
      if !MayStartHostTest(Current()) || !a.asks { return Refused; }
      if !r.apply { return Previewed; }
      if !r.live || !a.writes { return Refused; }
      o := TestHost(a);
    }

    /** host_test_start past its guards. */
    method TestHost(a: Answers) returns (o: Outcome)
      requires Valid()
      modifies this`markers, this`active, this`enabled, this`overlapped
      ensures Valid()
      ensures
        var up := HostStarted(old(Now()), a.act);
        Ends(a.act.ok && HOST_UNITS <= up.active && Inactive(up, NORMAL_PRINTER_UNITS), up,
             Undone(up, HOST_UNITS + NORMAL_PRINTER_UNITS, false, HostGate, a.stop), o, Now())
    {
      PlainMarkerKeeps(Now(), HostGate, FreshMarker(Now(), Testing));
      markers := markers[HostGate := FreshMarker(Current(), Testing)];
      var started := Start(HOST_ORDER, a.act);
      if started && HOST_UNITS <= active && Inactive(Current(), NORMAL_PRINTER_UNITS) { return Done; }
      Undo(HOST_UNITS + NORMAL_PRINTER_UNITS, false, HostGate, a.stop);
      o := Failed;
    }

    method HostTestAccept(ev: Evidence, r: Request, a: Answers) returns (o: Outcome)
      requires Valid()
      modifies this
      ensures Valid() && HostTestAcceptStep(old(Now()), ev, r, a, o, Now())
    {
      if !MayAcceptHost(Current(), ev) || !a.asks { return Refused; }
      if r.apply && !r.confirmed { return Refused; }
      if !r.apply { return Previewed; }
      if !r.live || !a.writes { return Refused; }
      o := AcceptHost(a);
    }

    /** host_test_accept past its guards. */
    method AcceptHost(a: Answers) returns (o: Outcome)
      requires Valid() && ReadsAs(Now(), HostGate, Testing)
      modifies this`markers, this`log, this`active, this`enabled
      ensures Valid()
      ensures
        var up := Enabling(HostValidated(old(Now())), HOST_UNITS, a.act);
        Ends(a.act.ok, up, Undone(up, HOST_UNITS, true, HostGate, a.stop), o, Now())
    {
      MarkValidated();
      var enabledAll := Enable(HOST_UNITS, a.act);
      if enabledAll { return Done; }
      Undo(HOST_UNITS, true, HostGate, a.stop);
      o := Failed;
    }

    /** The rewritten host marker. */
    method MarkValidated()
      requires Valid() && ReadsAs(Now(), HostGate, Testing)
      modifies this`markers, this`log
      ensures Valid() && Now() == HostValidated(old(Now()))
    {
      HostAcceptKeeps(Now(), markers[HostGate].(state := Validated));
      markers := markers[HostGate := markers[HostGate].(state := Validated)];
      log := log + [HostAccepted(config)];
    }

    method HostTestAbort(r: Request, a: Answers) returns (o: Outcome)
      requires Valid()
      modifies this
      ensures Valid() && HostTestAbortStep(old(Now()), r, a, o, Now())
    {
      if !ReadsAs(Current(), HostGate, Testing) { return Refused; }
      if r.apply && !r.confirmed { return Refused; }
      if !r.apply { return Previewed; }
      if !r.live { return Refused; }
      var stopped := Stop(HOST_UNITS, true, a.stop);
      if !stopped { return Failed; }
      DropMarker(HostGate);
      o := Done;
    }

    method StorageEnable(r: Request, a: StorageAnswers) returns (o: Outcome)
      requires Valid()
      modifies this
      ensures Valid() && StorageEnableStep(old(Now()), stagedUsb, r, a, o, Now())
    {
      if !MayEnableStorage(Current()) || !stagedUsb || !a.asks { return Refused; }
      if r.apply && !r.confirmed { return Refused; }
      if !r.apply { return Previewed; }
      if !r.live || !r.usb || !a.identified || !a.writes { return Refused; }
      PlainMarkerKeeps(Now(), StorageGate, FreshMarker(Now(), Enabled));
      markers := markers[StorageGate := FreshMarker(Current(), Enabled)];
      var mounted := MountStorage(a);
      if mounted { return Done; }
      UnmountStorage(a);
      o := Failed;
    }

    /** The try block of storage_enable: data mount, directories, bind mount, bridge refresh. */
    method MountStorage(a: StorageAnswers) returns (ok: bool)
      requires Valid()
      modifies this`active, this`enabled, this`overlapped
      ensures Valid() && Mounting(Now(), ok) == StorageMounted(old(Now()), a)
    {
      ok := MountData(a);
      if !ok { return; }
      ok := MountBind(a);
      if !ok { return; }
      ok := RefreshBridge(a);
    }

    method MountData(a: StorageAnswers) returns (ok: bool)
      requires Valid()
      modifies this`active, this`enabled, this`overlapped
      ensures Valid() && Mounting(Now(), ok) == DataMounted(old(Now()), a)
    {
      ok := Enable({DataMount}, a.enableData);
      if !ok { return; }
      ok := Start([DataMount], a.startData);
      ok := ok && DataMount in active && a.prepares;
    }

    method MountBind(a: StorageAnswers) returns (ok: bool)
      requires Valid()
      modifies this`active, this`enabled, this`overlapped
      ensures Valid() && Mounting(Now(), ok) == BindMounted(old(Now()), a)
    {
      ok := Enable({GcodeBindMount}, a.enableBind);
      if !ok { return; }
      ok := Start([GcodeBindMount], a.startBind);
      ok := ok && GcodeBindMount in active;
    }

    method RefreshBridge(a: StorageAnswers) returns (ok: bool)
      requires Valid()
      modifies this`active, this`enabled, this`overlapped
      ensures Valid() && Mounting(Now(), ok) == BridgeRefreshed(old(Now()), a)
    {
      if TouchscreenBridge !in active { return true; }
      var stopped := Stop({TouchscreenBridge}, false, a.stopBridge);
      ok := Start([TouchscreenBridge], a.startBridge);
      ok := stopped && ok && TouchscreenBridge in active;
    }

    method UnmountStorage(a: StorageAnswers)
      requires Valid()
      modifies this`active, this`enabled, this`markers
      ensures Valid() && Now() == StorageUndone(old(Now()), a)
    {
      var stopped := Stop({GcodeBindMount}, true, a.disableBind);
      if stopped { Undo({DataMount}, true, StorageGate, a.disableData); }
    }

    method ProductionArm(r: Request, a: Answers) returns (o: Outcome)
      requires Valid()
      modifies this
      ensures Valid() && ProductionArmStep(old(Now()), r, a, o, Now())
    {
      if !MayArm(Current()) || !r.usb || !config.lockTrue || !a.asks { return Refused; }
      if r.apply && !r.confirmed { return Refused; }
      if !r.apply { return Previewed; }
      if !r.live || !a.writes { return Refused; }
      MarkLocked();
      o := EnableProduction(a);
    }

    method MarkLocked()
      requires Valid()
      modifies this`markers, this`log
      ensures Valid() && Now() == LockArmed(old(Now()))
    {
      LockedArmKeeps(Now(), LockedMarker(Now()));
      markers, log := markers[ProductionGate := LockedMarker(Current())], log + [LockedArmed(config)];
    }

    /** The try and except blocks that both kinds of arming share. */
    method EnableProduction(a: Answers) returns (o: Outcome)
      requires Valid()
      modifies this`markers, this`active, this`enabled
      ensures Valid() && ArmEnds(old(Now()), a, o, Now())
    {
      var enabledAll := Enable(PRODUCTION_UNITS, a.act);
      if enabledAll { return Done; }
      Undo(PRODUCTION_UNITS, true, ProductionGate, a.stop);
      o := Failed;
    }

    method ReleaseArm(ev: Evidence, r: Request, a: Answers) returns (o: Outcome)
      requires Valid()
      modifies this
      ensures Valid() && ReleaseArmStep(old(Now()), ev, r, a, o, Now())
    {
      if !MayArmRelease(Current(), ev) || !r.usb || !a.asks { return Refused; }
      if r.apply && !r.confirmed { return Refused; }
      if !r.apply { return Previewed; }
      if !r.live || !a.writes { return Refused; }
      MarkReleaseCandidate();
      o := EnableProduction(a);
    }

    method MarkReleaseCandidate()
      requires Valid() && ReadsAs(Now(), HostGate, Validated) && ReleaseDeployment(Now())
      modifies this`markers, this`log
      ensures Valid() && Now() == ReleaseCandidateArmed(old(Now()))
    {
      var m := ReleaseCandidateMarker(Current());
      ReleaseArmKeeps(Now(), m);
      markers, log := markers[ProductionGate := m], log + [ReleaseArmed(config, journal.value.bundle)];
    }

    method ProductionStart(r: Request, a: Answers) returns (o: Outcome)
      requires Valid()
      modifies this
      ensures Valid() && ProductionStartStep(old(Now()), r, a, o, Now())
    {
      if !MayStartProduction(Current()) || !r.usb || !a.asks { return Refused; }
      if r.apply && !r.confirmed { return Refused; }
      if !r.apply { return Previewed; }
      if !r.live || !a.writes { return Refused; }
      var armed := markers[ProductionGate];
      MarkStarted();
      o := RunProduction(armed, a);
    }

    /** The try and except blocks of production_start. */
    method RunProduction(armed: Marker, a: Answers) returns (o: Outcome)
      requires Valid() && armed.state == Armed
      requires ProductionGate in markers && markers[ProductionGate] == armed.(state := Started)
      modifies this`markers, this`active, this`enabled, this`overlapped
      ensures Valid()
      ensures
        var up := StartAll(old(Now()), PRODUCTION_ORDER, a.act.effect);
        Ends(a.act.ok && PRODUCTION_UNITS <= up.active, up, Rearmed(up, armed, a), o, Now())
    {
      StartAllFrame(Now(), PRODUCTION_ORDER, a.act.effect);
      var started := Start(PRODUCTION_ORDER, a.act);
      if started && PRODUCTION_UNITS <= active { return Done; }
      Rearm(armed, a);
      o := Failed;
    }

    method MarkStarted()
      requires Valid() && ReadsAs(Now(), ProductionGate, Armed)
      modifies this`markers, this`log
      ensures Valid() && Now() == MarkedStarted(old(Now()))
    {
      StartedKeeps(Now());
      markers := markers[ProductionGate := markers[ProductionGate].(state := Started)];
      log := log + [ProductionStarted(config)];
    }

    /** The except block of production_start: stop, then put the armed marker back or revoke it. */
    method Rearm(armed: Marker, a: Answers)
      requires Valid() && armed.state == Armed
      requires ProductionGate in markers && markers[ProductionGate] == armed.(state := Started)
      modifies this`active, this`enabled, this`markers
      ensures Valid() && Now() == Rearmed(old(Now()), armed, a)
    {
      var stopped := Stop(PRODUCTION_UNITS, false, a.stop);
      if !stopped { return; }
      if a.rewrites {
        RearmKeeps(Now());
        markers := markers[ProductionGate := armed];
      } else {
        DropMarker(ProductionGate);
      }
    }

    method ReleaseAccept(ev: Evidence, r: Request, a: Answers) returns (o: Outcome)
      requires Valid()
      modifies this
      ensures Valid() && ReleaseAcceptStep(old(Now()), ev, r, a, o, Now())
    {
      if !MayAcceptRelease(Current(), ev) || !r.usb || !a.asks { return Refused; }
      if r.apply && !r.confirmed { return Refused; }
      if !r.apply { return Previewed; }
      if !r.live || !a.writes { return Refused; }
      MarkReleased();
      o := Done;
    }

    method MarkReleased()
      requires Valid() && ReadsAs(Now(), ProductionGate, Started) && markers[ProductionGate].lock == Some(false)
      modifies this`markers, this`log
      ensures Valid() && Now() == Released(old(Now()))
    {
      ReleaseAcceptKeeps(Now());
      markers, log := Released(Current()).markers, log + [ReleaseAccepted(config)];
    }

    method MaintenanceArm(ev: Evidence, r: Request, a: Answers) returns (o: Outcome)
      requires Valid()
      modifies this
      ensures Valid() && MaintenanceArmStep(old(Now()), ev, r, a, o, Now())
    {
      if !MayArmMaintenance(Current(), ev) || !a.asks { return Refused; }
      if r.apply && !r.confirmed { return Refused; }
      if !r.apply { return Previewed; }
      if !r.live || !a.writes { return Refused; }
      MarkArmedOnce();
      o := Done;
    }

    method MarkArmedOnce()
      requires Valid()
      modifies this`markers, this`log
      ensures Valid() && Now() == MaintenanceReady(old(Now()))
    {
      MaintenanceArmKeeps(Now(), FreshMarker(Now(), ArmedOnce));
      markers, log := markers[MaintenanceGate := FreshMarker(Current(), ArmedOnce)], log + [MaintenanceArmed];
    }

    method MaintenanceStart(r: Request, a: Answers) returns (o: Outcome)
      requires Valid()
      modifies this
      ensures Valid() && MaintenanceStartStep(old(Now()), r, a, o, Now())
    {
      if !MayStartMaintenance(Current()) || !a.asks { return Refused; }
      if r.apply && !r.confirmed { return Refused; }
      if !r.apply { return Previewed; }
      if !r.live { return Refused; }
      var started := StartMaintenance(a);
      if started && KlipperMaintenance in active && MaintenanceGate !in markers { return Done; }
      var _ := Stop({KlipperMaintenance}, false, a.stop);
      o := Failed;
    }

    method ConsumeMaintenanceMarker(r: Request, a: Answers) returns (o: Outcome)
      requires Valid()
      modifies this
      ensures Valid() && ConsumeStep(old(Now()), r, a, o, Now())
    {
      if !r.live || !a.asks || !MaintenanceGateOpen(Current()) { return Refused; }
      DropMarker(MaintenanceGate);
      o := Done;
    }

    method TransportEnable(r: Request, a: Answers) returns (o: Outcome)
      requires Valid()
      modifies this
      ensures Valid() && TransportEnableStep(old(Now()), stagedTransport, r, a, o, Now())
    {
      if !MayOpenTransport(Current()) || !stagedTransport || !a.asks { return Refused; }
      if r.apply && !r.confirmed { return Refused; }
      if !r.apply { return Previewed; }
      if !r.live || !a.writes { return Refused; }
      o := OpenTransport(a);
    }

    /** transport_enable past its guards. */
    method OpenTransport(a: Answers) returns (o: Outcome)
      requires Valid() && MayOpenTransport(Now())
      modifies this`markers, this`active, this`enabled, this`overlapped
      ensures Valid()
      ensures
        var up := TransportOpened(old(Now()), a.act);
        Ends(a.act.ok && Ssh in up.active, up, Undone(up, {Ssh}, false, TransportGate, a.stop), o, Now())
    {
      PlainMarkerKeeps(Now(), TransportGate, FreshMarker(Now(), Enabled));
      markers := markers[TransportGate := FreshMarker(Current(), Enabled)];
      var started := Start([Ssh], a.act);
      if started && Ssh in active { return Done; }
      Undo({Ssh}, false, TransportGate, a.stop);
      o := Failed;
    }

    method TransportDisable(r: Request, a: Answers) returns (o: Outcome)
      requires Valid()
      modifies this
      ensures Valid() && TransportDisableStep(old(Now()), r, a, o, Now())
    {
      if !ReadsAs(Current(), TransportGate, Enabled) { return Refused; }
      if r.apply && !r.confirmed { return Refused; }
      if !r.apply { return Previewed; }
      if !r.live { return Refused; }
      var stopped := Stop({Ssh}, false, a.stop);
      if !stopped || !a.act.ok || Ssh in active { return Failed; }
      DropMarker(TransportGate);
      o := Done;
    }

    // ------------------------------------------- what happens between commands

    /** A unit stops by itself. */
    method UnitExits(u: Unit)
      requires Valid()
      modifies this`active
      ensures Valid() && Now() == old(Now()).(active := old(active) - {u})
    {
      UnitsShrinkKeeps(Now(), active - {u}, enabled);
      active := active - {u};
    }

    /** Restart=on-failure, a dependency, or a start requested through systemd: past the gate, like any
        start. Maintenance has Restart=no and nothing that wants it. */
    method AutomaticStart(u: Unit, runs: bool)
      requires Valid() && u != KlipperMaintenance
      modifies this`active, this`overlapped
      ensures Valid() && Now() == StartUnit(old(Now()), u, runs)
    {
      StartOne(u, runs);
    }

    /** Power loss and boot: nothing runs, then enabled units start past their gates, in any order. */
    method Reboot(runs: set<Unit>)
      requires Valid()
      modifies this`active, this`overlapped
      ensures Valid() && RebootStep(old(Now()), runs, Now())
    {
      UnitsShrinkKeeps(Now(), {}, enabled);
      active := {};
      var todo := enabled;
      ghost var h, order: seq<Unit> := Now(), [];
      while todo != {}
        invariant Valid() && todo <= enabled == old(enabled) && Now() == StartAll(h, order, runs)
        invariant Lists(order, enabled - todo)
        decreases todo
      {
        var u :| u in todo;
        assert (order + [u])[..|order|] == order;
        StartOne(u, u in runs);
        order := order + [u];
        todo := todo - {u};
      }
    }

    /** The files under /etc/t300 are edited by hand. */
    method EditConfiguration(c: Config)
      requires Valid()
      modifies this`config
      ensures Valid() && Now() == old(Now()).(config := c)
    {
      ConfigKeeps(Now(), c);
      config := c;
    }
  }
}
