/** Whole runs: any sequence of commissioning commands, bundle applications, unit exits and
    restarts, hand edits and reboots, with any failures. */
module CandidateRuns {
  import opened Wrappers
  import opened CandidateState
  import opened Commissioning
  import opened ConfigDeploy

  /** A command with what the world answers it, or what happens between commands. */
  datatype Step =
    | HostTestStart(r: Request, a: Answers) | HostTestAccept(ev: Evidence, r: Request, a: Answers)
    | HostTestAbort(r: Request, a: Answers)
    | StorageEnable(r: Request, sa: StorageAnswers)
    | ProductionArm(r: Request, a: Answers) | ReleaseArm(ev: Evidence, r: Request, a: Answers)
    | ProductionStart(r: Request, a: Answers) | ReleaseAccept(ev: Evidence, r: Request, a: Answers)
    | MaintenanceArm(ev: Evidence, r: Request, a: Answers) | MaintenanceStart(r: Request, a: Answers)
    | ConsumeMaintenance(r: Request, a: Answers)
    | TransportEnable(r: Request, a: Answers) | TransportDisable(r: Request, a: Answers)
    | ApplyBundle(b: Bundle, ev: Evidence, r: Request, s: Schedule, pid: nat, stamp: nat)
    | UnitExits(u: Unit) | AutomaticStart(u: Unit, runs: bool) | Reboot(jobs: set<Unit>)
    | EditConfiguration(c: Config)

  // ------------------------------------------------------- reading the history

  /** Strictly increasing positions of p in s. */
  predicate Positions(p: seq<Event>, s: seq<Event>, at: seq<nat>) {
    && |at| == |p|
    && (forall i :: 0 <= i < |at| ==> at[i] < |s| && s[at[i]] == p[i])
    && (forall i, j :: 0 <= i < j < |at| ==> at[i] < at[j])
  }

  lemma {:induction false} SubseqPositions(p: seq<Event>, s: seq<Event>) returns (at: seq<nat>)
    requires Subseq(p, s)
    ensures Positions(p, s, at)
  {
    if p == [] { return []; }
    var n := |s| - 1;
    if p[|p| - 1] == s[n] {
      var before := SubseqPositions(p[..|p| - 1], s[..n]);
      at := before + [n];
    } else {
      at := SubseqPositions(p, s[..n]);
    }
  }

  /** The tail is the end of the log, free of installations, right after the last one. */
  lemma {:induction false} TailIsSuffix(log: seq<Event>) returns (from: nat)
    ensures from <= |log| && Tail(log) == log[from..]
    ensures forall i :: from <= i < |log| ==> !log[i].Installed?
    ensures if from == 0 then LastInstalled(log) == None
            else log[from - 1].Installed? && LastInstalled(log) == Some(log[from - 1])
  {
    if log == [] { return 0; }
    var n := |log| - 1;
    if log[n].Installed? {
      from := |log|;
    } else {
      from := TailIsSuffix(log[..n]);
      assert log[..n][from..] + [log[n]] == log[from..];
    }
  }

  /** In this order: a calibrated, unlocked bundle was installed (none since), the owner accepted
      the host, armed that deployment with the lock off, started production, and accepted the
      release, all for configuration c. */
  predicate ReleaseOrder(log: seq<Event>, c: Config, bundle: nat, n: nat, i: nat, j: nat, k: nat, l: nat) {
    && n < i < j < k < l < |log|
    && log[n] == Installed(bundle, c, true, false)
    && (forall m :: n < m < |log| ==> !log[m].Installed?)
    && log[i] == HostAccepted(c) && log[j] == ReleaseArmed(c, bundle)
    && log[k] == ProductionStarted(c) && log[l] == ReleaseAccepted(c)
  }

  /** A release marker exists only at the end of such a history. */
  lemma ReleasedInOrder(h: Host)
    requires Inv(h) && ReleaseGate in h.markers
    ensures exists bundle: nat, n: nat, i: nat, j: nat, k: nat, l: nat ::
      ReleaseOrder(h.log, h.markers[ReleaseGate].config, bundle, n, i, j, k, l)
  {
    var c, bundle := h.markers[ReleaseGate].config, h.markers[ReleaseGate].production.value.bundle.value;
    OrderFromHistory(h.log, c, bundle);
  }

  lemma OrderFromHistory(log: seq<Event>, c: Config, bundle: nat)
    requires LastInstalled(log) == Some(Installed(bundle, c, true, false))
    requires Subseq(Chain(c, bundle, true) + [ReleaseAccepted(c)], Tail(log))
    ensures exists n: nat, i: nat, j: nat, k: nat, l: nat :: ReleaseOrder(log, c, bundle, n, i, j, k, l)
  {
    var chain := [HostAccepted(c), ReleaseArmed(c, bundle), ProductionStarted(c), ReleaseAccepted(c)];
    assert chain == Chain(c, bundle, true) + [ReleaseAccepted(c)];
    var at := SubseqPositions(chain, Tail(log));
    var from := TailIsSuffix(log);
    forall x | 0 <= x < 4 ensures log[from + at[x]] == chain[x] {
      assert Tail(log)[at[x]] == chain[x];
    }
    assert ReleaseOrder(log, c, bundle, from - 1, from + at[0], from + at[1], from + at[2], from + at[3]);
  }

  /** The host was accepted for configuration c at i, and no bundle was installed since. */
  predicate FreshAcceptance(log: seq<Event>, c: Config, i: nat) {
    i < |log| && log[i] == HostAccepted(c) && forall m :: i < m < |log| ==> !log[m].Installed?
  }

  /** The production gate is open only if the host was accepted, for the present
      configuration, after the last installed bundle. */
  lemma GateNeedsFreshAcceptance(h: Host)
    requires Inv(h) && ProductionGateOpen(h)
    ensures exists i: nat :: FreshAcceptance(h.log, h.config, i)
  {
    var at := SubseqPositions([HostAccepted(h.config)], Tail(h.log));
    var from := TailIsSuffix(h.log);
    assert FreshAcceptance(h.log, h.config, from + at[0]);
  }

  /** In particular a freshly applied bundle leaves it closed, whatever was accepted before. */
  lemma AppliedBundleClosesGate(h: Host, b: Bundle, s: Schedule)
    requires Inv(h) && (Completes(s) || RollbackFails(s))
    requires Inactive(h, NORMAL_PRINTER_UNITS) && MaintenanceGate !in h.markers
    ensures !ProductionGateOpen(After(h, b, s))
    ensures !exists i: nat :: FreshAcceptance(After(h, b, s).log, b.newConfig, i)
  {
    var h' := After(h, b, s);
    forall i: nat ensures !FreshAcceptance(h'.log, b.newConfig, i) {
      assert h'.log[|h.log|] == InstalledEvent(b);
    }
  }

  /** Safe in the plain terms of the unit files. */
  ghost predicate Safe(h: Host) {
    && (forall u :: u in h.active && u in NORMAL_PRINTER_UNITS ==> Ssh !in h.active && TransportGate !in h.markers)
    && (KlipperMaintenance in h.active ==> Klipper !in h.active && Moonraker !in h.active)
    && (KlipperMaintenance in h.active && Admission in h.active ==> h.overlapped)
    && Count(h.log, MaintenanceStarted) + (if MaintenanceGate in h.markers then 1 else 0)
         <= Count(h.log, MaintenanceArmed)
  }

  /** What a step answered: a command its outcome, a deployment its own; other events nothing. */
  datatype Reply = Answered(o: Outcome) | Deployed(d: Deployment) | Happened

  /** What is staged on the candidate. */
  datatype Staged = Staged(usb: bool, transport: bool)

  /** From h, the step with this reply leads to h'. */
  ghost predicate Follows(h: Host, staged: Staged, s: Step, reply: Reply, h': Host) {
    match s
    case ApplyBundle(b, ev, r, sched, _, _) => reply.Deployed? && ApplyBundleStep(h, b, ev, r, sched, reply.d, h')
    case UnitExits(u) => reply.Happened? && h' == h.(active := h.active - {u})
    case AutomaticStart(u, runs) =>
      reply.Happened? && h' == if u == KlipperMaintenance then h else StartUnit(h, u, runs)
    case Reboot(jobs) => reply.Happened? && RebootStep(h, jobs, h')
    case EditConfiguration(c) => reply.Happened? && h' == h.(config := c)
    case _ => reply.Answered? && Commanded(h, staged, s, reply.o, h')
  }

  /** The same for the controller's commands. */
  predicate Commanded(h: Host, staged: Staged, s: Step, o: Outcome, h': Host) {
    match s
    case HostTestStart(r, a) => HostTestStartStep(h, r, a, o, h')
    case HostTestAccept(ev, r, a) => HostTestAcceptStep(h, ev, r, a, o, h')
    case HostTestAbort(r, a) => HostTestAbortStep(h, r, a, o, h')
    case StorageEnable(r, sa) => StorageEnableStep(h, staged.usb, r, sa, o, h')
    case ProductionArm(r, a) => ProductionArmStep(h, r, a, o, h')
    case ReleaseArm(ev, r, a) => ReleaseArmStep(h, ev, r, a, o, h')
    case ProductionStart(r, a) => ProductionStartStep(h, r, a, o, h')
    case ReleaseAccept(ev, r, a) => ReleaseAcceptStep(h, ev, r, a, o, h')
    case MaintenanceArm(ev, r, a) => MaintenanceArmStep(h, ev, r, a, o, h')
    case MaintenanceStart(r, a) => MaintenanceStartStep(h, r, a, o, h')
    case ConsumeMaintenance(r, a) => ConsumeStep(h, r, a, o, h')
    case TransportEnable(r, a) => TransportEnableStep(h, staged.transport, r, a, o, h')
    case TransportDisable(r, a) => TransportDisableStep(h, r, a, o, h')
    case _ => false
  }

  // ------------------------------------------------------- what a command touches

  /** The marker a command is about. */
  function OwnMarker(s: Step): Gate
    requires IsCommand(s)
  {
    match s
    case StorageEnable(_, _) => StorageGate
    case ProductionArm(_, _) => ProductionGate
    case ReleaseArm(_, _, _) => ProductionGate
    case ProductionStart(_, _) => ProductionGate
    case ReleaseAccept(_, _, _) => ReleaseGate
    case MaintenanceArm(_, _, _) => MaintenanceGate
    case MaintenanceStart(_, _) => MaintenanceGate
    case ConsumeMaintenance(_, _) => MaintenanceGate
    case TransportEnable(_, _) => TransportGate
    case TransportDisable(_, _) => TransportGate
    case _ => HostGate
  }

  /** The units it names to systemctl. */
  function OwnUnits(s: Step): set<Unit>
    requires IsCommand(s)
  {
    match s
    case HostTestStart(_, _) => HOST_UNITS + NORMAL_PRINTER_UNITS
    case HostTestAccept(_, _, _) => HOST_UNITS
    case HostTestAbort(_, _) => HOST_UNITS
    case StorageEnable(_, _) => STORAGE_UNITS + {TouchscreenBridge}
    case ProductionArm(_, _) => PRODUCTION_UNITS
    case ReleaseArm(_, _, _) => PRODUCTION_UNITS
    case ProductionStart(_, _) => PRODUCTION_UNITS
    case MaintenanceStart(_, _) => {KlipperMaintenance}
    case TransportEnable(_, _) => {Ssh}
    case TransportDisable(_, _) => {Ssh}
    case _ => {}
  }

  /** From h to h', nothing but marker g and these units changed, and the log. */
  predicate OnlyOwn(h: Host, h': Host, g: Gate, units: set<Unit>) {
    && h'.candidate == h.candidate && h'.config == h.config && h'.journal == h.journal
    && h'.markers - {g} == h.markers - {g}
    && h'.active - units == h.active - units && h'.enabled - units == h.enabled - units
  }

  lemma OwnTrans(h: Host, m: Host, h': Host, g: Gate, own: set<Unit>)
    requires OnlyOwn(h, m, g, own) && OnlyOwn(m, h', g, own)
    ensures OnlyOwn(h, h', g, own)
  {
  }

  lemma MarkingOwn(h: Host, g: Gate, m: Marker, own: set<Unit>)
    ensures OnlyOwn(h, WithMarker(h, g, m), g, own)
  {
  }

  lemma StoppingOwn(h: Host, units: set<Unit>, disable: bool, c: StopCall, g: Gate, own: set<Unit>)
    requires units <= own
    ensures OnlyOwn(h, Stopping(h, units, disable, c), g, own) && OnlyOwn(h, Undone(h, units, disable, g, c), g, own)
  {
  }

  lemma EnablingOwn(h: Host, units: set<Unit>, c: Call, g: Gate, own: set<Unit>)
    requires units <= own
    ensures OnlyOwn(h, Enabling(h, units, c), g, own)
  {
  }

  /** Start jobs of own units, where maintenance does not run and so nothing conflicts. */
  lemma StartingOwn(h: Host, units: seq<Unit>, runs: set<Unit>, g: Gate, own: set<Unit>)
    requires KlipperMaintenance !in units && KlipperMaintenance !in h.active && forall u :: u in units ==> u in own
    ensures
      var h' := StartAll(h, units, runs);
      OnlyOwn(h, h', g, own) && h'.markers == h.markers && KlipperMaintenance !in h'.active
  {
    StartAllFrame(h, units, runs);
  }

  const STORAGE_OWN := STORAGE_UNITS + {TouchscreenBridge}

  lemma DataOwn(h: Host, sa: StorageAnswers)
    requires KlipperMaintenance !in h.active
    ensures
      var h' := DataMounted(h, sa).h;
      OnlyOwn(h, h', StorageGate, STORAGE_OWN) && h'.markers == h.markers && KlipperMaintenance !in h'.active
  {
    var h1 := Enabling(h, {DataMount}, sa.enableData);
    EnablingOwn(h, {DataMount}, sa.enableData, StorageGate, STORAGE_OWN);
    StartingOwn(h1, [DataMount], sa.startData.effect, StorageGate, STORAGE_OWN);
    OwnTrans(h, h1, StartAll(h1, [DataMount], sa.startData.effect), StorageGate, STORAGE_OWN);
  }

  lemma BindOwn(h: Host, sa: StorageAnswers)
    requires KlipperMaintenance !in h.active
    ensures
      var h' := BindMounted(h, sa).h;
      OnlyOwn(h, h', StorageGate, STORAGE_OWN) && h'.markers == h.markers && KlipperMaintenance !in h'.active
  {
    var h1 := Enabling(h, {GcodeBindMount}, sa.enableBind);
    EnablingOwn(h, {GcodeBindMount}, sa.enableBind, StorageGate, STORAGE_OWN);
    StartingOwn(h1, [GcodeBindMount], sa.startBind.effect, StorageGate, STORAGE_OWN);
    OwnTrans(h, h1, StartAll(h1, [GcodeBindMount], sa.startBind.effect), StorageGate, STORAGE_OWN);
  }

  lemma BridgeOwn(h: Host, sa: StorageAnswers)
    requires KlipperMaintenance !in h.active
    ensures
      var h' := BridgeRefreshed(h, sa).h;
      OnlyOwn(h, h', StorageGate, STORAGE_OWN) && h'.markers == h.markers
  {
    var h1 := Stopping(h, {TouchscreenBridge}, false, sa.stopBridge);
    StoppingOwn(h, {TouchscreenBridge}, false, sa.stopBridge, StorageGate, STORAGE_OWN);
    StartingOwn(h1, [TouchscreenBridge], sa.startBridge.effect, StorageGate, STORAGE_OWN);
    OwnTrans(h, h1, StartAll(h1, [TouchscreenBridge], sa.startBridge.effect), StorageGate, STORAGE_OWN);
  }

  lemma MountedOwn(h: Host, sa: StorageAnswers)
    requires KlipperMaintenance !in h.active
    ensures
      var h' := StorageMounted(h, sa).h;
      OnlyOwn(h, h', StorageGate, STORAGE_OWN) && h'.markers == h.markers
  {
    DataOwn(h, sa);
    var data := DataMounted(h, sa);
    BindOwn(data.h, sa);
    var bind := BindMounted(data.h, sa);
    BridgeOwn(bind.h, sa);
    OwnTrans(h, data.h, bind.h, StorageGate, STORAGE_OWN);
    OwnTrans(h, bind.h, BridgeRefreshed(bind.h, sa).h, StorageGate, STORAGE_OWN);
  }

  /** The marker afterwards is gone if both calls return, and else as it was. */
  lemma StorageUndoneOwn(h: Host, sa: StorageAnswers)
    ensures
      var h' := StorageUndone(h, sa);
      && OnlyOwn(h, h', StorageGate, STORAGE_OWN)
      && h'.markers == if sa.disableBind.ok && sa.disableData.ok then h.markers - {StorageGate} else h.markers
  {
    var unbound := Stopping(h, {GcodeBindMount}, true, sa.disableBind);
    StoppingOwn(h, {GcodeBindMount}, true, sa.disableBind, StorageGate, STORAGE_OWN);
    StoppingOwn(unbound, {DataMount}, true, sa.disableData, StorageGate, STORAGE_OWN);
    if sa.disableBind.ok {
      OwnTrans(h, unbound, Undone(unbound, {DataMount}, true, StorageGate, sa.disableData), StorageGate, STORAGE_OWN);
    }
  }

  lemma StorageOwn(h: Host, sa: StorageAnswers)
    requires KlipperMaintenance !in h.active
    ensures
      var up := StorageMounted(WithMarker(h, StorageGate, FreshMarker(h, Enabled)), sa).h;
      && OnlyOwn(h, up, StorageGate, STORAGE_OWN) && OnlyOwn(h, StorageUndone(up, sa), StorageGate, STORAGE_OWN)
      && up.markers == h.markers[StorageGate := FreshMarker(h, Enabled)]
  {
    var h0 := WithMarker(h, StorageGate, FreshMarker(h, Enabled));
    MarkingOwn(h, StorageGate, FreshMarker(h, Enabled), STORAGE_OWN);
    MountedOwn(h0, sa);
    var up := StorageMounted(h0, sa).h;
    OwnTrans(h, h0, up, StorageGate, STORAGE_OWN);
    StorageUndoneOwn(up, sa);
    OwnTrans(h, up, StorageUndone(up, sa), StorageGate, STORAGE_OWN);
  }

  /** A marker is written or rewritten, units are started, and on a failure stopped again. */
  lemma StartedOwn(h: Host, h0: Host, g: Gate, units: seq<Unit>, c: Call, own: set<Unit>)
    requires OnlyOwn(h, h0, g, own) && g in h0.markers
    requires KlipperMaintenance !in units && KlipperMaintenance !in h0.active && forall u :: u in units ==> u in own
    ensures
      var up := StartAll(h0, units, c.effect);
      OnlyOwn(h, up, g, own) && up.markers == h0.markers
    ensures
      var up := StartAll(h0, units, c.effect);
      forall disable, stop, stopped {:trigger Undone(up, stopped, disable, g, stop)} ::
        stopped <= own ==> OnlyOwn(h, Undone(up, stopped, disable, g, stop), g, own)
  {
    var up := StartAll(h0, units, c.effect);
    StartingOwn(h0, units, c.effect, g, own);
    OwnTrans(h, h0, up, g, own);
    forall disable, stop, stopped: set<Unit> | stopped <= own
      ensures OnlyOwn(h, Undone(up, stopped, disable, g, stop), g, own)
    {
      StoppingOwn(up, stopped, disable, stop, g, own);
      OwnTrans(h, up, Undone(up, stopped, disable, g, stop), g, own);
    }
  }

  lemma HostFrame(h: Host, staged: Staged, s: Step, o: Outcome, h': Host)
    requires Commanded(h, staged, s, o, h') && Tried(o)
    requires s.HostTestStart? || s.HostTestAccept? || s.HostTestAbort? || s.StorageEnable?
    ensures OnlyOwn(h, h', OwnMarker(s), OwnUnits(s))
  {
    match s {
      case HostTestStart(_, a) =>
        StartedOwn(h, WithMarker(h, HostGate, FreshMarker(h, Testing)), HostGate, HOST_ORDER, a.act, OwnUnits(s));
      case HostTestAccept(_, _, a) => EnabledOwn(h, HostValidated(h), HostGate, HOST_UNITS, a);
      case HostTestAbort(_, a) => StoppingOwn(h, HOST_UNITS, true, a.stop, HostGate, HOST_UNITS);
      case StorageEnable(_, sa) => StorageOwn(h, sa);
    }
  }

  lemma ProductionFrame(h: Host, staged: Staged, s: Step, o: Outcome, h': Host)
    requires Commanded(h, staged, s, o, h') && Tried(o)
    requires s.ProductionArm? || s.ReleaseArm? || s.ProductionStart?
    ensures OnlyOwn(h, h', OwnMarker(s), OwnUnits(s))
  {
    match s {
      case ProductionArm(_, a) => EnabledOwn(h, LockArmed(h), ProductionGate, PRODUCTION_UNITS, a);
      case ReleaseArm(_, _, a) => EnabledOwn(h, ReleaseCandidateArmed(h), ProductionGate, PRODUCTION_UNITS, a);
      case ProductionStart(_, a) => ProductionOwn(h, a);
    }
  }

  lemma TransportFrame(h: Host, staged: Staged, s: Step, o: Outcome, h': Host)
    requires Commanded(h, staged, s, o, h') && Tried(o) && (s.TransportEnable? || s.TransportDisable?)
    ensures OnlyOwn(h, h', OwnMarker(s), OwnUnits(s))
  {
    match s {
      case TransportEnable(_, a) =>
        StartedOwn(h, WithMarker(h, TransportGate, FreshMarker(h, Enabled)), TransportGate, [Ssh], a.act, {Ssh});
      case TransportDisable(_, a) => StoppingOwn(h, {Ssh}, false, a.stop, TransportGate, {Ssh});
    }
  }

  /** What conflicts with maintenance does not run when it is started by command. */
  lemma MaintenanceFrame(h: Host, r: Request, a: Answers, o: Outcome, h': Host)
    requires MaintenanceStartStep(h, r, a, o, h') && Tried(o)
    ensures OnlyOwn(h, h', MaintenanceGate, {KlipperMaintenance})
  {
    var up := MaintenanceRun(h, a);
    assert h.active - Conflicts(KlipperMaintenance) == h.active;
    assert OnlyOwn(h, up, MaintenanceGate, {KlipperMaintenance});
    StoppingOwn(up, {KlipperMaintenance}, false, a.stop, MaintenanceGate, {KlipperMaintenance});
  }

  /** Whatever fails, a command changes nothing but its own marker and the units it names. */
  lemma CommandFrame(h: Host, staged: Staged, s: Step, o: Outcome, h': Host)
    requires IsCommand(s) && Commanded(h, staged, s, o, h')
    ensures OnlyOwn(h, h', OwnMarker(s), OwnUnits(s)) && (!Tried(o) ==> h' == h)
  {
    if Tried(o) {
      if s.HostTestStart? || s.HostTestAccept? || s.HostTestAbort? || s.StorageEnable? {
        HostFrame(h, staged, s, o, h');
      } else if s.ProductionArm? || s.ReleaseArm? || s.ProductionStart? {
        ProductionFrame(h, staged, s, o, h');
      } else if s.TransportEnable? || s.TransportDisable? {
        TransportFrame(h, staged, s, o, h');
      } else if s.MaintenanceStart? {
        MaintenanceFrame(h, s.r, s.a, o, h');
      }
    }
  }

  lemma EnabledOwn(h: Host, h0: Host, g: Gate, own: set<Unit>, a: Answers)
    requires OnlyOwn(h, h0, g, own)
    ensures
      var up := Enabling(h0, own, a.act);
      OnlyOwn(h, up, g, own) && OnlyOwn(h, Undone(up, own, true, g, a.stop), g, own)
  {
    var up := Enabling(h0, own, a.act);
    EnablingOwn(h0, own, a.act, g, own);
    OwnTrans(h, h0, up, g, own);
    StoppingOwn(up, own, true, a.stop, g, own);
    OwnTrans(h, up, Undone(up, own, true, g, a.stop), g, own);
  }

  lemma ProductionOwn(h: Host, a: Answers)
    requires ProductionGate in h.markers && KlipperMaintenance !in h.active
    ensures
      var up := StartAll(MarkedStarted(h), PRODUCTION_ORDER, a.act.effect);
      && OnlyOwn(h, up, ProductionGate, PRODUCTION_UNITS) && up.markers == MarkedStarted(h).markers
      && OnlyOwn(h, Rearmed(up, h.markers[ProductionGate], a), ProductionGate, PRODUCTION_UNITS)
  {
    var g, own := ProductionGate, PRODUCTION_UNITS;
    StartedOwn(h, MarkedStarted(h), g, PRODUCTION_ORDER, a.act, own);
    var up := StartAll(MarkedStarted(h), PRODUCTION_ORDER, a.act.effect);
    var down := Stopping(up, own, false, a.stop);
    StoppingOwn(up, own, false, a.stop, g, own);
    OwnTrans(h, up, down, g, own);
    MarkingOwn(down, g, h.markers[g], own);
    OwnTrans(h, down, WithMarker(down, g, h.markers[g]), g, own);
  }

  // --------------------------------------------------------------- failures

  /** The clean-up calls of the command's except block return; some commands have no marker to clean
      up. */
  predicate CleanUpReturns(s: Step)
    requires IsCommand(s)
  {
    match s
    case HostTestStart(_, a) => a.stop.ok
    case HostTestAccept(_, _, a) => a.stop.ok
    case StorageEnable(_, sa) => sa.disableBind.ok && sa.disableData.ok
    case ProductionArm(_, a) => a.stop.ok
    case ReleaseArm(_, _, a) => a.stop.ok
    case ProductionStart(_, a) => a.stop.ok
    case TransportEnable(_, a) => a.stop.ok
    case _ => true
  }

  /** A command that fails leaves no marker further advanced than before exactly if the systemctl calls
      of its clean-up return. */
  lemma FailedCommand(h: Host, staged: Staged, s: Step, o: Outcome, h': Host)
    requires IsCommand(s) && Commanded(h, staged, s, o, h') && o.Failed?
    ensures NothingAdvanced(h.markers, h'.markers) <==> CleanUpReturns(s)
  {
    CommandFrame(h, staged, s, o, h');
    OthersKeepRank(h, h', OwnMarker(s));
    OwnRank(h, staged, s, o, h');
  }

  lemma OthersKeepRank(h: Host, h': Host, g: Gate)
    requires h'.markers - {g} == h.markers - {g}
    ensures NothingAdvanced(h.markers, h'.markers) <==> Rank(h'.markers, g) <= Rank(h.markers, g)
  {
    forall k | k != g ensures Rank(h'.markers, k) == Rank(h.markers, k) {
      assert k in h.markers <==> k in h.markers - {g};
      assert k in h'.markers <==> k in h'.markers - {g};
      if k in h.markers { assert (h'.markers - {g})[k] == (h.markers - {g})[k]; }
    }
  }

  lemma OwnRank(h: Host, staged: Staged, s: Step, o: Outcome, h': Host)
    requires IsCommand(s) && Commanded(h, staged, s, o, h') && o.Failed?
    ensures Rank(h'.markers, OwnMarker(s)) <= Rank(h.markers, OwnMarker(s)) <==> CleanUpReturns(s)
  {
    if s.HostTestStart? || s.StorageEnable? || s.ProductionStart? || s.TransportEnable? {
      StartedRank(h, staged, s, o, h');
    }
  }

  lemma StartedRank(h: Host, staged: Staged, s: Step, o: Outcome, h': Host)
    requires Commanded(h, staged, s, o, h') && o.Failed?
    requires s.HostTestStart? || s.StorageEnable? || s.ProductionStart? || s.TransportEnable?
    ensures Rank(h'.markers, OwnMarker(s)) <= Rank(h.markers, OwnMarker(s)) <==> CleanUpReturns(s)
  {
    var g, own := OwnMarker(s), OwnUnits(s);
    match s {
      case HostTestStart(_, a) =>
        StartedOwn(h, WithMarker(h, g, FreshMarker(h, Testing)), g, HOST_ORDER, a.act, own);
      case StorageEnable(_, sa) =>
        StorageOwn(h, sa);
        StorageUndoneOwn(StorageMounted(WithMarker(h, g, FreshMarker(h, Enabled)), sa).h, sa);
      case ProductionStart(_, a) => ProductionOwn(h, a);
      case TransportEnable(_, a) => StartedOwn(h, WithMarker(h, g, FreshMarker(h, Enabled)), g, [Ssh], a.act, own);
    }
  }

  // ------------------------------------------------------------------ runs

  predicate IsCommand(s: Step) {
    !s.ApplyBundle? && !s.UnitExits? && !s.AutomaticStart? && !s.Reboot? && !s.EditConfiguration?
  }

  /** A command of t300-candidate, as main dispatches it. */
  method Dispatch(c: CandidateController, s: Step) returns (o: Outcome)
    requires c.Valid() && IsCommand(s)
    modifies c
    ensures c.Valid() && Commanded(old(c.Now()), Staged(c.stagedUsb, c.stagedTransport), s, o, c.Now())
  {
    match s {
      case HostTestStart(r, a) => o := c.HostTestStart(r, a);
      case HostTestAccept(ev, r, a) => o := c.HostTestAccept(ev, r, a);
      case HostTestAbort(r, a) => o := c.HostTestAbort(r, a);
      case StorageEnable(r, sa) => o := c.StorageEnable(r, sa);
      case ProductionArm(r, a) => o := c.ProductionArm(r, a);
      case ReleaseArm(ev, r, a) => o := c.ReleaseArm(ev, r, a);
      case ProductionStart(r, a) => o := c.ProductionStart(r, a);
      case ReleaseAccept(ev, r, a) => o := c.ReleaseAccept(ev, r, a);
      case MaintenanceArm(ev, r, a) => o := c.MaintenanceArm(ev, r, a);
      case MaintenanceStart(r, a) => o := c.MaintenanceStart(r, a);
      case ConsumeMaintenance(r, a) => o := c.ConsumeMaintenanceMarker(r, a);
      case TransportEnable(r, a) => o := c.TransportEnable(r, a);
      case TransportDisable(r, a) => o := c.TransportDisable(r, a);
    }
  }

  /** One command or deployment, or one thing that happens between commands. */
  method Perform(d: Deployer, s: Step) returns (reply: Reply)
    requires d.controller.Valid()
    modifies d, d.controller
    ensures d.controller.Valid()
    ensures Follows(old(d.controller.Now()), Staged(d.controller.stagedUsb, d.controller.stagedTransport), s, reply,
                    d.controller.Now())
  {
    if s.ApplyBundle? {
      var o := d.ApplyBundle(s.b, s.ev, s.r, s.s, s.pid, s.stamp);
      reply := Deployed(o);
    } else if IsCommand(s) {
      var o := Dispatch(d.controller, s);
      reply := Answered(o);
    } else {
      Happen(d.controller, s);
      reply := Happened;
    }
  }

  /** What happens between commands. */
  method Happen(c: CandidateController, s: Step)
    requires c.Valid() && !IsCommand(s) && !s.ApplyBundle?
    modifies c
    ensures c.Valid() && Follows(old(c.Now()), Staged(c.stagedUsb, c.stagedTransport), s, Happened, c.Now())
  {
    match s {
      case UnitExits(u) => c.UnitExits(u);
      case AutomaticStart(u, runs) => if u != KlipperMaintenance { c.AutomaticStart(u, runs); }
      case Reboot(jobs) => c.Reboot(jobs);
      case EditConfiguration(config) => c.EditConfiguration(config);
    }
  }

  /** The run starts with a fresh candidate and takes the given steps, one by one. */
  ghost predicate IsRun(start: Host, staged: Staged, steps: seq<Step>, replies: seq<Reply>, trace: seq<Host>) {
    && |trace| == |steps| + 1 && |replies| == |steps| && trace[0] == start
    && forall i :: 0 <= i < |steps| ==> Follows(trace[i], staged, steps[i], replies[i], trace[i + 1])
  }

  /** From a fresh candidate, every run of these steps, with its replies and the state after every step:
      in each state the units are safe, a release marker has its whole history, and an open production
      gate its fresh acceptance. */
  method Run(candidate: nat, config: Config, staged: Staged, quarantine: Option<nat>, steps: seq<Step>)
    returns (replies: seq<Reply>, ghost trace: seq<Host>)
    ensures IsRun(Host(candidate, config, map[], {}, {}, None, [], false), staged, steps, replies, trace)
    ensures forall i :: 0 <= i < |trace| ==> Safe(trace[i]) && Inv(trace[i])
  {
    var c := new CandidateController(candidate, config, staged.usb, staged.transport);
    var d := new Deployer(c, quarantine);
    replies, trace := [], [c.Now()];
    for i := 0 to |steps|
      invariant fresh(c) && fresh(d) && d.controller == c && c.Valid()
      invariant |trace| == i + 1 && trace[i] == c.Now()
      invariant Staged(c.stagedUsb, c.stagedTransport) == staged
      invariant IsRun(trace[0], staged, steps[..i], replies, trace)
      invariant trace[0] == Host(candidate, config, map[], {}, {}, None, [], false)
      invariant forall k :: 0 <= k < |trace| ==> Safe(trace[k]) && Inv(trace[k])
    {
      var reply := Perform(d, steps[i]);
      InvIsSafe(c.Now());
      RunMore(staged, steps[..i], replies, trace, steps[i], reply, c.Now());
      assert steps[..i] + [steps[i]] == steps[..i + 1];
      replies, trace := replies + [reply], trace + [c.Now()];
    }
    assert steps[..|steps|] == steps;
  }

  lemma RunMore(staged: Staged, steps: seq<Step>, replies: seq<Reply>, trace: seq<Host>,
                s: Step, reply: Reply, h: Host)
    requires |trace| > 0 && IsRun(trace[0], staged, steps, replies, trace)
    requires Follows(trace[|steps|], staged, s, reply, h)
    ensures IsRun(trace[0], staged, steps + [s], replies + [reply], trace + [h])
  {
  }

  lemma InvIsSafe(h: Host)
    requires Inv(h)
    ensures Safe(h)
  {
  }
}
