/** The state a commissioning run works on: markers, systemd units, configuration, deployment
    journal, and (for the theorems only) the log of what the owner confirmed.
    Models the data of t300_mainline/commissioning.py and what its gates decide. */
module CandidateState {
  import opened Wrappers

  datatype Unit =
    | Crowsnest | Mainsail | TouchscreenGateway | TouchscreenBridge   // host units
    | Admission | Klipper | Moonraker                                 // production units
    | KlipperMaintenance
    | DataMount | GcodeBindMount
    | Ssh

  const HOST_UNITS := {Crowsnest, Mainsail, TouchscreenGateway, TouchscreenBridge}
  const PRODUCTION_UNITS := {Admission, Klipper, Moonraker}
  const STORAGE_UNITS := {DataMount, GcodeBindMount}
  const NORMAL_PRINTER_UNITS := PRODUCTION_UNITS + {KlipperMaintenance}
  /** The units that have an [Install] section, and so can start at boot. */
  const ENABLEABLE := HOST_UNITS + PRODUCTION_UNITS + STORAGE_UNITS

  /** Conflicts= in the unit files: klipper and moonraker, but not the admission daemon. */
  function Conflicts(u: Unit): set<Unit> {
    match u
    case KlipperMaintenance => {Klipper, Moonraker}
    case Klipper => {KlipperMaintenance}
    case Moonraker => {KlipperMaintenance}
    case _ => {}
  }

  /** A configuration is its own digest; the lock lines are those found in safety.cfg. */
  datatype Config = Config(id: nat, lockTrue: bool, lockFalse: bool)

  datatype Gate = HostGate | StorageGate | ProductionGate | MaintenanceGate | TransportGate | ReleaseGate
  datatype GateState = Testing | Validated | Enabled | Armed | Started | ArmedOnce
  /** The digest of a marker file: what it was computed from. */
  datatype Digest = Digest(state: GateState, candidate: nat, config: Config, lock: Option<bool>, bundle: Option<nat>)

  /** A release marker records the digest of the production marker. */
  datatype Marker = Marker(state: GateState, candidate: nat, config: Config, lock: Option<bool>,
                           bundle: Option<nat>, production: Option<Digest>)

  function DigestOf(m: Marker): Digest { Digest(m.state, m.candidate, m.config, m.lock, m.bundle) }

  datatype Journal = Journal(complete: bool, candidate: nat, newConfig: Config,
                             calibrationReady: bool, commissioningLock: bool, bundle: nat)

  /** What really happened, in order. */
  datatype Event =
    | HostAccepted(config: Config)
    | LockedArmed(config: Config)
    | ReleaseArmed(config: Config, bundle: nat)
    | ProductionStarted(config: Config)
    | ReleaseAccepted(config: Config)
    | MaintenanceArmed
    | MaintenanceStarted
    | Installed(bundle: nat, config: Config, calibrationReady: bool, commissioningLock: bool)

  datatype Host = Host(
    candidate: nat, config: Config,
    markers: map<Gate, Marker>, active: set<Unit>, enabled: set<Unit>,
    journal: Option<Journal>,
    log: seq<Event>,
    overlapped: bool)    // the admission daemon was started during a maintenance session

  // ------------------------------------------------------------------ gates

  /** _read_marker: the marker exists and names this candidate and this configuration. */
  predicate Reads(h: Host, g: Gate) {
    g in h.markers && h.markers[g].candidate == h.candidate && h.markers[g].config == h.config
  }

  predicate ReadsAs(h: Host, g: Gate, state: GateState) {
    Reads(h, g) && h.markers[g].state == state
  }

  predicate Inactive(h: Host, units: set<Unit>) { h.active !! units }

  predicate TransportClosed(h: Host) {
    Ssh !in h.active && TransportGate !in h.markers
  }

  /** _require_storage_ready, apart from the presence of the USB device itself. */
  predicate StorageReady(h: Host) {
    ReadsAs(h, StorageGate, Enabled) && STORAGE_UNITS <= h.active
  }

  predicate HostGateOpen(h: Host) {
    && Reads(h, HostGate) && h.markers[HostGate].state in {Testing, Validated}
    && (h.markers[HostGate].state == Testing ==> Inactive(h, NORMAL_PRINTER_UNITS))
  }

  predicate ProductionGateOpen(h: Host) {
    && TransportClosed(h) && ReadsAs(h, ProductionGate, Started)
    && ReadsAs(h, HostGate, Validated) && StorageReady(h)
  }

  predicate TransportGateOpen(h: Host) {
    Inactive(h, NORMAL_PRINTER_UNITS) && ReadsAs(h, TransportGate, Enabled)
  }

  /** consume_maintenance_marker */
  predicate MaintenanceGateOpen(h: Host) {
    Inactive(h, PRODUCTION_UNITS) && ReadsAs(h, MaintenanceGate, ArmedOnce)
  }

  /** What systemd checks before it starts a unit. */
  predicate GateOpen(h: Host, u: Unit) {
    if u in HOST_UNITS then HostGateOpen(h)
    else if u in PRODUCTION_UNITS then ProductionGateOpen(h)
    else if u == Ssh then TransportGateOpen(h)
    else if u == KlipperMaintenance then MaintenanceGateOpen(h)
    else StorageGate in h.markers
  }

  // -------------------------------------------------------------- small steps

  function WithMarker(h: Host, g: Gate, m: Marker): Host { h.(markers := h.markers[g := m]) }
  function WithoutMarker(h: Host, g: Gate): Host { h.(markers := h.markers - {g}) }
  function Logged(h: Host, e: Event): Host { h.(log := h.log + [e]) }

  /** A unit becomes active; its conflicting units are stopped. */
  function Activated(h: Host, u: Unit): Host {
    var h' := h.(active := h.active - Conflicts(u) + {u});
    if u == KlipperMaintenance then Logged(h', MaintenanceStarted).(overlapped := false)
    else if u == Admission && KlipperMaintenance in h.active then h'.(overlapped := true)
    else h'
  }

  /** One start job: nothing, or the gate is open and the unit runs. Maintenance consumes its
      marker first, and may still fail to run. */
  predicate StartStep(h: Host, h': Host, u: Unit) {
    || h' == h
    || (GateOpen(h, u) &&
        if u == KlipperMaintenance then
          var consumed := WithoutMarker(h, MaintenanceGate);
          h' == consumed || h' == Activated(consumed, u)
        else h' == Activated(h, u))
  }

  /** A start job that systemd can carry out or not; it runs its unit only past the gate. */
  function StartUnit(h: Host, u: Unit, runs: bool): Host {
    if runs && GateOpen(h, u) then Activated(h, u) else h
  }

  /** Start jobs for the units in turn; `runs` are those that systemd can carry out. */
  function StartAll(h: Host, units: seq<Unit>, runs: set<Unit>): Host {
    if units == [] then h
    else
      var u := units[|units| - 1];
      StartUnit(StartAll(h, units[..|units| - 1], runs), u, u in runs)
  }

  lemma StartUnitIsStep(h: Host, u: Unit, runs: bool)
    requires u != KlipperMaintenance
    ensures StartStep(h, StartUnit(h, u, runs), u)
    ensures
      var h' := StartUnit(h, u, runs);
      && h' == h.(active := h'.active, overlapped := h'.overlapped)
      && h.active - {KlipperMaintenance} <= h'.active <= h.active + {u}
      && (KlipperMaintenance !in h.active ==> h.active <= h'.active && h'.overlapped == h.overlapped)
  {
    assert Conflicts(u) <= {KlipperMaintenance};
  }

  /** Start jobs change units only, and only add their own where maintenance does not run. */
  lemma {:induction false} StartAllFrame(h: Host, units: seq<Unit>, runs: set<Unit>)
    requires KlipperMaintenance !in units
    ensures
      var h' := StartAll(h, units, runs);
      && h' == h.(active := h'.active, overlapped := h'.overlapped)
      && h.active - {KlipperMaintenance} <= h'.active
      && (forall u :: u in h'.active ==> u in h.active || u in units)
      && (KlipperMaintenance !in h.active ==> h.active <= h'.active && h'.overlapped == h.overlapped)
  {
    if units != [] {
      var n := |units| - 1;
      StartAllFrame(h, units[..n], runs);
      StartUnitIsStep(StartAll(h, units[..n], runs), units[n], units[n] in runs);
    }
  }

  // -------------------------------------------------------------- the history

  /** p occurs in s, in order. */
  predicate Subseq(p: seq<Event>, s: seq<Event>) {
    || p == []
    || (s != [] && Subseq(if p[|p| - 1] == s[|s| - 1] then p[..|p| - 1] else p, s[..|s| - 1]))
  }

  /** The part of the log after the last installed configuration bundle. */
  function Tail(log: seq<Event>): seq<Event> {
    if log == [] || log[|log| - 1].Installed? then []
    else Tail(log[..|log| - 1]) + [log[|log| - 1]]
  }

  function LastInstalled(log: seq<Event>): Option<Event> {
    if log == [] then None
    else if log[|log| - 1].Installed? then Some(log[|log| - 1])
    else LastInstalled(log[..|log| - 1])
  }

  function Count(log: seq<Event>, e: Event): nat {
    if log == [] then 0 else Count(log[..|log| - 1], e) + if log[|log| - 1] == e then 1 else 0
  }

  /** The confirmations behind an unlocked production marker. */
  function Chain(c: Config, bundle: nat, started: bool): seq<Event> {
    [HostAccepted(c), ReleaseArmed(c, bundle)] + if started then [ProductionStarted(c)] else []
  }

  predicate HostHistory(h: Host) {
    HostGate in h.markers && h.markers[HostGate].state == Validated ==>
      Subseq([HostAccepted(h.markers[HostGate].config)], Tail(h.log))
  }

  predicate ProductionHistory(h: Host) {
    ProductionGate in h.markers ==>
      var m := h.markers[ProductionGate];
      && m.state in {Armed, Started}
      && (m.lock == Some(false) ==>
          && m.bundle.Some?
          && LastInstalled(h.log) == Some(Installed(m.bundle.value, m.config, true, false))
          && Subseq(Chain(m.config, m.bundle.value, m.state == Started), Tail(h.log)))
  }

  predicate ReleaseHistory(h: Host) {
    ReleaseGate in h.markers ==>
      var m := h.markers[ReleaseGate];
      && m.production.Some? && m.production.value.bundle.Some?
      && LastInstalled(h.log) == Some(Installed(m.production.value.bundle.value, m.config, true, false))
      && Subseq(Chain(m.config, m.production.value.bundle.value, true) + [ReleaseAccepted(m.config)], Tail(h.log))
  }

  predicate JournalHistory(h: Host) {
    h.journal.Some? && h.journal.value.complete ==>
      var j := h.journal.value;
      LastInstalled(h.log) == Some(Installed(j.bundle, j.newConfig, j.calibrationReady, j.commissioningLock))
  }

  predicate MaintenanceCounts(h: Host) {
    Count(h.log, MaintenanceStarted) + (if MaintenanceGate in h.markers then 1 else 0)
      <= Count(h.log, MaintenanceArmed)
  }

  /** No printer control while the transfer channel is open; maintenance excludes production,
      except for an admission daemon restarted during the session. */
  predicate UnitsSafe(h: Host) {
    && (forall u :: u in h.active && u in NORMAL_PRINTER_UNITS ==> TransportClosed(h))
    && (KlipperMaintenance in h.active ==> Klipper !in h.active && Moonraker !in h.active)
    && (KlipperMaintenance in h.active && Admission in h.active ==> h.overlapped)
    && h.enabled <= ENABLEABLE
  }

  predicate Inv(h: Host) {
    && UnitsSafe(h) && HostHistory(h) && ProductionHistory(h) && ReleaseHistory(h)
    && JournalHistory(h) && MaintenanceCounts(h)
  }

  // ------------------------------------------------------- facts about the log

  lemma {:induction false} SubseqDropLast(p: seq<Event>, s: seq<Event>)
    requires Subseq(p, s) && p != []
    ensures Subseq(p[..|p| - 1], s)
  {
    var q := p[..|p| - 1];
    if q != [] {
      var s' := s[..|s| - 1];
      if p[|p| - 1] == s[|s| - 1] {
        if q[|q| - 1] == s[|s| - 1] { SubseqDropLast(q, s'); }
      } else {
        SubseqDropLast(p, s');
        if q[|q| - 1] == s[|s| - 1] { SubseqDropLast(q, s'); }
      }
    }
  }

  lemma SubseqAppend(p: seq<Event>, s: seq<Event>, e: Event)
    requires Subseq(p, s)
    ensures Subseq(p, s + [e]) && Subseq(p + [e], s + [e])
  {
    assert (s + [e])[..|s|] == s && (p + [e])[..|p|] == p;
    if p != [] && p[|p| - 1] == e { SubseqDropLast(p, s); }
  }

  lemma LogStep(log: seq<Event>, e: Event)
    ensures Tail(log + [e]) == if e.Installed? then [] else Tail(log) + [e]
    ensures LastInstalled(log + [e]) == if e.Installed? then Some(e) else LastInstalled(log)
    ensures forall x :: Count(log + [e], x) == Count(log, x) + if x == e then 1 else 0
  {
    assert (log + [e])[..|log|] == log;
  }

  /** Logging anything but an installation disturbs no history. */
  lemma LogKeeps(h: Host, e: Event)
    requires HostHistory(h) && ProductionHistory(h) && ReleaseHistory(h) && JournalHistory(h)
    requires !e.Installed?
    ensures
      var h' := Logged(h, e);
      HostHistory(h') && ProductionHistory(h') && ReleaseHistory(h') && JournalHistory(h')
  {
    LogStep(h.log, e);
    if HostGate in h.markers && h.markers[HostGate].state == Validated {
      SubseqAppend([HostAccepted(h.markers[HostGate].config)], Tail(h.log), e);
    }
    if ProductionGate in h.markers && h.markers[ProductionGate].lock == Some(false) {
      var m := h.markers[ProductionGate];
      SubseqAppend(Chain(m.config, m.bundle.value, m.state == Started), Tail(h.log), e);
    }
    if ReleaseGate in h.markers {
      var m := h.markers[ReleaseGate];
      var chain := Chain(m.config, m.production.value.bundle.value, true);
      SubseqAppend(chain + [ReleaseAccepted(m.config)], Tail(h.log), e);
    }
  }

  // -------------------------------------------------- steps keep the invariant

  lemma DropMarkerKeeps(h: Host, g: Gate)
    requires Inv(h)
    ensures Inv(WithoutMarker(h, g))
  {
  }

  lemma UnitsShrinkKeeps(h: Host, active: set<Unit>, enabled: set<Unit>)
    requires Inv(h) && active <= h.active && enabled <= ENABLEABLE
    ensures Inv(h.(active := active, enabled := enabled))
  {
  }

  /** The gate of a unit, and the stop of its conflicting units, are enough to run it safely. */
  lemma ActivateSafe(h: Host, u: Unit)
    requires UnitsSafe(h) && u != KlipperMaintenance && GateOpen(h, u)
    ensures UnitsSafe(Activated(h, u))
  {
    if u == Ssh {
      assert forall v :: v in h.active ==> v !in NORMAL_PRINTER_UNITS;
    } else if u in PRODUCTION_UNITS {
      assert TransportClosed(h);
    }
  }

  lemma MaintenanceSafe(h: Host)
    requires UnitsSafe(h) && MaintenanceGateOpen(h) && TransportClosed(h)
    ensures UnitsSafe(Activated(WithoutMarker(h, MaintenanceGate), KlipperMaintenance))
  {
    assert forall v :: v in h.active ==> v !in PRODUCTION_UNITS;
  }

  lemma MaintenanceRunKeeps(h: Host)
    requires Inv(h) && MaintenanceGateOpen(h) && TransportClosed(h)
    ensures Inv(Activated(WithoutMarker(h, MaintenanceGate), KlipperMaintenance))
  {
    var consumed := WithoutMarker(h, MaintenanceGate);
    MaintenanceSafe(h);
    LogKeeps(consumed, MaintenanceStarted);
    LogStep(h.log, MaintenanceStarted);
  }

  lemma StartKeeps(h: Host, h': Host, u: Unit)
    requires Inv(h) && StartStep(h, h', u)
    requires u == KlipperMaintenance ==> TransportClosed(h)
    ensures Inv(h')
  {
    if h' == h {
    } else if u != KlipperMaintenance {
      ActivateSafe(h, u);
    } else if h' == WithoutMarker(h, MaintenanceGate) {
      DropMarkerKeeps(h, MaintenanceGate);
    } else {
      MaintenanceRunKeeps(h);
    }
  }

  /** The gate of maintenance does not look at the transfer channel: started outside a command, it is
      safe exactly while the channel is closed. Every other start is safe. */
  lemma StartIsSafe(h: Host, h': Host, u: Unit)
    requires UnitsSafe(h) && StartStep(h, h', u)
    ensures UnitsSafe(h') <==> (u == KlipperMaintenance && KlipperMaintenance in h'.active ==> TransportClosed(h))
  {
    if h' != h && u != KlipperMaintenance {
      ActivateSafe(h, u);
    } else if h' != h && KlipperMaintenance in h'.active && TransportClosed(h) && KlipperMaintenance !in h.active {
      MaintenanceSafe(h);
    }
  }

  /** Maintenance and a production unit run together. */
  predicate Overlaps(h: Host) {
    KlipperMaintenance in h.active && (Admission in h.active || Klipper in h.active || Moonraker in h.active)
  }

  /** The one start that can bring them together. */
  lemma OnlyAdmissionOverlaps(h: Host, h': Host, u: Unit)
    requires StartStep(h, h', u) && h' != h && !Overlaps(h)
    ensures Overlaps(h') <==> u == Admission && KlipperMaintenance in h.active
  {
    if u == KlipperMaintenance {
      assert h'.active <= h.active + {u};
      assert Inactive(h, PRODUCTION_UNITS);
      assert Admission in PRODUCTION_UNITS && Klipper in PRODUCTION_UNITS && Moonraker in PRODUCTION_UNITS;
    } else {
      assert h'.active == h.active - Conflicts(u) + {u};
    }
  }

  lemma ConfigKeeps(h: Host, c: Config)
    requires Inv(h)
    ensures Inv(h.(config := c))
  {
  }

  /** Writing a marker that carries no history: host testing, storage, transport. */
  lemma PlainMarkerKeeps(h: Host, g: Gate, m: Marker)
    requires Inv(h)
    requires g == StorageGate || (g == HostGate && m.state == Testing)
      || (g == TransportGate && Inactive(h, NORMAL_PRINTER_UNITS))
    ensures Inv(WithMarker(h, g, m))
  {
  }

  lemma HostAcceptKeeps(h: Host, m: Marker)
    requires Inv(h) && m.state == Validated
    ensures Inv(WithMarker(Logged(h, HostAccepted(m.config)), HostGate, m))
  {
    var e := HostAccepted(m.config);
    LogKeeps(h, e);
    LogStep(h.log, e);
    SubseqAppend([], Tail(h.log), e);
    assert [] + [e] == [e];
  }

  lemma LockedArmKeeps(h: Host, m: Marker)
    requires Inv(h) && m.state == Armed && m.lock == Some(true)
    ensures Inv(WithMarker(Logged(h, LockedArmed(m.config)), ProductionGate, m))
  {
    LogKeeps(h, LockedArmed(m.config));
    LogStep(h.log, LockedArmed(m.config));
  }

  lemma ReleaseArmKeeps(h: Host, m: Marker)
    requires Inv(h) && ReadsAs(h, HostGate, Validated) && m.config == h.config && m.state == Armed
    requires m.lock == Some(false) && m.bundle.Some?
    requires LastInstalled(h.log) == Some(Installed(m.bundle.value, m.config, true, false))
    ensures Inv(WithMarker(Logged(h, ReleaseArmed(m.config, m.bundle.value)), ProductionGate, m))
  {
    var e := ReleaseArmed(m.config, m.bundle.value);
    LogKeeps(h, e);
    LogStep(h.log, e);
    SubseqAppend([HostAccepted(m.config)], Tail(h.log), e);
    assert [HostAccepted(m.config)] + [e] == Chain(m.config, m.bundle.value, false);
  }

  lemma StartedKeeps(h: Host)
    requires Inv(h) && ReadsAs(h, ProductionGate, Armed)
    ensures Inv(WithMarker(Logged(h, ProductionStarted(h.config)), ProductionGate,
                           h.markers[ProductionGate].(state := Started)))
  {
    var e, m := ProductionStarted(h.config), h.markers[ProductionGate];
    LogKeeps(h, e);
    LogStep(h.log, e);
    if m.lock == Some(false) {
      SubseqAppend(Chain(m.config, m.bundle.value, false), Tail(h.log), e);
      assert Chain(m.config, m.bundle.value, false) + [e] == Chain(m.config, m.bundle.value, true);
    }
  }

  /** A failed start puts the armed marker back. */
  lemma RearmKeeps(h: Host)
    requires Inv(h) && ProductionGate in h.markers && h.markers[ProductionGate].state == Started
    ensures Inv(WithMarker(h, ProductionGate, h.markers[ProductionGate].(state := Armed)))
  {
    var m := h.markers[ProductionGate];
    if m.lock == Some(false) {
      SubseqDropLast(Chain(m.config, m.bundle.value, true), Tail(h.log));
      assert Chain(m.config, m.bundle.value, true)[..2] == Chain(m.config, m.bundle.value, false);
    }
  }

  lemma ReleaseAcceptKeeps(h: Host)
    requires Inv(h) && ReadsAs(h, ProductionGate, Started) && h.markers[ProductionGate].lock == Some(false)
    ensures
      var m := Marker(Validated, h.candidate, h.config, None, None, Some(DigestOf(h.markers[ProductionGate])));
      Inv(WithMarker(Logged(h, ReleaseAccepted(h.config)), ReleaseGate, m))
  {
    var e, m := ReleaseAccepted(h.config), h.markers[ProductionGate];
    LogKeeps(h, e);
    LogStep(h.log, e);
    SubseqAppend(Chain(m.config, m.bundle.value, true), Tail(h.log), e);
  }

  lemma MaintenanceArmKeeps(h: Host, m: Marker)
    requires Inv(h)
    ensures Inv(WithMarker(Logged(h, MaintenanceArmed), MaintenanceGate, m))
  {
    LogKeeps(h, MaintenanceArmed);
    LogStep(h.log, MaintenanceArmed);
  }
}
