/** The configuration swap (apply_bundle in t300_mainline/config_deploy.py): backup, build,
    atomic exchange, rename, journal, and rollback, any of which can fail, as a schedule says. */
module ConfigDeploy {
  import opened Wrappers
  import opened CandidateState
  import opened Commissioning

  /** A directory tree like /etc/t300: configuration files and commissioning markers. A copy
      that stopped half-way is Partial. */
  datatype Tree = Whole(config: Config, markers: map<Gate, Marker>) | Partial

  /** .t300-next-<pid> and .t300-previous-<digest> beside /etc/t300. */
  datatype Place = Next(pid: nat) | Previous(of: Config)

  /** A bundle as its manifest describes it; `verified` is the outcome of unpacking and checking it,
      `quarantined` says that it was read from the upload quarantine. */
  datatype Bundle = Bundle(verified: bool, sha: nat, baseCandidate: nat, baseConfig: Config,
                           newConfig: Config, calibrationReady: bool, commissioningLock: bool, quarantined: bool)

  const REQUIRED_IDLE_CHECKS: set<string> := {
    "owner_at_printer", "printer_idle", "hotend_target_zero", "bed_target_zero",
    "hotend_below_50c", "bed_below_50c", "normal_services_stopped"}

  /** Error: an exception between the opening and the completion of the journal. LateError: one after it. */
  datatype Deployment = Previewed | Refused | Applied | Error | LateError

  /** How far a copy of a tree gets. */
  datatype Copy = NotBegun | HalfWay | Complete

  /** Removing the upload: it works; it is refused, which is only a warning; or an operating system
      error escapes, before or after the file is gone. */
  datatype Removal = Removed | NotRemoved | Escapes(gone: bool)

  /** What every operation of one call does, in the order in which they come: the questions of the
      guard; the free space and the opening of the journal; the backup, its check and the journal; the
      next tree, its check and the journal; the exchange and its check; the rename of the old tree; the
      completion of the journal; the removal of the upload and the journal after it; and on an error the
      exchange back, the failure note in the journal and the removal of an unused next tree. */
  datatype Schedule = Schedule(
    asks: bool, space: bool, opens: bool,
    backup: Copy, same: bool, notesBuild: bool,
    next: Copy, checked: bool, notesExchange: bool,
    exchanges: bool, verified: bool, renames: bool, completes: bool,
    removal: Removal, notesRemoval: bool,
    exchangesBack: bool, notesFailure: bool, cleans: bool)

  predicate Builds(s: Schedule) {
    && s.backup.Complete? && s.same && s.notesBuild
    && s.next.Complete? && s.checked && s.notesExchange
  }

  /** The first exchange takes effect. */
  predicate Exchanges(s: Schedule) { Builds(s) && s.exchanges }

  /** Everything up to the completing journal write works. */
  predicate Completes(s: Schedule) { Exchanges(s) && s.verified && s.completes }

  /** A step after the first exchange fails, and so does the exchange back. */
  predicate RollbackFails(s: Schedule) { Exchanges(s) && !Completes(s) && !s.exchangesBack }

  /** The removal of the upload is reached, and lets an error escape. */
  predicate RemovalEscapes(b: Bundle, s: Schedule) { b.quarantined && Completes(s) && s.removal.Escapes? }

  /** _update_next_markers: four gates close, storage is rebound to the new configuration. */
  function NextMarkers(markers: map<Gate, Marker>, b: Bundle): map<Gate, Marker> {
    map g | g in markers && g !in {HostGate, ProductionGate, TransportGate, ReleaseGate} ::
      if g == StorageGate then markers[g].(config := b.newConfig, bundle := Some(b.sha)) else markers[g]
  }

  function NewTree(markers: map<Gate, Marker>, b: Bundle): Tree { Whole(b.newConfig, NextMarkers(markers, b)) }

  function Opened(candidate: nat, b: Bundle): Journal {
    Journal(false, candidate, b.newConfig, b.calibrationReady, b.commissioningLock, b.sha)
  }

  function InstalledEvent(b: Bundle): Event {
    Installed(b.sha, b.newConfig, b.calibrationReady, b.commissioningLock)
  }

  lemma OpenJournalKeeps(h: Host, j: Journal)
    requires Inv(h) && !j.complete
    ensures Inv(h.(journal := Some(j)))
  {
  }

  /** The new tree in place of the old one. */
  function Swapped(h: Host, b: Bundle, j: Journal): Host {
    Logged(h.(config := b.newConfig, markers := NextMarkers(h.markers, b), journal := Some(j)), InstalledEvent(b))
  }

  /** The new tree on its own carries no authority, whatever the log says. */
  lemma SwapKeeps(h: Host, b: Bundle, j: Journal)
    requires Inv(h) && Inactive(h, NORMAL_PRINTER_UNITS) && MaintenanceGate !in h.markers
    requires j == Opened(h.candidate, b) || j == Opened(h.candidate, b).(complete := true)
    ensures Inv(Swapped(h, b, j))
  {
    LogStep(h.log, InstalledEvent(b));
  }

  /** How an attempt ends, and the candidate after it. */
  function Ending(b: Bundle, s: Schedule): Deployment {
    if !Completes(s) then Error else if RemovalEscapes(b, s) then LateError else Applied
  }

  function After(h: Host, b: Bundle, s: Schedule): Host {
    var j := Opened(h.candidate, b);
    if Completes(s) then Swapped(h, b, if RemovalEscapes(b, s) && s.notesFailure then j else j.(complete := true))
    else if RollbackFails(s) then Swapped(h, b, j)
    else h.(journal := Some(j))
  }

  lemma AfterKeeps(h: Host, b: Bundle, s: Schedule)
    requires Inv(h) && Inactive(h, NORMAL_PRINTER_UNITS) && MaintenanceGate !in h.markers
    ensures Inv(After(h, b, s))
  {
    var j := Opened(h.candidate, b);
    if Completes(s) {
      SwapKeeps(h, b, if RemovalEscapes(b, s) && s.notesFailure then j else j.(complete := true));
    } else if RollbackFails(s) {
      SwapKeeps(h, b, j);
    } else {
      OpenJournalKeeps(h, j);
    }
  }

  function TreeOf(h: Host): Tree { Whole(h.config, h.markers) }

  /** The new tree is installed: it is the tree, and the log says so. */
  predicate NewInstalled(h: Host, b: Bundle, h': Host) {
    TreeOf(h') == NewTree(h.markers, b) && h'.log == h.log + [InstalledEvent(b)]
  }

  predicate OldInstalled(h: Host, h': Host) { TreeOf(h') == TreeOf(h) && h'.log == h.log }

  /** What an attempt means, for every schedule: the installed tree is wholly old or wholly new; it is
      the new one exactly if the journal was completed, or the rollback exchange failed; and a
      journal that says "complete" means that the new tree is installed with its gates closed. */
  lemma DeploymentOutcomes(h: Host, b: Bundle, s: Schedule)
    ensures
      var h' := After(h, b, s);
      && (if Completes(s) || RollbackFails(s) then NewInstalled(h, b, h') else OldInstalled(h, h'))
      && (h'.journal.value.complete <==> Completes(s) && !(RemovalEscapes(b, s) && s.notesFailure))
      && (h'.journal.value.complete ==>
            && h'.config == b.newConfig && h'.journal.value.newConfig == b.newConfig
            && h'.markers.Keys !! {HostGate, ProductionGate, TransportGate, ReleaseGate})
      && h'.active == h.active && h'.enabled == h.enabled
  {
  }

  /** The call raises, and the new tree is installed without the rollback exchange having failed. */
  predicate StrandsNewTree(h: Host, b: Bundle, s: Schedule) {
    !Ending(b, s).Applied? && !RollbackFails(s) && !OldInstalled(h, After(h, b, s))
  }

  /** "An error leaves the old tree installed unless the rollback exchange itself failed" holds, for
      all schedules, exactly of the bundles that are not read from the upload quarantine. */
  lemma ErrorMeansOldTree(h: Host, b: Bundle)
    ensures (forall s :: !StrandsNewTree(h, b, s)) <==> !b.quarantined
  {
    assert RemovalEscapes(b, REMOVAL_ESCAPES) <==> b.quarantined;
    if b.quarantined { assert StrandsNewTree(h, b, REMOVAL_ESCAPES); }
  }

  /** Everything works until the descriptor of the removed upload is closed. */
  const REMOVAL_ESCAPES := Schedule(true, true, true, Complete, true, true, Complete, true, true,
                                    true, true, true, true, Escapes(true), true, true, false, true)

  // A candidate with one trusted, unlocked configuration, and an upload that locks it.
  const UNLOCKED := Config(0, false, true)
  const LOCKED := Config(1, true, false)
  const PLAIN_HOST := Host(0, UNLOCKED, map[], {}, {}, None, [], false)
  const UPLOAD := Bundle(true, 7, 0, UNLOCKED, LOCKED, true, true, true)
  const IDLE := Evidence(true, 0, UNLOCKED, REQUIRED_IDLE_CHECKS, 0)

  /** It does happen: the call may be made, it ends as an error, and the new tree is installed; the
      journal even says so. */
  lemma LateErrorRun()
    ensures Inv(PLAIN_HOST) && MayDeploy(PLAIN_HOST, UPLOAD, IDLE)
    ensures Ending(UPLOAD, REMOVAL_ESCAPES) == LateError && !RollbackFails(REMOVAL_ESCAPES)
    ensures
      var h' := After(PLAIN_HOST, UPLOAD, REMOVAL_ESCAPES);
      h'.config == LOCKED && h'.config != PLAIN_HOST.config && h'.journal.value.complete
  {
  }

  predicate IdleEvidenceOk(h: Host, ev: Evidence) { RecentEvidenceOk(h, ev, REQUIRED_IDLE_CHECKS) }

  /** Everything apply_bundle checks about the candidate before it opens the journal. */
  predicate MayDeploy(h: Host, b: Bundle, ev: Evidence) {
    && b.verified && b.baseCandidate == h.candidate && b.baseConfig == h.config
    && Inactive(h, HOST_UNITS + NORMAL_PRINTER_UNITS + {Ssh})
    && MaintenanceGate !in h.markers && TransportGate !in h.markers
    && IdleEvidenceOk(h, ev)
  }

  predicate Attempted(o: Deployment) { o.Applied? || o.Error? || o.LateError? }

  /** What one apply_bundle call does to the candidate; `clear` says that no other tree or backup is in
      its way. */
  predicate DeployStep(h: Host, b: Bundle, ev: Evidence, r: Request, s: Schedule, clear: bool,
                       o: Deployment, h': Host)
  {
    && (o.Previewed? <==> MayDeploy(h, b, ev) && s.asks && !r.apply)
    && (Attempted(o) <==>
          MayDeploy(h, b, ev) && s.asks && r.apply && r.confirmed && r.live && clear && s.space && s.opens)
    && if Attempted(o) then o == Ending(b, s) && h' == After(h, b, s) else h' == h
  }

  /** The same, whatever stands beside the tree. */
  predicate ApplyBundleStep(h: Host, b: Bundle, ev: Evidence, r: Request, s: Schedule, o: Deployment, h': Host) {
    DeployStep(h, b, ev, r, s, true, o, h') || DeployStep(h, b, ev, r, s, false, o, h')
  }

  /** The backups, with the one named `stamp` as far as it got. */
  function BackedUp(backups: map<nat, Tree>, stamp: nat, tree: Tree, copy: Copy): map<nat, Tree> {
    match copy
    case NotBegun => backups
    case HalfWay => backups[stamp := Partial]
    case Complete => backups[stamp := tree]
  }

  /** What stands beside the installed tree after an attempt. An unused next tree goes if it can be
      removed; after an exchange the tree that is not installed is kept, under the name of the old one if
      it was renamed. */
  function Beside(trees: map<Place, Tree>, next: Place, previous: Place, h: Host, b: Bundle, s: Schedule):
    map<Place, Tree>
  {
    if Exchanges(s) then
      trees[(if s.verified && s.renames then previous else next) :=
        if Completes(s) || RollbackFails(s) then TreeOf(h) else NewTree(h.markers, b)]
    else
      var begun := s.backup.Complete? && s.same && s.notesBuild && !s.next.NotBegun?;
      if begun && !s.cleans then trees[next := Partial] else trees
  }

  /** The renameat2 calls of an attempt, and whether each took effect. */
  function ExchangeCalls(s: Schedule): seq<bool> {
    if !Builds(s) then []
    else if !s.exchanges then [false]
    else if Completes(s) then [true]
    else [true, s.exchangesBack]
  }

  /** The file system around one candidate's /etc/t300. */
  class Deployer {
    const controller: CandidateController
    var others: map<Place, Tree>
    var backups: map<nat, Tree>
    /** The upload in quarantine, by its digest. */
    var quarantine: Option<nat>
    /** The renameat2 calls so far, and whether each took effect. */
    ghost var exchanges: seq<bool>

    constructor (controller: CandidateController, quarantine: Option<nat>)
      ensures this.controller == controller && this.quarantine == quarantine
      ensures others == map[] && backups == map[] && exchanges == []
    {
      this.controller, this.quarantine := controller, quarantine;
      others, backups, exchanges := map[], map[], [];
    }

    function Installed(): Tree reads controller { Whole(controller.config, controller.markers) }

    /** No other tree or backup is in the way of a call. */
    predicate Clear(pid: nat, stamp: nat) reads this, controller {
      Next(pid) !in others && Previous(controller.config) !in others && stamp !in backups
    }

    /** renameat2(RENAME_EXCHANGE) of /etc/t300 and another place: both or neither. */
    method Exchange(place: Place, works: bool) returns (ok: bool)
      requires place in others && others[place].Whole?
      modifies this`others, this`exchanges, controller`config, controller`markers
      ensures ok == works && exchanges == old(exchanges) + [works]
      ensures ok ==> Installed() == old(others)[place] && others == old(others)[place := old(Installed())]
      ensures !ok ==> Installed() == old(Installed()) && others == old(others)
    {
      ok, exchanges := works, exchanges + [works];
      if ok {
        var there := others[place];
        others := others[place := Installed()];
        controller.config, controller.markers := there.config, there.markers;
      }
    }

    method WriteJournal(j: Journal, works: bool) returns (ok: bool)
      modifies controller`journal
      ensures ok == works && controller.journal == if works then Some(j) else old(controller.journal)
    {
      ok := works;
      if ok { controller.journal := Some(j); }
    }

    /** Phase "backup": the installed tree is copied, and must still be the one it was. */
    method BackUp(stamp: nat, j: Journal, s: Schedule) returns (ok: bool)
      requires stamp !in backups && controller.journal == Some(j)
      modifies this`backups, controller`journal
      ensures ok <==> s.backup.Complete? && s.same && s.notesBuild
      ensures backups == BackedUp(old(backups), stamp, Installed(), s.backup)
      ensures controller.journal == Some(j)
    {
      match s.backup {
        case NotBegun => return false;
        case HalfWay => backups := backups[stamp := Partial]; return false;
        case Complete => backups := backups[stamp := Installed()];
      }
      if !s.same { return false; }
      ok := WriteJournal(j, s.notesBuild);
    }

    /** Phases "backup" and "build-next-tree": on success the complete next tree stands at `next`. */
    method Build(b: Bundle, next: Place, stamp: nat, j: Journal, s: Schedule) returns (ok: bool)
      requires next !in others && stamp !in backups && controller.journal == Some(j)
      modifies this`others, this`backups, controller`journal
      ensures ok <==> Builds(s)
      ensures ok ==> others == old(others)[next := NewTree(controller.markers, b)]
      ensures !ok ==> others - {next} == old(others)
      ensures next in others <==> s.backup.Complete? && s.same && s.notesBuild && !s.next.NotBegun?
      ensures backups == BackedUp(old(backups), stamp, Installed(), s.backup)
      ensures controller.journal == Some(j)
    {
      ok := BackUp(stamp, j, s);
      if !ok { return; }
      match s.next {
        case NotBegun => return false;
        case HalfWay => others := others[next := Partial]; return false;
        case Complete => others := others[next := NewTree(controller.markers, b)];
      }
      if !s.checked { return false; }
      ok := WriteJournal(j, s.notesExchange);
    }

    /** The finally block: a next tree that is nobody's old tree is removed, if it can be. */
    method RemoveNext(next: Place, s: Schedule)
      modifies this`others
      ensures others == if s.cleans || next !in old(others) then old(others) - {next} else old(others)[next := Partial]
    {
      if next in others {
        others := if s.cleans then others - {next} else others[next := Partial];
      }
    }

    /** The tree is still there: installed, or beside the installed one. */
    ghost predicate Keeps(tree: Tree) reads this, controller {
      Installed() == tree || exists place :: place in others && others[place] == tree
    }

    method ApplyBundle(b: Bundle, ev: Evidence, r: Request, s: Schedule, pid: nat, stamp: nat) returns (o: Deployment)
      requires controller.Valid()
      modifies this, controller
      ensures controller.Valid()
      ensures DeployStep(old(controller.Now()), b, ev, r, s, old(Clear(pid, stamp)), o, controller.Now())
      ensures exchanges == old(exchanges) + if Attempted(o) then ExchangeCalls(s) else []
      // the old tree is somewhere, and nobody else's tree was touched
      ensures Keeps(old(Installed()))
      ensures others == if Attempted(o) then
          old(Beside(others, Next(pid), Previous(controller.config), controller.Now(), b, s)) else old(others)
      ensures forall place :: place in old(others) ==> place in others && others[place] == old(others)[place]
      ensures Attempted(o) ==>
        old(Clear(pid, stamp)) && backups == BackedUp(old(backups), stamp, old(Installed()), s.backup)
      ensures !Attempted(o) ==> backups == old(backups)
      // only this upload is ever removed, and only after completion
      ensures quarantine == if Attempted(o) && UploadGoes(b, s, old(quarantine)) then None else old(quarantine)
    {
      if !MayDeploy(controller.Current(), b, ev) || !s.asks { return Deployment.Refused; }
      if !r.apply { return Deployment.Previewed; }
      if !r.live || !r.confirmed || !Clear(pid, stamp) || !s.space { return Deployment.Refused; }
      var next, previous := Next(pid), Previous(controller.config);
      ghost var h := controller.Now();
      var j := Opened(controller.candidate, b);
      var begun := WriteJournal(j, s.opens);
      if !begun { return Deployment.Refused; }
      o := Attempt(b, j, next, previous, stamp, s, h);
      AfterKeeps(h, b, s);
    }

    /** The try block, once the journal is open. */
    method Attempt(b: Bundle, j: Journal, next: Place, previous: Place, stamp: nat, s: Schedule, ghost h: Host)
      returns (o: Deployment)
      requires controller.Now() == h.(journal := Some(j)) && j == Opened(h.candidate, b)
      requires next != previous && next !in others && previous !in others && stamp !in backups
      modifies this, controller
      ensures o == Ending(b, s) && controller.Now() == After(h, b, s)
      ensures exchanges == old(exchanges) + ExchangeCalls(s)
      ensures Keeps(TreeOf(h)) && others == Beside(old(others), next, previous, h, b, s)
      ensures backups == BackedUp(old(backups), stamp, TreeOf(h), s.backup)
      ensures quarantine == if UploadGoes(b, s, old(quarantine)) then None else old(quarantine)
    {
      var built := Build(b, next, stamp, j, s);
      if !built {
        RemoveNext(next, s);
        return Error;
      }
      var exchanged := Exchange(next, s.exchanges);
      if !exchanged {
        RemoveNext(next, s);
        return Error;
      }
      assert others - {next} == old(others);
      o := Finish(b, j, next, previous, s, h, old(others));
    }

    /** After the exchange: rename the old tree, close the journal, or roll back. */
    method Finish(b: Bundle, j: Journal, next: Place, previous: Place, s: Schedule,
                  ghost h: Host, ghost trees: map<Place, Tree>)
      returns (o: Deployment)
      requires controller.Now() == h.(config := b.newConfig, markers := NextMarkers(h.markers, b), journal := Some(j))
      requires j == Opened(h.candidate, b) && next != previous && next !in trees && previous !in trees
      requires others == trees[next := TreeOf(h)] && Exchanges(s)
      modifies this`others, this`quarantine, this`exchanges, controller
      ensures o == Ending(b, s) && controller.Now() == After(h, b, s)
      ensures exchanges == old(exchanges) + if Completes(s) then [] else [s.exchangesBack]
      ensures Keeps(TreeOf(h)) && others == Beside(trees, next, previous, h, b, s)
      ensures quarantine == if UploadGoes(b, s, old(quarantine)) then None else old(quarantine)
    {
      var partner := next;
      if s.verified {
        partner := RenameOld(next, previous, s.renames, h, trees);
        var closed := WriteJournal(j.(complete := true), s.completes);
        if closed {
          o := Completed(b, j, partner, s, h);
          return;
        }
      }
      RollBack(b, j, partner, s, h);
      o := Error;
    }

    /** The journal is complete: the installation has happened. */
    method Completed(b: Bundle, j: Journal, partner: Place, s: Schedule, ghost h: Host) returns (o: Deployment)
      requires j == Opened(h.candidate, b) && partner in others && others[partner] == TreeOf(h) && Completes(s)
      requires controller.Now() == h.(config := b.newConfig, markers := NextMarkers(h.markers, b),
                                      journal := Some(j.(complete := true)))
      modifies this`quarantine, controller`journal, controller`log
      ensures o == Ending(b, s) && controller.Now() == After(h, b, s) && Keeps(TreeOf(h))
      ensures quarantine == if UploadGoes(b, s, old(quarantine)) then None else old(quarantine)
    {
      controller.log := controller.log + [InstalledEvent(b)];
      o := ConsumeUpload(b, j, s);
      assert others[partner] == TreeOf(h);
    }

    /** The upload in quarantine is the applied one, and its removal takes effect. */
    predicate UploadGoes(b: Bundle, s: Schedule, upload: Option<nat>) {
      b.quarantined && Completes(s) && upload == Some(b.sha) && (s.removal.Removed? || s.removal == Escapes(true))
    }

    /** After completion: remove the upload this bundle came from. A refusal to remove it is only a
        warning; an error that escapes reaches the except block, which has nothing to roll back. */
    method ConsumeUpload(b: Bundle, j: Journal, s: Schedule) returns (o: Deployment)
      requires controller.journal == Some(j.(complete := true)) && !j.complete && Completes(s)
      modifies this`quarantine, controller`journal
      ensures o == if b.quarantined && s.removal.Escapes? then LateError else Applied
      ensures controller.journal == Some(if o.LateError? && s.notesFailure then j else j.(complete := true))
      ensures quarantine == if UploadGoes(b, s, old(quarantine)) then None else old(quarantine)
    {
      if !b.quarantined { return Applied; }
      if quarantine == Some(b.sha) && (s.removal.Removed? || s.removal == Escapes(true)) { quarantine := None; }
      if s.removal.Escapes? {
        var _ := WriteJournal(j, s.notesFailure);
        return LateError;
      }
      var _ := WriteJournal(j.(complete := true), s.notesRemoval);
      o := Applied;
    }

    /** The except block: exchange the trees back, and note the failure in the journal. */
    method RollBack(b: Bundle, j: Journal, partner: Place, s: Schedule, ghost h: Host)
      requires controller.Now() == h.(config := b.newConfig, markers := NextMarkers(h.markers, b), journal := Some(j))
      requires j == Opened(h.candidate, b) && partner in others && others[partner] == TreeOf(h)
      requires Exchanges(s) && !Completes(s)
      modifies this`others, this`exchanges, controller
      ensures controller.Now() == After(h, b, s) && exchanges == old(exchanges) + [s.exchangesBack]
      ensures Keeps(TreeOf(h))
      ensures others == old(others)[partner := if s.exchangesBack then NewTree(h.markers, b) else TreeOf(h)]
    {
      var back := Exchange(partner, s.exchangesBack);
      var _ := WriteJournal(j, s.notesFailure);
      if !back {
        controller.log := controller.log + [InstalledEvent(b)];
        assert others[partner] == TreeOf(h);
      }
    }

    /** os.rename of the old tree to its retained name; a failure only earns a warning. */
    method RenameOld(next: Place, previous: Place, works: bool, ghost h: Host, ghost trees: map<Place, Tree>)
      returns (partner: Place)
      requires next != previous && next !in trees && previous !in trees && others == trees[next := TreeOf(h)]
      modifies this`others
      ensures partner == if works then previous else next
      ensures others == trees[partner := TreeOf(h)]
    {
      partner := next;
      if works {
        others := (others - {next})[previous := others[next]];
        partner := previous;
      }
    }
  }
}
