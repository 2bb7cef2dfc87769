/** The object queries and status replies of t300_mainline/touchscreen_policy.py. */
module Touchscreen {
  import opened Wrappers

  datatype Json = Number(value: real) | Array(items: seq<Json>) | Object(members: map<string, Json>)
                | Text(text: string) | OtherJson

  /** Printer objects by name, as a reply reports them. */
  type Status = map<string, Json>

  /** OBJECT_ALIASES: the bridge's name and the name the printer knows. */
  const ALIASES: seq<(string, string)> := [
    ("filament_switch_sensor my_sensor", "filament_switch_sensor filament_runout"),
    ("heater_fan fan1", "heater_fan hotend_fan"),
    ("heater_fan my_nozzle_fan1", "heater_fan hotend_fan")]

  const SYNTHETIC_OBJECTS: seq<string> := [
    "output_pin caselight", "output_pin fan0", "output_pin fan2", "output_pin sound"]

  const SYNTHETIC_VALUE := Object(map["value" := Number(0.0)])

  const ALLOWED_OBJECTS: set<string> := {
    "bed_mesh", "configfile", "display_status", "extruder", "fan", "filament_switch_sensor filament_runout",
    "firmware_retraction", "gcode_move", "heater_bed", "heater_fan hotend_fan", "idle_timeout",
    "pause_resume", "print_stats", "probe", "toolhead", "webhooks"}

  predicate IsSynthetic(name: string) { name in SYNTHETIC_OBJECTS }

  predicate IsAlias(name: string) { name == ALIASES[0].0 || name == ALIASES[1].0 || name == ALIASES[2].0 }

  function Upstream(name: string): string {
    if name == ALIASES[0].0 then ALIASES[0].1
    else if name == ALIASES[1].0 || name == ALIASES[2].0 then ALIASES[1].1
    else name
  }

  /** No upstream name is itself an alias or synthetic, no synthetic name is an alias, and neither kind
      touches the two objects that replies are edited for. */
  lemma NamesAreDistinct()
    ensures forall i :: 0 <= i < 3 ==> !IsAlias(ALIASES[i].1) && !IsSynthetic(ALIASES[i].1)
    ensures forall k :: IsSynthetic(k) ==> !IsAlias(k) && k != "toolhead" && k != "configfile"
    ensures forall k :: IsAlias(k) ==> k != "toolhead" && k != "configfile"
  {
    assert ALIASES[1].0[0] == 'h' && SYNTHETIC_OBJECTS[1][0] == 'o' && SYNTHETIC_OBJECTS[2][0] == 'o';
  }

  // --------------------------------------------------------------- requests

  /** What a query asks of one object: every field, the listed ones, or something that is neither
      null nor a list of strings. */
  datatype Fields = All | Listed(names: seq<string>) | Malformed

  predicate Asks(fields: Fields, f: string) { fields.All? || (fields.Listed? && f in fields.names) }

  predicate WellFormed(fields: Fields) {
    fields.All? ||
    (fields.Listed? && |fields.names| <= 64 &&
     forall i :: 0 <= i < |fields.names| ==> 1 <= |fields.names[i]| <= 128)
  }

  /** The elements in order of first occurrence. */
  function Dedupe(s: seq<string>): (r: seq<string>)
    ensures forall f :: f in r <==> f in s
    ensures forall i, j :: 0 <= i < j < |r| ==> r[i] != r[j]
  {
    if s == [] then []
    else
      var front := Dedupe(s[..|s| - 1]);
      var last := s[|s| - 1];
      assert s == s[..|s| - 1] + [last];
      if last in front then front else front + [last]
  }

  function MergeFields(existing: Fields, incoming: Fields): (r: Fields)
    requires !existing.Malformed? && !incoming.Malformed?
    ensures !r.Malformed? && (r.All? <==> existing.All? || incoming.All?)
    ensures forall f :: Asks(r, f) <==> Asks(existing, f) || Asks(incoming, f)
    ensures r.Listed? ==> forall i, j :: 0 <= i < j < |r.names| ==> r.names[i] != r.names[j]
  {
    if existing.All? || incoming.All? then All else Listed(Dedupe(existing.names + incoming.names))
  }

  /** One entry of the objects dictionary that the policy lets through. */
  predicate Reviewed(o: (string, Fields)) {
    IsSynthetic(o.0) || (Upstream(o.0) in ALLOWED_OBJECTS && WellFormed(o.1))
  }

  predicate FoldsOnto(o: (string, Fields), k: string) { !IsSynthetic(o.0) && Upstream(o.0) == k }

  predicate AskedBy(o: (string, Fields), k: string, f: string) { FoldsOnto(o, k) && Asks(o.1, f) }

  /** Fields asks for exactly what the requests folded onto k ask for together. */
  ghost predicate IsUnion(objects: seq<(string, Fields)>, k: string, fields: Fields) {
    && !fields.Malformed?
    && (fields.All? <==> exists o :: o in objects && FoldsOnto(o, k) && o.1.All?)
    && (forall f :: Asks(fields, f) <==> exists o :: o in objects && AskedBy(o, k, f))
  }

  ghost predicate IsFolding(objects: seq<(string, Fields)>, query: map<string, Fields>) {
    && (forall k :: k in query <==> exists o :: o in objects && FoldsOnto(o, k))
    && (forall k :: k in query ==> IsUnion(objects, k, query[k]))
  }

  lemma FoldOne(objects: seq<(string, Fields)>, query: map<string, Fields>, o: (string, Fields))
    requires IsFolding(objects, query) && Reviewed(o) && !IsSynthetic(o.0)
    ensures
      var k := Upstream(o.0);
      IsFolding(objects + [o], query[k := if k in query then MergeFields(query[k], o.1) else o.1])
  {
    var k := Upstream(o.0);
    var more := objects + [o];
    var query' := query[k := if k in query then MergeFields(query[k], o.1) else o.1];
    assert forall p :: p in more <==> p in objects || p == o;
    assert o in more && FoldsOnto(o, k);
    forall j | j in query' ensures IsUnion(more, j, query'[j]) {
      if j in query { assert IsUnion(objects, j, query[j]); }
      forall f ensures Asks(query'[j], f) <==> exists p :: p in more && AskedBy(p, j, f) {
        if j in query && Asks(query[j], f) {
          var p :| p in objects && AskedBy(p, j, f);
          assert p in more;
        }
        if j == k && Asks(o.1, f) { assert AskedBy(o, j, f); }
        if p :| p in more && AskedBy(p, j, f) {
          if p in objects { assert FoldsOnto(p, j); }
        }
      }
      if j in query && query[j].All? {
        var p :| p in objects && FoldsOnto(p, j) && p.1.All?;
        assert p in more;
      }
    }
    forall j ensures j in query' <==> exists p :: p in more && FoldsOnto(p, j) {
      if j in query {
        var p :| p in objects && FoldsOnto(p, j);
        assert p in more;
      }
    }
  }

  lemma SkipSynthetic(objects: seq<(string, Fields)>, query: map<string, Fields>, o: (string, Fields))
    requires IsFolding(objects, query) && IsSynthetic(o.0)
    ensures IsFolding(objects + [o], query)
  {
    var more := objects + [o];
    assert forall p :: p in more <==> p in objects || p == o;
    forall k | k in query ensures IsUnion(more, k, query[k]) {
      assert IsUnion(objects, k, query[k]);
      forall f ensures Asks(query[k], f) <==> exists p :: p in more && AskedBy(p, k, f) {
        if Asks(query[k], f) {
          var p :| p in objects && AskedBy(p, k, f);
          assert p in more;
        }
      }
      if query[k].All? {
        var p :| p in objects && FoldsOnto(p, k) && p.1.All?;
        assert p in more;
      }
    }
    forall k ensures k in query <==> exists p :: p in more && FoldsOnto(p, k) {
      if k in query {
        var p :| p in objects && FoldsOnto(p, k);
        assert p in more;
      }
    }
  }

  predicate AllReviewed(objects: seq<(string, Fields)>) { forall o :: o in objects ==> Reviewed(o) }

  lemma ReviewedStep(objects: seq<(string, Fields)>, i: nat)
    requires i < |objects| && AllReviewed(objects[..i])
    ensures AllReviewed(objects[..i + 1]) <==> Reviewed(objects[i])
    ensures !Reviewed(objects[i]) ==> !AllReviewed(objects)
  {
    assert objects[..i + 1] == objects[..i] + [objects[i]];
    assert objects[i] in objects[..i + 1] && objects[i] in objects;
  }

  /** The checks on one entry. */
  method ReviewEntry(o: (string, Fields)) returns (ok: bool)
    ensures ok <==> Reviewed(o)
  {
    if IsSynthetic(o.0) { return true; }
    if Upstream(o.0) !in ALLOWED_OBJECTS { return false; }
    ok := WellFormed(o.1);
  }

  /** One entry that passed the review: left out if synthetic, else added or merged. */
  method TakeEntry(ghost objects: seq<(string, Fields)>, rewritten: map<string, Fields>, o: (string, Fields))
    returns (more: map<string, Fields>)
    requires IsFolding(objects, rewritten) && Reviewed(o)
    ensures IsFolding(objects + [o], more)
  {
    if IsSynthetic(o.0) {
      SkipSynthetic(objects, rewritten, o);
      return rewritten;
    }
    FoldOne(objects, rewritten, o);
    var name := Upstream(o.0);
    if name in rewritten {
      assert IsUnion(objects, name, rewritten[name]);
      more := rewritten[name := MergeFields(rewritten[name], o.1)];
    } else {
      more := rewritten[name := o.1];
    }
  }

  /** _review_objects, on the entries of the objects dictionary in their order. */
  method ReviewObjects(objects: seq<(string, Fields)>) returns (r: Result<map<string, Fields>>)
    ensures r.Ok? <==> 1 <= |objects| <= 32 && AllReviewed(objects)
    ensures r.Ok? ==> IsFolding(objects, r.value)
  {
    if |objects| == 0 || |objects| > 32 { return Raised; }
    var rewritten: map<string, Fields> := map[];
    for i := 0 to |objects|
      invariant AllReviewed(objects[..i]) && IsFolding(objects[..i], rewritten)
    {
      ReviewedStep(objects, i);
      var ok := ReviewEntry(objects[i]);
      if !ok { return Raised; }
      assert objects[..i] + [objects[i]] == objects[..i + 1];
      rewritten := TakeEntry(objects[..i], rewritten, objects[i]);
    }
    assert objects[..|objects|] == objects;
    r := Ok(rewritten);
  }

  // ---------------------------------------------------------------- replies

  function Max(a: real, b: real): real { if a < b then b else a }

  /** max_accel_to_decel worked out where the printer no longer reports it. */
  function WithDecel(j: Json): (r: Json)
    ensures j.Object? ==> r.Object? && forall f :: f in j.members ==> f in r.members && r.members[f] == j.members[f]
  {
    if j.Object? && "max_accel_to_decel" !in j.members && "max_accel" in j.members && j.members["max_accel"].Number?
       && "minimum_cruise_ratio" in j.members && j.members["minimum_cruise_ratio"].Number?
    then
      var a, q := j.members["max_accel"].value, j.members["minimum_cruise_ratio"].value;
      Object(j.members["max_accel_to_decel" := Number(Max(0.0, a * (1.0 - q)))])
    else j
  }

  function Lower(s: string): string {
    seq(|s|, i requires 0 <= i < |s| => if 'A' <= s[i] <= 'Z' then s[i] - 'A' + 'a' else s[i])
  }

  /** A macro section that the Macros page must not offer. */
  predicate Hidden(section: string) {
    "gcode_macro " <= Lower(section) && Lower(section) != "gcode_macro printer_status"
  }

  /** The settings without hidden macros, and with the printer's deceleration. */
  function ReviewedSettings(settings: map<string, Json>): map<string, Json> {
    map s | s in settings && !Hidden(s) :: if s == "printer" then WithDecel(settings[s]) else settings[s]
  }

  function ReviewedConfig(j: Json): Json {
    if j.Object? && "settings" in j.members && j.members["settings"].Object?
    then Object(j.members["settings" := Object(ReviewedSettings(j.members["settings"].members))])
    else j
  }

  /** What the bridge is shown under a name, given what the printer reported. */
  function Entry(status: Status, name: string): Json
    requires name in status || IsSynthetic(name) || (IsAlias(name) && Upstream(name) in status)
  {
    if IsAlias(name) && Upstream(name) in status then status[Upstream(name)]
    else if name !in status then SYNTHETIC_VALUE
    else if name == "toolhead" then WithDecel(status[name])
    else if name == "configfile" then ReviewedConfig(status[name])
    else status[name]
  }

  predicate Shown(status: Status, name: string) {
    name in status || IsSynthetic(name) || (IsAlias(name) && Upstream(name) in status)
  }

  ghost predicate IsLegacyView(status: Status, view: Status) {
    && (forall name :: name in view <==> Shown(status, name))
    && (forall name :: name in view ==> view[name] == Entry(status, name))
  }

  method AddAliases(status: Status) returns (t: Status)
    ensures forall name :: name in t <==> name in status || (IsAlias(name) && Upstream(name) in status)
    ensures forall name :: name in t ==>
      t[name] == if IsAlias(name) && Upstream(name) in status then status[Upstream(name)] else status[name]
  {
    t := status;
    NamesAreDistinct();
    for i := 0 to |ALIASES|
      invariant forall name :: name in t <==>
        name in status || (Upstream(name) in status && exists j :: 0 <= j < i && ALIASES[j].0 == name)
      invariant forall name :: name in t ==>
        t[name] == if Upstream(name) in status && exists j :: 0 <= j < i && ALIASES[j].0 == name
                   then status[Upstream(name)] else status[name]
    {
      var alias := ALIASES[i];
      if alias.1 in t { t := t[alias.0 := t[alias.1]]; }
    }
  }

  method AddSynthetics(status: Status) returns (t: Status)
    ensures forall name :: name in t <==> name in status || IsSynthetic(name)
    ensures forall name :: name in t ==> t[name] == if name in status then status[name] else SYNTHETIC_VALUE
  {
    t := status;
    for i := 0 to |SYNTHETIC_OBJECTS|
      invariant forall name :: name in t <==> name in status || name in SYNTHETIC_OBJECTS[..i]
      invariant forall name :: name in t ==> t[name] == if name in status then status[name] else SYNTHETIC_VALUE
    {
      if SYNTHETIC_OBJECTS[i] !in t { t := t[SYNTHETIC_OBJECTS[i] := SYNTHETIC_VALUE]; }
    }
  }

  /** The loop that deletes hidden macro sections, and the printer's deceleration after it. */
  method ReviewSettings(settings: map<string, Json>) returns (r: map<string, Json>)
    ensures forall s :: s in r <==> s in settings && !Hidden(s)
    ensures forall s :: s in r && s != "printer" ==> r[s] == settings[s]
    ensures "printer" in r ==> r["printer"] == WithDecel(settings["printer"])
  {
    r := settings;
    var left := settings.Keys;
    while left != {}
      invariant left <= settings.Keys
      invariant forall s :: s in r <==> s in settings && (s in left || !Hidden(s))
      invariant forall s :: s in r ==> r[s] == settings[s]
    {
      var section :| section in left;
      left := left - {section};
      if Hidden(section) { r := r - {section}; }
    }
    if "printer" in r { r := r["printer" := WithDecel(r["printer"])]; }
  }

  method EditConfig(j: Json) returns (r: Json)
    ensures r == ReviewedConfig(j)
  {
    r := j;
    if j.Object? && "settings" in j.members && j.members["settings"].Object? {
      var settings := ReviewSettings(j.members["settings"].members);
      assert settings == ReviewedSettings(j.members["settings"].members);
      r := Object(j.members["settings" := Object(settings)]);
    }
  }

  /** _legacy_status. */
  method LegacyStatus(status: Status) returns (t: Status)
    ensures IsLegacyView(status, t)
  {
    NamesAreDistinct();
    var aliased := AddAliases(status);
    t := AddSynthetics(aliased);
    if "toolhead" in t { t := t["toolhead" := WithDecel(t["toolhead"])]; }
    if "configfile" in t {
      var config := EditConfig(t["configfile"]);
      t := t["configfile" := config];
    }
  }

  // ------------------------------------------------------------- round trip

  /** The printer's answer to a forwarded query about objects it has. */
  function Answer(world: map<string, map<string, Json>>, query: map<string, Fields>): Status {
    map k | k in query && k in world ::
      Object(map f | f in world[k] && Asks(query[k], f) :: world[k][f])
  }

  /** The printer is asked for every field of every request it can answer. */
  lemma AnswerCovers(objects: seq<(string, Fields)>, query: map<string, Fields>,
                     world: map<string, map<string, Json>>, o: (string, Fields))
    requires IsFolding(objects, query) && query.Keys <= world.Keys && o in objects && !IsSynthetic(o.0)
    ensures
      var up := Upstream(o.0);
      && up in Answer(world, query) && up in world && Answer(world, query)[up].Object?
      && forall f :: Asks(o.1, f) && f in world[up] ==>
           f in Answer(world, query)[up].members && Answer(world, query)[up].members[f] == world[up][f]
  {
    var up := Upstream(o.0);
    assert FoldsOnto(o, up);
    assert up in query && IsUnion(objects, up, query[up]);
    forall f | Asks(o.1, f) ensures Asks(query[up], f) {
      assert AskedBy(o, up, f);
    }
  }

  /** The view keeps what the printer reported, but for the settings. */
  lemma ViewKeeps(status: Status, view: Status, name: string)
    requires IsLegacyView(status, view) && !IsSynthetic(name)
    requires Upstream(name) in status && status[Upstream(name)].Object?
    ensures name in view && Upstream(name) in view && (IsAlias(name) ==> view[name] == view[Upstream(name)])
    ensures view[name].Object?
    ensures forall f :: f in status[Upstream(name)].members && !(Upstream(name) == "configfile" && f == "settings") ==>
      f in view[name].members && view[name].members[f] == status[Upstream(name)].members[f]
  {
    NamesAreDistinct();
    var up := Upstream(name);
    assert Shown(status, name) && Shown(status, up);
    if IsAlias(name) {
      assert up == ALIASES[0].1 || up == ALIASES[1].1;
      assert Entry(status, name) == status[up];
      assert up != "toolhead" && up != "configfile";
      assert Entry(status, up) == status[up];
    }
  }

  /** The bridge's request o, seen after the detour through the printer: the bridge gets an entry
      under the name it used, holding every field it asked for with the printer's value. Only the
      settings are edited on the way. */
  lemma BridgeSeesWhatItAsked(objects: seq<(string, Fields)>, query: map<string, Fields>,
                              world: map<string, map<string, Json>>, view: Status, o: (string, Fields))
    requires IsFolding(objects, query) && query.Keys <= world.Keys && o in objects
    requires IsLegacyView(Answer(world, query), view)
    ensures o.0 in view
    ensures IsSynthetic(o.0) ==> view[o.0] == SYNTHETIC_VALUE
    ensures IsAlias(o.0) ==> Upstream(o.0) in view && view[o.0] == view[Upstream(o.0)]
    ensures !IsSynthetic(o.0) ==>
      var up := Upstream(o.0);
      && up in world && view[o.0].Object?
      && forall f :: Asks(o.1, f) && f in world[up] && !(up == "configfile" && f == "settings") ==>
           f in view[o.0].members && view[o.0].members[f] == world[up][f]
  {
    NamesAreDistinct();
    var status := Answer(world, query);
    if IsSynthetic(o.0) {
      if o.0 in query { SyntheticsStayLocal(objects, query, o.0); }
      assert Shown(status, o.0);
    } else {
      AnswerCovers(objects, query, world, o);
      ViewKeeps(status, view, o.0);
    }
  }

  /** The configuration's settings, if it reports any. */
  function SettingsOf(status: Status): Option<map<string, Json>> {
    if "configfile" in status && status["configfile"].Object? && "settings" in status["configfile"].members
       && status["configfile"].members["settings"].Object?
    then Some(status["configfile"].members["settings"].members)
    else None
  }

  function FieldOf(settings: map<string, Json>, s: string, f: string): Option<Json> {
    if s in settings && settings[s].Object? && f in settings[s].members then Some(settings[s].members[f]) else None
  }

  /** And the settings it is shown: no macro but the reviewed one, every other section, and in each
      section every field the printer reported. */
  lemma BridgeSeesSettings(status: Status, view: Status)
    requires IsLegacyView(status, view) && SettingsOf(status).Some?
    ensures SettingsOf(view).Some?
    ensures forall s :: s in SettingsOf(view).value <==> s in SettingsOf(status).value && !Hidden(s)
    ensures forall s, f :: s in SettingsOf(view).value && FieldOf(SettingsOf(status).value, s, f).Some? ==>
      FieldOf(SettingsOf(view).value, s, f) == FieldOf(SettingsOf(status).value, s, f)
  {
    NamesAreDistinct();
    assert Shown(status, "configfile");
    assert view["configfile"] == Entry(status, "configfile") == ReviewedConfig(status["configfile"]);
    assert SettingsOf(view).value == ReviewedSettings(SettingsOf(status).value);
  }

  function NumberAt(j: Json, f: string): Option<real> {
    if j.Object? && f in j.members && j.members[f].Number? then Some(j.members[f].value) else None
  }

  /** `to` is `from` with the legacy deceleration limit: the reported one stays; else it is the
      acceleration times what the cruise ratio leaves of one, but not negative, where the printer reports
      both as numbers. No other field appears. */
  predicate Decelerated(from: Json, to: Json) {
    if !from.Object? then to == from
    else
      var a, q := NumberAt(from, "max_accel"), NumberAt(from, "minimum_cruise_ratio");
      && to.Object?
      && (forall f :: f in from.members ==> f in to.members && to.members[f] == from.members[f])
      && (forall f :: f in to.members && f !in from.members ==> f == "max_accel_to_decel")
      && ("max_accel_to_decel" !in from.members && a.Some? && q.Some? ==>
            && NumberAt(to, "max_accel_to_decel").Some?
            && var d := NumberAt(to, "max_accel_to_decel").value;
               d >= 0.0 && (d == a.value * (1.0 - q.value) || (d == 0.0 && a.value * (1.0 - q.value) < 0.0)))
      && ("max_accel_to_decel" in to.members && "max_accel_to_decel" !in from.members ==> a.Some? && q.Some?)
  }

  lemma WithDecelExactly(j: Json)
    ensures Decelerated(j, WithDecel(j))
  {
  }

  /** The bridge is shown the toolhead, and the printer's settings, with that limit, and every other
      object and section that it is shown under its own name as the printer reported it. */
  lemma BridgeSeesDecel(status: Status, view: Status)
    requires IsLegacyView(status, view)
    ensures "toolhead" in status ==> "toolhead" in view && Decelerated(status["toolhead"], view["toolhead"])
    ensures SettingsOf(status).Some? && "printer" in SettingsOf(status).value ==>
      && SettingsOf(view).Some? && "printer" in SettingsOf(view).value
      && Decelerated(SettingsOf(status).value["printer"], SettingsOf(view).value["printer"])
    ensures SettingsOf(status).Some? ==> SettingsOf(view).Some?
    ensures SettingsOf(status).Some? ==> forall s :: s in SettingsOf(view).value && s != "printer" ==>
      s in SettingsOf(status).value && SettingsOf(view).value[s] == SettingsOf(status).value[s]
    ensures forall k :: k in status && k != "toolhead" && k != "configfile" && !IsAlias(k) ==>
      k in view && view[k] == status[k]
  {
    NamesAreDistinct();
    if "toolhead" in status {
      assert Shown(status, "toolhead");
      WithDecelExactly(status["toolhead"]);
    }
    if SettingsOf(status).Some? {
      assert Shown(status, "configfile");
      assert view["configfile"] == Entry(status, "configfile") == ReviewedConfig(status["configfile"]);
      assert SettingsOf(view).value == ReviewedSettings(SettingsOf(status).value);
      PrinterIsShown();
      if "printer" in SettingsOf(status).value { WithDecelExactly(SettingsOf(status).value["printer"]); }
    }
    forall k | k in status && k != "toolhead" && k != "configfile" && !IsAlias(k)
      ensures k in view && view[k] == status[k]
    {
      assert Shown(status, k);
    }
  }

  /** The printer section is no macro. */
  lemma PrinterIsShown()
    ensures !Hidden("printer")
  {
    assert |Lower("printer")| == 7;
  }

  /** A macro section is hidden whatever the letter case, unless it is the reviewed one. */
  lemma MacrosAreHidden(name: string)
    ensures Hidden("gcode_macro " + name) <==> Lower(name) != "printer_status"
    ensures Hidden("GCODE_MACRO " + name) <==> Lower(name) != "printer_status"
  {
    LowerConcat("gcode_macro ", name);
    LowerConcat("GCODE_MACRO ", name);
    assert Lower("gcode_macro ") == "gcode_macro " && Lower("GCODE_MACRO ") == "gcode_macro ";
    assert "gcode_macro " + "printer_status" == "gcode_macro printer_status";
    assert ("gcode_macro " + Lower(name))[12..] == Lower(name);
    assert ("gcode_macro " + "printer_status")[12..] == "printer_status";
  }

  lemma LowerConcat(a: string, b: string)
    ensures Lower(a + b) == Lower(a) + Lower(b)
  {
  }

  /** Which fields may be asked for: all, or at most 64 names of 1 to 128 characters. */
  lemma FieldsExactly(fields: Fields)
    ensures WellFormed(fields) <==>
      match fields
      case All => true
      case Malformed => false
      case Listed(names) => |names| < 65 && forall f :: f in names ==> 0 < |f| < 129
  {
    if fields.Listed? {
      assert forall i :: 0 <= i < |fields.names| ==> fields.names[i] in fields.names;
    }
  }

  /** No forwarded name is synthetic or an alias, so those names never come from the printer. */
  lemma SyntheticsStayLocal(objects: seq<(string, Fields)>, query: map<string, Fields>, name: string)
    requires IsFolding(objects, query) && name in query
    ensures !IsSynthetic(name) && !IsAlias(name)
  {
    NamesAreDistinct();
    var o :| o in objects && FoldsOnto(o, name);
  }

  // --------------------------------------------------------------- envelope

  predicate HasStatus(message: map<string, Json>) {
    "result" in message && message["result"].Object? && "status" in message["result"].members
    && message["result"].members["status"].Object?
  }

  predicate HasUpdate(message: map<string, Json>) {
    "method" in message && message["method"] == Text("notify_status_update")
    && "params" in message && message["params"].Array? && |message["params"].items| > 0
    && message["params"].items[0].Object?
  }

  predicate Edited(message: map<string, Json>, k: string) {
    (k == "result" && HasStatus(message)) || (k == "params" && HasUpdate(message))
  }

  /** translate_response: the status of a reply and of an update are shown as above; identifier, version
      and everything else in the envelope stay as they were. */
  method TranslateResponse(message: map<string, Json>) returns (t: map<string, Json>)
    ensures t.Keys == message.Keys
    ensures forall k :: k in message && !Edited(message, k) ==> t[k] == message[k]
    ensures HasStatus(message) ==>
      && HasStatus(t)
      && IsLegacyView(message["result"].members["status"].members, t["result"].members["status"].members)
      && t["result"].members == message["result"].members["status" := t["result"].members["status"]]
    ensures HasUpdate(message) ==>
      && HasUpdate(t) && IsLegacyView(message["params"].items[0].members, t["params"].items[0].members)
      && t["params"].items[1..] == message["params"].items[1..]
  {
    t := message;
    assert "result" != "params" && "result" != "method" && "method" != "params";
    if "result" in t && t["result"].Object? {
      var result := t["result"].members;
      if "status" in result && result["status"].Object? {
        var status := LegacyStatus(result["status"].members);
        t := t["result" := Object(result["status" := Object(status)])];
      }
    }
    if "method" in t && t["method"] == Text("notify_status_update") && "params" in t && t["params"].Array? {
      var params := t["params"].items;
      if params != [] && params[0].Object? {
        var status := LegacyStatus(params[0].members);
        t := t["params" := Array(params[0 := Object(status)])];
      }
    }
  }
}
