/**
 * The rule operations over both tables and the engine, as one state machine,
 * and the agreement between tables and engine over its runs.
 */
module RuleStore {
  import opened Common
  import opened Patterns
  import opened Upsert
  import opened RuleTables
  import opened RuleEngine
  import RuleExport

  /** A request to create a custom rule. */
  datatype RuleCreate = RuleCreate(
    id: string, name: string, description: Option<string>, category: Option<string>, severity: string,
    action: string, patternType: string, patternValue: string, patternConfidence: Option<real>,
    stages: seq<string>, targetFiles: Option<seq<string>>, enabled: bool)

  /** A request to change a rule; missing fields stay as they are. */
  datatype RuleUpdate = RuleUpdate(
    name: Option<string>, description: Option<string>, category: Option<string>, severity: Option<string>,
    action: Option<string>, patternType: Option<string>, patternValue: Option<string>,
    patternConfidence: Option<real>, stages: Option<seq<string>>, targetFiles: Option<seq<string>>,
    enabled: Option<bool>)

  datatype State = State(rules: map<string, RuleRow>, customs: map<string, CustomRow>, engine: EngineState)

  /** What does not change during a run: master data and the engine's pattern kinds. */
  datatype Setup = Setup(m: Master, known: set<string>)

  function CreatedRow(m: Master, q: RuleCreate): CustomRow {
    CustomRow(
      q.id, q.name, q.description, q.severity, q.action,
      if Truthy(q.category) then ByName(m.categories, q.category.value) else None,
      TypeOf(q.stages), OrInput(q.stages), q.targetFiles,
      q.patternType, q.patternValue, Some(q.patternConfidence.GetOr(0.8)),
      if q.patternType in m.patternTypes then Some(m.patternTypes[q.patternType]) else None,
      None, q.enabled)
  }

  function UpdatedRow(m: Master, c: CustomRow, u: RuleUpdate): CustomRow {
    c.(name := u.name.GetOr(c.name),
       description := if u.description.Some? then u.description else c.description,
       severity := u.severity.GetOr(c.severity),
       action := u.action.GetOr(c.action),
       patternType := u.patternType.GetOr(c.patternType),
       patternTypeId := if u.patternType.None? then c.patternTypeId
                        else if u.patternType.value in m.patternTypes then Some(m.patternTypes[u.patternType.value])
                        else None,
       patternValue := u.patternValue.GetOr(c.patternValue),
       patternConfidence := if u.patternConfidence.Some? then u.patternConfidence else c.patternConfidence,
       stages := u.stages.GetOr(c.stages),
       ruleType := if u.stages.Some? then TypeOf(u.stages.value) else c.ruleType,
       targetFiles := if u.targetFiles.Some? then u.targetFiles else c.targetFiles,
       enabled := u.enabled.GetOr(c.enabled),
       categoryId := if u.category.None? then c.categoryId else ByName(m.categories, u.category.value))
  }

  /** What a created rule is exported as: the request itself, by its own fields, with
      its category if there is one of that name. */
  lemma CreatedRowExportsAsRequested(m: Master, q: RuleCreate)
    requires UniqueCategories(m.categories)
    ensures var e := RuleExport.CustomEntry(m.categories, CreatedRow(m, q));
            var p := Pattern(Some(q.patternType), Some(q.patternValue), None, Some(q.patternConfidence.GetOr(0.8)));
            && e.id == q.id && e.name == Some(q.name) && e.severity == Some(q.severity) && e.action == Some(q.action)
            && (Truthy(q.description) ==> e.description == q.description)
            && e.stages == Some(OrInput(q.stages)) && e.enabled == Some(q.enabled)
            && e.detection == Some(Detection(Some("any"), Some([p]), None))
            && (e.category.Some? <==> Truthy(q.category) && ByName(m.categories, q.category.value).Some?)
            && (e.category.Some? ==> e.category == q.category)
    ensures CustomTyped(CreatedRow(m, q))
  {
    if Truthy(q.category) {
      IdRoundTrip(m.categories, q.category.value);
    }
    assert IsBatch(q.stages) <==> IsBatch(OrInput(q.stages));
  }

  /** The update that carries every field of another row. */
  function Carrying(cats: seq<Category>, d: CustomRow): RuleUpdate {
    RuleUpdate(
      Some(d.name), d.description, CategoryName(cats, d.categoryId), Some(d.severity), Some(d.action),
      Some(d.patternType), Some(d.patternValue), d.patternConfidence, Some(d.stages), d.targetFiles, Some(d.enabled))
  }

  const NO_CHANGE := RuleUpdate(None, None, None, None, None, None, None, None, None, None, None)

  /** An empty update changes nothing; one that carries all fields of a row makes the
      updated row equal to it, up to what an update cannot carry. */
  lemma UpdateCarriesFields(m: Master, c: CustomRow, d: CustomRow)
    requires UniqueCategories(m.categories) && CustomTyped(d)
    requires d.description.Some? && d.targetFiles.Some? && d.patternConfidence.Some?
    requires CategoryName(m.categories, d.categoryId).Some?
    requires d.patternTypeId == if d.patternType in m.patternTypes then Some(m.patternTypes[d.patternType]) else None
    ensures UpdatedRow(m, c, NO_CHANGE) == c
    ensures UpdatedRow(m, c, Carrying(m.categories, d)) == d.(id := c.id, detection := c.detection)
  {
    NameRoundTrip(m.categories, d.categoryId.value);
  }

  function Later<T>(first: Option<T>, second: Option<T>): Option<T> {
    if second.Some? then second else first
  }

  /** The request that asks for what two requests ask for, one after the other. */
  function Both(u: RuleUpdate, v: RuleUpdate): RuleUpdate {
    RuleUpdate(
      Later(u.name, v.name), Later(u.description, v.description), Later(u.category, v.category),
      Later(u.severity, v.severity), Later(u.action, v.action), Later(u.patternType, v.patternType),
      Later(u.patternValue, v.patternValue), Later(u.patternConfidence, v.patternConfidence),
      Later(u.stages, v.stages), Later(u.targetFiles, v.targetFiles), Later(u.enabled, v.enabled))
  }

  /** Two updates of a custom rule in a row, rows and engine, are one update that asks
      for both. */
  lemma UpdatesCompose(u: Setup, s: State, id: string, first: RuleUpdate, second: RuleUpdate)
    requires id in s.customs && Keyed(s.customs, CustomId)
    ensures AfterChange(u, AfterChange(u, s, id, first), id, second) == AfterChange(u, s, id, Both(first, second))
  {
    assert CustomId(s.customs[id]) == id;
    var c := UpdatedRow(u.m, s.customs[id], first);
    assert UpdatedRow(u.m, c, second) == UpdatedRow(u.m, s.customs[id], Both(first, second));
    var dropped := Dropped(s.engine, id);
    assert Dropped(dropped, id) == dropped;
    assert Dropped(Synced(u.known, dropped, c), id) == dropped;
    assert s.customs[id := c][id := UpdatedRow(u.m, c, second)] == s.customs[id := UpdatedRow(u.m, c, second)];
  }

  /** The pattern of a custom row after an update, as the simple pattern fields say it. */
  function ToldPattern(c: CustomRow, u: RuleUpdate): Pattern {
    Pattern(Some(u.patternType.GetOr(c.patternType)), Some(u.patternValue.GetOr(c.patternValue)), None,
            Some(u.patternConfidence.GetOr(c.patternConfidence.GetOr(0.8))))
  }

  /** The rule as it is exported after an update says what the update says exactly
      when no detection object is stored with it, or one of just that pattern: an
      update never reaches a stored detection object. */
  lemma UpdateReachesExportIff(m: Master, c: CustomRow, u: RuleUpdate)
    ensures RuleExport.CustomEntry(m.categories, UpdatedRow(m, c, u)).detection
              == Some(Detection(Some("any"), Some([ToldPattern(c, u)]), None)) <==>
            !RuleExport.HasDetection(c) || c.detection == Some(Detection(Some("any"), Some([ToldPattern(c, u)]), None))
    ensures RuleExport.HasDetection(c) ==>
              RuleExport.CustomEntry(m.categories, UpdatedRow(m, c, u)).detection == c.detection
  {
    var told := Pattern(Some(UpdatedRow(m, c, u).patternType), Some(UpdatedRow(m, c, u).patternValue), None,
                        Some(UpdatedRow(m, c, u).patternConfidence.GetOr(0.8)));
    assert told == ToldPattern(c, u);
  }

  /** A custom row goes to the live engine unless it has no pattern value. */
  function Synced(known: set<string>, e: EngineState, c: CustomRow): EngineState {
    if c.patternValue == "" then e
    else e.(io := e.io[c.id := CustomForEngine(Config(known, map[]), c)])
  }

  function Dropped(e: EngineState, id: string): EngineState {
    e.(io := e.io - {id})
  }

  /** Switches a built-in rule in the engine or, if it is not there, in the scanner. */
  function SwitchedEither(e: EngineState, id: string, on: bool): EngineState {
    if id in e.io then e.(io := Switched(e.io, id, on))
    else if id in e.review then e.(review := Switched(e.review, id, on))
    else e
  }

  /** After a custom import: every rule of the bundle that is enabled goes to the engine. */
  function SyncedAll(known: set<string>, e: EngineState, customs: map<string, CustomRow>, bs: seq<BundleRule>): EngineState {
    if bs == [] then e
    else
      var before, id := SyncedAll(known, e, customs, bs[..|bs| - 1]), bs[|bs| - 1].id;
      if id in customs && customs[id].enabled then Synced(known, before, customs[id]) else before
  }

  /** The operations. A reload, alone or after an import of built-in rules, comes
      with the dictionaries and with the rows in the order its queries return them. */
  datatype Op =
    | Create(request: RuleCreate)
    | Change(id: string, update: RuleUpdate)
    | Delete(id: string)
    | Reload(dicts: DictMap, ruleRows: seq<RuleRow>, customRows: seq<CustomRow>)
    | ImportRules(bundle: Bundle, dicts: DictMap, ruleRows: seq<RuleRow>, customRows: seq<CustomRow>)
    | ImportCustoms(bundle: Bundle)

  function AfterCreate(u: Setup, s: State, q: RuleCreate): State {
    if !("U-" <= q.id) || q.id in s.customs then s
    else
      var c := CreatedRow(u.m, q);
      s.(customs := s.customs[q.id := c], engine := Synced(u.known, s.engine, c))
  }

  function AfterChange(u: Setup, s: State, id: string, upd: RuleUpdate): State {
    if id in s.customs then
      var c, dropped := UpdatedRow(u.m, s.customs[id], upd), Dropped(s.engine, id);
      s.(customs := s.customs[id := c], engine := if c.enabled then Synced(u.known, dropped, c) else dropped)
    else if id in s.rules && upd.enabled.Some? then
      s.(rules := s.rules[id := s.rules[id].(enabled := upd.enabled.value)],
         engine := SwitchedEither(s.engine, id, upd.enabled.value))
    else s
  }

  /** A custom rule is removed; a built-in rule is only marked disabled in its row. */
  function AfterDelete(s: State, id: string): State {
    if id in s.customs then s.(customs := s.customs - {id}, engine := Dropped(s.engine, id))
    else if id in s.rules then s.(rules := s.rules[id := s.rules[id].(enabled := false)])
    else s
  }

  function AfterImportRules(u: Setup, s: State, bundle: Bundle, dicts: DictMap,
                            ruleRows: seq<RuleRow>, customRows: seq<CustomRow>): State {
    match Import(RuleScheme(u.m, bundle), s.rules, bundle.rules)
    case None => s
    case Some(done) => s.(rules := done.0, engine := Reloaded(Config(u.known, dicts), ruleRows, customRows).engine)
  }

  function AfterImportCustoms(u: Setup, s: State, bundle: Bundle): State {
    match Import(CustomScheme(u.m, bundle), s.customs, bundle.rules)
    case None => s
    case Some(done) => s.(customs := done.0, engine := SyncedAll(u.known, s.engine, done.0, bundle.rules))
  }

  function After(u: Setup, s: State, op: Op): State {
    match op
    case Create(q) => AfterCreate(u, s, q)
    case Change(id, upd) => AfterChange(u, s, id, upd)
    case Delete(id) => AfterDelete(s, id)
    case Reload(dicts, rs, cs) => s.(engine := Reloaded(Config(u.known, dicts), rs, cs).engine)
    case ImportRules(b, dicts, rs, cs) => AfterImportRules(u, s, b, dicts, rs, cs)
    case ImportCustoms(b) => AfterImportCustoms(u, s, b)
  }

  /** The rows a reload works with are the rows of the tables at that time. */
  ghost predicate Possible(u: Setup, s: State, op: Op) {
    match op
    case Reload(_, rs, cs) => Lists(rs, s.rules, RuleId) && Lists(cs, s.customs, CustomId)
    case ImportRules(_, _, rs, cs) =>
      Lists(rs, After(u, s, op).rules, RuleId) && Lists(cs, s.customs, CustomId)
    case _ => true
  }

  // ---- What each operation does to the tables ----

  /** Operations on one table leave the other alone; a reload leaves both. */
  lemma OtherTableUntouched(u: Setup, s: State, op: Op)
    ensures op.Create? || op.ImportCustoms? || op.Reload? ==> After(u, s, op).rules == s.rules
    ensures op.ImportRules? || op.Reload? ==> After(u, s, op).customs == s.customs
    ensures op.Change? || op.Delete? ==>
              After(u, s, op).rules == s.rules || After(u, s, op).customs == s.customs
  {
  }

  /** A creation is accepted for a new id with the prefix U-, and then adds the row of
      the request; otherwise nothing happens. */
  lemma CreateMeans(u: Setup, s: State, q: RuleCreate)
    ensures var t := After(u, s, Create(q));
            var accepted := |q.id| >= 2 && q.id[..2] == "U-" && q.id !in s.customs;
            && (!accepted ==> t == s)
            && (accepted ==>
                  && t.rules == s.rules && t.customs.Keys == s.customs.Keys + {q.id}
                  && (forall id :: id in s.customs ==> t.customs[id] == s.customs[id])
                  && var c := t.customs[q.id];
                     && c.id == q.id && c.name == q.name && c.description == q.description
                     && c.severity == q.severity && c.action == q.action && c.enabled == q.enabled
                     && c.stages == (if q.stages == [] then ["input"] else q.stages)
                     && c.ruleType == (if "batch" in q.stages then CodeReview else Io)
                     && c.targetFiles == q.targetFiles && c.detection == None
                     && c.patternType == q.patternType && c.patternValue == q.patternValue
                     && c.patternConfidence == (if q.patternConfidence.Some? then q.patternConfidence else Some(0.8))
                     && c.patternTypeId ==
                          (if q.patternType in u.m.patternTypes then Some(u.m.patternTypes[q.patternType]) else None))
  {
  }

  /** The category of a created or updated rule is the first of the name asked for. */
  lemma RequestedCategory(m: Master, q: RuleCreate, c: CustomRow, upd: RuleUpdate, k: nat)
    ensures q.category.None? || q.category.value == "" ==> CreatedRow(m, q).categoryId == None
    ensures q.category.Some? && q.category.value != "" && k < |m.categories| && m.categories[k].name == q.category.value
            && (forall j :: 0 <= j < k ==> m.categories[j].name != q.category.value) ==>
              CreatedRow(m, q).categoryId == Some(m.categories[k].id)
    ensures upd.category.None? ==> UpdatedRow(m, c, upd).categoryId == c.categoryId
    ensures upd.category.Some? && (forall j :: 0 <= j < |m.categories| ==> m.categories[j].name != upd.category.value) ==>
              UpdatedRow(m, c, upd).categoryId == None
    ensures upd.category.Some? && k < |m.categories| && m.categories[k].name == upd.category.value
            && (forall j :: 0 <= j < k ==> m.categories[j].name != upd.category.value) ==>
              UpdatedRow(m, c, upd).categoryId == Some(m.categories[k].id)
  {
    if q.category.Some? {
      RuleExport.ByNameAt(m.categories, q.category.value, k);
    }
    if upd.category.Some? {
      RuleExport.ByNameAt(m.categories, upd.category.value, k);
      ByNameIsFirst(m.categories, upd.category.value);
    }
  }

  /** An update of a custom rule changes the columns asked for in its row and no other
      row; of a built-in rule it changes the switch only. */
  lemma ChangeMeans(u: Setup, s: State, id: string, upd: RuleUpdate)
    ensures var t := After(u, s, Change(id, upd));
            && t.rules.Keys == s.rules.Keys && t.customs.Keys == s.customs.Keys
            && (forall x :: x in s.rules && x != id ==> t.rules[x] == s.rules[x])
            && (forall x :: x in s.customs && x != id ==> t.customs[x] == s.customs[x])
            && (id in s.customs ==>
                  && (id in s.rules ==> t.rules[id] == s.rules[id])
                  && var c, d := s.customs[id], t.customs[id];
                     && d.id == c.id && d.detection == c.detection
                     && d.name == (if upd.name.Some? then upd.name.value else c.name)
                     && d.description == (if upd.description.Some? then upd.description else c.description)
                     && d.severity == (if upd.severity.Some? then upd.severity.value else c.severity)
                     && d.action == (if upd.action.Some? then upd.action.value else c.action)
                     && d.patternType == (if upd.patternType.Some? then upd.patternType.value else c.patternType)
                     && d.patternValue == (if upd.patternValue.Some? then upd.patternValue.value else c.patternValue)
                     && d.patternConfidence ==
                          (if upd.patternConfidence.Some? then upd.patternConfidence else c.patternConfidence)
                     && d.patternTypeId ==
                          (if upd.patternType.None? then c.patternTypeId
                           else if upd.patternType.value in u.m.patternTypes
                           then Some(u.m.patternTypes[upd.patternType.value]) else None)
                     && d.stages == (if upd.stages.Some? then upd.stages.value else c.stages)
                     && d.ruleType ==
                          (if upd.stages.None? then c.ruleType else if "batch" in upd.stages.value then CodeReview else Io)
                     && d.targetFiles == (if upd.targetFiles.Some? then upd.targetFiles else c.targetFiles)
                     && d.enabled == (if upd.enabled.Some? then upd.enabled.value else c.enabled))
            && (id !in s.customs && id in s.rules ==>
                  && t.rules[id].enabled == (if upd.enabled.Some? then upd.enabled.value else s.rules[id].enabled)
                  && t.rules[id].(enabled := s.rules[id].enabled) == s.rules[id])
  {
  }

  /** A deleted custom rule is gone from table and engine, and nothing else is; of a
      deleted built-in rule only the switch in its row changes. */
  lemma DeleteMeans(u: Setup, s: State, id: string)
    ensures var t := After(u, s, Delete(id));
            && (id in s.customs ==>
                  && t.customs.Keys == s.customs.Keys - {id} && t.rules == s.rules
                  && id !in t.engine.io && t.engine.io.Keys == s.engine.io.Keys - {id}
                  && t.engine.review == s.engine.review
                  && forall x :: x in t.engine.io ==> t.engine.io[x] == s.engine.io[x])
            && (forall x :: x in s.customs && x != id ==> x in t.customs && t.customs[x] == s.customs[x])
            && (id !in s.customs ==> t.customs == s.customs && t.engine == s.engine && t.rules.Keys == s.rules.Keys)
            && (id !in s.customs && id in s.rules ==>
                  !t.rules[id].enabled && t.rules[id].(enabled := s.rules[id].enabled) == s.rules[id])
            && (forall x :: x in s.rules && x != id ==> t.rules[x] == s.rules[x])
  {
  }

  /** After a deletion the id is free again: a creation under it is accepted. */
  lemma DeletedIdIsFree(u: Setup, s: State, q: RuleCreate)
    requires q.id in s.customs && |q.id| >= 2 && q.id[..2] == "U-"
    ensures var t := After(u, After(u, s, Delete(q.id)), Create(q));
            t.customs.Keys == s.customs.Keys && t.customs[q.id] == CreatedRow(u.m, q)
  {
    DeleteMeans(u, s, q.id);
    CreateMeans(u, After(u, s, Delete(q.id)), q);
  }

  /** What a creation, an update and a custom import hand to the live engine: under the
      id of the row what the row says, if it has a pattern value and is enabled. */
  lemma HandedToEngine(u: Setup, s: State, op: Op, id: string)
    requires WellKept(s) && WellKept(After(u, s, op))
    requires match op
             case Create(q) => "U-" <= q.id && q.id !in s.customs && q.id == id
             case Change(x, _) => x in s.customs && x == id
             case ImportCustoms(b) =>
               && Import(CustomScheme(u.m, b), s.customs, b.rules).Some?
               && id != "" && exists k :: 0 <= k < |b.rules| && b.rules[k].id == id
             case _ => false
    ensures var t := After(u, s, op);
            && id in t.customs
            && var c := t.customs[id];
               c.patternValue != "" && (c.enabled || op.Create?) ==>
                 id in t.engine.io && TellsCustom(Config(u.known, map[]), t.engine.io[id], c, Io)
  {
    var t := After(u, s, op);
    match op
    case Create(q) =>
      if q.patternValue != "" {
        CustomTells(Config(u.known, map[]), t.customs[id]);
      }
    case Change(_, _) =>
      assert t.customs[id].id == CustomId(s.customs[id]) == id;
      if t.customs[id].patternValue != "" {
        CustomTells(Config(u.known, map[]), t.customs[id]);
      }
    case ImportCustoms(b) =>
      var k :| 0 <= k < |b.rules| && b.rules[k].id == id;
      assert CustomScheme(u.m, b).id(b.rules[k]) == id && b.rules[k] in b.rules;
      ImportedRow(CustomScheme(u.m, b), s.customs, b.rules, id);
      SyncedAllEffect(u.known, s.engine, t.customs, b.rules, id);
      assert CustomId(t.customs[id]) == id;
      if t.customs[id].patternValue != "" {
        CustomTells(Config(u.known, map[]), t.customs[id]);
      }
  }

  // ---- What every operation keeps ----

  /** Rows are stored under their ids and typed by their stages. */
  ghost predicate WellKept(s: State) {
    && Keyed(s.rules, RuleId) && Keyed(s.customs, CustomId)
    && Everywhere(RuleTyped, s.rules) && Everywhere(CustomTyped, s.customs)
  }

  lemma ImportsKeepRowsTyped(u: Setup, s: State, b: Bundle)
    requires WellKept(s)
    ensures match Import(RuleScheme(u.m, b), s.rules, b.rules)
            case None => true
            case Some(done) => Keyed(done.0, RuleId) && Everywhere(RuleTyped, done.0)
    ensures match Import(CustomScheme(u.m, b), s.customs, b.rules)
            case None => true
            case Some(done) => Keyed(done.0, CustomId) && Everywhere(CustomTyped, done.0)
  {
    if Import(RuleScheme(u.m, b), s.rules, b.rules).Some? {
      ImportKeepsRulesTyped(u.m, b, s.rules);
      ImportKeepsKeys(RuleScheme(u.m, b), s.rules, b.rules, RuleId);
    }
    if Import(CustomScheme(u.m, b), s.customs, b.rules).Some? {
      ImportKeepsCustomTyped(u.m, b, s.customs);
      ImportKeepsKeys(CustomScheme(u.m, b), s.customs, b.rules, CustomId);
    }
  }

  /** Every reachable row is typed code review exactly when "batch" is among its stages. */
  lemma EveryStepKeepsRowsTyped(u: Setup, s: State, op: Op)
    requires WellKept(s)
    ensures WellKept(After(u, s, op))
  {
    match op
    case ImportRules(b, _, _, _) => ImportsKeepRowsTyped(u, s, b);
    case ImportCustoms(b) => ImportsKeepRowsTyped(u, s, b);
    case Create(q) =>
      if !IsBatch(q.stages) {
        assert !IsBatch(OrInput(q.stages));
      }
    case _ =>
  }

  /** Every built-in rule, unless a custom rule has taken its id, is in exactly one
      of engine and scanner, and active there iff its row is enabled. */
  ghost predicate RulesAgree(s: State) {
    forall id :: id in s.rules && id !in s.customs ==> RuleAgrees(s.engine, s.rules[id])
  }

  /** The same for custom input/output rules with a pattern. */
  ghost predicate CustomsAgree(s: State) {
    forall id :: id in s.customs && id !in s.rules && s.customs[id].ruleType.Io? && s.customs[id].patternValue != "" ==>
      (Active(s.engine, id, Io) <==> s.customs[id].enabled)
  }

  lemma ListedRow<R(!new)>(rows: seq<R>, table: map<string, R>, idOf: R -> string, id: string) returns (k: nat)
    requires Lists(rows, table, idOf) && id in table
    ensures k < |rows| && rows[k] == table[id] && idOf(rows[k]) == id
    ensures DistinctBy(rows, idOf)
  {
    k :| 0 <= k < |rows| && idOf(rows[k]) == id;
  }

  /** A reload establishes agreement from any state, whatever the engine held. */
  lemma ReloadEstablishesAgreement(cfg: Config, s: State, ruleRows: seq<RuleRow>, customRows: seq<CustomRow>)
    requires WellKept(s) && Lists(ruleRows, s.rules, RuleId) && Lists(customRows, s.customs, CustomId)
    ensures RulesAgree(s.(engine := Reloaded(cfg, ruleRows, customRows).engine))
    ensures CustomsAgree(s.(engine := Reloaded(cfg, ruleRows, customRows).engine))
  {
    assert forall i :: 0 <= i < |ruleRows| ==> ruleRows[i] == s.rules[RuleId(ruleRows[i])];
    assert forall i :: 0 <= i < |customRows| ==> customRows[i] == s.customs[CustomId(customRows[i])];
    var e := Reloaded(cfg, ruleRows, customRows).engine;
    forall id | id in s.rules && id !in s.customs ensures RuleAgrees(e, s.rules[id]) {
      var k := ListedRow(ruleRows, s.rules, RuleId, id);
      ReloadBringsRuleIntoAgreement(cfg, ruleRows, customRows, k);
    }
    forall id | id in s.customs && id !in s.rules && s.customs[id].ruleType.Io? && s.customs[id].patternValue != ""
      ensures Active(e, id, Io) <==> s.customs[id].enabled
    {
      var k := ListedRow(customRows, s.customs, CustomId, id);
      ReloadBringsCustomIoIntoAgreement(cfg, ruleRows, customRows, k);
    }
  }

  /** Deleting a built-in rule clears its row only. */
  ghost predicate LeavesRuleLive(s: State, op: Op) {
    op.Delete? && op.id !in s.customs && op.id in s.rules && s.rules[op.id].enabled
  }

  /** Deleting a custom rule that had taken the id of a built-in rule. */
  ghost predicate Uncovers(s: State, op: Op) {
    op.Delete? && op.id in s.customs && op.id in s.rules
  }

  lemma CreateKeepsRules(u: Setup, s: State, q: RuleCreate)
    requires WellKept(s) && RulesAgree(s)
    ensures RulesAgree(AfterCreate(u, s, q))
  {
    var t := AfterCreate(u, s, q);
    forall x | x in t.rules && x !in t.customs ensures RuleAgrees(t.engine, t.rules[x]) {
      assert RuleAgrees(s.engine, s.rules[x]);
      assert s.rules[x].id == RuleId(s.rules[x]) == x;
    }
  }

  /** What a change does to the engine entries of other rules: nothing. */
  lemma ChangeFrame(u: Setup, s: State, id: string, upd: RuleUpdate, x: string)
    requires WellKept(s) && x != id
    ensures var t := AfterChange(u, s, id, upd);
            && (x in t.engine.io <==> x in s.engine.io) && (x in t.engine.review <==> x in s.engine.review)
            && (x in s.engine.io ==> t.engine.io[x] == s.engine.io[x])
            && (x in s.engine.review ==> t.engine.review[x] == s.engine.review[x])
  {
    if id in s.customs {
      assert s.customs[id].id == CustomId(s.customs[id]) == id;
    }
  }

  lemma ChangeKeepsRules(u: Setup, s: State, id: string, upd: RuleUpdate)
    requires WellKept(s) && RulesAgree(s)
    ensures RulesAgree(AfterChange(u, s, id, upd))
  {
    var t := AfterChange(u, s, id, upd);
    forall x | x in t.rules && x !in t.customs ensures RuleAgrees(t.engine, t.rules[x]) {
      assert RuleAgrees(s.engine, s.rules[x]);
      assert s.rules[x].id == RuleId(s.rules[x]) == x;
      if x != id {
        ChangeFrame(u, s, id, upd, x);
      }
    }
  }

  lemma DeleteKeepsRulesIff(s: State, id: string)
    requires WellKept(s) && RulesAgree(s) && !(id in s.customs && id in s.rules)
    ensures RulesAgree(AfterDelete(s, id)) <==> !LeavesRuleLive(s, Delete(id))
  {
    var t := AfterDelete(s, id);
    if LeavesRuleLive(s, Delete(id)) {
      assert RuleAgrees(s.engine, s.rules[id]);
      assert !RuleAgrees(t.engine, t.rules[id]);
    } else {
      forall x | x in t.rules && x !in t.customs ensures RuleAgrees(t.engine, t.rules[x]) {
        assert RuleAgrees(s.engine, s.rules[x]);
        assert s.rules[x].id == RuleId(s.rules[x]) == x;
      }
    }
  }

  /** Of all operations that do not uncover a built-in rule, the deletion of an
      enabled built-in rule is the only one that breaks the agreement. */
  lemma StepKeepsRulesAgreeingIff(u: Setup, s: State, op: Op)
    requires WellKept(s) && RulesAgree(s) && Possible(u, s, op) && !Uncovers(s, op)
    ensures RulesAgree(After(u, s, op)) <==> !LeavesRuleLive(s, op)
  {
    EveryStepKeepsRowsTyped(u, s, op);
    match op
    case Create(q) => CreateKeepsRules(u, s, q);
    case Change(id, upd) => ChangeKeepsRules(u, s, id, upd);
    case Delete(id) => DeleteKeepsRulesIff(s, id);
    case Reload(dicts, rs, cs) => ReloadEstablishesAgreement(Config(u.known, dicts), s, rs, cs);
    case ImportRules(b, dicts, rs, cs) =>
      if Import(RuleScheme(u.m, b), s.rules, b.rules).Some? {
        ReloadEstablishesAgreement(Config(u.known, dicts), After(u, s, op), rs, cs);
      }
    case ImportCustoms(b) => ImportCustomsKeepsRules(u, s, b);
  }

  lemma {:induction false} SyncedAllEffect(known: set<string>, e: EngineState, customs: map<string, CustomRow>,
                                           bs: seq<BundleRule>, id: string)
    requires Keyed(customs, CustomId)
    ensures var t := SyncedAll(known, e, customs, bs);
            var goes := id in customs && customs[id].enabled && customs[id].patternValue != "" && exists b :: b in bs && b.id == id;
            && t.review == e.review
            && (goes ==> id in t.io && t.io[id] == CustomForEngine(Config(known, map[]), customs[id]))
            && (!goes ==> (id in t.io <==> id in e.io) && (id in e.io ==> t.io[id] == e.io[id]))
  {
    if bs != [] {
      var front, last := bs[..|bs| - 1], bs[|bs| - 1];
      SyncedAllEffect(known, e, customs, front, id);
      assert bs == front + [last];
      if last.id in customs {
        assert CustomId(customs[last.id]) == last.id;
      }
    }
  }

  lemma ImportCustomsKeepsRules(u: Setup, s: State, b: Bundle)
    requires WellKept(s) && RulesAgree(s)
    ensures RulesAgree(AfterImportCustoms(u, s, b))
  {
    if Import(CustomScheme(u.m, b), s.customs, b.rules).Some? {
      ImportKeys(CustomScheme(u.m, b), s.customs, b.rules);
      ImportsKeepRowsTyped(u, s, b);
      var customs := Import(CustomScheme(u.m, b), s.customs, b.rules).value.0;
      forall id | id in s.rules && id !in customs
        ensures RuleAgrees(SyncedAll(u.known, s.engine, customs, b.rules), s.rules[id])
      {
        assert RuleAgrees(s.engine, s.rules[id]);
        assert RuleId(s.rules[id]) == id;
        SyncedAllEffect(u.known, s.engine, customs, b.rules, id);
      }
    }
  }

  lemma ChangeKeepsCustoms(u: Setup, s: State, id: string, upd: RuleUpdate)
    requires WellKept(s) && CustomsAgree(s)
    ensures CustomsAgree(AfterChange(u, s, id, upd))
  {
    var t := AfterChange(u, s, id, upd);
    forall x | x in t.customs && x !in t.rules && t.customs[x].ruleType.Io? && t.customs[x].patternValue != ""
      ensures Active(t.engine, x, Io) <==> t.customs[x].enabled
    {
      assert t.customs[x].id == CustomId(s.customs[x]) == x;
      if x != id {
        ChangeFrame(u, s, id, upd, x);
      }
    }
  }

  lemma CreateOrDeleteKeepsCustoms(u: Setup, s: State, op: Op)
    requires WellKept(s) && CustomsAgree(s) && (op.Create? || op.Delete?)
    ensures CustomsAgree(After(u, s, op))
  {
  }

  /** The switch a bundle leaves a rule with that had it `on`: the last "enabled" it
      names for the id, if any. */
  function SwitchAfter(on: bool, bs: seq<BundleRule>, id: string): bool
    decreases |bs|
  {
    if bs == [] then on
    else SwitchAfter(if bs[0].id == id != "" then bs[0].enabled.GetOr(on) else on, bs[1..], id)
  }

  lemma {:induction false} EditedSwitch(m: Master, b: Bundle, c: CustomRow, bs: seq<BundleRule>, id: string)
    ensures Edited(CustomScheme(m, b), c, bs, id).enabled == SwitchAfter(c.enabled, bs, id)
    decreases |bs|
  {
    if bs != [] {
      EditedSwitch(m, b, if bs[0].id == id != "" then UpdatedCustom(m, b, c, bs[0]) else c, bs[1..], id);
    }
  }

  /** What a custom import will make of the rule under an id its bundle names, read
      off the table and the bundle: type, pattern value and switch. */
  datatype Prospect = Prospect(ruleType: RuleType, patternValue: string, enabled: bool)

  function Foreseen(m: Master, b: Bundle, customs: map<string, CustomRow>, id: string): Option<Prospect> {
    var last := Latest(CustomScheme(m, b), b.rules, id);
    if last.None? then None
    else if id in customs then
      Some(Prospect(TypeOf(StagesOf(last.value)), customs[id].patternValue, SwitchAfter(customs[id].enabled, b.rules, id)))
    else
      Some(Prospect(TypeOf(StagesOf(last.value)), FirstOf(DetectionOf(last.value).patterns.value).value.GetOr(""),
                    last.value.enabled.GetOr(true)))
  }

  /** What is foreseen is what happens; a rule the bundle does not name stays as it is. */
  lemma ForeseenHappens(m: Master, b: Bundle, customs: map<string, CustomRow>, id: string)
    requires Import(CustomScheme(m, b), customs, b.rules).Some?
    ensures var t := Import(CustomScheme(m, b), customs, b.rules).value.0;
            match Foreseen(m, b, customs, id)
            case None => (id in t <==> id in customs) && (id in customs ==> t[id] == customs[id])
            case Some(p) => id in t && p == Prospect(t[id].ruleType, t[id].patternValue, t[id].enabled)
  {
    var sch := CustomScheme(m, b);
    ImportedRow(sch, customs, b.rules, id);
    if id in customs {
      EditedSwitch(m, b, customs[id], b.rules, id);
      LastItemWins(sch, customs[id], b.rules, id, (c: CustomRow) => c.ruleType, (r: BundleRule) => TypeOf(StagesOf(r)));
      EditKeepsColumn(sch, customs[id], b.rules, id, (c: CustomRow) => c.patternValue);
      if Latest(sch, b.rules, id).None? {
        UnnamedIsUnedited(sch, customs[id], b.rules, id);
      }
    }
  }

  lemma {:induction false} UnnamedIsUnedited<R, B>(sch: Scheme<R, B>, row: R, bs: seq<B>, id: string)
    requires Latest(sch, bs, id).None?
    ensures Edited(sch, row, bs, id) == row
    decreases |bs|
  {
    if bs != [] {
      UnnamedIsUnedited(sch, row, bs[1..], id);
    }
  }

  /** The import will switch off, in the table only, an input/output rule that is live. */
  predicate DisablesLive(u: Setup, s: State, b: Bundle, id: string) {
    var p := Foreseen(u.m, b, s.customs, id);
    && p.Some? && id !in s.rules && p.value.ruleType.Io? && p.value.patternValue != ""
    && !p.value.enabled && Active(s.engine, id, Io)
  }

  /** A custom import that succeeds and disables a live rule. */
  predicate LeavesCustomLive(u: Setup, s: State, op: Op) {
    && op.ImportCustoms?
    && Import(CustomScheme(u.m, op.bundle), s.customs, op.bundle.rules).Some?
    && exists i :: 0 <= i < |op.bundle.rules| && DisablesLive(u, s, op.bundle, op.bundle.rules[i].id)
  }

  /** A custom import only ever adds to the engine. Afterwards custom input/output
      rules agree exactly unless the bundle switches off one that is live: it stays
      live until the next reload. */
  lemma CustomImportAgreesIff(u: Setup, s: State, b: Bundle)
    requires WellKept(s) && CustomsAgree(s)
    ensures CustomsAgree(AfterImportCustoms(u, s, b)) <==> !LeavesCustomLive(u, s, ImportCustoms(b))
  {
    var t := AfterImportCustoms(u, s, b);
    if Import(CustomScheme(u.m, b), s.customs, b.rules).Some? {
      forall id | id in t.customs && id !in t.rules && t.customs[id].ruleType.Io? && t.customs[id].patternValue != ""
        ensures (Active(t.engine, id, Io) <==> t.customs[id].enabled) <==> !DisablesLive(u, s, b, id)
      {
        CustomImportAgreesAt(u, s, b, id);
      }
      forall id | DisablesLive(u, s, b, id) ensures LeavesCustomLive(u, s, ImportCustoms(b)) && id in t.customs {
        ForeseenHappens(u.m, b, s.customs, id);
        var last := Latest(CustomScheme(u.m, b), b.rules, id).value;
        var i :| 0 <= i < |b.rules| && b.rules[i] == last;
        assert b.rules[i].id == id;
      }
      if LeavesCustomLive(u, s, ImportCustoms(b)) {
        var i :| 0 <= i < |b.rules| && DisablesLive(u, s, b, b.rules[i].id);
        ForeseenHappens(u.m, b, s.customs, b.rules[i].id);
      }
    }
  }

  lemma CustomImportAgreesAt(u: Setup, s: State, b: Bundle, id: string)
    requires WellKept(s) && CustomsAgree(s)
    requires Import(CustomScheme(u.m, b), s.customs, b.rules).Some?
    requires var t := AfterImportCustoms(u, s, b);
             id in t.customs && id !in t.rules && t.customs[id].ruleType.Io? && t.customs[id].patternValue != ""
    ensures var t := AfterImportCustoms(u, s, b);
            (Active(t.engine, id, Io) <==> t.customs[id].enabled) <==> !DisablesLive(u, s, b, id)
  {
    var t := AfterImportCustoms(u, s, b);
    EveryStepKeepsRowsTyped(u, s, ImportCustoms(b));
    SyncedAllEffect(u.known, s.engine, t.customs, b.rules, id);
    ForeseenHappens(u.m, b, s.customs, id);
  }

  /** Of all operations, a custom import that disables a live rule is the only one
      that breaks the agreement of custom input/output rules. */
  lemma StepKeepsCustomsAgreeingIff(u: Setup, s: State, op: Op)
    requires WellKept(s) && CustomsAgree(s) && Possible(u, s, op)
    ensures CustomsAgree(After(u, s, op)) <==> !LeavesCustomLive(u, s, op)
  {
    EveryStepKeepsRowsTyped(u, s, op);
    match op
    case Create(_) => CreateOrDeleteKeepsCustoms(u, s, op);
    case Delete(_) => CreateOrDeleteKeepsCustoms(u, s, op);
    case Change(id, upd) => ChangeKeepsCustoms(u, s, id, upd);
    case Reload(dicts, rs, cs) => ReloadEstablishesAgreement(Config(u.known, dicts), s, rs, cs);
    case ImportRules(b, dicts, rs, cs) =>
      if Import(RuleScheme(u.m, b), s.rules, b.rules).Some? {
        ReloadEstablishesAgreement(Config(u.known, dicts), After(u, s, op), rs, cs);
      }
    case ImportCustoms(b) => CustomImportAgreesIff(u, s, b);
  }

  // ---- Whole runs ----

  /** A run of operations, the latest outermost. */
  datatype Run = Start(State) | Then(before: Run, op: Op)

  function End(u: Setup, run: Run): State {
    match run
    case Start(s) => s
    case Then(before, op) => After(u, End(u, before), op)
  }

  /** Every operation could happen, and none uncovers or leaves live a built-in rule. */
  ghost predicate Careful(u: Setup, run: Run) {
    match run
    case Start(s) => WellKept(s) && RulesAgree(s)
    case Then(before, op) =>
      var s := End(u, before);
      Careful(u, before) && Possible(u, s, op) && !Uncovers(s, op) && !LeavesRuleLive(s, op)
  }

  /** Agreement holds at the end of every such run, however long and mixed. */
  lemma {:induction false} AgreementOverRuns(u: Setup, run: Run)
    requires Careful(u, run)
    ensures WellKept(End(u, run)) && RulesAgree(End(u, run))
  {
    match run
    case Start(_) =>
    case Then(before, op) =>
      AgreementOverRuns(u, before);
      EveryStepKeepsRowsTyped(u, End(u, before), op);
      StepKeepsRulesAgreeingIff(u, End(u, before), op);
  }

  /** Every operation could happen, and no custom import disables a live rule. */
  ghost predicate CarefulWithCustoms(u: Setup, run: Run) {
    match run
    case Start(s) => WellKept(s) && CustomsAgree(s)
    case Then(before, op) =>
      var s := End(u, before);
      CarefulWithCustoms(u, before) && Possible(u, s, op) && !LeavesCustomLive(u, s, op)
  }

  /** Custom input/output rules agree at the end of every such run. */
  lemma {:induction false} CustomAgreementOverRuns(u: Setup, run: Run)
    requires CarefulWithCustoms(u, run)
    ensures WellKept(End(u, run)) && CustomsAgree(End(u, run))
  {
    match run
    case Start(_) =>
    case Then(before, op) =>
      CustomAgreementOverRuns(u, before);
      EveryStepKeepsRowsTyped(u, End(u, before), op);
      StepKeepsCustomsAgreeingIff(u, End(u, before), op);
  }

  /** Operations at all, with no condition but that they could happen. */
  ghost predicate Arbitrary(u: Setup, run: Run) {
    match run
    case Start(s) => WellKept(s)
    case Then(before, op) => Arbitrary(u, before) && Possible(u, End(u, before), op)
  }

  lemma {:induction false} AlwaysWellKept(u: Setup, run: Run)
    requires Arbitrary(u, run)
    ensures WellKept(End(u, run))
  {
    match run
    case Start(_) =>
    case Then(before, op) =>
      AlwaysWellKept(u, before);
      EveryStepKeepsRowsTyped(u, End(u, before), op);
  }

  /** Whatever has happened before, deletions of built-in rules included, a reload
      restores agreement. */
  lemma ReloadRestoresAgreement(u: Setup, run: Run, dicts: DictMap, ruleRows: seq<RuleRow>, customRows: seq<CustomRow>)
    requires Arbitrary(u, Then(run, Reload(dicts, ruleRows, customRows)))
    ensures RulesAgree(End(u, Then(run, Reload(dicts, ruleRows, customRows))))
    ensures CustomsAgree(End(u, Then(run, Reload(dicts, ruleRows, customRows))))
  {
    AlwaysWellKept(u, run);
    ReloadEstablishesAgreement(Config(u.known, dicts), End(u, run), ruleRows, customRows);
  }

  // ---- Rules left live ----

  /** One enabled built-in rule, in agreement with the engine. */
  function OneRule(): State {
    var r := RuleExport.PLAIN_RULE;
    State(map[r.id := r], map[], EngineState(map[r.id := Definition(r.id, [], r.stages, true)], map[]))
  }

  /** Deleting it leaves it live. */
  lemma DeletedRuleStaysLiveExample(u: Setup)
    ensures WellKept(OneRule()) && RulesAgree(OneRule())
    ensures !RulesAgree(After(u, OneRule(), Delete("I-01")))
  {
    var s := OneRule();
    assert WellKept(s) && RulesAgree(s) by {
      assert forall id :: id in s.rules ==> id == "I-01";
    }
    StepKeepsRulesAgreeingIff(u, s, Delete("I-01"));
  }

  /** One enabled custom rule, as its creation leaves it. */
  function OneCustom(u: Setup): State {
    After(u, State(map[], map[], EngineState(map[], map[])),
          Create(RuleCreate("U-01", "A rule", None, None, "P2", "warn", "regex", "secret", None, ["input"], None, true)))
  }

  const OFF := Bundle("CUSTOM", None, 1, [Named("U-01").(enabled := Some(false))])

  lemma OffDisables(u: Setup)
    ensures DisablesLive(u, OneCustom(u), OFF, "U-01")
    ensures Import(CustomScheme(u.m, OFF), OneCustom(u).customs, OFF.rules).Some?
  {
    var s, b, sch := OneCustom(u), OFF.rules[0], CustomScheme(u.m, OFF);
    assert OFF.rules == [b] && [b][1..] == [];
    assert Latest(sch, [], "U-01") == None;
    assert Latest(sch, OFF.rules, "U-01") == Some(b);
    assert SwitchAfter(true, OFF.rules, "U-01") == SwitchAfter(false, [], "U-01") == false;
    ImportFailsIff(sch, s.customs, OFF.rules);
  }

  lemma OneCustomAgrees(u: Setup)
    ensures WellKept(OneCustom(u)) && CustomsAgree(OneCustom(u))
  {
    assert OneCustom(u).customs.Keys == {"U-01"};
  }

  /** Importing a bundle that disables it leaves it live. */
  lemma DisabledByImportExample(u: Setup)
    ensures WellKept(OneCustom(u)) && CustomsAgree(OneCustom(u))
    ensures !CustomsAgree(After(u, OneCustom(u), ImportCustoms(OFF)))
  {
    OneCustomAgrees(u);
    OffDisables(u);
    assert OFF.rules[0].id == "U-01";
    CustomImportAgreesIff(u, OneCustom(u), OFF);
  }

  // ---- The service ----

  /** The rule tables, the session they are written through, and the live engine. */
  class RulesService {
    const setup: Setup
    const engine: Engine
    var rules: map<string, RuleRow>
    var customs: map<string, CustomRow>

    constructor (u: Setup, e: Engine)
      ensures setup == u && engine == e && rules == map[] && customs == map[]
    {
      setup, engine := u, e;
      rules, customs := map[], map[];
    }

    function View(): State
      reads this, engine
    {
      State(rules, customs, engine.State())
    }

    method SyncToEngine(c: CustomRow)
      modifies engine
      ensures engine.State() == Synced(setup.known, old(engine.State()), c)
    {
      if c.patternValue != "" {
        engine.AddCustomRule(CustomForEngine(Config(setup.known, map[]), c));
      }
    }

    method CreateRule(q: RuleCreate) returns (ok: bool)
      requires Keyed(customs, CustomId)
      modifies this, engine
      ensures View() == AfterCreate(setup, old(View()), q)
      ensures ok <==> "U-" <= q.id && q.id !in old(customs)
    {
      if !("U-" <= q.id) || q.id in customs {
        return false;
      }
      var c := CreatedRow(setup.m, q);
      customs := customs[q.id := c];
      SyncToEngine(c);
      return true;
    }

    method UpdateRule(id: string, upd: RuleUpdate) returns (found: bool)
      modifies this, engine
      ensures View() == AfterChange(setup, old(View()), id, upd)
      ensures found <==> id in old(customs) || id in old(rules)
    {
      if id in customs {
        var c := UpdatedRow(setup.m, customs[id], upd);
        customs := customs[id := c];
        engine.RemoveCustomRule(id);
        if c.enabled {
          SyncToEngine(c);
        }
        return true;
      }
      if id !in rules {
        return false;
      }
      if upd.enabled.Some? {
        rules := rules[id := rules[id].(enabled := upd.enabled.value)];
        var known := engine.SwitchRule(id, upd.enabled.value);
        if !known {
          var _ := engine.SwitchReviewRule(id, upd.enabled.value);
        }
      }
      return true;
    }

    method DeleteRule(id: string) returns (found: bool)
      modifies this, engine
      ensures View() == AfterDelete(old(View()), id)
      ensures found <==> id in old(customs) || id in old(rules)
    {
      if id in customs {
        customs := customs - {id};
        engine.RemoveCustomRule(id);
        return true;
      }
      if id in rules {
        rules := rules[id := rules[id].(enabled := false)];
        return true;
      }
      return false;
    }

    /** Rebuilds the engine from the rows; `raised` tells whether it was cut short. */
    method ReloadRulesFromDb(dicts: DictMap, ruleRows: seq<RuleRow>, customRows: seq<CustomRow>)
      returns (raised: bool)
      modifies engine
      ensures Reloading(engine.State(), raised) == Reloaded(Config(setup.known, dicts), ruleRows, customRows)
    {
      LoadEverything(Config(setup.known, dicts), ruleRows, customRows);
      raised := SwitchOffDisabledRules(ruleRows);
      if !raised {
        raised := SwitchOffDisabledCustoms(customRows);
      } else {
        RaisedStays(Reloading(engine.State(), true), customRows);
      }
    }

    method LoadEverything(cfg: Config, ruleRows: seq<RuleRow>, customRows: seq<CustomRow>)
      modifies engine
      ensures engine.State() == Loaded(cfg, ruleRows, customRows)
    {
      var ioRules := FilterMapLoop(RuleToEngine(cfg), ruleRows);
      var ioCustoms := FilterMapLoop(CustomToEngine(cfg), customRows);
      var reviewRules := FilterMapLoop(RuleToScanner(cfg), ruleRows);
      engine.SetRules(reviewRules);
      var reviewCustoms := FilterMapLoop(CustomToScanner(), customRows);
      AddReviewRules(reviewCustoms);
      ByIdAppend(reviewRules, reviewCustoms);
      engine.LoadRulesFromList(ioRules + ioCustoms);
    }

    method AddReviewRules(defs: seq<Definition>)
      modifies engine
      ensures engine.io == old(engine.io)
      ensures engine.review == old(engine.review) + ById(defs)
    {
      for i := 0 to |defs|
        invariant engine.io == old(engine.io)
        invariant engine.review == old(engine.review) + ById(defs[..i])
      {
        assert defs[..i + 1] == defs[..i] + [defs[i]];
        ByIdSnoc(defs[..i], defs[i]);
        engine.AddReviewRule(defs[i]);
      }
      assert defs[..|defs|] == defs;
    }

    method SwitchOffDisabledRules(ruleRows: seq<RuleRow>) returns (raised: bool)
      modifies engine
      ensures Reloading(engine.State(), raised) == SwitchOffRules(Reloading(old(engine.State()), false), ruleRows)
    {
      raised := false;
      for i := 0 to |ruleRows|
        invariant Reloading(engine.State(), raised) == SwitchOffRules(Reloading(old(engine.State()), false), ruleRows[..i])
      {
        var r := ruleRows[i];
        assert ruleRows[..i + 1][..i] == ruleRows[..i];
        if !raised && !r.enabled {
          if r.ruleType.CodeReview? {
            var _ := engine.SwitchReviewRule(r.id, false);
          } else {
            var found := engine.SwitchRule(r.id, false);
            raised := !found;
          }
        }
      }
      assert ruleRows[..|ruleRows|] == ruleRows;
    }

    method SwitchOffDisabledCustoms(customRows: seq<CustomRow>) returns (raised: bool)
      modifies engine
      ensures Reloading(engine.State(), raised) == SwitchOffCustoms(Reloading(old(engine.State()), false), customRows)
    {
      raised := false;
      for i := 0 to |customRows|
        invariant Reloading(engine.State(), raised) == SwitchOffCustoms(Reloading(old(engine.State()), false), customRows[..i])
      {
        var c := customRows[i];
        assert customRows[..i + 1][..i] == customRows[..i];
        if !raised && !c.enabled {
          if c.ruleType.CodeReview? {
            engine.RemoveReviewRule(c.id);
          } else {
            var found := engine.SwitchRule(c.id, false);
            raised := !found;
          }
        }
      }
      assert customRows[..|customRows|] == customRows;
    }

    /** Imports a bundle into the built-in table, then reloads the engine from the
        rows the queries return. A violated key rolls the import back and leaves
        the engine alone. */
    method ImportRulesFromBundle(bundle: Bundle, dicts: DictMap,
                                 queryRules: map<string, RuleRow> -> seq<RuleRow>,
                                 queryCustoms: map<string, CustomRow> -> seq<CustomRow>)
      returns (stats: Option<Stats>)
      modifies this, engine
      ensures View() == AfterImportRules(setup, old(View()), bundle, dicts, queryRules(rules), queryCustoms(customs))
      ensures match Import(RuleScheme(setup.m, bundle), old(rules), bundle.rules)
              case None => stats.None?
              case Some(done) => stats == Some(done.1)
    {
      stats := ImportRuleRows(bundle);
      if stats.Some? {
        var _ := ReloadRulesFromDb(dicts, queryRules(rules), queryCustoms(customs));
      }
    }

    method ImportRuleRows(bundle: Bundle) returns (stats: Option<Stats>)
      modifies this`rules
      ensures match Import(RuleScheme(setup.m, bundle), old(rules), bundle.rules)
              case None => stats.None? && rules == old(rules)
              case Some(done) => stats == Some(done.1) && rules == done.0
    {
      var session := new Session<RuleRow>(rules);
      stats := ImportInto(RuleScheme(setup.m, bundle), session, bundle.rules);
      rules := session.committed;
    }

    /** Imports a bundle into the custom table, then hands the enabled rules of the
        bundle to the live engine. */
    method ImportCustomsFromBundle(bundle: Bundle) returns (stats: Option<Stats>)
      requires Keyed(customs, CustomId)
      modifies this, engine
      ensures View() == AfterImportCustoms(setup, old(View()), bundle)
      ensures match Import(CustomScheme(setup.m, bundle), old(customs), bundle.rules)
              case None => stats.None?
              case Some(done) => stats == Some(done.1)
    {
      var session := new Session<CustomRow>(customs);
      stats := ImportInto(CustomScheme(setup.m, bundle), session, bundle.rules);
      customs := session.committed;
      if stats.None? {
        return;
      }
      ghost var imported := customs;
      for i := 0 to |bundle.rules|
        invariant rules == old(rules) && customs == imported
        invariant engine.State() == SyncedAll(setup.known, old(engine.State()), customs, bundle.rules[..i])
      {
        var id := bundle.rules[i].id;
        assert bundle.rules[..i + 1][..i] == bundle.rules[..i];
        if id in customs && customs[id].enabled {
          SyncToEngine(customs[id]);
        }
      }
      assert bundle.rules[..|bundle.rules|] == bundle.rules;
    }
  }

  lemma {:induction false} RaisedStays(s: Reloading, customRows: seq<CustomRow>)
    requires s.raised
    ensures SwitchOffCustoms(s, customRows) == s
  {
    if customRows != [] {
      RaisedStays(s, customRows[..|customRows| - 1]);
    }
  }
}
