/**
 * The live engine and the rule store that is mirrored into it: reload, the
 * incremental updates of the rule operations, and when the two agree.
 */
module RuleEngine {
  import opened Common
  import opened Patterns
  import opened Upsert
  import opened RuleTables
  import Dictionaries

  // ---- The engine, as far as the program relies on it ----

  /** A rule as held by the engine or its code-review scanner. */
  datatype Definition = Definition(id: string, patterns: seq<SdkPattern>, stages: seq<string>, enabled: bool)

  /** Input/output rules and code-review rules by id. */
  datatype EngineState = EngineState(io: map<string, Definition>, review: map<string, Definition>)

  /** The definitions of a list by id; of two with one id the later counts. */
  function ById(defs: seq<Definition>): map<string, Definition> {
    if defs == [] then map[]
    else ById(defs[..|defs| - 1])[defs[|defs| - 1].id := defs[|defs| - 1]]
  }

  function Switched(rules: map<string, Definition>, id: string, on: bool): map<string, Definition>
    requires id in rules
  {
    rules[id := rules[id].(enabled := on)]
  }

  /** The contracts assumed of the engine. */
  class Engine {
    var io: map<string, Definition>
    var review: map<string, Definition>

    function State(): EngineState
      reads this
    {
      EngineState(io, review)
    }

    constructor ()
      ensures State() == EngineState(map[], map[])
    {
      io, review := map[], map[];
    }

    /** Replaces all input/output rules; earlier switches are forgotten. */
    method LoadRulesFromList(defs: seq<Definition>)
      modifies this`io
      ensures io == ById(defs)
    {
      io := ById(defs);
    }

    /** Replaces all code-review rules; earlier switches are forgotten. */
    method SetRules(defs: seq<Definition>)
      modifies this`review
      ensures review == ById(defs)
    {
      review := ById(defs);
    }

    method AddReviewRule(def: Definition)
      modifies this`review
      ensures review == old(review)[def.id := def]
    {
      review := review[def.id := def];
    }

    method AddCustomRule(def: Definition)
      modifies this`io
      ensures io == old(io)[def.id := def]
    {
      io := io[def.id := def];
    }

    /** Removing an unknown rule does nothing. */
    method RemoveCustomRule(id: string)
      modifies this`io
      ensures io == old(io) - {id}
    {
      io := io - {id};
    }

    method RemoveReviewRule(id: string)
      modifies this`review
      ensures review == old(review) - {id}
    {
      review := review - {id};
    }

    /** Switches an input/output rule; an unknown id is an error and changes nothing. */
    method SwitchRule(id: string, on: bool) returns (found: bool)
      modifies this`io
      ensures found == (id in old(io))
      ensures io == if found then Switched(old(io), id, on) else old(io)
    {
      found := id in io;
      if found {
        io := Switched(io, id, on);
      }
    }

    method SwitchReviewRule(id: string, on: bool) returns (found: bool)
      modifies this`review
      ensures found == (id in old(review))
      ensures review == if found then Switched(old(review), id, on) else old(review)
    {
      found := id in review;
      if found {
        review := Switched(review, id, on);
      }
    }
  }

  // ---- From rows to definitions ----

  /** The pattern kinds the engine knows and the active dictionaries. */
  datatype Config = Config(known: set<string>, dicts: DictMap)

  predicate IsBatch(stages: seq<string>) { "batch" in stages }

  function OrInput(stages: seq<string>): seq<string> {
    if stages == [] then ["input"] else stages
  }

  function RuleDefinition(cfg: Config, conv: Converter, r: RuleRow): Definition {
    Definition(r.id, DefinitionPatterns(conv, r.detection.patterns.GetOr([]), cfg.dicts), OrInput(r.stages), true)
  }

  /** The one pattern that simple pattern fields stand for. */
  function SimplePattern(kind: string, value: string, confidence: real): Pattern {
    Pattern(Some(if kind == "" then "regex" else kind), Some(value), None, Some(confidence))
  }

  /** A custom row is turned into a definition by its simple pattern fields only;
      without a pattern value there is none. Dictionaries are not looked at. */
  function CustomDefinition(conv: Converter, r: CustomRow, enabled: bool): Definition
    requires r.patternValue != ""
  {
    Definition(r.id, [conv(SimplePattern(r.patternType, r.patternValue, r.patternConfidence.GetOr(0.8)))],
               OrInput(r.stages), enabled)
  }

  function RuleForEngine(cfg: Config, r: RuleRow): Definition {
    RuleDefinition(cfg, IoPattern(cfg.known), r)
  }

  function RuleForScanner(cfg: Config, r: RuleRow): Definition {
    RuleDefinition(cfg, ScannerPattern(), r)
  }

  /** The engine is told whether a custom rule is enabled. */
  function CustomForEngine(cfg: Config, r: CustomRow): Definition
    requires r.patternValue != ""
  {
    CustomDefinition(IoPattern(cfg.known), r, r.enabled)
  }

  /** The scanner is not: a custom rule is added to it switched on. */
  function CustomForScanner(r: CustomRow): Definition
    requires r.patternValue != ""
  {
    CustomDefinition(ScannerPattern(), r, true)
  }

  // ---- Reload ----

  /** Built-in rows go to the engine unless they are for batch scans. */
  function RuleToEngine(cfg: Config): RuleRow -> Option<Definition> {
    (r: RuleRow) => if IsBatch(OrInput(r.stages)) then None else Some(RuleForEngine(cfg, r))
  }

  function CustomToEngine(cfg: Config): CustomRow -> Option<Definition> {
    (c: CustomRow) =>
      if c.patternValue == "" || IsBatch(OrInput(c.stages)) then None else Some(CustomForEngine(cfg, c))
  }

  /** Rows typed code review go to the scanner. */
  function RuleToScanner(cfg: Config): RuleRow -> Option<Definition> {
    (r: RuleRow) => if r.ruleType.CodeReview? then Some(RuleForScanner(cfg, r)) else None
  }

  function CustomToScanner(): CustomRow -> Option<Definition> {
    (c: CustomRow) =>
      if c.patternValue != "" && c.ruleType.CodeReview? then Some(CustomForScanner(c)) else None
  }

  /** What the engine holds before the disabled rows are switched off. */
  function Loaded(cfg: Config, rules: seq<RuleRow>, customs: seq<CustomRow>): EngineState {
    EngineState(
      ById(FilterMap(RuleToEngine(cfg), rules) + FilterMap(CustomToEngine(cfg), customs)),
      ById(FilterMap(RuleToScanner(cfg), rules) + FilterMap(CustomToScanner(), customs)))
  }

  /** Engine state, and whether the not-found error nobody catches has ended the reload. */
  datatype Reloading = Reloading(engine: EngineState, raised: bool)

  /** A disabled built-in row is switched off in the scanner, where an unknown id is
      forgiven, or in the engine, where it is not. */
  function SwitchOffRule(s: Reloading, r: RuleRow): Reloading {
    if s.raised || r.enabled then s
    else if r.ruleType.CodeReview? then
      if r.id in s.engine.review then
        s.(engine := s.engine.(review := Switched(s.engine.review, r.id, false)))
      else s
    else if r.id in s.engine.io then s.(engine := s.engine.(io := Switched(s.engine.io, r.id, false)))
    else s.(raised := true)
  }

  /** A disabled custom row is removed from the scanner or switched off in the engine. */
  function SwitchOffCustom(s: Reloading, c: CustomRow): Reloading {
    if s.raised || c.enabled then s
    else if c.ruleType.CodeReview? then
      s.(engine := s.engine.(review := s.engine.review - {c.id}))
    else if c.id in s.engine.io then s.(engine := s.engine.(io := Switched(s.engine.io, c.id, false)))
    else s.(raised := true)
  }

  function SwitchOffRules(s: Reloading, rules: seq<RuleRow>): Reloading {
    if rules == [] then s
    else SwitchOffRule(SwitchOffRules(s, rules[..|rules| - 1]), rules[|rules| - 1])
  }

  function SwitchOffCustoms(s: Reloading, customs: seq<CustomRow>): Reloading {
    if customs == [] then s
    else SwitchOffCustom(SwitchOffCustoms(s, customs[..|customs| - 1]), customs[|customs| - 1])
  }

  /** The engine after a reload; the rows come in whatever order the queries give. */
  function Reloaded(cfg: Config, rules: seq<RuleRow>, customs: seq<CustomRow>): Reloading {
    SwitchOffCustoms(SwitchOffRules(Reloading(Loaded(cfg, rules, customs), false), rules), customs)
  }

  lemma {:induction false} ByIdAppend(a: seq<Definition>, b: seq<Definition>)
    ensures ById(a + b) == ById(a) + ById(b)
  {
    if b == [] {
      assert a + b == a;
    } else {
      ByIdAppend(a, b[..|b| - 1]);
      assert (a + b)[..|a + b| - 1] == a + b[..|b| - 1];
    }
  }

  ghost predicate DistinctBy<R>(rows: seq<R>, idOf: R -> string) {
    forall i, j :: 0 <= i < j < |rows| ==> idOf(rows[i]) != idOf(rows[j])
  }

  /** Some row has this id. */
  ghost predicate HasId<R>(rows: seq<R>, idOf: R -> string, id: string) {
    exists i :: 0 <= i < |rows| && idOf(rows[i]) == id
  }

  ghost predicate KeepsId<R(!new)>(define: R -> Option<Definition>, idOf: R -> string) {
    forall r :: define(r).Some? ==> define(r).value.id == idOf(r)
  }

  lemma {:induction false} CollectOnlyRows<R(!new)>(define: R -> Option<Definition>, rows: seq<R>, idOf: R -> string, id: string)
    requires KeepsId(define, idOf) && id in ById(FilterMap(define, rows))
    ensures HasId(rows, idOf, id)
  {
    var front := rows[..|rows| - 1];
    var r := rows[|rows| - 1];
    if idOf(r) != id {
      if define(r).Some? {
        ByIdAppend(FilterMap(define, front), [define(r).value]);
      }
      CollectOnlyRows(define, front, idOf, id);
      var i :| 0 <= i < |front| && idOf(front[i]) == id;
      assert rows[i] == front[i];
    }
  }

  /** Each row is found under its id with its own definition, or not at all. */
  lemma {:induction false} CollectFindsRow<R(!new)>(define: R -> Option<Definition>, rows: seq<R>, idOf: R -> string, k: nat)
    requires KeepsId(define, idOf) && DistinctBy(rows, idOf) && k < |rows|
    ensures var found := ById(FilterMap(define, rows));
            && (idOf(rows[k]) in found <==> define(rows[k]).Some?)
            && (define(rows[k]).Some? ==> found[idOf(rows[k])] == define(rows[k]).value)
  {
    var front, r := rows[..|rows| - 1], rows[|rows| - 1];
    if define(r).Some? {
      ByIdSnoc(FilterMap(define, front), define(r).value);
    }
    if k < |front| {
      CollectFindsRow(define, front, idOf, k);
    } else if idOf(r) in ById(FilterMap(define, front)) {
      CollectOnlyRows(define, front, idOf, idOf(r));
    }
  }

  lemma ByIdSnoc(defs: seq<Definition>, d: Definition)
    ensures ById(defs + [d]) == ById(defs)[d.id := d]
  {
    assert (defs + [d])[..|defs|] == defs;
  }

  lemma LoadedRule(cfg: Config, rules: seq<RuleRow>, customs: seq<CustomRow>, k: nat)
    requires DistinctBy(rules, RuleId) && k < |rules| && RuleTyped(rules[k])
    requires !HasId(customs, CustomId, rules[k].id)
    ensures var r, e := rules[k], Loaded(cfg, rules, customs);
            && (r.id in e.io <==> r.ruleType.Io?)
            && (r.id in e.review <==> r.ruleType.CodeReview?)
            && (r.ruleType.Io? ==> e.io[r.id] == RuleForEngine(cfg, r))
            && (r.ruleType.CodeReview? ==> e.review[r.id] == RuleForScanner(cfg, r))
  {
    var r := rules[k];
    CollectFindsRow(RuleToEngine(cfg), rules, RuleId, k);
    CollectFindsRow(RuleToScanner(cfg), rules, RuleId, k);
    ByIdAppend(FilterMap(RuleToEngine(cfg), rules), FilterMap(CustomToEngine(cfg), customs));
    ByIdAppend(FilterMap(RuleToScanner(cfg), rules), FilterMap(CustomToScanner(), customs));
    NotCollected(CustomToEngine(cfg), customs, CustomId, r.id);
    NotCollected(CustomToScanner(), customs, CustomId, r.id);
  }

  lemma NotCollected<R(!new)>(define: R -> Option<Definition>, rows: seq<R>, idOf: R -> string, id: string)
    requires KeepsId(define, idOf) && !HasId(rows, idOf, id)
    ensures id !in ById(FilterMap(define, rows))
  {
    if id in ById(FilterMap(define, rows)) {
      CollectOnlyRows(define, rows, idOf, id);
    }
  }

  lemma LoadedCustom(cfg: Config, rules: seq<RuleRow>, customs: seq<CustomRow>, k: nat)
    requires DistinctBy(customs, CustomId) && k < |customs| && CustomTyped(customs[k])
    requires !HasId(rules, RuleId, customs[k].id)
    ensures var c, e := customs[k], Loaded(cfg, rules, customs);
            && (c.id in e.io <==> c.ruleType.Io? && c.patternValue != "")
            && (c.id in e.review <==> c.ruleType.CodeReview? && c.patternValue != "")
            && (c.id in e.io ==> e.io[c.id] == CustomForEngine(cfg, c))
            && (c.id in e.review ==> e.review[c.id] == CustomForScanner(c))
  {
    var c := customs[k];
    CollectFindsRow(CustomToEngine(cfg), customs, CustomId, k);
    CollectFindsRow(CustomToScanner(), customs, CustomId, k);
    ByIdAppend(FilterMap(RuleToEngine(cfg), rules), FilterMap(CustomToEngine(cfg), customs));
    ByIdAppend(FilterMap(RuleToScanner(cfg), rules), FilterMap(CustomToScanner(), customs));
    NotCollected(RuleToEngine(cfg), rules, RuleId, c.id);
    NotCollected(RuleToScanner(cfg), rules, RuleId, c.id);
  }

  /** Every input/output row is known to the engine. */
  ghost predicate SwitchesAreKnown(e: EngineState, rules: seq<RuleRow>) {
    forall i :: 0 <= i < |rules| && rules[i].ruleType.Io? ==> rules[i].id in e.io
  }

  function OffUnless(d: Definition, on: bool): Definition {
    d.(enabled := d.enabled && on)
  }

  /** The row's own entry is switched off if the row is disabled; nothing else about it changes. */
  ghost predicate SwitchedAs(r: RuleRow, before: EngineState, after: EngineState) {
    && (r.ruleType.Io? && r.id in before.io ==>
          r.id in after.io && after.io[r.id] == OffUnless(before.io[r.id], r.enabled))
    && (r.ruleType.CodeReview? && r.id in before.review ==>
          r.id in after.review && after.review[r.id] == OffUnless(before.review[r.id], r.enabled))
  }

  /** Nothing happens to an entry. */
  ghost predicate SameEntry(id: string, before: EngineState, after: EngineState) {
    && (id in before.io ==> id in after.io && after.io[id] == before.io[id])
    && (id in before.review ==> id in after.review && after.review[id] == before.review[id])
  }

  lemma SwitchOffRuleEffect(s: Reloading, r: RuleRow)
    requires !s.raised && (r.ruleType.Io? ==> r.id in s.engine.io)
    ensures var t := SwitchOffRule(s, r);
            && !t.raised
            && t.engine.io.Keys == s.engine.io.Keys && t.engine.review.Keys == s.engine.review.Keys
            && SwitchedAs(r, s.engine, t.engine)
            && forall id :: id != r.id ==> SameEntry(id, s.engine, t.engine)
  {
  }

  /** What switching off the built-in rows does to each of them. */
  lemma {:induction false} SwitchOffRulesEffect(s: Reloading, rules: seq<RuleRow>)
    requires !s.raised && DistinctBy(rules, RuleId) && SwitchesAreKnown(s.engine, rules)
    ensures var t := SwitchOffRules(s, rules);
            && !t.raised
            && t.engine.io.Keys == s.engine.io.Keys && t.engine.review.Keys == s.engine.review.Keys
            && (forall i :: 0 <= i < |rules| ==> SwitchedAs(rules[i], s.engine, t.engine))
            && forall id :: !HasId(rules, RuleId, id) ==> SameEntry(id, s.engine, t.engine)
  {
    if rules != [] {
      var front, r := rules[..|rules| - 1], rules[|rules| - 1];
      SwitchOffRulesEffect(s, front);
      var u := SwitchOffRules(s, front);
      SwitchOffRuleEffect(u, r);
      var t := SwitchOffRule(u, r);
      assert !HasId(front, RuleId, RuleId(r));
      assert SameEntry(r.id, s.engine, u.engine);
      forall i | 0 <= i < |front| ensures SwitchedAs(rules[i], s.engine, t.engine) {
        assert front[i] == rules[i] && RuleId(rules[i]) != RuleId(rules[|front|]);
        assert SwitchedAs(front[i], s.engine, u.engine) && SameEntry(front[i].id, u.engine, t.engine);
      }
      forall id | !HasId(rules, RuleId, id) ensures SameEntry(id, s.engine, t.engine) {
        assert RuleId(rules[|front|]) != id;
        assert !HasId(front, RuleId, id);
      }
    }
  }

  /** Switching off custom rows does not touch entries under other ids. */
  lemma {:induction false} SwitchOffCustomsFrame(s: Reloading, customs: seq<CustomRow>, id: string)
    requires !HasId(customs, CustomId, id)
    ensures var t := SwitchOffCustoms(s, customs);
            && (id in t.engine.io <==> id in s.engine.io)
            && (id in t.engine.review <==> id in s.engine.review)
            && (id in s.engine.io ==> t.engine.io[id] == s.engine.io[id])
            && (id in s.engine.review ==> t.engine.review[id] == s.engine.review[id])
  {
    if customs != [] {
      var front := customs[..|customs| - 1];
      SwitchOffCustomsFrame(s, front, id);
      assert CustomId(customs[|front|]) != id;
    }
  }

  // ---- Agreement ----

  /** A row is active where its type says it should be. */
  predicate Active(e: EngineState, id: string, t: RuleType) {
    match t
    case Io => id in e.io && e.io[id].enabled
    case CodeReview => id in e.review && e.review[id].enabled
  }

  /** A built-in row is in exactly one place, the one for its type, and active there iff enabled. */
  predicate RuleAgrees(e: EngineState, r: RuleRow) {
    && (r.id in e.io <==> r.ruleType.Io?)
    && (r.id in e.review <==> r.ruleType.CodeReview?)
    && (Active(e, r.id, r.ruleType) <==> r.enabled)
  }

  /** After a reload the engine or the scanner holds, under the id of a built-in row
      that no custom row has taken, exactly the row's definition with the row's
      switch, in whatever order the rows come and even if switching off custom
      rows is cut short. */
  lemma ReloadHoldsStoredRule(cfg: Config, rules: seq<RuleRow>, customs: seq<CustomRow>, k: nat)
    requires DistinctBy(rules, RuleId) && k < |rules|
    requires forall i :: 0 <= i < |rules| ==> RuleTyped(rules[i])
    requires !HasId(customs, CustomId, rules[k].id)
    ensures var r, e := rules[k], Reloaded(cfg, rules, customs).engine;
            && (r.id in e.io <==> r.ruleType.Io?) && (r.id in e.review <==> r.ruleType.CodeReview?)
            && (r.ruleType.Io? ==> e.io[r.id] == RuleForEngine(cfg, r).(enabled := r.enabled))
            && (r.ruleType.CodeReview? ==> e.review[r.id] == RuleForScanner(cfg, r).(enabled := r.enabled))
  {
    var s := Reloading(Loaded(cfg, rules, customs), false);
    RulesAreKnown(cfg, rules, customs);
    LoadedRule(cfg, rules, customs, k);
    SwitchOffRulesEffect(s, rules);
    var t := SwitchOffRules(s, rules);
    assert SwitchedAs(rules[k], s.engine, t.engine);
    SwitchOffCustomsFrame(t, customs, rules[k].id);
  }

  /** So a reload brings it into agreement. */
  lemma ReloadBringsRuleIntoAgreement(cfg: Config, rules: seq<RuleRow>, customs: seq<CustomRow>, k: nat)
    requires DistinctBy(rules, RuleId) && k < |rules|
    requires forall i :: 0 <= i < |rules| ==> RuleTyped(rules[i])
    requires !HasId(customs, CustomId, rules[k].id)
    ensures RuleAgrees(Reloaded(cfg, rules, customs).engine, rules[k])
  {
    ReloadHoldsStoredRule(cfg, rules, customs, k);
  }

  /** How the patterns of a built-in row are handed over, by its type. */
  function HandOver(known: set<string>, t: RuleType): Converter {
    match t
    case Io => IoPattern(known)
    case CodeReview => ScannerPattern()
  }

  /** The rules in the place for this type. */
  function PlaceOf(e: EngineState, t: RuleType): map<string, Definition> {
    match t
    case Io => e.io
    case CodeReview => e.review
  }

  /** After a reload the definition in the place of a built-in row, be it engine or
      scanner, matches for every matcher and text what the stored patterns mean,
      exactly when some dictionary is active or the row's references repeat
      ordinary patterns of it. */
  lemma LiveRuleMatchesAsStoredIff(cfg: Config, rules: seq<RuleRow>, customs: seq<CustomRow>, k: nat)
    requires DistinctBy(rules, RuleId) && k < |rules|
    requires forall i :: 0 <= i < |rules| ==> RuleTyped(rules[i])
    requires !HasId(customs, CustomId, rules[k].id)
    ensures var r := rules[k];
            var live := PlaceOf(Reloaded(cfg, rules, customs).engine, r.ruleType);
            var conv, stored := HandOver(cfg.known, r.ruleType), r.detection.patterns.GetOr([]);
            && r.id in live
            && ((forall m: Matcher, text: string ::
                   AnyMatches(m, live[r.id].patterns, text) <==> RuleMeans(m, conv, stored, cfg.dicts, text)) <==>
                cfg.dicts != map[] || ReferencesAreHarmless(conv, stored))
  {
    var r := rules[k];
    ReloadHoldsStoredRule(cfg, rules, customs, k);
    FaithfulIff(HandOver(cfg.known, r.ruleType), r.detection.patterns.GetOr([]), cfg.dicts);
  }

  /** What a definition says of a built-in row, column by column: the row's stages, or
      input if it has none, and one engine pattern for each stored pattern, references
      spelled out if there is an active dictionary. */
  ghost predicate TellsRule(cfg: Config, d: Definition, r: RuleRow) {
    var stored := if r.detection.patterns.Some? then r.detection.patterns.value else [];
    var spelled := if cfg.dicts == map[] then stored else Expand(stored, cfg.dicts);
    && d.id == r.id && d.enabled == r.enabled
    && d.stages == (if r.stages == [] then ["input"] else r.stages)
    && |d.patterns| == |spelled|
    && forall i :: 0 <= i < |spelled| ==>
         && Carries(d.patterns[i], spelled[i])
         && d.patterns[i].kind ==
              (if spelled[i].ptype.Some? && (r.ruleType.CodeReview? || spelled[i].ptype.value in cfg.known)
               then spelled[i].ptype.value else "regex")
  }

  /** What a definition says of a custom row. */
  ghost predicate TellsCustom(cfg: Config, d: Definition, c: CustomRow, t: RuleType) {
    && d.id == c.id && d.enabled == c.enabled
    && d.stages == (if c.stages == [] then ["input"] else c.stages)
    && |d.patterns| == 1
    && d.patterns[0].value == c.patternValue
    && d.patterns[0].confidence == (if c.patternConfidence.Some? then c.patternConfidence.value else 0.8)
    && d.patterns[0].kind ==
         (if c.patternType != "" && (t.CodeReview? || c.patternType in cfg.known) then c.patternType else "regex")
  }

  /** After a reload the entry in the place of a built-in row says what the row says. */
  lemma ReloadedRuleColumns(cfg: Config, rules: seq<RuleRow>, customs: seq<CustomRow>, k: nat)
    requires DistinctBy(rules, RuleId) && k < |rules|
    requires forall i :: 0 <= i < |rules| ==> RuleTyped(rules[i])
    requires !HasId(customs, CustomId, rules[k].id)
    ensures var r := rules[k];
            var place := PlaceOf(Reloaded(cfg, rules, customs).engine, r.ruleType);
            r.id in place && TellsRule(cfg, place[r.id], r)
  {
    ReloadHoldsStoredRule(cfg, rules, customs, k);
    forall p: Pattern ensures Carries(IoPattern(cfg.known)(p), p) && Carries(ScannerPattern()(p), p) {
      HandedOverAs(p, cfg.known);
    }
  }

  /** A disabled row typed input/output whose stages are for batch scans is unknown to the
      engine: switching it off ends the reload with an error. */
  lemma MistypedRuleExample(cfg: Config, r: RuleRow)
    requires r.ruleType.Io? && "batch" in r.stages && !r.enabled
    ensures Reloaded(cfg, [r], []).raised
  {
    assert [r][..0] == [];
    assert FilterMap(RuleToEngine(cfg), [r]) == [] by {
      FilterMapSingle(RuleToEngine(cfg), r);
    }
    assert FilterMap(CustomToEngine(cfg), []) == [];
    assert Loaded(cfg, [r], []).io == ById([] + []) == map[];
    var s := Reloading(Loaded(cfg, [r], []), false);
    assert SwitchOffRules(s, [r]) == SwitchOffRule(SwitchOffRules(s, []), r);
  }

  /** Handing over a custom row tells what it says. */
  lemma CustomTells(cfg: Config, c: CustomRow)
    requires c.patternValue != ""
    ensures TellsCustom(cfg, CustomForEngine(cfg, c), c, Io)
    ensures TellsCustom(cfg, CustomForScanner(c).(enabled := c.enabled), c, CodeReview)
  {
  }

  /** Adding entries to a dictionary and reloading only makes a live rule match more. */
  lemma AdditionsReachTheEngine(known: set<string>, table: map<string, Dictionaries.Content>, code: string,
                                requested: seq<string>, rules: seq<RuleRow>, customs: seq<CustomRow>, k: nat,
                                m: Matcher, text: string)
    requires DistinctBy(rules, RuleId) && k < |rules|
    requires forall i :: 0 <= i < |rules| ==> RuleTyped(rules[i])
    requires !HasId(customs, CustomId, rules[k].id) && code in table
    ensures var larger := table[code := Dictionaries.Apply(table[code], Dictionaries.Add(requested))];
            var r := rules[k];
            var before := PlaceOf(
              Reloaded(Config(known, Dictionaries.LoadActiveDictionaryMap(table)), rules, customs).engine, r.ruleType);
            var after := PlaceOf(
              Reloaded(Config(known, Dictionaries.LoadActiveDictionaryMap(larger)), rules, customs).engine, r.ruleType);
            && r.id in before && r.id in after
            && (AnyMatches(m, before[r.id].patterns, text) ==> AnyMatches(m, after[r.id].patterns, text))
  {
    var larger := table[code := Dictionaries.Apply(table[code], Dictionaries.Add(requested))];
    var conv, ps := HandOver(known, rules[k].ruleType), rules[k].detection.patterns.GetOr([]);
    ReloadHoldsStoredRule(Config(known, Dictionaries.LoadActiveDictionaryMap(table)), rules, customs, k);
    ReloadHoldsStoredRule(Config(known, Dictionaries.LoadActiveDictionaryMap(larger)), rules, customs, k);
    if Dictionaries.RuleMatches(m, conv, ps, table, text) {
      Dictionaries.AdditionsOnlyAddMatches(m, conv, ps, table, code, requested, text);
    }
  }

  lemma RulesAreKnown(cfg: Config, rules: seq<RuleRow>, customs: seq<CustomRow>)
    requires DistinctBy(rules, RuleId)
    requires forall i :: 0 <= i < |rules| ==> RuleTyped(rules[i])
    ensures SwitchesAreKnown(Loaded(cfg, rules, customs), rules)
  {
    ByIdAppend(FilterMap(RuleToEngine(cfg), rules), FilterMap(CustomToEngine(cfg), customs));
    forall i | 0 <= i < |rules| && rules[i].ruleType.Io? ensures rules[i].id in Loaded(cfg, rules, customs).io {
      CollectFindsRow(RuleToEngine(cfg), rules, RuleId, i);
    }
  }

  /** A disabled input/output row the engine does not know: it ends the reload. */
  predicate Stuck(e: EngineState, c: CustomRow) {
    !c.enabled && c.ruleType.Io? && c.id !in e.io
  }

  /** The reload has ended before row `k` is reached. */
  ghost predicate CutShort(e: EngineState, customs: seq<CustomRow>, k: nat) {
    exists j :: 0 <= j < k && j < |customs| && Stuck(e, customs[j])
  }

  lemma {:induction false} SwitchOffCustomsRaises(s: Reloading, customs: seq<CustomRow>)
    requires !s.raised
    ensures var t := SwitchOffCustoms(s, customs);
            && t.engine.io.Keys == s.engine.io.Keys
            && t.engine.review.Keys <= s.engine.review.Keys
            && (t.raised <==> CutShort(s.engine, customs, |customs|))
  {
    if customs != [] {
      var front, c := customs[..|customs| - 1], customs[|customs| - 1];
      SwitchOffCustomsRaises(s, front);
      CutShortFront(s.engine, customs, |front|);
      if Stuck(s.engine, c) {
        assert customs[|front|] == c;
      }
    }
  }

  lemma CutShortFront(e: EngineState, customs: seq<CustomRow>, k: nat)
    requires k < |customs|
    ensures CutShort(e, customs[..|customs| - 1], k) <==> CutShort(e, customs, k)
    ensures CutShort(e, customs, k + 1) <==> CutShort(e, customs, k) || Stuck(e, customs[k])
  {
    var front := customs[..|customs| - 1];
    assert forall j :: 0 <= j < |front| ==> front[j] == customs[j];
  }

  /** What switching off the custom rows does to one of them. */
  lemma {:induction false} SwitchOffCustomsEffect(s: Reloading, customs: seq<CustomRow>, k: nat)
    requires !s.raised && DistinctBy(customs, CustomId) && k < |customs|
    ensures var c, t := customs[k], SwitchOffCustoms(s, customs);
            && (c.id in s.engine.io && s.engine.io[c.id].enabled == c.enabled ==>
                  c.id in t.engine.io && t.engine.io[c.id].enabled == c.enabled)
            && (c.id in t.engine.review <==>
                  c.id in s.engine.review && (c.enabled || c.ruleType.Io? || CutShort(s.engine, customs, k)))
            && (c.id in t.engine.review ==> t.engine.review[c.id] == s.engine.review[c.id])
            && (c.enabled && c.id in s.engine.io ==>
                  c.id in t.engine.io && t.engine.io[c.id] == s.engine.io[c.id])
  {
    var front, last := customs[..|customs| - 1], customs[|customs| - 1];
    SwitchOffCustomsRaises(s, front);
    CutShortFront(s.engine, customs, k);
    if k < |front| {
      assert CustomId(customs[k]) != CustomId(customs[|front|]);
      SwitchOffCustomsEffect(s, front, k);
    } else {
      SwitchOffCustomsFrame(s, front, last.id);
    }
  }

  /** A custom row with a pattern is active in its place iff enabled, and nowhere else. */
  predicate CustomAgrees(e: EngineState, c: CustomRow) {
    && (Active(e, c.id, c.ruleType) <==> c.enabled)
    && (if c.ruleType.Io? then c.id !in e.review else c.id !in e.io)
  }

  /** A disabled input/output row without a pattern stands somewhere before row `k`. */
  ghost predicate BehindPatternlessRow(customs: seq<CustomRow>, k: nat) {
    exists j :: 0 <= j < k && j < |customs| && !customs[j].enabled && customs[j].ruleType.Io? && customs[j].patternValue == ""
  }

  /** With distinct ids across both tables, a reload brings a custom row with a
      pattern into agreement exactly unless it is a disabled code-review row that
      the query returns behind a disabled input/output row without a pattern: that
      row ends the reload with an error, and the code-review rule stays live. */
  lemma ReloadBringsCustomIntoAgreementIff(cfg: Config, rules: seq<RuleRow>, customs: seq<CustomRow>, k: nat)
    requires DistinctBy(rules, RuleId) && DistinctBy(customs, CustomId)
    requires forall i :: 0 <= i < |rules| ==> RuleTyped(rules[i])
    requires forall i :: 0 <= i < |customs| ==> CustomTyped(customs[i]) && !HasId(rules, RuleId, customs[i].id)
    requires k < |customs| && customs[k].patternValue != ""
    ensures CustomAgrees(Reloaded(cfg, rules, customs).engine, customs[k]) <==>
              customs[k].enabled || customs[k].ruleType.Io? || !BehindPatternlessRow(customs, k)
  {
    var s := Reloading(Loaded(cfg, rules, customs), false);
    RulesAreKnown(cfg, rules, customs);
    SwitchOffRulesEffect(s, rules);
    var t := SwitchOffRules(s, rules);
    LoadedCustom(cfg, rules, customs, k);
    SwitchOffCustomsEffect(t, customs, k);
    SwitchOffCustomsRaises(t, customs);
    forall j | 0 <= j < k ensures Stuck(t.engine, customs[j]) <==>
      !customs[j].enabled && customs[j].ruleType.Io? && customs[j].patternValue == ""
    {
      LoadedCustom(cfg, rules, customs, j);
    }
  }

  /** After a reload the definition of every enabled custom row with a pattern is in
      the place for its type, and nothing is anywhere for a row without one. */
  lemma ReloadHoldsStoredCustom(cfg: Config, rules: seq<RuleRow>, customs: seq<CustomRow>, k: nat)
    requires DistinctBy(rules, RuleId) && DistinctBy(customs, CustomId)
    requires forall i :: 0 <= i < |rules| ==> RuleTyped(rules[i])
    requires k < |customs| && CustomTyped(customs[k]) && !HasId(rules, RuleId, customs[k].id)
    ensures var c, e := customs[k], Reloaded(cfg, rules, customs).engine;
            && (c.patternValue == "" ==> c.id !in e.io && c.id !in e.review)
            && (c.patternValue != "" && c.enabled && c.ruleType.Io? ==>
                  c.id in e.io && e.io[c.id] == CustomForEngine(cfg, c))
            && (c.patternValue != "" && c.enabled && c.ruleType.CodeReview? ==>
                  c.id in e.review && e.review[c.id] == CustomForScanner(c))
  {
    var s := Reloading(Loaded(cfg, rules, customs), false);
    RulesAreKnown(cfg, rules, customs);
    SwitchOffRulesEffect(s, rules);
    var t := SwitchOffRules(s, rules);
    LoadedCustom(cfg, rules, customs, k);
    SwitchOffCustomsEffect(t, customs, k);
    SwitchOffCustomsRaises(t, customs);
    assert SameEntry(customs[k].id, s.engine, t.engine);
  }

  /** So the entry of such a row says what the row says. */
  lemma ReloadedCustomColumns(cfg: Config, rules: seq<RuleRow>, customs: seq<CustomRow>, k: nat)
    requires DistinctBy(rules, RuleId) && DistinctBy(customs, CustomId)
    requires forall i :: 0 <= i < |rules| ==> RuleTyped(rules[i])
    requires k < |customs| && CustomTyped(customs[k]) && !HasId(rules, RuleId, customs[k].id)
    requires customs[k].enabled && customs[k].patternValue != ""
    ensures var c := customs[k];
            var place := PlaceOf(Reloaded(cfg, rules, customs).engine, c.ruleType);
            c.id in place && TellsCustom(cfg, place[c.id], c, c.ruleType)
  {
    ReloadHoldsStoredCustom(cfg, rules, customs, k);
    CustomTells(cfg, customs[k]);
  }

  /** After a reload the engine knows no ids but those of rows. */
  lemma ReloadLeavesNoStrays(cfg: Config, rules: seq<RuleRow>, customs: seq<CustomRow>, id: string)
    requires DistinctBy(rules, RuleId)
    requires forall i :: 0 <= i < |rules| ==> RuleTyped(rules[i])
    requires id in Reloaded(cfg, rules, customs).engine.io
    ensures HasId(rules, RuleId, id) || HasId(customs, CustomId, id)
  {
    var s := Reloading(Loaded(cfg, rules, customs), false);
    RulesAreKnown(cfg, rules, customs);
    SwitchOffRulesEffect(s, rules);
    SwitchOffCustomsRaises(SwitchOffRules(s, rules), customs);
    ByIdAppend(FilterMap(RuleToEngine(cfg), rules), FilterMap(CustomToEngine(cfg), customs));
    if id in ById(FilterMap(RuleToEngine(cfg), rules)) {
      CollectOnlyRows(RuleToEngine(cfg), rules, RuleId, id);
    } else {
      CollectOnlyRows(CustomToEngine(cfg), customs, CustomId, id);
    }
  }

  /** A disabled rule without a pattern in front, a disabled code-review rule behind:
      the reload ends at the first, and the second stays live. */
  lemma CutShortExample(cfg: Config)
    ensures var empty := CustomRow("U-01", "No pattern yet", None, "P2", "warn", None, Io, ["input"], None,
                                   "regex", "", Some(0.8), None, None, false);
            var review := empty.(id := "U-02", ruleType := CodeReview, stages := ["batch"], patternValue := "eval");
            !CustomAgrees(Reloaded(cfg, [], [empty, review]).engine, review)
  {
    var empty := CustomRow("U-01", "No pattern yet", None, "P2", "warn", None, Io, ["input"], None,
                           "regex", "", Some(0.8), None, None, false);
    var review := empty.(id := "U-02", ruleType := CodeReview, stages := ["batch"], patternValue := "eval");
    var customs := [empty, review];
    assert !HasId([], RuleId, "U-01") && !HasId([], RuleId, "U-02");
    assert customs[0] == empty && BehindPatternlessRow(customs, 1);
    ReloadBringsCustomIntoAgreementIff(cfg, [], customs, 1);
  }

  /** A custom input/output row with a pattern agrees after every reload: the
      engine is told its switch with its definition. */
  lemma ReloadBringsCustomIoIntoAgreement(cfg: Config, rules: seq<RuleRow>, customs: seq<CustomRow>, k: nat)
    requires DistinctBy(rules, RuleId) && DistinctBy(customs, CustomId)
    requires forall i :: 0 <= i < |rules| ==> RuleTyped(rules[i])
    requires k < |customs| && CustomTyped(customs[k]) && !HasId(rules, RuleId, customs[k].id)
    requires customs[k].ruleType.Io? && customs[k].patternValue != ""
    ensures CustomAgrees(Reloaded(cfg, rules, customs).engine, customs[k])
  {
    var s := Reloading(Loaded(cfg, rules, customs), false);
    RulesAreKnown(cfg, rules, customs);
    SwitchOffRulesEffect(s, rules);
    LoadedCustom(cfg, rules, customs, k);
    SwitchOffCustomsEffect(SwitchOffRules(s, rules), customs, k);
  }
}
