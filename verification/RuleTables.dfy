/**
 * The two rule tables, the bundle format, and how a bundle rule becomes or
 * changes a row of either table.
 */
module RuleTables {
  import opened Common
  import opened Patterns
  import opened Upsert

  // ---- Master data ----

  datatype Category = Category(id: int, name: string, title: string)

  /** Names and ids of categories are unique, and ids are positive (serial) numbers. */
  ghost predicate UniqueCategories(cats: seq<Category>) {
    && (forall i, j :: 0 <= i < j < |cats| ==> cats[i].name != cats[j].name && cats[i].id != cats[j].id)
    && (forall i :: 0 <= i < |cats| ==> cats[i].id > 0)
  }

  /** First row with this name. */
  function ByName(cats: seq<Category>, name: string): Option<int> {
    if cats == [] then None
    else if cats[0].name == name then Some(cats[0].id)
    else ByName(cats[1..], name)
  }

  /** First row with this label. */
  function ByLabel(cats: seq<Category>, text: string): Option<int> {
    if cats == [] then None
    else if cats[0].title == text then Some(cats[0].id)
    else ByLabel(cats[1..], text)
  }

  function NameOfId(cats: seq<Category>, id: int): Option<string> {
    if cats == [] then None
    else if cats[0].id == id then Some(cats[0].name)
    else NameOfId(cats[1..], id)
  }

  function CategoryName(cats: seq<Category>, id: Option<int>): Option<string> {
    if id.None? then None else NameOfId(cats, id.value)
  }

  predicate Truthy(s: Option<string>) {
    s.Some? && s.value != ""
  }

  /** `first or second` on optional strings. */
  function Or(first: Option<string>, second: Option<string>): Option<string> {
    if Truthy(first) then first else second
  }

  /** A name is looked up among the names, then among the labels. */
  function Lookup(cats: seq<Category>, name: Option<string>): Option<int> {
    if !Truthy(name) then None
    else if ByName(cats, name.value).Some? then ByName(cats, name.value)
    else ByLabel(cats, name.value)
  }

  /** `new or old` on optional ids; zero counts as missing. */
  function OrId(new_: Option<int>, old_: Option<int>): Option<int> {
    if new_.Some? && new_.value != 0 then new_ else old_
  }

  lemma {:induction false} NameRoundTrip(cats: seq<Category>, id: int)
    requires UniqueCategories(cats) && NameOfId(cats, id).Some?
    ensures ByName(cats, NameOfId(cats, id).value) == Some(id)
    ensures id > 0
  {
    if cats[0].id != id {
      assert forall i :: 0 <= i < |cats[1..]| ==> cats[1..][i] == cats[i + 1];
      NameRoundTrip(cats[1..], id);
      NameIsThere(cats[1..], id);
    }
  }

  lemma {:induction false} IdRoundTrip(cats: seq<Category>, name: string)
    requires UniqueCategories(cats)
    ensures ByName(cats, name).Some? ==> NameOfId(cats, ByName(cats, name).value) == Some(name)
  {
    if cats != [] && cats[0].name != name && ByName(cats, name).Some? {
      assert forall i :: 0 <= i < |cats[1..]| ==> cats[1..][i] == cats[i + 1];
      IdRoundTrip(cats[1..], name);
      IdIsThere(cats[1..], name);
    }
  }

  lemma {:induction false} IdIsThere(cats: seq<Category>, name: string)
    requires ByName(cats, name).Some?
    ensures exists i :: 0 <= i < |cats| && cats[i].id == ByName(cats, name).value
  {
    if cats[0].name != name {
      IdIsThere(cats[1..], name);
      var i :| 0 <= i < |cats[1..]| && cats[1..][i].id == ByName(cats, name).value;
      assert cats[i + 1].id == ByName(cats, name).value;
    }
  }

  lemma {:induction false} NameIsThere(cats: seq<Category>, id: int)
    requires NameOfId(cats, id).Some?
    ensures exists i :: 0 <= i < |cats| && cats[i].name == NameOfId(cats, id).value
  {
    if cats[0].id != id {
      NameIsThere(cats[1..], id);
      var i :| 0 <= i < |cats[1..]| && cats[1..][i].name == NameOfId(cats, id).value;
      assert cats[i + 1].name == NameOfId(cats, id).value;
    }
  }

  // ---- Rows and bundles ----

  datatype RuleType = Io | CodeReview

  function TypeOf(stages: seq<string>): RuleType {
    if "batch" in stages then CodeReview else Io
  }

  /** A detection object: each of its keys may be missing. */
  datatype Detection = Detection(
    mode: Option<string>, patterns: Option<seq<Pattern>>, targetFiles: Option<seq<string>>)

  const NO_DETECTION := Detection(None, None, None)

  /** What an import stores: mode and patterns, nothing else. */
  function Normalized(d: Detection): Detection {
    Detection(Some(d.mode.GetOr("any")), Some(d.patterns.GetOr([])), None)
  }

  /** A row of the built-in rules table. */
  datatype RuleRow = RuleRow(
    id: string, name: string, description: Option<string>, severity: string, action: string,
    categoryId: Option<int>, ruleType: RuleType, stages: seq<string>, detection: Detection,
    enabled: bool, source: string, series: string, sdkVersion: int)

  /** A row of the custom rules table. */
  datatype CustomRow = CustomRow(
    id: string, name: string, description: Option<string>, severity: string, action: string,
    categoryId: Option<int>, ruleType: RuleType, stages: seq<string>, targetFiles: Option<seq<string>>,
    patternType: string, patternValue: string, patternConfidence: Option<real>, patternTypeId: Option<int>,
    detection: Option<Detection>, enabled: bool)

  /** The primary keys of the two tables. */
  function RuleId(r: RuleRow): string { r.id }
  function CustomId(c: CustomRow): string { c.id }

  /** One rule of a bundle; every key but the id may be missing, a missing id is empty. */
  datatype BundleRule = BundleRule(
    id: string, name: Option<string>, description: Option<string>, severity: Option<string>,
    action: Option<string>, category: Option<string>, stages: Option<seq<string>>,
    detection: Option<Detection>, enabled: Option<bool>, targetFiles: Option<seq<string>>)

  datatype Bundle = Bundle(series: string, name: Option<string>, version: int, rules: seq<BundleRule>)

  /** What an import looks up besides the tables. */
  datatype Master = Master(categories: seq<Category>, patternTypes: map<string, int>)

  function StagesOf(b: BundleRule): seq<string> {
    b.stages.GetOr(["input"])
  }

  function DetectionOf(b: BundleRule): Detection {
    Normalized(b.detection.GetOr(NO_DETECTION))
  }

  function CategoryOf(m: Master, bundle: Bundle, b: BundleRule): Option<int> {
    Lookup(m.categories, Or(b.category, bundle.name))
  }

  function CreatedRule(m: Master, bundle: Bundle, b: BundleRule): RuleRow {
    RuleRow(
      b.id, b.name.GetOr(b.id), b.description, b.severity.GetOr("P2"), b.action.GetOr("warn"),
      CategoryOf(m, bundle, b), TypeOf(StagesOf(b)), StagesOf(b), DetectionOf(b),
      b.enabled.GetOr(true), "sdk", bundle.series, bundle.version)
  }

  function UpdatedRule(m: Master, bundle: Bundle, r: RuleRow, b: BundleRule): RuleRow {
    r.(name := b.name.GetOr(r.name),
       description := if b.description.Some? then b.description else r.description,
       severity := b.severity.GetOr(r.severity),
       action := b.action.GetOr(r.action),
       categoryId := OrId(CategoryOf(m, bundle, b), r.categoryId),
       ruleType := TypeOf(StagesOf(b)),
       stages := StagesOf(b),
       detection := DetectionOf(b),
       sdkVersion := bundle.version,
       enabled := b.enabled.GetOr(r.enabled))
  }

  const NO_PATTERN := Pattern(None, None, None, None)

  /** `patterns[0] if patterns else {}` */
  function FirstOf(patterns: seq<Pattern>): Pattern {
    if patterns == [] then NO_PATTERN else patterns[0]
  }

  function PatternTypeId(m: Master, kind: string): Option<int> {
    if kind in m.patternTypes then Some(m.patternTypes[kind]) else None
  }

  /** A new custom row also takes its simple pattern fields from the first pattern. */
  function CreatedCustom(m: Master, bundle: Bundle, b: BundleRule): CustomRow {
    var p := FirstOf(DetectionOf(b).patterns.value);
    var kind := p.ptype.GetOr("regex");
    CustomRow(
      b.id, b.name.GetOr(b.id), b.description, b.severity.GetOr("P2"), b.action.GetOr("warn"),
      CategoryOf(m, bundle, b), TypeOf(StagesOf(b)), StagesOf(b), None,
      kind, p.value.GetOr(""), Some(p.confidence.GetOr(0.8)), PatternTypeId(m, kind),
      Some(DetectionOf(b)), b.enabled.GetOr(true))
  }

  function UpdatedCustom(m: Master, bundle: Bundle, r: CustomRow, b: BundleRule): CustomRow {
    r.(name := b.name.GetOr(r.name),
       description := if b.description.Some? then b.description else r.description,
       severity := b.severity.GetOr(r.severity),
       action := b.action.GetOr(r.action),
       categoryId := OrId(CategoryOf(m, bundle, b), r.categoryId),
       ruleType := TypeOf(StagesOf(b)),
       stages := StagesOf(b),
       detection := Some(DetectionOf(b)),
       enabled := b.enabled.GetOr(r.enabled))
  }

  function RuleScheme(m: Master, bundle: Bundle): Scheme<RuleRow, BundleRule> {
    Scheme((b: BundleRule) => b.id, b => CreatedRule(m, bundle, b), (r, b) => UpdatedRule(m, bundle, r, b))
  }

  function CustomScheme(m: Master, bundle: Bundle): Scheme<CustomRow, BundleRule> {
    Scheme((b: BundleRule) => b.id, b => CreatedCustom(m, bundle, b), (r, b) => UpdatedCustom(m, bundle, r, b))
  }

  lemma RuleUpdatesOverwrite(m: Master, bundle: Bundle, r: RuleRow, b: BundleRule, c: BundleRule)
    ensures var once := UpdatedRule(m, bundle, r, b);
            && UpdatedRule(m, bundle, once, b) == once
            && UpdatedRule(m, bundle, UpdatedRule(m, bundle, once, c), b)
                 == UpdatedRule(m, bundle, UpdatedRule(m, bundle, r, c), b)
    ensures UpdatedRule(m, bundle, CreatedRule(m, bundle, b), b) == CreatedRule(m, bundle, b)
  {
  }

  lemma RuleSchemeOverwrites(m: Master, bundle: Bundle)
    ensures Overwrites(RuleScheme(m, bundle))
  {
    var sch := RuleScheme(m, bundle);
    forall r, b, c ensures sch.update(sch.update(sch.update(r, b), c), b) == sch.update(sch.update(r, c), b) {
      RuleUpdatesOverwrite(m, bundle, r, b, c);
    }
    forall r, b ensures sch.update(sch.update(r, b), b) == sch.update(r, b) {
      RuleUpdatesOverwrite(m, bundle, r, b, b);
    }
    forall b ensures sch.update(sch.create(b), b) == sch.create(b) {
      RuleUpdatesOverwrite(m, bundle, CreatedRule(m, bundle, b), b, b);
    }
  }

  lemma CustomUpdatesOverwrite(m: Master, bundle: Bundle, r: CustomRow, b: BundleRule, c: BundleRule)
    ensures var once := UpdatedCustom(m, bundle, r, b);
            && UpdatedCustom(m, bundle, once, b) == once
            && UpdatedCustom(m, bundle, UpdatedCustom(m, bundle, once, c), b)
                 == UpdatedCustom(m, bundle, UpdatedCustom(m, bundle, r, c), b)
    ensures UpdatedCustom(m, bundle, CreatedCustom(m, bundle, b), b) == CreatedCustom(m, bundle, b)
  {
  }

  lemma CustomSchemeOverwrites(m: Master, bundle: Bundle)
    ensures Overwrites(CustomScheme(m, bundle))
  {
    var sch := CustomScheme(m, bundle);
    forall r, b, c ensures sch.update(sch.update(sch.update(r, b), c), b) == sch.update(sch.update(r, c), b) {
      CustomUpdatesOverwrite(m, bundle, r, b, c);
    }
    forall r, b ensures sch.update(sch.update(r, b), b) == sch.update(r, b) {
      CustomUpdatesOverwrite(m, bundle, r, b, b);
    }
    forall b ensures sch.update(sch.create(b), b) == sch.create(b) {
      CustomUpdatesOverwrite(m, bundle, CreatedCustom(m, bundle, b), b, b);
    }
  }

  /** Importing a bundle into the built-in table a second time changes no row and
      creates none, whatever was in the table before the first time. */
  lemma RuleImportIsIdempotent(m: Master, bundle: Bundle, rows: map<string, RuleRow>)
    requires Import(RuleScheme(m, bundle), rows, bundle.rules).Some?
    ensures var (rows', stats) := Import(RuleScheme(m, bundle), rows, bundle.rules).value;
            Import(RuleScheme(m, bundle), rows', bundle.rules)
              == Some((rows', Stats(|bundle.rules|, 0, stats.created + stats.updated, stats.errors)))
  {
    RuleSchemeOverwrites(m, bundle);
    ImportIsIdempotent(RuleScheme(m, bundle), rows, bundle.rules);
  }

  /** The same for the custom table. */
  lemma CustomImportIsIdempotent(m: Master, bundle: Bundle, rows: map<string, CustomRow>)
    requires Import(CustomScheme(m, bundle), rows, bundle.rules).Some?
    ensures var (rows', stats) := Import(CustomScheme(m, bundle), rows, bundle.rules).value;
            Import(CustomScheme(m, bundle), rows', bundle.rules)
              == Some((rows', Stats(|bundle.rules|, 0, stats.created + stats.updated, stats.errors)))
  {
    CustomSchemeOverwrites(m, bundle);
    ImportIsIdempotent(CustomScheme(m, bundle), rows, bundle.rules);
  }

  function Named(id: string): BundleRule {
    BundleRule(id, Some("A rule"), None, None, None, None, None, None, None, None)
  }

  /** A bundle that names one new rule twice cannot be imported into an empty table. */
  lemma RepeatedIdExample(m: Master)
    ensures var bundle := Bundle("I", None, 1, [Named("I-01"), Named("I-01")]);
            Import(RuleScheme(m, bundle), map[], bundle.rules).None?
  {
    var bundle := Bundle("I", None, 1, [Named("I-01"), Named("I-01")]);
    var sch, bs := RuleScheme(m, bundle), bundle.rules;
    ImportFailsIff(sch, map[], bs);
    assert sch.id(bs[0]) == sch.id(bs[1]) == "I-01";
  }

  /** The built-in table after importing a list of bundles one after the other, as
      every start of the program does; a failing import is rolled back and skipped. */
  function Seeded(m: Master, rows: map<string, RuleRow>, bundles: seq<Bundle>): map<string, RuleRow> {
    if bundles == [] then rows
    else
      var before := Seeded(m, rows, bundles[..|bundles| - 1]);
      var bundle := bundles[|bundles| - 1];
      match Import(RuleScheme(m, bundle), before, bundle.rules)
      case None => before
      case Some(done) => done.0
  }

  /** One more bundle: its ids join, if its import succeeds, and a start with the same
      bundle again changes nothing. */
  lemma SeedingMeans(m: Master, rows: map<string, RuleRow>, bundles: seq<Bundle>, bundle: Bundle)
    ensures var before, after := Seeded(m, rows, bundles), Seeded(m, rows, bundles + [bundle]);
            && (RepeatsNewId(RuleScheme(m, bundle), before, bundle.rules) ==> after == before)
            && (!RepeatsNewId(RuleScheme(m, bundle), before, bundle.rules) ==>
                  && after.Keys == before.Keys + (set b | b in bundle.rules && b.id != "" :: b.id)
                  && Import(RuleScheme(m, bundle), before, bundle.rules).Some?
                  && after == Import(RuleScheme(m, bundle), before, bundle.rules).value.0)
            && Seeded(m, rows, bundles + [bundle] + [bundle]) == after
  {
    var sch, once := RuleScheme(m, bundle), bundles + [bundle];
    var before := Seeded(m, rows, bundles);
    assert once[..|once| - 1] == bundles && (once + [bundle])[..|once|] == once;
    ImportFailsIff(sch, before, bundle.rules);
    ImportKeys(sch, before, bundle.rules);
    if Import(sch, before, bundle.rules).Some? {
      assert Ids(sch, bundle.rules) == (set b | b in bundle.rules && b.id != "" :: b.id);
      RuleImportIsIdempotent(m, bundle, before);
    }
  }

  /** A rule's on/off state survives any number of imports, of whatever bundles,
      that do not say "enabled" for it: what an administrator switched off stays off. */
  lemma {:induction false} SwitchSurvivesReimports(m: Master, rows: map<string, RuleRow>, bundles: seq<Bundle>, id: string)
    requires id in rows
    requires forall k, b :: 0 <= k < |bundles| && b in bundles[k].rules && b.id == id ==> b.enabled.None?
    ensures id in Seeded(m, rows, bundles) && Seeded(m, rows, bundles)[id].enabled == rows[id].enabled
  {
    if bundles != [] {
      var front, bundle := bundles[..|bundles| - 1], bundles[|bundles| - 1];
      assert forall k, b :: 0 <= k < |front| && b in front[k].rules && b.id == id ==> b in bundles[k].rules;
      SwitchSurvivesReimports(m, rows, front, id);
      var before, sch := Seeded(m, rows, front), RuleScheme(m, bundle);
      if Import(sch, before, bundle.rules).Some? {
        ImportedRow(sch, before, bundle.rules, id);
        EditKeepsColumn(sch, before[id], bundle.rules, id, (r: RuleRow) => r.enabled);
      }
    }
  }

  /** A row is typed code review exactly when "batch" is among its stages. */
  predicate RuleTyped(r: RuleRow) { r.ruleType == TypeOf(r.stages) }

  predicate CustomTyped(r: CustomRow) { r.ruleType == TypeOf(r.stages) }

  lemma ImportKeepsRulesTyped(m: Master, bundle: Bundle, rows: map<string, RuleRow>)
    requires Everywhere(RuleTyped, rows) && Import(RuleScheme(m, bundle), rows, bundle.rules).Some?
    ensures Everywhere(RuleTyped, Import(RuleScheme(m, bundle), rows, bundle.rules).value.0)
  {
    ImportKeepsInvariant(RuleScheme(m, bundle), rows, bundle.rules, RuleTyped);
  }

  lemma ImportKeepsCustomTyped(m: Master, bundle: Bundle, rows: map<string, CustomRow>)
    requires Everywhere(CustomTyped, rows) && Import(CustomScheme(m, bundle), rows, bundle.rules).Some?
    ensures Everywhere(CustomTyped, Import(CustomScheme(m, bundle), rows, bundle.rules).value.0)
  {
    ImportKeepsInvariant(CustomScheme(m, bundle), rows, bundle.rules, CustomTyped);
  }

  // ---- The columns of imported rows, in the keys of the bundle ----

  /** The category found for a name: the first of that name, else the first of that label. */
  ghost predicate Finds(cats: seq<Category>, name: string, id: Option<int>) {
    if exists k :: 0 <= k < |cats| && cats[k].name == name then
      exists k :: 0 <= k < |cats| && id == Some(cats[k].id) && cats[k].name == name
                  && forall j :: 0 <= j < k ==> cats[j].name != name
    else if exists k :: 0 <= k < |cats| && cats[k].title == name then
      exists k :: 0 <= k < |cats| && id == Some(cats[k].id) && cats[k].title == name
                  && forall j :: 0 <= j < k ==> cats[j].title != name
    else id == None
  }

  lemma {:induction false} ByNameIsFirst(cats: seq<Category>, name: string)
    ensures if exists k :: 0 <= k < |cats| && cats[k].name == name then
              exists k :: 0 <= k < |cats| && ByName(cats, name) == Some(cats[k].id) && cats[k].name == name
                          && forall j :: 0 <= j < k ==> cats[j].name != name
            else ByName(cats, name) == None
  {
    if cats != [] && cats[0].name != name {
      var rest := cats[1..];
      ByNameIsFirst(rest, name);
      assert forall k :: 0 <= k < |rest| ==> rest[k] == cats[k + 1];
      if k :| 0 <= k < |rest| && ByName(rest, name) == Some(rest[k].id) && rest[k].name == name
              && forall j :: 0 <= j < k ==> rest[j].name != name {
        assert forall j :: 0 < j < k + 1 ==> cats[j] == rest[j - 1];
        assert cats[k + 1].name == name && ByName(cats, name) == Some(cats[k + 1].id);
      }
      if k :| 0 <= k < |cats| && cats[k].name == name {
        assert rest[k - 1].name == name;
      }
    }
  }

  lemma {:induction false} ByLabelIsFirst(cats: seq<Category>, text: string)
    ensures if exists k :: 0 <= k < |cats| && cats[k].title == text then
              exists k :: 0 <= k < |cats| && ByLabel(cats, text) == Some(cats[k].id) && cats[k].title == text
                          && forall j :: 0 <= j < k ==> cats[j].title != text
            else ByLabel(cats, text) == None
  {
    if cats != [] && cats[0].title != text {
      var rest := cats[1..];
      ByLabelIsFirst(rest, text);
      assert forall k :: 0 <= k < |rest| ==> rest[k] == cats[k + 1];
      if k :| 0 <= k < |rest| && ByLabel(rest, text) == Some(rest[k].id) && rest[k].title == text
              && forall j :: 0 <= j < k ==> rest[j].title != text {
        assert forall j :: 0 < j < k + 1 ==> cats[j] == rest[j - 1];
        assert cats[k + 1].title == text && ByLabel(cats, text) == Some(cats[k + 1].id);
      }
      if k :| 0 <= k < |cats| && cats[k].title == text {
        assert rest[k - 1].title == text;
      }
    }
  }

  /** The category of an item is looked up by the name it gives, or else by the title
      of its bundle; without either there is none. */
  lemma CategoryOfMeans(m: Master, bundle: Bundle, b: BundleRule)
    ensures b.category.Some? && b.category.value != "" ==> Finds(m.categories, b.category.value, CategoryOf(m, bundle, b))
    ensures (b.category.None? || b.category.value == "") && bundle.name.Some? && bundle.name.value != "" ==>
              Finds(m.categories, bundle.name.value, CategoryOf(m, bundle, b))
    ensures (b.category.None? || b.category.value == "") && (bundle.name.None? || bundle.name.value == "") ==>
              CategoryOf(m, bundle, b) == None
  {
    var name := Or(b.category, bundle.name);
    if Truthy(name) {
      ByNameIsFirst(m.categories, name.value);
      ByLabelIsFirst(m.categories, name.value);
    }
  }

  /** Item `k` is the last with this id. */
  predicate LastAt(bs: seq<BundleRule>, id: string, k: nat) {
    k < |bs| && bs[k].id == id && forall j :: k < j < |bs| ==> bs[j].id != id
  }

  /** No item with this id names the column. */
  predicate Unnamed<X>(named: BundleRule -> Option<X>, bs: seq<BundleRule>, id: string) {
    forall k :: 0 <= k < |bs| && bs[k].id == id ==> named(bs[k]).None?
  }

  /** Item `k` is the last with this id that names the column. */
  predicate NamedLastAt<X>(named: BundleRule -> Option<X>, bs: seq<BundleRule>, id: string, k: nat) {
    && k < |bs| && bs[k].id == id && named(bs[k]).Some?
    && forall j :: k < j < |bs| && bs[j].id == id ==> named(bs[j]).None?
  }

  /** `value` is the last one named for the id, or the old one if none is. */
  ghost predicate LastNamed<X>(named: BundleRule -> Option<X>, bs: seq<BundleRule>, id: string, old_: X, value: X) {
    || (Unnamed(named, bs, id) && value == old_)
    || exists k: nat :: NamedLastAt(named, bs, id, k) && named(bs[k]) == Some(value)
  }

  lemma LaterStaysLast<X>(named: BundleRule -> Option<X>, b: BundleRule, bs: seq<BundleRule>, id: string, k: nat)
    requires NamedLastAt(named, bs, id, k)
    ensures NamedLastAt(named, [b] + bs, id, k + 1) && ([b] + bs)[k + 1] == bs[k]
  {
    var all := [b] + bs;
    forall j | k + 1 < j < |all| && all[j].id == id ensures named(all[j]).None? {
      assert all[j] == bs[j - 1];
    }
  }

  lemma HeadIsLast<X>(named: BundleRule -> Option<X>, b: BundleRule, bs: seq<BundleRule>, id: string)
    requires Unnamed(named, bs, id)
    ensures b.id == id && named(b).Some? ==> NamedLastAt(named, [b] + bs, id, 0)
    ensures b.id != id || named(b).None? ==> Unnamed(named, [b] + bs, id)
  {
    var all := [b] + bs;
    forall j | 0 < j < |all| && all[j].id == id ensures named(all[j]).None? {
      assert all[j] == bs[j - 1];
    }
  }

  lemma LastNamedCons<X>(named: BundleRule -> Option<X>, b: BundleRule, bs: seq<BundleRule>, id: string, old_: X, value: X)
    requires LastNamed(named, bs, id, if b.id == id then named(b).GetOr(old_) else old_, value)
    ensures LastNamed(named, [b] + bs, id, old_, value)
  {
    if k: nat :| NamedLastAt(named, bs, id, k) && named(bs[k]) == Some(value) {
      LaterStaysLast(named, b, bs, id, k);
    } else {
      HeadIsLast(named, b, bs, id);
      assert ([b] + bs)[0] == b;
    }
  }

  /** A column that an update overwrites with what its item names, if it names it,
      holds the last one named. */
  lemma {:induction false} LastNamedWins<R, X>(sch: Scheme<R, BundleRule>, row: R, bs: seq<BundleRule>, id: string,
                                               f: R -> X, named: BundleRule -> Option<X>)
    requires id != "" && forall b :: sch.id(b) == b.id
    requires forall r, b :: f(sch.update(r, b)) == named(b).GetOr(f(r))
    ensures LastNamed(named, bs, id, f(row), f(Edited(sch, row, bs, id)))
    decreases |bs|
  {
    if bs != [] {
      LastNamedWins(sch, if bs[0].id == id then sch.update(row, bs[0]) else row, bs[1..], id, f, named);
      LastNamedCons(named, bs[0], bs[1..], id, f(row), f(Edited(sch, row, bs, id)));
      assert [bs[0]] + bs[1..] == bs;
    }
  }

  /** A category that was found; zero counts as none. */
  function FoundCategory(m: Master, bundle: Bundle): BundleRule -> Option<Option<int>> {
    (b: BundleRule) =>
      if CategoryOf(m, bundle, b).Some? && CategoryOf(m, bundle, b).value != 0 then Some(CategoryOf(m, bundle, b)) else None
  }

  function NamedDescription(): BundleRule -> Option<Option<string>> {
    (b: BundleRule) => if b.description.Some? then Some(b.description) else None
  }

  /** The type, stages and detection that an item gives its row. */
  ghost predicate Takes(b: BundleRule, t: RuleType, stages: seq<string>, d: Detection) {
    && stages == (if b.stages.Some? then b.stages.value else ["input"])
    && t == (if "batch" in stages then CodeReview else Io)
    && d.targetFiles == None
    && d.patterns == Some(if b.detection.Some? && b.detection.value.patterns.Some? then b.detection.value.patterns.value else [])
    && d.mode == Some(if b.detection.Some? && b.detection.value.mode.Some? then b.detection.value.mode.value else "any")
  }

  /** The columns a new row takes from its item, with their defaults. */
  ghost predicate TakesNew(b: BundleRule, id: string, name: string, description: Option<string>, severity: string,
                           action: string, enabled: bool)
  {
    && id == b.id && name == (if b.name.Some? then b.name.value else b.id) && description == b.description
    && severity == (if b.severity.Some? then b.severity.value else "P2")
    && action == (if b.action.Some? then b.action.value else "warn")
    && enabled == (if b.enabled.Some? then b.enabled.value else true)
  }

  lemma EditedName(m: Master, bundle: Bundle, r: RuleRow, id: string)
    requires id != ""
    ensures var t, bs := Edited(RuleScheme(m, bundle), r, bundle.rules, id), bundle.rules;
            && LastNamed((b: BundleRule) => b.name, bs, id, r.name, t.name)
            && LastNamed((b: BundleRule) => b.severity, bs, id, r.severity, t.severity)
            && LastNamed((b: BundleRule) => b.action, bs, id, r.action, t.action)
  {
    var sch, bs := RuleScheme(m, bundle), bundle.rules;
    LastNamedWins(sch, r, bs, id, (t: RuleRow) => t.name, (b: BundleRule) => b.name);
    LastNamedWins(sch, r, bs, id, (t: RuleRow) => t.severity, (b: BundleRule) => b.severity);
    LastNamedWins(sch, r, bs, id, (t: RuleRow) => t.action, (b: BundleRule) => b.action);
  }

  lemma EditedSwitchAndText(m: Master, bundle: Bundle, r: RuleRow, id: string)
    requires id != ""
    ensures var t, bs := Edited(RuleScheme(m, bundle), r, bundle.rules, id), bundle.rules;
            && LastNamed((b: BundleRule) => b.enabled, bs, id, r.enabled, t.enabled)
            && LastNamed(NamedDescription(), bs, id, r.description, t.description)
            && LastNamed(FoundCategory(m, bundle), bs, id, r.categoryId, t.categoryId)
  {
    var sch, bs := RuleScheme(m, bundle), bundle.rules;
    LastNamedWins(sch, r, bs, id, (t: RuleRow) => t.enabled, (b: BundleRule) => b.enabled);
    LastNamedWins(sch, r, bs, id, (t: RuleRow) => t.description, NamedDescription());
    LastNamedWins(sch, r, bs, id, (t: RuleRow) => t.categoryId, FoundCategory(m, bundle));
  }

  lemma EditedFixed(m: Master, bundle: Bundle, r: RuleRow, id: string, k: nat)
    requires id != "" && LastAt(bundle.rules, id, k)
    ensures var t := Edited(RuleScheme(m, bundle), r, bundle.rules, id);
            && Takes(bundle.rules[k], t.ruleType, t.stages, t.detection)
            && t.sdkVersion == bundle.version && t.id == r.id && t.series == r.series && t.source == r.source
  {
    var sch, bs := RuleScheme(m, bundle), bundle.rules;
    LatestIsLast(sch, bs, id, k);
    LastItemWins(sch, r, bs, id, (t: RuleRow) => (t.ruleType, t.stages, t.detection, t.sdkVersion),
                 (b: BundleRule) => (TypeOf(StagesOf(b)), StagesOf(b), DetectionOf(b), bundle.version));
    EditKeepsColumn(sch, r, bs, id, (t: RuleRow) => (t.id, t.series, t.source));
  }

  /** A built-in row that was there holds, after an import, the stages, patterns and mode
      of the last item with its id, and for all else the last that was named for it. */
  lemma UpdatedRuleColumns(m: Master, bundle: Bundle, rows: map<string, RuleRow>, id: string, k: nat)
    requires Import(RuleScheme(m, bundle), rows, bundle.rules).Some?
    requires id in rows && id != "" && LastAt(bundle.rules, id, k)
    ensures var table, r, bs := Import(RuleScheme(m, bundle), rows, bundle.rules).value.0, rows[id], bundle.rules;
            && id in table
            && var t := table[id];
               && Takes(bs[k], t.ruleType, t.stages, t.detection)
               && LastNamed((b: BundleRule) => b.name, bs, id, r.name, t.name)
               && LastNamed((b: BundleRule) => b.severity, bs, id, r.severity, t.severity)
               && LastNamed((b: BundleRule) => b.action, bs, id, r.action, t.action)
               && LastNamed((b: BundleRule) => b.enabled, bs, id, r.enabled, t.enabled)
               && LastNamed(NamedDescription(), bs, id, r.description, t.description)
               && LastNamed(FoundCategory(m, bundle), bs, id, r.categoryId, t.categoryId)
               && t.sdkVersion == bundle.version && t.id == r.id && t.series == r.series && t.source == r.source
  {
    ImportedRow(RuleScheme(m, bundle), rows, bundle.rules, id);
    EditedName(m, bundle, rows[id], id);
    EditedSwitchAndText(m, bundle, rows[id], id);
    EditedFixed(m, bundle, rows[id], id, k);
  }

  /** A new built-in row is made of its item, with the defaults of the format. */
  lemma NewRuleColumns(m: Master, bundle: Bundle, rows: map<string, RuleRow>, id: string, k: nat)
    requires Import(RuleScheme(m, bundle), rows, bundle.rules).Some?
    requires id !in rows && id != "" && LastAt(bundle.rules, id, k)
    ensures var table, b := Import(RuleScheme(m, bundle), rows, bundle.rules).value.0, bundle.rules[k];
            && id in table
            && var t := table[id];
               && TakesNew(b, t.id, t.name, t.description, t.severity, t.action, t.enabled)
               && Takes(b, t.ruleType, t.stages, t.detection)
               && t.categoryId == CategoryOf(m, bundle, b)
               && t.sdkVersion == bundle.version && t.series == bundle.series && t.source == "sdk"
  {
    ImportedRow(RuleScheme(m, bundle), rows, bundle.rules, id);
    LatestIsLast(RuleScheme(m, bundle), bundle.rules, id, k);
  }

  lemma EditedCustomName(m: Master, bundle: Bundle, r: CustomRow, id: string)
    requires id != ""
    ensures var t, bs := Edited(CustomScheme(m, bundle), r, bundle.rules, id), bundle.rules;
            && LastNamed((b: BundleRule) => b.name, bs, id, r.name, t.name)
            && LastNamed((b: BundleRule) => b.severity, bs, id, r.severity, t.severity)
            && LastNamed((b: BundleRule) => b.action, bs, id, r.action, t.action)
  {
    var sch, bs := CustomScheme(m, bundle), bundle.rules;
    LastNamedWins(sch, r, bs, id, (t: CustomRow) => t.name, (b: BundleRule) => b.name);
    LastNamedWins(sch, r, bs, id, (t: CustomRow) => t.severity, (b: BundleRule) => b.severity);
    LastNamedWins(sch, r, bs, id, (t: CustomRow) => t.action, (b: BundleRule) => b.action);
  }

  lemma EditedCustomSwitchAndText(m: Master, bundle: Bundle, r: CustomRow, id: string)
    requires id != ""
    ensures var t, bs := Edited(CustomScheme(m, bundle), r, bundle.rules, id), bundle.rules;
            && LastNamed((b: BundleRule) => b.enabled, bs, id, r.enabled, t.enabled)
            && LastNamed(NamedDescription(), bs, id, r.description, t.description)
            && LastNamed(FoundCategory(m, bundle), bs, id, r.categoryId, t.categoryId)
  {
    var sch, bs := CustomScheme(m, bundle), bundle.rules;
    LastNamedWins(sch, r, bs, id, (t: CustomRow) => t.enabled, (b: BundleRule) => b.enabled);
    LastNamedWins(sch, r, bs, id, (t: CustomRow) => t.description, NamedDescription());
    LastNamedWins(sch, r, bs, id, (t: CustomRow) => t.categoryId, FoundCategory(m, bundle));
  }

  lemma EditedCustomFixed(m: Master, bundle: Bundle, r: CustomRow, id: string, k: nat)
    requires id != "" && LastAt(bundle.rules, id, k)
    ensures var t := Edited(CustomScheme(m, bundle), r, bundle.rules, id);
            && t.detection.Some? && Takes(bundle.rules[k], t.ruleType, t.stages, t.detection.value)
            && t.id == r.id && t.targetFiles == r.targetFiles
            && t.patternType == r.patternType && t.patternValue == r.patternValue
            && t.patternConfidence == r.patternConfidence && t.patternTypeId == r.patternTypeId
  {
    var sch, bs := CustomScheme(m, bundle), bundle.rules;
    LatestIsLast(sch, bs, id, k);
    LastItemWins(sch, r, bs, id, (t: CustomRow) => (t.ruleType, t.stages, t.detection),
                 (b: BundleRule) => (TypeOf(StagesOf(b)), StagesOf(b), Some(DetectionOf(b))));
    EditKeepsColumn(sch, r, bs, id, (t: CustomRow) =>
      (t.id, t.targetFiles, t.patternType, t.patternValue, t.patternConfidence, t.patternTypeId));
  }

  /** The same for a custom row that was there; its simple pattern fields stay. */
  lemma UpdatedCustomColumns(m: Master, bundle: Bundle, rows: map<string, CustomRow>, id: string, k: nat)
    requires Import(CustomScheme(m, bundle), rows, bundle.rules).Some?
    requires id in rows && id != "" && LastAt(bundle.rules, id, k)
    ensures var table, r, bs := Import(CustomScheme(m, bundle), rows, bundle.rules).value.0, rows[id], bundle.rules;
            && id in table
            && var t := table[id];
               && t.detection.Some? && Takes(bs[k], t.ruleType, t.stages, t.detection.value)
               && LastNamed((b: BundleRule) => b.name, bs, id, r.name, t.name)
               && LastNamed((b: BundleRule) => b.severity, bs, id, r.severity, t.severity)
               && LastNamed((b: BundleRule) => b.action, bs, id, r.action, t.action)
               && LastNamed((b: BundleRule) => b.enabled, bs, id, r.enabled, t.enabled)
               && LastNamed(NamedDescription(), bs, id, r.description, t.description)
               && LastNamed(FoundCategory(m, bundle), bs, id, r.categoryId, t.categoryId)
               && t.id == r.id && t.targetFiles == r.targetFiles
               && t.patternType == r.patternType && t.patternValue == r.patternValue
               && t.patternConfidence == r.patternConfidence && t.patternTypeId == r.patternTypeId
  {
    ImportedRow(CustomScheme(m, bundle), rows, bundle.rules, id);
    EditedCustomName(m, bundle, rows[id], id);
    EditedCustomSwitchAndText(m, bundle, rows[id], id);
    EditedCustomFixed(m, bundle, rows[id], id, k);
  }

  /** A new custom row also takes its simple pattern fields from the first pattern. */
  lemma NewCustomColumns(m: Master, bundle: Bundle, rows: map<string, CustomRow>, id: string, k: nat)
    requires Import(CustomScheme(m, bundle), rows, bundle.rules).Some?
    requires id !in rows && id != "" && LastAt(bundle.rules, id, k)
    ensures var table, b := Import(CustomScheme(m, bundle), rows, bundle.rules).value.0, bundle.rules[k];
            && id in table
            && var t := table[id];
               && TakesNew(b, t.id, t.name, t.description, t.severity, t.action, t.enabled)
               && t.detection.Some? && Takes(b, t.ruleType, t.stages, t.detection.value)
               && t.categoryId == CategoryOf(m, bundle, b) && t.targetFiles == None
               && var p := if t.detection.value.patterns.value == [] then Pattern(None, None, None, None)
                           else t.detection.value.patterns.value[0];
                  && t.patternType == (if p.ptype.Some? then p.ptype.value else "regex")
                  && t.patternValue == (if p.value.Some? then p.value.value else "")
                  && t.patternConfidence == (if p.confidence.Some? then p.confidence else Some(0.8))
                  && t.patternTypeId ==
                       (if t.patternType in m.patternTypes then Some(m.patternTypes[t.patternType]) else None)
  {
    ImportedRow(CustomScheme(m, bundle), rows, bundle.rules, id);
    LatestIsLast(CustomScheme(m, bundle), bundle.rules, id, k);
  }
}
