/** Exporting rows as a bundle, and what comes back when the bundle is imported into an empty table. */
module RuleExport {
  import opened Common
  import opened Patterns
  import opened Upsert
  import opened RuleTables

  // ---- Exporting ----

  /** Which rows are exported: a series and a category, each optional. An unknown
      category name does not restrict anything. */
  datatype Filters = Filters(series: Option<string>, category: Option<string>)

  predicate InCategory(cats: seq<Category>, f: Filters, id: Option<int>) {
    Truthy(f.category) && ByName(cats, f.category.value).Some? ==> id == ByName(cats, f.category.value)
  }

  predicate SelectsRule(cats: seq<Category>, f: Filters, r: RuleRow) {
    (Truthy(f.series) ==> r.series == f.series.value) && InCategory(cats, f, r.categoryId)
  }

  predicate SelectsCustom(cats: seq<Category>, f: Filters, r: CustomRow) {
    InCategory(cats, f, r.categoryId)
  }

  function RuleEntry(cats: seq<Category>, r: RuleRow): BundleRule {
    BundleRule(
      r.id, Some(r.name), if Truthy(r.description) then r.description else None, Some(r.severity),
      Some(r.action), CategoryName(cats, r.categoryId), Some(r.stages), Some(r.detection), Some(r.enabled), None)
  }

  /** The row stores a detection object, and not an empty one. */
  predicate HasDetection(r: CustomRow) {
    r.detection.Some? && r.detection.value != NO_DETECTION
  }

  /** The stored detection object, or one made of the simple pattern fields when there is none. */
  function EffectiveDetection(r: CustomRow): Detection {
    if HasDetection(r) then r.detection.value
    else
      var p := Pattern(Some(r.patternType), Some(r.patternValue), None, Some(r.patternConfidence.GetOr(0.8)));
      Detection(Some("any"), Some([p]), None)
  }

  predicate HasTargetFiles(r: CustomRow) {
    r.targetFiles.Some? && r.targetFiles.value != []
  }

  function CustomEntry(cats: seq<Category>, r: CustomRow): BundleRule {
    BundleRule(
      r.id, Some(r.name), if Truthy(r.description) then r.description else None, Some(r.severity),
      Some(r.action), CategoryName(cats, r.categoryId), Some(r.stages), Some(EffectiveDetection(r)),
      Some(r.enabled), if HasTargetFiles(r) then r.targetFiles else None)
  }

  function RuleEntries(cats: seq<Category>, rows: seq<RuleRow>): (es: seq<BundleRule>)
    ensures |es| == |rows|
    ensures forall i :: 0 <= i < |es| ==> es[i] == RuleEntry(cats, rows[i])
  {
    seq(|rows|, i requires 0 <= i < |rows| => RuleEntry(cats, rows[i]))
  }

  function CustomEntries(cats: seq<Category>, rows: seq<CustomRow>): (es: seq<BundleRule>)
    ensures |es| == |rows|
    ensures forall i :: 0 <= i < |es| ==> es[i] == CustomEntry(cats, rows[i])
  {
    seq(|rows|, i requires 0 <= i < |rows| => CustomEntry(cats, rows[i]))
  }

  /** The series an id belongs to, by its prefix. */
  function SeriesOf(id: string): Option<string> {
    if "I-" <= id then Some("I")
    else if "O-" <= id then Some("O")
    else if "SEC-" <= id then Some("SEC")
    else if "IAC-" <= id then Some("IAC")
    else None
  }

  function FirstSeries(rows: seq<RuleRow>): string {
    if rows == [] then "CUSTOM"
    else if SeriesOf(rows[0].id).Some? then SeriesOf(rows[0].id).value
    else FirstSeries(rows[1..])
  }

  function BundleTitle(series: string): string {
    match series
    case "I" => "Input Detection Rules"
    case "O" => "Output Detection Rules"
    case "SEC" => "Code Security Rules"
    case "IAC" => "Infrastructure as Code Rules"
    case "CUSTOM" => "Custom Rules"
    case "ALL" => "All Rules"
    case _ => "Kasra Rules"
  }

  /** The exported bundle: built-in rows first, then custom rows. */
  function Exported(cats: seq<Category>, f: Filters, rules: seq<RuleRow>, customs: seq<CustomRow>): Bundle {
    if rules == [] && customs == [] then
      Bundle(if Truthy(f.series) then f.series.value else "ALL", Some("Exported Rules"), 1, [])
    else
      var series := if Truthy(f.series) then f.series.value else FirstSeries(rules);
      Bundle(series, Some(BundleTitle(series)), 1, RuleEntries(cats, rules) + CustomEntries(cats, customs))
  }

  /** The queries return the rows of the two tables in some order; an export
      restricted to one table is one with no rows of the other. */
  method ExportRulesToBundle(cats: seq<Category>, f: Filters, ruleRows: seq<RuleRow>, customRows: seq<CustomRow>)
    returns (bundle: Bundle)
    ensures bundle == Exported(cats, f,
      Filter(r => SelectsRule(cats, f, r), ruleRows), Filter(r => SelectsCustom(cats, f, r), customRows))
  {
    var rules := Filter(r => SelectsRule(cats, f, r), ruleRows);
    var customs := Filter(r => SelectsCustom(cats, f, r), customRows);
    var all: seq<BundleRule> := [];
    for i := 0 to |rules|
      invariant all == RuleEntries(cats, rules)[..i]
    {
      all := all + [RuleEntry(cats, rules[i])];
    }
    for i := 0 to |customs|
      invariant all == RuleEntries(cats, rules) + CustomEntries(cats, customs)[..i]
    {
      all := all + [CustomEntry(cats, customs[i])];
    }
    if all == [] {
      return Bundle(if Truthy(f.series) then f.series.value else "ALL", Some("Exported Rules"), 1, []);
    }
    var firstSeries := if Truthy(f.series) then f.series.value else "";
    if !Truthy(f.series) {
      var i := 0;
      while i < |rules| && SeriesOf(rules[i].id).None?
        invariant 0 <= i <= |rules|
        invariant FirstSeries(rules) == FirstSeries(rules[i..])
      {
        i := i + 1;
      }
      firstSeries := if i < |rules| then SeriesOf(rules[i].id).value else "CUSTOM";
    }
    bundle := Bundle(firstSeries, Some(BundleTitle(firstSeries)), 1, all);
  }

  // ---- What an export holds ----

  /** The category filter: without a name, or with one that no category has, it lets
      every row through; otherwise those of the first category of that name. */
  lemma CategoryFilterMeans(cats: seq<Category>, f: Filters, id: Option<int>, k: nat)
    ensures f.category.None? || f.category.value == "" ==> InCategory(cats, f, id)
    ensures f.category.Some? && (forall j :: 0 <= j < |cats| ==> cats[j].name != f.category.value) ==>
              InCategory(cats, f, id)
    ensures f.category.Some? && f.category.value != "" && k < |cats| && cats[k].name == f.category.value
            && (forall j :: 0 <= j < k ==> cats[j].name != f.category.value) ==>
              (InCategory(cats, f, id) <==> id == Some(cats[k].id))
  {
    if f.category.Some? {
      ByNameIsFirst(cats, f.category.value);
      ByNameAt(cats, f.category.value, k);
    }
  }

  lemma {:induction false} ByNameAt(cats: seq<Category>, name: string, k: nat)
    ensures k < |cats| && cats[k].name == name && (forall j :: 0 <= j < k ==> cats[j].name != name) ==>
              ByName(cats, name) == Some(cats[k].id)
  {
    if 0 < k < |cats| && cats[0].name != name {
      assert forall j :: 0 <= j < |cats[1..]| ==> cats[1..][j] == cats[j + 1];
      ByNameAt(cats[1..], name, k - 1);
    }
  }

  /** The rows exported are those of the series and category asked for. */
  lemma ExportSelects(cats: seq<Category>, f: Filters, rules: seq<RuleRow>, customs: seq<CustomRow>, r: RuleRow, c: CustomRow)
    ensures r in Filter(x => SelectsRule(cats, f, x), rules) <==>
              r in rules && (f.series.None? || f.series.value == "" || r.series == f.series.value)
              && InCategory(cats, f, r.categoryId)
    ensures c in Filter(x => SelectsCustom(cats, f, x), customs) <==> c in customs && InCategory(cats, f, c.categoryId)
  {
    FilterMembers(x => SelectsRule(cats, f, x), rules);
    FilterMembers(x => SelectsCustom(cats, f, x), customs);
  }

  /** Series by the prefix of an id. */
  lemma SeriesOfMeans(id: string)
    ensures SeriesOf(id) ==
              if |id| >= 2 && id[..2] == "I-" then Some("I")
              else if |id| >= 2 && id[..2] == "O-" then Some("O")
              else if |id| >= 4 && id[..4] == "SEC-" then Some("SEC")
              else if |id| >= 4 && id[..4] == "IAC-" then Some("IAC")
              else None
  {
  }

  /** The series of the first built-in rule whose id has one. */
  lemma {:induction false} FirstSeriesMeans(rows: seq<RuleRow>, k: nat)
    ensures (forall j :: 0 <= j < |rows| ==> SeriesOf(rows[j].id).None?) ==> FirstSeries(rows) == "CUSTOM"
    ensures k < |rows| && SeriesOf(rows[k].id).Some? && (forall j :: 0 <= j < k ==> SeriesOf(rows[j].id).None?) ==>
              FirstSeries(rows) == SeriesOf(rows[k].id).value
  {
    if rows != [] && SeriesOf(rows[0].id).None? {
      assert forall j :: 0 <= j < |rows[1..]| ==> rows[1..][j] == rows[j + 1];
      FirstSeriesMeans(rows[1..], if k > 0 then k - 1 else 0);
    }
  }

  /** Head of an exported bundle. */
  lemma ExportedHead(cats: seq<Category>, f: Filters, rules: seq<RuleRow>, customs: seq<CustomRow>)
    ensures var b := Exported(cats, f, rules, customs);
            && b.version == 1
            && (f.series.Some? && f.series.value != "" ==> b.series == f.series.value)
            && ((f.series.None? || f.series.value == "") && rules == [] && customs == [] ==> b.series == "ALL")
            && ((f.series.None? || f.series.value == "") && rules == [] && customs != [] ==> b.series == "CUSTOM")
            && (rules == [] && customs == [] ==> b.name == Some("Exported Rules") && b.rules == [])
            && (rules != [] || customs != [] ==> b.name == Some(
                  if b.series == "I" then "Input Detection Rules"
                  else if b.series == "O" then "Output Detection Rules"
                  else if b.series == "SEC" then "Code Security Rules"
                  else if b.series == "IAC" then "Infrastructure as Code Rules"
                  else if b.series == "CUSTOM" then "Custom Rules"
                  else if b.series == "ALL" then "All Rules"
                  else "Kasra Rules"))
  {
  }

  /** The entry of a built-in row, key by key. */
  lemma RuleEntryKeys(cats: seq<Category>, r: RuleRow)
    ensures var e := RuleEntry(cats, r);
            && e.id == r.id && e.name == Some(r.name) && e.severity == Some(r.severity) && e.action == Some(r.action)
            && e.stages == Some(r.stages) && e.detection == Some(r.detection) && e.enabled == Some(r.enabled)
            && e.targetFiles == None
            && (r.description != Some("") ==> e.description == r.description)
            && (r.description == Some("") ==> e.description == None)
  {
  }

  /** The entry of a custom row: its own detection object, unless that is missing or
      empty, and its target files, unless there are none. */
  lemma CustomEntryKeys(cats: seq<Category>, c: CustomRow)
    ensures var e := CustomEntry(cats, c);
            && e.id == c.id && e.name == Some(c.name) && e.severity == Some(c.severity) && e.action == Some(c.action)
            && e.stages == Some(c.stages) && e.enabled == Some(c.enabled)
            && (c.detection.Some? && c.detection.value != Detection(None, None, None) ==> e.detection == c.detection)
            && (c.detection.None? || c.detection.value == Detection(None, None, None) ==>
                  e.detection == Some(Detection(Some("any"), Some([
                    Pattern(Some(c.patternType), Some(c.patternValue), None,
                            if c.patternConfidence.Some? then c.patternConfidence else Some(0.8))]), None)))
            && (c.targetFiles.Some? && c.targetFiles.value != [] ==> e.targetFiles == c.targetFiles)
            && (c.targetFiles.None? || c.targetFiles.value == [] ==> e.targetFiles == None)
            && (c.description != Some("") ==> e.description == c.description)
            && (c.description == Some("") ==> e.description == None)
  {
  }

  // ---- The round trip of one row ----

  /** The exported category name leads back to the row's own category: it is a
      proper name, or neither the row nor the bundle's title leads to any category. */
  predicate CategorySurvives(cats: seq<Category>, title: Option<string>, id: Option<int>) {
    Truthy(CategoryName(cats, id)) || Lookup(cats, title) == id
  }

  lemma CategoryRoundTrip(m: Master, bundle: Bundle, b: BundleRule, id: Option<int>)
    requires UniqueCategories(m.categories) && b.category == CategoryName(m.categories, id)
    ensures CategoryOf(m, bundle, b) == id <==> CategorySurvives(m.categories, bundle.name, id)
    ensures Truthy(b.category) ==> CategoryOf(m, bundle, b) == id
  {
    if id.Some? && Truthy(b.category) {
      NameRoundTrip(m.categories, id.value);
    }
  }

  /** The fields of a built-in row that the bundle format carries come back as they
      were, whatever their values. */
  lemma RuleComesBack(m: Master, bundle: Bundle, r: RuleRow)
    requires UniqueCategories(m.categories)
    ensures var r' := CreatedRule(m, bundle, RuleEntry(m.categories, r));
            && r'.id == r.id && r'.name == r.name && r'.severity == r.severity && r'.action == r.action
            && r'.stages == r.stages && r'.enabled == r.enabled
            && r'.detection == Normalized(r.detection)
            && (RuleTyped(r) ==> r'.ruleType == r.ruleType)
            && (Truthy(r.description) ==> r'.description == r.description)
            && (r'.description == r.description <==> r.description != Some(""))
            && (r'.categoryId == r.categoryId <==> CategorySurvives(m.categories, bundle.name, r.categoryId))
            && (r'.series == r.series <==> r.series == bundle.series)
            && (r'.source == r.source <==> r.source == "sdk")
            && (r'.sdkVersion == r.sdkVersion <==> r.sdkVersion == bundle.version)
  {
    CategoryRoundTrip(m, bundle, RuleEntry(m.categories, r), r.categoryId);
  }

  /** The series of a rule survives an export exactly when the export was restricted to
      a series, or the rule's own is the one that the ids of the exported rules lead to. */
  lemma SeriesSurvivesIff(m: Master, f: Filters, rules: seq<RuleRow>, customs: seq<CustomRow>, r: RuleRow)
    requires r in rules && SelectsRule(m.categories, f, r)
    ensures var bundle := Exported(m.categories, f, rules, customs);
            CreatedRule(m, bundle, RuleEntry(m.categories, r)).series == r.series <==>
            Truthy(f.series) || r.series == FirstSeries(rules)
  {
  }

  /** A rule that comes back is found by the same series filters as before exactly when
      its series is that of the bundle. */
  lemma SeriesFiltersFindIff(m: Master, bundle: Bundle, r: RuleRow)
    ensures (forall f: Filters :: f.category.None? ==>
               (SelectsRule(m.categories, f, CreatedRule(m, bundle, RuleEntry(m.categories, r)))
                <==> SelectsRule(m.categories, f, r))) <==>
            r.series == bundle.series
  {
    var r' := CreatedRule(m, bundle, RuleEntry(m.categories, r));
    var own, other := Filters(Some(r.series), None), Filters(Some(bundle.series), None);
    assert r.series != "" ==> (SelectsRule(m.categories, own, r) && (SelectsRule(m.categories, own, r') <==> r.series == bundle.series));
    assert bundle.series != "" ==> (SelectsRule(m.categories, other, r') && (SelectsRule(m.categories, other, r) <==> r.series == bundle.series));
  }

  /** The four columns the live engine works with: the simple pattern fields. */
  predicate SameSimpleFields(c: CustomRow, d: CustomRow) {
    && c.patternType == d.patternType && c.patternValue == d.patternValue
    && c.patternConfidence == d.patternConfidence && c.patternTypeId == d.patternTypeId
  }

  /** The simple pattern fields repeat the first stored pattern, a confidence is
      set, and the type is the one looked up by its name. */
  predicate SimpleFieldsSurvive(m: Master, r: CustomRow) {
    && r.patternConfidence.Some? && r.patternTypeId == PatternTypeId(m, r.patternType)
    && (HasDetection(r) ==>
          var p := FirstOf(r.detection.value.patterns.GetOr([]));
          && r.patternType == p.ptype.GetOr("regex") && r.patternValue == p.value.GetOr("")
          && r.patternConfidence.value == p.confidence.GetOr(0.8))
  }

  /** The columns of a custom row that come back, and the condition on the row for
      each that may not. */
  lemma CustomComesBack(m: Master, bundle: Bundle, r: CustomRow)
    requires UniqueCategories(m.categories)
    ensures var r' := CreatedCustom(m, bundle, CustomEntry(m.categories, r));
            && r'.id == r.id && r'.name == r.name && r'.severity == r.severity && r'.action == r.action
            && r'.stages == r.stages && r'.enabled == r.enabled
            && EffectiveDetection(r') == Normalized(EffectiveDetection(r))
            && (SameSimpleFields(r', r) <==> SimpleFieldsSurvive(m, r))
            && r'.targetFiles == None
            && (CustomTyped(r) ==> r'.ruleType == r.ruleType)
            && (Truthy(r.description) ==> r'.description == r.description)
            && (r'.description == r.description <==> r.description != Some(""))
            && (r'.categoryId == r.categoryId <==> CategorySurvives(m.categories, bundle.name, r.categoryId))
  {
    CategoryRoundTrip(m, bundle, CustomEntry(m.categories, r), r.categoryId);
  }

  /** In the `{mode, patterns}` form that every import stores. */
  predicate InNormalForm(d: Detection) {
    d.mode.Some? && d.patterns.Some? && d.targetFiles.None?
  }

  /** The category is named in the export, or the bundle's title leads to no differently named one. */
  predicate CategoryReexports(cats: seq<Category>, title: Option<string>, id: Option<int>) {
    Truthy(CategoryName(cats, id)) || CategoryName(cats, Lookup(cats, title)) == CategoryName(cats, id)
  }

  predicate RulePortable(cats: seq<Category>, title: Option<string>, r: RuleRow) {
    InNormalForm(r.detection) && CategoryReexports(cats, title, r.categoryId)
  }

  predicate CustomPortable(cats: seq<Category>, title: Option<string>, r: CustomRow) {
    && InNormalForm(EffectiveDetection(r)) && !HasTargetFiles(r)
    && CategoryReexports(cats, title, r.categoryId)
  }

  /** A row exports the same again after the round trip exactly when it is portable. */
  lemma RuleReexportsIff(m: Master, bundle: Bundle, r: RuleRow)
    requires UniqueCategories(m.categories)
    ensures RuleEntry(m.categories, CreatedRule(m, bundle, RuleEntry(m.categories, r))) == RuleEntry(m.categories, r)
            <==> RulePortable(m.categories, bundle.name, r)
  {
    CategoryRoundTrip(m, bundle, RuleEntry(m.categories, r), r.categoryId);
  }

  lemma CustomReexportsIff(m: Master, bundle: Bundle, r: CustomRow)
    requires UniqueCategories(m.categories)
    ensures CustomEntry(m.categories, CreatedCustom(m, bundle, CustomEntry(m.categories, r))) == CustomEntry(m.categories, r)
            <==> CustomPortable(m.categories, bundle.name, r)
  {
    CategoryRoundTrip(m, bundle, CustomEntry(m.categories, r), r.categoryId);
  }

  /** Detections of imported rows are in normal form. */
  lemma ImportedIsNormal(m: Master, bundle: Bundle, r: RuleRow, c: CustomRow, b: BundleRule)
    ensures InNormalForm(CreatedRule(m, bundle, b).detection)
    ensures InNormalForm(UpdatedRule(m, bundle, r, b).detection)
    ensures InNormalForm(EffectiveDetection(CreatedCustom(m, bundle, b)))
    ensures InNormalForm(EffectiveDetection(UpdatedCustom(m, bundle, c, b)))
  {
  }

  // ---- The round trip of a table ----

  /** Importing entries made row by row from a whole table into an empty one
      succeeds and creates, under each id, the row made of that id's entry. */
  lemma EntriesRebuildTable<R(!new), B>(sch: Scheme<R, B>, entries: seq<B>, rows: seq<R>, table: map<string, R>,
                                  idOf: R -> string, entry: R -> B)
    requires Lists(rows, table, idOf) && ProperIds(rows, idOf)
    requires |entries| == |rows|
    requires forall i :: 0 <= i < |rows| ==> entries[i] == entry(rows[i]) && sch.id(entries[i]) == idOf(rows[i])
    ensures var result := Import(sch, map[], entries);
            && result.Some?
            && result.value.1 == Stats(|rows|, |rows|, 0, 0)
            && result.value.0.Keys == table.Keys
            && forall id :: id in table ==> result.value.0[id] == sch.create(entry(table[id]))
  {
    assert DistinctIds(sch, entries);
    FreshImport(sch, entries);
    var back := Import(sch, map[], entries).value.0;
    forall id | id in table ensures id in back && back[id] == sch.create(entry(table[id])) {
      var i :| 0 <= i < |rows| && idOf(rows[i]) == id;
      assert sch.id(entries[i]) == id;
    }
    forall id | id in back ensures id in table {
      var i :| 0 <= i < |entries| && sch.id(entries[i]) == id;
      assert idOf(rows[i]) == id;
    }
  }

  /** The rules of an exported bundle are the entries of its rows. */
  lemma ExportedRules(cats: seq<Category>, f: Filters, rules: seq<RuleRow>, customs: seq<CustomRow>)
    ensures Exported(cats, f, rules, customs).rules == RuleEntries(cats, rules) + CustomEntries(cats, customs)
  {
  }

  lemma RuleEntriesRebuild(m: Master, bundle: Bundle, rows: seq<RuleRow>, table: map<string, RuleRow>)
    requires Lists(rows, table, RuleId) && ProperIds(rows, RuleId)
    requires bundle.rules == RuleEntries(m.categories, rows)
    ensures var result := Import(RuleScheme(m, bundle), map[], bundle.rules);
            && result.Some?
            && result.value.1 == Stats(|rows|, |rows|, 0, 0)
            && result.value.0.Keys == table.Keys
            && forall id :: id in table ==>
                 result.value.0[id] == CreatedRule(m, bundle, RuleEntry(m.categories, table[id]))
  {
    EntriesRebuildTable(RuleScheme(m, bundle), bundle.rules, rows, table, RuleId, r => RuleEntry(m.categories, r));
  }

  lemma CustomEntriesRebuild(m: Master, bundle: Bundle, rows: seq<CustomRow>, table: map<string, CustomRow>)
    requires Lists(rows, table, CustomId) && ProperIds(rows, CustomId)
    requires bundle.rules == CustomEntries(m.categories, rows)
    ensures var result := Import(CustomScheme(m, bundle), map[], bundle.rules);
            && result.Some?
            && result.value.1 == Stats(|rows|, |rows|, 0, 0)
            && result.value.0.Keys == table.Keys
            && forall id :: id in table ==>
                 result.value.0[id] == CreatedCustom(m, bundle, CustomEntry(m.categories, table[id]))
  {
    EntriesRebuildTable(CustomScheme(m, bundle), bundle.rules, rows, table, CustomId, r => CustomEntry(m.categories, r));
  }

  /** Importing an export of built-in rows into an empty table succeeds, creates
      every row, and holds for each id the row made of its entry. */
  lemma RuleTableRoundTrip(m: Master, f: Filters, rows: seq<RuleRow>, table: map<string, RuleRow>)
    requires Lists(rows, table, RuleId) && ProperIds(rows, RuleId)
    ensures var bundle := Exported(m.categories, f, rows, []);
            var result := Import(RuleScheme(m, bundle), map[], bundle.rules);
            && result.Some?
            && result.value.1 == Stats(|rows|, |rows|, 0, 0)
            && result.value.0.Keys == table.Keys
            && forall id :: id in table ==>
                 result.value.0[id] == CreatedRule(m, bundle, RuleEntry(m.categories, table[id]))
  {
    ExportedRules(m.categories, f, rows, []);
    assert RuleEntries(m.categories, rows) + CustomEntries(m.categories, []) == RuleEntries(m.categories, rows);
    RuleEntriesRebuild(m, Exported(m.categories, f, rows, []), rows, table);
  }

  /** The same for custom rows and the custom table. */
  lemma CustomTableRoundTrip(m: Master, f: Filters, rows: seq<CustomRow>, table: map<string, CustomRow>)
    requires Lists(rows, table, CustomId) && ProperIds(rows, CustomId)
    ensures var bundle := Exported(m.categories, f, [], rows);
            var result := Import(CustomScheme(m, bundle), map[], bundle.rules);
            && result.Some?
            && result.value.1 == Stats(|rows|, |rows|, 0, 0)
            && result.value.0.Keys == table.Keys
            && forall id :: id in table ==>
                 result.value.0[id] == CreatedCustom(m, bundle, CustomEntry(m.categories, table[id]))
  {
    ExportedRules(m.categories, f, [], rows);
    assert RuleEntries(m.categories, []) + CustomEntries(m.categories, rows) == CustomEntries(m.categories, rows);
    CustomEntriesRebuild(m, Exported(m.categories, f, [], rows), rows, table);
  }

  // ---- Exporting again ----

  ghost predicate NoRepeats<T>(xs: seq<T>) {
    forall i, j :: 0 <= i < j < |xs| ==> xs[i] != xs[j]
  }

  lemma {:induction false} NoRepeatsCounts<T>(xs: seq<T>, x: T)
    requires NoRepeats(xs)
    ensures multiset(xs)[x] == if x in xs then 1 else 0
  {
    if xs != [] {
      NoRepeatsCounts(xs[1..], x);
      assert xs == [xs[0]] + xs[1..];
      assert multiset(xs) == multiset{xs[0]} + multiset(xs[1..]);
    }
  }

  lemma SameElementsSameMultiset<T>(xs: seq<T>, ys: seq<T>)
    requires NoRepeats(xs) && NoRepeats(ys) && forall x :: x in xs <==> x in ys
    ensures multiset(xs) == multiset(ys)
  {
    forall x ensures multiset(xs)[x] == multiset(ys)[x] {
      NoRepeatsCounts(xs, x);
      NoRepeatsCounts(ys, x);
    }
  }

  /** Two listings of tables with the same ids export the same multiset, in whatever
      order the rows come, exactly when the rows under each id make the same entry. */
  lemma SameEntriesIff<R(!new)>(rows: seq<R>, table: map<string, R>, rows': seq<R>, table': map<string, R>,
                          idOf: R -> string, entry: R -> BundleRule, es: seq<BundleRule>, es': seq<BundleRule>)
    requires Lists(rows, table, idOf) && Lists(rows', table', idOf)
    requires forall r :: entry(r).id == idOf(r)
    requires table.Keys == table'.Keys
    requires |es| == |rows| && forall i :: 0 <= i < |es| ==> es[i] == entry(rows[i])
    requires |es'| == |rows'| && forall i :: 0 <= i < |es'| ==> es'[i] == entry(rows'[i])
    ensures multiset(es) == multiset(es') <==>
            forall i :: 0 <= i < |rows| ==> entry(table'[idOf(rows[i])]) == entry(rows[i])
  {
    EntriesOfTable(rows, table, idOf, entry, es);
    EntriesOfTable(rows', table', idOf, entry, es');
    if multiset(es) == multiset(es') {
      forall i | 0 <= i < |rows| ensures entry(table'[idOf(rows[i])]) == entry(rows[i]) {
        assert es[i] in multiset(es');
        var id :| id in table' && es[i] == entry(table'[id]);
        assert idOf(table'[id]) == id by {
          var k :| 0 <= k < |rows'| && idOf(rows'[k]) == id;
        }
      }
    }
    if forall i :: 0 <= i < |rows| ==> entry(table'[idOf(rows[i])]) == entry(rows[i]) {
      forall id | id in table ensures entry(table'[id]) == entry(table[id]) {
        var i :| 0 <= i < |rows| && idOf(rows[i]) == id;
      }
      SameElementsSameMultiset(es, es');
    }
  }

  lemma EntriesOfTable<R(!new)>(rows: seq<R>, table: map<string, R>, idOf: R -> string, entry: R -> BundleRule,
                          es: seq<BundleRule>)
    requires Lists(rows, table, idOf)
    requires forall r :: entry(r).id == idOf(r)
    requires |es| == |rows| && forall i :: 0 <= i < |es| ==> es[i] == entry(rows[i])
    ensures NoRepeats(es)
    ensures forall e :: e in es <==> exists id :: id in table && e == entry(table[id])
  {
    forall i, j | 0 <= i < j < |es| ensures es[i] != es[j] {
      assert es[i].id == idOf(rows[i]) && es[j].id == idOf(rows[j]);
    }
    forall id | id in table ensures entry(table[id]) in es {
      var i :| 0 <= i < |rows| && idOf(rows[i]) == id;
      assert es[i] == entry(table[id]);
    }
    forall e | e in es ensures exists id :: id in table && e == entry(table[id]) {
      var i :| 0 <= i < |es| && es[i] == e;
      assert e == entry(table[idOf(rows[i])]);
    }
  }

  /** Exporting the re-imported table, in any row order, gives the same multiset of
      rules as the first export exactly when every row is portable. */
  lemma RuleReexportIsTheSameIff(m: Master, bundle: Bundle, rows: seq<RuleRow>, table: map<string, RuleRow>,
                                 rows': seq<RuleRow>, table': map<string, RuleRow>)
    requires UniqueCategories(m.categories)
    requires Lists(rows, table, RuleId) && ProperIds(rows, RuleId)
    requires bundle.rules == RuleEntries(m.categories, rows)
    requires Import(RuleScheme(m, bundle), map[], bundle.rules).Some?
    requires table' == Import(RuleScheme(m, bundle), map[], bundle.rules).value.0 && Lists(rows', table', RuleId)
    ensures multiset(RuleEntries(m.categories, rows')) == multiset(bundle.rules) <==>
            forall i :: 0 <= i < |rows| ==> RulePortable(m.categories, bundle.name, rows[i])
  {
    RuleEntriesRebuild(m, bundle, rows, table);
    forall i | 0 <= i < |rows|
      ensures RuleEntry(m.categories, table'[rows[i].id]) == RuleEntry(m.categories, rows[i]) <==>
              RulePortable(m.categories, bundle.name, rows[i])
    {
      assert RuleId(rows[i]) in table;
      RuleReexportsIff(m, bundle, rows[i]);
    }
    SameEntriesIff(rows, table, rows', table', RuleId, r => RuleEntry(m.categories, r),
                   bundle.rules, RuleEntries(m.categories, rows'));
  }

  /** The same for custom rows. */
  lemma CustomReexportIsTheSameIff(m: Master, bundle: Bundle, rows: seq<CustomRow>, table: map<string, CustomRow>,
                                   rows': seq<CustomRow>, table': map<string, CustomRow>)
    requires UniqueCategories(m.categories)
    requires Lists(rows, table, CustomId) && ProperIds(rows, CustomId)
    requires bundle.rules == CustomEntries(m.categories, rows)
    requires Import(CustomScheme(m, bundle), map[], bundle.rules).Some?
    requires table' == Import(CustomScheme(m, bundle), map[], bundle.rules).value.0 && Lists(rows', table', CustomId)
    ensures multiset(CustomEntries(m.categories, rows')) == multiset(bundle.rules) <==>
            forall i :: 0 <= i < |rows| ==> CustomPortable(m.categories, bundle.name, rows[i])
  {
    CustomEntriesRebuild(m, bundle, rows, table);
    forall i | 0 <= i < |rows|
      ensures CustomEntry(m.categories, table'[rows[i].id]) == CustomEntry(m.categories, rows[i]) <==>
              CustomPortable(m.categories, bundle.name, rows[i])
    {
      assert CustomId(rows[i]) in table;
      CustomReexportsIff(m, bundle, rows[i]);
    }
    SameEntriesIff(rows, table, rows', table', CustomId, r => CustomEntry(m.categories, r),
                   bundle.rules, CustomEntries(m.categories, rows'));
  }

  // ---- Rows that do not come back ----

  const PLAIN_RULE := RuleRow("I-01", "A rule", None, "P2", "warn", None, Io, ["input"],
                              Detection(Some("any"), Some([]), None), true, "sdk", "I", 1)

  const PLAIN_CUSTOM := CustomRow("U-01", "A rule", None, "P2", "warn", None, CodeReview, ["batch"], Some(["*.py"]),
                                  "regex", "eval", Some(0.8), None, None, true)

  /** A built-in rule whose detection names target files loses them, and one
      without a category gains the one that the title of the bundle leads to. */
  lemma RuleReexportExample()
    ensures var m := Master([Category(1, "inj", "Input Detection Rules")], map[]);
            var bundle := Bundle("I", Some("Input Detection Rules"), 1, []);
            var aimed := PLAIN_RULE.(detection := Detection(Some("any"), Some([]), Some(["*.py"])));
            && UniqueCategories(m.categories)
            && (forall r :: r in [PLAIN_RULE, aimed] ==>
                  RuleEntry(m.categories, CreatedRule(m, bundle, RuleEntry(m.categories, r))) != RuleEntry(m.categories, r))
  {
    var m := Master([Category(1, "inj", "Input Detection Rules")], map[]);
    var bundle := Bundle("I", Some("Input Detection Rules"), 1, []);
    var back := CreatedRule(m, bundle, RuleEntry(m.categories, PLAIN_RULE));
    assert m.categories[1..] == [];
    assert ByName(m.categories, "Input Detection Rules") == ByName(m.categories[1..], "Input Detection Rules");
    assert back.categoryId == Some(1);
  }

  /** Exported behind an input rule, an output rule comes back as one of series "I",
      and an export of series "O" no longer holds it. */
  lemma LostSeriesExample(m: Master)
    ensures var output := PLAIN_RULE.(id := "O-01", series := "O");
            var bundle := Exported(m.categories, Filters(None, None), [PLAIN_RULE, output], []);
            var back := CreatedRule(m, bundle, RuleEntry(m.categories, output));
            && back.series == "I"
            && SelectsRule(m.categories, Filters(Some("O"), None), output)
            && !SelectsRule(m.categories, Filters(Some("O"), None), back)
  {
    var output := PLAIN_RULE.(id := "O-01", series := "O");
    assert FirstSeries([PLAIN_RULE, output]) == "I";
  }

  /** A custom code-review rule loses the files it is aimed at. */
  lemma CustomReexportExample()
    ensures var m, bundle := Master([], map[]), Bundle("CUSTOM", Some("Custom Rules"), 1, []);
            CustomEntry(m.categories, CreatedCustom(m, bundle, CustomEntry(m.categories, PLAIN_CUSTOM)))
              != CustomEntry(m.categories, PLAIN_CUSTOM)
  {
    var m, bundle := Master([], map[]), Bundle("CUSTOM", Some("Custom Rules"), 1, []);
    CustomReexportsIff(m, bundle, PLAIN_CUSTOM);
  }
}
