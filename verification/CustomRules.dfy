/**
 * Custom rules have their pattern twice: in a detection object, which bundles
 * carry, and in simple fields, which the live engine works with. When do the two
 * mean the same, and which operations keep it so?
 */
module CustomRules {
  import opened Common
  import opened Patterns
  import opened Upsert
  import opened RuleTables
  import opened RuleExport
  import opened RuleEngine
  import opened RuleStore

  // ---- Live and stored meaning ----

  /** What the engine or the scanner is given of a custom row. */
  function LivePatterns(conv: Converter, c: CustomRow): seq<SdkPattern> {
    if c.patternValue == "" then []
    else [conv(SimplePattern(c.patternType, c.patternValue, c.patternConfidence.GetOr(0.8)))]
  }

  /** The patterns it is exported with. */
  function StoredPatterns(c: CustomRow): seq<Pattern> {
    EffectiveDetection(c).patterns.GetOr([])
  }

  /** The live rule matches what the stored one means, for every matcher and text. */
  ghost predicate MeansWhatItStores(conv: Converter, dm: DictMap, c: CustomRow) {
    forall m: Matcher, text: string ::
      AnyMatches(m, LivePatterns(conv, c), text) <==> RuleMeans(m, conv, StoredPatterns(c), dm, text)
  }

  /** Spelled out, the stored patterns all are the one pattern of the simple fields,
      or there are none and the simple fields hold none. */
  predicate Mirrored(conv: Converter, dm: DictMap, kind: string, value: string, confidence: real, stored: seq<Pattern>) {
    var spelled := Expand(stored, dm);
    if value == "" then spelled == []
    else spelled != [] && forall q :: q in spelled ==> conv(q) == conv(SimplePattern(kind, value, confidence))
  }

  /** A live custom rule means what it stores exactly when its simple fields mirror
      its stored patterns. */
  lemma MeansWhatItStoresIff(conv: Converter, dm: DictMap, c: CustomRow)
    ensures MeansWhatItStores(conv, dm, c) <==>
            Mirrored(conv, dm, c.patternType, c.patternValue, c.patternConfidence.GetOr(0.8), StoredPatterns(c))
  {
    var live, spelled := LivePatterns(conv, c), Expand(StoredPatterns(c), dm);
    forall m: Matcher, text: string
      ensures RuleMeans(m, conv, StoredPatterns(c), dm, text) <==> exists q :: q in spelled && m(conv(q), text)
    {
      RuleMeansSpelledOut(m, conv, StoredPatterns(c), dm, text);
    }
    if MeansWhatItStores(conv, dm, c) {
      var any: Matcher := (s, text) => true;
      assert AnyMatches(any, live, "") <==> live != [] by {
        assert live != [] ==> live[0] in live && any(live[0], "");
      }
      assert (exists q :: q in spelled && any(conv(q), "")) <==> spelled != [] by {
        assert spelled != [] ==> spelled[0] in spelled && any(conv(spelled[0]), "");
      }
      forall q | q in spelled ensures conv(q) in live {
        var only: Matcher := (s, text) => s == conv(q);
        assert only(conv(q), "");
        assert AnyMatches(only, live, "");
      }
    } else {
      var m: Matcher, text: string :|
        !(AnyMatches(m, live, text) <==> RuleMeans(m, conv, StoredPatterns(c), dm, text));
      if live != [] && spelled != [] {
        assert live[0] in live && spelled[0] in spelled;
      }
    }
  }

  /** Handed over, two pattern lists are the same set of engine patterns. */
  ghost predicate SameHandedOver(conv: Converter, dm: DictMap, ps: seq<Pattern>, qs: seq<Pattern>) {
    && (forall p :: p in Expand(ps, dm) ==> exists q :: q in Expand(qs, dm) && conv(q) == conv(p))
    && (forall q :: q in Expand(qs, dm) ==> exists p :: p in Expand(ps, dm) && conv(p) == conv(q))
  }

  /** Simple fields that mirror one list mirror another exactly when the two lists
      are handed over as the same. */
  lemma MirroredMovesIff(conv: Converter, dm: DictMap, kind: string, value: string, confidence: real,
                         ps: seq<Pattern>, qs: seq<Pattern>)
    requires Mirrored(conv, dm, kind, value, confidence, ps)
    ensures Mirrored(conv, dm, kind, value, confidence, qs) <==> SameHandedOver(conv, dm, ps, qs)
  {
    var a, b := Expand(ps, dm), Expand(qs, dm);
    if a != [] {
      assert a[0] in a;
    }
    if b != [] {
      assert b[0] in b;
    }
  }

  // ---- Rows that are created, changed and imported ----

  /** Simple fields without a detection object: an ordinary pattern must have a
      value, a reference is one to the dictionary without a code. */
  predicate SpeaksForItself(conv: Converter, dm: DictMap, kind: string, value: string, confidence: real) {
    var entries := if "" in dm then dm[""] else [];
    var live := conv(SimplePattern(kind, value, confidence));
    if kind == "dictionary" then
      if value == "" then entries == []
      else entries != [] && forall e :: e in entries ==> conv(Keyword(e, confidence)) == live
    else value != "" && conv(Pattern(Some(kind), Some(value), None, Some(confidence))) == live
  }

  lemma SpeaksForItselfIff(conv: Converter, dm: DictMap, kind: string, value: string, confidence: real)
    ensures SpeaksForItself(conv, dm, kind, value, confidence) <==>
            Mirrored(conv, dm, kind, value, confidence, [Pattern(Some(kind), Some(value), None, Some(confidence))])
    ensures kind != "" && kind != "dictionary" ==> (SpeaksForItself(conv, dm, kind, value, confidence) <==> value != "")
  {
    var p := Pattern(Some(kind), Some(value), None, Some(confidence));
    FlatMapSingle(Expander(dm), p);
    var one, entries := Expand([p], dm), EntriesOf(p, dm);
    if kind == "dictionary" {
      assert one == Keywords(entries, confidence);
      forall e | e in entries ensures Keyword(e, confidence) in one {
        var i :| 0 <= i < |entries| && entries[i] == e;
        assert one[i] == Keyword(e, confidence);
      }
      forall q | q in one ensures exists e :: e in entries && q == Keyword(e, confidence) {
        var i :| 0 <= i < |one| && one[i] == q;
        assert entries[i] in entries;
      }
    } else {
      assert one == [p];
    }
  }

  /** A created rule means what it stores exactly when the request speaks for itself;
      for the usual kinds: when it names a pattern value. */
  lemma CreatedMeansIff(conv: Converter, dm: DictMap, m: Master, q: RuleCreate)
    ensures MeansWhatItStores(conv, dm, CreatedRow(m, q)) <==>
            SpeaksForItself(conv, dm, q.patternType, q.patternValue, q.patternConfidence.GetOr(0.8))
    ensures q.patternType != "" && q.patternType != "dictionary" ==>
              (MeansWhatItStores(conv, dm, CreatedRow(m, q)) <==> q.patternValue != "")
  {
    MeansWhatItStoresIff(conv, dm, CreatedRow(m, q));
    SpeaksForItselfIff(conv, dm, q.patternType, q.patternValue, q.patternConfidence.GetOr(0.8));
  }

  /** The fields an update asks for, over those of the row. */
  predicate ChangeMeans(conv: Converter, dm: DictMap, c: CustomRow, u: RuleUpdate) {
    var kind, value := u.patternType.GetOr(c.patternType), u.patternValue.GetOr(c.patternValue);
    var confidence := u.patternConfidence.GetOr(c.patternConfidence.GetOr(0.8));
    if HasDetection(c) then Mirrored(conv, dm, kind, value, confidence, c.detection.value.patterns.GetOr([]))
    else SpeaksForItself(conv, dm, kind, value, confidence)
  }

  lemma ChangedMeansIff(conv: Converter, dm: DictMap, m: Master, c: CustomRow, u: RuleUpdate)
    ensures MeansWhatItStores(conv, dm, UpdatedRow(m, c, u)) <==> ChangeMeans(conv, dm, c, u)
  {
    var d := UpdatedRow(m, c, u);
    MeansWhatItStoresIff(conv, dm, d);
    SpeaksForItselfIff(conv, dm, d.patternType, d.patternValue, d.patternConfidence.GetOr(0.8));
  }

  /** The update leaves the live pattern of the row as it is. */
  predicate KeepsLivePattern(conv: Converter, c: CustomRow, u: RuleUpdate) {
    var kind, value := u.patternType.GetOr(c.patternType), u.patternValue.GetOr(c.patternValue);
    var confidence := u.patternConfidence.GetOr(c.patternConfidence.GetOr(0.8));
    if value == "" then c.patternValue == ""
    else
      && c.patternValue != ""
      && conv(SimplePattern(kind, value, confidence))
           == conv(SimplePattern(c.patternType, c.patternValue, c.patternConfidence.GetOr(0.8)))
  }

  /** Of a rule with a detection object, exactly the updates that change its live
      pattern break its meaning. */
  lemma EditBreaksMeaningIff(conv: Converter, dm: DictMap, m: Master, c: CustomRow, u: RuleUpdate)
    requires HasDetection(c) && MeansWhatItStores(conv, dm, c)
    ensures MeansWhatItStores(conv, dm, UpdatedRow(m, c, u)) <==> KeepsLivePattern(conv, c, u)
  {
    MeansWhatItStoresIff(conv, dm, c);
    ChangedMeansIff(conv, dm, m, c, u);
    var spelled := Expand(StoredPatterns(c), dm);
    if spelled != [] {
      assert spelled[0] in spelled;
    }
  }

  /** The last item a bundle has for an id, and what a custom row under the id will mean. */
  predicate ImportMeans(conv: Converter, dm: DictMap, m: Master, b: Bundle, customs: map<string, CustomRow>, id: string)
    requires Latest(CustomScheme(m, b), b.rules, id).Some?
  {
    var stored := DetectionOf(Latest(CustomScheme(m, b), b.rules, id).value).patterns.value;
    if id in customs then
      var c := customs[id];
      Mirrored(conv, dm, c.patternType, c.patternValue, c.patternConfidence.GetOr(0.8), stored)
    else
      var p := FirstOf(stored);
      Mirrored(conv, dm, p.ptype.GetOr("regex"), p.value.GetOr(""), p.confidence.GetOr(0.8), stored)
  }

  /** No import changes the live pattern of a rule that is there, whatever patterns
      the bundle has for it. */
  lemma ImportKeepsLivePattern(conv: Converter, m: Master, b: Bundle, customs: map<string, CustomRow>, id: string)
    requires Import(CustomScheme(m, b), customs, b.rules).Some? && id in customs
    ensures var t := Import(CustomScheme(m, b), customs, b.rules).value.0;
            && id in t && SameSimpleFields(t[id], customs[id])
            && LivePatterns(conv, t[id]) == LivePatterns(conv, customs[id])
  {
    var sch := CustomScheme(m, b);
    ImportedRow(sch, customs, b.rules, id);
    EditKeepsColumn(sch, customs[id], b.rules, id,
      (c: CustomRow) => (c.patternType, c.patternValue, c.patternConfidence, c.patternTypeId));
  }

  lemma ImportedDetection(m: Master, b: Bundle, customs: map<string, CustomRow>, id: string)
    requires Import(CustomScheme(m, b), customs, b.rules).Some?
    requires Latest(CustomScheme(m, b), b.rules, id).Some?
    ensures var t := Import(CustomScheme(m, b), customs, b.rules).value.0;
            id in t && t[id].detection == Some(DetectionOf(Latest(CustomScheme(m, b), b.rules, id).value))
  {
    var sch := CustomScheme(m, b);
    ImportedRow(sch, customs, b.rules, id);
    if id in customs {
      LastItemWins(sch, customs[id], b.rules, id, (c: CustomRow) => c.detection, (r: BundleRule) => Some(DetectionOf(r)));
    }
  }

  /** After an import a named rule means what it stores exactly when the simple
      fields it had, or those of the first pattern if it is new, mirror the
      patterns the bundle has for it. */
  lemma ImportedMeansIff(conv: Converter, dm: DictMap, m: Master, b: Bundle, customs: map<string, CustomRow>, id: string)
    requires Import(CustomScheme(m, b), customs, b.rules).Some?
    requires Latest(CustomScheme(m, b), b.rules, id).Some?
    ensures var t := Import(CustomScheme(m, b), customs, b.rules).value.0;
            id in t && (MeansWhatItStores(conv, dm, t[id]) <==> ImportMeans(conv, dm, m, b, customs, id))
  {
    var t := Import(CustomScheme(m, b), customs, b.rules).value.0;
    ImportedRow(CustomScheme(m, b), customs, b.rules, id);
    ImportedDetection(m, b, customs, id);
    if id in customs {
      ImportKeepsLivePattern(conv, m, b, customs, id);
    }
    MeansWhatItStoresIff(conv, dm, t[id]);
  }

  /** Of a rule that meant what it stored, exactly the imports that bring nothing
      new keep the meaning: new patterns never go live. */
  lemma ImportBreaksMeaningIff(conv: Converter, dm: DictMap, m: Master, b: Bundle, customs: map<string, CustomRow>, id: string)
    requires Import(CustomScheme(m, b), customs, b.rules).Some?
    requires Latest(CustomScheme(m, b), b.rules, id).Some?
    requires id in customs && MeansWhatItStores(conv, dm, customs[id])
    ensures var brought := DetectionOf(Latest(CustomScheme(m, b), b.rules, id).value).patterns.value;
            var t := Import(CustomScheme(m, b), customs, b.rules).value.0;
            && id in t
            && (MeansWhatItStores(conv, dm, t[id]) <==> SameHandedOver(conv, dm, StoredPatterns(customs[id]), brought))
  {
    var c := customs[id];
    var brought := DetectionOf(Latest(CustomScheme(m, b), b.rules, id).value).patterns.value;
    ImportedMeansIff(conv, dm, m, b, customs, id);
    MeansWhatItStoresIff(conv, dm, c);
    MirroredMovesIff(conv, dm, c.patternType, c.patternValue, c.patternConfidence.GetOr(0.8), StoredPatterns(c), brought);
  }

  // ---- The round trip through a bundle ----

  /** What the engine is told of a custom row, if anything. */
  function LiveDefinition(cfg: Config, c: CustomRow): Option<Definition> {
    if c.patternValue == "" then None else Some(CustomForEngine(cfg, c))
  }

  /** The first stored pattern is handed over as the simple fields are. */
  predicate FirstIsLive(conv: Converter, c: CustomRow) {
    HasDetection(c) ==>
      var p := FirstOf(c.detection.value.patterns.GetOr([]));
      && p.value.GetOr("") == c.patternValue
      && (c.patternValue != "" ==>
            conv(SimplePattern(p.ptype.GetOr("regex"), c.patternValue, p.confidence.GetOr(0.8)))
              == conv(SimplePattern(c.patternType, c.patternValue, c.patternConfidence.GetOr(0.8))))
  }

  /** Export and import into an empty table leave the engine with the same
      definition of a custom rule exactly when no detection object is stored with
      it, or one whose first pattern is the live one. */
  lemma LiveSurvivesRoundTripIff(cfg: Config, m: Master, bundle: Bundle, c: CustomRow)
    ensures LiveDefinition(cfg, CreatedCustom(m, bundle, CustomEntry(m.categories, c))) == LiveDefinition(cfg, c) <==>
            FirstIsLive(IoPattern(cfg.known), c)
  {
  }

  /** So an update of an imported rule is undone by the round trip: the simple
      fields come back as the first import had made them. */
  lemma RoundTripUndoesEdits(m: Master, first: Bundle, b: BundleRule, u: RuleUpdate, second: Bundle)
    ensures var edited := UpdatedRow(m, CreatedCustom(m, first, b), u);
            SameSimpleFields(CreatedCustom(m, second, CustomEntry(m.categories, edited)), CreatedCustom(m, first, b))
  {
  }

  const A: Pattern := Pattern(Some("regex"), Some("A"), None, Some(0.8))
  const B: Pattern := Pattern(Some("regex"), Some("B"), None, Some(0.8))

  function WithPatterns(ps: seq<Pattern>): BundleRule {
    Named("U-01").(detection := Some(Detection(Some("any"), Some(ps), None)))
  }

  const TO_B := NO_CHANGE.(patternValue := Some("B"))

  /** Imported with pattern A, changed to B, exported and imported again: A is live. */
  lemma EditedRowExample(cfg: Config, m: Master, bundle: Bundle)
    ensures var edited := UpdatedRow(m, CreatedCustom(m, bundle, WithPatterns([A])), TO_B);
            var back := CreatedCustom(m, bundle, CustomEntry(m.categories, edited));
            && edited.patternValue == "B" && back.patternValue == "A"
            && !SimpleFieldsSurvive(m, edited)
            && LiveDefinition(cfg, back) != LiveDefinition(cfg, edited)
            && !MeansWhatItStores(IoPattern(cfg.known), map[], edited)
  {
    var edited := UpdatedRow(m, CreatedCustom(m, bundle, WithPatterns([A])), TO_B);
    LiveSurvivesRoundTripIff(cfg, m, bundle, edited);
    MeansWhatItStoresIff(IoPattern(cfg.known), map[], edited);
    NoReferenceNoChange([A], map[]);
    assert A in Expand([A], map[]);
  }

  /** A new bundle rule with two patterns goes live with the first only. */
  lemma TwoPatternsExample(known: set<string>, m: Master, bundle: Bundle)
    ensures var c := CreatedCustom(m, bundle, WithPatterns([A, B]));
            && LivePatterns(IoPattern(known), c) == [IoPattern(known)(A)]
            && !MeansWhatItStores(IoPattern(known), map[], c)
  {
    var c := CreatedCustom(m, bundle, WithPatterns([A, B]));
    MeansWhatItStoresIff(IoPattern(known), map[], c);
    NoReferenceNoChange([A, B], map[]);
    assert B in Expand([A, B], map[]);
  }

  /** An import that replaces pattern A by B leaves A live. */
  lemma ReplacedPatternExample(known: set<string>, m: Master, bundle: Bundle)
    ensures var c := UpdatedCustom(m, bundle, CreatedCustom(m, bundle, WithPatterns([A])), WithPatterns([B]));
            && LivePatterns(IoPattern(known), c) == [IoPattern(known)(A)]
            && StoredPatterns(c) == [B] && !MeansWhatItStores(IoPattern(known), map[], c)
  {
    var c := UpdatedCustom(m, bundle, CreatedCustom(m, bundle, WithPatterns([A])), WithPatterns([B]));
    MeansWhatItStoresIff(IoPattern(known), map[], c);
    NoReferenceNoChange([B], map[]);
    assert B in Expand([B], map[]);
  }

  // ---- Over runs: the rows ----

  /** Every custom input/output rule means what it stores, as soon as it is live. */
  ghost predicate AllMean(known: set<string>, dm: DictMap, customs: map<string, CustomRow>) {
    forall id :: id in customs && customs[id].ruleType.Io? ==> MeansWhatItStores(IoPattern(known), dm, customs[id])
  }

  predicate CreateKeepsMeaning(u: Setup, dm: DictMap, s: State, q: RuleCreate) {
    "U-" <= q.id && q.id !in s.customs && TypeOf(q.stages).Io? ==>
      SpeaksForItself(IoPattern(u.known), dm, q.patternType, q.patternValue, q.patternConfidence.GetOr(0.8))
  }

  predicate ChangeKeepsMeaning(u: Setup, dm: DictMap, s: State, id: string, upd: RuleUpdate) {
    id in s.customs && (if upd.stages.Some? then TypeOf(upd.stages.value) else s.customs[id].ruleType).Io? ==>
      ChangeMeans(IoPattern(u.known), dm, s.customs[id], upd)
  }

  predicate ImportKeepsMeaning(u: Setup, dm: DictMap, s: State, b: Bundle) {
    Import(CustomScheme(u.m, b), s.customs, b.rules).Some? ==>
      forall i :: 0 <= i < |b.rules| ==> ImportKeepsMeaningOf(u, dm, s, b, b.rules[i].id)
  }

  predicate ImportKeepsMeaningOf(u: Setup, dm: DictMap, s: State, b: Bundle, id: string) {
    var last := Latest(CustomScheme(u.m, b), b.rules, id);
    last.Some? && TypeOf(StagesOf(last.value)).Io? ==> ImportMeans(IoPattern(u.known), dm, u.m, b, s.customs, id)
  }

  /** What an operation asks for, seen before it is done. */
  predicate KeepsMeaning(u: Setup, dm: DictMap, s: State, op: Op) {
    match op
    case Create(q) => CreateKeepsMeaning(u, dm, s, q)
    case Change(id, upd) => ChangeKeepsMeaning(u, dm, s, id, upd)
    case ImportCustoms(b) => ImportKeepsMeaning(u, dm, s, b)
    case Delete(_) => true
    case Reload(_, _, _) => true
    case ImportRules(_, _, _, _) => true
  }

  lemma CreateKeepsMeaningIff(u: Setup, dm: DictMap, s: State, q: RuleCreate)
    requires AllMean(u.known, dm, s.customs)
    ensures AllMean(u.known, dm, AfterCreate(u, s, q).customs) <==> CreateKeepsMeaning(u, dm, s, q)
  {
    if "U-" <= q.id && q.id !in s.customs {
      var c := CreatedRow(u.m, q);
      CreatedMeansIff(IoPattern(u.known), dm, u.m, q);
      OneRowMore(u.known, dm, s.customs, q.id, c);
    }
  }

  lemma ChangeKeepsMeaningIff(u: Setup, dm: DictMap, s: State, id: string, upd: RuleUpdate)
    requires AllMean(u.known, dm, s.customs)
    ensures AllMean(u.known, dm, AfterChange(u, s, id, upd).customs) <==> ChangeKeepsMeaning(u, dm, s, id, upd)
  {
    if id in s.customs {
      var c := UpdatedRow(u.m, s.customs[id], upd);
      ChangedMeansIff(IoPattern(u.known), dm, u.m, s.customs[id], upd);
      OneRowMore(u.known, dm, s.customs, id, c);
    }
  }

  lemma OneRowMore(known: set<string>, dm: DictMap, customs: map<string, CustomRow>, id: string, c: CustomRow)
    requires AllMean(known, dm, customs)
    ensures AllMean(known, dm, customs[id := c]) <==> (c.ruleType.Io? ==> MeansWhatItStores(IoPattern(known), dm, c))
  {
    var more := customs[id := c];
    assert more[id] == c;
    forall x | x in more && x != id && more[x].ruleType.Io? ensures MeansWhatItStores(IoPattern(known), dm, more[x]) {
      assert x in customs && more[x] == customs[x];
    }
  }

  lemma ImportKeepsMeaningIff(u: Setup, dm: DictMap, s: State, b: Bundle)
    requires AllMean(u.known, dm, s.customs)
    ensures AllMean(u.known, dm, AfterImportCustoms(u, s, b).customs) <==> ImportKeepsMeaning(u, dm, s, b)
  {
    var conv, t, sch := IoPattern(u.known), AfterImportCustoms(u, s, b).customs, CustomScheme(u.m, b);
    if Import(sch, s.customs, b.rules).Some? {
      forall id | id in t
        ensures (t[id].ruleType.Io? ==> MeansWhatItStores(conv, dm, t[id])) <==> ImportKeepsMeaningOf(u, dm, s, b, id)
      {
        ForeseenHappens(u.m, b, s.customs, id);
        if Latest(sch, b.rules, id).Some? {
          ImportedMeansIff(conv, dm, u.m, b, s.customs, id);
        }
      }
      forall id | Latest(sch, b.rules, id).Some? ensures id in t && exists i :: 0 <= i < |b.rules| && b.rules[i].id == id {
        ImportedRow(sch, s.customs, b.rules, id);
        var i :| 0 <= i < |b.rules| && b.rules[i] == Latest(sch, b.rules, id).value;
        assert sch.id(b.rules[i]) == id;
      }
      forall i | 0 <= i < |b.rules| && b.rules[i].id !in t ensures ImportKeepsMeaningOf(u, dm, s, b, b.rules[i].id) {
        assert Latest(sch, b.rules, b.rules[i].id).None?;
      }
    }
  }

  /** Exactly these operations keep it; deletions, reloads and imports of built-in
      rules always do. */
  lemma StepKeepsMeaningIff(u: Setup, dm: DictMap, s: State, op: Op)
    requires AllMean(u.known, dm, s.customs)
    ensures AllMean(u.known, dm, After(u, s, op).customs) <==> KeepsMeaning(u, dm, s, op)
  {
    match op
    case Create(q) => CreateKeepsMeaningIff(u, dm, s, q);
    case Change(id, upd) => ChangeKeepsMeaningIff(u, dm, s, id, upd);
    case ImportCustoms(b) => ImportKeepsMeaningIff(u, dm, s, b);
    case Delete(id) =>
      forall x | x in After(u, s, op).customs ensures x in s.customs && After(u, s, op).customs[x] == s.customs[x] {
      }
    case Reload(_, _, _) =>
    case ImportRules(_, _, _, _) =>
  }

  /** At every point of a run all custom input/output rules mean what they store. */
  ghost predicate MeansThroughout(u: Setup, dm: DictMap, run: Run) {
    AllMean(u.known, dm, End(u, run).customs) && (run.Then? ==> MeansThroughout(u, dm, run.before))
  }

  /** At its start they do, and every operation keeps it. */
  ghost predicate KeptThroughout(u: Setup, dm: DictMap, run: Run) {
    match run
    case Start(s) => AllMean(u.known, dm, s.customs)
    case Then(before, op) => KeptThroughout(u, dm, before) && KeepsMeaning(u, dm, End(u, before), op)
  }

  lemma {:induction false} MeaningOverRunsIff(u: Setup, dm: DictMap, run: Run)
    ensures MeansThroughout(u, dm, run) <==> KeptThroughout(u, dm, run)
  {
    match run
    case Start(_) =>
    case Then(before, op) =>
      MeaningOverRunsIff(u, dm, before);
      if MeansThroughout(u, dm, before) {
        StepKeepsMeaningIff(u, dm, End(u, before), op);
      }
  }

  // ---- Over runs: the engine ----

  /** The engine holds what it was told of an enabled row, and nothing for a row
      without a pattern value. */
  ghost predicate HeldAsTold(known: set<string>, e: EngineState, c: CustomRow) {
    if c.patternValue == "" then c.id !in e.io
    else
      c.enabled && c.ruleType.Io? ==>
        c.id in e.io && e.io[c.id] == CustomForEngine(Config(known, map[]), c)
  }

  /** The engine is up to date with the custom rows, and knows no id that has no row. */
  ghost predicate UpToDate(u: Setup, s: State) {
    && (forall id :: id in s.engine.io ==> id in s.rules || id in s.customs)
    && (forall id :: id in s.customs && id !in s.rules ==> HeldAsTold(u.known, s.engine, s.customs[id]))
  }

  lemma ReloadUpdates(u: Setup, s: State, dicts: DictMap, rs: seq<RuleRow>, cs: seq<CustomRow>)
    requires WellKept(s) && Lists(rs, s.rules, RuleId) && Lists(cs, s.customs, CustomId)
    ensures UpToDate(u, s.(engine := Reloaded(Config(u.known, dicts), rs, cs).engine))
  {
    var cfg := Config(u.known, dicts);
    var e := Reloaded(cfg, rs, cs).engine;
    assert forall i :: 0 <= i < |rs| ==> rs[i] == s.rules[RuleId(rs[i])];
    assert forall i :: 0 <= i < |cs| ==> cs[i] == s.customs[CustomId(cs[i])];
    forall id | id in e.io ensures id in s.rules || id in s.customs {
      ReloadLeavesNoStrays(cfg, rs, cs, id);
    }
    forall id | id in s.customs && id !in s.rules ensures HeldAsTold(u.known, e, s.customs[id]) {
      var k := ListedRow(cs, s.customs, CustomId, id);
      ReloadHoldsStoredCustom(cfg, rs, cs, k);
    }
  }

  lemma ChangeUpdates(u: Setup, s: State, id: string, upd: RuleUpdate)
    requires WellKept(s) && UpToDate(u, s)
    ensures UpToDate(u, AfterChange(u, s, id, upd))
  {
    var t := AfterChange(u, s, id, upd);
    forall x | x in t.customs && x !in t.rules ensures HeldAsTold(u.known, t.engine, t.customs[x]) {
      assert HeldAsTold(u.known, s.engine, s.customs[x]);
      assert t.customs[x].id == s.customs[x].id == CustomId(s.customs[x]) == x;
      if x != id {
        ChangeFrame(u, s, id, upd, x);
      }
    }
    forall x | x in t.engine.io ensures x in t.rules || x in t.customs {
      if x != id {
        ChangeFrame(u, s, id, upd, x);
      }
    }
  }

  lemma CreateOrDeleteUpdates(u: Setup, s: State, op: Op)
    requires WellKept(s) && UpToDate(u, s) && (op.Create? || op.Delete?)
    ensures UpToDate(u, After(u, s, op))
  {
    var t := After(u, s, op);
    forall x | x in t.customs && x !in t.rules ensures HeldAsTold(u.known, t.engine, t.customs[x]) {
      if x in s.customs {
        assert HeldAsTold(u.known, s.engine, s.customs[x]);
        assert CustomId(s.customs[x]) == x;
      }
    }
  }

  lemma ImportCustomsUpdates(u: Setup, s: State, b: Bundle)
    requires WellKept(s) && UpToDate(u, s)
    ensures UpToDate(u, AfterImportCustoms(u, s, b))
  {
    var t, sch := AfterImportCustoms(u, s, b), CustomScheme(u.m, b);
    if Import(sch, s.customs, b.rules).Some? {
      EveryStepKeepsRowsTyped(u, s, ImportCustoms(b));
      ImportKeys(sch, s.customs, b.rules);
      forall x | x in t.engine.io ensures x in t.rules || x in t.customs {
        SyncedAllEffect(u.known, s.engine, t.customs, b.rules, x);
      }
      forall x | x in t.customs && x !in t.rules ensures HeldAsTold(u.known, t.engine, t.customs[x]) {
        ImportUpdatesOne(u, s, b, x);
      }
    }
  }

  lemma ImportUpdatesOne(u: Setup, s: State, b: Bundle, x: string)
    requires WellKept(s) && UpToDate(u, s) && WellKept(AfterImportCustoms(u, s, b))
    requires Import(CustomScheme(u.m, b), s.customs, b.rules).Some?
    requires x in AfterImportCustoms(u, s, b).customs && x !in s.rules
    ensures HeldAsTold(u.known, AfterImportCustoms(u, s, b).engine, AfterImportCustoms(u, s, b).customs[x])
  {
    var t, sch := AfterImportCustoms(u, s, b), CustomScheme(u.m, b);
    SyncedAllEffect(u.known, s.engine, t.customs, b.rules, x);
    ForeseenHappens(u.m, b, s.customs, x);
    assert CustomId(t.customs[x]) == x;
    if x in s.customs {
      assert HeldAsTold(u.known, s.engine, s.customs[x]);
      assert CustomId(s.customs[x]) == x;
    }
    if Latest(sch, b.rules, x).Some? {
      assert sch.id(Latest(sch, b.rules, x).value) == x;
    }
  }

  /** Every operation, custom imports included, leaves the engine up to date with
      the simple fields of the enabled custom rules. */
  lemma StepKeepsUpToDate(u: Setup, s: State, op: Op)
    requires WellKept(s) && UpToDate(u, s) && Possible(u, s, op)
    ensures UpToDate(u, After(u, s, op))
  {
    EveryStepKeepsRowsTyped(u, s, op);
    match op
    case Create(_) => CreateOrDeleteUpdates(u, s, op);
    case Delete(_) => CreateOrDeleteUpdates(u, s, op);
    case Change(id, upd) => ChangeUpdates(u, s, id, upd);
    case Reload(dicts, rs, cs) => ReloadUpdates(u, s, dicts, rs, cs);
    case ImportRules(b, dicts, rs, cs) =>
      if Import(RuleScheme(u.m, b), s.rules, b.rules).Some? {
        ReloadUpdates(u, After(u, s, op), dicts, rs, cs);
      }
    case ImportCustoms(b) => ImportCustomsUpdates(u, s, b);
  }

  lemma {:induction false} UpToDateOverRuns(u: Setup, run: Run, start: State)
    requires Arbitrary(u, run) && StartsAt(run, start) && UpToDate(u, start)
    ensures UpToDate(u, End(u, run))
  {
    match run
    case Start(_) =>
    case Then(before, op) =>
      UpToDateOverRuns(u, before, start);
      AlwaysWellKept(u, before);
      StepKeepsUpToDate(u, End(u, before), op);
  }

  predicate StartsAt(run: Run, s: State) {
    match run
    case Start(t) => t == s
    case Then(before, _) => StartsAt(before, s)
  }

  /** The patterns at work in the place for a type. */
  function AtWork(e: EngineState, id: string, t: RuleType): seq<SdkPattern> {
    if Active(e, id, t) then PlaceOf(e, t)[id].patterns else []
  }

  /** At the end of any run from an up-to-date engine, what the engine matches under
      the id of an enabled custom input/output rule is what the rule means, for
      every matcher and text, exactly when its simple fields mirror its stored patterns. */
  lemma LiveCustomMatchesAsStoredIff(u: Setup, dm: DictMap, run: Run, start: State, id: string)
    requires Arbitrary(u, run) && StartsAt(run, start) && UpToDate(u, start)
    requires var s := End(u, run);
             id in s.customs && id !in s.rules && s.customs[id].enabled && s.customs[id].ruleType.Io?
    ensures var s, conv := End(u, run), IoPattern(u.known);
            var c := s.customs[id];
            (forall m: Matcher, text: string ::
               AnyMatches(m, AtWork(s.engine, id, Io), text) <==> RuleMeans(m, conv, StoredPatterns(c), dm, text)) <==>
            Mirrored(conv, dm, c.patternType, c.patternValue, c.patternConfidence.GetOr(0.8), StoredPatterns(c))
  {
    var s := End(u, run);
    UpToDateOverRuns(u, run, start);
    AlwaysWellKept(u, run);
    assert HeldAsTold(u.known, s.engine, s.customs[id]);
    assert CustomId(s.customs[id]) == id;
    assert AtWork(s.engine, id, Io) == LivePatterns(IoPattern(u.known), s.customs[id]);
    MeansWhatItStoresIff(IoPattern(u.known), dm, s.customs[id]);
  }

  /** After a reload the same holds in engine and scanner alike: what is matched under
      the id of an enabled custom row is what the row means exactly when its simple
      fields mirror its stored patterns. */
  lemma ReloadedCustomMatchesAsStoredIff(cfg: Config, rules: seq<RuleRow>, customs: seq<CustomRow>, k: nat)
    requires DistinctBy(rules, RuleId) && DistinctBy(customs, CustomId)
    requires forall i :: 0 <= i < |rules| ==> RuleTyped(rules[i])
    requires k < |customs| && CustomTyped(customs[k]) && !HasId(rules, RuleId, customs[k].id)
    requires customs[k].enabled
    ensures var c, e := customs[k], Reloaded(cfg, rules, customs).engine;
            var conv := HandOver(cfg.known, c.ruleType);
            (forall m: Matcher, text: string ::
               AnyMatches(m, AtWork(e, c.id, c.ruleType), text) <==> RuleMeans(m, conv, StoredPatterns(c), cfg.dicts, text)) <==>
            Mirrored(conv, cfg.dicts, c.patternType, c.patternValue, c.patternConfidence.GetOr(0.8), StoredPatterns(c))
  {
    var c := customs[k];
    var conv := HandOver(cfg.known, c.ruleType);
    ReloadHoldsStoredCustom(cfg, rules, customs, k);
    assert AtWork(Reloaded(cfg, rules, customs).engine, c.id, c.ruleType) == LivePatterns(conv, c);
    MeansWhatItStoresIff(conv, cfg.dicts, c);
  }
}
