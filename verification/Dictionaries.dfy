/** Versioned keyword dictionaries and what editing them does to the rules that refer to them. */
module Dictionaries {
  import opened Common
  import opened Patterns

  datatype Content = Content(entries: seq<string>, version: nat, active: bool)

  datatype Edit =
    | Add(requested: seq<string>)
    | Remove(unwanted: seq<string>)
    | Update(entries: Option<seq<string>>, active: Option<bool>)

  /** The entries of `es` that are not in `given`. */
  function Without(es: seq<string>, given: seq<string>): seq<string> {
    Filter(e => e !in given, es)
  }

  function Apply(c: Content, edit: Edit): Content {
    match edit
    case Add(req) =>
      var added := Without(req, c.entries);
      if added == [] then c else c.(entries := c.entries + added, version := c.version + 1)
    case Remove(unwanted) =>
      var kept := Without(c.entries, unwanted);
      if |kept| == |c.entries| then c else c.(entries := kept, version := c.version + 1)
    case Update(es, active) =>
      var d := if es.Some? then c.(entries := es.value, version := c.version + 1) else c;
      if active.Some? then d.(active := active.value) else d
  }

  class Dictionary {
    var entries: seq<string>
    var version: nat
    var isActive: bool

    function State(): Content
      reads this
    {
      Content(entries, version, isActive)
    }

    constructor (initial: seq<string>)
      ensures State() == Content(initial, 1, true)
    {
      entries := initial;
      version := 1;
      isActive := true;
    }

    method AddEntries(requested: seq<string>)
      modifies this
      ensures State() == Apply(old(State()), Add(requested))
    {
      var newEntries := Without(requested, entries);
      if newEntries != [] {
        entries := entries + newEntries;
        version := version + 1;
      }
    }

    method RemoveEntries(unwanted: seq<string>)
      modifies this
      ensures State() == Apply(old(State()), Remove(unwanted))
    {
      var newEntries := Without(entries, unwanted);
      if |newEntries| != |entries| {
        entries := newEntries;
        version := version + 1;
      }
    }

    method UpdateDictionary(newEntries: Option<seq<string>>, active: Option<bool>)
      modifies this
      ensures State() == Apply(old(State()), Update(newEntries, active))
    {
      if newEntries.Some? {
        entries := newEntries.value;
        version := version + 1;
      }
      if active.Some? {
        isActive := active.value;
      }
    }
  }

  // ---- Versions ----

  /** Adding or removing bumps the version, by one, exactly when the entries change. */
  lemma BumpIffChanged(c: Content, edit: Edit)
    requires edit.Add? || edit.Remove?
    ensures Apply(c, edit).version == c.version + (if Apply(c, edit).entries != c.entries then 1 else 0)
  {
  }

  /** Any run of edits of one dictionary, the latest outermost. */
  datatype Edits = Untouched | Then(before: Edits, edit: Edit)

  function After(c: Content, edits: Edits): Content {
    match edits
    case Untouched => c
    case Then(before, e) => Apply(After(c, before), e)
  }

  /** `a` is an earlier point of the run `b`. */
  ghost predicate Earlier(a: Edits, b: Edits) {
    a == b || (b.Then? && Earlier(a, b.before))
  }

  /** Versions never decrease, and the version determines the entries: two points
      of a run with the same version have the same entries. */
  lemma {:induction false} VersionDeterminesEntries(c: Content, a: Edits, b: Edits)
    requires Earlier(a, b)
    ensures After(c, a).version <= After(c, b).version
    ensures After(c, a).version == After(c, b).version ==> After(c, a).entries == After(c, b).entries
  {
    if a != b {
      VersionDeterminesEntries(c, a, b.before);
    }
  }

  // ---- What add and remove do to the entries ----

  /** Additions go to the end, keep every old entry and make every requested one present. */
  lemma AddMeans(c: Content, req: seq<string>)
    ensures c.entries <= Apply(c, Add(req)).entries
    ensures forall e :: e in Apply(c, Add(req)).entries <==> e in c.entries || e in req
  {
    FilterMembers(e => e !in c.entries, req);
  }

  lemma RemoveMeans(c: Content, unwanted: seq<string>)
    ensures Apply(c, Remove(unwanted)).entries == Without(c.entries, unwanted)
    ensures forall e :: e in Apply(c, Remove(unwanted)).entries <==> e in c.entries && e !in unwanted
  {
    FilterMembers(e => e !in unwanted, c.entries);
    FilterLength(e => e !in unwanted, c.entries);
    if |Without(c.entries, unwanted)| == |c.entries| {
      FilterAll(e => e !in unwanted, c.entries);
    }
  }

  /** New entries are appended as requested, in their order, repetitions included. */
  lemma AddAppends(c: Content, req: seq<string>)
    requires forall e :: e in req ==> e !in c.entries
    ensures Apply(c, Add(req)).entries == c.entries + req
  {
    FilterAll(e => e !in c.entries, req);
  }

  /** Removing works on each entry where it stands. */
  lemma RemoveInPlace(c: Content, front: seq<string>, e: string, back: seq<string>, unwanted: seq<string>)
    requires c.entries == front + [e] + back
    ensures Apply(c, Remove(unwanted)).entries ==
              Apply(c.(entries := front), Remove(unwanted)).entries
              + (if e in unwanted then [] else [e])
              + Apply(c.(entries := back), Remove(unwanted)).entries
  {
    RemoveMeans(c, unwanted);
    RemoveMeans(c.(entries := front), unwanted);
    RemoveMeans(c.(entries := back), unwanted);
    var keep := (x: string) => x !in unwanted;
    FilterAppend(keep, front + [e], back);
    FilterAppend(keep, front, [e]);
    assert [e][1..] == [];
  }

  /** An update replaces what it names: the old entries go, every replacement counts as
      a version, and switching a dictionary on or off does not. */
  lemma UpdateMeans(c: Content, es: seq<string>, active: bool)
    ensures Apply(c, Update(Some(es), None)) == Content(es, c.version + 1, c.active)
    ensures Apply(c, Update(None, Some(active))) == Content(c.entries, c.version, active)
    ensures Apply(c, Update(Some(es), Some(active))) == Content(es, c.version + 1, active)
    ensures Apply(c, Update(None, None)) == c
  {
  }

  /** Adding some entries and then removing them gives the exact old list back
      precisely when none of them was there before. */
  lemma AddThenRemoveRestoresIff(c: Content, req: seq<string>)
    ensures Apply(Apply(c, Add(req)), Remove(req)).entries == c.entries <==>
            forall e :: e in req ==> e !in c.entries
  {
    var keep := (e: string) => e !in req;
    var larger := Apply(c, Add(req));
    var added := Without(req, c.entries);
    RemoveMeans(larger, req);
    FilterMembers(e => e !in c.entries, req);
    FilterNone(keep, added);
    FilterAppend(keep, c.entries, added);
    FilterNone(keep, []);
    assert larger.entries == c.entries + added;
    assert Without(larger.entries, req) == Filter(keep, c.entries);
    FilterLength(keep, c.entries);
    if forall e :: e in req ==> e !in c.entries {
      FilterAll(keep, c.entries);
    }
  }

  // ---- Rules that refer to dictionaries ----

  /** The map the engine loads: the entries of the active dictionaries by code. */
  function LoadActiveDictionaryMap(table: map<string, Content>): DictMap {
    map code | code in table && table[code].active :: table[code].entries
  }

  /** Whether an any-mode rule matches under the dictionaries of a table. */
  ghost predicate RuleMatches(m: Matcher, conv: Converter, ps: seq<Pattern>,
                              table: map<string, Content>, text: string)
  {
    AnyMatches(m, DefinitionPatterns(conv, ps, LoadActiveDictionaryMap(table)), text)
  }

  /** Adding entries to a dictionary can only enlarge what a rule matches. */
  lemma AdditionsOnlyAddMatches(m: Matcher, conv: Converter, ps: seq<Pattern>,
                                table: map<string, Content>, code: string, req: seq<string>, text: string)
    requires code in table && RuleMatches(m, conv, ps, table, text)
    ensures RuleMatches(m, conv, ps, table[code := Apply(table[code], Add(req))], text)
  {
    AddMeans(table[code], req);
    var dm := LoadActiveDictionaryMap(table);
    var dm' := LoadActiveDictionaryMap(table[code := Apply(table[code], Add(req))]);
    assert dm.Keys == dm'.Keys;
    EnlargingOnlyAddsMatches(m, conv, ps, dm, dm', text);
  }

  /** Removing entries can only shrink it. */
  lemma RemovalsOnlyDropMatches(m: Matcher, conv: Converter, ps: seq<Pattern>,
                                table: map<string, Content>, code: string, unwanted: seq<string>, text: string)
    requires code in table
    requires RuleMatches(m, conv, ps, table[code := Apply(table[code], Remove(unwanted))], text)
    ensures RuleMatches(m, conv, ps, table, text)
  {
    RemoveMeans(table[code], unwanted);
    var dm := LoadActiveDictionaryMap(table[code := Apply(table[code], Remove(unwanted))]);
    var dm' := LoadActiveDictionaryMap(table);
    assert dm.Keys == dm'.Keys;
    EnlargingOnlyAddsMatches(m, conv, ps, dm, dm', text);
  }

  /** Another active dictionary than this one. */
  predicate OtherActive(table: map<string, Content>, code: string) {
    exists c :: c in table && c != code && table[c].active
  }

  function Active(table: map<string, Content>, code: string, on: bool): map<string, Content>
    requires code in table
  {
    table[code := Apply(table[code], Update(None, Some(on)))]
  }

  /** Whatever the matcher and text, the rule matches no more under the first table. */
  ghost predicate NoMoreUnder(conv: Converter, ps: seq<Pattern>, table: map<string, Content>, table': map<string, Content>) {
    forall m: Matcher, text: string ::
      NoMore(m, conv, ps, LoadActiveDictionaryMap(table), LoadActiveDictionaryMap(table'), text)
  }

  /** Deactivating a dictionary only drops matches of a rule, and activating it only
      adds some, exactly when another dictionary is active or the rule's references,
      taken as they stand, are handed over like entries or other patterns of it. */
  lemma SwitchingIsMonotoneIff(conv: Converter, ps: seq<Pattern>, table: map<string, Content>, code: string)
    requires code in table
    ensures NoMoreUnder(conv, ps, Active(table, code, false), Active(table, code, true)) <==>
            OtherActive(table, code) || ReferencesStayInside(conv, ps, map[code := table[code].entries])
  {
    var off := LoadActiveDictionaryMap(Active(table, code, false));
    var on := LoadActiveDictionaryMap(Active(table, code, true));
    assert code in on;
    assert forall c :: c in off <==> c in table && c != code && table[c].active;
    if OtherActive(table, code) {
      var c :| c in table && c != code && table[c].active;
      assert c in off;
      forall m: Matcher, text: string ensures NoMore(m, conv, ps, off, on, text) {
        SmallerMapDropsMatches(m, conv, ps, off, on, text);
      }
    } else {
      assert off == map[] && on == map[code := table[code].entries];
      UnexpandedMatchesNoMoreIff(conv, ps, on);
    }
  }

  /** Replacing the entries of a dictionary by more only adds matches. */
  lemma LargerEntriesAddMatches(conv: Converter, ps: seq<Pattern>, table: map<string, Content>, code: string, es: seq<string>)
    requires code in table && forall e :: e in table[code].entries ==> e in es
    ensures NoMoreUnder(conv, ps, table, table[code := Apply(table[code], Update(Some(es), None))])
  {
    var dm := LoadActiveDictionaryMap(table);
    var dm' := LoadActiveDictionaryMap(table[code := Apply(table[code], Update(Some(es), None))]);
    assert dm.Keys == dm'.Keys;
    forall m: Matcher, text: string ensures NoMore(m, conv, ps, dm, dm', text) {
      if AnyMatches(m, DefinitionPatterns(conv, ps, dm), text) {
        EnlargingOnlyAddsMatches(m, conv, ps, dm, dm', text);
      }
    }
  }

  /** With its only dictionary, which is empty, a rule of one reference matches nothing;
      deactivating the dictionary makes it match something. */
  lemma DeactivationAddsMatchExample(known: set<string>)
    ensures var table := map["gdpr_health" := Content([], 1, true)];
            var ref := Pattern(Some("dictionary"), None, Some("gdpr_health"), Some(0.4));
            !NoMoreUnder(IoPattern(known), [ref], Active(table, "gdpr_health", false), table)
  {
    var table := map["gdpr_health" := Content([], 1, true)];
    var ref := Pattern(Some("dictionary"), None, Some("gdpr_health"), Some(0.4));
    var dm: DictMap := map["gdpr_health" := []];
    FlatMapSingle(Expander(dm), ref);
    assert Expand([ref], dm) == [];
    assert ref in [ref];
    assert Active(table, "gdpr_health", true) == table;
    SwitchingIsMonotoneIff(IoPattern(known), [ref], table, "gdpr_health");
  }
}
