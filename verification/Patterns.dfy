/**
 * Detection patterns, and the expansion of dictionary references into keyword
 * patterns when a stored rule is turned into an engine definition.
 */
module Patterns {
  import opened Common

  /** A pattern as stored: every key of the JSON object may be missing. */
  datatype Pattern = Pattern(
    ptype: Option<string>, value: Option<string>, ref: Option<string>, confidence: Option<real>)

  /** Active dictionaries by code. */
  type DictMap = map<string, seq<string>>

  predicate IsReference(p: Pattern) {
    p.ptype == Some("dictionary")
  }

  function Keyword(entry: string, confidence: real): Pattern {
    Pattern(Some("keyword"), Some(entry), None, Some(confidence))
  }

  /** The entries a reference stands for; an unknown code stands for none. */
  function EntriesOf(p: Pattern, dm: DictMap): seq<string> {
    var code := p.ref.GetOr("");
    if code in dm then dm[code] else []
  }

  function Keywords(entries: seq<string>, confidence: real): (ks: seq<Pattern>)
    ensures |ks| == |entries|
    ensures forall i :: 0 <= i < |ks| ==> ks[i] == Keyword(entries[i], confidence)
  {
    seq(|entries|, i requires 0 <= i < |entries| => Keyword(entries[i], confidence))
  }

  function ExpandOne(p: Pattern, dm: DictMap): seq<Pattern> {
    if IsReference(p) then Keywords(EntriesOf(p, dm), p.confidence.GetOr(0.8)) else [p]
  }

  function Expander(dm: DictMap): Pattern -> seq<Pattern> {
    (p: Pattern) => ExpandOne(p, dm)
  }

  function Expand(ps: seq<Pattern>, dm: DictMap): seq<Pattern> {
    FlatMap(Expander(dm), ps)
  }

  method ResolveDictRefs(patternsRaw: seq<Pattern>, dictMap: DictMap) returns (resolved: seq<Pattern>)
    ensures resolved == Expand(patternsRaw, dictMap)
  {
    resolved := [];
    for i := 0 to |patternsRaw|
      invariant resolved == Expand(patternsRaw[..i], dictMap)
    {
      var p := patternsRaw[i];
      ghost var done := resolved;
      if p.ptype == Some("dictionary") {
        var ref := p.ref.GetOr("");
        var entries := if ref in dictMap then dictMap[ref] else [];
        var conf := p.confidence.GetOr(0.8);
        for k := 0 to |entries|
          invariant resolved == done + Keywords(entries, conf)[..k]
        {
          resolved := resolved + [Keyword(entries[k], conf)];
        }
      } else {
        resolved := resolved + [p];
      }
      assert patternsRaw[..i + 1] == patternsRaw[..i] + [p];
      FlatMapSnoc(Expander(dictMap), patternsRaw[..i], p);
    }
    assert patternsRaw[..|patternsRaw|] == patternsRaw;
  }

  // ---- Shape of the expansion ----

  /** Expansion distributes over concatenation. */
  lemma ExpandAppend(ps: seq<Pattern>, qs: seq<Pattern>, dm: DictMap)
    ensures Expand(ps + qs, dm) == Expand(ps, dm) + Expand(qs, dm)
  {
    FlatMapAppend(Expander(dm), ps, qs);
  }

  /** Order is kept: each pattern is replaced where it stands. */
  lemma ExpandInPlace(ps: seq<Pattern>, dm: DictMap, i: nat)
    requires i < |ps|
    ensures Expand(ps, dm) == Expand(ps[..i], dm) + ExpandOne(ps[i], dm) + Expand(ps[i + 1..], dm)
  {
    assert ps == (ps[..i] + [ps[i]]) + ps[i + 1..];
    ExpandAppend(ps[..i] + [ps[i]], ps[i + 1..], dm);
    FlatMapSnoc(Expander(dm), ps[..i], ps[i]);
  }

  function Weight(dm: DictMap): Pattern -> int {
    (p: Pattern) => if IsReference(p) then |EntriesOf(p, dm)| else 1
  }

  lemma ExpandLength(ps: seq<Pattern>, dm: DictMap)
    ensures |Expand(ps, dm)| == Sum(Weight(dm), ps)
  {
    FlatMapLength(Expander(dm), Weight(dm), ps);
  }

  lemma ExpandMembers(ps: seq<Pattern>, dm: DictMap, q: Pattern)
    ensures q in Expand(ps, dm) <==> exists p :: p in ps && q in ExpandOne(p, dm)
  {
    FlatMapMembers(Expander(dm), ps, q);
  }

  /** No reference is left, so expanding again, with whatever map, changes nothing. */
  lemma ExpandOnceIsEnough(ps: seq<Pattern>, dm: DictMap, dm': DictMap)
    ensures forall q :: q in Expand(ps, dm) ==> !IsReference(q)
    ensures Expand(Expand(ps, dm), dm') == Expand(ps, dm)
  {
    var once := Expand(ps, dm);
    forall q | q in once ensures !IsReference(q) {
      ExpandMembers(ps, dm, q);
    }
    NoReferenceNoChange(once, dm');
  }

  lemma {:induction false} NoReferenceNoChange(ps: seq<Pattern>, dm: DictMap)
    requires forall i :: 0 <= i < |ps| ==> !IsReference(ps[i])
    ensures Expand(ps, dm) == ps
  {
    if ps != [] {
      NoReferenceNoChange(ps[1..], dm);
    }
  }

  // ---- What a rule matches ----

  /** A pattern as handed to the engine. */
  datatype SdkPattern = SdkPattern(kind: string, value: string, confidence: real)

  /** Whether a pattern matches a text is the engine's business. */
  type Matcher = (SdkPattern, string) -> bool

  /** How a stored pattern is handed over. */
  type Converter = Pattern -> SdkPattern

  /** To the engine, which knows the kinds `known`; any other kind falls back to regex. */
  function IoPattern(known: set<string>): Converter {
    (p: Pattern) =>
      var kind := p.ptype.GetOr("regex");
      SdkPattern(if kind in known then kind else "regex", p.value.GetOr(""), p.confidence.GetOr(0.8))
  }

  /** To the code-review scanner, which is given the kind as it is stored. */
  function ScannerPattern(): Converter {
    (p: Pattern) => SdkPattern(p.ptype.GetOr("regex"), p.value.GetOr(""), p.confidence.GetOr(0.8))
  }

  /** Expansion is skipped altogether when no dictionary is active. */
  function Resolved(ps: seq<Pattern>, dm: DictMap): seq<Pattern> {
    if dm == map[] then ps else Expand(ps, dm)
  }

  /** The patterns of the engine definition of a stored rule. */
  function DefinitionPatterns(conv: Converter, ps: seq<Pattern>, dm: DictMap): (r: seq<SdkPattern>)
    ensures |r| == |Resolved(ps, dm)|
    ensures forall i :: 0 <= i < |r| ==> r[i] == conv(Resolved(ps, dm)[i])
  {
    var rs := Resolved(ps, dm);
    seq(|rs|, i requires 0 <= i < |rs| => conv(rs[i]))
  }

  method RuleModelPatterns(known: set<string>, patternsRaw: seq<Pattern>, dictMap: DictMap)
    returns (patterns: seq<SdkPattern>)
    ensures patterns == DefinitionPatterns(IoPattern(known), patternsRaw, dictMap)
  {
    var resolved := patternsRaw;
    if dictMap != map[] {
      resolved := ResolveDictRefs(patternsRaw, dictMap);
    }
    patterns := [];
    for i := 0 to |resolved|
      invariant |patterns| == i
      invariant forall k :: 0 <= k < i ==> patterns[k] == IoPattern(known)(resolved[k])
    {
      var kind := resolved[i].ptype.GetOr("regex");
      var ptype := if kind in known then kind else "regex";
      patterns := patterns + [SdkPattern(ptype, resolved[i].value.GetOr(""), resolved[i].confidence.GetOr(0.8))];
    }
  }

  /** An any-mode definition matches when one of its patterns does. */
  ghost predicate AnyMatches(m: Matcher, patterns: seq<SdkPattern>, text: string) {
    exists q :: q in patterns && m(q, text)
  }

  /** What a stored pattern means: a reference matches when some entry does, as a keyword. */
  ghost predicate PatternMeans(m: Matcher, conv: Converter, p: Pattern, dm: DictMap, text: string) {
    if IsReference(p) then
      exists e :: e in EntriesOf(p, dm) && m(conv(Keyword(e, p.confidence.GetOr(0.8))), text)
    else m(conv(p), text)
  }

  /** What a stored any-mode rule means. */
  ghost predicate RuleMeans(m: Matcher, conv: Converter, ps: seq<Pattern>, dm: DictMap, text: string) {
    exists p :: p in ps && PatternMeans(m, conv, p, dm, text)
  }

  lemma DefinitionMembers(conv: Converter, ps: seq<Pattern>, dm: DictMap, q: SdkPattern)
    ensures q in DefinitionPatterns(conv, ps, dm) <==> exists p :: p in Resolved(ps, dm) && q == conv(p)
  {
    var r, rs := DefinitionPatterns(conv, ps, dm), Resolved(ps, dm);
    if q in r {
      var i :| 0 <= i < |r| && r[i] == q;
      assert rs[i] in rs;
    }
    if p :| p in rs && q == conv(p) {
      var i :| 0 <= i < |rs| && rs[i] == p;
      assert r[i] in r;
    }
  }

  lemma PatternMeansExpansion(m: Matcher, conv: Converter, p: Pattern, dm: DictMap, text: string)
    ensures PatternMeans(m, conv, p, dm, text) <==>
            exists q :: q in ExpandOne(p, dm) && m(conv(q), text)
  {
    var one := ExpandOne(p, dm);
    if IsReference(p) {
      var entries, conf := EntriesOf(p, dm), p.confidence.GetOr(0.8);
      if PatternMeans(m, conv, p, dm, text) {
        var e :| e in entries && m(conv(Keyword(e, conf)), text);
        var i :| 0 <= i < |entries| && entries[i] == e;
        assert one[i] in one;
      }
      if q :| q in one && m(conv(q), text) {
        var i :| 0 <= i < |one| && one[i] == q;
        assert entries[i] in entries;
      }
    } else {
      assert one == [p];
    }
  }

  /** What a rule means is what its patterns mean once the references are spelled out. */
  lemma RuleMeansSpelledOut(m: Matcher, conv: Converter, ps: seq<Pattern>, dm: DictMap, text: string)
    ensures RuleMeans(m, conv, ps, dm, text) <==> exists q :: q in Expand(ps, dm) && m(conv(q), text)
  {
    if RuleMeans(m, conv, ps, dm, text) {
      var p :| p in ps && PatternMeans(m, conv, p, dm, text);
      PatternMeansExpansion(m, conv, p, dm, text);
      var q :| q in ExpandOne(p, dm) && m(conv(q), text);
      ExpandMembers(ps, dm, q);
    }
    if q :| q in Expand(ps, dm) && m(conv(q), text) {
      ExpandMembers(ps, dm, q);
      var p :| p in ps && q in ExpandOne(p, dm);
      PatternMeansExpansion(m, conv, p, dm, text);
    }
  }

  /** With at least one active dictionary the definition matches exactly what the rule means. */
  lemma ExpansionPreservesMeaning(m: Matcher, conv: Converter, ps: seq<Pattern>, dm: DictMap, text: string)
    requires dm != map[]
    ensures AnyMatches(m, DefinitionPatterns(conv, ps, dm), text) <==> RuleMeans(m, conv, ps, dm, text)
  {
    RuleMeansSpelledOut(m, conv, ps, dm, text);
    if AnyMatches(m, DefinitionPatterns(conv, ps, dm), text) {
      var s :| s in DefinitionPatterns(conv, ps, dm) && m(s, text);
      DefinitionMembers(conv, ps, dm, s);
    }
    if q :| q in Expand(ps, dm) && m(conv(q), text) {
      DefinitionMembers(conv, ps, dm, conv(q));
    }
  }

  /** Every reference of the rule, taken as it stands, is the same engine pattern
      as one of the rule's ordinary patterns. */
  ghost predicate ReferencesAreHarmless(conv: Converter, ps: seq<Pattern>) {
    forall p :: p in ps && IsReference(p) ==>
      exists q :: q in ps && !IsReference(q) && conv(q) == conv(p)
  }

  /** The definition matches what the rule means, whatever the engine's matcher. */
  ghost predicate Faithful(conv: Converter, ps: seq<Pattern>, dm: DictMap) {
    forall m: Matcher, text: string ::
      AnyMatches(m, DefinitionPatterns(conv, ps, dm), text) <==> RuleMeans(m, conv, ps, dm, text)
  }

  /** With no active dictionary references are handed to the engine unexpanded.
      The definition keeps the rule's meaning exactly when some dictionary is
      active or the rule's references happen to repeat ordinary patterns (in
      particular when it has none). */
  lemma FaithfulIff(conv: Converter, ps: seq<Pattern>, dm: DictMap)
    ensures Faithful(conv, ps, dm) <==> dm != map[] || ReferencesAreHarmless(conv, ps)
  {
    if dm != map[] {
      forall m: Matcher, text: string {
        ExpansionPreservesMeaning(m, conv, ps, dm, text);
      }
    } else if ReferencesAreHarmless(conv, ps) {
      forall m: Matcher, text: string {
        UnexpandedHarmless(m, conv, ps, dm, text);
      }
    } else {
      var p :| p in ps && IsReference(p)
             && !exists q :: q in ps && !IsReference(q) && conv(q) == conv(p);
      var only: Matcher := (s, text) => s == conv(p);
      DefinitionMembers(conv, ps, dm, conv(p));
      assert AnyMatches(only, DefinitionPatterns(conv, ps, dm), "");
      assert !RuleMeans(only, conv, ps, dm, "");
    }
  }

  lemma UnexpandedHarmless(m: Matcher, conv: Converter, ps: seq<Pattern>, dm: DictMap, text: string)
    requires dm == map[] && ReferencesAreHarmless(conv, ps)
    ensures AnyMatches(m, DefinitionPatterns(conv, ps, dm), text) <==> RuleMeans(m, conv, ps, dm, text)
  {
    var r := DefinitionPatterns(conv, ps, dm);
    if AnyMatches(m, r, text) {
      var s :| s in r && m(s, text);
      DefinitionMembers(conv, ps, dm, s);
      var p :| p in ps && s == conv(p);
      if IsReference(p) {
        var q :| q in ps && !IsReference(q) && conv(q) == conv(p);
        assert PatternMeans(m, conv, q, dm, text);
      } else {
        assert PatternMeans(m, conv, p, dm, text);
      }
    }
    if RuleMeans(m, conv, ps, dm, text) {
      var p :| p in ps && PatternMeans(m, conv, p, dm, text);
      DefinitionMembers(conv, ps, dm, conv(p));
    }
  }

  /** One reference and no active dictionary: the engine, whatever kinds it knows, is
      given the reference itself, which matches something although the rule means nothing. */
  lemma UnexpandedReferenceExample(known: set<string>)
    ensures var ref := Pattern(Some("dictionary"), None, Some("gdpr_health"), Some(0.4));
            !Faithful(IoPattern(known), [ref], map[])
  {
    var ref := Pattern(Some("dictionary"), None, Some("gdpr_health"), Some(0.4));
    FaithfulIff(IoPattern(known), [ref], map[]);
    assert ref in [ref];
  }

  /** One list of patterns matches no more than another, under one matcher and text. */
  ghost predicate NoMore(m: Matcher, conv: Converter, ps: seq<Pattern>, dm: DictMap, dm': DictMap, text: string) {
    AnyMatches(m, DefinitionPatterns(conv, ps, dm), text) ==> AnyMatches(m, DefinitionPatterns(conv, ps, dm'), text)
  }

  /** A rule matches no more under one map than under another, whatever the matcher,
      exactly when all it is handed over as under the first it is under the second too. */
  lemma MatchesNoMoreIff(conv: Converter, ps: seq<Pattern>, dm: DictMap, dm': DictMap)
    ensures (forall m: Matcher, text: string :: NoMore(m, conv, ps, dm, dm', text)) <==>
            forall q :: q in DefinitionPatterns(conv, ps, dm) ==> q in DefinitionPatterns(conv, ps, dm')
  {
    var here, there := DefinitionPatterns(conv, ps, dm), DefinitionPatterns(conv, ps, dm');
    if forall m: Matcher, text: string :: NoMore(m, conv, ps, dm, dm', text) {
      forall q | q in here ensures q in there {
        var only: Matcher := (s, text) => s == q;
        assert NoMore(only, conv, ps, dm, dm', "");
        assert AnyMatches(only, here, "") by {
          assert q in here && only(q, "");
        }
      }
    }
  }

  /** Every reference, taken as it stands, is handed over like one of the patterns that
      the rule is spelled out as. */
  ghost predicate ReferencesStayInside(conv: Converter, ps: seq<Pattern>, dm: DictMap) {
    forall p :: p in ps && IsReference(p) ==> exists q :: q in Expand(ps, dm) && conv(q) == conv(p)
  }

  /** Unexpanded a rule matches no more than with a map exactly then. */
  lemma UnexpandedMatchesNoMoreIff(conv: Converter, ps: seq<Pattern>, dm: DictMap)
    requires dm != map[]
    ensures (forall m: Matcher, text: string :: NoMore(m, conv, ps, map[], dm, text)) <==> ReferencesStayInside(conv, ps, dm)
  {
    MatchesNoMoreIff(conv, ps, map[], dm);
    forall p | p in ps && !IsReference(p) ensures p in Expand(ps, dm) {
      ExpandMembers(ps, dm, p);
      assert p in ExpandOne(p, dm);
    }
    forall q ensures q in DefinitionPatterns(conv, ps, map[]) <==> exists p :: p in ps && q == conv(p) {
      DefinitionMembers(conv, ps, map[], q);
    }
    forall q ensures q in DefinitionPatterns(conv, ps, dm) <==> exists p :: p in Expand(ps, dm) && q == conv(p) {
      DefinitionMembers(conv, ps, dm, q);
    }
    if forall q :: q in DefinitionPatterns(conv, ps, map[]) ==> q in DefinitionPatterns(conv, ps, dm) {
      forall p | p in ps && IsReference(p) ensures exists q :: q in Expand(ps, dm) && conv(q) == conv(p) {
        assert conv(p) in DefinitionPatterns(conv, ps, map[]);
      }
    }
  }

  /** A dictionary reference becomes one keyword pattern for every entry, in order,
      with the confidence of the reference or 0.8; every other pattern stays. */
  lemma ReferenceSpelledOut(p: Pattern, dm: DictMap)
    ensures p.ptype != Some("dictionary") ==> Expand([p], dm) == [p]
    ensures p.ptype == Some("dictionary") && p.ref.Some? && p.ref.value in dm ==>
              var entries, out := dm[p.ref.value], Expand([p], dm);
              && |out| == |entries|
              && forall i :: 0 <= i < |out| ==>
                   && out[i].ptype == Some("keyword") && out[i].value == Some(entries[i]) && out[i].ref == None
                   && out[i].confidence == (if p.confidence.Some? then p.confidence else Some(0.8))
    ensures p.ptype == Some("dictionary") && p.ref.Some? && p.ref.value !in dm ==> Expand([p], dm) == []
  {
    FlatMapSingle(Expander(dm), p);
  }

  /** An engine pattern with the stored value and confidence, or the defaults empty and 0.8. */
  ghost predicate Carries(q: SdkPattern, p: Pattern) {
    && q.value == (if p.value.Some? then p.value.value else "")
    && q.confidence == (if p.confidence.Some? then p.confidence.value else 0.8)
  }

  /** Patterns are handed over with their own kind, or as regexes if they have none; to
      the engine also if it does not know the kind. */
  lemma HandedOverAs(p: Pattern, known: set<string>)
    ensures Carries(IoPattern(known)(p), p) && Carries(ScannerPattern()(p), p)
    ensures IoPattern(known)(p).kind == if p.ptype.Some? && p.ptype.value in known then p.ptype.value else "regex"
    ensures ScannerPattern()(p).kind == if p.ptype.Some? then p.ptype.value else "regex"
  {
  }

  /** As long as a dictionary stays active, a smaller map only drops matches. */
  lemma SmallerMapDropsMatches(m: Matcher, conv: Converter, ps: seq<Pattern>, dm: DictMap, dm': DictMap, text: string)
    requires dm != map[] && forall c :: c in dm ==> c in dm' && forall e :: e in dm[c] ==> e in dm'[c]
    ensures NoMore(m, conv, ps, dm, dm', text)
  {
    RuleMeansSpelledOut(m, conv, ps, dm, text);
    if AnyMatches(m, DefinitionPatterns(conv, ps, dm), text) {
      ExpansionPreservesMeaning(m, conv, ps, dm, text);
      ExpansionPreservesMeaning(m, conv, ps, dm', text);
      var p :| p in ps && PatternMeans(m, conv, p, dm, text);
      if IsReference(p) {
        var e :| e in EntriesOf(p, dm) && m(conv(Keyword(e, p.confidence.GetOr(0.8))), text);
        assert e in EntriesOf(p, dm');
      }
      assert PatternMeans(m, conv, p, dm', text);
    }
  }

  /** Every code stands for at least what it stood for before. */
  ghost predicate Enlarges(dm: DictMap, dm': DictMap) {
    dm.Keys == dm'.Keys && forall c, e :: c in dm && e in dm[c] ==> e in dm'[c]
  }

  /** A larger map can only make a rule match more. */
  lemma EnlargingOnlyAddsMatches(m: Matcher, conv: Converter, ps: seq<Pattern>,
                                 dm: DictMap, dm': DictMap, text: string)
    requires Enlarges(dm, dm')
    requires AnyMatches(m, DefinitionPatterns(conv, ps, dm), text)
    ensures AnyMatches(m, DefinitionPatterns(conv, ps, dm'), text)
  {
    if dm == map[] {
      assert dm' == map[];
    } else {
      ExpansionPreservesMeaning(m, conv, ps, dm, text);
      ExpansionPreservesMeaning(m, conv, ps, dm', text);
      var p :| p in ps && PatternMeans(m, conv, p, dm, text);
      if IsReference(p) {
        var e :| e in EntriesOf(p, dm) && m(conv(Keyword(e, p.confidence.GetOr(0.8))), text);
        assert e in EntriesOf(p, dm');
      }
      assert PatternMeans(m, conv, p, dm', text);
    }
  }
}
