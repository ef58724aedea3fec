/**
 * Rewriting the pattern list of one rule, for any decision procedure that leaves
 * patterns other than regexes alone, and what running it again does.
 */
module Rewriting {
  import opened Common
  import opened Patterns

  /** What becomes of one pattern. */
  datatype Plan = Keep | Replaced(code: string) | Partial(code: string)

  type Planner = Pattern -> Plan

  /** Only regex patterns are ever migrated. */
  ghost predicate RegexOnly(plan: Planner) {
    forall p: Pattern :: p.ptype != Some("regex") ==> plan(p) == Keep
  }

  function Reference(code: string, confidence: real): Pattern {
    Pattern(Some("dictionary"), None, Some(code), Some(confidence))
  }

  function MigratedOne(plan: Planner, p: Pattern): seq<Pattern> {
    match plan(p)
    case Keep => [p]
    case Replaced(code) => [Reference(code, p.confidence.GetOr(0.4))]
    case Partial(code) => [p, Reference(code, p.confidence.GetOr(0.3))]
  }

  function Migrator(plan: Planner): Pattern -> seq<Pattern> {
    (p: Pattern) => MigratedOne(plan, p)
  }

  function Migrated(plan: Planner, ps: seq<Pattern>): seq<Pattern> {
    FlatMap(Migrator(plan), ps)
  }

  lemma MigratedAppend(plan: Planner, ps: seq<Pattern>, qs: seq<Pattern>)
    ensures Migrated(plan, ps + qs) == Migrated(plan, ps) + Migrated(plan, qs)
  {
    FlatMapAppend(Migrator(plan), ps, qs);
  }

  lemma MigratedSnoc(plan: Planner, ps: seq<Pattern>, p: Pattern)
    ensures Migrated(plan, ps + [p]) == Migrated(plan, ps) + MigratedOne(plan, p)
  {
    FlatMapSnoc(Migrator(plan), ps, p);
  }

  /** Some pattern is to be migrated. */
  predicate AnyChange(plan: Planner, ps: seq<Pattern>) {
    exists p :: p in ps && plan(p) != Keep
  }

  lemma AnyChangeSnoc(plan: Planner, ps: seq<Pattern>, p: Pattern)
    ensures AnyChange(plan, ps + [p]) <==> AnyChange(plan, ps) || plan(p) != Keep
  {
    assert p in ps + [p];
    assert forall q :: q in ps + [p] <==> q in ps || q == p;
  }

  /** What is written for one pattern: itself, a reference with its confidence or 0.4,
      or itself followed by a reference with its confidence or 0.3. */
  lemma WrittenAs(plan: Planner, p: Pattern)
    ensures var out := Migrated(plan, [p]);
            match plan(p)
            case Keep => out == [p]
            case Replaced(code) =>
              && |out| == 1 && out[0].ptype == Some("dictionary") && out[0].value == None && out[0].ref == Some(code)
              && out[0].confidence == (if p.confidence.Some? then p.confidence else Some(0.4))
            case Partial(code) =>
              && |out| == 2 && out[0] == p
              && out[1].ptype == Some("dictionary") && out[1].value == None && out[1].ref == Some(code)
              && out[1].confidence == (if p.confidence.Some? then p.confidence else Some(0.3))
  {
    FlatMapSingle(Migrator(plan), p);
  }

  // ---- Running the script again ----

  function PartialCount(plan: Planner, ps: seq<Pattern>): nat {
    if ps == [] then 0
    else (if plan(ps[0]).Partial? then 1 else 0) + PartialCount(plan, ps[1..])
  }

  lemma {:induction false} PartialCountAppend(plan: Planner, ps: seq<Pattern>, qs: seq<Pattern>)
    ensures PartialCount(plan, ps + qs) == PartialCount(plan, ps) + PartialCount(plan, qs)
  {
    if ps == [] {
      assert ps + qs == qs;
    } else {
      PartialCountAppend(plan, ps[1..], qs);
      assert (ps + qs)[0] == ps[0] && (ps + qs)[1..] == ps[1..] + qs;
    }
  }

  /** Migrating what one pattern became: a partially migrated regex gets its
      reference once more, everything else stays. */
  lemma MigrateOneAgain(plan: Planner, p: Pattern)
    requires RegexOnly(plan)
    ensures var one := MigratedOne(plan, p);
            && Migrated(plan, one) == (if plan(p).Partial? then one + [one[1]] else one)
            && PartialCount(plan, one) == (if plan(p).Partial? then 1 else 0)
  {
    match plan(p)
    case Keep => FlatMapSingle(Migrator(plan), p);
    case Replaced(code) => FlatMapSingle(Migrator(plan), Reference(code, p.confidence.GetOr(0.4)));
    case Partial(code) =>
      var ref := Reference(code, p.confidence.GetOr(0.3));
      assert [p, ref] == [p] + [ref];
      FlatMapSingle(Migrator(plan), p);
      MigratedSnoc(plan, [p], ref);
      PartialCountAppend(plan, [p], [ref]);
  }

  /** A second run leaves the set of patterns as it is and makes the list longer by
      the number of partially migrated regexes, of which there are as many as before. */
  lemma {:induction false} SecondRun(plan: Planner, ps: seq<Pattern>)
    requires RegexOnly(plan)
    ensures var once := Migrated(plan, ps);
            && (forall q :: q in Migrated(plan, once) <==> q in once)
            && |Migrated(plan, once)| == |once| + PartialCount(plan, ps)
            && PartialCount(plan, once) == PartialCount(plan, ps)
  {
    if ps != [] {
      var head, tail := MigratedOne(plan, ps[0]), Migrated(plan, ps[1..]);
      SecondRun(plan, ps[1..]);
      MigrateOneAgain(plan, ps[0]);
      MigratedAppend(plan, head, tail);
      PartialCountAppend(plan, head, tail);
    }
  }

  function Reruns(plan: Planner, ps: seq<Pattern>, n: nat): seq<Pattern> {
    if n == 0 then ps else Migrated(plan, Reruns(plan, ps, n - 1))
  }

  /** Every further run adds that number again. */
  lemma {:induction false} EveryRerunGrows(plan: Planner, ps: seq<Pattern>, n: nat)
    requires n > 0
    requires RegexOnly(plan)
    ensures |Reruns(plan, ps, n)| == |Migrated(plan, ps)| + (n - 1) * PartialCount(plan, ps)
    ensures PartialCount(plan, Reruns(plan, ps, n)) == PartialCount(plan, ps)
    ensures forall q :: q in Reruns(plan, ps, n) <==> q in Migrated(plan, ps)
  {
    if n == 1 {
      assert Reruns(plan, ps, 1) == Migrated(plan, Reruns(plan, ps, 0));
      SecondRun(plan, ps);
    } else {
      EveryRerunGrows(plan, ps, n - 1);
      RerunStep(plan, ps, n - 1);
      assert (n - 1) * PartialCount(plan, ps) == (n - 2) * PartialCount(plan, ps) + PartialCount(plan, ps);
    }
  }

  lemma RerunStep(plan: Planner, ps: seq<Pattern>, n: nat)
    requires n > 0
    requires RegexOnly(plan)
    ensures var a := Reruns(plan, ps, n);
            && |Migrated(plan, a)| == |a| + PartialCount(plan, a)
            && PartialCount(plan, Migrated(plan, a)) == PartialCount(plan, a)
            && (forall q :: q in Migrated(plan, a) <==> q in a)
  {
    var before := Reruns(plan, ps, n - 1);
    SecondRun(plan, before);
    SecondRun(plan, Migrated(plan, before));
  }

  /** The script is idempotent on a rule exactly when it migrates none of its
      regexes partially. */
  lemma IdempotentIff(plan: Planner, ps: seq<Pattern>)
    requires RegexOnly(plan)
    ensures Migrated(plan, Migrated(plan, ps)) == Migrated(plan, ps) <==>
            forall p :: p in ps ==> !plan(p).Partial?
  {
    SecondRun(plan, ps);
    PartialCountZero(plan, ps);
    if PartialCount(plan, ps) == 0 {
      NoPartialNoChange(plan, ps);
    }
  }

  lemma {:induction false} PartialCountZero(plan: Planner, ps: seq<Pattern>)
    ensures PartialCount(plan, ps) == 0 <==> forall p :: p in ps ==> !plan(p).Partial?
  {
    if ps != [] {
      PartialCountZero(plan, ps[1..]);
      assert ps == [ps[0]] + ps[1..];
    }
  }

  lemma {:induction false} NoPartialNoChange(plan: Planner, ps: seq<Pattern>)
    requires PartialCount(plan, ps) == 0
    requires RegexOnly(plan)
    ensures Migrated(plan, Migrated(plan, ps)) == Migrated(plan, ps)
  {
    if ps != [] {
      NoPartialNoChange(plan, ps[1..]);
      MigrateOneAgain(plan, ps[0]);
      MigratedAppend(plan, MigratedOne(plan, ps[0]), Migrated(plan, ps[1..]));
    }
  }

  /** `xs` can be had from `ys` by leaving elements out. */
  ghost predicate IsSubsequence<T>(xs: seq<T>, ys: seq<T>)
    decreases |ys|
  {
    || xs == []
    || (ys != [] && ((xs[0] == ys[0] && IsSubsequence(xs[1..], ys[1..])) || IsSubsequence(xs, ys[1..])))
  }

  lemma SubsequenceBoth<T>(x: T, xs: seq<T>, ys: seq<T>)
    requires IsSubsequence(xs, ys)
    ensures IsSubsequence([x] + xs, [x] + ys)
  {
    assert ([x] + xs)[1..] == xs && ([x] + ys)[1..] == ys;
  }

  lemma SubsequenceSkip<T>(xs: seq<T>, y: T, ys: seq<T>)
    requires IsSubsequence(xs, ys)
    ensures IsSubsequence(xs, [y] + ys)
  {
    assert ([y] + ys)[1..] == ys;
  }

  lemma SurvivesInPlace(plan: Planner, p: Pattern, kept: seq<Pattern>, rest: seq<Pattern>)
    requires IsSubsequence(kept, rest)
    ensures IsSubsequence(if plan(p).Replaced? then kept else [p] + kept, MigratedOne(plan, p) + rest)
  {
    match plan(p)
    case Keep => SubsequenceBoth(p, kept, rest);
    case Replaced(code) => SubsequenceSkip(kept, Reference(code, p.confidence.GetOr(0.4)), rest);
    case Partial(code) =>
      var ref := Reference(code, p.confidence.GetOr(0.3));
      SubsequenceSkip(kept, ref, rest);
      SubsequenceBoth(p, kept, [ref] + rest);
      assert [p, ref] + rest == [p] + ([ref] + rest);
  }

  /** The patterns that were not replaced as a whole survive, in order. */
  lemma {:induction false} UnreplacedSurvive(plan: Planner, ps: seq<Pattern>)
    ensures IsSubsequence(Filter(p => !plan(p).Replaced?, ps), Migrated(plan, ps))
  {
    if ps != [] {
      UnreplacedSurvive(plan, ps[1..]);
      SurvivesInPlace(plan, ps[0], Filter(p => !plan(p).Replaced?, ps[1..]), Migrated(plan, ps[1..]));
    }
  }

  // ---- What a migrated rule matches ----

  /** The reference that joins or replaces a pattern. */
  function Joining(plan: Planner, p: Pattern): Option<Pattern> {
    match plan(p)
    case Keep => None
    case Replaced(code) => Some(Reference(code, p.confidence.GetOr(0.4)))
    case Partial(code) => Some(Reference(code, p.confidence.GetOr(0.3)))
  }

  lemma MigratedMembers(plan: Planner, ps: seq<Pattern>, q: Pattern)
    ensures q in Migrated(plan, ps) <==>
            || (q in ps && !plan(q).Replaced?)
            || exists p :: p in ps && Joining(plan, p) == Some(q)
  {
    FlatMapMembers(Migrator(plan), ps, q);
    if q in Migrated(plan, ps) {
      var p :| p in ps && q in Migrator(plan)(p);
      assert (q == p && !plan(p).Replaced?) || Joining(plan, p) == Some(q);
    }
    if q in ps && !plan(q).Replaced? {
      assert q in Migrator(plan)(q);
    }
    if p :| p in ps && Joining(plan, p) == Some(q) {
      assert q in Migrator(plan)(p);
    }
  }

  /** A migrated rule means what its remaining patterns and the references that
      joined them mean, and nothing else. */
  lemma MigratedMeans(m: Matcher, conv: Converter, plan: Planner, ps: seq<Pattern>, dm: DictMap, text: string)
    ensures RuleMeans(m, conv, Migrated(plan, ps), dm, text) <==>
            || (exists p :: p in ps && !plan(p).Replaced? && PatternMeans(m, conv, p, dm, text))
            || (exists p :: p in ps && plan(p) != Keep && PatternMeans(m, conv, Joining(plan, p).value, dm, text))
  {
    if RuleMeans(m, conv, Migrated(plan, ps), dm, text) {
      var q :| q in Migrated(plan, ps) && PatternMeans(m, conv, q, dm, text);
      MigratedMembers(plan, ps, q);
    }
    if p :| p in ps && !plan(p).Replaced? && PatternMeans(m, conv, p, dm, text) {
      MigratedMembers(plan, ps, p);
    }
    if p :| p in ps && plan(p) != Keep && PatternMeans(m, conv, Joining(plan, p).value, dm, text) {
      MigratedMembers(plan, ps, Joining(plan, p).value);
    }
  }

  /** Whatever the matcher and the dictionaries, the migrated rule matches all that
      the rule matched. */
  ghost predicate KeepsMatches(conv: Converter, plan: Planner, ps: seq<Pattern>) {
    forall m: Matcher, dm: DictMap, text: string ::
      RuleMeans(m, conv, ps, dm, text) ==> RuleMeans(m, conv, Migrated(plan, ps), dm, text)
  }

  /** It does exactly when every pattern that is replaced as a whole is handed over
      the same as one that stays; in particular when none is replaced. */
  lemma MigrationKeepsMatchesIff(conv: Converter, plan: Planner, ps: seq<Pattern>)
    requires RegexOnly(plan)
    ensures KeepsMatches(conv, plan, ps) <==>
            forall p :: p in ps && plan(p).Replaced? ==>
              exists q :: q in ps && !plan(q).Replaced? && !IsReference(q) && conv(q) == conv(p)
  {
    if KeepsMatches(conv, plan, ps) {
      forall p | p in ps && plan(p).Replaced?
        ensures exists q :: q in ps && !plan(q).Replaced? && !IsReference(q) && conv(q) == conv(p)
      {
        var only: Matcher := (s, text) => s == conv(p);
        assert PatternMeans(only, conv, p, map[], "");
        assert RuleMeans(only, conv, ps, map[], "");
        var q :| q in Migrated(plan, ps) && PatternMeans(only, conv, q, map[], "");
        assert !IsReference(q);
        MigratedMembers(plan, ps, q);
      }
    } else {
      var m: Matcher, dm: DictMap, text: string :|
        RuleMeans(m, conv, ps, dm, text) && !RuleMeans(m, conv, Migrated(plan, ps), dm, text);
      var p :| p in ps && PatternMeans(m, conv, p, dm, text);
      MigratedMembers(plan, ps, p);
      assert plan(p).Replaced? && !IsReference(p);
      forall q | q in ps && !plan(q).Replaced? && !IsReference(q) ensures conv(q) != conv(p) {
        MigratedMembers(plan, ps, q);
      }
    }
  }

  /** The text of a keyword reaches the engine. */
  ghost predicate KeepsKeywords(conv: Converter) {
    forall e: string, c: real :: conv(Keyword(e, c)).value == e
  }

  lemma BothKeepKeywords(known: set<string>)
    ensures KeepsKeywords(IoPattern(known)) && KeepsKeywords(ScannerPattern())
  {
  }

  /** Whatever the matcher, a reference matches all that these words match as keywords. */
  ghost predicate Covers(conv: Converter, ref: Pattern, dm: DictMap, words: seq<string>) {
    forall m: Matcher, text: string, w: string ::
      w in words && m(conv(Keyword(w, ref.confidence.GetOr(0.8))), text) ==> PatternMeans(m, conv, ref, dm, text)
  }

  /** It does exactly when all of them are entries of the dictionary. */
  lemma CoversIff(conv: Converter, ref: Pattern, dm: DictMap, words: seq<string>)
    requires KeepsKeywords(conv) && IsReference(ref)
    ensures Covers(conv, ref, dm, words) <==> forall w :: w in words ==> w in EntriesOf(ref, dm)
  {
    var c := ref.confidence.GetOr(0.8);
    if Covers(conv, ref, dm, words) {
      forall w | w in words ensures w in EntriesOf(ref, dm) {
        var only: Matcher := (s, text) => s == conv(Keyword(w, c));
        assert only(conv(Keyword(w, c)), "");
        assert PatternMeans(only, conv, ref, dm, "");
        var e :| e in EntriesOf(ref, dm) && only(conv(Keyword(e, c)), "");
        assert conv(Keyword(e, c)).value == e && conv(Keyword(w, c)).value == w;
      }
    }
  }
}
