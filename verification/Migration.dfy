/** The script that rewrites keyword alternations of stored regex patterns into dictionary references. */
module Migration {
  import opened Common
  import opened Text
  import opened Patterns
  import opened Rewriting

  /** What the script is parametric in: the digit class of the regex engine and
      the list of dictionary codes with their entries. */
  datatype Setting = Setting(isDigit: char -> bool, dictionaries: seq<(string, seq<string>)>)

  // ---- Alternation groups ----

  predicate IsParen(c: char) { c == '(' || c == ')' }

  /** Length of the run of characters other than parentheses from `i` on. */
  function Run(s: string, i: nat): (n: nat)
    requires i <= |s|
    ensures i + n <= |s|
    ensures forall k :: i <= k < i + n ==> !IsParen(s[k])
    ensures i + n < |s| ==> IsParen(s[i + n])
    decreases |s| - i
  {
    if i == |s| || IsParen(s[i]) then 0 else 1 + Run(s, i + 1)
  }

  /** The end of a match of `\(\?:([^()]+)\)` that starts at `i`, if there is one. */
  function GroupEnd(s: string, i: nat): (e: Option<nat>)
    ensures e.Some? ==> i + 4 < e.value <= |s|
  {
    if i + 3 <= |s| && s[i..i + 3] == "(?:" then
      var n := Run(s, i + 3);
      if n > 0 && i + 3 + n < |s| && s[i + 3 + n] == ')' then Some(i + n + 4) else None
    else None
  }

  /** A match is `(?:`, at least one character, none of them a parenthesis, and `)`. */
  lemma GroupEndMeans(s: string, i: nat, e: nat)
    ensures GroupEnd(s, i) == Some(e) <==>
              && i + 4 < e <= |s| && s[i..i + 3] == "(?:" && s[e - 1] == ')'
              && forall k :: i + 3 <= k < e - 1 ==> s[k] != '(' && s[k] != ')'
  {
    if i + 4 < e <= |s| && s[e - 1] == ')' && forall k :: i + 3 <= k < e - 1 ==> s[k] != '(' && s[k] != ')' {
      RunIs(s, i + 3, e - i - 4);
    }
  }

  lemma {:induction false} RunIs(s: string, i: nat, n: nat)
    requires i + n < |s| && IsParen(s[i + n])
    requires forall k :: i <= k < i + n ==> !IsParen(s[k])
    ensures Run(s, i) == n
    decreases n
  {
    if n > 0 {
      RunIs(s, i + 1, n - 1);
    }
  }

  /** `re.finditer`: leftmost matches, each search starting where the last match ended. */
  function Groups(s: string, from: nat): (gs: seq<(nat, nat)>)
    ensures forall k :: 0 <= k < |gs| ==> from <= gs[k].0 && gs[k].0 + 4 < gs[k].1 <= |s|
    decreases |s| - from
  {
    if from >= |s| then []
    else
      match GroupEnd(s, from)
      case Some(e) => [(from, e)] + Groups(s, e)
      case None => Groups(s, from + 1)
  }

  /** The matches found are ordered and disjoint. */
  lemma {:induction false} GroupsAreDisjoint(s: string, from: nat, j: nat, k: nat)
    requires j < k < |Groups(s, from)|
    ensures Groups(s, from)[j].1 <= Groups(s, from)[k].0
    decreases |s| - from
  {
    match GroupEnd(s, from)
    case Some(e) =>
      assert Groups(s, from) == [(from, e)] + Groups(s, e);
      if j > 0 {
        GroupsAreDisjoint(s, e, j - 1, k - 1);
      }
    case None => GroupsAreDisjoint(s, from + 1, j, k);
  }

  /** No match starts inside another one. */
  lemma MatchesDoNotOverlap(s: string, i: nat, e: nat, j: nat)
    requires GroupEnd(s, i) == Some(e) && i < j < e
    ensures GroupEnd(s, j).None?
  {
    var head := s[i..i + 3];
    assert s[i + 1] == head[1] == '?' && s[i + 2] == head[2] == ':';
    assert s[j] != '(';
    if j + 3 <= |s| {
      assert s[j..j + 3][0] == s[j];
    }
  }

  /** Nothing is missed by searching on behind a match: the groups found are all
      the places where the expression matches. */
  lemma {:induction false} GroupsAreAllMatches(s: string, from: nat, i: nat, e: nat)
    ensures (i, e) in Groups(s, from) <==> from <= i && GroupEnd(s, i) == Some(e)
    decreases |s| - from
  {
    if from < |s| {
      match GroupEnd(s, from)
      case Some(end) =>
        assert Groups(s, from) == [(from, end)] + Groups(s, end);
        GroupsAreAllMatches(s, end, i, e);
        if from < i < end {
          MatchesDoNotOverlap(s, from, end, i);
        }
      case None => GroupsAreAllMatches(s, from + 1, i, e);
    }
  }

  datatype KeyGroup = KeyGroup(text: string, keys: seq<string>, start: nat, end: nat)

  /** Matches `^[\d.\\]+$`. */
  predicate Numeric(setting: Setting, a: string) {
    a != "" && forall i :: 0 <= i < |a| ==> setting.isDigit(a[i]) || a[i] == '.' || a[i] == '\\'
  }

  function Stripped(parts: seq<string>): seq<string> {
    if parts == [] then [] else [Strip(parts[0])] + Stripped(parts[1..])
  }

  /** The word-like alternatives of a group. */
  function Keys(setting: Setting, body: string): seq<string> {
    Filter(a => |a| > 1 && !Numeric(setting, a), Stripped(Split(body, '|')))
  }

  function GroupAt(setting: Setting, s: string, g: (nat, nat)): KeyGroup
    requires g.0 + 4 < g.1 <= |s|
  {
    KeyGroup(s[g.0..g.1], Keys(setting, s[g.0 + 3..g.1 - 1]), g.0, g.1)
  }

  lemma {:induction false} StrippedMembers(parts: seq<string>, w: string)
    ensures w in Stripped(parts) <==> exists part :: part in parts && w == Strip(part)
  {
    if parts != [] {
      StrippedMembers(parts[1..], w);
      assert parts == [parts[0]] + parts[1..];
    }
  }

  /** The words are the stripped alternatives of two characters or more that do not
      consist of digits, dots and backslashes only. */
  lemma KeysMean(setting: Setting, body: string, w: string)
    ensures w in Keys(setting, body) <==>
              && (exists part :: part in Split(body, '|') && w == Strip(part))
              && |w| >= 2
              && exists i :: 0 <= i < |w| && !setting.isDigit(w[i]) && w[i] != '.' && w[i] != '\\'
  {
    StrippedMembers(Split(body, '|'), w);
    FilterMembers(a => |a| > 1 && !Numeric(setting, a), Stripped(Split(body, '|')));
  }

  /** A match is reported when it has at least two word-like alternatives. */
  function Selector(setting: Setting, s: string): ((nat, nat)) -> Option<KeyGroup> {
    (g: (nat, nat)) =>
      if g.0 + 4 < g.1 <= |s| && |GroupAt(setting, s, g).keys| >= 2 then Some(GroupAt(setting, s, g)) else None
  }

  function KeyGroups(setting: Setting, s: string): seq<KeyGroup> {
    FilterMap(Selector(setting, s), Groups(s, 0))
  }

  lemma {:induction false} SelectedInOrder(select: ((nat, nat)) -> Option<KeyGroup>, gs: seq<(nat, nat)>)
    requires forall g :: select(g).Some? ==> (select(g).value.start, select(g).value.end) == g
    requires forall j, k :: 0 <= j < k < |gs| ==> gs[j].1 <= gs[k].0
    ensures var sel := FilterMap(select, gs);
            forall j, k :: 0 <= j < k < |sel| ==> sel[j].end <= sel[k].start
  {
    if gs != [] {
      var front := gs[..|gs| - 1];
      SelectedInOrder(select, front);
      var earlier := FilterMap(select, front);
      forall j | 0 <= j < |earlier| ensures earlier[j].end <= gs[|front|].0 {
        FilterMapMembers(select, front, earlier[j]);
        var k :| 0 <= k < |front| && select(front[k]) == Some(earlier[j]);
        assert gs[k] == front[k];
      }
      var last := select(gs[|front|]);
      assert FilterMap(select, gs) == if last.Some? then earlier + [last.value] else earlier;
    }
  }

  lemma SelectorReportsBounds(setting: Setting, s: string, g: (nat, nat))
    requires Selector(setting, s)(g).Some?
    ensures (Selector(setting, s)(g).value.start, Selector(setting, s)(g).value.end) == g
  {
  }

  /** The extracted groups are ordered, disjoint spans. */
  lemma ExtractedGroupsInOrder(setting: Setting, s: string, j: nat, k: nat)
    requires j < k < |KeyGroups(setting, s)|
    ensures KeyGroups(setting, s)[j].end <= KeyGroups(setting, s)[k].start
  {
    var gs := Groups(s, 0);
    forall a, b | 0 <= a < b < |gs| ensures gs[a].1 <= gs[b].0 {
      GroupsAreDisjoint(s, 0, a, b);
    }
    var select := Selector(setting, s);
    forall g | select(g).Some? ensures (select(g).value.start, select(g).value.end) == g {
      SelectorReportsBounds(setting, s, g);
    }
    SelectedInOrder(select, gs);
    assert KeyGroups(setting, s) == FilterMap(select, gs);
  }

  /** The extracted groups are exactly the matches with two or more word-like
      alternatives, each reported with the text between its bounds, and the part
      between `(?:` and `)` holds no parenthesis. */
  lemma ExtractedGroupsAre(setting: Setting, s: string, g: KeyGroup)
    ensures g in KeyGroups(setting, s) <==>
              && GroupEnd(s, g.start) == Some(g.end)
              && |g.keys| >= 2
              && g == GroupAt(setting, s, (g.start, g.end))
    ensures g in KeyGroups(setting, s) ==>
              forall k :: g.start + 3 <= k < g.end - 1 ==> !IsParen(s[k])
  {
    FilterMapMembers(Selector(setting, s), Groups(s, 0), g);
    GroupsAreAllMatches(s, 0, g.start, g.end);
    if x :| x in Groups(s, 0) && Selector(setting, s)(x) == Some(g) {
      assert x == (g.start, g.end);
    }
  }

  /** The loop of the script: exactly the matches with two or more word-like
      alternatives, in the order they stand in the pattern, none inside another. */
  method ExtractAlternationKeys(setting: Setting, patternValue: string) returns (results: seq<KeyGroup>)
    ensures forall g :: g in results <==>
              && GroupEnd(patternValue, g.start) == Some(g.end)
              && |g.keys| >= 2
              && g == GroupAt(setting, patternValue, (g.start, g.end))
    ensures forall j, k :: 0 <= j < k < |results| ==> results[j].end <= results[k].start
    ensures results == KeyGroups(setting, patternValue)
  {
    var found := Groups(patternValue, 0);
    results := FilterMapLoop(Selector(setting, patternValue), found);
    forall g {
      ExtractedGroupsAre(setting, patternValue, g);
    }
    forall j, k | 0 <= j < k < |results| {
      ExtractedGroupsInOrder(setting, patternValue, j, k);
    }
  }

  // ---- Which alternatives are plain words ----

  predicate IsMeta(c: char) {
    c in ['\\', '.', '[', ']', '{', '}', '(', ')', '+', '*', '?', '^', '$', '|']
  }

  /** The three escapes the check forgives, undone one after the other. */
  function Cleaned(entry: string): string {
    Replace(Replace(Replace(entry, "\\s", " "), "\\-", "-"), "\\_", "_")
  }

  predicate NoMeta(s: string) {
    forall i :: 0 <= i < |s| ==> !IsMeta(s[i])
  }

  predicate CanBeDictionary(alternation: seq<string>) {
    forall i :: 0 <= i < |alternation| ==> NoMeta(Cleaned(alternation[i]))
  }

  /** One pass over the entry: ordinary characters, and `\s`, `\-`, `\_`. */
  predicate PlainWord(s: string) {
    if s == "" then true
    else if s[0] == '\\' then |s| >= 2 && s[1] in ['s', '-', '_'] && PlainWord(s[2..])
    else s[0] !in ".[]{}()+*?^$|" && PlainWord(s[1..])
  }

  lemma NoMetaCons(c: char, s: string)
    ensures NoMeta([c] + s) <==> !IsMeta(c) && NoMeta(s)
  {
    if NoMeta([c] + s) {
      assert forall i :: 0 <= i < |s| ==> s[i] == ([c] + s)[i + 1];
      assert ([c] + s)[0] == c;
    }
  }

  /** A character other than a backslash passes the three replacements unchanged. */
  lemma CleanedOrdinary(c: char, s: string)
    requires c != '\\'
    ensures Cleaned([c] + s) == [c] + Cleaned(s)
  {
    var r := Replace(s, "\\s", " ");
    ReplaceSkip(c, s, "\\s", " ");
    ReplaceSkip(c, r, "\\-", "-");
    ReplaceSkip(c, Replace(r, "\\-", "-"), "\\_", "_");
  }

  /** The forgiven escapes leave one harmless character. */
  lemma CleanedEscape(c: char, s: string)
    requires c in ['s', '-', '_']
    ensures Cleaned(['\\', c] + s) == [if c == 's' then ' ' else c] + Cleaned(s)
  {
    var r := Replace(s, "\\s", " ");
    var t := Replace(r, "\\-", "-");
    assert ['\\', c] + s == ['\\'] + ([c] + s);
    if c == 's' {
      ReplaceHit(s, "\\s", " ");
      assert ['\\', c] + s == "\\s" + s;
      ReplaceSkip(' ', r, "\\-", "-");
      ReplaceSkip(' ', t, "\\_", "_");
    } else {
      ReplaceSkip('\\', [c] + s, "\\s", " ");
      ReplaceSkip(c, s, "\\s", " ");
      if c == '-' {
        assert ['\\'] + ([c] + r) == "\\-" + r;
        ReplaceHit(r, "\\-", "-");
        ReplaceSkip('-', t, "\\_", "_");
      } else {
        ReplaceSkip('\\', [c] + r, "\\-", "-");
        ReplaceSkip(c, r, "\\-", "-");
        assert ['\\'] + ([c] + t) == "\\_" + t;
        ReplaceHit(t, "\\_", "_");
      }
    }
  }

  /** Any other backslash survives. */
  lemma CleanedBackslash(s: string)
    requires s == "" || s[0] !in ['s', '-', '_']
    ensures Cleaned(['\\'] + s) == ['\\'] + Cleaned(s)
  {
    var r := Replace(s, "\\s", " ");
    var t := Replace(r, "\\-", "-");
    if s != "" {
      ReplaceFirst(s, "\\s", " ");
      ReplaceFirst(r, "\\-", "-");
    }
    ReplaceSkip('\\', s, "\\s", " ");
    ReplaceSkip('\\', r, "\\-", "-");
    ReplaceSkip('\\', t, "\\_", "_");
  }

  /** The replace-and-search check accepts exactly the plain words. */
  lemma {:induction false} CleanedIsOnePass(s: string)
    ensures NoMeta(Cleaned(s)) <==> PlainWord(s)
    decreases |s|
  {
    if s != "" {
      if s[0] != '\\' {
        assert s == [s[0]] + s[1..];
        CleanedOrdinary(s[0], s[1..]);
        NoMetaCons(s[0], Cleaned(s[1..]));
        CleanedIsOnePass(s[1..]);
      } else if |s| >= 2 && s[1] in ['s', '-', '_'] {
        assert s == ['\\', s[1]] + s[2..];
        CleanedEscape(s[1], s[2..]);
        NoMetaCons(if s[1] == 's' then ' ' else s[1], Cleaned(s[2..]));
        CleanedIsOnePass(s[2..]);
      } else {
        assert s == ['\\'] + s[1..];
        CleanedBackslash(s[1..]);
        NoMetaCons('\\', Cleaned(s[1..]));
      }
    }
  }

  lemma CanBeDictionaryIff(alternation: seq<string>)
    ensures CanBeDictionary(alternation) <==> forall i :: 0 <= i < |alternation| ==> PlainWord(alternation[i])
  {
    forall i | 0 <= i < |alternation| {
      CleanedIsOnePass(alternation[i]);
    }
  }

  // ---- Rewriting the patterns of a rule ----

  /** `any(k in entries for k in keys[:3])` */
  predicate Touches(keys: seq<string>, entries: seq<string>) {
    exists i :: 0 <= i < |keys| && i < 3 && keys[i] in entries
  }

  /** The first dictionary, in list order, that knows one of the first three keys. */
  function MatchedDict(dictionaries: seq<(string, seq<string>)>, keys: seq<string>): Option<string> {
    if dictionaries == [] then None
    else if Touches(keys, dictionaries[0].1) then Some(dictionaries[0].0)
    else MatchedDict(dictionaries[1..], keys)
  }

  /** One of the first three words is an entry. */
  ghost predicate KnowsOne(keys: seq<string>, entries: seq<string>) {
    (|keys| > 0 && keys[0] in entries) || (|keys| > 1 && keys[1] in entries) || (|keys| > 2 && keys[2] in entries)
  }

  /** The dictionary taken is the first in the list with one of the first three words. */
  lemma {:induction false} MatchedDictMeans(dictionaries: seq<(string, seq<string>)>, keys: seq<string>)
    ensures MatchedDict(dictionaries, keys).None? <==>
            forall k :: 0 <= k < |dictionaries| ==> !KnowsOne(keys, dictionaries[k].1)
    ensures forall k :: 0 <= k < |dictionaries| && KnowsOne(keys, dictionaries[k].1)
                        && (forall j :: 0 <= j < k ==> !KnowsOne(keys, dictionaries[j].1)) ==>
              MatchedDict(dictionaries, keys) == Some(dictionaries[k].0)
  {
    if dictionaries != [] {
      assert Touches(keys, dictionaries[0].1) <==> KnowsOne(keys, dictionaries[0].1);
      var rest := dictionaries[1..];
      MatchedDictMeans(rest, keys);
      assert forall k :: 0 <= k < |rest| ==> rest[k] == dictionaries[k + 1];
      forall k | 0 <= k < |dictionaries| && KnowsOne(keys, dictionaries[k].1)
                 && (forall j :: 0 <= j < k ==> !KnowsOne(keys, dictionaries[j].1))
        ensures MatchedDict(dictionaries, keys) == Some(dictionaries[k].0)
      {
        if k > 0 {
          assert rest[k - 1] == dictionaries[k];
          assert forall j :: 0 <= j < k - 1 ==> rest[j] == dictionaries[j + 1];
        }
      }
      if forall k :: 0 <= k < |rest| ==> !KnowsOne(keys, rest[k].1) {
        forall k | 0 <= k < |dictionaries| ensures k > 0 ==> !KnowsOne(keys, dictionaries[k].1) {
          assert k > 0 ==> dictionaries[k] == rest[k - 1];
        }
      }
    }
  }

  /** The pattern is this group alone, up to word boundaries and white space. */
  predicate IsWholePattern(value: string, group: string)
    requires group != ""
  {
    Strip(Replace(Replace(value, group, ""), "\\b", "")) == ""
  }

  /** The first usable group decides. */
  function PlanFor(setting: Setting, value: string, groups: seq<KeyGroup>): Plan
    requires forall g :: g in groups ==> g.text != ""
  {
    if groups == [] then Keep
    else
      var g := groups[0];
      var code := MatchedDict(setting.dictionaries, g.keys);
      if CanBeDictionary(g.keys) && code.Some? then
        if IsWholePattern(value, g.text) then Replaced(code.value) else Partial(code.value)
      else PlanFor(setting, value, groups[1..])
  }

  lemma GroupsHaveText(setting: Setting, s: string)
    ensures forall g :: g in KeyGroups(setting, s) ==> g.text != ""
  {
    forall g | g in KeyGroups(setting, s) ensures g.text != "" {
      ExtractedGroupsAre(setting, s, g);
    }
  }

  function PlanOf(setting: Setting, p: Pattern): Plan {
    GroupsHaveText(setting, p.value.GetOr(""));
    if p.ptype != Some("regex") then Keep
    else PlanFor(setting, p.value.GetOr(""), KeyGroups(setting, p.value.GetOr("")))
  }

  function PlannerOf(setting: Setting): (plan: Planner)
    ensures RegexOnly(plan)
  {
    p => PlanOf(setting, p)
  }

  /** What takes the place of one pattern, and whether that is a change. */
  method MigratePattern(setting: Setting, p: Pattern) returns (out: seq<Pattern>, hit: bool)
    ensures out == MigratedOne(PlannerOf(setting), p)
    ensures hit <==> PlannerOf(setting)(p) != Keep
  {
    if p.ptype != Some("regex") {
      return [p], false;
    }
    var val := p.value.GetOr("");
    var groups := ExtractAlternationKeys(setting, val);
    GroupsHaveText(setting, val);
    var plan := Decide(setting, val, groups);
    match plan
    case Keep => return [p], false;
    case Replaced(code) => return [Reference(code, p.confidence.GetOr(0.4))], true;
    case Partial(code) => return [p, Reference(code, p.confidence.GetOr(0.3))], true;
  }

  /** Rewrites the pattern list of one rule. `changed` tells whether the rule is to be stored again. */
  method MigrateRule(setting: Setting, patterns: seq<Pattern>) returns (newPatterns: seq<Pattern>, changed: bool)
    ensures newPatterns == Migrated(PlannerOf(setting), patterns)
    ensures changed <==> AnyChange(PlannerOf(setting), patterns)
  {
    newPatterns, changed := [], false;
    for i := 0 to |patterns|
      invariant newPatterns == Migrated(PlannerOf(setting), patterns[..i])
      invariant changed <==> AnyChange(PlannerOf(setting), patterns[..i])
    {
      var out, hit := MigratePattern(setting, patterns[i]);
      newPatterns := newPatterns + out;
      changed := changed || hit;
      assert patterns[..i + 1] == patterns[..i] + [patterns[i]];
      MigratedSnoc(PlannerOf(setting), patterns[..i], patterns[i]);
      AnyChangeSnoc(PlannerOf(setting), patterns[..i], patterns[i]);
    }
    assert patterns[..|patterns|] == patterns;
  }

  /** The inner loops over groups and dictionaries, left at the first hit. */
  method Decide(setting: Setting, value: string, groups: seq<KeyGroup>) returns (plan: Plan)
    requires forall g :: g in groups ==> g.text != ""
    ensures plan == PlanFor(setting, value, groups)
  {
    for i := 0 to |groups|
      invariant PlanFor(setting, value, groups) == PlanFor(setting, value, groups[i..])
    {
      var g := groups[i];
      assert groups[i..][0] == g && groups[i..][1..] == groups[i + 1..];
      if CanBeDictionary(g.keys) {
        var matchedDict: Option<string> := None;
        var d := 0;
        while d < |setting.dictionaries| && matchedDict.None?
          invariant 0 <= d <= |setting.dictionaries|
          invariant MatchedDict(setting.dictionaries, g.keys) ==
                      if matchedDict.Some? then matchedDict else MatchedDict(setting.dictionaries[d..], g.keys)
          decreases |setting.dictionaries| - d, matchedDict.None?
        {
          if Touches(g.keys, setting.dictionaries[d].1) {
            matchedDict := Some(setting.dictionaries[d].0);
          } else {
            d := d + 1;
          }
        }
        if matchedDict.Some? {
          if IsWholePattern(value, g.text) {
            return Replaced(matchedDict.value);
          } else {
            return Partial(matchedDict.value);
          }
        }
      }
    }
    return Keep;
  }

  // ---- The script on a rule ----

  /** What the script makes of a rule. */
  function Scripted(setting: Setting, ps: seq<Pattern>): seq<Pattern> {
    Migrated(PlannerOf(setting), ps)
  }

  /** Running the script twice keeps the set of patterns and adds one reference for
      every regex it migrates partially; on a rule it is idempotent exactly when
      there is none. */
  lemma ScriptTwice(setting: Setting, ps: seq<Pattern>)
    ensures var once, twice := Scripted(setting, ps), Scripted(setting, Scripted(setting, ps));
            && (forall q :: q in twice <==> q in once)
            && |twice| == |once| + PartialCount(PlannerOf(setting), ps)
            && (twice == once <==> forall p :: p in ps ==> !PlanOf(setting, p).Partial?)
  {
    SecondRun(PlannerOf(setting), ps);
    IdempotentIff(PlannerOf(setting), ps);
  }

  /** A group of plain words, one of whose first three some dictionary has. */
  predicate Usable(setting: Setting, g: KeyGroup) {
    CanBeDictionary(g.keys) && MatchedDict(setting.dictionaries, g.keys).Some?
  }

  /** Group `k` is the first usable one. */
  ghost predicate Decides(setting: Setting, groups: seq<KeyGroup>, k: nat) {
    k < |groups| && Usable(setting, groups[k]) && forall j :: 0 <= j < k ==> !Usable(setting, groups[j])
  }

  /** A regex is left alone exactly when it has no usable group; otherwise the first
      one decides: it is replaced if the group is all of it, else joined by a reference. */
  lemma {:induction false} PlanMeans(setting: Setting, value: string, groups: seq<KeyGroup>)
    requires forall g :: g in groups ==> g.text != ""
    ensures PlanFor(setting, value, groups) == Keep <==> forall k :: 0 <= k < |groups| ==> !Usable(setting, groups[k])
    ensures forall k: nat :: Decides(setting, groups, k) ==>
              PlanFor(setting, value, groups) ==
                var code := MatchedDict(setting.dictionaries, groups[k].keys).value;
                if IsWholePattern(value, groups[k].text) then Replaced(code) else Partial(code)
  {
    if groups != [] && !Usable(setting, groups[0]) {
      var rest := groups[1..];
      PlanMeans(setting, value, rest);
      assert forall k :: 0 <= k < |rest| ==> rest[k] == groups[k + 1];
      forall k: nat | Decides(setting, groups, k) ensures k > 0 && Decides(setting, rest, k - 1) {
        assert forall j :: 0 <= j < k - 1 ==> rest[j] == groups[j + 1];
      }
      if forall k :: 0 <= k < |rest| ==> !Usable(setting, rest[k]) {
        forall k | 0 <= k < |groups| ensures !Usable(setting, groups[k]) {
          assert k > 0 ==> groups[k] == rest[k - 1];
        }
      }
    }
  }

  function GroupsOf(p: Pattern, setting: Setting): seq<KeyGroup> {
    KeyGroups(setting, p.value.GetOr(""))
  }

  /** The reference that replaces a whole regex matches, in engine and scanner, all that
      the words of the deciding group match, exactly when the dictionary has all of
      them; the script has asked for one. */
  lemma WholeReplacementKeepsWordsIff(setting: Setting, known: set<string>, p: Pattern, dm: DictMap, k: nat)
    ensures PlanOf(setting, p).Replaced? && Decides(setting, GroupsOf(p, setting), k) ==>
              var words := GroupsOf(p, setting)[k].keys;
              var ref := Reference(MatchedDict(setting.dictionaries, words).value, p.confidence.GetOr(0.4));
              && Scripted(setting, [p]) == [ref]
              && (Covers(IoPattern(known), ref, dm, words) <==> forall w :: w in words ==> w in EntriesOf(ref, dm))
              && (Covers(ScannerPattern(), ref, dm, words) <==> forall w :: w in words ==> w in EntriesOf(ref, dm))
  {
    if PlanOf(setting, p).Replaced? && Decides(setting, GroupsOf(p, setting), k) {
      var words := GroupsOf(p, setting)[k].keys;
      FlatMapSingle(Migrator(PlannerOf(setting)), p);
      GroupsHaveText(setting, p.value.GetOr(""));
      PlanMeans(setting, p.value.GetOr(""), GroupsOf(p, setting));
      BothKeepKeywords(known);
      var ref := Reference(MatchedDict(setting.dictionaries, words).value, p.confidence.GetOr(0.4));
      CoversIff(IoPattern(known), ref, dm, words);
      CoversIff(ScannerPattern(), ref, dm, words);
    }
  }

  // ---- Regexes of two words ----

  /** A word as in the script's lists: no space, no metacharacter, not a digit in front. */
  predicate IsWord(setting: Setting, w: string) {
    |w| > 1 && !setting.isDigit(w[0]) && forall i :: 0 <= i < |w| ==> !IsMeta(w[i]) && !IsSpace(w[i])
  }

  function Either(a: string, b: string): string {
    "(?:" + a + "|" + b + ")"
  }

  lemma {:induction false} SplitOne(s: string, sep: char)
    requires sep !in s
    ensures Split(s, sep) == [s]
  {
    if s != "" {
      SplitOne(s[1..], sep);
      assert [s[0]] + s[1..] == s;
    }
  }

  lemma {:induction false} SplitTwo(a: string, b: string, sep: char)
    requires sep !in a && sep !in b
    ensures Split(a + [sep] + b, sep) == [a, b]
  {
    var s := a + [sep] + b;
    if a == "" {
      SplitOne(b, sep);
      assert s[1..] == b;
    } else {
      SplitTwo(a[1..], b, sep);
      assert s[1..] == a[1..] + [sep] + b;
      assert [a[0]] + a[1..] == a;
    }
  }

  lemma {:induction false} NoMetaIsPlain(s: string)
    requires NoMeta(s)
    ensures PlainWord(s)
  {
    if s != "" {
      NoMetaIsPlain(s[1..]);
    }
  }

  lemma WordPasses(setting: Setting, w: string)
    requires IsWord(setting, w)
    ensures Strip(w) == w && !Numeric(setting, w) && '|' !in w && PlainWord(w)
  {
    assert !IsMeta(w[0]);
    NoMetaIsPlain(w);
  }

  lemma TwoWordKeys(setting: Setting, a: string, b: string)
    requires IsWord(setting, a) && IsWord(setting, b)
    ensures Keys(setting, a + "|" + b) == [a, b] && CanBeDictionary([a, b])
  {
    WordPasses(setting, a);
    WordPasses(setting, b);
    SplitTwo(a, b, '|');
    assert Stripped([a, b]) == [a, b] by {
      assert [a, b][1..] == [b] && [b][1..] == [];
      assert Stripped([b]) == [b];
    }
    FilterAll(w => |w| > 1 && !Numeric(setting, w), [a, b]);
    CanBeDictionaryIff([a, b]);
  }

  lemma {:induction false} NoGroups(s: string, from: nat)
    requires forall k :: from <= k < |s| ==> s[k] != '('
    ensures Groups(s, from) == []
    decreases |s| - from
  {
    if from < |s| {
      assert GroupEnd(s, from).None? by {
        if from + 3 <= |s| {
          assert s[from..from + 3][0] == s[from];
        }
      }
      NoGroups(s, from + 1);
    }
  }

  lemma MiddleHasNoParen(setting: Setting, a: string, b: string)
    requires IsWord(setting, a) && IsWord(setting, b)
    ensures forall k :: 0 <= k < |a + "|" + b| ==> !IsParen((a + "|" + b)[k])
  {
    forall k | 0 <= k < |a + "|" + b| ensures !IsParen((a + "|" + b)[k]) {
      if k < |a| {
        assert !IsMeta(a[k]);
      } else if k > |a| {
        assert !IsMeta(b[k - |a| - 1]);
      }
    }
  }

  lemma TwoWordMatch(setting: Setting, a: string, b: string, tail: string)
    requires IsWord(setting, a) && IsWord(setting, b) && '(' !in tail
    ensures var s, end := Either(a, b) + tail, |Either(a, b)|;
            && Groups(s, 0) == [(0, end)]
            && s[..end] == Either(a, b) && s[3..end - 1] == a + "|" + b
  {
    var s, end := Either(a, b) + tail, |Either(a, b)|;
    assert s == "(?:" + ((a + "|" + b) + (")" + tail));
    assert s[0..3] == "(?:";
    assert s[3..end - 1] == a + "|" + b;
    assert s[end - 1] == ')';
    MiddleHasNoParen(setting, a, b);
    forall k | 3 <= k < end - 1 ensures !IsParen(s[k]) {
      assert s[k] == (a + "|" + b)[k - 3];
    }
    RunIs(s, 3, end - 4);
    assert GroupEnd(s, 0) == Some(end);
    forall k | end <= k < |s| ensures s[k] != '(' {
      assert s[k] == tail[k - end];
    }
    NoGroups(s, end);
    assert Groups(s, 0) == [(0, end)] + Groups(s, end);
  }

  lemma TwoWordGroups(setting: Setting, a: string, b: string, tail: string)
    requires IsWord(setting, a) && IsWord(setting, b) && '(' !in tail
    ensures KeyGroups(setting, Either(a, b) + tail) == [KeyGroup(Either(a, b), [a, b], 0, |Either(a, b)|)]
  {
    var s, end, middle := Either(a, b) + tail, |Either(a, b)|, a + "|" + b;
    assert Keys(setting, middle) == [a, b] by {
      TwoWordKeys(setting, a, b);
    }
    assert Groups(s, 0) == [(0, end)] && s[..end] == Either(a, b) && s[3..end - 1] == middle by {
      TwoWordMatch(setting, a, b, tail);
    }
    OneGroup(setting, s, end);
  }

  /** One match with at least two word-like alternatives is reported as it is. */
  lemma OneGroup(setting: Setting, s: string, end: nat)
    requires 4 < end <= |s| && Groups(s, 0) == [(0, end)] && |Keys(setting, s[3..end - 1])| >= 2
    ensures KeyGroups(setting, s) == [KeyGroup(s[..end], Keys(setting, s[3..end - 1]), 0, end)]
  {
    FilterMapSingle(Selector(setting, s), (0, end));
    assert s[0..end] == s[..end];
  }

  lemma {:induction false} ReplaceNothing(s: string, old_: string)
    requires old_ != "" && old_[0] !in s
    ensures Replace(s, old_, "") == s
  {
    if s != "" {
      ReplaceNothing(s[1..], old_);
      assert [s[0]] + s[1..] == s;
    }
  }

  lemma WholeIffNoTail(a: string, b: string, tail: string)
    requires '(' !in tail && '\\' !in tail && forall i :: 0 <= i < |tail| ==> !IsSpace(tail[i])
    ensures IsWholePattern(Either(a, b) + tail, Either(a, b)) <==> tail == ""
  {
    var g := Either(a, b);
    assert g[0] == '(';
    ReplaceHit(tail, g, "");
    ReplaceNothing(tail, g);
    assert "" + tail == tail;
    assert "\\b"[0] == '\\';
    ReplaceNothing(tail, "\\b");
    assert Strip(tail) == tail;
  }

  lemma {:induction false} ReplaceBehind(pre: string, old_: string, s: string)
    requires old_ != "" && old_[0] !in pre
    ensures Replace(pre + s, old_, "") == pre + Replace(s, old_, "")
  {
    if pre == "" {
      assert pre + s == s;
    } else {
      assert (pre + s)[0] == pre[0] && (pre + s)[1..] == pre[1..] + s;
      ReplaceBehind(pre[1..], old_, s);
    }
  }

  lemma GroupGone(pre: string, g: string, post: string)
    requires g != "" && g[0] !in pre && g[0] !in post
    ensures Replace(pre + g + post, g, "") == pre + post
  {
    assert pre + g + post == pre + (g + post);
    ReplaceBehind(pre, g, g + post);
    ReplaceHit(post, g, "");
    ReplaceNothing(post, g);
    assert "" + post == post;
  }

  lemma MarksGone(mark: string)
    requires mark == "\\b"
    ensures Replace(" " + mark + mark, mark, "") == " "
  {
    assert " " + mark + mark == " " + (mark + (mark + ""));
    ReplaceBehind(" ", mark, mark + (mark + ""));
    ReplaceHit(mark + "", mark, "");
    ReplaceHit("", mark, "");
  }

  /** Word boundaries and white space around the group do not count. */
  lemma WholeWithBoundaries(a: string, b: string, mark: string)
    requires mark == "\\b"
    ensures IsWholePattern(" " + mark + Either(a, b) + mark, Either(a, b))
  {
    GroupGone(" " + mark, Either(a, b), mark);
    MarksGone(mark);
    StripMeans(" ", "", "");
    assert " " + "" + "" == " ";
  }

  /** A regex that starts with an alternative of two words, the first of which the first
      dictionary has, becomes a reference to that dictionary or is joined by one. */
  lemma TwoWordPlan(setting: Setting, a: string, b: string, tail: string)
    requires IsWord(setting, a) && IsWord(setting, b)
    requires '(' !in tail && '\\' !in tail && forall i :: 0 <= i < |tail| ==> !IsSpace(tail[i])
    requires setting.dictionaries != [] && a in setting.dictionaries[0].1
    ensures var p := Pattern(Some("regex"), Some(Either(a, b) + tail), None, None);
            var code := setting.dictionaries[0].0;
            && Decides(setting, GroupsOf(p, setting), 0) && GroupsOf(p, setting)[0].keys == [a, b]
            && PlanOf(setting, p) == if tail == "" then Replaced(code) else Partial(code)
  {
    var p := Pattern(Some("regex"), Some(Either(a, b) + tail), None, None);
    TwoWordGroups(setting, a, b, tail);
    TwoWordKeys(setting, a, b);
    WholeIffNoTail(a, b, tail);
    GroupsHaveText(setting, Either(a, b) + tail);
    assert Touches([a, b], setting.dictionaries[0].1) by {
      assert [a, b][0] == a;
    }
    assert Decides(setting, GroupsOf(p, setting), 0);
    PlanMeans(setting, Either(a, b) + tail, GroupsOf(p, setting));
  }

  /** The script's list begins with the dictionary of health words, which has
      "diagnosis" and not "prognosis". */
  predicate ScriptList(setting: Setting) {
    && !setting.isDigit('d') && !setting.isDigit('p')
    && setting.dictionaries != [] && setting.dictionaries[0].0 == "gdpr_health"
    && "diagnosis" in setting.dictionaries[0].1 && "prognosis" !in setting.dictionaries[0].1
  }

  const WHOLE: Pattern := Pattern(Some("regex"), Some("(?:diagnosis|prognosis)"), None, None)
  const PART: Pattern := Pattern(Some("regex"), Some("(?:diagnosis|prognosis)x"), None, None)

  lemma LettersMakeAWord(setting: Setting, w: string)
    requires |w| > 1 && !setting.isDigit(w[0]) && forall i :: 0 <= i < |w| ==> 'a' <= w[i] <= 'z'
    ensures IsWord(setting, w)
  {
  }

  lemma HealthWords(setting: Setting)
    requires ScriptList(setting)
    ensures IsWord(setting, "diagnosis") && IsWord(setting, "prognosis")
    ensures Either("diagnosis", "prognosis") == "(?:diagnosis|prognosis)"
  {
    LettersMakeAWord(setting, "diagnosis");
    LettersMakeAWord(setting, "prognosis");
  }

  lemma HealthPlans(setting: Setting)
    requires ScriptList(setting)
    ensures PlanOf(setting, WHOLE) == Replaced("gdpr_health") && PlanOf(setting, PART) == Partial("gdpr_health")
    ensures Decides(setting, GroupsOf(WHOLE, setting), 0)
    ensures GroupsOf(WHOLE, setting)[0].keys == ["diagnosis", "prognosis"]
  {
    var g := "(?:diagnosis|prognosis)";
    HealthWords(setting);
    assert g + "" == g && g + "x" == "(?:diagnosis|prognosis)x";
    TwoWordPlan(setting, "diagnosis", "prognosis", "");
    TwoWordPlan(setting, "diagnosis", "prognosis", "x");
  }

  lemma OnlyReplaced(conv: Converter, plan: Planner, p: Pattern)
    requires RegexOnly(plan) && plan(p).Replaced?
    ensures !KeepsMatches(conv, plan, [p])
  {
    MigrationKeepsMatchesIff(conv, plan, [p]);
    assert p in [p];
  }

  /** The first becomes a reference and loses the word that the dictionary lacks. */
  lemma LostWordExample(setting: Setting, known: set<string>)
    requires ScriptList(setting)
    ensures PlanOf(setting, WHOLE) == Replaced("gdpr_health")
    ensures !Covers(IoPattern(known), Reference("gdpr_health", 0.4), map["gdpr_health" := setting.dictionaries[0].1],
                    ["diagnosis", "prognosis"])
    ensures !KeepsMatches(IoPattern(known), PlannerOf(setting), [WHOLE])
  {
    var words := ["diagnosis", "prognosis"];
    HealthPlans(setting);
    assert words[1] in words;
    BothKeepKeywords(known);
    CoversIff(IoPattern(known), Reference("gdpr_health", 0.4), map["gdpr_health" := setting.dictionaries[0].1], words);
    OnlyReplaced(IoPattern(known), PlannerOf(setting), WHOLE);
  }

  /** The second is joined by a reference at every run. */
  lemma PartialTwiceExample(setting: Setting)
    requires ScriptList(setting)
    ensures PlanOf(setting, PART) == Partial("gdpr_health")
    ensures Scripted(setting, Scripted(setting, [PART])) != Scripted(setting, [PART])
  {
    HealthPlans(setting);
    ScriptTwice(setting, [PART]);
    assert PART in [PART];
  }
}
