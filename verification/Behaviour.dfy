/** Daily per-user behaviour counters and the anomaly score, over exact rationals. */
module Behaviour {
  import opened Common

  /** One detection result, as far as the counters are concerned. */
  datatype Event = Event(userId: Option<string>, day: int, blocked: bool, warned: bool, ruleIds: seq<string>)

  /** One row of the behaviour table. */
  datatype Row = Row(total: nat, blocked: nat, warned: nat, triggers: map<string, nat>, score: int)

  const NEW_ROW := Row(0, 0, 0, map[], 0)

  function Times(triggers: map<string, nat>, rid: string): nat {
    if rid in triggers then triggers[rid] else 0
  }

  function Count(triggers: map<string, nat>, ruleIds: seq<string>): map<string, nat> {
    if ruleIds == [] then triggers
    else
      var front, rid := Count(triggers, ruleIds[..|ruleIds| - 1]), ruleIds[|ruleIds| - 1];
      front[rid := Times(front, rid) + 1]
  }

  function MinReal(a: real, b: real): real { if a < b then a else b }

  function MinInt(a: int, b: int): int { if a < b then a else b }

  /** Block rate, trigger diversity and volume, before rounding and capping. */
  function RawScore(total: nat, blocked: nat, distinct: nat): real
    requires total > 0
  {
    (blocked as real / total as real) * 50.0 + MinInt(distinct * 10, 30) as real
    + MinReal(total as real / 100.0, 20.0)
  }

  function Score(total: nat, blocked: nat, distinct: nat): int
    requires total > 0
  {
    MinInt(RawScore(total, blocked, distinct).Floor, 100)
  }

  function Absorb(row: Row, e: Event): Row {
    var total := row.total + 1;
    var blocked := row.blocked + if e.blocked then 1 else 0;
    var triggers := Count(row.triggers, e.ruleIds);
    Row(total, blocked, row.warned + if e.warned then 1 else 0, triggers, Score(total, blocked, |triggers|))
  }

  type Key = (string, int)

  datatype Tables = Tables(users: seq<string>, rows: map<Key, Row>)

  function Updated(t: Tables, e: Event): Tables {
    if e.userId.None? || e.userId.value == "" then t
    else
      var user, key := e.userId.value, (e.userId.value, e.day);
      Tables(
        if user in t.users then t.users else t.users + [user],
        t.rows[key := Absorb(if key in t.rows then t.rows[key] else NEW_ROW, e)])
  }

  /** The users and behaviour tables and the method that updates them. */
  class BehaviourStore {
    var users: seq<string>
    var rows: map<Key, Row>

    constructor ()
      ensures Tables(users, rows) == Tables([], map[])
    {
      users := [];
      rows := map[];
    }

    method UpdateUserBehavior(e: Event)
      modifies this
      ensures Tables(users, rows) == Updated(old(Tables(users, rows)), e)
    {
      if e.userId.None? || e.userId.value == "" {
        return;
      }
      var user := e.userId.value;
      if user !in users {
        users := users + [user];
      }
      var key := (user, e.day);
      var row := AbsorbEvent(if key in rows then rows[key] else NEW_ROW, e);
      rows := rows[key := row];
    }
  }

  method AbsorbEvent(row: Row, e: Event) returns (next: Row)
    ensures next == Absorb(row, e)
  {
    var total := row.total + 1;
    var blocked, warned := row.blocked, row.warned;
    if e.blocked {
      blocked := blocked + 1;
    }
    if e.warned {
      warned := warned + 1;
    }
    var triggers := CountTriggers(row.triggers, e.ruleIds);
    var score := AnomalyScore(total, blocked, |triggers|);
    next := Row(total, blocked, warned, triggers, score);
  }

  method CountTriggers(before: map<string, nat>, ruleIds: seq<string>) returns (triggers: map<string, nat>)
    ensures triggers == Count(before, ruleIds)
  {
    triggers := before;
    for i := 0 to |ruleIds|
      invariant triggers == Count(before, ruleIds[..i])
    {
      assert ruleIds[..i + 1][..i] == ruleIds[..i];
      triggers := triggers[ruleIds[i] := Times(triggers, ruleIds[i]) + 1];
    }
    assert ruleIds[..|ruleIds|] == ruleIds;
  }

  method AnomalyScore(total: nat, blocked: nat, distinct: nat) returns (score: int)
    requires total > 0
    ensures score == Score(total, blocked, distinct)
  {
    var blockRateScore := (blocked as real / total as real) * 50.0;
    var diversityScore := MinInt(distinct * 10, 30);
    var volumePenalty := MinReal(total as real / 100.0, 20.0);
    score := MinInt((blockRateScore + diversityScore as real + volumePenalty).Floor, 100);
  }

  // ---- One row is a fold of its own events ----

  /** The row after the events of one user and day. */
  function Day(es: seq<Event>): Row {
    if es == [] then NEW_ROW else Absorb(Day(es[..|es| - 1]), es[|es| - 1])
  }

  function After(es: seq<Event>): Tables {
    if es == [] then Tables([], map[]) else Updated(After(es[..|es| - 1]), es[|es| - 1])
  }

  predicate Concerns(key: Key, e: Event) {
    key.0 != "" && e.userId == Some(key.0) && e.day == key.1
  }

  /** The events of one user and day, in order. */
  function Of(key: Key, es: seq<Event>): seq<Event> {
    if es == [] then []
    else
      var front, e := Of(key, es[..|es| - 1]), es[|es| - 1];
      if Concerns(key, e) then front + [e] else front
  }

  /** The row of a user and day depends on that user's events of that day only,
      and exists exactly when there are any. */
  lemma {:induction false} RowIsFoldOfOwnEvents(es: seq<Event>, key: Key)
    ensures key in After(es).rows <==> Of(key, es) != []
    ensures key in After(es).rows ==> After(es).rows[key] == Day(Of(key, es))
  {
    if es != [] {
      var front, e := es[..|es| - 1], es[|es| - 1];
      RowIsFoldOfOwnEvents(front, key);
      if Concerns(key, e) {
        assert (Of(key, front) + [e])[..|Of(key, front)|] == Of(key, front);
      }
    }
  }

  /** The users table never holds a name twice, and holds everyone who has a row. */
  lemma {:induction false} UsersAreUnique(es: seq<Event>)
    ensures forall i, j :: 0 <= i < j < |After(es).users| ==> After(es).users[i] != After(es).users[j]
    ensures forall key :: key in After(es).rows ==> key.0 in After(es).users
  {
    if es != [] {
      UsersAreUnique(es[..|es| - 1]);
    }
  }

  // ---- What the counters count ----

  function Blocked(e: Event): int { if e.blocked then 1 else 0 }
  function Warned(e: Event): int { if e.warned then 1 else 0 }
  function RuleCount(e: Event): int { |e.ruleIds| }

  /** All rule ids of the events, with multiplicity. */
  function Seen(es: seq<Event>): multiset<string> {
    if es == [] then multiset{} else Seen(es[..|es| - 1]) + multiset(es[|es| - 1].ruleIds)
  }

  /** The trigger map records a multiset of rule ids. */
  ghost predicate Records(triggers: map<string, nat>, seen: multiset<string>) {
    forall rid :: (rid in triggers <==> rid in seen) && Times(triggers, rid) == seen[rid]
  }

  lemma {:induction false} CountRecords(triggers: map<string, nat>, seen: multiset<string>, ids: seq<string>)
    requires Records(triggers, seen)
    ensures Records(Count(triggers, ids), seen + multiset(ids))
  {
    if ids == [] {
      assert seen + multiset(ids) == seen;
    } else {
      var front := ids[..|ids| - 1];
      CountRecords(triggers, seen, front);
      assert ids == front + [ids[|ids| - 1]];
      assert multiset(ids) == multiset(front) + multiset{ids[|ids| - 1]};
    }
  }

  lemma SumSnoc(f: Event -> int, es: seq<Event>)
    requires es != []
    ensures Sum(f, es) == Sum(f, es[..|es| - 1]) + f(es[|es| - 1])
  {
    var e := es[|es| - 1];
    assert es == es[..|es| - 1] + [e];
    SumAppend(f, es[..|es| - 1], [e]);
    assert [e][1..] == [];
  }

  /** Every counter of a row, in terms of the events it has absorbed. The trigger
      counts are exactly the multiset of rule ids seen, so they sum to their number. */
  lemma {:induction false} CountersCount(es: seq<Event>)
    ensures Day(es).total == |es|
    ensures Day(es).blocked == Sum(Blocked, es) <= |es|
    ensures Day(es).warned == Sum(Warned, es) <= |es|
    ensures Records(Day(es).triggers, Seen(es)) && |Seen(es)| == Sum(RuleCount, es)
  {
    if es != [] {
      CountersCount(es[..|es| - 1]);
      SumSnoc(Blocked, es);
      SumSnoc(Warned, es);
      SumSnoc(RuleCount, es);
      CountRecords(Day(es[..|es| - 1]).triggers, Seen(es[..|es| - 1]), es[|es| - 1].ruleIds);
    }
  }

  lemma ScoreIsCurrent(es: seq<Event>)
    requires es != []
    ensures Day(es).total > 0
    ensures Day(es).score == Score(Day(es).total, Day(es).blocked, |Day(es).triggers|)
  {
  }

  function Multiplicity(rid: string): Event -> int {
    (e: Event) => multiset(e.ruleIds)[rid]
  }

  lemma {:induction false} SeenIsSum(es: seq<Event>, rid: string)
    ensures Seen(es)[rid] == Sum(Multiplicity(rid), es)
  {
    if es != [] {
      SeenIsSum(es[..|es| - 1], rid);
      SumSnoc(Multiplicity(rid), es);
    }
  }

  lemma SameRecords(a: map<string, nat>, b: map<string, nat>, seen: multiset<string>)
    requires Records(a, seen) && Records(b, seen)
    ensures a == b
  {
    forall rid | rid in a ensures rid in b && a[rid] == b[rid] {
      assert Times(a, rid) == seen[rid] == Times(b, rid);
    }
    assert a.Keys == b.Keys;
  }

  /** The order of a day's events does not matter: counters, triggers and score
      are the same for every permutation. */
  lemma OrderDoesNotMatter(es: seq<Event>, fs: seq<Event>)
    requires multiset(es) == multiset(fs)
    ensures Day(es) == Day(fs)
  {
    assert |es| == |multiset(es)| == |multiset(fs)| == |fs|;
    CountersCount(es);
    CountersCount(fs);
    SumPermutation(Blocked, es, fs);
    SumPermutation(Warned, es, fs);
    forall rid ensures Seen(es)[rid] == Seen(fs)[rid] {
      SeenIsSum(es, rid);
      SeenIsSum(fs, rid);
      SumPermutation(Multiplicity(rid), es, fs);
    }
    assert Seen(es) == Seen(fs);
    SameRecords(Day(es).triggers, Day(fs).triggers, Seen(es));
    if es != [] {
      ScoreIsCurrent(es);
      ScoreIsCurrent(fs);
    }
  }

  lemma {:induction false} OfCounts(key: Key, es: seq<Event>, e: Event)
    ensures multiset(Of(key, es))[e] == if Concerns(key, e) then multiset(es)[e] else 0
  {
    if es != [] {
      var front, last := es[..|es| - 1], es[|es| - 1];
      OfCounts(key, front, e);
      assert es == front + [last];
    }
  }

  /** A name is in the users table exactly when there was an event of that user. */
  lemma {:induction false} UsersAreThoseSeen(es: seq<Event>, user: string)
    ensures user in After(es).users <==> user != "" && exists e :: e in es && e.userId == Some(user)
  {
    if es != [] {
      var front, last := es[..|es| - 1], es[|es| - 1];
      UsersAreThoseSeen(front, user);
      assert es == front + [last];
    }
  }

  /** Nor does the order of the events of all users and days: every row is the same,
      and so are the names in the users table. */
  lemma EventsInAnyOrder(es: seq<Event>, fs: seq<Event>)
    requires multiset(es) == multiset(fs)
    ensures After(es).rows == After(fs).rows
    ensures forall user :: user in After(es).users <==> user in After(fs).users
  {
    forall key: Key ensures key in After(es).rows <==> key in After(fs).rows
    ensures key in After(es).rows ==> After(es).rows[key] == After(fs).rows[key]
    {
      SameOwnEvents(key, es, fs);
      RowIsFoldOfOwnEvents(es, key);
      RowIsFoldOfOwnEvents(fs, key);
      OrderDoesNotMatter(Of(key, es), Of(key, fs));
    }
    forall user ensures user in After(es).users <==> user in After(fs).users {
      UsersAreThoseSeen(es, user);
      UsersAreThoseSeen(fs, user);
      assert forall e :: e in es <==> e in multiset(es);
      assert forall e :: e in fs <==> e in multiset(fs);
    }
  }

  lemma SameOwnEvents(key: Key, es: seq<Event>, fs: seq<Event>)
    requires multiset(es) == multiset(fs)
    ensures multiset(Of(key, es)) == multiset(Of(key, fs))
    ensures Of(key, es) == [] <==> Of(key, fs) == []
  {
    forall e ensures multiset(Of(key, es))[e] == multiset(Of(key, fs))[e] {
      OfCounts(key, es, e);
      OfCounts(key, fs, e);
    }
    assert multiset(Of(key, es)) == multiset(Of(key, fs));
    assert |Of(key, es)| == |multiset(Of(key, es))| == |multiset(Of(key, fs))| == |Of(key, fs)|;
  }

  // ---- The score ----

  lemma RateBounds(blocked: nat, total: nat)
    requires blocked <= total && total > 0
    ensures 0.0 <= blocked as real / total as real <= 1.0
    ensures blocked as real / total as real == 1.0 <==> blocked == total
  {
    var b, t := blocked as real, total as real;
    assert (b / t) * t == b;
  }

  /** The score lies in 0..100 before capping, so the cap never acts. */
  lemma ScoreBounds(total: nat, blocked: nat, distinct: nat)
    requires blocked <= total && total > 0
    ensures 0 <= RawScore(total, blocked, distinct).Floor <= 100
    ensures Score(total, blocked, distinct) == RawScore(total, blocked, distinct).Floor
  {
    RateBounds(blocked, total);
  }

  /** The score in whole numbers: it reaches `n` exactly when fifty points times the
      share of blocked requests, ten points for each of at most three rules, and a
      point for every hundred of at most 2000 requests together do. */
  lemma ScoreReachesIff(total: nat, blocked: nat, distinct: nat, n: nat)
    requires blocked <= total && total > 0
    ensures Score(total, blocked, distinct) >= n <==>
              5000 * blocked + 1000 * total * (if distinct < 3 then distinct else 3)
                + total * (if total < 2000 then total else 2000) >= 100 * total * n
  {
    ScoreBounds(total, blocked, distinct);
    RawScoreIs(total, blocked, distinct);
    FloorReaches(total, blocked, if distinct < 3 then distinct else 3, if total < 2000 then total else 2000, n,
                 RawScore(total, blocked, distinct));
  }

  lemma FloorReaches(total: nat, blocked: nat, d: nat, v: nat, n: nat, raw: real)
    requires total > 0
    requires raw == (blocked as real / total as real) * 50.0 + (10 * d) as real + v as real / 100.0
    ensures raw.Floor >= n <==> 5000 * blocked + 1000 * total * d + total * v >= 100 * total * n
  {
    var b, t := blocked as real, total as real;
    ShareOf(b, t);
    ScaledScore(b / t, t, b, d, v, n, raw);
    InWholeNumbers(total, blocked, d, v, n);
  }

  lemma ShareOf(b: real, t: real)
    requires t > 0.0
    ensures (b / t) * t == b
  {
  }

  lemma RawScoreIs(total: nat, blocked: nat, distinct: nat)
    requires total > 0
    ensures RawScore(total, blocked, distinct) ==
              (blocked as real / total as real) * 50.0 + (10 * (if distinct < 3 then distinct else 3)) as real
              + (if total < 2000 then total else 2000) as real / 100.0
  {
  }

  lemma Product(a: nat, b: nat)
    ensures (a * b) as real == a as real * b as real
  {
  }

  lemma InWholeNumbers(total: nat, blocked: nat, d: nat, v: nat, n: nat)
    ensures 5000.0 * blocked as real + 1000.0 * total as real * d as real + total as real * v as real
              >= 100.0 * total as real * n as real <==>
            5000 * blocked + 1000 * total * d + total * v >= 100 * total * n
  {
    Product(1000 * total, d);
    Product(total, v);
    Product(100 * total, n);
    assert (5000 * blocked + 1000 * total * d + total * v) as real
        == 5000.0 * blocked as real + (1000 * total * d) as real + (total * v) as real;
  }

  lemma ScaledScore(rate: real, t: real, b: real, d: nat, v: nat, n: nat, raw: real)
    requires t > 0.0 && rate * t == b && raw == rate * 50.0 + (10 * d) as real + v as real / 100.0
    ensures raw.Floor >= n <==> 5000.0 * b + 1000.0 * t * d as real + t * v as real >= 100.0 * t * n as real
  {
    assert 100.0 * t * raw == 5000.0 * b + 1000.0 * t * d as real + t * v as real by {
      assert 100.0 * t * (rate * 50.0) == 5000.0 * (rate * t);
      assert 100.0 * t * (10 * d) as real == 1000.0 * t * d as real;
      assert 100.0 * t * (v as real / 100.0) == t * v as real;
    }
    assert raw.Floor >= n <==> raw >= n as real;
    assert raw >= n as real ==> 100.0 * t * raw >= 100.0 * t * n as real;
    assert raw < n as real ==> 100.0 * t * raw < 100.0 * t * n as real;
  }

  /** The maximum is reached exactly when everything was blocked, at least three
      rules triggered and there were at least 2000 requests. */
  lemma ScoreIsMaximalIff(total: nat, blocked: nat, distinct: nat)
    requires blocked <= total && total > 0
    ensures Score(total, blocked, distinct) == 100 <==> blocked == total && distinct >= 3 && total >= 2000
  {
    RateBounds(blocked, total);
    ScoreBounds(total, blocked, distinct);
    var rate := blocked as real / total as real;
    assert RawScore(total, blocked, distinct)
        == rate * 50.0 + MinInt(distinct * 10, 30) as real + MinReal(total as real / 100.0, 20.0);
  }

  lemma RateGrows(blocked: nat, total: nat)
    requires blocked <= total && total > 0
    ensures blocked as real / total as real <= (blocked + 1) as real / (total + 1) as real
  {
    var b, t := blocked as real, total as real;
    var r := b / t;
    RateBounds(blocked, total);
    assert r * t == b;
    assert r * (t + 1.0) == b + r <= b + 1.0;
    var q := (b + 1.0) / (t + 1.0);
    assert q * (t + 1.0) == b + 1.0;
    assert (q - r) * (t + 1.0) >= 0.0;
  }

  lemma BlockRaisesScore(total: nat, blocked: nat, distinct: nat, distinct': nat)
    requires blocked <= total && total > 0 && distinct <= distinct'
    ensures Score(total, blocked, distinct) <= Score(total + 1, blocked + 1, distinct')
  {
    RateGrows(blocked, total);
    ScoreBounds(total, blocked, distinct);
    ScoreBounds(total + 1, blocked + 1, distinct');
    assert RawScore(total, blocked, distinct) <= RawScore(total + 1, blocked + 1, distinct');
  }

  lemma {:induction false} CountKeepsKeys(triggers: map<string, nat>, ids: seq<string>)
    ensures triggers.Keys <= Count(triggers, ids).Keys
  {
    if ids != [] {
      CountKeepsKeys(triggers, ids[..|ids| - 1]);
    }
  }

  lemma SubsetSize<T>(a: set<T>, b: set<T>)
    requires a <= b
    ensures |a| <= |b|
  {
    assert b == a + (b - a);
  }

  lemma DayScore(es: seq<Event>)
    requires es != []
    ensures var row := Day(es);
            && row.blocked <= row.total == |es|
            && row.score == Score(row.total, row.blocked, |row.triggers|)
            && 0 <= row.score <= 100
  {
    CountersCount(es);
    ScoreIsCurrent(es);
    ScoreBounds(Day(es).total, Day(es).blocked, |Day(es).triggers|);
  }

  lemma TriggersGrow(row: Row, e: Event)
    ensures |row.triggers| <= |Absorb(row, e).triggers|
  {
    CountKeepsKeys(row.triggers, e.ruleIds);
    SubsetSize(row.triggers.Keys, Absorb(row, e).triggers.Keys);
    assert |row.triggers| == |row.triggers.Keys| && |Absorb(row, e).triggers| == |Absorb(row, e).triggers.Keys|;
  }

  /** A blocked request never lowers the score of the day. */
  lemma BlockNeverLowersScore(es: seq<Event>, e: Event)
    requires e.blocked
    ensures 0 <= Day(es).score <= Day(es + [e]).score <= 100
  {
    assert (es + [e])[..|es|] == es;
    DayScore(es + [e]);
    if es != [] {
      var row := Day(es);
      DayScore(es);
      TriggersGrow(row, e);
      BlockRaisesScore(row.total, row.blocked, |row.triggers|, |Day(es + [e]).triggers|);
    }
  }

  /** So in the table: a blocked request never lowers the score in the row of its user
      and day, and leaves all other rows alone. */
  lemma BlockedEventNeverLowersScore(es: seq<Event>, e: Event, key: Key)
    requires e.blocked && Concerns(key, e)
    ensures var before, after := After(es).rows, After(es + [e]).rows;
            && key in after && 0 <= after[key].score <= 100
            && (key in before ==> before[key].score <= after[key].score)
            && forall other :: other != key ==>
                 (other in before <==> other in after) && (other in before ==> after[other] == before[other])
  {
    assert (es + [e])[..|es|] == es;
    RowIsFoldOfOwnEvents(es, key);
    RowIsFoldOfOwnEvents(es + [e], key);
    BlockNeverLowersScore(Of(key, es), e);
  }
}
