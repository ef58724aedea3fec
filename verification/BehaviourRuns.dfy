/**
 * The counters of one user and day when requests overlap: each session loads the
 * row, counts in memory, and stores the columns that it has changed.
 */
module BehaviourRuns {
  import opened Common
  import opened Behaviour

  datatype Step = Load(session: nat) | Store(session: nat, event: Event)

  /** Any interleaving, the latest step outermost. */
  datatype Run = Begin | Next(before: Run, step: Step)

  /** The stored row, and what each open session has loaded. */
  datatype System = System(row: Row, loaded: map<nat, Row>)

  function Column<T(==)>(stored: T, old_: T, new_: T): T {
    if new_ == old_ then stored else new_
  }

  /** An update statement names only the columns whose value has changed since the load. */
  function Stored(row: Row, old_: Row, new_: Row): Row {
    Row(Column(row.total, old_.total, new_.total), Column(row.blocked, old_.blocked, new_.blocked),
        Column(row.warned, old_.warned, new_.warned), Column(row.triggers, old_.triggers, new_.triggers),
        Column(row.score, old_.score, new_.score))
  }

  function At(start: Row, run: Run): System {
    match run
    case Begin => System(start, map[])
    case Next(before, step) =>
      var s := At(start, before);
      match step
      case Load(x) => s.(loaded := s.loaded[x := s.row])
      case Store(x, e) =>
        if x !in s.loaded then s
        else System(Stored(s.row, s.loaded[x], Absorb(s.loaded[x], e)), s.loaded - {x})
  }

  /** Every store is by a session that has loaded the row. */
  predicate Possible(run: Run, start: Row) {
    match run
    case Begin => true
    case Next(before, step) => Possible(before, start) && (step.Store? ==> step.session in At(start, before).loaded)
  }

  /** The events stored, in order. */
  function Events(run: Run): seq<Event> {
    match run
    case Begin => []
    case Next(before, step) => Events(before) + if step.Store? then [step.event] else []
  }

  /** Nobody has stored since the session loaded. */
  predicate Current(run: Run, x: nat) {
    match run
    case Begin => false
    case Next(before, step) =>
      match step
      case Load(y) => y == x || Current(before, x)
      case Store(_, _) => false
  }

  /** Every store follows a load with no other store in between. */
  predicate AllCurrent(run: Run) {
    match run
    case Begin => true
    case Next(before, step) => AllCurrent(before) && (step.Store? ==> Current(before, step.session))
  }

  function Absorbed(start: Row, es: seq<Event>): Row {
    if es == [] then start else Absorb(Absorbed(start, es[..|es| - 1]), es[|es| - 1])
  }

  /** What a session has loaded is the stored row, or is behind by an update. */
  ghost predicate Fits(start: Row, run: Run) {
    var s := At(start, run);
    && s.row.total <= start.total + |Events(run)|
    && forall x :: x in s.loaded ==>
         if Current(run, x) then s.loaded[x] == s.row else s.loaded[x].total < start.total + |Events(run)|
  }

  lemma {:induction false} AlwaysFits(start: Row, run: Run)
    requires Possible(run, start)
    ensures Fits(start, run)
  {
    match run
    case Begin =>
    case Next(before, step) => AlwaysFits(start, before);
  }

  /** The total counts every update exactly when no session stores over another's
      update, and then the whole row is what the events make of it one by one. */
  lemma {:induction false} TotalCountsAllIff(start: Row, run: Run)
    requires Possible(run, start)
    ensures At(start, run).row.total == start.total + |Events(run)| <==> AllCurrent(run)
    ensures AllCurrent(run) ==> At(start, run).row == Absorbed(start, Events(run))
  {
    match run
    case Begin =>
    case Next(before, step) =>
      TotalCountsAllIff(start, before);
      AlwaysFits(start, before);
      if step.Store? {
        assert Events(run)[..|Events(before)|] == Events(before);
      } else {
        assert Events(run) == Events(before);
      }
  }

  /** From a new row the events absorbed one by one make the day's row. */
  lemma {:induction false} AbsorbedIsDay(es: seq<Event>)
    ensures Absorbed(NEW_ROW, es) == Day(es)
  {
    if es != [] {
      AbsorbedIsDay(es[..|es| - 1]);
    }
  }

  const BLOCK := Event(Some("u"), 0, true, false, [])
  const PASS := Event(Some("u"), 0, false, false, [])

  lemma BothLoaded(start: Row)
    ensures var run := Next(Next(Begin, Load(0)), Load(1));
            Possible(run, start) && Events(run) == [] && At(start, run) == System(start, map[0 := start, 1 := start])
  {
    var one := Next(Begin, Load(0));
    assert At(start, one) == System(start, map[0 := start]);
    assert Possible(one, start);
    assert Events(Begin) == [] && Events(one) == Events(Begin) + [];
  }

  /** Two sessions load the same row and store: one request is not counted. */
  lemma LostUpdateExample(start: Row)
    ensures var run := Next(Next(Next(Next(Begin, Load(0)), Load(1)), Store(0, BLOCK)), Store(1, BLOCK));
            Possible(run, start) && At(start, run).row.total == start.total + 1 && |Events(run)| == 2
  {
    var loaded := Next(Next(Begin, Load(0)), Load(1));
    BothLoaded(start);
    var one := Next(loaded, Store(0, BLOCK));
    assert At(start, one).loaded == map[1 := start];
    assert Events(one) == [BLOCK] && Possible(one, start);
  }

  /** A session that has loaded a new row stores behind two blocked requests: more
      requests are blocked than there are. */
  lemma MoreBlockedThanTotalExample()
    ensures var run := Next(Next(Next(Next(Next(Next(Begin, Load(0)), Load(1)), Store(1, BLOCK)),
                            Load(1)), Store(1, BLOCK)), Store(0, PASS));
            Possible(run, NEW_ROW) && At(NEW_ROW, run).row.total == 1 && At(NEW_ROW, run).row.blocked == 2
  {
    var loaded := Next(Next(Begin, Load(0)), Load(1));
    BothLoaded(NEW_ROW);
    var one := Next(loaded, Store(1, BLOCK));
    var first := Absorb(NEW_ROW, BLOCK);
    assert first.total == 1 && first.blocked == 1;
    assert At(NEW_ROW, one).row.total == 1 && At(NEW_ROW, one).row.blocked == 1;
    assert At(NEW_ROW, one).loaded == map[0 := NEW_ROW];
    var again := Next(one, Load(1));
    var two := Next(again, Store(1, BLOCK));
    assert At(NEW_ROW, two).row.total == 2 && At(NEW_ROW, two).row.blocked == 2;
    assert At(NEW_ROW, two).loaded == map[0 := NEW_ROW];
    assert Possible(again, NEW_ROW) && Possible(two, NEW_ROW);
  }
}
