/**
 * Importing a list of items into a table through a session that does not flush:
 * a query sees the rows that were there, with the changes made to them, but not
 * the rows added since. Generic in the rows and items.
 */
module Upsert {
  import opened Common

  datatype Scheme<!R, !B> = Scheme(id: B -> string, create: B -> R, update: (R, B) -> R)

  datatype Stats = Stats(total: nat, created: nat, updated: nat, errors: nat)

  /** A session: the rows as it sees them, the rows to be inserted, and whether
      two of those share a primary key. */
  datatype Progress<R> = Progress(
    rows: map<string, R>, added: map<string, R>, clash: bool, created: nat, updated: nat, errors: nat)

  function Step<R, B>(sch: Scheme<R, B>, p: Progress<R>, b: B): Progress<R> {
    var id := sch.id(b);
    if id == "" then p.(errors := p.errors + 1)
    else if id in p.rows then
      p.(rows := p.rows[id := sch.update(p.rows[id], b)], updated := p.updated + 1)
    else
      p.(added := p.added[id := sch.create(b)], clash := p.clash || id in p.added, created := p.created + 1)
  }

  function Steps<R, B>(sch: Scheme<R, B>, p: Progress<R>, bs: seq<B>): Progress<R>
    decreases |bs|
  {
    if bs == [] then p else Steps(sch, Step(sch, p, bs[0]), bs[1..])
  }

  function Begin<R>(rows: map<string, R>): Progress<R> {
    Progress(rows, map[], false, 0, 0, 0)
  }

  /** The table and statistics after the import; nothing when the commit violates
      the primary key, in which case the transaction is rolled back. */
  function Import<R, B>(sch: Scheme<R, B>, rows: map<string, R>, bs: seq<B>): Option<(map<string, R>, Stats)> {
    var p := Steps(sch, Begin(rows), bs);
    if p.clash then None else Some((p.rows + p.added, Stats(|bs|, p.created, p.updated, p.errors)))
  }

  /** A database session with its identity map and the objects added to it. */
  class Session<R> {
    var committed: map<string, R>
    var view: map<string, R>
    var added: map<string, R>
    var clash: bool

    constructor (rows: map<string, R>)
      ensures Clean() && committed == rows
    {
      committed, view, added, clash := rows, rows, map[], false;
    }

    /** Nothing is waiting to be written. */
    ghost predicate Clean()
      reads this
    {
      view == committed && added == map[] && !clash
    }

    method Query(id: string) returns (row: Option<R>)
      ensures row == if id in view then Some(view[id]) else None
    {
      row := if id in view then Some(view[id]) else None;
    }

    method Change(id: string, row: R)
      modifies this`view
      ensures view == old(view)[id := row]
    {
      view := view[id := row];
    }

    method Add(id: string, row: R)
      modifies this`added, this`clash
      ensures added == old(added)[id := row] && clash == (old(clash) || id in old(added))
    {
      clash := clash || id in added;
      added := added[id := row];
    }

    /** Writes everything, or rolls everything back when a key is inserted twice. */
    method Commit() returns (ok: bool)
      modifies this
      ensures Clean() && ok == !old(clash)
      ensures committed == if ok then old(view) + old(added) else old(committed)
    {
      ok := !clash;
      if ok {
        committed := view + added;
      }
      view, added, clash := committed, map[], false;
    }
  }

  /** The import loop over a session. */
  method ImportInto<R, B>(sch: Scheme<R, B>, session: Session<R>, items: seq<B>) returns (stats: Option<Stats>)
    requires session.Clean()
    modifies session
    ensures session.Clean()
    ensures match Import(sch, old(session.committed), items)
            case None => stats.None? && session.committed == old(session.committed)
            case Some(done) => session.committed == done.0 && stats == Some(done.1)
  {
    var created, updated, errors := 0, 0, 0;
    ghost var start := Begin(session.view);
    for i := 0 to |items|
      invariant session.committed == old(session.committed)
      invariant Steps(sch, start, items) ==
        Steps(sch, Progress(session.view, session.added, session.clash, created, updated, errors), items[i..])
    {
      var b := items[i];
      assert items[i..][0] == b && items[i..][1..] == items[i + 1..];
      var id := sch.id(b);
      if id == "" {
        errors := errors + 1;
      } else {
        var existing := session.Query(id);
        if existing.Some? {
          session.Change(id, sch.update(existing.value, b));
          updated := updated + 1;
        } else {
          session.Add(id, sch.create(b));
          created := created + 1;
        }
      }
    }
    var ok := session.Commit();
    stats := if ok then Some(Stats(|items|, created, updated, errors)) else None;
  }

  // ---- Bookkeeping ----

  lemma {:induction false} StepsCount<R, B>(sch: Scheme<R, B>, p: Progress<R>, bs: seq<B>)
    ensures var q := Steps(sch, p, bs);
            q.created + q.updated + q.errors == p.created + p.updated + p.errors + |bs|
    decreases |bs|
  {
    if bs != [] {
      StepsCount(sch, Step(sch, p, bs[0]), bs[1..]);
    }
  }

  /** Every item is counted once. */
  lemma TotalIsAccountedFor<R, B>(sch: Scheme<R, B>, rows: map<string, R>, bs: seq<B>)
    ensures match Import(sch, rows, bs)
            case None => true
            case Some(done) => done.1.total == |bs| == done.1.created + done.1.updated + done.1.errors
  {
    StepsCount(sch, Begin(rows), bs);
  }

  function CountIf<B>(good: B -> bool, bs: seq<B>): nat {
    if bs == [] then 0 else (if good(bs[0]) then 1 else 0) + CountIf(good, bs[1..])
  }

  lemma {:induction false} StepsCountEach<R, B>(sch: Scheme<R, B>, p: Progress<R>, bs: seq<B>)
    ensures var q := Steps(sch, p, bs);
            && q.errors == p.errors + CountIf(b => sch.id(b) == "", bs)
            && q.updated == p.updated + CountIf(b => sch.id(b) != "" && sch.id(b) in p.rows.Keys, bs)
            && q.created == p.created + CountIf(b => sch.id(b) != "" && sch.id(b) !in p.rows.Keys, bs)
    decreases |bs|
  {
    if bs != [] {
      var next := Step(sch, p, bs[0]);
      StepsCountEach(sch, next, bs[1..]);
      assert next.rows.Keys == p.rows.Keys;
    }
  }

  /** Counted as errors are the items without an id, as updated those whose id was
      there, as created all others. */
  lemma StatsMean<R, B>(sch: Scheme<R, B>, rows: map<string, R>, bs: seq<B>)
    ensures match Import(sch, rows, bs)
            case None => true
            case Some(done) =>
              && done.1.errors == CountIf(b => sch.id(b) == "", bs)
              && done.1.updated == CountIf(b => sch.id(b) != "" && sch.id(b) in rows.Keys, bs)
              && done.1.created == CountIf(b => sch.id(b) != "" && sch.id(b) !in rows.Keys, bs)
  {
    StepsCountEach(sch, Begin(rows), bs);
  }

  ghost function Ids<R, B>(sch: Scheme<R, B>, bs: seq<B>): set<string> {
    set b | b in bs && sch.id(b) != "" :: sch.id(b)
  }

  lemma IdsCons<R, B>(sch: Scheme<R, B>, bs: seq<B>)
    requires bs != []
    ensures Ids(sch, bs) == (if sch.id(bs[0]) == "" then {} else {sch.id(bs[0])}) + Ids(sch, bs[1..])
  {
    assert forall b :: b in bs <==> b == bs[0] || b in bs[1..];
  }

  lemma {:induction false} StepsKeys<R, B>(sch: Scheme<R, B>, p: Progress<R>, bs: seq<B>)
    requires p.rows.Keys !! p.added.Keys
    ensures var q := Steps(sch, p, bs);
            && q.rows.Keys == p.rows.Keys
            && q.added.Keys == p.added.Keys + (Ids(sch, bs) - p.rows.Keys)
    ensures forall id :: id in p.rows && id !in Ids(sch, bs) ==> Steps(sch, p, bs).rows[id] == p.rows[id]
    decreases |bs|
  {
    if bs != [] {
      StepsKeys(sch, Step(sch, p, bs[0]), bs[1..]);
      IdsCons(sch, bs);
    }
  }

  /** The final ids are the old ids and the bundle's ids, and rows whose id is not
      in the bundle are untouched. */
  lemma ImportKeys<R, B>(sch: Scheme<R, B>, rows: map<string, R>, bs: seq<B>)
    ensures match Import(sch, rows, bs)
            case None => true
            case Some(done) =>
              && done.0.Keys == rows.Keys + Ids(sch, bs)
              && forall id :: id in rows && id !in Ids(sch, bs) ==> done.0[id] == rows[id]
  {
    StepsKeys(sch, Begin(rows), bs);
  }

  /** The same new id is asked for twice. */
  ghost predicate RepeatsNewId<R, B>(sch: Scheme<R, B>, rows: map<string, R>, bs: seq<B>) {
    exists i, j :: 0 <= i < j < |bs| && sch.id(bs[i]) == sch.id(bs[j]) != "" && sch.id(bs[i]) !in rows
  }

  lemma {:induction false} ClashMeans<R, B>(sch: Scheme<R, B>, p: Progress<R>, bs: seq<B>)
    requires p.rows.Keys !! p.added.Keys
    ensures Steps(sch, p, bs).clash <==>
              || p.clash
              || Hits(sch, p.added.Keys, bs)
              || RepeatsNewId(sch, p.rows, bs)
    decreases |bs|
  {
    if bs != [] {
      var b, rest, p' := bs[0], bs[1..], Step(sch, p, bs[0]);
      ClashMeans(sch, p', rest);
      RepeatsCons(sch, p.rows, bs);
      SameNewIds(sch, p.rows, p'.rows, rest);
      HitsCons(sch, p.added.Keys, bs);
      if p'.added != p.added {
        HitsMore(sch, p.added.Keys, sch.id(b), rest);
        assert p'.added.Keys == p.added.Keys + {sch.id(b)};
      }
    }
  }

  /** Some item has one of these ids. */
  ghost predicate Hits<R, B>(sch: Scheme<R, B>, ids: set<string>, bs: seq<B>) {
    exists i :: 0 <= i < |bs| && sch.id(bs[i]) != "" && sch.id(bs[i]) in ids
  }

  lemma HitsCons<R, B>(sch: Scheme<R, B>, ids: set<string>, bs: seq<B>)
    requires bs != []
    ensures Hits(sch, ids, bs) <==> (sch.id(bs[0]) != "" && sch.id(bs[0]) in ids) || Hits(sch, ids, bs[1..])
  {
    if Hits(sch, ids, bs[1..]) {
      var i :| 0 <= i < |bs[1..]| && sch.id(bs[1..][i]) != "" && sch.id(bs[1..][i]) in ids;
      assert bs[1..][i] == bs[i + 1];
    }
    if Hits(sch, ids, bs) {
      var i :| 0 <= i < |bs| && sch.id(bs[i]) != "" && sch.id(bs[i]) in ids;
      assert i > 0 ==> bs[i] == bs[1..][i - 1];
    }
  }

  lemma HitsMore<R, B>(sch: Scheme<R, B>, ids: set<string>, id: string, bs: seq<B>)
    requires id != ""
    ensures Hits(sch, ids + {id}, bs) <==> Hits(sch, ids, bs) || exists c :: c in bs && sch.id(c) == id
  {
    if Hits(sch, ids + {id}, bs) {
      var i :| 0 <= i < |bs| && sch.id(bs[i]) != "" && sch.id(bs[i]) in ids + {id};
      assert bs[i] in bs;
    }
    if Hits(sch, ids, bs) {
      var i :| 0 <= i < |bs| && sch.id(bs[i]) != "" && sch.id(bs[i]) in ids;
      assert sch.id(bs[i]) in ids + {id};
    }
    if c :| c in bs && sch.id(c) == id {
      var i :| 0 <= i < |bs| && bs[i] == c;
      assert sch.id(bs[i]) in ids + {id};
    }
  }

  lemma SameNewIds<R, B>(sch: Scheme<R, B>, rows: map<string, R>, rows': map<string, R>, bs: seq<B>)
    requires rows.Keys == rows'.Keys
    ensures RepeatsNewId(sch, rows, bs) <==> RepeatsNewId(sch, rows', bs)
  {
    assert forall id :: id in rows <==> id in rows';
  }

  lemma RepeatsCons<R, B>(sch: Scheme<R, B>, rows: map<string, R>, bs: seq<B>)
    requires bs != []
    ensures RepeatsNewId(sch, rows, bs) <==>
              || RepeatsNewId(sch, rows, bs[1..])
              || (sch.id(bs[0]) != "" && sch.id(bs[0]) !in rows && exists c :: c in bs[1..] && sch.id(c) == sch.id(bs[0]))
  {
    var rest := bs[1..];
    if RepeatsNewId(sch, rows, bs) {
      var i, j :| 0 <= i < j < |bs| && sch.id(bs[i]) == sch.id(bs[j]) != "" && sch.id(bs[i]) !in rows;
      assert bs[j] == rest[j - 1];
      if i > 0 {
        assert bs[i] == rest[i - 1];
      }
    }
    if RepeatsNewId(sch, rows, rest) {
      var i, j :| 0 <= i < j < |rest| && sch.id(rest[i]) == sch.id(rest[j]) != "" && sch.id(rest[i]) !in rows;
      assert rest[i] == bs[i + 1] && rest[j] == bs[j + 1];
    }
    if c :| c in rest && sch.id(c) == sch.id(bs[0]) {
      var j :| 0 <= j < |rest| && rest[j] == c;
      assert bs[j + 1] == c;
    }
  }

  /** The import fails, and changes nothing, exactly when the bundle names the same
      new id twice. Repeating an id that is already in the table is harmless. */
  lemma ImportFailsIff<R, B>(sch: Scheme<R, B>, rows: map<string, R>, bs: seq<B>)
    ensures Import(sch, rows, bs).None? <==> RepeatsNewId(sch, rows, bs)
  {
    ClashMeans(sch, Begin(rows), bs);
  }

  // ---- Importing again ----

  /** Updates overwrite: only the latest of two updates from the same item counts,
      and a new row already is what its item would make of it. */
  ghost predicate Overwrites<R(!new), B(!new)>(sch: Scheme<R, B>) {
    && (forall r, b :: sch.update(sch.update(r, b), b) == sch.update(r, b))
    && (forall r, b, c :: sch.update(sch.update(sch.update(r, b), c), b) == sch.update(sch.update(r, c), b))
    && (forall b :: sch.update(sch.create(b), b) == sch.create(b))
  }

  /** The update of one item on a whole table; ids that are not there are ignored. */
  function Touch<R, B>(sch: Scheme<R, B>, rows: map<string, R>, b: B): map<string, R> {
    var id := sch.id(b);
    if id != "" && id in rows then rows[id := sch.update(rows[id], b)] else rows
  }

  function TouchAll<R, B>(sch: Scheme<R, B>, rows: map<string, R>, bs: seq<B>): map<string, R>
    decreases |bs|
  {
    if bs == [] then rows else TouchAll(sch, Touch(sch, rows, bs[0]), bs[1..])
  }

  lemma TouchAgain<R(!new), B(!new)>(sch: Scheme<R, B>, rows: map<string, R>, b: B, c: B)
    requires Overwrites(sch)
    ensures Touch(sch, Touch(sch, rows, b), b) == Touch(sch, rows, b)
    ensures Touch(sch, Touch(sch, Touch(sch, rows, b), c), b) == Touch(sch, Touch(sch, rows, c), b)
  {
  }

  /** Tables that `b` makes equal are made equal by any list that contains `b`. */
  lemma {:induction false} TouchAllAbsorbs<R(!new), B(!new)>(sch: Scheme<R, B>, s: map<string, R>, t: map<string, R>, b: B, bs: seq<B>)
    requires Overwrites(sch) && b in bs && Touch(sch, s, b) == Touch(sch, t, b)
    ensures TouchAll(sch, s, bs) == TouchAll(sch, t, bs)
    decreases |bs|
  {
    var c := bs[0];
    if c != b {
      TouchAgain(sch, s, b, c);
      TouchAgain(sch, t, b, c);
      TouchAllAbsorbs(sch, Touch(sch, s, c), Touch(sch, t, c), b, bs[1..]);
    }
  }

  lemma {:induction false} TouchAllTwice<R(!new), B(!new)>(sch: Scheme<R, B>, rows: map<string, R>, first: seq<B>, bs: seq<B>)
    requires Overwrites(sch) && forall b :: b in first ==> b in bs
    ensures TouchAll(sch, TouchAll(sch, rows, first), bs) == TouchAll(sch, rows, bs)
    decreases |first|
  {
    if first != [] {
      var b := first[0];
      TouchAllTwice(sch, Touch(sch, rows, b), first[1..], bs);
      TouchAgain(sch, rows, b, b);
      TouchAllAbsorbs(sch, Touch(sch, rows, b), rows, b, bs);
    }
  }

  lemma {:induction false} AddedStays<R, B>(sch: Scheme<R, B>, p: Progress<R>, bs: seq<B>)
    requires !Steps(sch, p, bs).clash && p.rows.Keys !! p.added.Keys
    ensures !p.clash
    ensures forall id :: id in p.added ==> id in Steps(sch, p, bs).added && Steps(sch, p, bs).added[id] == p.added[id]
    decreases |bs|
  {
    if bs != [] {
      AddedStays(sch, Step(sch, p, bs[0]), bs[1..]);
    }
  }

  /** The committed table is what the items make of the old rows and the new ones. */
  lemma {:induction false} StepsAreTouches<R(!new), B(!new)>(sch: Scheme<R, B>, p: Progress<R>, bs: seq<B>)
    requires Overwrites(sch) && p.rows.Keys !! p.added.Keys
    requires !Steps(sch, p, bs).clash
    ensures var q := Steps(sch, p, bs);
            TouchAll(sch, p.rows + q.added, bs) == q.rows + q.added
    decreases |bs|
  {
    if bs != [] {
      var p' := Step(sch, p, bs[0]);
      StepsAreTouches(sch, p', bs[1..]);
      StepsKeys(sch, p, bs);
      AddedStays(sch, p', bs[1..]);
      TouchStep(sch, p, bs[0], Steps(sch, p, bs).added);
    }
  }

  lemma TouchStep<R(!new), B(!new)>(sch: Scheme<R, B>, p: Progress<R>, b: B, final: map<string, R>)
    requires Overwrites(sch) && p.rows.Keys !! final.Keys
    requires sch.id(b) != "" && sch.id(b) !in p.rows ==>
               sch.id(b) in final && final[sch.id(b)] == sch.create(b)
    ensures Touch(sch, p.rows + final, b) == Step(sch, p, b).rows + final
  {
    var id := sch.id(b);
    if id != "" && id in p.rows {
      assert (p.rows + final)[id] == p.rows[id];
    }
  }

  lemma {:induction false} AllKnown<R, B>(sch: Scheme<R, B>, p: Progress<R>, bs: seq<B>)
    requires Ids(sch, bs) <= p.rows.Keys
    ensures var q := Steps(sch, p, bs);
            && q.rows == TouchAll(sch, p.rows, bs)
            && q.added == p.added && q.clash == p.clash && q.created == p.created
    decreases |bs|
  {
    if bs != [] {
      IdsCons(sch, bs);
      AllKnown(sch, Step(sch, p, bs[0]), bs[1..]);
    }
  }

  lemma {:induction false} ErrorsAreMissingIds<R, B>(sch: Scheme<R, B>, p: Progress<R>, p': Progress<R>, bs: seq<B>)
    ensures Steps(sch, p, bs).errors - p.errors == Steps(sch, p', bs).errors - p'.errors
    decreases |bs|
  {
    if bs != [] {
      ErrorsAreMissingIds(sch, Step(sch, p, bs[0]), Step(sch, p', bs[0]), bs[1..]);
    }
  }

  /** Importing the same bundle again succeeds, creates nothing, reports every item
      it had created or updated as updated, and changes no row. */
  lemma ImportIsIdempotent<R(!new), B(!new)>(sch: Scheme<R, B>, rows: map<string, R>, bs: seq<B>)
    requires Overwrites(sch) && Import(sch, rows, bs).Some?
    ensures var (rows', stats) := Import(sch, rows, bs).value;
            Import(sch, rows', bs) == Some((rows', Stats(|bs|, 0, stats.created + stats.updated, stats.errors)))
  {
    var p := Steps(sch, Begin(rows), bs);
    var rows' := p.rows + p.added;
    StepsKeys(sch, Begin(rows), bs);
    StepsAreTouches(sch, Begin(rows), bs);
    TouchAllTwice(sch, rows + p.added, bs, bs);
    AllKnown(sch, Begin(rows'), bs);
    StepsCount(sch, Begin(rows), bs);
    StepsCount(sch, Begin(rows'), bs);
    ErrorsAreMissingIds(sch, Begin(rows), Begin(rows'), bs);
    assert rows' + map[] == rows';
  }

  // ---- What an import makes of one row ----

  /** The last item with this id. */
  function Latest<R, B>(sch: Scheme<R, B>, bs: seq<B>, id: string): (b: Option<B>)
    ensures b.Some? ==> b.value in bs && sch.id(b.value) == id != ""
    ensures b.None? ==> forall c :: c in bs ==> sch.id(c) != id || id == ""
  {
    if bs == [] then None
    else if Latest(sch, bs[1..], id).Some? then Latest(sch, bs[1..], id)
    else if sch.id(bs[0]) == id != "" then Some(bs[0])
    else None
  }

  /** A row after the updates from all items with its id, in order. */
  function Edited<R, B>(sch: Scheme<R, B>, row: R, bs: seq<B>, id: string): R
    decreases |bs|
  {
    if bs == [] then row
    else Edited(sch, if sch.id(bs[0]) == id != "" then sch.update(row, bs[0]) else row, bs[1..], id)
  }

  lemma {:induction false} StepsEdit<R, B>(sch: Scheme<R, B>, p: Progress<R>, bs: seq<B>, id: string)
    requires id in p.rows
    ensures id in Steps(sch, p, bs).rows && Steps(sch, p, bs).rows[id] == Edited(sch, p.rows[id], bs, id)
    decreases |bs|
  {
    if bs != [] {
      StepsEdit(sch, Step(sch, p, bs[0]), bs[1..], id);
    }
  }

  lemma {:induction false} StepsCreate<R, B>(sch: Scheme<R, B>, p: Progress<R>, bs: seq<B>, id: string)
    requires !Steps(sch, p, bs).clash && p.rows.Keys !! p.added.Keys && id !in p.rows
    ensures id in Steps(sch, p, bs).added <==> id in p.added || Latest(sch, bs, id).Some?
    ensures Latest(sch, bs, id).Some? ==>
              id !in p.added && Steps(sch, p, bs).added[id] == sch.create(Latest(sch, bs, id).value)
    decreases |bs|
  {
    if bs != [] {
      var p' := Step(sch, p, bs[0]);
      StepsCreate(sch, p', bs[1..], id);
      AddedStays(sch, p', bs[1..]);
    }
  }

  /** After an import a row that was there has been updated by all its items; a new
      one is the row made of the only item with its id. */
  lemma ImportedRow<R, B>(sch: Scheme<R, B>, rows: map<string, R>, bs: seq<B>, id: string)
    requires Import(sch, rows, bs).Some?
    ensures var rows' := Import(sch, rows, bs).value.0;
            && (id in rows' <==> id in rows || Latest(sch, bs, id).Some?)
            && (id in rows ==> rows'[id] == Edited(sch, rows[id], bs, id))
            && (id in rows' && id !in rows ==> rows'[id] == sch.create(Latest(sch, bs, id).value))
  {
    StepsKeys(sch, Begin(rows), bs);
    if id in rows {
      StepsEdit(sch, Begin(rows), bs, id);
    } else {
      StepsCreate(sch, Begin(rows), bs, id);
    }
  }

  /** A column that every update overwrites holds what the last item says. */
  lemma {:induction false} LastItemWins<R, B, X>(sch: Scheme<R, B>, row: R, bs: seq<B>, id: string, f: R -> X, g: B -> X)
    requires forall r, b :: b in bs ==> f(sch.update(r, b)) == g(b)
    ensures f(Edited(sch, row, bs, id)) ==
              if Latest(sch, bs, id).Some? then g(Latest(sch, bs, id).value) else f(row)
    decreases |bs|
  {
    if bs != [] {
      LastItemWins(sch, if sch.id(bs[0]) == id != "" then sch.update(row, bs[0]) else row, bs[1..], id, f, g);
    }
  }

  lemma {:induction false} LatestIsLast<R, B>(sch: Scheme<R, B>, bs: seq<B>, id: string, k: nat)
    requires id != "" && k < |bs| && sch.id(bs[k]) == id
    requires forall j :: k < j < |bs| ==> sch.id(bs[j]) != id
    ensures Latest(sch, bs, id) == Some(bs[k])
  {
    if k > 0 {
      assert forall j :: 0 <= j < |bs[1..]| ==> bs[1..][j] == bs[j + 1];
      LatestIsLast(sch, bs[1..], id, k - 1);
    }
  }

  /** A column that no update of this id touches stays. */
  lemma {:induction false} EditKeepsColumn<R, B, X>(sch: Scheme<R, B>, row: R, bs: seq<B>, id: string, f: R -> X)
    requires forall r, b :: b in bs && sch.id(b) == id ==> f(sch.update(r, b)) == f(r)
    ensures f(Edited(sch, row, bs, id)) == f(row)
    decreases |bs|
  {
    if bs != [] {
      EditKeepsColumn(sch, if sch.id(bs[0]) == id != "" then sch.update(row, bs[0]) else row, bs[1..], id, f);
    }
  }

  ghost predicate Everywhere<R>(inv: R -> bool, rows: map<string, R>) {
    forall id :: id in rows ==> inv(rows[id])
  }

  lemma {:induction false} StepsKeepInvariant<R(!new), B(!new)>(sch: Scheme<R, B>, p: Progress<R>, bs: seq<B>, inv: R -> bool)
    requires (forall r, b :: inv(sch.update(r, b))) && (forall b :: inv(sch.create(b)))
    requires Everywhere(inv, p.rows) && Everywhere(inv, p.added)
    ensures Everywhere(inv, Steps(sch, p, bs).rows) && Everywhere(inv, Steps(sch, p, bs).added)
    decreases |bs|
  {
    if bs != [] {
      assert inv(sch.create(bs[0]));
      StepsKeepInvariant(sch, Step(sch, p, bs[0]), bs[1..], inv);
    }
  }

  /** Whatever creation and updates always establish holds of every row afterwards. */
  lemma ImportKeepsInvariant<R(!new), B(!new)>(sch: Scheme<R, B>, rows: map<string, R>, bs: seq<B>, inv: R -> bool)
    requires (forall r, b :: inv(sch.update(r, b))) && (forall b :: inv(sch.create(b)))
    requires Everywhere(inv, rows) && Import(sch, rows, bs).Some?
    ensures Everywhere(inv, Import(sch, rows, bs).value.0)
  {
    StepsKeepInvariant(sch, Begin(rows), bs, inv);
  }

  // ---- Importing into an empty table ----

  ghost predicate DistinctIds<R, B>(sch: Scheme<R, B>, bs: seq<B>) {
    && (forall i :: 0 <= i < |bs| ==> sch.id(bs[i]) != "")
    && (forall i, j :: 0 <= i < j < |bs| ==> sch.id(bs[i]) != sch.id(bs[j]))
  }

  lemma {:induction false} StepsFresh<R, B>(sch: Scheme<R, B>, p: Progress<R>, bs: seq<B>)
    requires DistinctIds(sch, bs) && p.rows == map[]
    requires forall i :: 0 <= i < |bs| ==> sch.id(bs[i]) !in p.added
    ensures var q := Steps(sch, p, bs);
            && q.rows == map[] && q.clash == p.clash
            && q.created == p.created + |bs| && q.updated == p.updated && q.errors == p.errors
            && (forall id :: id in p.added ==> id in q.added && q.added[id] == p.added[id])
            && (forall i :: 0 <= i < |bs| ==> sch.id(bs[i]) in q.added && q.added[sch.id(bs[i])] == sch.create(bs[i]))
            && (forall id :: id in q.added ==> id in p.added || exists i :: 0 <= i < |bs| && sch.id(bs[i]) == id)
    decreases |bs|
  {
    if bs != [] {
      var rest := bs[1..];
      assert forall i :: 0 <= i < |rest| ==> rest[i] == bs[i + 1];
      StepsFresh(sch, Step(sch, p, bs[0]), rest);
    }
  }

  /** Into an empty table, a bundle with distinct ids is imported row by row as created. */
  lemma FreshImport<R, B>(sch: Scheme<R, B>, bs: seq<B>)
    requires DistinctIds(sch, bs)
    ensures Import(sch, map[], bs).Some?
    ensures var (rows, stats) := Import(sch, map[], bs).value;
            && stats == Stats(|bs|, |bs|, 0, 0)
            && (forall i :: 0 <= i < |bs| ==> sch.id(bs[i]) in rows && rows[sch.id(bs[i])] == sch.create(bs[i]))
            && (forall id :: id in rows ==> exists i :: 0 <= i < |bs| && sch.id(bs[i]) == id)
  {
    StepsFresh(sch, Begin(map[]), bs);
  }

  /** `rows` lists the rows of `table` in some order, each once and under its id. */
  ghost predicate Lists<R(!new)>(rows: seq<R>, table: map<string, R>, idOf: R -> string) {
    && (forall i :: 0 <= i < |rows| ==> idOf(rows[i]) in table && table[idOf(rows[i])] == rows[i])
    && (forall i, j :: 0 <= i < j < |rows| ==> idOf(rows[i]) != idOf(rows[j]))
    && (forall id :: id in table ==> exists i :: 0 <= i < |rows| && idOf(rows[i]) == id)
  }

  predicate ProperIds<R>(rows: seq<R>, idOf: R -> string) {
    forall i :: 0 <= i < |rows| ==> idOf(rows[i]) != ""
  }

  ghost predicate Keyed<R>(rows: map<string, R>, idOf: R -> string) {
    forall id :: id in rows ==> idOf(rows[id]) == id
  }

  lemma {:induction false} StepsKeepKeys<R(!new), B(!new)>(sch: Scheme<R, B>, p: Progress<R>, bs: seq<B>, idOf: R -> string)
    requires (forall r, b :: idOf(sch.update(r, b)) == idOf(r)) && (forall b :: idOf(sch.create(b)) == sch.id(b))
    requires Keyed(p.rows, idOf) && Keyed(p.added, idOf)
    ensures Keyed(Steps(sch, p, bs).rows, idOf) && Keyed(Steps(sch, p, bs).added, idOf)
    decreases |bs|
  {
    if bs != [] {
      StepsKeepKeys(sch, Step(sch, p, bs[0]), bs[1..], idOf);
    }
  }

  /** Rows stay stored under their own ids. */
  lemma ImportKeepsKeys<R(!new), B(!new)>(sch: Scheme<R, B>, rows: map<string, R>, bs: seq<B>, idOf: R -> string)
    requires (forall r, b :: idOf(sch.update(r, b)) == idOf(r)) && (forall b :: idOf(sch.create(b)) == sch.id(b))
    requires Keyed(rows, idOf) && Import(sch, rows, bs).Some?
    ensures Keyed(Import(sch, rows, bs).value.0, idOf)
  {
    StepsKeepKeys(sch, Begin(rows), bs, idOf);
  }
}
