/**
 * Logging and sealing as they really interleave. A scan commits its log rows, asks
 * for the newest row id, reads the newest block and inserts its own, or gives up;
 * between any two of these steps other sessions may do theirs.
 */
module SealRuns {
  import opened Common
  import opened AuditChain

  // ---- Steps ----

  /** A scan whose rows are committed and not sealed yet: its rows are those behind the
      first `first`; the newest row id once asked for, and how many blocks there were
      when it read the chain. */
  datatype Session = Session(first: nat, count: nat, newest: Option<nat>, seen: Option<nat>)

  datatype Step =
    | Commit(session: nat, ruleIds: seq<string>)
    | Newest(session: nat)
    | ReadLast(session: nat)
    | Insert(session: nat, at: string)
    | GiveUp(session: nat)
    | Review(findings: seq<string>)

  /** Both tables, for every block where the rows of its session begin, and the open sessions. */
  datatype System = System(rows: seq<LogRow>, chain: seq<Block>, firsts: seq<nat>, open: map<nat, Session>)

  /** Any interleaving, the latest step outermost. */
  datatype Run = Begin | Next(before: Run, step: Step)

  predicate Enabled(s: System, step: Step) {
    match step
    case Commit(x, _) => x !in s.open
    case Newest(x) => x in s.open && s.open[x].newest.None?
    case ReadLast(x) => x in s.open && s.open[x].newest.Some? && s.open[x].seen.None?
    case Insert(x, _) => x in s.open && s.open[x].seen.Some?
    case GiveUp(x) => x in s.open
    case Review(_) => true
  }

  /** A session that has read the chain has asked before, and blocks are never removed. */
  ghost predicate Sane(s: System) {
    forall x :: x in s.open && s.open[x].seen.Some? ==>
      s.open[x].newest.Some? && s.open[x].seen.value <= |s.chain|
  }

  /** A batch without rows is not sealed: its session ends when it has asked. */
  function Do(h: Digest, s: System, step: Step): (t: System)
    requires Sane(s) && Enabled(s, step)
    ensures Sane(t)
  {
    match step
    case Commit(x, ids) =>
      s.(rows := AddRows(s.rows, ids, Scanned), open := s.open[x := Session(|s.rows|, |ids|, None, None)])
    case Newest(x) =>
      if s.open[x].count == 0 || s.rows == [] then s.(open := s.open - {x})
      else s.(open := s.open[x := s.open[x].(newest := Some(s.rows[|s.rows| - 1].id))])
    case ReadLast(x) => s.(open := s.open[x := s.open[x].(seen := Some(|s.chain|))])
    case Insert(x, at) =>
      var session := s.open[x];
      var prev := Expected(s.chain, session.seen.value);
      s.(chain := s.chain + [SealedBlock(h, prev, |s.chain| + 1, session.newest.value, session.count, at)],
         firsts := s.firsts + [session.first],
         open := s.open - {x})
    case GiveUp(x) => s.(open := s.open - {x})
    case Review(ids) => s.(rows := AddRows(s.rows, ids, Reviewed))
  }

  /** The system after a run; steps that cannot happen are skipped. */
  ghost function At(h: Digest, run: Run): (s: System)
    ensures Sane(s)
  {
    match run
    case Begin => System([], [], [], map[])
    case Next(before, step) => if Enabled(At(h, before), step) then Do(h, At(h, before), step) else At(h, before)
  }

  /** Every step could happen. */
  ghost predicate Possible(h: Digest, run: Run) {
    match run
    case Begin => true
    case Next(before, step) => Possible(h, before) && Enabled(At(h, before), step)
  }

  // ---- What can be read off a schedule ----

  function RowsOf(step: Step): nat {
    match step
    case Commit(_, ids) => |ids|
    case Review(ids) => |ids|
    case _ => 0
  }

  /** Rows committed since a session last committed its own. */
  function RowsSinceCommit(run: Run, x: nat): nat {
    match run
    case Begin => 0
    case Next(before, step) =>
      if step.Commit? && step.session == x then 0 else RowsSinceCommit(before, x) + RowsOf(step)
  }

  /** Rows committed since a session last asked for the newest id. */
  function RowsSinceAsked(run: Run, x: nat): nat {
    match run
    case Begin => 0
    case Next(before, step) => if step == Newest(x) then 0 else RowsSinceAsked(before, x) + RowsOf(step)
  }

  /** Nobody committed rows between the session's commit and its question. */
  predicate Undisturbed(run: Run, x: nat) {
    match run
    case Begin => true
    case Next(before, step) => if step == Newest(x) then RowsSinceCommit(before, x) == 0 else Undisturbed(before, x)
  }

  /** Since the session asked, another one has inserted that had asked later, with rows
      committed in between. */
  predicate Overtaken(run: Run, x: nat) {
    match run
    case Begin => false
    case Next(before, step) =>
      if step == Newest(x) then false
      else
        || Overtaken(before, x)
        || (step.Insert? && RowsSinceAsked(before, step.session) < RowsSinceAsked(before, x))
  }

  predicate InTurn(run: Run, x: nat) {
    !Overtaken(run, x)
  }

  /** Nobody has inserted since the session read the newest block. */
  predicate Current(run: Run, x: nat) {
    match run
    case Begin => false
    case Next(before, step) =>
      match step
      case ReadLast(y) => y == x || Current(before, x)
      case Insert(_, _) => false
      case _ => Current(before, x)
  }

  /** Every insert of a run happens to a session with this property. */
  predicate EveryInsert(run: Run, good: (Run, nat) -> bool) {
    match run
    case Begin => true
    case Next(before, step) => EveryInsert(before, good) && (step.Insert? ==> good(before, step.session))
  }

  // ---- What every interleaving keeps ----

  ghost predicate SessionFits(s: System, run: Run, x: nat)
    requires x in s.open
  {
    var session := s.open[x];
    var end := session.first + session.count;
    match session.newest
    case None => end + RowsSinceCommit(run, x) == |s.rows|
    case Some(newest) =>
      && session.count > 0 && end <= newest
      && newest + RowsSinceAsked(run, x) == |s.rows|
      && (newest == end <==> Undisturbed(run, x))
  }

  /** The block's session had its rows committed below the position the block covers. */
  ghost predicate BlockFits(s: System, i: nat)
    requires i < |s.chain| == |s.firsts|
  {
    && s.chain[i].count > 0
    && s.firsts[i] + s.chain[i].count <= s.chain[i].lastLogId <= |s.rows|
  }

  ghost predicate Fits(s: System, run: Run) {
    && Numbered(s.rows) && |s.firsts| == |s.chain|
    && (forall x :: x in s.open ==> SessionFits(s, run, x))
    && (forall i :: 0 <= i < |s.chain| ==> BlockFits(s, i))
  }

  lemma CommitFits(h: Digest, before: Run, step: Step)
    requires Possible(h, Next(before, step)) && Fits(At(h, before), before) && (step.Commit? || step.Review?)
    ensures Fits(At(h, Next(before, step)), Next(before, step))
  {
    var s, run := At(h, before), Next(before, step);
    var t := At(h, run);
    var ids := if step.Commit? then step.ruleIds else step.findings;
    AddRowsNumbered(s.rows, ids, if step.Commit? then Scanned else Reviewed);
    forall x | x in t.open ensures SessionFits(t, run, x) {
      if !(step.Commit? && x == step.session) {
        assert SessionFits(s, before, x);
      }
    }
    forall i | 0 <= i < |t.chain| ensures BlockFits(t, i) {
      assert BlockFits(s, i);
    }
  }

  lemma NewestFits(h: Digest, before: Run, x: nat)
    requires Possible(h, Next(before, Newest(x))) && Fits(At(h, before), before)
    ensures Fits(At(h, Next(before, Newest(x))), Next(before, Newest(x)))
  {
    var s, run := At(h, before), Next(before, Newest(x));
    var t := At(h, run);
    assert SessionFits(s, before, x);
    forall y | y in t.open ensures SessionFits(t, run, y) {
      assert SessionFits(s, before, y);
    }
    forall i | 0 <= i < |t.chain| ensures BlockFits(t, i) {
      assert BlockFits(s, i);
    }
  }

  lemma InsertFits(h: Digest, before: Run, x: nat, at: string)
    requires Possible(h, Next(before, Insert(x, at))) && Fits(At(h, before), before)
    ensures Fits(At(h, Next(before, Insert(x, at))), Next(before, Insert(x, at)))
  {
    var s, run := At(h, before), Next(before, Insert(x, at));
    var t := At(h, run);
    forall y | y in t.open ensures SessionFits(t, run, y) {
      assert SessionFits(s, before, y);
    }
    assert SessionFits(s, before, x);
    forall i | 0 <= i < |t.chain| ensures BlockFits(t, i) {
      if i < |s.chain| {
        assert BlockFits(s, i);
      }
    }
  }

  lemma QuietStepFits(h: Digest, before: Run, step: Step)
    requires Possible(h, Next(before, step)) && Fits(At(h, before), before) && (step.ReadLast? || step.GiveUp?)
    ensures Fits(At(h, Next(before, step)), Next(before, step))
  {
    var s, run := At(h, before), Next(before, step);
    var t := At(h, run);
    forall y | y in t.open ensures SessionFits(t, run, y) {
      assert SessionFits(s, before, y);
    }
    forall i | 0 <= i < |t.chain| ensures BlockFits(t, i) {
      assert BlockFits(s, i);
    }
  }

  lemma {:induction false} AlwaysFits(h: Digest, run: Run)
    requires Possible(h, run)
    ensures Fits(At(h, run), run)
  {
    match run
    case Begin =>
    case Next(before, step) =>
      AlwaysFits(h, before);
      match step
      case Commit(_, _) => CommitFits(h, before, step);
      case Review(_) => CommitFits(h, before, step);
      case Newest(x) => NewestFits(h, before, x);
      case Insert(x, at) => InsertFits(h, before, x, at);
      case _ => QuietStepFits(h, before, step);
  }

  // ---- Every row is accounted for ----

  /** Rows committed by sessions that are still open. */
  ghost function Outstanding(open: map<nat, Session>): nat
    decreases |open|
  {
    if open == map[] then 0
    else
      var x :| x in open;
      open[x].count + Outstanding(open - {x})
  }

  lemma {:induction false} OutstandingOf(open: map<nat, Session>, x: nat)
    requires x in open
    ensures Outstanding(open) == open[x].count + Outstanding(open - {x})
    decreases |open|
  {
    var y :| y in open && Outstanding(open) == open[y].count + Outstanding(open - {y});
    if y != x {
      OutstandingOf(open - {y}, x);
      OutstandingOf(open - {x}, y);
      assert open - {y} - {x} == open - {x} - {y};
    }
  }

  lemma OutstandingSet(open: map<nat, Session>, x: nat, session: Session)
    ensures Outstanding(open[x := session]) == session.count + Outstanding(open - {x})
    ensures x !in open ==> open - {x} == open
  {
    OutstandingOf(open[x := session], x);
    assert open[x := session] - {x} == open - {x};
  }

  /** Rows of code reviews. */
  function ReviewedRows(run: Run): nat {
    match run
    case Begin => 0
    case Next(before, step) => ReviewedRows(before) + if step.Review? then |step.findings| else 0
  }

  /** Rows of sessions that gave up. */
  ghost function GivenUpRows(h: Digest, run: Run): nat {
    match run
    case Begin => 0
    case Next(before, step) =>
      GivenUpRows(h, before)
      + if step.GiveUp? && step.session in At(h, before).open then At(h, before).open[step.session].count else 0
  }

  /** What a step does to the rows that wait to be sealed. */
  lemma OutstandingStep(h: Digest, s: System, step: Step)
    requires Sane(s) && Enabled(s, step)
    requires step.Newest? && s.rows == [] ==> s.open[step.session].count == 0
    ensures Outstanding(Do(h, s, step).open) == Outstanding(s.open)
              + (if step.Commit? then |step.ruleIds| else 0)
              - (if step.Insert? || step.GiveUp? then s.open[step.session].count else 0)
  {
    var t := Do(h, s, step);
    match step
    case Commit(x, _) => OutstandingSet(s.open, x, t.open[x]);
    case Newest(x) =>
      OutstandingOf(s.open, x);
      if x in t.open {
        OutstandingSet(s.open, x, t.open[x]);
      }
    case ReadLast(x) =>
      OutstandingOf(s.open, x);
      OutstandingSet(s.open, x, t.open[x]);
    case Insert(x, _) => OutstandingOf(s.open, x);
    case GiveUp(x) => OutstandingOf(s.open, x);
    case Review(_) =>
  }

  /** In every interleaving the log holds the sealed rows, the code-review rows, the
      rows of failed seals and those committed and not sealed yet, no others. */
  lemma {:induction false} EveryRowIsAccountedFor(h: Digest, run: Run)
    requires Possible(h, run)
    ensures var s := At(h, run);
            |s.rows| == BatchTotal(s.chain) + ReviewedRows(run) + GivenUpRows(h, run) + Outstanding(s.open)
  {
    match run
    case Begin =>
    case Next(before, step) =>
      EveryRowIsAccountedFor(h, before);
      var s := At(h, before);
      if step.Newest? {
        AlwaysFits(h, before);
        assert SessionFits(s, before, step.session);
      }
      OutstandingStep(h, s, step);
      if step.Insert? {
        assert At(h, run).chain[..|s.chain|] == s.chain;
      }
  }

  // ---- Which position a block covers ----

  ghost predicate NeverDecreases(chain: seq<Block>) {
    forall i, j :: 0 <= i < j < |chain| ==> chain[i].lastLogId <= chain[j].lastLogId
  }

  /** Some block covers more than the session has been told of. */
  ghost predicate Behind(s: System, x: nat)
    requires x in s.open && s.open[x].newest.Some?
  {
    exists i :: 0 <= i < |s.chain| && s.chain[i].lastLogId > s.open[x].newest.value
  }

  lemma {:induction false} BehindIffOvertaken(h: Digest, run: Run, x: nat)
    requires Possible(h, run) && x in At(h, run).open && At(h, run).open[x].newest.Some?
    ensures Behind(At(h, run), x) <==> Overtaken(run, x)
  {
    match run
    case Begin =>
    case Next(before, step) =>
      AlwaysFits(h, before);
      var s, t := At(h, before), At(h, run);
      if step == Newest(x) {
        forall i | 0 <= i < |t.chain| ensures t.chain[i].lastLogId <= |s.rows| {
          assert BlockFits(s, i);
        }
      } else {
        BehindIffOvertaken(h, before, x);
        assert SessionFits(s, before, x);
        if step.Insert? {
          assert SessionFits(s, before, step.session);
          assert t.chain[|s.chain|].lastLogId == s.open[step.session].newest.value;
          assert forall i :: 0 <= i < |s.chain| ==> t.chain[i] == s.chain[i];
        }
      }
  }

  /** The covered log position never goes back exactly when no insert comes after that
      of a session which had asked later, with rows committed in between. */
  lemma {:induction false} PositionNeverDecreasesIff(h: Digest, run: Run)
    requires Possible(h, run)
    ensures NeverDecreases(At(h, run).chain) <==> EveryInsert(run, InTurn)
  {
    match run
    case Begin =>
    case Next(before, step) =>
      PositionNeverDecreasesIff(h, before);
      var s, t := At(h, before), At(h, run);
      if step.Insert? {
        BehindIffOvertaken(h, before, step.session);
        assert t.chain[|s.chain|].lastLogId == s.open[step.session].newest.value;
        assert forall i :: 0 <= i < |s.chain| ==> t.chain[i] == s.chain[i];
      }
  }

  /** The rows a block counts back from its position are those of its own session. */
  ghost predicate CoversOwnRows(s: System, i: nat)
    requires i < |s.chain| == |s.firsts|
  {
    s.chain[i].lastLogId == s.firsts[i] + s.chain[i].count
  }

  /** All blocks do exactly when every session that inserts had asked before anybody
      else committed. */
  lemma {:induction false} CoverOwnRowsIff(h: Digest, run: Run)
    requires Possible(h, run)
    ensures var s := At(h, run);
            && |s.chain| == |s.firsts|
            && ((forall i :: 0 <= i < |s.chain| ==> CoversOwnRows(s, i)) <==> EveryInsert(run, Undisturbed))
  {
    AlwaysFits(h, run);
    match run
    case Begin =>
    case Next(before, step) =>
      CoverOwnRowsIff(h, before);
      var s, t := At(h, before), At(h, run);
      forall i | 0 <= i < |s.chain| ensures CoversOwnRows(t, i) <==> CoversOwnRows(s, i) {
      }
      if step.Insert? {
        AlwaysFits(h, before);
        assert SessionFits(s, before, step.session);
        assert CoversOwnRows(t, |s.chain|) <==> Undisturbed(before, step.session);
      }
  }

  /** Rows belong to one session each, sealed or not. */
  ghost predicate Apart(first: nat, count: nat, first': nat, count': nat) {
    first + count <= first' || first' + count' <= first
  }

  ghost predicate AllApart(s: System) {
    && |s.chain| == |s.firsts|
    && (forall i, j :: 0 <= i < j < |s.chain| ==>
          Apart(s.firsts[i], s.chain[i].count, s.firsts[j], s.chain[j].count))
    && (forall i, x :: 0 <= i < |s.chain| && x in s.open ==>
          Apart(s.firsts[i], s.chain[i].count, s.open[x].first, s.open[x].count))
    && (forall x, y :: x in s.open && y in s.open && x != y ==>
          Apart(s.open[x].first, s.open[x].count, s.open[y].first, s.open[y].count))
  }

  lemma CommitKeepsApart(h: Digest, before: Run, x: nat, ids: seq<string>)
    requires Possible(h, Next(before, Commit(x, ids))) && AllApart(At(h, before))
    ensures AllApart(At(h, Next(before, Commit(x, ids))))
  {
    var s := At(h, before);
    AlwaysFits(h, before);
    forall i | 0 <= i < |s.chain| ensures s.firsts[i] + s.chain[i].count <= |s.rows| {
      assert BlockFits(s, i);
    }
    forall y | y in s.open ensures s.open[y].first + s.open[y].count <= |s.rows| {
      assert SessionFits(s, before, y);
    }
  }

  lemma StepKeepsApart(h: Digest, s: System, step: Step)
    requires Sane(s) && Enabled(s, step) && AllApart(s) && !step.Commit?
    ensures AllApart(Do(h, s, step))
  {
    var t := Do(h, s, step);
    forall x | x in t.open ensures x in s.open && t.open[x].first == s.open[x].first && t.open[x].count == s.open[x].count {
    }
  }

  lemma {:induction false} OwnRowsApart(h: Digest, run: Run)
    requires Possible(h, run)
    ensures AllApart(At(h, run))
  {
    match run
    case Begin =>
    case Next(before, step) =>
      OwnRowsApart(h, before);
      if step.Commit? {
        CommitKeepsApart(h, before, step.session, step.ruleIds);
      } else {
        StepKeepsApart(h, At(h, before), step);
      }
  }

  /** So in such runs no two blocks cover a common row. */
  lemma UndisturbedRangesAreDisjoint(h: Digest, run: Run, i: nat, j: nat)
    requires Possible(h, run) && EveryInsert(run, Undisturbed) && i < j < |At(h, run).chain|
    ensures var a, b := At(h, run).chain[i], At(h, run).chain[j];
            a.lastLogId <= b.lastLogId - b.count || b.lastLogId <= a.lastLogId - a.count
  {
    CoverOwnRowsIff(h, run);
    OwnRowsApart(h, run);
    var s := At(h, run);
    assert CoversOwnRows(s, i) && CoversOwnRows(s, j);
  }

  // ---- Whether the newest row is covered ----

  /** No row has a higher id than the chain covers. */
  ghost predicate Covered(s: System) {
    s.rows == [] || exists i :: 0 <= i < |s.chain| && s.chain[i].lastLogId == |s.rows|
  }

  /** Some session has asked and inserted since rows were last committed. */
  predicate SealedSinceCommit(run: Run) {
    match run
    case Begin => true
    case Next(before, step) =>
      if step.Insert? then SealedSinceCommit(before) || RowsSinceAsked(before, step.session) == 0
      else SealedSinceCommit(before) && RowsOf(step) == 0
  }

  /** The newest row is covered exactly when a session that has asked since the last
      rows were committed has inserted; code reviews and failed seals leave it open. */
  lemma {:induction false} CoveredIff(h: Digest, run: Run)
    requires Possible(h, run)
    ensures Covered(At(h, run)) <==> SealedSinceCommit(run)
  {
    match run
    case Begin =>
    case Next(before, step) =>
      CoveredIff(h, before);
      AlwaysFits(h, before);
      var s, t := At(h, before), At(h, run);
      forall i | 0 <= i < |s.chain| ensures s.chain[i].lastLogId <= |s.rows| && t.chain[i] == s.chain[i] {
        assert BlockFits(s, i);
      }
      if step.Insert? {
        assert SessionFits(s, before, step.session);
        assert t.chain[|s.chain|].lastLogId == s.open[step.session].newest.value;
      }
  }

  /** A code review with findings, and nothing else: its rows are never covered. */
  lemma UncoveredExample(h: Digest)
    ensures Possible(h, Next(Begin, Step.Review(["r1"]))) && !Covered(At(h, Next(Begin, Step.Review(["r1"]))))
  {
    CoveredIff(h, Next(Begin, Step.Review(["r1"])));
  }

  // ---- Whether the chain verifies ----

  lemma {:induction false} CurrentMeans(h: Digest, run: Run, x: nat)
    requires Possible(h, run) && x in At(h, run).open && At(h, run).open[x].seen.Some?
    ensures Current(run, x) <==> At(h, run).open[x].seen.value == |At(h, run).chain|
  {
    match run
    case Begin =>
    case Next(before, step) =>
      var s := At(h, before);
      if step != ReadLast(x) {
        SeenBefore(h, s, step, x);
        CurrentMeans(h, before, x);
      }
  }

  /** A session that has read and does not read now had read before, the same. */
  lemma SeenBefore(h: Digest, s: System, step: Step, x: nat)
    requires Sane(s) && Enabled(s, step) && step != ReadLast(x)
    requires x in Do(h, s, step).open && Do(h, s, step).open[x].seen.Some?
    ensures x in s.open && s.open[x].seen == Do(h, s, step).open[x].seen
    ensures |Do(h, s, step).chain| == |s.chain| + if step.Insert? then 1 else 0
  {
  }

  /** With colliding hashes ruled out, the chain left by interleaved sessions verifies
      exactly when every insert had read the block right before it. */
  lemma {:induction false} RaceBreaksChainIff(h: Digest, run: Run)
    requires Possible(h, run) && Collisionless(At(h, run).chain)
    ensures Intact(At(h, run).chain) <==> EveryInsert(run, Current)
  {
    match run
    case Begin =>
    case Next(before, step) =>
      var s, chain := At(h, before), At(h, run).chain;
      if step.Insert? {
        assert forall i :: 0 <= i < |s.chain| ==> s.chain[i] == chain[i];
        RaceBreaksChainIff(h, before);
        IntactExtended(s.chain, chain[|s.chain|]);
        CurrentMeans(h, before, step.session);
      } else {
        RaceBreaksChainIff(h, before);
      }
  }

  /** Seals that do not overlap: each insert directly follows its own read. */
  ghost predicate OneAtATime(run: Run) {
    match run
    case Begin => true
    case Next(before, step) =>
      OneAtATime(before) && (step.Insert? ==> before.Next? && before.step == ReadLast(step.session))
  }

  /** Seals that do not overlap always leave an intact chain, collisions or not. */
  lemma {:induction false} OneAtATimeIsIntact(h: Digest, run: Run)
    requires Possible(h, run) && OneAtATime(run)
    ensures EveryInsert(run, Current) && Intact(At(h, run).chain)
  {
    match run
    case Begin =>
    case Next(before, step) =>
      OneAtATimeIsIntact(h, before);
      if step.Insert? {
        var s := At(h, before);
        CurrentMeans(h, before, step.session);
        IntactExtended(s.chain, At(h, run).chain[|s.chain|]);
      }
  }

  // ---- One scan after the other ----

  /** The steps of one scan that nobody interrupts. */
  function ScanSteps(run: Run, ids: seq<string>, works: bool, at: string): Run {
    var asked := Next(Next(run, Commit(0, ids)), Newest(0));
    if ids == [] then asked
    else if works then Next(Next(asked, ReadLast(0)), Insert(0, at))
    else Next(asked, GiveUp(0))
  }

  /** The steps of scans and code reviews that do not overlap. */
  function Serial(history: History): Run {
    match history
    case Empty => Begin
    case After(past, Review(ids)) => Next(Serial(past), Step.Review(ids))
    case After(past, Scan(ids, works, at)) => ScanSteps(Serial(past), ids, works, at)
  }

  /** The system with one open session, of the rows `ids`. */
  function During(s: System, ids: seq<string>, newest: Option<nat>, seen: Option<nat>): System {
    s.(rows := AddRows(s.rows, ids, Scanned), open := map[0 := Session(|s.rows|, |ids|, newest, seen)])
  }

  lemma ScanAsks(h: Digest, run: Run, ids: seq<string>)
    requires Possible(h, run) && At(h, run).open == map[]
    ensures var s, asked := At(h, run), Next(Next(run, Commit(0, ids)), Newest(0));
            && Possible(h, asked)
            && At(h, Next(run, Commit(0, ids))) == During(s, ids, None, None)
            && At(h, asked) ==
                 if ids == [] then s
                 else During(s, ids, Some(AddRows(s.rows, ids, Scanned)[|s.rows| + |ids| - 1].id), None)
  {
    var s, committed := At(h, run), Next(run, Commit(0, ids));
    assert At(h, committed).open == map[0 := Session(|s.rows|, |ids|, None, None)];
    assert map[0 := Session(|s.rows|, |ids|, None, None)] - {0} == map[];
  }

  /** A session that reads and inserts at once extends the chain by its block. */
  lemma SealOf(h: Digest, run: Run, s: System, x: nat, at: string)
    requires Possible(h, run) && At(h, run) == s && Enabled(s, ReadLast(x))
    ensures var sealed := Next(Next(run, ReadLast(x)), Insert(x, at));
            var b := SealedBlock(h, Expected(s.chain, |s.chain|), |s.chain| + 1, s.open[x].newest.value, s.open[x].count, at);
            && Possible(h, sealed)
            && At(h, sealed) == System(s.rows, s.chain + [b], s.firsts + [s.open[x].first], s.open - {x})
  {
    var read := Next(run, ReadLast(x));
    assert At(h, read) == s.(open := s.open[x := s.open[x].(seen := Some(|s.chain|))]);
    assert s.open[x := s.open[x].(seen := Some(|s.chain|))] - {x} == s.open - {x};
  }

  lemma SealedScan(h: Digest, run: Run, ids: seq<string>, at: string)
    requires Possible(h, run) && At(h, run).open == map[] && ids != []
    ensures var run' := ScanSteps(run, ids, true, at);
            && Possible(h, run') && At(h, run').open == map[]
            && Ledger(At(h, run').rows, At(h, run').chain)
                 == Recorded(h, Ledger(At(h, run).rows, At(h, run).chain), Scan(ids, true, at))
  {
    var s, asked := At(h, run), Next(Next(run, Commit(0, ids)), Newest(0));
    ScanAsks(h, run, ids);
    SealOf(h, asked, At(h, asked), 0, at);
    assert At(h, asked).open - {0} == map[];
  }

  lemma FailedScan(h: Digest, run: Run, ids: seq<string>, at: string)
    requires Possible(h, run) && At(h, run).open == map[] && ids != []
    ensures var run' := ScanSteps(run, ids, false, at);
            && Possible(h, run') && At(h, run').open == map[]
            && Ledger(At(h, run').rows, At(h, run').chain)
                 == Recorded(h, Ledger(At(h, run).rows, At(h, run).chain), Scan(ids, false, at))
  {
    var asked := Next(Next(run, Commit(0, ids)), Newest(0));
    ScanAsks(h, run, ids);
    assert At(h, asked).open - {0} == map[];
  }

  lemma SerialScan(h: Digest, run: Run, ids: seq<string>, works: bool, at: string)
    requires Possible(h, run) && At(h, run).open == map[]
    ensures var run' := ScanSteps(run, ids, works, at);
            && Possible(h, run') && At(h, run').open == map[]
            && Ledger(At(h, run').rows, At(h, run').chain)
                 == Recorded(h, Ledger(At(h, run).rows, At(h, run).chain), Scan(ids, works, at))
  {
    if ids == [] {
      ScanAsks(h, run, ids);
    } else if works {
      SealedScan(h, run, ids, at);
    } else {
      FailedScan(h, run, ids, at);
    }
  }

  /** What the methods of the store make of a history is what its steps make of it. */
  lemma {:induction false} SerialIsBook(h: Digest, history: History)
    ensures var s := At(h, Serial(history));
            && Possible(h, Serial(history)) && s.open == map[]
            && Ledger(s.rows, s.chain) == Book(h, history)
  {
    match history
    case Empty =>
    case After(past, Review(_)) => SerialIsBook(h, past);
    case After(past, Scan(ids, works, at)) =>
      SerialIsBook(h, past);
      SerialScan(h, Serial(past), ids, works, at);
  }

  /** The insert of an uninterrupted scan is in turn and undisturbed. */
  lemma ScanInserts(run: Run, ids: seq<string>, works: bool, at: string)
    requires OneAtATime(run) && EveryInsert(run, InTurn) && EveryInsert(run, Undisturbed)
    ensures var run' := ScanSteps(run, ids, works, at);
            && OneAtATime(run') && EveryInsert(run', InTurn) && EveryInsert(run', Undisturbed)
            && ReviewedRows(run') == ReviewedRows(run)
  {
    var committed := Next(run, Commit(0, ids));
    var asked := Next(committed, Newest(0));
    var read := Next(asked, ReadLast(0));
    assert OneAtATime(asked) && EveryInsert(asked, InTurn) && EveryInsert(asked, Undisturbed);
    assert OneAtATime(read) && EveryInsert(read, InTurn) && EveryInsert(read, Undisturbed);
    assert RowsSinceCommit(committed, 0) == 0;
    assert Undisturbed(asked, 0) && Undisturbed(read, 0);
    assert !Overtaken(asked, 0) && !Overtaken(read, 0) && InTurn(read, 0);
    assert ReviewedRows(committed) == ReviewedRows(asked) == ReviewedRows(read) == ReviewedRows(run);
  }

  lemma {:induction false} SerialInserts(history: History)
    ensures OneAtATime(Serial(history))
    ensures EveryInsert(Serial(history), InTurn) && EveryInsert(Serial(history), Undisturbed)
    ensures ReviewedRows(Serial(history)) == ReviewTotal(history)
  {
    match history
    case Empty =>
    case After(past, Review(_)) => SerialInserts(past);
    case After(past, Scan(ids, works, at)) =>
      SerialInserts(past);
      ScanInserts(Serial(past), ids, works, at);
  }

  lemma ScanGivesUp(h: Digest, run: Run, ids: seq<string>, works: bool, at: string)
    requires Possible(h, run) && At(h, run).open == map[]
    ensures GivenUpRows(h, ScanSteps(run, ids, works, at)) == GivenUpRows(h, run) + if works then 0 else |ids|
  {
    var committed := Next(run, Commit(0, ids));
    var asked := Next(committed, Newest(0));
    ScanAsks(h, run, ids);
    assert GivenUpRows(h, committed) == GivenUpRows(h, asked) == GivenUpRows(h, run);
    assert GivenUpRows(h, Next(asked, ReadLast(0))) == GivenUpRows(h, run);
  }

  lemma {:induction false} SerialGivesUp(h: Digest, history: History)
    ensures GivenUpRows(h, Serial(history)) == FailedTotal(history)
  {
    match history
    case Empty =>
    case After(past, Review(_)) => SerialGivesUp(h, past);
    case After(past, Scan(ids, works, at)) =>
      SerialGivesUp(h, past);
      SerialIsBook(h, past);
      ScanGivesUp(h, Serial(past), ids, works, at);
  }

  /** Blocks of sessions that ask undisturbed and insert in turn cover disjoint ranges
      of row ids, in increasing order. */
  lemma RangesAreInOrder(h: Digest, run: Run)
    requires Possible(h, run) && EveryInsert(run, InTurn) && EveryInsert(run, Undisturbed)
    ensures RangesInOrder(At(h, run).chain, |At(h, run).rows|)
  {
    var s := At(h, run);
    AlwaysFits(h, run);
    PositionNeverDecreasesIff(h, run);
    forall i | 0 <= i < |s.chain| ensures 0 < s.chain[i].count <= s.chain[i].lastLogId <= |s.rows| {
      assert BlockFits(s, i);
    }
    forall i, j | 0 <= i < j < |s.chain| ensures s.chain[i].lastLogId <= s.chain[j].lastLogId - s.chain[j].count {
      UndisturbedRangesAreDisjoint(h, run, i, j);
    }
  }

  /** Scans one after the other leave an intact chain of disjoint id ranges in
      increasing order, and a log of sealed, code-review and failed rows. */
  lemma SerialScansAreInOrder(h: Digest, history: History)
    ensures var l := Book(h, history);
            && Consistent(l) && NeverDecreases(l.chain)
            && |l.rows| == BatchTotal(l.chain) + ReviewTotal(history) + FailedTotal(history)
  {
    var run := Serial(history);
    SerialIsBook(h, history);
    SerialInserts(history);
    SerialGivesUp(h, history);
    EveryRowIsAccountedFor(h, run);
    OneAtATimeIsIntact(h, run);
    RangesAreInOrder(h, run);
    assert Fits(At(h, run), run) by {
      AlwaysFits(h, run);
    }
  }

  // ---- What is hashed, and what is logged ----

  /** A time at which the run inserts a block. */
  ghost predicate InsertsAt(run: Run, at: string) {
    match run
    case Begin => false
    case Next(before, step) => (step.Insert? && step.at == at) || InsertsAt(before, at)
  }

  /** In every interleaving the hash of every block is the digest of the previous hash it
      carries, its position and count, and the time of an insert. */
  lemma {:induction false} EveryBlockIsHashed(h: Digest, run: Run, i: nat)
    requires Possible(h, run) && i < |At(h, run).chain|
    ensures var b := At(h, run).chain[i];
            && b.id == i + 1
            && exists at :: InsertsAt(run, at) && b.batchHash == h(b.prevHash, b.lastLogId, b.count, at)
  {
    match run
    case Next(before, step) =>
      var s := At(h, before);
      if i < |s.chain| {
        EveryBlockIsHashed(h, before, i);
        var b := s.chain[i];
        var at :| InsertsAt(before, at) && b.batchHash == h(b.prevHash, b.lastLogId, b.count, at);
        assert At(h, run).chain[i] == b && InsertsAt(run, at);
      } else {
        assert InsertsAt(run, step.at);
      }
  }

  function Directed(rows: seq<LogRow>, d: Direction): nat {
    if rows == [] then 0 else Directed(rows[..|rows| - 1], d) + if rows[|rows| - 1].direction == d then 1 else 0
  }

  lemma {:induction false} DirectedAdds(rows: seq<LogRow>, ids: seq<string>, d: Direction, e: Direction)
    ensures Directed(AddRows(rows, ids, d), e) == Directed(rows, e) + if d == e then |ids| else 0
    decreases |ids|
  {
    if ids != [] {
      var front := AddRows(rows, ids[..|ids| - 1], d);
      DirectedAdds(rows, ids[..|ids| - 1], d, e);
      assert AddRows(rows, ids, d)[..|front|] == front;
    }
  }

  lemma StepMarks(h: Digest, s: System, step: Step)
    requires Sane(s) && Enabled(s, step)
    ensures Directed(Do(h, s, step).rows, Reviewed) ==
              Directed(s.rows, Reviewed) + if step.Review? then |step.findings| else 0
  {
    match step
    case Commit(_, ids) => DirectedAdds(s.rows, ids, Scanned, Reviewed);
    case Review(ids) => DirectedAdds(s.rows, ids, Reviewed, Reviewed);
    case _ =>
  }

  /** Exactly the rows of code reviews are marked as such. */
  lemma {:induction false} ReviewsAreMarked(h: Digest, run: Run)
    requires Possible(h, run)
    ensures Directed(At(h, run).rows, Reviewed) == ReviewedRows(run)
  {
    match run
    case Begin =>
    case Next(before, step) =>
      ReviewsAreMarked(h, before);
      StepMarks(h, At(h, before), step);
  }

  // ---- Schedules that go wrong ----

  /** A commits one row and asks; B commits two, asks and seals; then A seals. */
  function LateSeal(): Run {
    var asked := Next(Next(Begin, Commit(0, ["r1"])), Newest(0));
    var other := Next(Next(asked, Commit(1, ["r2", "r3"])), Newest(1));
    Next(Next(Next(Next(other, ReadLast(1)), Insert(1, "t0")), ReadLast(0)), Insert(0, "t1"))
  }

  /** A commits one row, B two, and only then both ask and seal. */
  function LateQuestion(): Run {
    var committed := Next(Next(Begin, Commit(0, ["r1"])), Commit(1, ["r2", "r3"]));
    var asked := Next(Next(committed, Newest(0)), Newest(1));
    Next(Next(Next(Next(asked, ReadLast(1)), Insert(1, "t0")), ReadLast(0)), Insert(0, "t1"))
  }

  /** Two sessions that both read before either inserts. */
  function Overlap(): Run {
    var committed := Next(Next(Begin, Commit(0, ["r1"])), Commit(1, ["r2", "r3"]));
    var read := Next(Next(Next(Next(committed, Newest(0)), Newest(1)), ReadLast(0)), ReadLast(1));
    Next(Next(read, Insert(0, "t0")), Insert(1, "t1"))
  }

  lemma OneRow()
    ensures AddRows([], ["r1"], Scanned) == [LogRow(1, "r1", Scanned)]
    ensures AddRows([LogRow(1, "r1", Scanned)], ["r2", "r3"], Scanned)
              == [LogRow(1, "r1", Scanned), LogRow(2, "r2", Scanned), LogRow(3, "r3", Scanned)]
  {
    assert ["r1"][..0] == [] && ["r2", "r3"][..1] == ["r2"] && ["r2"][..0] == [];
    assert AddRows([LogRow(1, "r1", Scanned)], ["r2"], Scanned) == [LogRow(1, "r1", Scanned), LogRow(2, "r2", Scanned)];
  }

  lemma BothCommitted(h: Digest)
    ensures var run := Next(Next(Begin, Commit(0, ["r1"])), Commit(1, ["r2", "r3"]));
            && Possible(h, run)
            && At(h, run) == System([LogRow(1, "r1", Scanned), LogRow(2, "r2", Scanned), LogRow(3, "r3", Scanned)],
                                    [], [], map[0 := Session(0, 1, None, None), 1 := Session(1, 2, None, None)])
  {
    OneRow();
    assert At(h, Begin) == System([], [], [], map[]);
    assert At(h, Next(Begin, Commit(0, ["r1"])))
        == System([LogRow(1, "r1", Scanned)], [], [], map[0 := Session(0, 1, None, None)]);
  }

  /** Session 1 seals, then session 0, each right after its own read. */
  lemma TwoSeals(h: Digest, asked: Run, rows: seq<LogRow>, a: nat, b: nat)
    requires Possible(h, asked)
    requires At(h, asked) == System(rows, [], [], map[0 := Session(0, 1, Some(a), None), 1 := Session(1, 2, Some(b), None)])
    ensures var run := Next(Next(Next(Next(asked, ReadLast(1)), Insert(1, "t0")), ReadLast(0)), Insert(0, "t1"));
            var s := At(h, run);
            && Possible(h, run) && |s.chain| == 2 && s.firsts == [1, 0]
            && s.chain[0].lastLogId == b && s.chain[0].count == 2
            && s.chain[1].lastLogId == a && s.chain[1].count == 1
  {
    var one := Next(Next(asked, ReadLast(1)), Insert(1, "t0"));
    SealOf(h, asked, At(h, asked), 1, "t0");
    assert At(h, asked).open - {1} == map[0 := Session(0, 1, Some(a), None)];
    SealOf(h, one, At(h, one), 0, "t1");
  }

  lemma LateAsked(h: Digest)
    ensures var asked := Next(Next(Begin, Commit(0, ["r1"])), Newest(0));
            && Possible(h, asked)
            && At(h, asked) == System([LogRow(1, "r1", Scanned)], [], [], map[0 := Session(0, 1, Some(1), None)])
  {
    OneRow();
    var committed := Next(Begin, Commit(0, ["r1"]));
    assert At(h, Begin) == System([], [], [], map[]);
    assert At(h, committed) == System([LogRow(1, "r1", Scanned)], [], [], map[0 := Session(0, 1, None, None)]);
  }

  lemma OtherAsked(h: Digest)
    ensures var asked := Next(Next(Begin, Commit(0, ["r1"])), Newest(0));
            var other := Next(Next(asked, Commit(1, ["r2", "r3"])), Newest(1));
            && Possible(h, other)
            && At(h, other) == System([LogRow(1, "r1", Scanned), LogRow(2, "r2", Scanned), LogRow(3, "r3", Scanned)], [], [],
                                      map[0 := Session(0, 1, Some(1), None), 1 := Session(1, 2, Some(3), None)])
  {
    OneRow();
    LateAsked(h);
    var asked := Next(Next(Begin, Commit(0, ["r1"])), Newest(0));
    var both := Next(asked, Commit(1, ["r2", "r3"]));
    assert At(h, both).open == map[0 := Session(0, 1, Some(1), None), 1 := Session(1, 2, None, None)];
  }

  lemma LateSealInTurns()
    ensures OneAtATime(LateSeal())
  {
  }

  /** The seals do not overlap and the chain is intact, and yet the position goes back
      from 3 to 1. */
  lemma LateSealExample(h: Digest)
    ensures var chain := At(h, LateSeal()).chain;
            && Possible(h, LateSeal()) && OneAtATime(LateSeal()) && Intact(chain)
            && |chain| == 2 && chain[0].lastLogId == 3 && chain[1].lastLogId == 1
  {
    LateSealInTurns();
    OtherAsked(h);
    var asked := Next(Next(Begin, Commit(0, ["r1"])), Newest(0));
    var other := Next(Next(asked, Commit(1, ["r2", "r3"])), Newest(1));
    TwoSeals(h, other, At(h, other).rows, 1, 3);
    OneAtATimeIsIntact(h, LateSeal());
  }

  lemma BothAsked(h: Digest)
    ensures var committed := Next(Next(Begin, Commit(0, ["r1"])), Commit(1, ["r2", "r3"]));
            var asked := Next(Next(committed, Newest(0)), Newest(1));
            && Possible(h, asked)
            && At(h, asked) == System([LogRow(1, "r1", Scanned), LogRow(2, "r2", Scanned), LogRow(3, "r3", Scanned)], [], [],
                                      map[0 := Session(0, 1, Some(3), None), 1 := Session(1, 2, Some(3), None)])
  {
    BothCommitted(h);
    var committed := Next(Next(Begin, Commit(0, ["r1"])), Commit(1, ["r2", "r3"]));
    assert At(h, Next(committed, Newest(0))).open == map[0 := Session(0, 1, Some(3), None), 1 := Session(1, 2, None, None)];
  }

  /** Both blocks end at 3, so both cover row 3, and the second covers no row of its session. */
  lemma LateQuestionExample(h: Digest)
    ensures var s := At(h, LateQuestion());
            && Possible(h, LateQuestion()) && |s.chain| == |s.firsts| == 2
            && s.chain[0].lastLogId == s.chain[1].lastLogId == 3
            && !CoversOwnRows(s, 1)
  {
    BothAsked(h);
    var committed := Next(Next(Begin, Commit(0, ["r1"])), Commit(1, ["r2", "r3"]));
    var asked := Next(Next(committed, Newest(0)), Newest(1));
    TwoSeals(h, asked, At(h, asked).rows, 3, 3);
  }

  /** Two sessions that have read the empty chain insert one after the other. */
  lemma TwoInserts(h: Digest, read: Run, rows: seq<LogRow>)
    requires Possible(h, read) && h(GENESIS, 3, 1, "t0") != GENESIS
    requires At(h, read)
          == System(rows, [], [], map[0 := Session(0, 1, Some(3), Some(0)), 1 := Session(1, 2, Some(3), Some(0))])
    ensures var run := Next(Next(read, Insert(0, "t0")), Insert(1, "t1"));
            Possible(h, run) && !Intact(At(h, run).chain)
  {
    var one := Next(read, Insert(0, "t0"));
    var first := SealedBlock(h, GENESIS, 1, 3, 1, "t0");
    assert At(h, one) == System(rows, [first], [0], map[1 := Session(1, 2, Some(3), Some(0))]);
    assert !Linked(At(h, Next(one, Insert(1, "t1"))).chain, 1);
  }

  /** The second block does not carry the hash of the first, unless the digest of that
      happens to be the genesis hash. */
  lemma OverlapExample(h: Digest)
    requires h(GENESIS, 3, 1, "t0") != GENESIS
    ensures Possible(h, Overlap()) && !Intact(At(h, Overlap()).chain)
  {
    BothAsked(h);
    var committed := Next(Next(Begin, Commit(0, ["r1"])), Commit(1, ["r2", "r3"]));
    var asked := Next(Next(committed, Newest(0)), Newest(1));
    var one := Next(asked, ReadLast(0));
    assert At(h, one).open == map[0 := Session(0, 1, Some(3), Some(0)), 1 := Session(1, 2, Some(3), None)];
    TwoInserts(h, Next(one, ReadLast(1)), At(h, asked).rows);
  }
}
