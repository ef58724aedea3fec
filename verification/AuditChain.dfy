/**
 * The audit hash chain: verification of the stored blocks, what tampering is
 * noticed, and the store that logs and seals one scan after the other.
 */
module AuditChain {
  import opened Common

  type Hash = string

  const ZEROS: Hash := "0000000000000000"

  /** `"0" * 64` */
  const GENESIS: Hash := ZEROS + ZEROS + ZEROS + ZEROS

  /** One row of the chain table. */
  datatype Block = Block(id: nat, lastLogId: nat, batchHash: Hash, prevHash: Hash, count: nat)

  /** Any function of the block's contents and a timestamp stands for the digest. */
  type Digest = (Hash, nat, nat, string) -> Hash

  // ---- Verification ----

  function Expected(rows: seq<Block>, i: nat): Hash
    requires i <= |rows|
  {
    if i == 0 then GENESIS else rows[i - 1].batchHash
  }

  ghost predicate Linked(rows: seq<Block>, i: nat)
    requires i < |rows|
  {
    rows[i].prevHash == Expected(rows, i)
  }

  /** Every block carries the hash of the block before it. */
  ghost predicate Intact(rows: seq<Block>) {
    forall i :: 0 <= i < |rows| ==> Linked(rows, i)
  }

  /** `i` is the first block whose link is broken. */
  ghost predicate FirstBreak(rows: seq<Block>, i: nat) {
    i < |rows| && !Linked(rows, i) && forall j :: 0 <= j < i ==> Linked(rows, j)
  }

  datatype Report = Report(valid: bool, blocksVerified: nat, lastLogId: Option<nat>)

  /** Walks the rows in id order. A broken chain is reported with the id of the
      first broken block in the field otherwise used for the number of blocks. */
  method VerifyChain(rows: seq<Block>) returns (r: Report)
    ensures r.valid <==> Intact(rows)
    ensures r.valid ==>
              && r.blocksVerified == |rows|
              && r.lastLogId == (if rows == [] then None else Some(rows[|rows| - 1].lastLogId))
    ensures !r.valid ==>
              exists i: nat ::
                && FirstBreak(rows, i)
                && r.blocksVerified == rows[i].id
                && r.lastLogId == Some(rows[i].lastLogId)
  {
    if rows == [] {
      return Report(true, 0, None);
    }
    var prevBatchHash := GENESIS;
    for i := 0 to |rows|
      invariant prevBatchHash == Expected(rows, i)
      invariant forall j :: 0 <= j < i ==> Linked(rows, j)
    {
      if rows[i].prevHash != prevBatchHash {
        assert FirstBreak(rows, i);
        return Report(false, rows[i].id, Some(rows[i].lastLogId));
      }
      prevBatchHash := rows[i].batchHash;
    }
    return Report(true, |rows|, Some(rows[|rows| - 1].lastLogId));
  }

  /** Block ids as the database gives them: positive and increasing. */
  ghost predicate Increasing(rows: seq<Block>) {
    && (forall i :: 0 <= i < |rows| ==> rows[i].id > 0)
    && (forall i, j :: 0 <= i < j < |rows| ==> rows[i].id < rows[j].id)
  }

  /** The number reported for a broken chain is the number of blocks looked at, the
      broken one included, exactly when no id is missing up to that block. */
  lemma ReportedIdIsCountIff(rows: seq<Block>, i: nat)
    requires Increasing(rows) && FirstBreak(rows, i)
    ensures rows[i].id == i + 1 <==> forall j :: 0 <= j <= i ==> rows[j].id == j + 1
  {
    IdsKeepUp(rows, 0, i);
    if rows[i].id == i + 1 {
      forall j | 0 <= j <= i ensures rows[j].id == j + 1 {
        IdsKeepUp(rows, 0, j);
        IdsKeepUp(rows, j, i);
      }
    }
  }

  lemma {:induction false} IdsKeepUp(rows: seq<Block>, j: nat, i: nat)
    requires Increasing(rows) && j <= i < |rows|
    ensures rows[i].id >= rows[j].id + (i - j) && rows[j].id >= j + 1
    decreases i + j
  {
    if j > 0 {
      IdsKeepUp(rows, j - 1, j - 1);
    }
    if j < i {
      IdsKeepUp(rows, j, i - 1);
    }
  }

  /** Without its second block a chain of three is reported broken with number 3,
      where two blocks were looked at. */
  lemma ReportedIdExample()
    ensures var rows := [Block(1, 3, "a", GENESIS, 3), Block(3, 9, "c", "b", 2)];
            Increasing(rows) && FirstBreak(rows, 1) && rows[1].id == 3
  {
    var rows := [Block(1, 3, "a", GENESIS, 3), Block(3, 9, "c", "b", 2)];
    assert Linked(rows, 0);
    assert rows[1].prevHash[0] == 'b' && Expected(rows, 1)[0] == 'a';
  }

  // ---- What tampering is noticed ----

  /** No two blocks share a hash and none has the genesis hash. */
  ghost predicate Collisionless(rows: seq<Block>) {
    && (forall i, j :: 0 <= i < j < |rows| ==> rows[i].batchHash != rows[j].batchHash)
    && (forall i :: 0 <= i < |rows| ==> rows[i].batchHash != GENESIS)
  }

  /** The rows picked from `rows` by index, in any order and with repetitions. */
  function Pick(rows: seq<Block>, picks: seq<nat>): seq<Block>
    requires forall i :: 0 <= i < |picks| ==> picks[i] < |rows|
  {
    seq(|picks|, i requires 0 <= i < |picks| => rows[picks[i]])
  }

  /** Dropping, reordering or repeating blocks of an intact chain goes unnoticed
      exactly when what is left is a prefix of the original. */
  lemma RearrangementNoticedIff(rows: seq<Block>, picks: seq<nat>)
    requires Intact(rows) && Collisionless(rows)
    requires forall i :: 0 <= i < |picks| ==> picks[i] < |rows|
    ensures Intact(Pick(rows, picks)) <==> Pick(rows, picks) <= rows
    ensures Intact(Pick(rows, picks)) <==> forall i :: 0 <= i < |picks| ==> picks[i] == i
  {
    var kept := Pick(rows, picks);
    if Intact(kept) {
      IntactPicksInOrder(rows, picks, |picks|);
    }
    if forall i :: 0 <= i < |picks| ==> picks[i] == i {
      PicksInOrder(rows, picks);
    }
    if kept <= rows {
      forall i | 0 <= i < |kept| ensures Linked(kept, i) {
        assert kept[i] == rows[i] && Linked(rows, i);
        assert i > 0 ==> kept[i - 1] == rows[i - 1];
      }
    }
  }

  lemma PicksInOrder(rows: seq<Block>, picks: seq<nat>)
    requires forall i :: 0 <= i < |picks| ==> picks[i] < |rows| && picks[i] == i
    ensures Pick(rows, picks) <= rows
  {
    if picks != [] {
      assert picks[|picks| - 1] == |picks| - 1;
    }
    assert Pick(rows, picks) == rows[..|picks|];
  }

  lemma {:induction false} IntactPicksInOrder(rows: seq<Block>, picks: seq<nat>, n: nat)
    requires Intact(rows) && Collisionless(rows)
    requires forall i :: 0 <= i < |picks| ==> picks[i] < |rows|
    requires Intact(Pick(rows, picks)) && n <= |picks|
    ensures forall i :: 0 <= i < n ==> picks[i] == i
  {
    if n > 0 {
      IntactPicksInOrder(rows, picks, n - 1);
      var kept := Pick(rows, picks);
      var k := picks[n - 1];
      assert Linked(kept, n - 1) && Linked(rows, k);
      if n > 1 {
        assert picks[n - 2] == n - 2;
        assert kept[n - 2] == rows[n - 2];
      }
    }
  }

  /** Overwriting block `j` of an intact chain goes unnoticed exactly when its
      previous hash is kept and, unless it is the last block, its own hash too. */
  lemma OverwriteNoticedIff(rows: seq<Block>, j: nat, b: Block)
    requires Intact(rows) && j < |rows|
    ensures Intact(rows[j := b]) <==>
              b.prevHash == rows[j].prevHash && (j == |rows| - 1 || b.batchHash == rows[j].batchHash)
  {
    var forged := rows[j := b];
    assert Linked(rows, j);
    assert Linked(forged, j) <==> b.prevHash == rows[j].prevHash;
    if j + 1 < |rows| {
      assert Linked(rows, j + 1);
      assert Linked(forged, j + 1) <==> b.batchHash == rows[j].batchHash;
    }
    forall i | 0 <= i < |rows| && i != j && i != j + 1 ensures Linked(forged, i) {
      assert Linked(rows, i);
    }
  }

  /** The last block can be given another hash, position and count unnoticed, and
      any block another position and count. */
  lemma ForgedBlocksExample()
    ensures var chain := [Block(1, 3, "a", GENESIS, 3), Block(2, 7, "b", "a", 4)];
            && Intact(chain)
            && Intact(chain[1 := Block(2, 5, "forged", "a", 2)])
            && Intact(chain[0 := Block(1, 2, "a", GENESIS, 2)])
  {
    var chain := [Block(1, 3, "a", GENESIS, 3), Block(2, 7, "b", "a", 4)];
    assert Intact(chain);
    OverwriteNoticedIff(chain, 1, Block(2, 5, "forged", "a", 2));
    OverwriteNoticedIff(chain, 0, Block(1, 2, "a", GENESIS, 2));
  }

  /** Where an overwritten block is noticed: at the block itself if its previous
      hash was changed, otherwise at its successor. */
  lemma OverwriteNoticedAt(rows: seq<Block>, j: nat, b: Block)
    requires Intact(rows) && j < |rows|
    ensures b.prevHash != rows[j].prevHash ==> FirstBreak(rows[j := b], j)
    ensures b.prevHash == rows[j].prevHash && b.batchHash != rows[j].batchHash && j + 1 < |rows| ==>
              FirstBreak(rows[j := b], j + 1)
  {
    var forged := rows[j := b];
    forall i | 0 <= i < |rows| && i < j ensures Linked(forged, i) {
      assert Linked(rows, i);
    }
    assert Linked(rows, j);
    if j + 1 < |rows| {
      assert Linked(rows, j + 1);
    }
  }

  /** The two hash columns decide everything: whatever else is overwritten, the
      verdict stays the same, and so does the place where a break is found. */
  lemma OnlyLinksAreChecked(rows: seq<Block>, forged: seq<Block>, i: nat)
    requires |rows| == |forged|
    requires forall k :: 0 <= k < |rows| ==>
               forged[k].prevHash == rows[k].prevHash && forged[k].batchHash == rows[k].batchHash
    ensures Intact(forged) <==> Intact(rows)
    ensures FirstBreak(forged, i) <==> FirstBreak(rows, i)
  {
    assert forall k :: 0 <= k < |rows| ==> (Linked(forged, k) <==> Linked(rows, k));
  }

  // ---- Sealing ----

  function SealedBlock(h: Digest, prev: Hash, id: nat, lastLogId: nat, count: nat, at: string): Block {
    Block(id, lastLogId, h(prev, lastLogId, count, at), prev, count)
  }

  lemma IntactExtended(rows: seq<Block>, b: Block)
    ensures Intact(rows + [b]) <==> Intact(rows) && b.prevHash == Expected(rows, |rows|)
  {
    var longer := rows + [b];
    forall i | 0 <= i < |rows| ensures Linked(longer, i) <==> Linked(rows, i) {
      assert longer[i] == rows[i];
      assert i > 0 ==> longer[i - 1] == rows[i - 1];
    }
    assert Linked(longer, |rows|) <==> b.prevHash == Expected(rows, |rows|);
  }

  // ---- The log and its chain ----

  datatype Direction = Scanned | Reviewed
  datatype LogRow = LogRow(id: nat, ruleId: string, direction: Direction)

  /** The log and chain tables. Row ids are the autoincrement numbers 1, 2, ... */
  datatype Ledger = Ledger(rows: seq<LogRow>, chain: seq<Block>)

  /** A scan that triggered rules, with the fate of its seal, or a code review. */
  datatype Event =
    | Scan(ruleIds: seq<string>, sealWorks: bool, at: string)
    | Review(ruleIds: seq<string>)

  datatype History = Empty | After(past: History, event: Event)

  function AddRows(rows: seq<LogRow>, ruleIds: seq<string>, d: Direction): (r: seq<LogRow>)
    ensures |r| == |rows| + |ruleIds|
    decreases |ruleIds|
  {
    if ruleIds == [] then rows
    else
      var front := AddRows(rows, ruleIds[..|ruleIds| - 1], d);
      front + [LogRow(|front| + 1, ruleIds[|ruleIds| - 1], d)]
  }

  function Recorded(h: Digest, l: Ledger, e: Event): Ledger {
    match e
    case Review(ids) => l.(rows := AddRows(l.rows, ids, Reviewed))
    case Scan(ids, works, at) =>
      var rows := AddRows(l.rows, ids, Scanned);
      if ids == [] || !works then Ledger(rows, l.chain)
      else
        var prev := Expected(l.chain, |l.chain|);
        Ledger(rows, l.chain + [SealedBlock(h, prev, |l.chain| + 1, rows[|rows| - 1].id, |ids|, at)])
  }

  /** The genesis hash is 64 zeros. */
  lemma GenesisIsZeros()
    ensures |GENESIS| == 64 && forall i :: 0 <= i < 64 ==> GENESIS[i] == '0'
  {
    assert |ZEROS| == 16 && forall i :: 0 <= i < 16 ==> ZEROS[i] == '0';
  }

  /** A block is hashed together with the hash of the block before it. */
  lemma SealedBlockHashes(h: Digest, prev: Hash, id: nat, lastLogId: nat, count: nat, at: string)
    ensures var b := SealedBlock(h, prev, id, lastLogId, count, at);
            && b.prevHash == prev && b.id == id && b.lastLogId == lastLogId && b.count == count
            && b.batchHash == h(b.prevHash, b.lastLogId, b.count, at)
  {
  }

  /** Rows are appended one per rule, in order, numbered on, with their direction. */
  lemma {:induction false} AddRowsMeans(rows: seq<LogRow>, ids: seq<string>, d: Direction, i: nat)
    requires i < |rows| + |ids|
    ensures AddRows(rows, ids, d)[i] == if i < |rows| then rows[i] else LogRow(i + 1, ids[i - |rows|], d)
    decreases |ids|
  {
    if ids != [] && i < |rows| + |ids| - 1 {
      AddRowsMeans(rows, ids[..|ids| - 1], d, i);
    }
  }

  /** The audit tables and the methods that write them. */
  class AuditStore {
    var rows: seq<LogRow>
    var chain: seq<Block>

    constructor ()
      ensures rows == [] && chain == []
    {
      rows := [];
      chain := [];
    }

    /** Reads the newest block and inserts the next; a failing database leaves the chain as it was. */
    method SealChainBatch(h: Digest, lastLogId: nat, batchCount: nat, works: bool, at: string)
      modifies this`chain
      ensures batchCount == 0 || !works ==> chain == old(chain)
      ensures batchCount > 0 && works ==>
                && |chain| == |old(chain)| + 1 && chain[..|old(chain)|] == old(chain)
                && var b := chain[|old(chain)|];
                   && b.id == |old(chain)| + 1 && b.lastLogId == lastLogId && b.count == batchCount
                   && b.prevHash == (if old(chain) == [] then GENESIS else old(chain)[|old(chain)| - 1].batchHash)
                   && b.batchHash == h(b.prevHash, lastLogId, batchCount, at)
    {
      if batchCount <= 0 {
        return;
      }
      if works {
        var prevHash := if chain == [] then GENESIS else chain[|chain| - 1].batchHash;
        var batchHash := h(prevHash, lastLogId, batchCount, at);
        chain := chain + [Block(|chain| + 1, lastLogId, batchHash, prevHash, batchCount)];
      }
    }

    method AddAll(ruleIds: seq<string>, d: Direction)
      modifies this`rows
      ensures rows == AddRows(old(rows), ruleIds, d)
    {
      for i := 0 to |ruleIds|
        invariant rows == AddRows(old(rows), ruleIds[..i], d)
      {
        assert ruleIds[..i + 1][..i] == ruleIds[..i];
        rows := rows + [LogRow(|rows| + 1, ruleIds[i], d)];
      }
      assert ruleIds[..|ruleIds|] == ruleIds;
    }

    /** Writes one row per triggered rule, then seals them as one batch. */
    method LogToDb(h: Digest, ruleIds: seq<string>, works: bool, at: string)
      modifies this
      ensures Ledger(rows, chain) == Recorded(h, old(Ledger(rows, chain)), Scan(ruleIds, works, at))
    {
      AddAll(ruleIds, Scanned);
      if rows != [] {
        SealChainBatch(h, rows[|rows| - 1].id, |ruleIds|, works, at);
      }
    }

    /** Code review findings are logged but not sealed. */
    method LogCodeReviewFindings(h: Digest, ruleIds: seq<string>)
      modifies this
      ensures Ledger(rows, chain) == Recorded(h, old(Ledger(rows, chain)), Review(ruleIds))
    {
      AddAll(ruleIds, Reviewed);
    }
  }

  function Book(h: Digest, history: History): Ledger {
    match history
    case Empty => Ledger([], [])
    case After(past, e) => Recorded(h, Book(h, past), e)
  }

  function BatchTotal(chain: seq<Block>): nat {
    if chain == [] then 0 else BatchTotal(chain[..|chain| - 1]) + chain[|chain| - 1].count
  }

  /** Rows written by code reviews. */
  function ReviewTotal(history: History): nat {
    match history
    case Empty => 0
    case After(past, e) => ReviewTotal(past) + if e.Review? then |e.ruleIds| else 0
  }

  /** Rows of scans whose seal failed. */
  function FailedTotal(history: History): nat {
    match history
    case Empty => 0
    case After(past, e) => FailedTotal(past) + if e.Scan? && !e.sealWorks then |e.ruleIds| else 0
  }

  /** Row ids count up from one. */
  ghost predicate Numbered(rows: seq<LogRow>) {
    forall i :: 0 <= i < |rows| ==> rows[i].id == i + 1
  }

  /** Blocks cover disjoint ranges of row ids, in chain order, up to `last`. */
  ghost predicate RangesInOrder(chain: seq<Block>, last: nat) {
    && (forall i :: 0 <= i < |chain| ==> 0 < chain[i].count <= chain[i].lastLogId <= last)
    && (forall i, j :: 0 <= i < j < |chain| ==> chain[i].lastLogId <= chain[j].lastLogId - chain[j].count)
  }

  lemma {:induction false} AddRowsNumbered(rows: seq<LogRow>, ids: seq<string>, d: Direction)
    requires Numbered(rows)
    ensures Numbered(AddRows(rows, ids, d)) && rows <= AddRows(rows, ids, d)
    decreases |ids|
  {
    if ids != [] {
      AddRowsNumbered(rows, ids[..|ids| - 1], d);
    }
  }

  ghost predicate Consistent(l: Ledger) {
    Intact(l.chain) && Numbered(l.rows) && RangesInOrder(l.chain, |l.rows|)
  }
}
