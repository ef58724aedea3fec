/** Grouping the findings of a batch scan by file. */
module BatchScan {
  import opened Common

  datatype Finding = Finding(filePath: string, ruleId: string, severity: string)

  datatype FileResult = FileResult(filePath: string, triggered: seq<Finding>, severity: string)

  /** Python's string order: by code points, a proper prefix first. */
  predicate Less(a: string, b: string) {
    if a == "" then b != ""
    else if b == "" then false
    else a[0] < b[0] || (a[0] == b[0] && Less(a[1..], b[1..]))
  }

  /** One string stands before another exactly when, behind a common start, it ends or
      goes on with a smaller character. */
  lemma {:induction false} LessMeans(a: string, b: string)
    ensures Less(a, b) <==> exists k :: DiffersAt(a, b, k) && (k == |a| || a[k] < b[k])
  {
    if a != "" && b != "" && a[0] == b[0] {
      LessMeans(a[1..], b[1..]);
      if k :| DiffersAt(a[1..], b[1..], k) && (k == |a[1..]| || a[1..][k] < b[1..][k]) {
        assert a[..k + 1] == [a[0]] + a[1..][..k] && b[..k + 1] == [b[0]] + b[1..][..k];
        assert DiffersAt(a, b, k + 1);
      }
      if k :| DiffersAt(a, b, k) && (k == |a| || a[k] < b[k]) {
        assert a[..k][1..] == a[1..][..k - 1] && b[..k][1..] == b[1..][..k - 1];
        assert DiffersAt(a[1..], b[1..], k - 1);
      }
    } else if a == "" && b != "" {
      assert DiffersAt(a, b, 0);
    } else if a != "" && b != "" && a[0] < b[0] {
      assert DiffersAt(a, b, 0);
    }
  }

  /** The first `k` characters are the same, and the second string goes on. */
  ghost predicate DiffersAt(a: string, b: string, k: int) {
    0 <= k <= |a| && k < |b| && a[..k] == b[..k]
  }

  lemma {:induction false} LessIsTotal(a: string, b: string)
    ensures Less(a, b) || a == b || Less(b, a)
  {
    if a != "" && b != "" && a[0] == b[0] {
      LessIsTotal(a[1..], b[1..]);
      assert a == [a[0]] + a[1..] && b == [b[0]] + b[1..];
    }
  }

  lemma {:induction false} LessIsTransitive(a: string, b: string, c: string)
    requires Less(a, b) && Less(b, c)
    ensures Less(a, c)
  {
    if a != "" && a[0] == b[0] && b[0] == c[0] {
      LessIsTransitive(a[1..], b[1..], c[1..]);
    }
  }

  lemma {:induction false} LessIsStrict(a: string)
    ensures !Less(a, a)
  {
    if a != "" {
      LessIsStrict(a[1..]);
    }
  }

  /** Strictly increasing, so without repetitions. */
  ghost predicate Increasing(ks: seq<string>) {
    forall i, j :: 0 <= i < j < |ks| ==> Less(ks[i], ks[j])
  }

  /** Inserting into an increasing list, unless it is there already. */
  function Insert(k: string, ks: seq<string>): seq<string> {
    if ks == [] then [k]
    else if k == ks[0] then ks
    else if Less(k, ks[0]) then [k] + ks
    else [ks[0]] + Insert(k, ks[1..])
  }

  lemma {:induction false} InsertKeepsOrder(k: string, ks: seq<string>)
    requires Increasing(ks)
    ensures Increasing(Insert(k, ks))
    ensures forall x :: x in Insert(k, ks) <==> x == k || x in ks
  {
    if ks != [] {
      var head, tail := ks[0], ks[1..];
      assert ks == [head] + tail;
      InsertKeepsOrder(k, tail);
      LessIsTotal(k, head);
      if Less(k, head) {
        forall i | 0 <= i < |ks| ensures Less(k, ks[i]) {
          if i > 0 {
            LessIsTransitive(k, head, ks[i]);
          }
        }
      } else if k != head {
        var rest := Insert(k, tail);
        forall i | 0 <= i < |rest| ensures Less(head, rest[i]) {
          assert rest[i] in rest;
        }
      }
    }
  }

  /** The file paths of the findings, sorted. */
  function Paths(fs: seq<Finding>): seq<string> {
    if fs == [] then [] else Insert(fs[|fs| - 1].filePath, Paths(fs[..|fs| - 1]))
  }

  /** The findings of one file, in order. */
  function Of(path: string, fs: seq<Finding>): seq<Finding> {
    if fs == [] then []
    else
      var front, f := Of(path, fs[..|fs| - 1]), fs[|fs| - 1];
      if f.filePath == path then front + [f] else front
  }

  /** One finding belongs to its own file only. */
  lemma OfSingle(path: string, f: Finding)
    ensures Of(path, [f]) == if f.filePath == path then [f] else []
  {
    assert [f][..0] == [];
  }

  /** Findings of a file keep their order. */
  lemma {:induction false} OfKeepsOrder(path: string, fs: seq<Finding>, gs: seq<Finding>)
    ensures Of(path, fs + gs) == Of(path, fs) + Of(path, gs)
  {
    if gs == [] {
      assert fs + gs == fs;
    } else {
      var front := gs[..|gs| - 1];
      OfKeepsOrder(path, fs, front);
      assert (fs + gs)[..|fs + gs| - 1] == fs + front;
      assert Of(path, fs + gs) == if gs[|gs| - 1].filePath == path then Of(path, fs + front) + [gs[|gs| - 1]] else Of(path, fs + front);
    }
  }

  function Rank(severity: string): nat {
    match severity
    case "P0" => 0
    case "P1" => 1
    case "P2" => 2
    case _ => 99
  }

  ghost predicate Has(severity: string, fs: seq<Finding>) {
    exists f :: f in fs && f.severity == severity
  }

  /** The most severe of P0, P1, P2 among the findings, in this order, else "ok". */
  ghost predicate IsWorst(severity: string, fs: seq<Finding>) {
    severity == if Has("P0", fs) then "P0" else if Has("P1", fs) then "P1" else if Has("P2", fs) then "P2" else "ok"
  }

  method WorstSeverity(fs: seq<Finding>) returns (severity: string)
    ensures IsWorst(severity, fs)
  {
    var worst := 99;
    ghost var at := "ok";
    for i := 0 to |fs|
      invariant worst == 99 ==> forall f :: f in fs[..i] ==> Rank(f.severity) == 99
      invariant worst != 99 ==> worst < 99 && Rank(at) == worst && exists f :: f in fs[..i] && f.severity == at
      invariant forall f :: f in fs[..i] ==> worst <= Rank(f.severity)
    {
      assert fs[..i + 1] == fs[..i] + [fs[i]];
      assert fs[i] in fs[..i + 1];
      var rank := Rank(fs[i].severity);
      if rank < worst {
        worst := rank;
        at := fs[i].severity;
      }
    }
    assert fs[..|fs|] == fs;
    severity := if worst == 0 then "P0" else if worst == 1 then "P1" else if worst == 2 then "P2" else "ok";
  }

  method GroupByFile(fs: seq<Finding>) returns (groups: map<string, seq<Finding>>, paths: seq<string>)
    ensures paths == Paths(fs)
    ensures forall p :: p in groups <==> p in paths
    ensures forall p :: p in groups ==> groups[p] == Of(p, fs)
  {
    groups, paths := map[], [];
    for i := 0 to |fs|
      invariant paths == Paths(fs[..i])
      invariant forall p :: p in groups <==> p in paths
      invariant forall p :: p in groups ==> groups[p] == Of(p, fs[..i])
    {
      var p := fs[i].filePath;
      assert fs[..i + 1][..i] == fs[..i];
      PathsAre(fs[..i]);
      PathsAre(fs[..i + 1]);
      if p !in groups {
        NoFindings(p, fs[..i]);
      }
      groups := groups[p := (if p in groups then groups[p] else []) + [fs[i]]];
      paths := Insert(p, paths);
      InsertKeepsOrder(p, Paths(fs[..i]));
    }
    assert fs[..|fs|] == fs;
  }

  lemma {:induction false} PathsAre(fs: seq<Finding>)
    ensures Increasing(Paths(fs))
    ensures forall p :: p in Paths(fs) <==> exists f :: f in fs && f.filePath == p
  {
    if fs != [] {
      var front, last := fs[..|fs| - 1], fs[|fs| - 1];
      PathsAre(front);
      InsertKeepsOrder(last.filePath, Paths(front));
      assert fs == front + [last];
    }
  }

  lemma {:induction false} NoFindings(p: string, fs: seq<Finding>)
    requires forall f :: f in fs ==> f.filePath != p
    ensures Of(p, fs) == []
  {
    if fs != [] {
      NoFindings(p, fs[..|fs| - 1]);
    }
  }

  /** One result per file, sorted by path, each with the findings of the file in
      their order and the worst severity among them. */
  method FileResults(fs: seq<Finding>) returns (results: seq<FileResult>)
    ensures |results| == |Paths(fs)|
    ensures forall i :: 0 <= i < |results| ==>
              && results[i].filePath == Paths(fs)[i]
              && results[i].triggered == Of(results[i].filePath, fs)
              && IsWorst(results[i].severity, results[i].triggered)
  {
    var groups, paths := GroupByFile(fs);
    results := [];
    for i := 0 to |paths|
      invariant |results| == i
      invariant forall k :: 0 <= k < i ==>
                  && results[k].filePath == paths[k]
                  && results[k].triggered == Of(paths[k], fs)
                  && IsWorst(results[k].severity, results[k].triggered)
    {
      var severity := WorstSeverity(groups[paths[i]]);
      results := results + [FileResult(paths[i], groups[paths[i]], severity)];
    }
  }

  function CountOf(fs: seq<Finding>): string -> int {
    (p: string) => |Of(p, fs)|
  }

  /** The groups partition the findings: every finding belongs to exactly one listed
      file, and the group sizes add up to the number of findings. */
  lemma {:induction false} GroupsPartition(fs: seq<Finding>, ks: seq<string>)
    requires forall i, j :: 0 <= i < j < |ks| ==> ks[i] != ks[j]
    requires forall f :: f in fs ==> f.filePath in ks
    ensures Sum(CountOf(fs), ks) == |fs|
  {
    if fs == [] {
      SumZero(ks);
    } else {
      var front, last := fs[..|fs| - 1], fs[|fs| - 1];
      assert last in fs;
      GroupsPartition(front, ks);
      SumOneMore(front, last, ks);
      assert front + [last] == fs;
    }
  }

  lemma {:induction false} SumZero(ks: seq<string>)
    ensures Sum(CountOf([]), ks) == 0
  {
    if ks != [] {
      SumZero(ks[1..]);
    }
  }

  lemma {:induction false} SumOneMore(fs: seq<Finding>, f: Finding, ks: seq<string>)
    requires forall i, j :: 0 <= i < j < |ks| ==> ks[i] != ks[j]
    ensures Sum(CountOf(fs + [f]), ks) == Sum(CountOf(fs), ks) + (if f.filePath in ks then 1 else 0)
  {
    if ks != [] {
      SumOneMore(fs, f, ks[1..]);
      assert (fs + [f])[..|fs|] == fs;
      assert ks == [ks[0]] + ks[1..];
    }
  }

  /** The totals of a batch scan: the listed files are exactly those with findings,
      in strictly increasing order, and their findings are all findings. */
  lemma TotalsAgree(fs: seq<Finding>)
    ensures Increasing(Paths(fs))
    ensures forall p :: p in Paths(fs) <==> Of(p, fs) != []
    ensures Sum(CountOf(fs), Paths(fs)) == |fs|
  {
    PathsAre(fs);
    var ks := Paths(fs);
    forall i, j | 0 <= i < j < |ks| ensures ks[i] != ks[j] {
      LessIsStrict(ks[i]);
    }
    GroupsPartition(fs, ks);
    forall p ensures p in ks <==> Of(p, fs) != [] {
      OfHas(p, fs);
    }
  }

  lemma {:induction false} OfHas(p: string, fs: seq<Finding>)
    ensures forall f :: f in Of(p, fs) <==> f in fs && f.filePath == p
    ensures Of(p, fs) != [] <==> exists f :: f in fs && f.filePath == p
  {
    if fs != [] {
      var front, last := fs[..|fs| - 1], fs[|fs| - 1];
      OfHas(p, front);
      assert fs == front + [last];
    }
  }
}
