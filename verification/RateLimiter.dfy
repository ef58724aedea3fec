/**
 * The in-memory sliding-window limiter. The program keeps, per key, a list of
 * admission times from which old entries are destroyed at every check. The
 * ground truth is `Admitted`: the times of all admissions of a key, never pruned.
 */
module RateLimiting {

  const WINDOW := 60.0

  datatype Request = Request(key: string, at: real)
  datatype Verdict = Verdict(allowed: bool, remaining: int)

  /** A run of checks, the latest one outermost. */
  datatype Run = Start | Then(past: Run, r: Request)

  type Windows = map<string, seq<real>>

  /** `[t for t in ts if t > cutoff]` */
  function Newer(ts: seq<real>, cutoff: real): seq<real> {
    if ts == [] then []
    else
      var kept, t := Newer(ts[..|ts| - 1], cutoff), ts[|ts| - 1];
      if t > cutoff then kept + [t] else kept
  }

  /** Number of times in the half-open window `(lo, hi]`. */
  function CountIn(ts: seq<real>, lo: real, hi: real): nat {
    if ts == [] then 0
    else CountIn(ts[..|ts| - 1], lo, hi) + (if lo < ts[|ts| - 1] <= hi then 1 else 0)
  }

  /** A `defaultdict(list)` lookup. */
  function Times(w: Windows, key: string): seq<real> {
    if key in w then w[key] else []
  }

  /** What one call of `check` does to the window lists. */
  function Updated(rpm: int, w: Windows, r: Request): Windows {
    var pruned := Newer(Times(w, r.key), r.at - WINDOW);
    w[r.key := if |pruned| >= rpm then pruned else pruned + [r.at]]
  }

  /** What one call of `check` answers. */
  function Answer(rpm: int, w: Windows, r: Request): Verdict {
    var count := |Newer(Times(w, r.key), r.at - WINDOW)|;
    if count >= rpm then Verdict(false, rpm) else Verdict(true, rpm - count - 1)
  }

  class RateLimiter {
    const rpm: int
    var windows: Windows

    constructor (requestsPerMinute: int)
      ensures rpm == requestsPerMinute && windows == map[]
    {
      rpm := requestsPerMinute;
      windows := map[];
    }

    /** `now` is the reading of the monotonic clock. */
    method Check(key: string, now: real) returns (allowed: bool, remaining: int)
      modifies this
      ensures windows == Updated(rpm, old(windows), Request(key, now))
      ensures Verdict(allowed, remaining) == Answer(rpm, old(windows), Request(key, now))
    {
      var cutoff := now - 60.0;
      windows := windows[key := Newer(Times(windows, key), cutoff)];
      var count := |windows[key]|;
      if count >= rpm {
        return false, rpm;
      }
      windows := windows[key := windows[key] + [now]];
      assert windows == old(windows)[key := Newer(Times(old(windows), key), cutoff) + [now]];
      return true, rpm - count - 1;
    }
  }

  /** The window lists after a run. */
  function State(rpm: int, run: Run): Windows {
    match run
    case Start => map[]
    case Then(past, r) => Updated(rpm, State(rpm, past), r)
  }

  /** The answer to request `r` arriving after the run `past`. */
  function Judge(rpm: int, past: Run, r: Request): Verdict {
    Answer(rpm, State(rpm, past), r)
  }

  /** Ground truth: the times of every request of `key` that the run admitted. */
  function Admitted(rpm: int, run: Run, key: string): seq<real> {
    match run
    case Start => []
    case Then(past, r) =>
      var earlier := Admitted(rpm, past, key);
      if r.key == key && Judge(rpm, past, r).allowed then earlier + [r.at] else earlier
  }

  /** The clock has not run backwards by the time it shows `now`. */
  ghost predicate NotBefore(run: Run, now: real) {
    match run
    case Start => true
    case Then(past, r) => r.at <= now && NotBefore(past, r.at)
  }

  /** Every clock reading of the run is at least the one before it. */
  ghost predicate Monotone(run: Run) {
    match run
    case Start => true
    case Then(past, r) => NotBefore(past, r.at)
  }

  function Quota(rpm: int): nat { if rpm < 0 then 0 else rpm }

  /** All admissions of the key of `r` in the 60 seconds before `r`, by the full history. */
  function Recent(rpm: int, past: Run, r: Request): nat {
    |Newer(Admitted(rpm, past, r.key), r.at - WINDOW)|
  }

  lemma NewerSnoc(ts: seq<real>, t: real, c: real)
    ensures Newer(ts + [t], c) == if t > c then Newer(ts, c) + [t] else Newer(ts, c)
  {
    assert (ts + [t])[..|ts|] == ts;
  }

  lemma CountSnoc(ts: seq<real>, t: real, lo: real, hi: real)
    ensures CountIn(ts + [t], lo, hi) == CountIn(ts, lo, hi) + (if lo < t <= hi then 1 else 0)
  {
    assert (ts + [t])[..|ts|] == ts;
  }

  lemma {:induction false} NewerTwice(ts: seq<real>, c: real, d: real)
    requires c <= d
    ensures Newer(Newer(ts, c), d) == Newer(ts, d)
  {
    if ts != [] {
      var front, t := ts[..|ts| - 1], ts[|ts| - 1];
      NewerTwice(front, c, d);
      NewerSnoc(Newer(front, c), t, d);
    }
  }

  /** The pruned list and the full history have the same recent part. */
  lemma {:induction false} PrunedIsRecent(rpm: int, run: Run, key: string, cutoff: real)
    requires NotBefore(run, cutoff + WINDOW)
    ensures Newer(Times(State(rpm, run), key), cutoff) == Newer(Admitted(rpm, run, key), cutoff)
  {
    match run
    case Start =>
    case Then(past, r) =>
      NotBeforeLater(past, r.at, cutoff + WINDOW);
      PrunedIsRecent(rpm, past, key, cutoff);
      if r.key == key {
        NewerOfUpdated(rpm, State(rpm, past), r, cutoff);
        NewerSnoc(Admitted(rpm, past, key), r.at, cutoff);
      }
  }

  lemma NewerOfUpdated(rpm: int, w: Windows, r: Request, cutoff: real)
    requires r.at - WINDOW <= cutoff
    ensures var kept := Newer(Times(w, r.key), cutoff);
            Newer(Times(Updated(rpm, w, r), r.key), cutoff) ==
              if Answer(rpm, w, r).allowed && r.at > cutoff then kept + [r.at] else kept
  {
    NewerTwice(Times(w, r.key), r.at - WINDOW, cutoff);
    NewerSnoc(Newer(Times(w, r.key), r.at - WINDOW), r.at, cutoff);
  }

  lemma NotBeforeLater(run: Run, now: real, later: real)
    requires NotBefore(run, now) && now <= later
    ensures NotBefore(run, later)
  {
  }

  /** Pruning never changes a verdict: a request is admitted exactly when fewer
      than `rpm` of ALL admissions of its key lie in the last 60 seconds. */
  lemma PruningIsInvisible(rpm: int, past: Run, r: Request)
    requires NotBefore(past, r.at)
    ensures Judge(rpm, past, r) ==
              if Recent(rpm, past, r) < rpm then Verdict(true, rpm - Recent(rpm, past, r) - 1)
              else Verdict(false, rpm)
  {
    PrunedIsRecent(rpm, past, r.key, r.at - WINDOW);
  }

  lemma {:induction false} CountWithinNewer(ts: seq<real>, lo: real, hi: real, cutoff: real)
    requires cutoff <= lo
    ensures CountIn(ts, lo, hi) <= |Newer(ts, cutoff)|
  {
    if ts != [] {
      CountWithinNewer(ts[..|ts| - 1], lo, hi, cutoff);
    }
  }

  /** The newest admission finds room in every window it falls into. */
  lemma AdmissionFits(rpm: int, past: Run, r: Request, lo: real)
    requires NotBefore(past, r.at) && Judge(rpm, past, r).allowed && lo < r.at <= lo + WINDOW
    ensures CountIn(Admitted(rpm, past, r.key), lo, lo + WINDOW) < rpm
  {
    PruningIsInvisible(rpm, past, r);
    CountWithinNewer(Admitted(rpm, past, r.key), lo, lo + WINDOW, r.at - WINDOW);
  }

  /** No window of 60 seconds, wherever it starts, holds more than the quota. */
  lemma {:induction false} WindowBound(rpm: int, run: Run, key: string, lo: real)
    requires Monotone(run)
    ensures CountIn(Admitted(rpm, run, key), lo, lo + WINDOW) <= Quota(rpm)
  {
    match run
    case Start =>
    case Then(past, r) =>
      NotBeforeIsMonotone(past, r.at);
      WindowBound(rpm, past, key, lo);
      if r.key == key && Judge(rpm, past, r).allowed {
        CountSnoc(Admitted(rpm, past, key), r.at, lo, lo + WINDOW);
        if lo < r.at <= lo + WINDOW {
          AdmissionFits(rpm, past, r, lo);
        }
      }
  }

  lemma NotBeforeIsMonotone(run: Run, now: real)
    requires NotBefore(run, now)
    ensures Monotone(run)
  {
  }

  lemma {:induction false} CountSplit(ts: seq<real>, lo: real, mid: real, hi: real)
    ensures CountIn(ts, lo, hi) <= CountIn(ts, lo, mid) + CountIn(ts, mid, hi)
  {
    if ts != [] {
      CountSplit(ts[..|ts| - 1], lo, mid, hi);
    }
  }

  lemma {:induction false} CountEmpty(ts: seq<real>, lo: real, hi: real)
    requires hi <= lo
    ensures CountIn(ts, lo, hi) == 0
  {
    if ts != [] {
      CountEmpty(ts[..|ts| - 1], lo, hi);
    }
  }

  /** Over any interval no longer than k minutes at most k quotas are admitted. */
  lemma {:induction false} IntervalBound(rpm: int, run: Run, key: string, lo: real, hi: real, k: nat)
    requires Monotone(run)
    requires hi <= lo + k as real * WINDOW
    ensures CountIn(Admitted(rpm, run, key), lo, hi) <= k * Quota(rpm)
    decreases k
  {
    var ts := Admitted(rpm, run, key);
    if k == 0 {
      CountEmpty(ts, lo, hi);
    } else {
      WindowBound(rpm, run, key, lo);
      IntervalBound(rpm, run, key, lo + WINDOW, hi, k - 1);
      CountSplit(ts, lo, lo + WINDOW, hi);
      assert k * Quota(rpm) == Quota(rpm) + (k - 1) * Quota(rpm);
    }
  }

  /** The requests of one key. */
  function Project(run: Run, key: string): Run {
    match run
    case Start => Start
    case Then(past, r) => if r.key == key then Then(Project(past, key), r) else Project(past, key)
  }

  lemma SameListSameStep(rpm: int, v: Windows, w: Windows, r: Request)
    requires Times(v, r.key) == Times(w, r.key)
    ensures Times(Updated(rpm, v, r), r.key) == Times(Updated(rpm, w, r), r.key)
    ensures Answer(rpm, v, r) == Answer(rpm, w, r)
  {
  }

  lemma OtherListsStay(rpm: int, w: Windows, r: Request, key: string)
    requires key != r.key
    ensures Times(Updated(rpm, w, r), key) == Times(w, key)
  {
  }

  /** Keys do not affect each other: neither the window list of a key nor its
      admissions change when the requests of all other keys are taken out. */
  lemma {:induction false} KeysAreIndependent(rpm: int, run: Run, key: string)
    ensures Times(State(rpm, run), key) == Times(State(rpm, Project(run, key)), key)
    ensures Admitted(rpm, run, key) == Admitted(rpm, Project(run, key), key)
  {
    match run
    case Start =>
    case Then(past, r) =>
      KeysAreIndependent(rpm, past, key);
      if r.key == key {
        SameListSameStep(rpm, State(rpm, past), State(rpm, Project(past, key)), r);
      } else {
        OtherListsStay(rpm, State(rpm, past), r, key);
      }
  }

  lemma VerdictDependsOnOwnKey(rpm: int, past: Run, r: Request)
    ensures Judge(rpm, past, r) == Judge(rpm, Project(past, r.key), r)
  {
    KeysAreIndependent(rpm, past, r.key);
  }

  /** The run with every refused request left out. */
  function WithoutRefused(rpm: int, run: Run): Run {
    match run
    case Start => Start
    case Then(past, r) =>
      if Judge(rpm, past, r).allowed then Then(WithoutRefused(rpm, past), r) else WithoutRefused(rpm, past)
  }

  lemma {:induction false} WithoutRefusedHistory(rpm: int, run: Run, now: real, key: string)
    requires NotBefore(run, now)
    ensures NotBefore(WithoutRefused(rpm, run), now)
    ensures Admitted(rpm, WithoutRefused(rpm, run), key) == Admitted(rpm, run, key)
  {
    match run
    case Start =>
    case Then(past, r) =>
      WithoutRefusedHistory(rpm, past, r.at, key);
      WithoutRefusedHistory(rpm, past, r.at, r.key);
      PruningIsInvisible(rpm, past, r);
      PruningIsInvisible(rpm, WithoutRefused(rpm, past), r);
      NotBeforeLater(WithoutRefused(rpm, past), r.at, now);
  }

  /** Refused requests use no quota: the next verdict is the one the run
      without them would have given. */
  lemma RefusalsUseNoQuota(rpm: int, past: Run, r: Request)
    requires NotBefore(past, r.at)
    ensures Judge(rpm, past, r) == Judge(rpm, WithoutRefused(rpm, past), r)
  {
    WithoutRefusedHistory(rpm, past, r.at, r.key);
    PruningIsInvisible(rpm, past, r);
    PruningIsInvisible(rpm, WithoutRefused(rpm, past), r);
  }

  /** `n` more requests of one key at one instant. */
  function Burst(past: Run, r: Request, n: nat): Run {
    if n == 0 then past else Then(Burst(past, r, n - 1), r)
  }

  /** How many more requests like `r` the quota leaves room for after `past`. */
  function Headroom(rpm: int, past: Run, r: Request): nat {
    Quota(rpm - Recent(rpm, past, r))
  }

  /** The history after one more request. */
  lemma AdmittedThen(rpm: int, past: Run, r: Request)
    requires NotBefore(past, r.at)
    ensures var history := Admitted(rpm, past, r.key);
            Admitted(rpm, Then(past, r), r.key) ==
              if Recent(rpm, past, r) < rpm then history + [r.at] else history
  {
    PruningIsInvisible(rpm, past, r);
  }

  /** One more request at the same instant uses one unit of headroom, if any is left. */
  lemma OneMore(rpm: int, past: Run, r: Request)
    requires NotBefore(past, r.at)
    ensures var extra := if Headroom(rpm, past, r) > 0 then 1 else 0;
            AdmittedCount(rpm, Then(past, r), r.key) == AdmittedCount(rpm, past, r.key) + extra &&
            Recent(rpm, Then(past, r), r) == Recent(rpm, past, r) + extra
  {
    AdmittedThen(rpm, past, r);
    NewerSnoc(Admitted(rpm, past, r.key), r.at, r.at - WINDOW);
  }

  function Min(a: nat, b: nat): nat { if a < b then a else b }

  function AdmittedCount(rpm: int, run: Run, key: string): nat {
    |Admitted(rpm, run, key)|
  }

  /** Headroom means what it says: of a burst of `n`, exactly the first
      `Headroom` requests are admitted. */
  lemma {:induction false} BurstAdmitsHeadroom(rpm: int, past: Run, r: Request, n: nat)
    requires NotBefore(past, r.at)
    ensures NotBefore(Burst(past, r, n), r.at)
    ensures Recent(rpm, Burst(past, r, n), r) == Recent(rpm, past, r) + Min(n, Headroom(rpm, past, r))
    ensures AdmittedCount(rpm, Burst(past, r, n), r.key)
         == AdmittedCount(rpm, past, r.key) + Min(n, Headroom(rpm, past, r))
  {
    if n > 0 {
      BurstAdmitsHeadroom(rpm, past, r, n - 1);
      var before := Burst(past, r, n - 1);
      OneMore(rpm, before, r);
      assert Headroom(rpm, before, r) == Headroom(rpm, past, r) - Min(n - 1, Headroom(rpm, past, r));
    }
  }

  /** The returned count is the headroom really left after the call exactly when
      the request was admitted or the limit is zero: a refusal answers `rpm`,
      while the headroom left is then 0. */
  lemma RemainingIsExactIff(rpm: int, past: Run, r: Request)
    requires NotBefore(past, r.at)
    ensures Judge(rpm, past, r).remaining == Headroom(rpm, Then(past, r), r)
            <==> Recent(rpm, past, r) < rpm || rpm == 0
  {
    PruningIsInvisible(rpm, past, r);
    OneMore(rpm, past, r);
  }

  /** With a limit of one, a second request at the same time is refused and told
      that one remains, while there is room for none. */
  lemma RefusedRemainingExample()
    ensures var r := Request("k", 0.0);
            var past := Then(Start, r);
            Judge(1, past, r) == Verdict(false, 1) && Headroom(1, Then(past, r), r) == 0
  {
    var r := Request("k", 0.0);
    var past := Then(Start, r);
    assert Newer([0.0], 0.0 - WINDOW) == [0.0] by {
      NewerSnoc([], 0.0, 0.0 - WINDOW);
      assert [] + [0.0] == [0.0];
    }
    assert Times(State(1, Start), "k") == [];
    assert Judge(1, Start, r).allowed;
    assert State(1, past) == map["k" := [] + [0.0]];
    assert Times(State(1, past), "k") == [0.0];
    assert Admitted(1, past, "k") == [0.0];
    assert Judge(1, past, r) == Verdict(false, 1);
    assert Admitted(1, Then(past, r), "k") == [0.0];
  }

  lemma NewerOne(t: real, c: real)
    ensures Newer([t], c) == if t > c then [t] else []
  {
    assert [] + [t] == [t];
    NewerSnoc([], t, c);
  }

  lemma FirstIsAdmitted(key: string, first: real)
    ensures Admitted(1, Then(Start, Request(key, first)), key) == [first]
  {
    AdmittedThen(1, Start, Request(key, first));
    assert [] + [first] == [first];
  }

  /** With a limit of one a second request is admitted exactly when 60 seconds have
      passed since the first. */
  lemma OneMinute(key: string, first: real, second: real)
    requires first <= second
    ensures Judge(1, Then(Start, Request(key, first)), Request(key, second)).allowed <==> second - first >= 60.0
  {
    FirstIsAdmitted(key, first);
    PruningIsInvisible(1, Then(Start, Request(key, first)), Request(key, second));
    NewerOne(first, second - WINDOW);
  }
}
