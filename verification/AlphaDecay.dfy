/**
 alpha_decay.py: daily snapshots of every strategy's rolling edge, deprecation after a bad streak, restoration by
 recovery or by age. Dates are day numbers, instants are seconds.
 */
module AlphaDecay {
  import opened Money

  const LIFETIME_MIN_PREDICTIONS := 50
  const ROLLING_MIN_PREDICTIONS := 10
  const CONSECUTIVE_BAD_DAYS := 30
  const RESTORATION_GOOD_DAYS := 14
  const TTL_SECONDS := 14 * 86400

  /** One row of signal_performance_history for a strategy. */
  datatype Snap = Snap(date: int, sharpe: real, n: int)

  datatype Metrics = Metrics(n: int, sharpe: real)

  /** One row of deprecated_strategies; a restored row keeps its history. */
  datatype Deprecation = Deprecation(since: int, restored: Option<int>)

  /** Everything the tables hold about one strategy; the snapshots are in date order. */
  datatype Record = Record(snaps: seq<Snap>, dep: Option<Deprecation>)

  /**
   What one cycle sees: the clock, the strategies with predictions, their metrics, and which reads or writes fail.
   */
  datatype Input = Input(now: int, today: int, types: seq<string>, rolling: map<string, Metrics>,
                         lifetime: map<string, Metrics>, snapshotFails: bool, lost: set<string>,
                         failing: set<string>, ttlFails: bool)

  ghost predicate Dated(snaps: seq<Snap>) {
    forall i, j :: 0 <= i < j < |snaps| ==> snaps[i].date < snaps[j].date
  }

  /** INSERT OR REPLACE on the date. */
  function Put(snaps: seq<Snap>, s: Snap): seq<Snap> {
    if snaps == [] then [s]
    else
      var init, last := snaps[..|snaps| - 1], snaps[|snaps| - 1];
      if last.date < s.date then snaps + [s]
      else if last.date == s.date then init + [s]
      else Put(init, s) + [last]
  }

  /** What the upsert leaves: the new snapshot, and the old ones of other dates. */
  lemma {:induction false} PutFrom(snaps: seq<Snap>, s: Snap, x: Snap)
    requires Dated(snaps) && x in Put(snaps, s)
    ensures x == s || (x in snaps && x.date != s.date)
  {
    if snaps != [] {
      var init, last := snaps[..|snaps| - 1], snaps[|snaps| - 1];
      if last.date < s.date {
        EarlierThan(snaps, |snaps| - 1, x);
      } else if last.date == s.date {
        EarlierThan(snaps, |snaps| - 1, x);
      } else if x != last {
        assert x in Put(init, s);
        PutFrom(init, s, x);
      }
    }
  }

  /** The upsert loses no snapshot of another date. */
  lemma {:induction false} PutKeeps(snaps: seq<Snap>, s: Snap, x: Snap)
    ensures s in Put(snaps, s)
    ensures x in snaps && x.date != s.date ==> x in Put(snaps, s)
  {
    if snaps != [] {
      var init, last := snaps[..|snaps| - 1], snaps[|snaps| - 1];
      assert snaps == init + [last];
      PutKeeps(init, s, x);
    }
  }

  lemma EarlierThan(snaps: seq<Snap>, k: nat, x: Snap)
    requires Dated(snaps) && k < |snaps|
    ensures x in snaps[..k] ==> x in snaps && x.date < snaps[k].date
    ensures x in snaps ==> x == snaps[|snaps| - 1] || x.date < snaps[|snaps| - 1].date
  {
  }

  lemma DatedAppend(snaps: seq<Snap>, s: Snap)
    requires Dated(snaps) && forall x :: x in snaps ==> x.date < s.date
    ensures Dated(snaps + [s])
  {
  }

  /** The upsert keeps one snapshot per date, in date order. */
  lemma {:induction false} PutKeepsOrder(snaps: seq<Snap>, s: Snap)
    requires Dated(snaps)
    ensures Dated(Put(snaps, s))
    ensures forall x :: x in Put(snaps, s) <==> x == s || (x in snaps && x.date != s.date)
  {
    if snaps != [] {
      var init, last := snaps[..|snaps| - 1], snaps[|snaps| - 1];
      forall x ensures x in init ==> x.date < last.date {
        EarlierThan(snaps, |snaps| - 1, x);
      }
      if last.date < s.date {
        forall x | x in snaps ensures x.date < s.date {
          EarlierThan(snaps, |snaps| - 1, x);
        }
        DatedAppend(snaps, s);
      } else if last.date == s.date {
        DatedAppend(init, s);
      } else {
        PutKeepsOrder(init, s);
        forall x | x in Put(init, s) ensures x.date < last.date {
          PutFrom(init, s, x);
        }
        DatedAppend(Put(init, s), last);
      }
    }
    forall x ensures x in Put(snaps, s) <==> x == s || (x in snaps && x.date != s.date) {
      PutKeeps(snaps, s, x);
      if x in Put(snaps, s) {
        PutFrom(snaps, s, x);
      }
    }
  }

  // ----- the detector -----

  function BadLine(lifetime: real): real {
    lifetime * 0.7
  }

  function GoodLine(lifetime: real): real {
    lifetime * 0.85
  }

  predicate Bad(s: Snap, lifetime: real) {
    s.n >= ROLLING_MIN_PREDICTIONS && s.sharpe < BadLine(lifetime)
  }

  predicate Good(s: Snap, lifetime: real) {
    s.n >= ROLLING_MIN_PREDICTIONS && s.sharpe >= GoodLine(lifetime)
  }

  /** Consecutive bad snapshots from the newest, looking back at most `limit` rows. */
  function Streak(snaps: seq<Snap>, limit: nat, lifetime: real): nat
    decreases limit
  {
    if snaps == [] || limit == 0 || !Bad(snaps[|snaps| - 1], lifetime) then 0
    else 1 + Streak(snaps[..|snaps| - 1], limit - 1, lifetime)
  }

  function DecayDetected(snaps: seq<Snap>, lifetime: Metrics): bool {
    && lifetime.n >= LIFETIME_MIN_PREDICTIONS
    && lifetime.sharpe > 0.0
    && Streak(snaps, CONSECUTIVE_BAD_DAYS + 5, lifetime.sharpe) >= CONSECUTIVE_BAD_DAYS
  }

  predicate NewestBad(snaps: seq<Snap>, k: nat, lifetime: real) {
    k <= |snaps| && forall i :: |snaps| - k <= i < |snaps| ==> Bad(snaps[i], lifetime)
  }

  predicate NewestGood(snaps: seq<Snap>, k: nat, lifetime: real) {
    k <= |snaps| && forall i :: |snaps| - k <= i < |snaps| ==> Good(snaps[i], lifetime)
  }

  lemma {:induction false} StreakIff(snaps: seq<Snap>, limit: nat, lifetime: real, k: nat)
    requires k <= limit
    ensures Streak(snaps, limit, lifetime) >= k <==> NewestBad(snaps, k, lifetime)
    decreases limit
  {
    if snaps != [] && k > 0 {
      var init := snaps[..|snaps| - 1];
      StreakIff(init, limit - 1, lifetime, k - 1);
      assert NewestBad(snaps, k, lifetime) <==> Bad(snaps[|snaps| - 1], lifetime) && NewestBad(init, k - 1, lifetime);
    }
  }

  /**
   Decay is detected exactly when the lifetime edge is measured and positive and the 30 newest snapshots all exist,
   all rest on enough predictions and all lie below the bad line.
   */
  lemma DecayIff(snaps: seq<Snap>, lifetime: Metrics)
    ensures DecayDetected(snaps, lifetime)
       <==> lifetime.n >= LIFETIME_MIN_PREDICTIONS && lifetime.sharpe > 0.0
            && NewestBad(snaps, CONSECUTIVE_BAD_DAYS, lifetime.sharpe)
  {
    StreakIff(snaps, CONSECUTIVE_BAD_DAYS + 5, lifetime.sharpe, CONSECUTIVE_BAD_DAYS);
  }

  /** `detect_decay` */
  method DetectDecay(snaps: seq<Snap>, lifetime: Metrics) returns (decayed: bool)
    ensures decayed == DecayDetected(snaps, lifetime)
  {
    if lifetime.n < LIFETIME_MIN_PREDICTIONS || lifetime.sharpe <= 0.0 {
      return false;
    }
    var badLine := BadLine(lifetime.sharpe);
    var limit, consecutive := CONSECUTIVE_BAD_DAYS + 5, 0;
    ghost var whole := Streak(snaps, limit, lifetime.sharpe);
    assert snaps[..|snaps|] == snaps;
    while consecutive < limit && consecutive < |snaps|
      invariant consecutive <= limit && consecutive <= |snaps|
      invariant whole == consecutive
                         + Streak(snaps[..|snaps| - consecutive], limit - consecutive, lifetime.sharpe)
      decreases limit - consecutive
    {
      var row := snaps[|snaps| - 1 - consecutive];
      var left := snaps[..|snaps| - consecutive];
      assert left[|left| - 1] == row && left[..|left| - 1] == snaps[..|snaps| - consecutive - 1];
      if row.n < ROLLING_MIN_PREDICTIONS || !(row.sharpe < badLine) {
        break;
      }
      consecutive := consecutive + 1;
    }
    decayed := consecutive >= CONSECUTIVE_BAD_DAYS;
  }

  predicate RecoveryDetected(snaps: seq<Snap>, lifetime: Metrics) {
    lifetime.sharpe > 0.0 && NewestGood(snaps, RESTORATION_GOOD_DAYS, lifetime.sharpe)
  }

  /** The part of `check_restoration` after the status check. */
  method CheckRestoration(snaps: seq<Snap>, lifetime: Metrics) returns (restore: bool)
    ensures restore == RecoveryDetected(snaps, lifetime)
  {
    if lifetime.sharpe <= 0.0 || |snaps| < RESTORATION_GOOD_DAYS {
      return false;
    }
    for k := 0 to RESTORATION_GOOD_DAYS
      invariant forall i :: |snaps| - k <= i < |snaps| ==> Good(snaps[i], lifetime.sharpe)
    {
      var row := snaps[|snaps| - 1 - k];
      if row.n < ROLLING_MIN_PREDICTIONS || row.sharpe < GoodLine(lifetime.sharpe) {
        return false;
      }
    }
    return true;
  }

  // ----- one cycle, strategy by strategy -----

  function NoMetrics(): Metrics {
    Metrics(0, 0.0)
  }

  function At(m: map<string, Metrics>, x: string): Metrics {
    if x in m then m[x] else NoMetrics()
  }

  predicate Active(dep: Option<Deprecation>) {
    dep.Some? && dep.value.restored.None?
  }

  function SnapOf(inp: Input, x: string): Snap {
    Snap(inp.today, At(inp.rolling, x).sharpe, At(inp.rolling, x).n)
  }

  function Snapshotted(inp: Input, x: string, snaps: seq<Snap>): seq<Snap> {
    if x in inp.types && x !in inp.lost then Put(snaps, SnapOf(inp, x)) else snaps
  }

  function Restored(dep: Option<Deprecation>, now: int): Option<Deprecation> {
    if Active(dep) then Some(dep.value.(restored := Some(now))) else dep
  }

  /** Step 2: recovery of a deprecated strategy, decay of an active one. */
  function Judged(inp: Input, x: string, r: Record): Option<Deprecation> {
    if x !in inp.types || x in inp.failing then r.dep
    else if Active(r.dep) then
      if RecoveryDetected(r.snaps, At(inp.lifetime, x)) then Restored(r.dep, inp.now) else r.dep
    else if DecayDetected(r.snaps, At(inp.lifetime, x)) then Some(Deprecation(inp.now, None))
    else r.dep
  }

  predicate Expired(dep: Option<Deprecation>, now: int) {
    Active(dep) && dep.value.since <= now - TTL_SECONDS
  }

  /** Step 3: the time-to-live restoration. */
  function Aged(inp: Input, dep: Option<Deprecation>): Option<Deprecation> {
    if !inp.ttlFails && Expired(dep, inp.now) then Restored(dep, inp.now) else dep
  }

  function Cycle(inp: Input, x: string, r: Record): Record {
    if inp.snapshotFails then r
    else
      var snapped := Record(Snapshotted(inp, x, r.snaps), r.dep);
      Record(snapped.snaps, Aged(inp, Judged(inp, x, snapped)))
  }

  function Run(inps: seq<Input>, x: string, r: Record): Record {
    if inps == [] then r else Cycle(inps[|inps| - 1], x, Run(inps[..|inps| - 1], x, r))
  }

  /** A cycle changes a strategy's status at most once: what step 2 touched, step 3 leaves alone. */
  lemma OneChangePerCycle(inp: Input, x: string, r: Record)
    requires Judged(inp, x, r) != r.dep
    ensures Aged(inp, Judged(inp, x, r)) == Judged(inp, x, r)
    ensures Active(Judged(inp, x, r)) != Active(r.dep)
  {
  }

  // ----- steps 1 and 2 over the tables -----

  function SnapsOf(history: map<string, seq<Snap>>, x: string): seq<Snap> {
    if x in history then history[x] else []
  }

  /** These strategies are snapshotted, all others as before. */
  ghost predicate SnappedFor(inp: Input, before: map<string, seq<Snap>>, after: map<string, seq<Snap>>,
                             xs: seq<string>)
  {
    forall x :: SnapsOf(after, x) == if x in xs && x !in inp.lost then Put(SnapsOf(before, x), SnapOf(inp, x))
                                     else SnapsOf(before, x)
  }

  lemma SnappedForStep(inp: Input, before: map<string, seq<Snap>>, mid: map<string, seq<Snap>>, xs: seq<string>,
                       x: string)
    requires SnappedFor(inp, before, mid, xs) && x !in xs
    ensures SnapsOf(mid, x) == SnapsOf(before, x)
    ensures SnappedFor(inp, before, if x in inp.lost then mid else mid[x := Put(SnapsOf(mid, x), SnapOf(inp, x))],
                       xs + [x])
  {
    var after := if x in inp.lost then mid else mid[x := Put(SnapsOf(mid, x), SnapOf(inp, x))];
    assert SnapsOf(mid, x) == SnapsOf(before, x);
    forall y
      ensures SnapsOf(after, y) == if y in xs + [x] && y !in inp.lost then Put(SnapsOf(before, y), SnapOf(inp, y))
                                          else SnapsOf(before, y)
    {
      if y != x {
        assert SnapsOf(after, y) == SnapsOf(mid, y);
      }
    }
  }

  function RecordOf(history: map<string, seq<Snap>>, deprecated: map<string, Deprecation>, x: string): Record {
    Record(SnapsOf(history, x), if x in deprecated then Some(deprecated[x]) else None)
  }

  /** These strategies are judged, all others as before. */
  ghost predicate JudgedFor(inp: Input, history: map<string, seq<Snap>>, before: map<string, Deprecation>,
                            after: map<string, Deprecation>, xs: seq<string>)
  {
    forall x :: RecordOf(history, after, x).dep == if x in xs then Judged(inp, x, RecordOf(history, before, x))
                                                   else RecordOf(history, before, x).dep
  }

  /** The two lists name the strategies among these whose status the judgement changed. */
  ghost predicate ChangedAre(inp: Input, history: map<string, seq<Snap>>, before: map<string, Deprecation>,
                             xs: seq<string>, restored: seq<string>, newly: seq<string>)
  {
    && (forall x :: x in restored <==> x in xs && Active(RecordOf(history, before, x).dep)
                                       && !Active(Judged(inp, x, RecordOf(history, before, x))))
    && (forall x :: x in newly <==> x in xs && !Active(RecordOf(history, before, x).dep)
                                    && Active(Judged(inp, x, RecordOf(history, before, x))))
  }

  lemma JudgedForStep(inp: Input, history: map<string, seq<Snap>>, before: map<string, Deprecation>,
                      mid: map<string, Deprecation>, after: map<string, Deprecation>, xs: seq<string>, x: string)
    requires JudgedFor(inp, history, before, mid, xs) && x !in xs
    requires RecordOf(history, after, x).dep == Judged(inp, x, RecordOf(history, mid, x))
    requires forall y :: y != x ==> RecordOf(history, after, y) == RecordOf(history, mid, y)
    ensures RecordOf(history, mid, x) == RecordOf(history, before, x)
    ensures JudgedFor(inp, history, before, after, xs + [x])
  {
    assert RecordOf(history, mid, x).dep == RecordOf(history, before, x).dep;
    forall y ensures RecordOf(history, after, y).dep
                  == if y in xs + [x] then Judged(inp, y, RecordOf(history, before, y))
                     else RecordOf(history, before, y).dep
    {
    }
  }

  lemma ChangedAreStep(inp: Input, history: map<string, seq<Snap>>, before: map<string, Deprecation>, xs: seq<string>,
                       restored: seq<string>, newly: seq<string>, x: string)
    requires ChangedAre(inp, history, before, xs, restored, newly)
    ensures var was := Active(RecordOf(history, before, x).dep);
            var active := Active(Judged(inp, x, RecordOf(history, before, x)));
            ChangedAre(inp, history, before, xs + [x], if was && !active then restored + [x] else restored,
                       if !was && active then newly + [x] else newly)
  {
  }

  // ----- the tables as an object -----

  class Store {
    var history: map<string, seq<Snap>>
    var deprecated: map<string, Deprecation>

    function View(x: string): Record
      reads this
    {
      RecordOf(history, deprecated, x)
    }

    /** snapshot_all_strategies */
    method SnapshotAll(inp: Input)
      requires forall i, j :: 0 <= i < j < |inp.types| ==> inp.types[i] != inp.types[j]
      modifies this`history
      ensures forall x :: View(x) == Record(Snapshotted(inp, x, old(View(x)).snaps), old(View(x)).dep)
    {
      ghost var before := history;
      for i := 0 to |inp.types|
        invariant deprecated == old(deprecated)
        invariant SnappedFor(inp, before, history, inp.types[..i])
      {
        var x := inp.types[i];
        assert inp.types[..i + 1] == inp.types[..i] + [x] && x !in inp.types[..i];
        SnappedForStep(inp, before, history, inp.types[..i], x);
        if x !in inp.lost {
          history := history[x := Put(SnapsOf(history, x), SnapOf(inp, x))];
        }
      }
      assert inp.types[..|inp.types|] == inp.types;
      forall x ensures View(x) == Record(Snapshotted(inp, x, old(View(x)).snaps), old(View(x)).dep) {
        assert old(View(x)).snaps == SnapsOf(before, x);
      }
    }

    /** deprecate_strategy */
    method Deprecate(x: string, now: int)
      modifies this`deprecated
      ensures deprecated == old(deprecated)[x := Deprecation(now, None)]
    {
      deprecated := deprecated[x := Deprecation(now, None)];
    }

    /** restore_strategy */
    method Restore(x: string, now: int)
      modifies this`deprecated
      ensures forall y :: View(y).dep == if y == x then Restored(old(View(y)).dep, now) else old(View(y)).dep
      ensures deprecated.Keys == old(deprecated).Keys
    {
      if x in deprecated && deprecated[x].restored.None? {
        deprecated := deprecated[x := deprecated[x].(restored := Some(now))];
      }
    }

    /** One strategy's turn in step 2. */
    method JudgeOne(inp: Input, x: string)
      requires x in inp.types
      modifies this`deprecated
      ensures View(x) == Record(old(View(x)).snaps, Judged(inp, x, old(View(x))))
      ensures forall y :: y != x ==> View(y) == old(View(y))
    {
      if x !in inp.failing {
        if Active(View(x).dep) {
          var recovered := CheckRestoration(View(x).snaps, At(inp.lifetime, x));
          if recovered {
            Restore(x, inp.now);
          }
        } else {
          var decayed := DetectDecay(View(x).snaps, At(inp.lifetime, x));
          if decayed {
            Deprecate(x, inp.now);
          }
        }
      }
    }

    /** The loop over the snapshotted strategies; returns the restored and the newly deprecated ones. */
    method JudgeAll(inp: Input) returns (restored: seq<string>, newly: seq<string>)
      requires forall i, j :: 0 <= i < j < |inp.types| ==> inp.types[i] != inp.types[j]
      modifies this`deprecated
      ensures forall x :: View(x) == Record(old(View(x)).snaps, Judged(inp, x, old(View(x))))
      ensures forall x :: x in restored <==> Active(old(View(x)).dep) && !Active(View(x).dep)
      ensures forall x :: x in newly <==> !Active(old(View(x)).dep) && Active(View(x).dep)
    {
      restored, newly := [], [];
      ghost var before := deprecated;
      for i := 0 to |inp.types|
        invariant history == old(history)
        invariant JudgedFor(inp, history, before, deprecated, inp.types[..i])
        invariant ChangedAre(inp, history, before, inp.types[..i], restored, newly)
      {
        var x := inp.types[i];
        assert inp.types[..i + 1] == inp.types[..i] + [x] && x !in inp.types[..i];
        ghost var mid := deprecated;
        var was := Active(View(x).dep);
        JudgeOne(inp, x);
        var active := Active(View(x).dep);
        assert forall y :: y != x ==> RecordOf(history, deprecated, y) == View(y);
        JudgedForStep(inp, history, before, mid, deprecated, inp.types[..i], x);
        ChangedAreStep(inp, history, before, inp.types[..i], restored, newly, x);
        restored := if was && !active then restored + [x] else restored;
        newly := if !was && active then newly + [x] else newly;
      }
      assert inp.types[..|inp.types|] == inp.types;
      forall x ensures View(x) == Record(old(View(x)).snaps, Judged(inp, x, old(View(x)))) {
        assert old(View(x)) == RecordOf(history, before, x);
      }
    }

    /** restore_expired_deprecations */
    method RestoreExpired(inp: Input) returns (restored: seq<string>)
      modifies this`deprecated
      ensures forall x :: View(x) == Record(old(View(x)).snaps, Aged(inp, old(View(x)).dep))
      ensures forall x :: x in restored <==> Active(old(View(x)).dep) && !Active(View(x).dep)
    {
      restored := [];
      if inp.ttlFails {
        return;
      }
      var rows := set x | x in deprecated && Expired(Some(deprecated[x]), inp.now);
      var todo := rows;
      while todo != {}
        invariant todo <= rows && history == old(history)
        invariant forall x :: View(x).dep == if x in rows - todo then Aged(inp, old(View(x)).dep) else old(View(x)).dep
        invariant forall x :: x in restored <==> x in rows - todo
        decreases todo
      {
        var x :| x in todo;
        todo := todo - {x};
        Restore(x, inp.now);
        restored := restored + [x];
      }
    }

    /** run_decay_cycle */
    method RunCycle(inp: Input) returns (restored: seq<string>, newly: seq<string>)
      requires forall i, j :: 0 <= i < j < |inp.types| ==> inp.types[i] != inp.types[j]
      modifies this
      ensures forall x :: View(x) == Cycle(inp, x, old(View(x)))
      ensures forall x :: x in restored <==> Active(old(View(x)).dep) && !Active(View(x).dep)
      ensures forall x :: x in newly <==> !Active(old(View(x)).dep) && Active(View(x).dep)
    {
      if inp.snapshotFails {
        return [], [];
      }
      SnapshotAll(inp);
      restored, newly := JudgeAll(inp);
      var aged := RestoreExpired(inp);
      restored := restored + aged;
    }
  }

  // ----- what a cycle does to a strategy -----

  /** The cycle looks at the strategy. */
  ghost predicate Judges(inp: Input, x: string) {
    !inp.snapshotFails && x in inp.types && x !in inp.failing
  }

  /** The snapshots a cycle judges by: the stored ones, with the day's own metrics in the place of the day's. */
  ghost predicate JudgedBy(inp: Input, x: string, before: seq<Snap>, after: seq<Snap>) {
    if x in inp.types && x !in inp.lost
    then && Dated(after)
         && forall s :: s in after <==> s == Snap(inp.today, At(inp.rolling, x).sharpe, At(inp.rolling, x).n)
                                        || (s in before && s.date != inp.today)
    else after == before
  }

  lemma SnapshotsAre(inp: Input, x: string, r: Record)
    requires Dated(r.snaps)
    ensures if inp.snapshotFails then Cycle(inp, x, r).snaps == r.snaps
            else JudgedBy(inp, x, r.snaps, Cycle(inp, x, r).snaps)
  {
    PutKeepsOrder(r.snaps, SnapOf(inp, x));
  }

  /** The last k snapshots each rest on ten predictions. */
  ghost predicate Sampled(snaps: seq<Snap>, k: nat) {
    k <= |snaps| && forall i :: |snaps| - k <= i < |snaps| ==> snaps[i].n >= 10
  }

  /** The last k snapshots all lie below, or all at or above, a line. */
  ghost predicate AllBelow(snaps: seq<Snap>, k: nat, line: real) {
    k <= |snaps| && forall i :: |snaps| - k <= i < |snaps| ==> snaps[i].sharpe < line
  }

  ghost predicate AllAbove(snaps: seq<Snap>, k: nat, line: real) {
    k <= |snaps| && forall i :: |snaps| - k <= i < |snaps| ==> snaps[i].sharpe >= line
  }

  /**
   An active strategy, deprecated before or never, is deprecated by a cycle exactly when the cycle looks at it, its
   lifetime edge rests on fifty predictions and is positive, and the thirty newest snapshots all rest on ten and lie
   below seven tenths of it; the spell starts at the cycle's clock. Otherwise its row stays as it is.
   */
  lemma CycleDeprecatesIff(inp: Input, x: string, r: Record)
    requires !Active(r.dep)
    ensures var after, life := Cycle(inp, x, r), At(inp.lifetime, x);
            if Judges(inp, x) && life.n >= 50 && life.sharpe > 0.0
               && Sampled(after.snaps, 30) && AllBelow(after.snaps, 30, 0.7 * life.sharpe)
            then after.dep == Some(Deprecation(inp.now, None))
            else after.dep == r.dep
  {
    var life, snaps := At(inp.lifetime, x), Snapshotted(inp, x, r.snaps);
    DecayIff(snaps, life);
    assert NewestBad(snaps, 30, life.sharpe) <==> Sampled(snaps, 30) && AllBelow(snaps, 30, 0.7 * life.sharpe);
  }

  /**
   A deprecated strategy is restored by a cycle, at the cycle's clock, exactly when the cycle looks at it and its
   fourteen newest snapshots all rest on ten predictions and reach 0.85 of a positive lifetime edge, or when its
   deprecation is fourteen days old and the age check works. Otherwise it stays deprecated since the same instant.
   */
  lemma CycleRestoresIff(inp: Input, x: string, r: Record)
    requires Active(r.dep)
    ensures var after, life := Cycle(inp, x, r), At(inp.lifetime, x);
            if || (Judges(inp, x) && life.sharpe > 0.0
                   && Sampled(after.snaps, 14) && AllAbove(after.snaps, 14, 0.85 * life.sharpe))
               || (!inp.snapshotFails && !inp.ttlFails && inp.now - r.dep.value.since >= 14 * 24 * 3600)
            then after.dep == Some(Deprecation(r.dep.value.since, Some(inp.now)))
            else after.dep == r.dep
  {
    var life, snaps := At(inp.lifetime, x), Snapshotted(inp, x, r.snaps);
    assert NewestGood(snaps, 14, life.sharpe) <==> Sampled(snaps, 14) && AllAbove(snaps, 14, 0.85 * life.sharpe);
  }

  // ----- spells are bounded -----

  predicate Completed(inp: Input) {
    !inp.snapshotFails && !inp.ttlFails
  }

  /** After a completed cycle nothing has been deprecated for the time to live or longer. */
  lemma NoOldSpells(inp: Input, x: string, r: Record)
    requires Completed(inp)
    ensures Active(Cycle(inp, x, r).dep) ==> Cycle(inp, x, r).dep.value.since > inp.now - TTL_SECONDS
  {
  }

  /** The clock of the last completed cycle, or the start. */
  function LastCompleted(inps: seq<Input>, start: int): int {
    if inps == [] then start
    else if Completed(inps[|inps| - 1]) then inps[|inps| - 1].now
    else LastCompleted(inps[..|inps| - 1], start)
  }

  function Clock(inps: seq<Input>, start: int): int {
    if inps == [] then start else inps[|inps| - 1].now
  }

  /** Time does not run backwards, and every cycle comes at most `gap` after the last completed one. */
  ghost predicate Regular(inps: seq<Input>, start: int, gap: int) {
    inps != [] ==>
      && Regular(inps[..|inps| - 1], start, gap)
      && Clock(inps[..|inps| - 1], start) <= inps[|inps| - 1].now <= LastCompleted(inps[..|inps| - 1], start) + gap
  }

  /** The spell a record shows, finished or so far. */
  function SpellLength(dep: Deprecation, now: int): int {
    (if dep.restored.Some? then dep.restored.value else now) - dep.since
  }

  lemma {:induction false} ClockOrder(inps: seq<Input>, start: int, gap: int)
    requires Regular(inps, start, gap)
    ensures LastCompleted(inps, start) <= Clock(inps, start)
  {
    if inps != [] {
      ClockOrder(inps[..|inps| - 1], start, gap);
    }
  }

  /**
   Whatever the metrics do and whichever cycles fail, a run whose cycles come at most `gap` after the last completed
   one bounds every spell by the time to live plus the gap.
   */
  lemma {:induction false} SpellsAreBounded(inps: seq<Input>, x: string, r: Record, start: int, gap: int)
    requires gap > 0 && r.dep.None? && Regular(inps, start, gap)
    ensures var dep := Run(inps, x, r).dep;
            dep.Some? ==>
              && SpellLength(dep.value, Clock(inps, start)) < TTL_SECONDS + gap
              && (Active(dep) ==> LastCompleted(inps, start) - TTL_SECONDS < dep.value.since <= Clock(inps, start))
  {
    if inps != [] {
      var init, inp := inps[..|inps| - 1], inps[|inps| - 1];
      SpellsAreBounded(init, x, r, start, gap);
      ClockOrder(init, start, gap);
      var before := Run(init, x, r);
      if Completed(inp) {
        NoOldSpells(inp, x, before);
      }
      DepOrigins(inp, x, before);
    }
  }

  /** Where a record comes from: the record before, its restoration now, or a fresh deprecation now. */
  lemma DepOrigins(inp: Input, x: string, r: Record)
    ensures Cycle(inp, x, r).dep in {r.dep, Restored(r.dep, inp.now), Some(Deprecation(inp.now, None))}
    ensures Cycle(inp, x, r).dep != r.dep && Active(r.dep) ==> Cycle(inp, x, r).dep == Restored(r.dep, inp.now)
  {
  }

  // ----- hysteresis -----

  /** The cycle restores x because its edge recovered, not because its deprecation aged. */
  predicate RecoversIn(inp: Input, x: string, r: Record) {
    && !inp.snapshotFails && x in inp.types && x !in inp.failing && Active(r.dep)
    && RecoveryDetected(Snapshotted(inp, x, r.snaps), At(inp.lifetime, x))
  }

  predicate DeprecatesIn(inp: Input, x: string, r: Record) {
    !Active(r.dep) && Active(Cycle(inp, x, r).dep)
  }

  /** The snapshots end before the given day. */
  ghost predicate Before(snaps: seq<Snap>, day: int) {
    forall i :: 0 <= i < |snaps| ==> snaps[i].date < day
  }

  /** One cycle per day: the days strictly increase. */
  ghost predicate Daily(inps: seq<Input>, from: int) {
    forall i :: 0 <= i < |inps| ==> from < inps[i].today && (i > 0 ==> inps[i - 1].today < inps[i].today)
  }

  lemma PutAtEnd(snaps: seq<Snap>, s: Snap)
    requires Before(snaps, s.date)
    ensures Put(snaps, s) == snaps + [s]
  {
  }

  /** Daily cycles only append, at most one snapshot each. */
  lemma {:induction false} DailyAppends(inps: seq<Input>, x: string, r: Record, from: int)
    requires Daily(inps, from) && Before(r.snaps, from + 1)
    ensures r.snaps <= Run(inps, x, r).snaps && |Run(inps, x, r).snaps| <= |r.snaps| + |inps|
    ensures Before(Run(inps, x, r).snaps, (if inps == [] then from else inps[|inps| - 1].today) + 1)
  {
    if inps != [] {
      var init, inp := inps[..|inps| - 1], inps[|inps| - 1];
      assert Daily(init, from);
      DailyAppends(init, x, r, from);
      var before := Run(init, x, r).snaps;
      if !inp.snapshotFails && x in inp.types && x !in inp.lost {
        PutAtEnd(before, SnapOf(inp, x));
      }
    }
  }

  /** The gap between the lines: a snapshot above one recovery line is above every bad line up to 17/14 of it. */
  lemma GoodIsNotBad(s: Snap, low: real, high: real)
    requires Good(s, low) && high <= low * 17.0 / 14.0
    ensures !Bad(s, high)
  {
  }

  /**
   Hysteresis: a strategy that recovered in one daily cycle is not deprecated in any of the next 29 while its lifetime
   Sharpe stays at or below 17/14 of its value at the recovery (0.85 / 0.70).
   */
  lemma RecoveredStaysActive(inp: Input, x: string, r: Record, days: seq<Input>, last: Input)
    requires RecoversIn(inp, x, r) && Before(r.snaps, inp.today)
    requires Daily(days + [last], inp.today) && |days| <= 28
    requires At(last.lifetime, x).sharpe <= At(inp.lifetime, x).sharpe * 17.0 / 14.0
    ensures !DeprecatesIn(last, x, Run(days, x, Cycle(inp, x, r)))
  {
    var first := Cycle(inp, x, r);
    var all := days + [last];
    assert all[..|all| - 1] == days;
    if x in inp.types && x !in inp.lost {
      PutAtEnd(r.snaps, SnapOf(inp, x));
    }
    DailyAppends(all, x, first, inp.today);
    var mid := Run(days, x, first);
    var snaps := Snapshotted(last, x, mid.snaps);
    if !last.snapshotFails {
      assert snaps == Run(all, x, first).snaps;
      var newest := |first.snaps| - 1;
      GoodIsNotBad(snaps[newest], At(inp.lifetime, x).sharpe, At(last.lifetime, x).sharpe);
      assert newest >= |snaps| - CONSECUTIVE_BAD_DAYS;
      DecayIff(snaps, At(last.lifetime, x));
    }
  }

  /** So a recovered strategy is still active after any of the next 29 daily cycles. */
  lemma {:induction false} RecoveredStaysActiveFor29Days(inp: Input, x: string, r: Record, days: seq<Input>)
    requires RecoversIn(inp, x, r) && Before(r.snaps, inp.today)
    requires Daily(days, inp.today) && |days| <= 29
    requires forall i :: 0 <= i < |days| ==>
                           At(days[i].lifetime, x).sharpe <= At(inp.lifetime, x).sharpe * 17.0 / 14.0
    ensures !Active(Run(days, x, Cycle(inp, x, r)).dep)
    decreases |days|
  {
    if days != [] {
      var init, last := days[..|days| - 1], days[|days| - 1];
      assert Daily(init, inp.today);
      RecoveredStaysActiveFor29Days(inp, x, r, init);
      assert init + [last] == days;
      RecoveredStaysActive(inp, x, r, init, last);
    }
  }

  /**
   The other restoration gives no such protection: a strategy that merely aged out is deprecated again by the next
   cycle if and only if that cycle judges it and the 30 newest snapshots, old ones included, are bad against a measured
   and positive lifetime edge. Without a new sample those are the snapshots that stood when it was restored.
   */
  lemma AgedStrategyRelapsesIff(first: Input, second: Input, x: string, r: Record)
    requires Completed(first) && Expired(Judged(first, x, Record(Snapshotted(first, x, r.snaps), r.dep)), first.now)
    ensures !Active(Cycle(first, x, r).dep) && Cycle(first, x, r).snaps == Snapshotted(first, x, r.snaps)
    ensures var snaps := Snapshotted(second, x, Snapshotted(first, x, r.snaps));
            Active(Cycle(second, x, Cycle(first, x, r)).dep)
            <==> !second.snapshotFails && x in second.types && x !in second.failing
                 && At(second.lifetime, x).n >= LIFETIME_MIN_PREDICTIONS && At(second.lifetime, x).sharpe > 0.0
                 && NewestBad(snaps, CONSECUTIVE_BAD_DAYS, At(second.lifetime, x).sharpe)
    ensures x in second.lost ==>
              Snapshotted(second, x, Snapshotted(first, x, r.snaps)) == Snapshotted(first, x, r.snaps)
  {
    DecayIff(Snapshotted(second, x, Snapshotted(first, x, r.snaps)), At(second.lifetime, x));
  }

  /** Thirty worthless snapshots, deprecated at instant 0, and cycles 14 and 15 days later that add no sample. */
  lemma AgedStrategyRelapses()
    ensures var r := Record(seq(30, i => Snap(i, 0.0, 20)), Some(Deprecation(0, None)));
            var lifetime := map["s" := Metrics(60, 1.0)];
            var first := Input(TTL_SECONDS, 30, ["s"], map[], lifetime, false, {"s"}, {}, false);
            var second := Input(TTL_SECONDS + 86400, 31, ["s"], map[], lifetime, false, {"s"}, {}, false);
            && !Active(Cycle(first, "s", r).dep)
            && Active(Cycle(second, "s", Cycle(first, "s", r)).dep)
            && Cycle(second, "s", Cycle(first, "s", r)).snaps == r.snaps
  {
    var r := Record(seq(30, i => Snap(i, 0.0, 20)), Some(Deprecation(0, None)));
    var lifetime := map["s" := Metrics(60, 1.0)];
    var first := Input(TTL_SECONDS, 30, ["s"], map[], lifetime, false, {"s"}, {}, false);
    var second := Input(TTL_SECONDS + 86400, 31, ["s"], map[], lifetime, false, {"s"}, {}, false);
    assert !Good(r.snaps[29], 1.0);
    assert Expired(Judged(first, "s", Record(Snapshotted(first, "s", r.snaps), r.dep)), first.now);
    AgedStrategyRelapsesIff(first, second, "s", r);
  }
}
