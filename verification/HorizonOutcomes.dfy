/**
 ai_tracker.py: the multi-horizon outcomes of predictions, measured incrementally from daily bars. Dates are day
 numbers; the net return, which depends on when an exit leg was journaled, is not part of a row here.
 */
module HorizonOutcomes {
  import opened Money

  const HORIZONS: seq<nat> := [1, 3, 5, 10, 20]

  datatype Bar = Bar(date: int, high: real, low: real, close: real)

  type Positive = x: real | x > 0.0 witness 1.0

  datatype Prediction = Prediction(id: int, symbol: string, date: int, price: Positive, short: bool)

  datatype Class = BigWin | Win | FlatOut | Loss | BigLoss

  datatype Outcome = Outcome(price: real, ret: real, mfe: real, mae: real, kind: Class)

  type Bars = seq<Bar>

  /** `_classify_outcome` */
  function Classify(ret: real): Class {
    if ret >= 5.0 then BigWin
    else if ret >= 1.0 then Win
    else if ret > -1.0 then FlatOut
    else if ret > -5.0 then Loss
    else BigLoss
  }

  function Round4(x: real): real {
    RoundHalfEven(x * 10000.0) as real / 10000.0
  }

  /** A price move in percent of the entry price. */
  function Pct(move: real, price: Positive): real {
    Times(move, 100.0 / price)
  }

  // ----- one measurement -----

  /** Index of the first bar on or after the day, or the number of bars. */
  function EntryIndex(bars: Bars, day: int): (i: nat)
    ensures i <= |bars|
    ensures forall j :: 0 <= j < i ==> bars[j].date < day
    ensures i < |bars| ==> bars[i].date >= day
  {
    if bars == [] || bars[0].date >= day then 0 else 1 + EntryIndex(bars[1..], day)
  }

  function MaxHigh(w: Bars): real
    requires w != []
  {
    if |w| == 1 then w[0].high
    else
      var rest := MaxHigh(w[..|w| - 1]);
      if rest >= w[|w| - 1].high then rest else w[|w| - 1].high
  }

  function MinLow(w: Bars): real
    requires w != []
  {
    if |w| == 1 then w[0].low
    else
      var rest := MinLow(w[..|w| - 1]);
      if rest <= w[|w| - 1].low then rest else w[|w| - 1].low
  }

  lemma {:induction false} ExtremesBound(w: Bars, i: nat)
    requires i < |w|
    ensures MinLow(w) <= w[i].low && w[i].high <= MaxHigh(w)
  {
    if i < |w| - 1 {
      ExtremesBound(w[..|w| - 1], i);
    }
  }

  lemma {:induction false} ExtremesReached(w: Bars) returns (i: nat, j: nat)
    requires w != []
    ensures i < |w| && w[i].low == MinLow(w)
    ensures j < |w| && w[j].high == MaxHigh(w)
  {
    i, j := |w| - 1, |w| - 1;
    if |w| > 1 {
      var k, l := ExtremesReached(w[..|w| - 1]);
      if MinLow(w) != w[i].low {
        i := k;
      }
      if MaxHigh(w) != w[j].high {
        j := l;
      }
    }
  }

  /** Best and worst excursion in the prediction's own direction, in price. */
  function Best(w: Bars, p: Prediction): real
    requires w != []
  {
    if p.short then p.price - MinLow(w) else MaxHigh(w) - p.price
  }

  function Worst(w: Bars, p: Prediction): real
    requires w != []
  {
    if p.short then -(MaxHigh(w) - p.price) else -(p.price - MinLow(w))
  }

  function Move(close: real, p: Prediction): real {
    if p.short then -(close - p.price) else close - p.price
  }

  function OutcomeAt(w: Bars, p: Prediction): Outcome
    requires w != []
  {
    var close := w[|w| - 1].close;
    var ret := Pct(Move(close, p), p.price);
    Outcome(close, Round4(ret), Round4(Pct(Best(w, p), p.price)), Round4(Pct(Worst(w, p), p.price)), Classify(ret))
  }

  /** The bars after the entry bar up to the horizon, once they all exist. */
  predicate Elapsed(bars: Bars, p: Prediction, h: nat) {
    EntryIndex(bars, p.date) + h < |bars|
  }

  /** The one-shot computation: what the bars say about a prediction at a horizon. */
  function Measure(bars: Bars, p: Prediction, h: nat): Option<Outcome>
    requires h > 0
  {
    if Elapsed(bars, p, h) then Some(OutcomeAt(Window(bars, p, h), p)) else None
  }

  function Window(bars: Bars, p: Prediction, h: nat): (w: Bars)
    requires Elapsed(bars, p, h)
    ensures |w| == h
  {
    bars[EntryIndex(bars, p.date) + 1..EntryIndex(bars, p.date) + h + 1]
  }

  // ----- what a measurement says -----

  /** Bar i is the first on or after the day. */
  ghost predicate FirstOn(bars: Bars, day: int, i: nat) {
    i < |bars| && bars[i].date >= day && forall j :: 0 <= j < i ==> bars[j].date < day
  }

  /** The percentage that a price lies above another, counted down for a short. */
  ghost predicate Gains(x: real, p: Prediction, price: real) {
    Times(x, p.price) == 100.0 * if p.short then p.price - price else price - p.price
  }

  lemma PctGains(p: Prediction, price: real)
    ensures Gains(Pct(Move(price, p), p.price), p, price)
  {
    PctTimes(Move(price, p), p.price);
  }

  lemma PctTimes(move: real, price: Positive)
    ensures Times(Pct(move, price), price) == 100.0 * move
  {
    assert 100.0 / price * price == 100.0;
    assert move * (100.0 / price) * price == move * (100.0 / price * price);
  }

  /** Exactly the h bars after bar i are measured. */
  lemma WindowIs(bars: Bars, p: Prediction, h: nat, i: nat)
    requires h > 0 && FirstOn(bars, p.date, i)
    ensures Elapsed(bars, p, h) <==> i + h < |bars|
    ensures Elapsed(bars, p, h) ==> Window(bars, p, h) == bars[i + 1..i + 1 + h]
  {
    EntryIndexUnique(bars, p.date, i);
  }

  /** A prediction without a bar on or after its day is not measured. */
  lemma TooYoung(bars: Bars, p: Prediction, h: nat)
    requires h > 0 && forall j :: 0 <= j < |bars| ==> bars[j].date < p.date
    ensures Measure(bars, p, h).None?
  {
    EntryIndexUnique(bars, p.date, |bars|);
  }

  /** Bar k of i + 1 to i + h has the highest high, bar l the lowest low. */
  ghost predicate Extremes(bars: Bars, i: nat, h: nat, k: nat, l: nat)
    requires i + h < |bars|
  {
    && i < k <= i + h && i < l <= i + h
    && forall j :: i < j <= i + h ==> bars[j].high <= bars[k].high && bars[l].low <= bars[j].low
  }

  lemma WindowExtremes(bars: Bars, i: nat, h: nat) returns (k: nat, l: nat)
    requires h > 0 && i + h < |bars|
    ensures Extremes(bars, i, h, k, l)
    ensures MaxHigh(bars[i + 1..i + 1 + h]) == bars[k].high && MinLow(bars[i + 1..i + 1 + h]) == bars[l].low
  {
    var w := bars[i + 1..i + 1 + h];
    l, k := ExtremesReached(w);
    l, k := l + i + 1, k + i + 1;
    forall j | i < j <= i + h ensures bars[j].high <= bars[k].high && bars[l].low <= bars[j].low {
      ExtremesBound(w, j - i - 1);
      assert w[j - i - 1] == bars[j];
    }
  }

  /**
   The stored outcome at a horizon exists once there are that many bars after the first bar on or after the prediction's
   day. Its price is the close of the last of them, its return the signed percentage to that close, its excursions the
   signed percentages of the best and the worst price that the bars after the entry reached; returns are rounded to four
   places, and the class goes by the unrounded return.
   */
  lemma MeasureMeans(bars: Bars, p: Prediction, h: nat, i: nat)
    returns (ret: real, best: real, worst: real, k: nat, l: nat)
    requires h > 0 && FirstOn(bars, p.date, i)
    ensures Measure(bars, p, h).Some? <==> i + h < |bars|
    ensures i + h < |bars| ==>
              && Extremes(bars, i, h, k, l) && Gains(ret, p, bars[i + h].close)
              && Gains(best, p, if p.short then bars[l].low else bars[k].high)
              && Gains(worst, p, if p.short then bars[k].high else bars[l].low)
              && var o := Measure(bars, p, h).value;
                 && o.price == bars[i + h].close
                 && o.ret == Round4(ret) && o.mfe == Round4(best) && o.mae == Round4(worst)
                 && Classed(o.kind, ret)
  {
    WindowIs(bars, p, h, i);
    ret, best, worst, k, l := 0.0, 0.0, 0.0, 0, 0;
    if i + h < |bars| {
      var w := bars[i + 1..i + 1 + h];
      k, l := WindowExtremes(bars, i, h);
      ret, best, worst := Pct(Move(bars[i + h].close, p), p.price), Pct(Best(w, p), p.price), Pct(Worst(w, p), p.price);
      assert w[h - 1] == bars[i + h];
      PctGains(p, bars[i + h].close);
      PctGains(p, if p.short then bars[l].low else bars[k].high);
      PctGains(p, if p.short then bars[k].high else bars[l].low);
      ClassifyIs(ret);
    }
  }

  /** A big win gains five percent, a win one; a big loss loses five, a loss one; the rest is flat. */
  ghost predicate Classed(kind: Class, ret: real) {
    && (kind == BigWin <==> ret >= 5.0) && (kind == Win <==> 1.0 <= ret < 5.0)
    && (kind == FlatOut <==> -1.0 < ret < 1.0)
    && (kind == Loss <==> -5.0 < ret <= -1.0) && (kind == BigLoss <==> ret <= -5.0)
  }

  lemma ClassifyIs(ret: real)
    ensures Classed(Classify(ret), ret)
  {
  }

  // ----- the bars a run sees -----

  ghost predicate Chronological(bars: Bars) {
    forall i, j :: 0 <= i < j < |bars| ==> bars[i].date < bars[j].date
  }

  /** The bars of a fetch that starts on the given day. */
  function From(bars: Bars, start: int): Bars {
    bars[EntryIndex(bars, start)..]
  }

  lemma EntryIndexUnique(bars: Bars, day: int, i: nat)
    requires i <= |bars| && (forall j :: 0 <= j < i ==> bars[j].date < day)
    requires i < |bars| ==> bars[i].date >= day
    ensures EntryIndex(bars, day) == i
  {
  }

  lemma PrefixEntry(bars: Bars, v: nat, day: int)
    requires v <= |bars|
    ensures EntryIndex(bars[..v], day) == if EntryIndex(bars, day) < v then EntryIndex(bars, day) else v
  {
    var e := EntryIndex(bars, day);
    EntryIndexUnique(bars[..v], day, if e < v then e else v);
  }

  lemma PrefixElapsed(bars: Bars, v: nat, p: Prediction, h: nat)
    requires v <= |bars|
    ensures Elapsed(bars[..v], p, h) <==> EntryIndex(bars, p.date) + h < v
    ensures Elapsed(bars[..v], p, h) ==> EntryIndex(bars[..v], p.date) == EntryIndex(bars, p.date)
  {
    PrefixEntry(bars, v, p.date);
  }

  lemma PrefixSlice(bars: Bars, v: nat, lo: nat, hi: nat)
    requires lo <= hi <= v <= |bars|
    ensures bars[..v][lo..hi] == bars[lo..hi]
  {
  }

  lemma PrefixWindow(bars: Bars, v: nat, p: Prediction, h: nat)
    requires v <= |bars| && Elapsed(bars[..v], p, h)
    ensures Elapsed(bars, p, h) && Window(bars[..v], p, h) == Window(bars, p, h)
  {
    PrefixElapsed(bars, v, p, h);
    var e := EntryIndex(bars, p.date);
    PrefixSlice(bars, v, e + 1, e + h + 1);
  }

  /** More history at the end changes no measurement that was possible before. */
  lemma PrefixMeasures(bars: Bars, v: nat, p: Prediction, h: nat)
    requires v <= |bars| && h > 0
    ensures Measure(bars[..v], p, h).Some? ==> Measure(bars, p, h) == Measure(bars[..v], p, h)
  {
    PrefixElapsed(bars, v, p, h);
    if Elapsed(bars[..v], p, h) {
      PrefixWindow(bars, v, p, h);
    }
  }

  lemma FromWindow(bars: Bars, start: int, p: Prediction, h: nat)
    requires Chronological(bars) && start <= p.date
    ensures Elapsed(From(bars, start), p, h) <==> Elapsed(bars, p, h)
    ensures Elapsed(bars, p, h) ==> Window(From(bars, start), p, h) == Window(bars, p, h)
  {
    var k, e := EntryIndex(bars, start), EntryIndex(bars, p.date);
    assert k <= e;
    EntryIndexUnique(From(bars, start), p.date, e - k);
  }

  /** Fetching from any day not after the prediction changes no measurement. */
  lemma StartDoesNotMatter(bars: Bars, start: int, p: Prediction, h: nat)
    requires Chronological(bars) && start <= p.date && h > 0
    ensures Measure(From(bars, start), p, h) == Measure(bars, p, h)
  {
    FromWindow(bars, start, p, h);
  }

  // ----- excursions -----

  /** Every bar's close lies within its range. */
  ghost predicate Sane(bars: Bars) {
    forall i :: 0 <= i < |bars| ==> bars[i].low <= bars[i].close <= bars[i].high
  }

  lemma PctMonotone(a: real, b: real, price: Positive)
    requires a <= b
    ensures Pct(a, price) <= Pct(b, price)
    ensures Round4(Pct(a, price)) <= Round4(Pct(b, price))
  {
    var c := 100.0 / price;
    assert c > 0.0;
    ScaleMonotone(a, b, c);
    RoundIsMonotone(Pct(a, price) * 10000.0, Pct(b, price) * 10000.0);
  }

  lemma ScaleMonotone(a: real, b: real, c: real)
    requires a <= b && c > 0.0
    ensures Times(a, c) <= Times(b, c)
  {
    assert (b - a) * c >= 0.0;
  }

  lemma PctOdd(a: real, price: Positive)
    ensures Round4(Pct(-a, price)) == -Round4(Pct(a, price))
  {
    var c := 100.0 / price;
    assert Times(-a, c) == -Times(a, c);
    RoundIsOdd(Pct(a, price) * 10000.0);
    assert Pct(-a, price) * 10000.0 == -(Pct(a, price) * 10000.0);
  }

  /** The stored return lies between the stored excursions, for longs and shorts. */
  lemma ExcursionSandwich(bars: Bars, p: Prediction, h: nat)
    requires h > 0 && Sane(bars) && Measure(bars, p, h).Some?
    ensures var o := Measure(bars, p, h).value; o.mae <= o.ret <= o.mfe
  {
    var w := Window(bars, p, h);
    assert w[h - 1] == bars[EntryIndex(bars, p.date) + h];
    ExtremesBound(w, h - 1);
    PctMonotone(Worst(w, p), Move(w[h - 1].close, p), p.price);
    PctMonotone(Move(w[h - 1].close, p), Best(w, p), p.price);
  }

  lemma {:induction false} ExtremesWiden(v: Bars, w: Bars)
    requires v != [] && v <= w
    ensures MaxHigh(v) <= MaxHigh(w) && MinLow(v) >= MinLow(w)
    decreases |w|
  {
    if |v| < |w| {
      ExtremesWiden(v, w[..|w| - 1]);
    } else {
      assert v == w;
    }
  }

  /** A wider horizon reaches at least as far both ways. */
  lemma ExcursionsWiden(bars: Bars, p: Prediction, h: nat, k: nat)
    requires 0 < h <= k
    ensures Measure(bars, p, k).Some? ==>
              && Measure(bars, p, h).Some?
              && Measure(bars, p, h).value.mfe <= Measure(bars, p, k).value.mfe
              && Measure(bars, p, h).value.mae >= Measure(bars, p, k).value.mae
  {
    if Measure(bars, p, k).None? {
      return;
    }
    var v, w := Window(bars, p, h), Window(bars, p, k);
    assert v == w[..h];
    ExtremesWiden(v, w);
    PctMonotone(Best(v, p), Best(w, p), p.price);
    PctMonotone(Worst(w, p), Worst(v, p), p.price);
  }

  /** A short is the mirror image of the same long. */
  lemma ShortMirrorsLong(bars: Bars, p: Prediction, h: nat)
    requires h > 0 && !p.short
    ensures var s, l := Measure(bars, p.(short := true), h), Measure(bars, p, h);
            && (s.Some? <==> l.Some?)
            && (l.Some? ==> s.value.mfe == -l.value.mae && s.value.mae == -l.value.mfe && s.value.ret == -l.value.ret)
  {
    if Measure(bars, p, h).None? {
      return;
    }
    var q := p.(short := true);
    var w := Window(bars, p, h);
    assert Window(bars, q, h) == w;
    assert Best(w, q) == -Worst(w, p) && Worst(w, q) == -Best(w, p);
    PctOdd(Worst(w, p), p.price);
    PctOdd(Best(w, p), p.price);
    PctOdd(Move(w[h - 1].close, p), p.price);
  }

  // ----- the outcome table -----

  /** One run: the full history of every symbol, how much of it the run can see, and which fetches fail. */
  datatype Feed = Feed(history: map<string, Bars>, visible: map<string, nat>, failing: set<string>)

  /** What a fetch of the symbol sees at this run. */
  function Seen(f: Feed, symbol: string): Bars {
    if symbol in f.history && symbol in f.visible && f.visible[symbol] <= |f.history[symbol]|
    then f.history[symbol][..f.visible[symbol]] else []
  }

  ghost predicate Ordered(f: Feed) {
    forall s :: s in f.history ==> Chronological(f.history[s])
  }

  lemma SeenIsChronological(f: Feed, symbol: string)
    requires Ordered(f)
    ensures Chronological(Seen(f, symbol))
  {
  }

  type Table = map<(int, nat), Outcome>

  function Cell(t: Table, id: int, h: nat): Option<Outcome> {
    if (id, h) in t then Some(t[(id, h)]) else None
  }

  /** A run leaves a measured horizon alone and fills an open one from what it sees. */
  function Filled(o: Option<Outcome>, p: Prediction, h: nat, f: Feed): Option<Outcome>
    requires h > 0
  {
    if p.symbol in f.failing then o else Merge(o, Measure(Seen(f, p.symbol), p, h))
  }

  /** A run never replaces a row. */
  function Merge(o: Option<Outcome>, m: Option<Outcome>): Option<Outcome> {
    if o.Some? then o else m
  }

  predicate Horizon(h: nat) {
    h in HORIZONS
  }

  lemma HorizonsPositive(h: nat)
    ensures Horizon(h) <==> h in {1, 3, 5, 10, 20}
    ensures Horizon(h) ==> h > 0
    ensures forall i, j :: 0 <= i < j < |HORIZONS| ==> HORIZONS[i] != HORIZONS[j]
  {
  }

  predicate Done(t: Table, id: int) {
    forall i :: 0 <= i < |HORIZONS| ==> (id, HORIZONS[i]) in t
  }

  // ----- a symbol's cells -----

  /** Every cell of the predictions holds its old row or what the bars say. */
  ghost predicate CellsMerged(preds: seq<Prediction>, bars: Bars, before: Table, after: Table) {
    forall i, h: nat :: 0 <= i < |preds| && Horizon(h) && h > 0 ==>
                          Cell(after, preds[i].id, h)
                          == Merge(Cell(before, preds[i].id, h), Measure(bars, preds[i], h))
  }

  ghost predicate CellsFilled(preds: seq<Prediction>, f: Feed, before: Table, after: Table) {
    forall i, h: nat :: 0 <= i < |preds| && Horizon(h) && h > 0 ==>
                          Cell(after, preds[i].id, h) == Filled(Cell(before, preds[i].id, h), preds[i], h, f)
  }

  lemma IdsExtend(preds: seq<Prediction>, i: nat)
    requires i < |preds| && DistinctIds(preds)
    ensures Ids(preds[..i + 1]) == Ids(preds[..i]) + {preds[i].id} && preds[i].id !in Ids(preds[..i])
    ensures forall j :: 0 <= j < i ==> preds[j].id in Ids(preds[..i])
  {
    forall j | 0 <= j < i ensures preds[j].id in Ids(preds[..i]) {
      assert preds[..i][j] == preds[j];
    }
    assert preds[..i + 1][i] == preds[i];
    forall x | x in Ids(preds[..i]) ensures x in Ids(preds[..i + 1]) {
      var j :| 0 <= j < i && preds[..i][j].id == x;
      assert preds[..i + 1][j].id == x;
    }
  }

  /** A symbol whose predictions are all measured, or whose fetch fails, needs no write. */
  lemma UntouchedIsFilled(preds: seq<Prediction>, f: Feed, t: Table)
    requires (forall i :: 0 <= i < |preds| ==> preds[i].symbol in f.failing || Done(t, preds[i].id))
    ensures CellsFilled(preds, f, t, t)
  {
  }

  lemma MergedIsFilled(preds: seq<Prediction>, pending: seq<Prediction>, symbol: string, start: int, f: Feed,
                       before: Table, after: Table)
    requires Ordered(f) && symbol !in f.failing && DistinctIds(preds)
    requires forall i :: 0 <= i < |preds| ==> preds[i].symbol == symbol
    requires forall i :: 0 <= i < |pending| ==> start <= pending[i].date && pending[i] in preds
    requires forall i :: 0 <= i < |preds| ==> preds[i] in pending || Done(before, preds[i].id)
    requires CellsMerged(pending, From(Seen(f, symbol), start), before, after)
    requires forall id, h: nat :: id !in Ids(pending) || !Horizon(h) || h == 0 ==>
                                    Cell(after, id, h) == Cell(before, id, h)
    ensures CellsFilled(preds, f, before, after)
    ensures Ids(pending) <= Ids(preds)
  {
    forall i, h: nat | 0 <= i < |preds| && Horizon(h) && h > 0
      ensures Cell(after, preds[i].id, h) == Filled(Cell(before, preds[i].id, h), preds[i], h, f)
    {
      OneIsFilled(preds, pending, symbol, start, f, before, after, i, h);
    }
  }

  lemma OneIsFilled(preds: seq<Prediction>, pending: seq<Prediction>, symbol: string, start: int, f: Feed,
                    before: Table, after: Table, i: nat, h: nat)
    requires Ordered(f) && symbol !in f.failing && DistinctIds(preds)
    requires i < |preds| && preds[i].symbol == symbol && Horizon(h) && h > 0
    requires forall j :: 0 <= j < |pending| ==> start <= pending[j].date && pending[j] in preds
    requires preds[i] in pending || Done(before, preds[i].id)
    requires CellsMerged(pending, From(Seen(f, symbol), start), before, after)
    requires forall id, h: nat :: id !in Ids(pending) || !Horizon(h) || h == 0 ==>
                                    Cell(after, id, h) == Cell(before, id, h)
    ensures Cell(after, preds[i].id, h) == Filled(Cell(before, preds[i].id, h), preds[i], h, f)
  {
    var p := preds[i];
    if p in pending {
      var j :| 0 <= j < |pending| && pending[j] == p;
      SeenIsChronological(f, symbol);
      StartDoesNotMatter(Seen(f, symbol), start, p, h);
      assert Cell(after, pending[j].id, h)
          == Merge(Cell(before, pending[j].id, h), Measure(From(Seen(f, symbol), start), pending[j], h));
    } else {
      forall j | 0 <= j < |pending| ensures pending[j].id != p.id {
        var k :| 0 <= k < |preds| && preds[k] == pending[j];
        assert preds[k] != preds[i];
      }
      var k :| 0 <= k < |HORIZONS| && HORIZONS[k] == h;
      assert (p.id, HORIZONS[k]) in before;
    }
  }

  // ----- the predictions of a symbol -----

  function OfSymbol(rows: seq<Prediction>, s: string): seq<Prediction> {
    if rows == [] then []
    else
      var p, before := rows[|rows| - 1], OfSymbol(rows[..|rows| - 1], s);
      if p.symbol == s then before + [p] else before
  }

  lemma {:induction false} GroupFrom(rows: seq<Prediction>, s: string)
    ensures forall i :: 0 <= i < |OfSymbol(rows, s)| ==>
                          OfSymbol(rows, s)[i].symbol == s && OfSymbol(rows, s)[i] in rows
    ensures forall i :: 0 <= i < |rows| && rows[i].symbol == s ==> rows[i] in OfSymbol(rows, s)
  {
    if rows != [] {
      var init, p := rows[..|rows| - 1], rows[|rows| - 1];
      GroupFrom(init, s);
      assert forall q :: q in rows <==> q in init || q == p;
    }
  }

  lemma {:induction false} GroupFacts(rows: seq<Prediction>, s: string)
    requires DistinctIds(rows)
    ensures DistinctIds(OfSymbol(rows, s))
    ensures forall i :: 0 <= i < |OfSymbol(rows, s)| ==>
                          OfSymbol(rows, s)[i].symbol == s && OfSymbol(rows, s)[i] in rows
    ensures forall i :: 0 <= i < |rows| && rows[i].symbol == s ==> rows[i] in OfSymbol(rows, s)
  {
    GroupFrom(rows, s);
    if rows != [] {
      var init, p := rows[..|rows| - 1], rows[|rows| - 1];
      GroupFacts(init, s);
      var before := OfSymbol(init, s);
      forall i | 0 <= i < |before| ensures before[i].id != p.id {
        LastIsNew(rows, before[i]);
      }
    }
  }

  /** The rows of the finished symbols are filled, all others untouched. */
  ghost predicate Progress(rows: seq<Prediction>, f: Feed, finished: set<string>, before: Table, now: Table) {
    && (forall i, h: nat :: 0 <= i < |rows| && Horizon(h) && h > 0 ==>
                              Cell(now, rows[i].id, h)
                              == if rows[i].symbol in finished then Filled(Cell(before, rows[i].id, h), rows[i], h, f)
                                 else Cell(before, rows[i].id, h))
    && (forall id, h: nat :: id !in Ids(rows) || !Horizon(h) || h == 0 ==> Cell(now, id, h) == Cell(before, id, h))
  }

  lemma OthersApart(rows: seq<Prediction>, s: string)
    requires DistinctIds(rows)
    ensures forall i :: 0 <= i < |rows| && rows[i].symbol != s ==> rows[i].id !in Ids(OfSymbol(rows, s))
    ensures Ids(OfSymbol(rows, s)) <= Ids(rows)
  {
    var group := OfSymbol(rows, s);
    GroupFacts(rows, s);
    forall k | 0 <= k < |group|
      ensures group[k].id in Ids(rows)
      ensures forall i :: 0 <= i < |rows| && rows[i].symbol != s ==> rows[i].id != group[k].id
    {
      var l :| 0 <= l < |rows| && rows[l] == group[k];
    }
  }

  lemma ProgressStep(rows: seq<Prediction>, f: Feed, finished: set<string>, s: string, before: Table, mid: Table,
                     after: Table)
    requires DistinctIds(rows) && s !in finished && Progress(rows, f, finished, before, mid)
    requires CellsFilled(OfSymbol(rows, s), f, mid, after)
    requires forall id, h: nat :: id !in Ids(OfSymbol(rows, s)) || !Horizon(h) || h == 0 ==>
                                    Cell(after, id, h) == Cell(mid, id, h)
    ensures Progress(rows, f, finished + {s}, before, after)
  {
    OthersApart(rows, s);
    forall i, h: nat | 0 <= i < |rows| && Horizon(h) && h > 0
      ensures Cell(after, rows[i].id, h)
           == if rows[i].symbol in finished + {s} then Filled(Cell(before, rows[i].id, h), rows[i], h, f)
              else Cell(before, rows[i].id, h)
    {
      if rows[i].symbol == s {
        GroupFacts(rows, s);
        var k :| 0 <= k < |OfSymbol(rows, s)| && OfSymbol(rows, s)[k] == rows[i];
      }
    }
  }

  ghost predicate DistinctIds(preds: seq<Prediction>) {
    forall i, j :: 0 <= i < j < |preds| ==> preds[i].id != preds[j].id
  }

  function Ids(preds: seq<Prediction>): set<int> {
    set i | 0 <= i < |preds| :: preds[i].id
  }

  /** `[p for p in preds if p["id"] not in done_pred_ids]` */
  function PendingOf(preds: seq<Prediction>, t: Table): seq<Prediction> {
    if preds == [] then []
    else
      var p, before := preds[|preds| - 1], PendingOf(preds[..|preds| - 1], t);
      if Done(t, p.id) then before else before + [p]
  }

  lemma {:induction false} PendingFrom(preds: seq<Prediction>, t: Table)
    ensures forall i :: 0 <= i < |PendingOf(preds, t)| ==> PendingOf(preds, t)[i] in preds
    ensures forall i :: 0 <= i < |preds| ==> preds[i] in PendingOf(preds, t) || Done(t, preds[i].id)
  {
    if preds != [] {
      var init, p := preds[..|preds| - 1], preds[|preds| - 1];
      PendingFrom(init, t);
      assert forall q :: q in preds <==> q in init || q == p;
    }
  }

  lemma LastIsNew(preds: seq<Prediction>, q: Prediction)
    requires preds != [] && DistinctIds(preds) && q in preds[..|preds| - 1]
    ensures q.id != preds[|preds| - 1].id
  {
    var i :| 0 <= i < |preds| - 1 && preds[..|preds| - 1][i] == q;
    assert preds[i] == q;
  }

  lemma {:induction false} PendingFacts(preds: seq<Prediction>, t: Table)
    requires DistinctIds(preds)
    ensures DistinctIds(PendingOf(preds, t))
    ensures forall i :: 0 <= i < |PendingOf(preds, t)| ==> PendingOf(preds, t)[i] in preds
    ensures forall i :: 0 <= i < |preds| ==> preds[i] in PendingOf(preds, t) || Done(t, preds[i].id)
  {
    PendingFrom(preds, t);
    if preds != [] {
      var init, p := preds[..|preds| - 1], preds[|preds| - 1];
      PendingFacts(init, t);
      var before := PendingOf(init, t);
      forall i | 0 <= i < |before| ensures before[i].id != p.id {
        LastIsNew(preds, before[i]);
      }
    }
  }

  /** `min(p["timestamp"] for p in pending)` */
  function Oldest(preds: seq<Prediction>): (d: int)
    requires preds != []
    ensures forall i :: 0 <= i < |preds| ==> d <= preds[i].date
  {
    if |preds| == 1 then preds[0].date
    else
      var rest := Oldest(preds[..|preds| - 1]);
      if rest <= preds[|preds| - 1].date then rest else preds[|preds| - 1].date
  }

  // ----- the table after a run -----

  function Find(rows: seq<Prediction>, id: int): Option<Prediction> {
    if rows == [] then None
    else if rows[|rows| - 1].id == id then Some(rows[|rows| - 1])
    else Find(rows[..|rows| - 1], id)
  }

  lemma {:induction false} FindIs(rows: seq<Prediction>, i: nat)
    requires DistinctIds(rows) && i < |rows|
    ensures Find(rows, rows[i].id) == Some(rows[i])
  {
    if i < |rows| - 1 {
      FindIs(rows[..|rows| - 1], i);
    }
  }

  lemma {:induction false} FindNone(rows: seq<Prediction>, id: int)
    ensures Find(rows, id).None? <==> id !in Ids(rows)
    ensures Find(rows, id).Some? ==> Find(rows, id).value.id == id && Find(rows, id).value in rows
  {
    if rows != [] {
      var init, last := rows[..|rows| - 1], rows[|rows| - 1];
      FindNone(init, id);
      assert forall i :: 0 <= i < |init| ==> init[i] == rows[i];
      assert last.id in Ids(rows);
      forall x | x in Ids(init) ensures x in Ids(rows) {
        var i :| 0 <= i < |init| && init[i].id == x;
        assert rows[i].id == x;
      }
      if id in Ids(rows) {
        var i :| 0 <= i < |rows| && rows[i].id == id;
        assert i < |init| ==> init[i].id in Ids(init);
      }
    }
  }

  /** A cell after a run over these rows. */
  function RanCell(t: Table, rows: seq<Prediction>, f: Feed, id: int, h: nat): Option<Outcome> {
    if h > 0 && Horizon(h) && Find(rows, id).Some? then Filled(Cell(t, id, h), Find(rows, id).value, h, f)
    else Cell(t, id, h)
  }

  function Cells(rows: seq<Prediction>): set<(int, nat)> {
    set i, k | 0 <= i < |rows| && 0 <= k < |HORIZONS| :: (rows[i].id, HORIZONS[k])
  }

  /** The table after a run over these rows. */
  function Ran(t: Table, rows: seq<Prediction>, f: Feed): Table {
    map c | c in t.Keys + Cells(rows) && RanCell(t, rows, f, c.0, c.1).Some? :: RanCell(t, rows, f, c.0, c.1).value
  }

  lemma RanIs(t: Table, rows: seq<Prediction>, f: Feed, id: int, h: nat)
    ensures Cell(Ran(t, rows, f), id, h) == RanCell(t, rows, f, id, h)
  {
    if Find(rows, id).Some? && Horizon(h) {
      FindNone(rows, id);
      var i :| 0 <= i < |rows| && rows[i].id == id;
      var k :| 0 <= k < |HORIZONS| && HORIZONS[k] == h;
      assert (rows[i].id, HORIZONS[k]) in Cells(rows);
    }
  }

  lemma SameCells(a: Table, b: Table)
    requires forall id, h: nat :: Cell(a, id, h) == Cell(b, id, h)
    ensures a == b
  {
    forall c ensures (c in a <==> c in b) && (c in a ==> a[c] == b[c]) {
      assert Cell(a, c.0, c.1) == Cell(b, c.0, c.1);
    }
  }

  /** Filling the cells of the rows and no others is that table. */
  lemma FilledIsRan(rows: seq<Prediction>, f: Feed, before: Table, after: Table)
    requires DistinctIds(rows) && CellsFilled(rows, f, before, after)
    requires forall id, h: nat :: id !in Ids(rows) || !Horizon(h) || h == 0 ==>
                                    Cell(after, id, h) == Cell(before, id, h)
    ensures after == Ran(before, rows, f)
  {
    forall id, h: nat ensures Cell(after, id, h) == Cell(Ran(before, rows, f), id, h) {
      RanIs(before, rows, f, id, h);
      FindNone(rows, id);
      if id in Ids(rows) {
        var i :| 0 <= i < |rows| && rows[i].id == id;
        FindIs(rows, i);
      }
    }
    SameCells(after, Ran(before, rows, f));
  }

  // ----- the tracker -----

  class Tracker {
    var outcomes: Table

    /** `_measure_one_prediction`: returns the number of rows written. */
    method MeasureOne(p: Prediction, bars: Bars) returns (written: nat)
      modifies this
      ensures forall id, h: nat :: Cell(outcomes, id, h) ==
                                     if id == p.id && Horizon(h) && h > 0
                                     then Merge(old(Cell(outcomes, id, h)), Measure(bars, p, h))
                                     else old(Cell(outcomes, id, h))
      ensures |outcomes| == |old(outcomes)| + written
    {
      written := 0;
      var entry := EntryIndex(bars, p.date);
      for i := 0 to |HORIZONS|
        invariant forall id, h: nat :: Cell(outcomes, id, h) ==
                                         if id == p.id && h in HORIZONS[..i] && h > 0
                                         then Merge(old(Cell(outcomes, id, h)), Measure(bars, p, h))
                                         else old(Cell(outcomes, id, h))
        invariant |outcomes| == |old(outcomes)| + written
      {
        var h := HORIZONS[i];
        HorizonsPositive(h);
        assert HORIZONS[..i + 1] == HORIZONS[..i] + [h];
        assert Cell(outcomes, p.id, h) == old(Cell(outcomes, p.id, h));
        if (p.id, h) !in outcomes && entry + h < |bars| {
          outcomes := outcomes[(p.id, h) := OutcomeAt(bars[entry + 1..entry + h + 1], p)];
          written := written + 1;
        }
      }
      assert HORIZONS[..|HORIZONS|] == HORIZONS;
    }

    /** `for p in pending: written += _measure_one_prediction(…)` */
    method MeasurePending(pending: seq<Prediction>, bars: Bars) returns (written: nat)
      requires DistinctIds(pending)
      modifies this
      ensures CellsMerged(pending, bars, old(outcomes), outcomes)
      ensures forall id, h: nat :: id !in Ids(pending) || !Horizon(h) || h == 0 ==>
                                     Cell(outcomes, id, h) == old(Cell(outcomes, id, h))
      ensures |outcomes| == |old(outcomes)| + written
    {
      written := 0;
      for i := 0 to |pending|
        invariant CellsMerged(pending[..i], bars, old(outcomes), outcomes)
        invariant forall id, h: nat :: id !in Ids(pending[..i]) || !Horizon(h) || h == 0 ==>
                                         Cell(outcomes, id, h) == old(Cell(outcomes, id, h))
        invariant |outcomes| == |old(outcomes)| + written
      {
        assert pending[..i + 1] == pending[..i] + [pending[i]];
        IdsExtend(pending, i);
        var n := MeasureOne(pending[i], bars);
        written := written + n;
      }
      assert pending[..|pending|] == pending;
    }

    /** One symbol's turn: `preds` are its predictions in scope. */
    method MeasureSymbol(preds: seq<Prediction>, symbol: string, f: Feed) returns (written: nat)
      requires DistinctIds(preds) && Ordered(f)
      requires forall i :: 0 <= i < |preds| ==> preds[i].symbol == symbol
      modifies this
      ensures CellsFilled(preds, f, old(outcomes), outcomes)
      ensures forall id, h: nat :: id !in Ids(preds) || !Horizon(h) || h == 0 ==>
                                     Cell(outcomes, id, h) == old(Cell(outcomes, id, h))
      ensures |outcomes| == |old(outcomes)| + written
    {
      var pending := PendingOf(preds, outcomes);
      PendingFacts(preds, outcomes);
      if pending == [] || symbol in f.failing {
        UntouchedIsFilled(preds, f, outcomes);
        return 0;
      }
      var start := Oldest(pending);
      var bars := From(Seen(f, symbol), start);
      written := MeasurePending(pending, bars);
      MergedIsFilled(preds, pending, symbol, start, f, old(outcomes), outcomes);
    }

    /** `by_symbol.setdefault(r["symbol"], []).append(r)`, as the keys in insertion order and the groups. */
    static method GroupBySymbol(rows: seq<Prediction>) returns (keys: seq<string>, groups: map<string, seq<Prediction>>)
      ensures forall i, j :: 0 <= i < j < |keys| ==> keys[i] != keys[j]
      ensures forall s :: s in keys <==> s in groups
      ensures forall s :: OfSymbol(rows, s) == if s in groups then groups[s] else []
    {
      keys, groups := [], map[];
      for i := 0 to |rows|
        invariant forall j, k :: 0 <= j < k < |keys| ==> keys[j] != keys[k]
        invariant forall s :: s in keys <==> s in groups
        invariant forall s :: OfSymbol(rows[..i], s) == if s in groups then groups[s] else []
      {
        assert rows[..i + 1][..i] == rows[..i];
        var s := rows[i].symbol;
        if s !in groups {
          keys := keys + [s];
          groups := groups[s := []];
        }
        groups := groups[s := groups[s] + [rows[i]]];
      }
      assert rows[..|rows|] == rows;
    }

    /** `measure_horizon_outcomes` over the predictions in scope. */
    method MeasureAll(rows: seq<Prediction>, f: Feed) returns (written: nat)
      requires DistinctIds(rows) && Ordered(f)
      modifies this
      ensures outcomes == Ran(old(outcomes), rows, f)
      ensures |outcomes| == |old(outcomes)| + written
    {
      var keys, groups := GroupBySymbol(rows);
      written := 0;
      ghost var finished: set<string> := {};
      for i := 0 to |keys|
        invariant forall s :: s in finished <==> s in keys[..i]
        invariant Progress(rows, f, finished, old(outcomes), outcomes)
        invariant |outcomes| == |old(outcomes)| + written
      {
        assert keys[..i + 1] == keys[..i] + [keys[i]];
        ghost var mid := outcomes;
        GroupFacts(rows, keys[i]);
        var n := MeasureSymbol(groups[keys[i]], keys[i], f);
        ProgressStep(rows, f, finished, keys[i], old(outcomes), mid, outcomes);
        finished := finished + {keys[i]};
        written := written + n;
      }
      assert keys[..|keys|] == keys;
      forall i | 0 <= i < |rows| ensures rows[i].symbol in finished {
        GroupFacts(rows, rows[i].symbol);
      }
      FilledIsRan(rows, f, old(outcomes), outcomes);
    }
  }

  // ----- incremental equals batch -----

  /** One run as a single cell sees it: was the prediction in scope, did the fetch work, how many bars were there. */
  datatype Visit = Visit(inScope: bool, fetched: bool, visible: nat)

  function Visited(o: Option<Outcome>, bars: Bars, p: Prediction, h: nat, v: Visit): Option<Outcome>
    requires h > 0 && v.visible <= |bars|
  {
    if v.inScope && v.fetched then Merge(o, Measure(bars[..v.visible], p, h)) else o
  }

  ghost predicate Possible(bars: Bars, vs: seq<Visit>) {
    forall i :: 0 <= i < |vs| ==> vs[i].visible <= |bars| && (i > 0 ==> vs[i - 1].visible <= vs[i].visible)
  }

  function CellAfter(bars: Bars, p: Prediction, h: nat, vs: seq<Visit>): Option<Outcome>
    requires h > 0 && forall i :: 0 <= i < |vs| ==> vs[i].visible <= |bars|
  {
    if vs == [] then None
    else Visited(CellAfter(bars, p, h, vs[..|vs| - 1]), bars, p, h, vs[|vs| - 1])
  }

  /** A run of the table is a visit of each of its cells. */
  lemma FilledIsVisited(o: Option<Outcome>, p: Prediction, h: nat, f: Feed)
    requires h > 0 && p.symbol in f.history && p.symbol in f.visible && f.visible[p.symbol] <= |f.history[p.symbol]|
    ensures Filled(o, p, h, f)
         == Visited(o, f.history[p.symbol], p, h, Visit(true, p.symbol !in f.failing, f.visible[p.symbol]))
  {
  }

  lemma VisibleGrows(bars: Bars, vs: seq<Visit>, i: nat, j: nat)
    requires Possible(bars, vs) && i <= j < |vs|
    ensures vs[i].visible <= vs[j].visible
    decreases j - i
  {
    if i < j {
      VisibleGrows(bars, vs, i, j - 1);
    }
  }

  /**
   Incremental equals batch: under any schedule of runs, with any failed fetches and any scope, a cell only ever
   holds what the one-shot computation on the full history says; and after a run that could look, it holds exactly
   what the one-shot computation on the visible history says.
   */
  lemma {:induction false} IncrementalIsBatch(bars: Bars, p: Prediction, h: nat, vs: seq<Visit>)
    requires h > 0 && Possible(bars, vs)
    ensures CellAfter(bars, p, h, vs).Some? ==> CellAfter(bars, p, h, vs) == Measure(bars, p, h)
    ensures vs != [] && CellAfter(bars, p, h, vs).Some? ==>
              CellAfter(bars, p, h, vs) == Measure(bars[..vs[|vs| - 1].visible], p, h)
    ensures vs != [] && vs[|vs| - 1].inScope && vs[|vs| - 1].fetched ==>
              CellAfter(bars, p, h, vs) == Measure(bars[..vs[|vs| - 1].visible], p, h)
  {
    if vs != [] {
      var init, v := vs[..|vs| - 1], vs[|vs| - 1].visible;
      IncrementalIsBatch(bars, p, h, init);
      PrefixMeasures(bars, v, p, h);
      if init != [] {
        var u := init[|init| - 1].visible;
        VisibleGrows(bars, vs, |vs| - 2, |vs| - 1);
        assert bars[..v][..u] == bars[..u];
        PrefixMeasures(bars[..v], u, p, h);
      }
    }
  }

  /** A row, once written, is never changed. */
  lemma {:induction false} RowsNeverChange(bars: Bars, p: Prediction, h: nat, vs: seq<Visit>, n: nat)
    requires h > 0 && Possible(bars, vs) && n <= |vs|
    ensures CellAfter(bars, p, h, vs[..n]).Some? ==> CellAfter(bars, p, h, vs) == CellAfter(bars, p, h, vs[..n])
    decreases |vs|
  {
    if n < |vs| {
      assert vs[..|vs| - 1][..n] == vs[..n];
      RowsNeverChange(bars, p, h, vs[..|vs| - 1], n);
    } else {
      assert vs[..n] == vs;
    }
  }

  // ----- the same over whole tables -----

  /** One run: the predictions in scope and what can be fetched. */
  datatype Round = Round(rows: seq<Prediction>, feed: Feed)

  function Tables(rounds: seq<Round>): Table {
    if rounds == [] then map[]
    else Ran(Tables(rounds[..|rounds| - 1]), rounds[|rounds| - 1].rows, rounds[|rounds| - 1].feed)
  }

  /** The symbol has one history of which each run sees no less than the run before; p is p in every scope. */
  ghost predicate Growing(rounds: seq<Round>, p: Prediction, bars: Bars) {
    && (forall i :: 0 <= i < |rounds| ==> Sees(rounds[i], p, bars))
    && (forall i :: 0 < i < |rounds| ==> rounds[i - 1].feed.visible[p.symbol] <= rounds[i].feed.visible[p.symbol])
  }

  ghost predicate Sees(r: Round, p: Prediction, bars: Bars) {
    && p.symbol in r.feed.history && r.feed.history[p.symbol] == bars
    && p.symbol in r.feed.visible && r.feed.visible[p.symbol] <= |bars|
    && (Find(r.rows, p.id).Some? ==> Find(r.rows, p.id).value == p)
  }

  function VisitOf(r: Round, p: Prediction): Visit
    requires p.symbol in r.feed.visible
  {
    Visit(Find(r.rows, p.id).Some?, p.symbol !in r.feed.failing, r.feed.visible[p.symbol])
  }

  ghost function VisitsOf(rounds: seq<Round>, p: Prediction): (vs: seq<Visit>)
    requires forall i :: 0 <= i < |rounds| ==> p.symbol in rounds[i].feed.visible
    ensures |vs| == |rounds| && forall i :: 0 <= i < |rounds| ==> vs[i] == VisitOf(rounds[i], p)
  {
    if rounds == [] then []
    else VisitsOf(rounds[..|rounds| - 1], p) + [VisitOf(rounds[|rounds| - 1], p)]
  }

  lemma RoundIsVisit(t: Table, r: Round, p: Prediction, bars: Bars, h: nat)
    requires Horizon(h) && h > 0 && Sees(r, p, bars)
    ensures Cell(Ran(t, r.rows, r.feed), p.id, h) == Visited(Cell(t, p.id, h), bars, p, h, VisitOf(r, p))
  {
    RanIs(t, r.rows, r.feed, p.id, h);
    FilledIsVisited(Cell(t, p.id, h), p, h, r.feed);
  }

  lemma {:induction false} CellIsVisited(rounds: seq<Round>, p: Prediction, bars: Bars, h: nat)
    requires Horizon(h) && h > 0 && Growing(rounds, p, bars)
    ensures Cell(Tables(rounds), p.id, h) == CellAfter(bars, p, h, VisitsOf(rounds, p))
  {
    if rounds != [] {
      var init, last := rounds[..|rounds| - 1], rounds[|rounds| - 1];
      CellIsVisited(init, p, bars, h);
      RoundIsVisit(Tables(init), last, p, bars, h);
      assert VisitsOf(rounds, p)[..|init|] == VisitsOf(init, p);
    }
  }

  /**
   Incremental equals batch over whole tables: after any runs over any scopes with any failed fetches, each row of a
   prediction is the one-shot result on the full history; and after a run that had it in scope and could fetch, the row
   is there exactly if the visible history has the horizon, with the one-shot result on it.
   */
  lemma TableIsBatch(rounds: seq<Round>, p: Prediction, bars: Bars, h: nat)
    requires Horizon(h) && h > 0 && Growing(rounds, p, bars)
    ensures Cell(Tables(rounds), p.id, h).Some? ==> Cell(Tables(rounds), p.id, h) == Measure(bars, p, h)
    ensures rounds != [] && VisitOf(rounds[|rounds| - 1], p).inScope && VisitOf(rounds[|rounds| - 1], p).fetched ==>
              Cell(Tables(rounds), p.id, h) == Measure(bars[..rounds[|rounds| - 1].feed.visible[p.symbol]], p, h)
  {
    CellIsVisited(rounds, p, bars, h);
    IncrementalIsBatch(bars, p, h, VisitsOf(rounds, p));
  }
}
