/** The alert ledger: each evaluation opens, refreshes or recovers one row per signal. */
module Alerts {
  import opened Wrappers

  datatype Level = Healthy | Undetermined | Warning | Critical

  datatype Signal = Signal(key: string, level: Level, reason: string)

  datatype Status = Active | Recovered

  datatype Row = Row(
    key: string, status: Status, critical: bool, reason: string, occurrences: nat,
    firstSeen: int, lastSeen: int, recoveredAt: Option<int>)

  predicate Firing(s: Signal) {
    s.level == Warning || s.level == Critical
  }

  function Position(signals: seq<Signal>, key: string): (i: nat)
    ensures i <= |signals|
    ensures i < |signals| ==> signals[i].key == key
    ensures forall j | 0 <= j < i :: signals[j].key != key
  {
    if signals == [] || signals[0].key == key then 0 else 1 + Position(signals[1..], key)
  }

  function PutSignal(active: seq<Signal>, s: Signal): seq<Signal> {
    var i := Position(active, s.key);
    if i < |active| then active[i := s] else active + [s]
  }

  /** The firing signals as an insertion-ordered dictionary: the last one of a key counts. */
  function Fired(signals: seq<Signal>): seq<Signal> {
    if signals == [] then []
    else
      var s := signals[|signals| - 1];
      var before := Fired(signals[..|signals| - 1]);
      if Firing(s) then PutSignal(before, s) else before
  }

  predicate Fires(signals: seq<Signal>, key: string) {
    exists s | s in signals :: s.key == key && Firing(s)
  }

  ghost predicate DistinctKeys(signals: seq<Signal>) {
    forall i, j | 0 <= i < j < |signals| :: signals[i].key != signals[j].key
  }

  predicate Has(active: seq<Signal>, key: string) {
    Position(active, key) < |active|
  }

  lemma HasIfAt(active: seq<Signal>, i: nat)
    requires i < |active|
    ensures Has(active, active[i].key)
    ensures DistinctKeys(active) ==> Position(active, active[i].key) == i
  {
    assert !(i < Position(active, active[i].key));
  }

  lemma PutSignalKeeps(active: seq<Signal>, s: Signal, key: string)
    requires DistinctKeys(active)
    ensures DistinctKeys(PutSignal(active, s))
    ensures Has(PutSignal(active, s), key) <==> Has(active, key) || key == s.key
  {
    var after := PutSignal(active, s);
    HasIfAt(after, Position(active, s.key));
    if Has(active, key) {
      HasIfAt(after, Position(active, key));
    } else if key != s.key && Has(after, key) {
      HasIfAt(active, Position(after, key));
    }
  }

  lemma {:induction false} FiredIsFires(signals: seq<Signal>, key: string)
    ensures DistinctKeys(Fired(signals))
    ensures Has(Fired(signals), key) <==> Fires(signals, key)
  {
    if signals != [] {
      var n := |signals| - 1;
      assert signals == signals[..n] + [signals[n]];
      FiredIsFires(signals[..n], key);
      if Firing(signals[n]) {
        PutSignalKeeps(Fired(signals[..n]), signals[n], key);
      }
    }
  }

  // ------------------------------------------------------------------ one evaluation

  /** What an evaluation makes of a row that was there before it. */
  function Touched(r: Row, active: seq<Signal>, now: int): Row {
    if Has(active, r.key) then
      var s := active[Position(active, r.key)];
      Row(r.key, Active, s.level == Critical, s.reason,
          if r.status == Recovered then 1 else r.occurrences + 1,
          if r.status == Recovered then now else r.firstSeen, now, None)
    else if r.status == Active then r.(status := Recovered, recoveredAt := Some(now), lastSeen := now)
    else r
  }

  function TouchedRows(rows: seq<Row>, active: seq<Signal>, now: int): seq<Row> {
    seq(|rows|, i requires 0 <= i < |rows| => Touched(rows[i], active, now))
  }

  predicate Known(rows: seq<Row>, key: string) {
    exists r | r in rows :: r.key == key
  }

  function NewRow(s: Signal, now: int): Row {
    Row(s.key, Active, s.level == Critical, s.reason, 1, now, now, None)
  }

  function NewRows(rows: seq<Row>, active: seq<Signal>, now: int): seq<Row> {
    if active == [] then []
    else
      var s := active[|active| - 1];
      NewRows(rows, active[..|active| - 1], now) + (if Known(rows, s.key) then [] else [NewRow(s, now)])
  }

  function Evaluated(rows: seq<Row>, signals: seq<Signal>, now: int): seq<Row> {
    var active := Fired(signals);
    TouchedRows(rows, active, now) + NewRows(rows, active, now)
  }

  ghost predicate UniqueRows(rows: seq<Row>) {
    forall i, j | 0 <= i < j < |rows| :: rows[i].key != rows[j].key
  }

  ghost function ActiveKeys(rows: seq<Row>): set<string> {
    set r | r in rows && r.status == Active :: r.key
  }

  ghost function FiringKeys(signals: seq<Signal>): set<string> {
    set s | s in signals && Firing(s) :: s.key
  }

  ghost function KeysOf(active: seq<Signal>): set<string> {
    set s | s in active :: s.key
  }

  lemma PrefixHas(active: seq<Signal>, k: nat)
    requires DistinctKeys(active) && k < |active|
    ensures !Has(active[..k], active[k].key) && Position(active[..k + 1], active[k].key) == k
    ensures forall key | key != active[k].key ::
              (Has(active[..k + 1], key) <==> Has(active[..k], key))
              && (Has(active[..k], key) ==> Position(active[..k + 1], key) == Position(active[..k], key))
  {
    var more, less := active[..k + 1], active[..k];
    assert forall j | 0 <= j < |less| :: less[j].key != active[k].key;
    HasIfAt(more, k);
    forall key | key != active[k].key
      ensures (Has(more, key) <==> Has(less, key)) && (Has(less, key) ==> Position(more, key) == Position(less, key))
    {
      if Has(less, key) {
        HasIfAt(more, Position(less, key));
      } else if Has(more, key) {
        HasIfAt(less, Position(more, key));
      }
    }
  }

  /** A row opened now: its signal fires and had no row. */
  ghost predicate Opens(rows: seq<Row>, active: seq<Signal>, now: int, r: Row) {
    !Known(rows, r.key) && Has(active, r.key) && r == NewRow(active[Position(active, r.key)], now)
  }

  lemma {:induction false} NewRowsOpen(rows: seq<Row>, active: seq<Signal>, now: int)
    requires DistinctKeys(active)
    ensures forall i | 0 <= i < |NewRows(rows, active, now)| :: Opens(rows, active, now, NewRows(rows, active, now)[i])
  {
    if active != [] {
      var n := |active| - 1;
      assert active[..n + 1] == active;
      PrefixHas(active, n);
      NewRowsOpen(rows, active[..n], now);
      var earlier, added := NewRows(rows, active[..n], now), NewRows(rows, active, now);
      forall i | 0 <= i < |added| ensures Opens(rows, active, now, added[i]) {
        if i < |earlier| {
          assert Opens(rows, active[..n], now, earlier[i]);
        }
      }
    }
  }

  lemma {:induction false} NewRowsUnique(rows: seq<Row>, active: seq<Signal>, now: int)
    requires DistinctKeys(active)
    ensures UniqueRows(NewRows(rows, active, now))
  {
    if active != [] {
      var n := |active| - 1;
      assert active[..n + 1] == active;
      PrefixHas(active, n);
      NewRowsUnique(rows, active[..n], now);
      NewRowsOpen(rows, active[..n], now);
      var earlier := NewRows(rows, active[..n], now);
      forall i | 0 <= i < |earlier| ensures earlier[i].key != active[n].key {
        assert Opens(rows, active[..n], now, earlier[i]);
      }
    }
  }

  lemma {:induction false} NewRowsCover(rows: seq<Row>, active: seq<Signal>, now: int, key: string)
    requires DistinctKeys(active) && Has(active, key) && !Known(rows, key)
    ensures Known(NewRows(rows, active, now), key)
  {
    var n := |active| - 1;
    assert active[..n + 1] == active;
    PrefixHas(active, n);
    var added := NewRows(rows, active, now);
    if key == active[n].key {
      assert added[|added| - 1].key == key && added[|added| - 1] in added;
    } else {
      NewRowsCover(rows, active[..n], now, key);
      var r :| r in NewRows(rows, active[..n], now) && r.key == key;
      assert r in added;
    }
  }

  // ------------------------------------------------------------------ the history

  datatype Evaluation = Evaluation(signals: seq<Signal>, now: int)

  function After(history: seq<Evaluation>): seq<Row> {
    if history == [] then []
    else
      var e := history[|history| - 1];
      Evaluated(After(history[..|history| - 1]), e.signals, e.now)
  }

  /** In how many of the latest evaluations the signal has fired without a break. */
  function Streak(history: seq<Evaluation>, key: string): nat {
    if history == [] || !Fires(history[|history| - 1].signals, key) then 0
    else 1 + Streak(history[..|history| - 1], key)
  }

  /** The signal has fired in some evaluation. */
  predicate EverFired(history: seq<Evaluation>, key: string) {
    history != [] && (Fires(history[|history| - 1].signals, key) || EverFired(history[..|history| - 1], key))
  }

  /** When the unbroken streak began. */
  function StreakStart(history: seq<Evaluation>, key: string): int
    requires Streak(history, key) > 0
  {
    var before := history[..|history| - 1];
    if Streak(before, key) == 0 then history[|history| - 1].now else StreakStart(before, key)
  }

  /** When the last streak was found broken, if the signal has ever fired. */
  function StreakEnd(history: seq<Evaluation>, key: string): Option<int> {
    if history == [] || Streak(history, key) > 0 then None
    else
      var before := history[..|history| - 1];
      if Streak(before, key) > 0 then Some(history[|history| - 1].now) else StreakEnd(before, key)
  }

  /** The row says what the history says about its signal. */
  predicate Tells(history: seq<Evaluation>, r: Row) {
    if Streak(history, r.key) > 0 then
      var last := history[|history| - 1];
      var s := Fired(last.signals);
      && r.status == Active
      && r.occurrences == Streak(history, r.key)
      && r.firstSeen == StreakStart(history, r.key)
      && r.lastSeen == last.now && r.recoveredAt.None?
      && Has(s, r.key) && r.critical == (s[Position(s, r.key)].level == Critical) && r.reason == s[Position(s, r.key)].reason
    else
      r.status == Recovered && r.recoveredAt.Some? && r.recoveredAt == StreakEnd(history, r.key) && r.lastSeen == r.recoveredAt.value
  }

  lemma TouchedTells(history: seq<Evaluation>, e: Evaluation, r: Row)
    requires Tells(history, r)
    ensures Tells(history + [e], Touched(r, Fired(e.signals), e.now))
  {
    assert (history + [e])[..|history|] == history;
    FiredIsFires(e.signals, r.key);
  }

  lemma {:induction false} StreakFired(history: seq<Evaluation>, key: string)
    ensures Streak(history, key) > 0 ==> EverFired(history, key)
  {
  }

  lemma NewTells(history: seq<Evaluation>, e: Evaluation, r: Row)
    requires !EverFired(history, r.key)
    requires var active := Fired(e.signals); Has(active, r.key) && r == NewRow(active[Position(active, r.key)], e.now)
    ensures Tells(history + [e], r)
  {
    assert (history + [e])[..|history|] == history;
    StreakFired(history, r.key);
    FiredIsFires(e.signals, r.key);
  }

  ghost predicate Agrees(history: seq<Evaluation>, rows: seq<Row>) {
    && UniqueRows(rows)
    && (forall i | 0 <= i < |rows| :: Tells(history, rows[i]))
    && (forall key :: Known(rows, key) <==> EverFired(history, key))
  }

  lemma AppendUnique(a: seq<Row>, b: seq<Row>)
    requires UniqueRows(a) && UniqueRows(b) && forall j | 0 <= j < |b| :: !Known(a, b[j].key)
    ensures UniqueRows(a + b)
  {
    forall i, j | 0 <= i < |a| && 0 <= j < |b| ensures a[i].key != b[j].key {
      assert a[i] in a && !Known(a, b[j].key);
    }
  }

  lemma TouchedKnown(rows: seq<Row>, active: seq<Signal>, now: int, key: string)
    ensures Known(TouchedRows(rows, active, now), key) <==> Known(rows, key)
  {
    var touched := TouchedRows(rows, active, now);
    if Known(rows, key) {
      var i :| 0 <= i < |rows| && rows[i].key == key;
      assert touched[i] in touched && touched[i].key == key;
    }
    if Known(touched, key) {
      var i :| 0 <= i < |touched| && touched[i].key == key;
      assert rows[i] in rows && rows[i].key == key;
    }
  }

  lemma EvaluatedUnique(rows: seq<Row>, signals: seq<Signal>, now: int)
    requires UniqueRows(rows)
    ensures UniqueRows(Evaluated(rows, signals, now))
  {
    var active := Fired(signals);
    FiredIsFires(signals, "");
    NewRowsUnique(rows, active, now);
    NewRowsOpen(rows, active, now);
    var added := NewRows(rows, active, now);
    forall j | 0 <= j < |added| ensures !Known(TouchedRows(rows, active, now), added[j].key) {
      assert Opens(rows, active, now, added[j]);
      TouchedKnown(rows, active, now, added[j].key);
    }
    AppendUnique(TouchedRows(rows, active, now), added);
  }

  lemma EvaluatedTells(history: seq<Evaluation>, rows: seq<Row>, e: Evaluation, i: nat)
    requires Agrees(history, rows) && i < |Evaluated(rows, e.signals, e.now)|
    ensures Tells(history + [e], Evaluated(rows, e.signals, e.now)[i])
  {
    var active := Fired(e.signals);
    if i < |rows| {
      TouchedTells(history, e, rows[i]);
    } else {
      FiredIsFires(e.signals, "");
      NewRowsOpen(rows, active, e.now);
      var r := NewRows(rows, active, e.now)[i - |rows|];
      assert Opens(rows, active, e.now, r);
      NewTells(history, e, r);
    }
  }

  lemma EvaluatedCovers(history: seq<Evaluation>, rows: seq<Row>, e: Evaluation, key: string)
    requires Agrees(history, rows)
    ensures Known(Evaluated(rows, e.signals, e.now), key) <==> EverFired(history + [e], key)
  {
    assert (history + [e])[..|history|] == history;
    EvaluatedKnown(rows, e.signals, e.now, key);
  }

  /** An evaluation keeps every row and adds one for every firing signal that has none. */
  lemma EvaluatedKnown(rows: seq<Row>, signals: seq<Signal>, now: int, key: string)
    ensures Known(Evaluated(rows, signals, now), key) <==> Known(rows, key) || Fires(signals, key)
  {
    var active, after := Fired(signals), Evaluated(rows, signals, now);
    FiredIsFires(signals, key);
    TouchedKnown(rows, active, now, key);
    NewRowsOpen(rows, active, now);
    if Known(rows, key) {
      var r :| r in TouchedRows(rows, active, now) && r.key == key;
      assert r in after;
    } else if Has(active, key) {
      NewRowsCover(rows, active, now, key);
      var r :| r in NewRows(rows, active, now) && r.key == key;
      assert r in after;
    }
    if Known(after, key) && !Known(rows, key) {
      var i :| 0 <= i < |after| && after[i].key == key;
      if i < |rows| {
        assert TouchedRows(rows, active, now)[i] in TouchedRows(rows, active, now);
      } else {
        assert Opens(rows, active, now, NewRows(rows, active, now)[i - |rows|]);
      }
    }
  }

  lemma StepAgrees(history: seq<Evaluation>, rows: seq<Row>, e: Evaluation)
    requires Agrees(history, rows)
    ensures Agrees(history + [e], Evaluated(rows, e.signals, e.now))
  {
    var after := Evaluated(rows, e.signals, e.now);
    EvaluatedUnique(rows, e.signals, e.now);
    forall i | 0 <= i < |after| ensures Tells(history + [e], after[i]) {
      EvaluatedTells(history, rows, e, i);
    }
    forall key ensures Known(after, key) <==> EverFired(history + [e], key) {
      EvaluatedCovers(history, rows, e, key);
    }
  }

  /**
    After any evaluations there is one row per signal that ever fired; a row is active
    exactly while its signal fires, counts its unbroken streak and remembers when the
    streak began, and a recovered one remembers when it was found broken.
   */
  lemma {:induction false} LedgerAgreesWithHistory(history: seq<Evaluation>)
    ensures Agrees(history, After(history))
  {
    if history != [] {
      var n := |history| - 1;
      LedgerAgreesWithHistory(history[..n]);
      StepAgrees(history[..n], After(history[..n]), history[n]);
      assert history == history[..n] + [history[n]];
    }
  }

  lemma {:induction false} FiringIsActive(history: seq<Evaluation>, key: string)
    requires history != [] && key in FiringKeys(history[|history| - 1].signals)
    ensures key in ActiveKeys(After(history))
  {
    LedgerAgreesWithHistory(history);
    var rows := After(history);
    assert Streak(history, key) > 0;
    StreakFired(history, key);
    assert Known(rows, key);
    var i :| 0 <= i < |rows| && rows[i].key == key;
    assert Tells(history, rows[i]) && rows[i] in rows;
  }

  /** The active rows are exactly the last evaluation's firing signals. */
  lemma {:induction false} ActiveIsFiring(history: seq<Evaluation>)
    requires history != []
    ensures ActiveKeys(After(history)) == FiringKeys(history[|history| - 1].signals)
  {
    LedgerAgreesWithHistory(history);
    var rows, signals := After(history), history[|history| - 1].signals;
    forall key | key in FiringKeys(signals) ensures key in ActiveKeys(rows) {
      FiringIsActive(history, key);
    }
    forall key | key in ActiveKeys(rows) ensures key in FiringKeys(signals) {
      var i :| 0 <= i < |rows| && rows[i].status == Active && rows[i].key == key;
      assert Tells(history, rows[i]) && Fires(signals, key);
    }
  }

  // ------------------------------------------------------------------ a row, read off the history

  /** Some signal of this key is at warning or critical. */
  ghost predicate Alarming(signals: seq<Signal>, key: string) {
    exists i | 0 <= i < |signals| :: signals[i].key == key && (signals[i].level == Warning || signals[i].level == Critical)
  }

  lemma FiresIsAlarming(signals: seq<Signal>, key: string)
    ensures Fires(signals, key) <==> Alarming(signals, key)
  {
    if Fires(signals, key) {
      var s :| s in signals && s.key == key && Firing(s);
      var i :| 0 <= i < |signals| && signals[i] == s;
    }
  }

  /** In the latest evaluations, as many as the streak, the signal was alarming, and not in the one before. */
  lemma {:induction false} StreakIs(history: seq<Evaluation>, key: string)
    ensures Streak(history, key) <= |history|
    ensures forall i | |history| - Streak(history, key) <= i < |history| :: Alarming(history[i].signals, key)
    ensures Streak(history, key) < |history| ==> !Alarming(history[|history| - Streak(history, key) - 1].signals, key)
    ensures Streak(history, key) > 0 ==> StreakStart(history, key) == history[|history| - Streak(history, key)].now
  {
    if history != [] {
      FiresIsAlarming(history[|history| - 1].signals, key);
      StreakIs(history[..|history| - 1], key);
    }
  }

  /** After this many evaluations the signal has stopped, for good so far. */
  ghost predicate StoppedAt(history: seq<Evaluation>, key: string, n: nat) {
    && 0 < n < |history| && Alarming(history[n - 1].signals, key)
    && forall i | n <= i < |history| :: !Alarming(history[i].signals, key)
  }

  lemma {:induction false} StreakEndIs(history: seq<Evaluation>, key: string)
    requires StreakEnd(history, key).Some?
    ensures exists n: nat :: StoppedAt(history, key, n) && StreakEnd(history, key) == Some(history[n].now)
  {
    var rest := history[..|history| - 1];
    StreakIs(history, key);
    StreakIs(rest, key);
    if Streak(rest, key) > 0 {
      assert rest[|rest| - 1] == history[|rest| - 1];
      assert StoppedAt(history, key, |rest|);
    } else {
      StreakEndIs(rest, key);
      var n: nat :| StoppedAt(rest, key, n) && StreakEnd(rest, key) == Some(rest[n].now);
      assert StoppedAt(history, key, n);
    }
  }

  /** The last alarming signal of its key, which is the one that shows. */
  ghost predicate Shows(signals: seq<Signal>, i: nat) {
    && i < |signals| && (signals[i].level == Warning || signals[i].level == Critical)
    && forall j | i < j < |signals| && signals[j].key == signals[i].key :: signals[j].level != Warning && signals[j].level != Critical
  }

  lemma {:induction false} FiredShows(signals: seq<Signal>, i: nat)
    requires Shows(signals, i)
    ensures Has(Fired(signals), signals[i].key)
    ensures Fired(signals)[Position(Fired(signals), signals[i].key)] == signals[i]
  {
    var n := |signals| - 1;
    var rest, last := signals[..n], signals[n];
    FiredIsFires(rest, signals[i].key);
    FiredIsFires(signals, signals[i].key);
    if i == n {
      PutShows(Fired(rest), last, last.key);
    } else {
      assert Shows(rest, i);
      FiredShows(rest, i);
      if Firing(last) {
        assert last.key != signals[i].key;
        PutShows(Fired(rest), last, signals[i].key);
      }
    }
  }

  lemma PutShows(active: seq<Signal>, s: Signal, key: string)
    requires DistinctKeys(active) && (key == s.key || Has(active, key))
    ensures Has(PutSignal(active, s), key)
    ensures PutSignal(active, s)[Position(PutSignal(active, s), key)] == if key == s.key then s else active[Position(active, key)]
  {
    var after := PutSignal(active, s);
    PutSignalKeeps(active, s, key);
    if key == s.key {
      HasIfAt(after, Position(active, key));
    } else {
      HasIfAt(after, Position(active, key));
    }
  }

  /** Active: it has counted the unbroken evaluations and knows when they began. */
  ghost predicate TellsStreak(history: seq<Evaluation>, r: Row) {
    && 0 < r.occurrences <= |history|
    && (forall i | |history| - r.occurrences <= i < |history| :: Alarming(history[i].signals, r.key))
    && (r.occurrences < |history| ==> !Alarming(history[|history| - r.occurrences - 1].signals, r.key))
    && r.firstSeen == history[|history| - r.occurrences].now
    && r.lastSeen == history[|history| - 1].now && r.recoveredAt.None?
  }

  /** Recovered: it knows when its signal was found to have stopped. */
  ghost predicate TellsEnd(history: seq<Evaluation>, r: Row) {
    exists n: nat :: StoppedAt(history, r.key, n) && r.recoveredAt == Some(history[n].now) && r.lastSeen == history[n].now
  }

  lemma {:induction false} TellsIs(history: seq<Evaluation>, r: Row)
    requires history != [] && Tells(history, r)
    ensures r.status == Active <==> Alarming(history[|history| - 1].signals, r.key)
    ensures if r.status == Active then TellsStreak(history, r) else TellsEnd(history, r)
  {
    StreakIs(history, r.key);
    FiresIsAlarming(history[|history| - 1].signals, r.key);
    if r.status == Recovered {
      StreakEndIs(history, r.key);
    }
  }

  /** What a row says, in terms of the evaluations alone: it is active exactly while its signal alarms. */
  lemma {:induction false} RowTellsItsHistory(history: seq<Evaluation>, r: Row)
    requires r in After(history)
    ensures history != []
    ensures r.status == Active <==> Alarming(history[|history| - 1].signals, r.key)
    ensures if r.status == Active then TellsStreak(history, r) else TellsEnd(history, r)
  {
    LedgerAgreesWithHistory(history);
    var i :| 0 <= i < |After(history)| && After(history)[i] == r;
    assert Tells(history, After(history)[i]);
    TellsIs(history, r);
  }

  /** An active row shows the level and the reason of the last alarming signal of its key. */
  lemma {:induction false} RowShowsLastSignal(history: seq<Evaluation>, i: nat)
    requires history != [] && Shows(history[|history| - 1].signals, i)
    ensures var s := history[|history| - 1].signals[i];
      exists r :: r in After(history) && r.key == s.key && r.status == Active && r.critical == (s.level == Critical) && r.reason == s.reason
  {
    var signals := history[|history| - 1].signals;
    LedgerAgreesWithHistory(history);
    FiredShows(signals, i);
    assert Alarming(signals, signals[i].key);
    FiresIsAlarming(signals, signals[i].key);
    assert EverFired(history, signals[i].key) && Known(After(history), signals[i].key);
    var r :| r in After(history) && r.key == signals[i].key;
    var k :| 0 <= k < |After(history)| && After(history)[k] == r;
    assert Tells(history, After(history)[k]);
  }

  lemma DifferenceOfSizes(before: set<string>, firing: set<string>)
    ensures |firing| - |before| == |firing - before| - |before - firing|
  {
    assert firing == (firing - before) + (firing * before) && before == (before - firing) + (firing * before);
    assert |firing| == |firing - before| + |firing * before|;
    assert |before| == |before - firing| + |firing * before|;
  }

  /** Whatever the rows were, the active ones are afterwards exactly those of the firing signals. */
  lemma EvaluatedActive(rows: seq<Row>, signals: seq<Signal>, now: int)
    ensures ActiveKeys(Evaluated(rows, signals, now)) == FiringKeys(signals)
  {
    var active, after := Fired(signals), Evaluated(rows, signals, now);
    FiredIsFires(signals, "");
    NewRowsOpen(rows, active, now);
    forall i | 0 <= i < |after|
      ensures after[i].status == Active <==> Has(active, after[i].key)
    {
      if i >= |rows| {
        assert Opens(rows, active, now, NewRows(rows, active, now)[i - |rows|]);
      }
    }
    forall key ensures key in ActiveKeys(after) <==> key in FiringKeys(signals) {
      FiredIsFires(signals, key);
      EvaluatedKnown(rows, signals, now, key);
      if Known(after, key) {
        var i :| 0 <= i < |after| && after[i].key == key;
        assert after[i] in after;
      }
    }
  }

  function ActiveRows(rows: seq<Row>): nat {
    if rows == [] then 0
    else ActiveRows(rows[..|rows| - 1]) + if rows[|rows| - 1].status == Active then 1 else 0
  }

  lemma ActiveOneMore(rows: seq<Row>, i: nat)
    requires UniqueRows(rows) && i < |rows|
    ensures rows[i].key !in ActiveKeys(rows[..i])
    ensures ActiveKeys(rows[..i + 1]) == ActiveKeys(rows[..i]) + if rows[i].status == Active then {rows[i].key} else {}
  {
    assert rows[..i + 1] == rows[..i] + [rows[i]];
    forall r | r in rows[..i] ensures r.key != rows[i].key {
      var j :| 0 <= j < i && rows[j] == r;
    }
  }

  lemma {:induction false} CountActive(rows: seq<Row>)
    requires UniqueRows(rows)
    ensures ActiveRows(rows) == |ActiveKeys(rows)|
  {
    if rows == [] {
      assert ActiveKeys(rows) == {};
    } else {
      var n := |rows| - 1;
      CountActive(rows[..n]);
      ActiveOneMore(rows, n);
      assert rows[..n + 1] == rows;
    }
  }

  /** How many signals an evaluation opens, and how many it recovers. */
  ghost function Opened(rows: seq<Row>, signals: seq<Signal>): nat {
    |FiringKeys(signals) - ActiveKeys(rows)|
  }

  ghost function Lapsed(rows: seq<Row>, signals: seq<Signal>): nat {
    |ActiveKeys(rows) - FiringKeys(signals)|
  }

  lemma ChangeIsOpenedLessLapsed(rows: seq<Row>, signals: seq<Signal>, now: int)
    requires UniqueRows(rows)
    ensures UniqueRows(Evaluated(rows, signals, now))
    ensures ActiveRows(Evaluated(rows, signals, now)) - ActiveRows(rows) == Opened(rows, signals) - Lapsed(rows, signals)
  {
    EvaluatedUnique(rows, signals, now);
    EvaluatedActive(rows, signals, now);
    CountActive(rows);
    CountActive(Evaluated(rows, signals, now));
    DifferenceOfSizes(ActiveKeys(rows), FiringKeys(signals));
  }

  /** All that was opened and all that was recovered in a history. */
  ghost function AllOpened(history: seq<Evaluation>): nat {
    if history == [] then 0
    else
      var n := |history| - 1;
      AllOpened(history[..n]) + Opened(After(history[..n]), history[n].signals)
  }

  ghost function AllLapsed(history: seq<Evaluation>): nat {
    if history == [] then 0
    else
      var n := |history| - 1;
      AllLapsed(history[..n]) + Lapsed(After(history[..n]), history[n].signals)
  }

  /** Over every history: as many rows are active as signals were opened and not recovered. */
  lemma {:induction false} ActiveIsOpenedLessRecovered(history: seq<Evaluation>)
    ensures ActiveRows(After(history)) == AllOpened(history) - AllLapsed(history)
  {
    if history != [] {
      var n := |history| - 1;
      ActiveIsOpenedLessRecovered(history[..n]);
      LedgerAgreesWithHistory(history[..n]);
      ChangeIsOpenedLessLapsed(After(history[..n]), history[n].signals, history[n].now);
    }
  }

  // ------------------------------------------------------------------ the evaluation itself

  lemma CountOne(keys: set<string>, key: string, before: set<string>)
    requires key !in keys
    ensures |(keys + {key}) - before| == |keys - before| + if key in before then 0 else 1
    ensures |(keys + {key}) * before| == |keys * before| + if key in before then 1 else 0
  {
    if key in before {
      assert (keys + {key}) - before == keys - before && (keys + {key}) * before == (keys * before) + {key};
    } else {
      assert (keys + {key}) - before == (keys - before) + {key} && (keys + {key}) * before == keys * before;
    }
  }

  lemma KeysOneMore(active: seq<Signal>, k: nat)
    requires DistinctKeys(active) && k < |active|
    ensures KeysOf(active[..k + 1]) == KeysOf(active[..k]) + {active[k].key} && active[k].key !in KeysOf(active[..k])
  {
    assert active[..k + 1] == active[..k] + [active[k]];
    forall s | s in active[..k] ensures s.key != active[k].key {
      var j :| 0 <= j < k && active[j] == s;
    }
  }

  lemma UnknownIsNotActive(rows: seq<Row>, key: string)
    requires forall i | 0 <= i < |rows| :: rows[i].key != key
    ensures !Known(rows, key) && key !in ActiveKeys(rows)
  {
  }

  lemma ActiveAt(rows: seq<Row>, i: nat)
    requires UniqueRows(rows) && i < |rows|
    ensures Known(rows, rows[i].key) && (rows[i].key in ActiveKeys(rows) <==> rows[i].status == Active)
  {
    assert rows[i] in rows;
    forall r | r in rows && r.key == rows[i].key ensures r == rows[i] {
      var j :| 0 <= j < |rows| && rows[j] == r;
    }
  }

  /** The rows when the first signals have been dealt with. */
  function Raised(rows: seq<Row>, active: seq<Signal>, now: int): seq<Row> {
    seq(|rows|, i requires 0 <= i < |rows| => if Has(active, rows[i].key) then Touched(rows[i], active, now) else rows[i])
    + NewRows(rows, active, now)
  }

  lemma RaisedOneMore(rows: seq<Row>, active: seq<Signal>, k: nat, now: int)
    requires DistinctKeys(active) && k < |active| && !Known(rows, active[k].key)
    ensures Raised(rows, active[..k + 1], now) == Raised(rows, active[..k], now) + [NewRow(active[k], now)]
  {
    PrefixHas(active, k);
    assert active[..k + 1][..k] == active[..k];
    forall i | 0 <= i < |rows| ensures rows[i].key != active[k].key {
      assert rows[i] in rows;
    }
  }

  lemma RaisedInPlace(rows: seq<Row>, active: seq<Signal>, k: nat, at: nat, now: int)
    requires DistinctKeys(active) && UniqueRows(rows) && k < |active| && at < |rows| && rows[at].key == active[k].key
    ensures Raised(rows, active[..k], now)[at] == rows[at]
    ensures Raised(rows, active[..k + 1], now)
         == Raised(rows, active[..k], now)[at := Touched(rows[at], active[..k + 1], now)]
  {
    PrefixHas(active, k);
    assert active[..k + 1][..k] == active[..k];
    assert rows[at] in rows && Known(rows, active[k].key);
  }

  lemma HasIsKey(active: seq<Signal>, key: string)
    ensures Has(active, key) <==> key in KeysOf(active)
  {
    if Has(active, key) {
      assert active[Position(active, key)] in active;
    }
    if key in KeysOf(active) {
      var i :| 0 <= i < |active| && active[i].key == key;
      HasIfAt(active, i);
    }
  }

  /** The rows when the first stored ones have been looked at for recovery. */
  function Swept(rows: seq<Row>, active: seq<Signal>, n: nat, now: int): seq<Row> {
    seq(|rows|, i requires 0 <= i < |rows| => if i < n || Has(active, rows[i].key) then Touched(rows[i], active, now) else rows[i])
    + NewRows(rows, active, now)
  }

  lemma SweptEnds(rows: seq<Row>, active: seq<Signal>, now: int)
    ensures Swept(rows, active, 0, now) == Raised(rows, active, now)
    ensures Swept(rows, active, |rows|, now) == TouchedRows(rows, active, now) + NewRows(rows, active, now)
  {
  }

  lemma SweptOneMore(rows: seq<Row>, active: seq<Signal>, i: nat, now: int)
    requires i < |rows|
    ensures i < |Swept(rows, active, i, now)|
    ensures Swept(rows, active, i, now)[i] == if Has(active, rows[i].key) then Touched(rows[i], active, now) else rows[i]
    ensures Swept(rows, active, i + 1, now) == Swept(rows, active, i, now)[i := Touched(rows[i], active, now)]
  {
  }

  lemma CountLapsed(rows: seq<Row>, i: nat, active: seq<Signal>)
    requires UniqueRows(rows) && i < |rows|
    ensures |ActiveKeys(rows[..i + 1]) - KeysOf(active)| == |ActiveKeys(rows[..i]) - KeysOf(active)|
              + if rows[i].status == Active && !Has(active, rows[i].key) then 1 else 0
  {
    ActiveOneMore(rows, i);
    HasIsKey(active, rows[i].key);
    var lapsed := ActiveKeys(rows[..i]) - KeysOf(active);
    if rows[i].status == Active && !Has(active, rows[i].key) {
      assert ActiveKeys(rows[..i + 1]) - KeysOf(active) == lapsed + {rows[i].key};
    } else {
      assert ActiveKeys(rows[..i + 1]) - KeysOf(active) == lapsed;
    }
  }

  lemma RaisedNone(rows: seq<Row>, now: int)
    ensures Raised(rows, [], now) == rows
  {
  }

  lemma {:induction false} KeysCount(active: seq<Signal>)
    requires DistinctKeys(active)
    ensures |KeysOf(active)| == |active|
  {
    if active != [] {
      var n := |active| - 1;
      KeysCount(active[..n]);
      KeysOneMore(active, n);
      assert active[..n + 1] == active;
    }
  }

  lemma FiredKeys(signals: seq<Signal>)
    ensures KeysOf(Fired(signals)) == FiringKeys(signals) && |Fired(signals)| == |FiringKeys(signals)|
  {
    forall key ensures key in KeysOf(Fired(signals)) <==> key in FiringKeys(signals) {
      FiredIsFires(signals, key);
      HasIsKey(Fired(signals), key);
    }
    FiredIsFires(signals, "");
    KeysCount(Fired(signals));
  }

  class AlertLedger {
    var rows: seq<Row>

    constructor ()
      ensures rows == After([])
    {
      rows := [];
    }

    method Find(key: string, limit: nat) returns (at: nat)
      requires limit <= |rows|
      ensures at <= limit && (forall j | 0 <= j < at :: rows[j].key != key) && (at < limit ==> rows[at].key == key)
    {
      at := 0;
      while at < limit && rows[at].key != key
        invariant 0 <= at <= limit
        invariant forall j | 0 <= j < at :: rows[j].key != key
      {
        at := at + 1;
      }
    }

    /** Opens or refreshes the row of one firing signal; the first rows are the stored ones. */
    method RaiseOne(ghost was: seq<Row>, stored: nat, active: seq<Signal>, k: nat, now: int) returns (raised: bool)
      requires UniqueRows(was) && DistinctKeys(active) && stored == |was| && k < |active|
      requires rows == Raised(was, active[..k], now)
      modifies this`rows
      ensures rows == Raised(was, active[..k + 1], now)
      ensures raised <==> active[k].key !in ActiveKeys(was)
    {
      var signal := active[k];
      var at := Find(signal.key, stored);
      assert forall j | 0 <= j < |was| :: rows[j].key == was[j].key;
      if at == stored {
        UnknownIsNotActive(was, signal.key);
        RaisedOneMore(was, active, k, now);
        rows := rows + [NewRow(signal, now)];
        return true;
      }
      PrefixHas(active, k);
      ActiveAt(was, at);
      RaisedInPlace(was, active, k, at, now);
      var row := rows[at];
      raised := row.status == Recovered;
      row := Refresh(row, signal, now);
      rows := rows[at := row];
    }

    /** Reopens or refreshes a row, field after field. */
    method Refresh(stored: Row, signal: Signal, now: int) returns (row: Row)
      requires stored.key == signal.key
      ensures row == Row(signal.key, Active, signal.level == Critical, signal.reason,
                         if stored.status == Recovered then 1 else stored.occurrences + 1,
                         if stored.status == Recovered then now else stored.firstSeen, now, None)
    {
      row := stored;
      if row.status == Recovered {
        row := row.(firstSeen := now, occurrences := 1);
      } else {
        row := row.(occurrences := row.occurrences + 1);
      }
      row := row.(status := Active, critical := signal.level == Critical, reason := signal.reason);
      row := row.(lastSeen := now, recoveredAt := None);
    }

    method RaiseAll(active: seq<Signal>, now: int) returns (raised: nat, refreshed: nat)
      requires UniqueRows(rows) && DistinctKeys(active)
      modifies this`rows
      ensures rows == Raised(old(rows), active, now)
      ensures raised == |KeysOf(active) - ActiveKeys(old(rows))| && refreshed == |KeysOf(active) * ActiveKeys(old(rows))|
    {
      ghost var was := rows;
      var stored := |rows|;
      raised, refreshed := 0, 0;
      RaisedNone(was, now);
      assert active[..0] == [] && KeysOf([]) == {};
      for k := 0 to |active|
        invariant rows == Raised(was, active[..k], now)
        invariant raised == |KeysOf(active[..k]) - ActiveKeys(was)|
        invariant refreshed == |KeysOf(active[..k]) * ActiveKeys(was)|
      {
        KeysOneMore(active, k);
        CountOne(KeysOf(active[..k]), active[k].key, ActiveKeys(was));
        var one := RaiseOne(was, stored, active, k, now);
        if one {
          raised := raised + 1;
        } else {
          refreshed := refreshed + 1;
        }
      }
      assert active[..|active|] == active;
    }

    /** Recovers one stored row if it is active and did not fire. */
    method RecoverOne(ghost was: seq<Row>, i: nat, active: seq<Signal>, now: int) returns (recovered: bool)
      requires UniqueRows(was) && i < |was| && rows == Swept(was, active, i, now)
      modifies this`rows
      ensures rows == Swept(was, active, i + 1, now)
      ensures recovered <==> was[i].status == Active && !Has(active, was[i].key)
    {
      SweptOneMore(was, active, i, now);
      recovered := rows[i].status == Active && !Has(active, rows[i].key);
      if recovered {
        rows := rows[i := rows[i].(status := Recovered, recoveredAt := Some(now), lastSeen := now)];
      }
    }

    method RecoverAll(ghost was: seq<Row>, stored: nat, active: seq<Signal>, now: int) returns (recovered: nat)
      requires UniqueRows(was) && stored == |was| && rows == Raised(was, active, now)
      modifies this`rows
      ensures rows == TouchedRows(was, active, now) + NewRows(was, active, now)
      ensures recovered == |ActiveKeys(was) - KeysOf(active)|
    {
      recovered := 0;
      SweptEnds(was, active, now);
      assert ActiveKeys(was[..0]) - KeysOf(active) == {};
      for i := 0 to stored
        invariant rows == Swept(was, active, i, now)
        invariant recovered == |ActiveKeys(was[..i]) - KeysOf(active)|
      {
        CountLapsed(was, i, active);
        var one := RecoverOne(was, i, active, now);
        if one {
          recovered := recovered + 1;
        }
      }
      assert was[..stored] == was;
    }

    /** One evaluation: what it answers is how the set of active signals changed. */
    method Evaluate(signals: seq<Signal>, now: int) returns (raised: nat, refreshed: nat, recovered: nat, active: nat)
      requires UniqueRows(rows)
      modifies this`rows
      ensures rows == Evaluated(old(rows), signals, now) && UniqueRows(rows)
      ensures raised == |FiringKeys(signals) - ActiveKeys(old(rows))|
      ensures refreshed == |FiringKeys(signals) * ActiveKeys(old(rows))|
      ensures recovered == |ActiveKeys(old(rows)) - FiringKeys(signals)|
      ensures active == |FiringKeys(signals)| == ActiveRows(rows)
      ensures ActiveKeys(rows) == FiringKeys(signals)
      ensures raised - recovered == ActiveRows(rows) - ActiveRows(old(rows))
    {
      EvaluatedActive(rows, signals, now);
      ChangeIsOpenedLessLapsed(rows, signals, now);
      CountActive(Evaluated(rows, signals, now));
      FiredIsFires(signals, "");
      FiredKeys(signals);
      EvaluatedUnique(rows, signals, now);
      var firing := Fired(signals);
      ghost var was := rows;
      var stored := |rows|;
      raised, refreshed := RaiseAll(firing, now);
      recovered := RecoverAll(was, stored, firing, now);
      active := |firing|;
    }
  }
}
