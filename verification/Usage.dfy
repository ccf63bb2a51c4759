/** A run's usage from its accounting records: one per call, started or result, repeated or not. */
module Usage {
  import opened Wrappers

  datatype Provenance = Exact | Estimated | Unknown

  datatype CostStatus = ExactCost | EstimatedCost | UnknownCost | NotApplicable

  datatype Outcome = Completed | Failure | Unclear | Denied | ApprovalNeeded

  /** Amounts of money are exact, in a minor unit. */
  datatype Record = Record(
    id: string, correlation: string, profile: string, provider: string, createdAt: int, outcome: Outcome,
    tokens: Option<nat>, provenance: Provenance, amount: Option<nat>, currency: string, costStatus: CostStatus)

  datatype CurrencyUsage = CurrencyUsage(
    currency: string, subtotal: nat, total: Option<nat>, status: CostStatus, unknownCalls: nat)

  datatype RunUsage = RunUsage(
    calls: nat, knownTokens: nat, totalTokens: Option<nat>, unknownCalls: nat, provenance: Provenance,
    currencies: seq<CurrencyUsage>)

  // ------------------------------------------------------------------ one record per call

  predicate SameIdentity(a: Record, b: Record) {
    a.profile == b.profile && a.provider == b.provider
  }

  /** Later, or as late and known where the other is not. */
  predicate Newer(a: Record, b: Record) {
    a.createdAt > b.createdAt || (a.createdAt == b.createdAt && a.outcome != Unclear && b.outcome == Unclear)
  }

  function IndexOf(latest: seq<Record>, correlation: string): (i: nat)
    ensures i <= |latest|
    ensures i < |latest| ==> latest[i].correlation == correlation
    ensures forall j | 0 <= j < i :: latest[j].correlation != correlation
  {
    if latest == [] || latest[0].correlation == correlation then 0 else 1 + IndexOf(latest[1..], correlation)
  }

  /** One more record in the insertion-ordered dictionary, or the identity error. */
  function Put(latest: seq<Record>, r: Record): Option<seq<Record>> {
    var i := IndexOf(latest, r.correlation);
    if i == |latest| then Some(latest + [r])
    else if !SameIdentity(latest[i], r) then None
    else if Newer(r, latest[i]) then Some(latest[i := r])
    else Some(latest)
  }

  function Latest(records: seq<Record>): Option<seq<Record>> {
    if records == [] then Some([])
    else
      var before := Latest(records[..|records| - 1]);
      if before.None? then None else Put(before.value, records[|records| - 1])
  }

  /** This record disagrees with one of its call. */
  ghost predicate Clashes(records: seq<Record>, r: Record) {
    exists q | q in records :: q.correlation == r.correlation && !SameIdentity(q, r)
  }

  ghost predicate Conflict(records: seq<Record>) {
    exists r | r in records :: Clashes(records, r)
  }

  ghost predicate OnePerCall(latest: seq<Record>) {
    forall i, j | 0 <= i < j < |latest| :: latest[i].correlation != latest[j].correlation
  }

  predicate Has(latest: seq<Record>, correlation: string) {
    IndexOf(latest, correlation) < |latest|
  }

  /** It stands for its call: nothing in that call is newer. */
  ghost predicate Stands(records: seq<Record>, v: Record) {
    v in records && forall r | r in records :: r.correlation == v.correlation ==> !Newer(r, v)
  }

  ghost predicate AllStand(records: seq<Record>, latest: seq<Record>) {
    forall i | 0 <= i < |latest| :: Stands(records, latest[i])
  }

  ghost predicate Covered(records: seq<Record>, latest: seq<Record>) {
    forall r | r in records :: Has(latest, r.correlation)
  }

  ghost predicate Represents(records: seq<Record>, latest: seq<Record>) {
    OnePerCall(latest) && AllStand(records, latest) && Covered(records, latest)
  }

  lemma {:induction false} IndexOfHit(latest: seq<Record>, i: nat)
    requires i < |latest|
    ensures IndexOf(latest, latest[i].correlation) <= i
    ensures OnePerCall(latest) ==> IndexOf(latest, latest[i].correlation) == i
  {
    assert !(i < IndexOf(latest, latest[i].correlation));
  }

  lemma ConflictOneMore(records: seq<Record>, r: Record)
    ensures Conflict(records + [r]) <==> Conflict(records) || Clashes(records, r)
  {
    var all := records + [r];
    assert r in all && forall q | q in records :: q in all;
    if Clashes(records, r) {
      assert Clashes(all, r);
    }
    if Conflict(records) {
      var x :| x in records && Clashes(records, x);
      assert Clashes(all, x);
    }
    if Conflict(all) {
      var x :| x in all && Clashes(all, x);
      var q :| q in all && q.correlation == x.correlation && !SameIdentity(q, x);
      if q in records && x in records {
        assert Clashes(records, x);
      } else if q in records {
        assert x == r && Clashes(records, r);
      } else {
        assert q == r && x in records && Clashes(records, r);
      }
    }
  }

  /** Putting a record fails exactly when it disagrees with some record of its call. */
  lemma PutFails(records: seq<Record>, latest: seq<Record>, r: Record)
    requires Represents(records, latest) && !Conflict(records)
    ensures Put(latest, r).None? <==> Clashes(records, r)
  {
    var i := IndexOf(latest, r.correlation);
    if i < |latest| {
      var v := latest[i];
      assert Stands(records, v);
      forall q | q in records && q.correlation == r.correlation ensures SameIdentity(q, r) == SameIdentity(v, r) {
        assert !Clashes(records, v);
      }
    }
  }

  lemma NewerTransitive(a: Record, b: Record, c: Record)
    requires Newer(c, b) && !Newer(a, b)
    ensures !Newer(a, c)
  {
  }

  lemma StandsOneMore(records: seq<Record>, v: Record, r: Record)
    requires Stands(records, v) && (v.correlation == r.correlation ==> !Newer(r, v))
    ensures Stands(records + [r], v)
  {
    forall q | q in records + [r] && q.correlation == v.correlation ensures !Newer(q, v) {
      assert q in records || q == r;
    }
  }

  lemma Supersedes(records: seq<Record>, v: Record, r: Record)
    requires Stands(records, v) && v.correlation == r.correlation && Newer(r, v)
    ensures Stands(records + [r], r)
  {
    assert r in records + [r];
    forall q | q in records + [r] && q.correlation == r.correlation ensures !Newer(q, r) {
      if q in records {
        NewerTransitive(q, v, r);
      }
    }
  }

  lemma PutStands(records: seq<Record>, latest: seq<Record>, r: Record)
    requires Represents(records, latest) && Put(latest, r).Some?
    ensures AllStand(records + [r], Put(latest, r).value) && OnePerCall(Put(latest, r).value)
  {
    var after := Put(latest, r).value;
    var i := IndexOf(latest, r.correlation);
    forall k | 0 <= k < |after| ensures Stands(records + [r], after[k]) {
      if k == |latest| {
        assert r in records + [r] && forall q | q in records :: Has(latest, q.correlation);
        assert Stands(records + [r], r);
      } else if k == i {
        assert Stands(records, latest[i]);
        if Newer(r, latest[i]) {
          Supersedes(records, latest[i], r);
        } else {
          StandsOneMore(records, latest[i], r);
        }
      } else {
        assert Stands(records, latest[k]) && latest[k].correlation != r.correlation by {
          assert i < |latest| ==> latest[k].correlation != latest[i].correlation;
        }
        StandsOneMore(records, latest[k], r);
      }
    }
  }

  lemma PutCovers(records: seq<Record>, latest: seq<Record>, r: Record)
    requires Represents(records, latest) && Put(latest, r).Some?
    ensures Covered(records + [r], Put(latest, r).value)
  {
    var after := Put(latest, r).value;
    forall q | q in records + [r] ensures Has(after, q.correlation) {
      var k := if q == r then IndexOf(latest, r.correlation) else IndexOf(latest, q.correlation);
      assert k < |after| && after[k].correlation == q.correlation;
      IndexOfHit(after, k);
    }
  }

  /**
    It fails exactly when two records of one call disagree on profile or provider; if not,
    it keeps one record for each call, one that nothing in its call is newer than.
   */
  lemma {:induction false} LatestRepresents(records: seq<Record>)
    ensures Latest(records).None? <==> Conflict(records)
    ensures Latest(records).Some? ==> Represents(records, Latest(records).value)
  {
    if records != [] {
      var n := |records| - 1;
      LatestRepresents(records[..n]);
      assert records == records[..n] + [records[n]];
      ConflictOneMore(records[..n], records[n]);
      if Latest(records[..n]).Some? {
        var before := Latest(records[..n]).value;
        PutFails(records[..n], before, records[n]);
        if Put(before, records[n]).Some? {
          PutStands(records[..n], before, records[n]);
          PutCovers(records[..n], before, records[n]);
        }
      }
    }
  }

  // ------------------------------------------------------------------ the report

  function Sum(values: seq<Record>, f: Record -> nat): nat {
    if values == [] then 0 else f(values[0]) + Sum(values[1..], f)
  }

  /** One for a call whose tokens are not known. */
  function UncertainUsage(r: Record): nat {
    if r.tokens.None? || r.provenance == Unknown then 1 else 0
  }

  function GuessedUsage(r: Record): nat {
    if r.provenance == Estimated then 1 else 0
  }

  /** One for a call whose cost is not known. */
  function UncertainCost(r: Record): nat {
    if r.costStatus == UnknownCost || (r.amount.None? && r.costStatus != NotApplicable) then 1 else 0
  }

  function ApplicableCost(r: Record): nat {
    if r.costStatus != NotApplicable then 1 else 0
  }

  function GuessedCost(r: Record): nat {
    if r.costStatus == EstimatedCost then 1 else 0
  }

  function KnownTokens(r: Record): nat {
    if r.provenance != Unknown && r.tokens.Some? then r.tokens.value else 0
  }

  function KnownAmount(r: Record): nat {
    if r.amount.Some? && r.costStatus in {ExactCost, EstimatedCost} then r.amount.value else 0
  }

  function InCurrency(values: seq<Record>, currency: string): seq<Record> {
    if values == [] then []
    else (if values[0].currency == currency then [values[0]] else []) + InCurrency(values[1..], currency)
  }

  function CostStatusOf(costs: seq<Record>): CostStatus {
    if Sum(costs, UncertainCost) > 0 then UnknownCost
    else if Sum(costs, ApplicableCost) == 0 then NotApplicable
    else if Sum(costs, GuessedCost) > 0 then EstimatedCost
    else ExactCost
  }

  function UsageIn(values: seq<Record>, currency: string): CurrencyUsage {
    var costs := InCurrency(values, currency);
    var subtotal := Sum(costs, KnownAmount);
    var status := CostStatusOf(costs);
    CurrencyUsage(currency, subtotal, if status in {UnknownCost, NotApplicable} then None else Some(subtotal),
                  status, Sum(costs, UncertainCost))
  }

  /** Strings in the order of their code points. */
  predicate Below(a: string, b: string) {
    b != [] && (a == [] || a[0] < b[0] || (a[0] == b[0] && Below(a[1..], b[1..])))
  }

  function Insert(sorted: seq<string>, c: string): seq<string> {
    if sorted == [] then [c]
    else if c == sorted[0] then sorted
    else if Below(c, sorted[0]) then [c] + sorted
    else [sorted[0]] + Insert(sorted[1..], c)
  }

  function Currencies(values: seq<Record>): seq<string> {
    if values == [] then [] else Insert(Currencies(values[1..]), values[0].currency)
  }

  function Report(values: seq<Record>): RunUsage {
    var unknown := Sum(values, UncertainUsage);
    var tokens := Sum(values, KnownTokens);
    var currencies := Currencies(values);
    RunUsage(
      |values|, tokens, if unknown > 0 then None else Some(tokens), unknown,
      if unknown > 0 then Unknown
      else if Sum(values, GuessedUsage) > 0 then Estimated else Exact,
      seq(|currencies|, i requires 0 <= i < |currencies| => UsageIn(values, currencies[i])))
  }

  function Aggregated(records: seq<Record>): Option<RunUsage> {
    var latest := Latest(records);
    if latest.None? then None else Some(Report(latest.value))
  }

  // ------------------------------------------------------------------ the order does not matter

  lemma {:induction false} SumSplits(a: seq<Record>, b: seq<Record>, f: Record -> nat)
    ensures Sum(a + b, f) == Sum(a, f) + Sum(b, f)
  {
    if a == [] {
      assert a + b == b;
    } else {
      assert (a + b)[1..] == a[1..] + b;
      SumSplits(a[1..], b, f);
    }
  }

  lemma EmptyMultiset(b: seq<Record>)
    requires multiset(b) == multiset([])
    ensures b == []
  {
    assert |b| == |multiset(b)|;
  }

  /** Taking the first record out of both leaves permutations. */
  lemma RemoveFirst(a: seq<Record>, b: seq<Record>) returns (i: nat)
    requires a != [] && multiset(a) == multiset(b)
    ensures i < |b| && b[i] == a[0] && multiset(a[1..]) == multiset(b[..i] + b[i + 1..])
  {
    assert a == [a[0]] + a[1..];
    assert a[0] in multiset(b);
    i :| i < |b| && b[i] == a[0];
    assert b == b[..i] + [b[i]] + b[i + 1..];
    calc {
      multiset(a[1..]);
      multiset(a) - multiset{a[0]};
      multiset(b) - multiset{b[i]};
      multiset(b[..i]) + multiset{b[i]} + multiset(b[i + 1..]) - multiset{b[i]};
      multiset(b[..i]) + multiset(b[i + 1..]);
    }
  }

  lemma {:induction false} SumOfPermutation(a: seq<Record>, b: seq<Record>, f: Record -> nat)
    requires multiset(a) == multiset(b)
    ensures Sum(a, f) == Sum(b, f)
  {
    if a == [] {
      EmptyMultiset(b);
    } else {
      var i := RemoveFirst(a, b);
      SumOfPermutation(a[1..], b[..i] + b[i + 1..], f);
      SumSplits(b[..i], b[i + 1..], f);
      SumSplits(b[..i], b[i..], f);
      assert b == b[..i] + b[i..] && b[i..][1..] == b[i + 1..];
    }
  }

  lemma {:induction false} InCurrencySplits(a: seq<Record>, b: seq<Record>, c: string)
    ensures InCurrency(a + b, c) == InCurrency(a, c) + InCurrency(b, c)
  {
    if a == [] {
      assert a + b == b;
    } else {
      assert (a + b)[1..] == a[1..] + b;
      InCurrencySplits(a[1..], b, c);
    }
  }

  lemma InCurrencyAt(b: seq<Record>, i: nat, c: string)
    requires i < |b|
    ensures InCurrency(b, c) == InCurrency(b[..i], c) + (if b[i].currency == c then [b[i]] else []) + InCurrency(b[i + 1..], c)
  {
    InCurrencySplits(b[..i], b[i..], c);
    assert b == b[..i] + b[i..] && b[i..][1..] == b[i + 1..];
  }

  lemma {:induction false} InCurrencyOfPermutation(a: seq<Record>, b: seq<Record>, c: string)
    requires multiset(a) == multiset(b)
    ensures multiset(InCurrency(a, c)) == multiset(InCurrency(b, c))
  {
    if a == [] {
      EmptyMultiset(b);
    } else {
      var i := RemoveFirst(a, b);
      InCurrencyOfPermutation(a[1..], b[..i] + b[i + 1..], c);
      InCurrencySplits(b[..i], b[i + 1..], c);
      InCurrencyAt(b, i, c);
    }
  }

  lemma CostStatusOfPermutation(a: seq<Record>, b: seq<Record>)
    requires multiset(a) == multiset(b)
    ensures CostStatusOf(a) == CostStatusOf(b)
  {
    SumOfPermutation(a, b, UncertainCost);
    SumOfPermutation(a, b, ApplicableCost);
    SumOfPermutation(a, b, GuessedCost);
  }

  lemma UsageOfPermutation(a: seq<Record>, b: seq<Record>, c: string)
    requires multiset(a) == multiset(b)
    ensures UsageIn(a, c) == UsageIn(b, c)
  {
    InCurrencyOfPermutation(a, b, c);
    var x, y := InCurrency(a, c), InCurrency(b, c);
    SumOfPermutation(x, y, KnownAmount);
    CostStatusOfPermutation(x, y);
    SumOfPermutation(x, y, UncertainCost);
  }

  // ------------------------------------------------------------------ sorted currencies

  lemma {:induction false} BelowTotal(a: string, b: string)
    ensures a == b || Below(a, b) || Below(b, a)
    ensures !(Below(a, b) && Below(b, a)) && !Below(a, a)
  {
    if a != [] && b != [] {
      BelowTotal(a[1..], b[1..]);
      assert a == [a[0]] + a[1..] && b == [b[0]] + b[1..];
      BelowTotal(a[1..], a[1..]);
    } else if a != [] {
      BelowTotal(a[1..], a[1..]);
    }
  }

  lemma {:induction false} BelowTransitive(a: string, b: string, c: string)
    requires Below(a, b) && Below(b, c)
    ensures Below(a, c)
  {
    if a != [] && a[0] == b[0] == c[0] {
      BelowTransitive(a[1..], b[1..], c[1..]);
    }
  }

  predicate Sorted(s: seq<string>) {
    forall i, j | 0 <= i < j < |s| :: Below(s[i], s[j])
  }

  lemma {:induction false} InsertSorted(s: seq<string>, c: string)
    requires Sorted(s)
    ensures Sorted(Insert(s, c)) && forall x :: x in Insert(s, c) <==> x in s || x == c
  {
    if s != [] {
      InsertSorted(s[1..], c);
      BelowTotal(c, s[0]);
      if Below(c, s[0]) {
        forall j | 0 <= j < |s| ensures Below(c, s[j]) {
          if j > 0 { BelowTransitive(c, s[0], s[j]); }
        }
      }
      assert s == [s[0]] + s[1..];
      assert forall x | x in s[1..] :: Below(s[0], x);
    }
  }

  lemma {:induction false} CurrenciesSorted(values: seq<Record>)
    ensures Sorted(Currencies(values))
    ensures forall c :: c in Currencies(values) <==> exists r | r in values :: r.currency == c
  {
    if values != [] {
      CurrenciesSorted(values[1..]);
      InsertSorted(Currencies(values[1..]), values[0].currency);
      assert values == [values[0]] + values[1..];
    }
  }

  lemma SortedTail(s: seq<string>)
    requires Sorted(s) && s != []
    ensures Sorted(s[1..]) && s[0] !in s[1..] && forall x :: x in s[1..] <==> x in s && x != s[0]
  {
    BelowTotal(s[0], s[0]);
    assert s == [s[0]] + s[1..];
  }

  lemma HeadIn(s: seq<string>)
    requires |s| > 0
    ensures s[0] in s
  {
  }

  lemma {:induction false} SortedUnique(a: seq<string>, b: seq<string>)
    requires Sorted(a) && Sorted(b) && forall x :: x in a <==> x in b
    ensures a == b
  {
    if |a| == 0 {
      if |b| > 0 {
        HeadIn(b);
      }
    } else {
      assert a[0] in a;
      assert a[0] in b && b[0] in b && b[0] in a;
      BelowTotal(a[0], b[0]);
      assert a[0] == b[0];
      SortedTail(a);
      SortedTail(b);
      SortedUnique(a[1..], b[1..]);
      assert a == [a[0]] + a[1..] && b == [b[0]] + b[1..];
    }
  }

  lemma SameElements(a: seq<Record>, b: seq<Record>)
    requires multiset(a) == multiset(b)
    ensures forall r :: r in a <==> r in b
  {
    forall r ensures r in a <==> r in b {
      assert r in a <==> r in multiset(a);
      assert r in b <==> r in multiset(b);
    }
  }

  lemma ReportOfPermutation(a: seq<Record>, b: seq<Record>)
    requires multiset(a) == multiset(b)
    ensures Report(a) == Report(b)
  {
    SumOfPermutation(a, b, UncertainUsage);
    SumOfPermutation(a, b, KnownTokens);
    SumOfPermutation(a, b, GuessedUsage);
    assert |a| == |multiset(a)| == |multiset(b)| == |b|;
    SameElements(a, b);
    CurrenciesSorted(a);
    CurrenciesSorted(b);
    SortedUnique(Currencies(a), Currencies(b));
    forall i | 0 <= i < |Currencies(a)| ensures UsageIn(a, Currencies(a)[i]) == UsageIn(b, Currencies(a)[i]) {
      UsageOfPermutation(a, b, Currencies(a)[i]);
    }
  }

  // ------------------------------------------------------------------ the theorems

  /** No two different records of a call tie at its top. */
  ghost predicate Decisive(records: seq<Record>) {
    forall a, b | Stands(records, a) && Stands(records, b) && a.correlation == b.correlation :: a == b
  }

  /** No two different records of a call tie at all. */
  ghost predicate Untied(records: seq<Record>) {
    forall a, b | a in records && b in records && a.correlation == b.correlation && !Newer(a, b) && !Newer(b, a) :: a == b
  }

  lemma UntiedIsDecisive(records: seq<Record>)
    requires Untied(records)
    ensures Decisive(records)
  {
  }

  lemma OnceEach(a: seq<Record>)
    requires OnePerCall(a)
    ensures forall r | r in multiset(a) :: multiset(a)[r] == 1
    decreases a
  {
    if a != [] {
      OnceEach(a[1..]);
      assert a == [a[0]] + a[1..];
      assert a[0] !in a[1..];
    }
  }

  lemma SameMembersOnce(a: seq<Record>, b: seq<Record>)
    requires OnePerCall(a) && OnePerCall(b) && forall r :: r in a <==> r in b
    ensures multiset(a) == multiset(b)
  {
    OnceEach(a);
    OnceEach(b);
    forall r: Record ensures multiset(a)[r] == multiset(b)[r] {
      assert r in multiset(a) <==> r in a;
      assert r in multiset(b) <==> r in b;
    }
  }

  lemma StandsInBoth(a: seq<Record>, b: seq<Record>, va: seq<Record>, vb: seq<Record>, v: Record)
    requires (forall r :: r in a <==> r in b) && Decisive(a)
    requires AllStand(a, va) && AllStand(b, vb) && Covered(b, vb) && v in va
    ensures v in vb
  {
    var j :| 0 <= j < |va| && va[j] == v;
    assert Stands(a, v) && v in b;
    var w := vb[IndexOf(vb, v.correlation)];
    assert Stands(b, w);
    assert Stands(a, w);
  }

  lemma SameConflict(a: seq<Record>, b: seq<Record>)
    requires forall r :: r in a <==> r in b
    ensures Conflict(a) ==> Conflict(b)
  {
    if Conflict(a) {
      var r :| r in a && Clashes(a, r);
      assert Clashes(b, r);
    }
  }

  lemma SameDecisive(a: seq<Record>, b: seq<Record>)
    requires (forall r :: r in a <==> r in b) && Decisive(a)
    ensures Decisive(b)
  {
    forall x, y | Stands(b, x) && Stands(b, y) && x.correlation == y.correlation ensures x == y {
      assert Stands(a, x) && Stands(a, y);
    }
  }

  /** The same records, in any order and any number of times. */
  ghost predicate SameMembers(a: seq<Record>, b: seq<Record>) {
    forall r :: r in a <==> r in b
  }

  ghost function Kept(records: seq<Record>): set<Record> {
    if Latest(records).None? then {} else set v | v in Latest(records).value
  }

  lemma SameKept(a: seq<Record>, b: seq<Record>)
    requires !Conflict(a) && Decisive(a) && SameMembers(a, b)
    ensures Kept(b) == Kept(a)
  {
    LatestRepresents(a);
    LatestRepresents(b);
    SameConflict(b, a);
    SameDecisive(a, b);
    var va, vb := Latest(a).value, Latest(b).value;
    forall v ensures v in va <==> v in vb {
      if v in va { StandsInBoth(a, b, va, vb, v); }
      if v in vb { StandsInBoth(b, a, vb, va, v); }
    }
  }

  /**
    Any list of the same records, permuted or repeated, is aggregated to the same usage,
    or fails the same, provided no call's top is tied between different records.
   */
  lemma OrderAndRepeatsDoNotMatter(a: seq<Record>, b: seq<Record>)
    requires SameMembers(a, b) && Decisive(a)
    ensures Aggregated(a) == Aggregated(b)
  {
    LatestRepresents(a);
    LatestRepresents(b);
    SameConflict(a, b);
    SameConflict(b, a);
    if !Conflict(a) {
      SameKept(a, b);
      forall v ensures v in Latest(a).value <==> v in Latest(b).value {
        assert v in Kept(a) <==> v in Kept(b);
      }
      SameMembersOnce(Latest(a).value, Latest(b).value);
      ReportOfPermutation(Latest(a).value, Latest(b).value);
    }
  }

  // ------------------------------------------------------------------ ties

  /** The records that count do not depend on how the list is arranged. */
  ghost predicate OrderFree(a: seq<Record>) {
    forall b, d | SameMembers(a, b) && SameMembers(a, d) :: Kept(b) == Kept(d)
  }

  lemma LeadingIndex(lead: Record, rest: seq<Record>, correlation: string)
    requires correlation != lead.correlation
    ensures IndexOf([lead] + rest, correlation) == 1 + IndexOf(rest, correlation)
  {
    assert ([lead] + rest)[1..] == rest;
  }

  /** A record that nothing in its call is newer than stays in front; the other calls do not see it. */
  lemma PutBehind(x: Record, rest: seq<Record>, r: Record)
    requires r.correlation == x.correlation ==> SameIdentity(x, r) && !Newer(r, x)
    requires r.correlation != x.correlation ==> Put(rest, r).Some?
    ensures Put([x] + rest, r)
         == Some([x] + if r.correlation == x.correlation then rest else Put(rest, r).value)
  {
    if r.correlation != x.correlation {
      LeadingIndex(x, rest, r.correlation);
      var i := IndexOf(rest, r.correlation);
      if i < |rest| {
        assert ([x] + rest)[1 + i] == rest[i];
        assert ([x] + rest)[1 + i := r] == [x] + rest[i := r];
      } else {
        assert ([x] + rest) + [r] == [x] + (rest + [r]);
      }
    }
  }

  /** The records of the other calls, by themselves. */
  function Others(records: seq<Record>, correlation: string): seq<Record> {
    if records == [] then []
    else
      var r := records[|records| - 1];
      Others(records[..|records| - 1], correlation) + if r.correlation == correlation then [] else [r]
  }

  lemma {:induction false} OthersAreThere(records: seq<Record>, correlation: string)
    ensures forall r :: r in Others(records, correlation) <==> r in records && r.correlation != correlation
  {
    if records != [] {
      OthersAreThere(records[..|records| - 1], correlation);
      assert records == records[..|records| - 1] + [records[|records| - 1]];
    }
  }

  lemma OthersAgree(records: seq<Record>, correlation: string)
    requires !Conflict(records)
    ensures Latest(Others(records, correlation)).Some?
  {
    OthersAreThere(records, correlation);
    LatestRepresents(Others(records, correlation));
    forall r | r in Others(records, correlation) ensures !Clashes(Others(records, correlation), r) {
      assert r in records && !Clashes(records, r);
    }
  }

  lemma PrefixAgrees(records: seq<Record>, n: nat)
    requires n <= |records| && !Conflict(records)
    ensures !Conflict(records[..n])
  {
    if Conflict(records[..n]) {
      var r :| r in records[..n] && Clashes(records[..n], r);
      assert Clashes(records, r);
    }
  }

  lemma StandingAgrees(records: seq<Record>, x: Record, r: Record)
    requires !Conflict(records) && Stands(records, x) && r in records && r.correlation == x.correlation
    ensures SameIdentity(x, r) && !Newer(r, x)
  {
    assert !Clashes(records, r);
  }

  lemma LatestOneMore(records: seq<Record>, r: Record)
    requires Latest(records).Some?
    ensures Latest(records + [r]) == Put(Latest(records).value, r)
  {
    assert (records + [r])[..|records|] == records;
  }

  lemma OthersOneMore(records: seq<Record>, r: Record, correlation: string)
    ensures Others(records + [r], correlation) == Others(records, correlation) + if r.correlation == correlation then [] else [r]
  {
    assert (records + [r])[..|records|] == records;
  }

  /** What the list with `x` in front keeps, and what the other calls keep by themselves. */
  ghost predicate InFront(x: Record, records: seq<Record>) {
    && Latest(Others(records, x.correlation)).Some?
    && Latest([x] + records) == Some([x] + Latest(Others(records, x.correlation)).value)
  }

  lemma OneMoreBehind(x: Record, records: seq<Record>, r: Record)
    requires InFront(x, records) && Latest(Others(records + [r], x.correlation)).Some?
    requires r.correlation == x.correlation ==> SameIdentity(x, r) && !Newer(r, x)
    ensures InFront(x, records + [r])
  {
    var kept := Latest(Others(records, x.correlation)).value;
    OthersOneMore(records, r, x.correlation);
    if r.correlation != x.correlation {
      LatestOneMore(Others(records, x.correlation), r);
    } else {
      assert Others(records + [r], x.correlation) == Others(records, x.correlation);
    }
    PutBehind(x, kept, r);
    LatestOneMore([x] + records, r);
    assert [x] + (records + [r]) == ([x] + records) + [r];
  }

  lemma AloneInFront(x: Record)
    ensures InFront(x, [])
  {
    assert [x] + [] == [x] && [x][..0] == [] && Latest([]) == Some([]);
    assert [] + [x] == [x];
  }

  lemma OthersKept(all: seq<Record>, some: seq<Record>, correlation: string)
    requires !Conflict(all) && some <= all
    ensures Latest(Others(some, correlation)).Some?
  {
    assert all[..|some|] == some;
    PrefixAgrees(all, |some|);
    OthersAgree(some, correlation);
  }

  /** Listed first, a record at the top of its call is kept, and the other calls keep what they keep anyway. */
  lemma {:induction false} FirstListedWins(all: seq<Record>, some: seq<Record>, x: Record)
    requires !Conflict(all) && Stands(all, x) && some <= all
    ensures InFront(x, some)
    decreases |some|
  {
    if some == [] {
      AloneInFront(x);
    } else {
      var before, r := some[..|some| - 1], some[|some| - 1];
      assert some == before + [r] && r in all;
      FirstListedWins(all, before, x);
      OthersKept(all, some, x.correlation);
      if r.correlation == x.correlation {
        StandingAgrees(all, x, r);
      }
      OneMoreBehind(x, before, r);
    }
  }

  lemma KeptElsewhere(a: seq<Record>, correlation: string)
    requires Latest(Others(a, correlation)).Some?
    ensures forall v | v in Latest(Others(a, correlation)).value :: v.correlation != correlation
  {
    var rest := Latest(Others(a, correlation)).value;
    OthersAreThere(a, correlation);
    LatestRepresents(Others(a, correlation));
    forall v | v in rest ensures v.correlation != correlation {
      var i :| 0 <= i < |rest| && rest[i] == v;
      assert Stands(Others(a, correlation), rest[i]);
    }
  }

  lemma FrontTokens(x: Record, rest: seq<Record>)
    ensures Report([x] + rest).knownTokens == KnownTokens(x) + Sum(rest, KnownTokens)
  {
    assert ([x] + rest)[1..] == rest;
  }

  /**
    Of two records tied at the top of a call the one listed first is kept. Everything else
    that is kept stays the same, so the known tokens differ by exactly what the two say.
   */
  lemma TiesAreDecidedByOrder(a: seq<Record>, x: Record, y: Record)
    requires !Conflict(a) && Stands(a, x) && Stands(a, y) && x.correlation == y.correlation
    ensures SameMembers(a, [x] + a) && SameMembers(a, [y] + a)
    ensures Latest([x] + a).Some? && x in Latest([x] + a).value && (x != y ==> y !in Latest([x] + a).value)
    ensures Latest([y] + a).Some? && Latest([y] + a).value == Latest([x] + a).value[0 := y]
    ensures Aggregated([x] + a).Some? && Aggregated([y] + a).Some?
    ensures Aggregated([x] + a).value.knownTokens - KnownTokens(x) == Aggregated([y] + a).value.knownTokens - KnownTokens(y)
  {
    FirstListedWins(a, a, x);
    FirstListedWins(a, a, y);
    var rest := Latest(Others(a, x.correlation)).value;
    KeptElsewhere(a, x.correlation);
    FrontTokens(x, rest);
    FrontTokens(y, rest);
    assert ([x] + rest)[0 := y] == [y] + rest && ([x] + rest)[0] == x;
  }

  lemma DecisiveIsOrderFree(a: seq<Record>)
    requires !Conflict(a) && Decisive(a)
    ensures OrderFree(a)
  {
    forall b, d | SameMembers(a, b) && SameMembers(a, d) ensures Kept(b) == Kept(d) {
      SameKept(a, b);
      SameKept(a, d);
    }
  }

  lemma OrderFreeHasOneTop(a: seq<Record>, x: Record, y: Record)
    requires !Conflict(a) && OrderFree(a) && Stands(a, x) && Stands(a, y) && x.correlation == y.correlation
    ensures x == y
  {
    TiesAreDecidedByOrder(a, x, y);
    TiesAreDecidedByOrder(a, y, x);
    assert Kept([x] + a) == Kept([y] + a);
    assert x in Kept([x] + a);
  }

  /**
    For every list without a conflict: how it is arranged does not matter to the records
    that count exactly if no call's top is tied between different records.
   */
  lemma OrderFreeExactly(a: seq<Record>)
    requires !Conflict(a)
    ensures OrderFree(a) <==> Decisive(a)
  {
    if Decisive(a) {
      DecisiveIsOrderFree(a);
    }
    if OrderFree(a) {
      forall x, y | Stands(a, x) && Stands(a, y) && x.correlation == y.correlation ensures x == y {
        OrderFreeHasOneTop(a, x, y);
      }
    }
  }

  ghost function Correlations(records: seq<Record>): set<string> {
    set r | r in records :: r.correlation
  }

  lemma CorrelationsCons(first: Record, rest: seq<Record>)
    ensures Correlations([first] + rest) == Correlations(rest) + {first.correlation}
  {
    assert forall r :: r in [first] + rest <==> r == first || r in rest;
  }

  lemma FreshCorrelation(first: Record, rest: seq<Record>)
    requires OnePerCall([first] + rest)
    ensures first.correlation !in Correlations(rest) && OnePerCall(rest)
  {
    var all := [first] + rest;
    assert forall i | 0 <= i < |rest| :: all[i + 1] == rest[i];
    forall i | 0 <= i < |rest| ensures rest[i].correlation != first.correlation {
      assert all[0].correlation != all[i + 1].correlation;
    }
  }

  lemma {:induction false} CountCorrelations(latest: seq<Record>)
    requires OnePerCall(latest)
    ensures |Correlations(latest)| == |latest|
  {
    if latest == [] {
      assert Correlations(latest) == {};
    } else {
      assert latest == [latest[0]] + latest[1..];
      FreshCorrelation(latest[0], latest[1..]);
      CountCorrelations(latest[1..]);
      CorrelationsCons(latest[0], latest[1..]);
    }
  }

  lemma SameCorrelations(records: seq<Record>, latest: seq<Record>)
    requires Represents(records, latest)
    ensures Correlations(records) == Correlations(latest)
  {
    forall r | r in records ensures r.correlation in Correlations(latest) {
      assert latest[IndexOf(latest, r.correlation)] in latest;
    }
    forall v | v in latest ensures v.correlation in Correlations(records) {
      var i :| 0 <= i < |latest| && latest[i] == v;
      assert Stands(records, latest[i]);
    }
  }

  /** One call for each correlation, however many records it has. */
  lemma OneCallPerCorrelation(records: seq<Record>)
    requires !Conflict(records)
    ensures Aggregated(records).Some? && Aggregated(records).value.calls == |Correlations(records)|
  {
    LatestRepresents(records);
    CountCorrelations(Latest(records).value);
    SameCorrelations(records, Latest(records).value);
  }

  // ------------------------------------------------------------------ the aggregation itself

  method CollectLatest(records: seq<Record>) returns (kept: Option<seq<Record>>)
    ensures kept == Latest(records)
  {
    var latest: seq<Record> := [];
    for i := 0 to |records|
      invariant Latest(records[..i]) == Some(latest)
    {
      var record := records[i];
      assert records[..i + 1][..i] == records[..i];
      var at := IndexOf(latest, record.correlation);
      if at == |latest| {
        latest := latest + [record];
      } else if !SameIdentity(latest[at], record) {
        LatestFailsFrom(records, i + 1);
        return None;
      } else if Newer(record, latest[at]) {
        latest := latest[at := record];
      }
    }
    assert records[..|records|] == records;
    kept := Some(latest);
  }

  lemma SumOneMore(values: seq<Record>, i: nat, f: Record -> nat)
    requires i < |values|
    ensures Sum(values[..i + 1], f) == Sum(values[..i], f) + f(values[i])
  {
    SumSplits(values[..i], [values[i]], f);
    assert values[..i + 1] == values[..i] + [values[i]];
    assert [values[i]][1..] == [] && Sum([], f) == 0;
  }

  lemma InCurrencyOneMore(values: seq<Record>, i: nat, code: string)
    requires i < |values|
    ensures InCurrency(values[..i + 1], code)
         == InCurrency(values[..i], code) + if values[i].currency == code then [values[i]] else []
  {
    InCurrencySplits(values[..i], [values[i]], code);
    assert values[..i + 1] == values[..i] + [values[i]];
    assert [values[i]][1..] == [] && InCurrency([], code) == [];
  }

  /** How many calls have no known usage, the known tokens, and whether some were only estimated. */
  method Totals(values: seq<Record>) returns (unknown: nat, tokens: nat, estimated: bool)
    ensures unknown == Sum(values, UncertainUsage) && tokens == Sum(values, KnownTokens)
    ensures estimated <==> Sum(values, GuessedUsage) > 0
  {
    unknown, tokens, estimated := 0, 0, false;
    for i := 0 to |values|
      invariant unknown == Sum(values[..i], UncertainUsage) && tokens == Sum(values[..i], KnownTokens)
      invariant estimated <==> Sum(values[..i], GuessedUsage) > 0
    {
      var row := values[i];
      SumOneMore(values, i, UncertainUsage);
      SumOneMore(values, i, KnownTokens);
      SumOneMore(values, i, GuessedUsage);
      if row.tokens.None? || row.provenance == Unknown {
        unknown := unknown + 1;
      }
      if row.tokens.Some? && row.provenance != Unknown {
        tokens := tokens + row.tokens.value;
      }
      estimated := estimated || row.provenance == Estimated;
    }
    assert values[..|values|] == values;
  }

  /** The records whose cost is in one currency. */
  method CostsOf(values: seq<Record>, code: string) returns (costs: seq<Record>)
    ensures costs == InCurrency(values, code)
  {
    costs := [];
    for i := 0 to |values|
      invariant costs == InCurrency(values[..i], code)
    {
      InCurrencyOneMore(values, i, code);
      if values[i].currency == code {
        costs := costs + [values[i]];
      }
    }
    assert values[..|values|] == values;
  }

  /** Those costs counted, added up and given a status. */
  method CurrencyReport(values: seq<Record>, code: string) returns (usage: CurrencyUsage)
    ensures usage == UsageIn(values, code)
  {
    var costs := CostsOf(values, code);
    var missing, subtotal, allInapplicable, estimated := 0, 0, true, false;
    for i := 0 to |costs|
      invariant missing == Sum(costs[..i], UncertainCost) && subtotal == Sum(costs[..i], KnownAmount)
      invariant allInapplicable <==> Sum(costs[..i], ApplicableCost) == 0
      invariant estimated <==> Sum(costs[..i], GuessedCost) > 0
    {
      var cost := costs[i];
      SumOneMore(costs, i, UncertainCost);
      SumOneMore(costs, i, KnownAmount);
      SumOneMore(costs, i, ApplicableCost);
      SumOneMore(costs, i, GuessedCost);
      if cost.costStatus == UnknownCost || (cost.amount.None? && cost.costStatus != NotApplicable) {
        missing := missing + 1;
      }
      if cost.amount.Some? && cost.costStatus in {ExactCost, EstimatedCost} {
        subtotal := subtotal + cost.amount.value;
      }
      allInapplicable := allInapplicable && cost.costStatus == NotApplicable;
      estimated := estimated || cost.costStatus == EstimatedCost;
    }
    assert costs[..|costs|] == costs;
    var status := if missing > 0 then UnknownCost
                  else if allInapplicable then NotApplicable
                  else if estimated then EstimatedCost else ExactCost;
    usage := CurrencyUsage(code, subtotal, if status in {UnknownCost, NotApplicable} then None else Some(subtotal),
                           status, missing);
  }

  method SortedCodes(values: seq<Record>) returns (codes: seq<string>)
    ensures codes == Currencies(values)
  {
    codes := [];
    var i := |values|;
    while i > 0
      invariant 0 <= i <= |values|
      invariant codes == Currencies(values[i..])
    {
      i := i - 1;
      assert values[i..][1..] == values[i + 1..];
      codes := Insert(codes, values[i].currency);
    }
    assert values[0..] == values;
  }

  method CollectCurrencies(values: seq<Record>) returns (currencies: seq<CurrencyUsage>)
    ensures currencies == Report(values).currencies
  {
    var codes := SortedCodes(values);
    currencies := [];
    for k := 0 to |codes|
      invariant |currencies| == k && forall j | 0 <= j < k :: currencies[j] == UsageIn(values, codes[j])
    {
      var usage := CurrencyReport(values, codes[k]);
      currencies := currencies + [usage];
    }
  }

  /** Fails on an identity that changed; otherwise the report over one record per call. */
  method Aggregate(records: seq<Record>) returns (usage: Option<RunUsage>)
    ensures usage == Aggregated(records)
    ensures usage.None? <==> Conflict(records)
  {
    LatestRepresents(records);
    var latest := CollectLatest(records);
    if latest.None? {
      return None;
    }
    var values := latest.value;
    var unknown, tokens, estimated := Totals(values);
    var currencies := CollectCurrencies(values);
    usage := Some(RunUsage(
      |values|, tokens, if unknown > 0 then None else Some(tokens), unknown,
      if unknown > 0 then Unknown else if estimated then Estimated else Exact, currencies));
  }

  lemma {:induction false} LatestFailsFrom(records: seq<Record>, n: nat)
    requires n <= |records| && Latest(records[..n]).None?
    ensures Latest(records).None?
    decreases |records| - n
  {
    if n == |records| {
      assert records[..n] == records;
    } else {
      assert records[..n + 1][..n] == records[..n];
      LatestFailsFrom(records, n + 1);
    }
  }
}
