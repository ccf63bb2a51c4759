/** What one more record changes in a run's usage, by what the record itself says. */
module UsageEffects {
  import opened Wrappers
  import opened Usage

  /** What is reported for one currency, if anything. */
  function In(currencies: seq<CurrencyUsage>, code: string): Option<CurrencyUsage> {
    if currencies == [] then None
    else if currencies[0].currency == code then Some(currencies[0])
    else In(currencies[1..], code)
  }

  lemma {:induction false} InAt(currencies: seq<CurrencyUsage>, codes: seq<string>, code: string)
    requires |currencies| == |codes| && forall i | 0 <= i < |codes| :: currencies[i].currency == codes[i]
    requires forall i, j | 0 <= i < j < |codes| :: codes[i] != codes[j]
    ensures In(currencies, code).Some? <==> code in codes
    ensures forall i | 0 <= i < |codes| && codes[i] == code :: In(currencies, code) == Some(currencies[i])
  {
    if codes != [] {
      InAt(currencies[1..], codes[1..], code);
      assert codes == [codes[0]] + codes[1..];
    }
  }

  ghost predicate Uses(values: seq<Record>, code: string) {
    exists r | r in values :: r.currency == code
  }

  lemma UsesOneMore(values: seq<Record>, r: Record, code: string)
    ensures Uses(values + [r], code) <==> Uses(values, code) || r.currency == code
  {
    assert forall q :: q in values + [r] <==> q in values || q == r;
  }

  lemma InReport(values: seq<Record>, code: string)
    ensures In(Report(values).currencies, code)
         == if Uses(values, code) then Some(UsageIn(values, code)) else None
  {
    var codes := Currencies(values);
    CurrenciesSorted(values);
    forall i, j | 0 <= i < j < |codes| ensures codes[i] != codes[j] {
      BelowTotal(codes[i], codes[j]);
    }
    InAt(Report(values).currencies, codes, code);
    if code in codes {
      var i :| 0 <= i < |codes| && codes[i] == code;
    }
  }

  lemma SumAppend(values: seq<Record>, r: Record, f: Record -> nat)
    ensures Sum(values + [r], f) == Sum(values, f) + f(r)
  {
    SumSplits(values, [r], f);
    assert [r][1..] == [] && Sum([], f) == 0;
  }

  lemma CostsAppend(values: seq<Record>, r: Record, code: string)
    ensures InCurrency(values + [r], code) == InCurrency(values, code) + if r.currency == code then [r] else []
  {
    InCurrencySplits(values, [r], code);
    assert [r][1..] == [] && InCurrency([], code) == [];
  }

  lemma {:induction false} NoCosts(values: seq<Record>, code: string)
    requires !Uses(values, code)
    ensures InCurrency(values, code) == []
  {
    if values != [] {
      assert values[0] in values && forall r | r in values[1..] :: r in values;
      NoCosts(values[1..], code);
    }
  }

  // ------------------------------------------------------------------ one more call

  predicate TokensKnown(r: Record) {
    r.tokens.Some? && (r.provenance == Exact || r.provenance == Estimated)
  }

  /** How the tokens and their provenance move when a call is added. */
  predicate TokensCount(u: RunUsage, v: RunUsage, r: Record) {
    && v.calls == u.calls + 1
    && v.knownTokens == u.knownTokens + (if r.tokens.Some? && r.provenance != Unknown then r.tokens.value else 0)
    && v.unknownCalls == u.unknownCalls + (if TokensKnown(r) then 0 else 1)
    && v.totalTokens == (if v.unknownCalls == 0 then Some(v.knownTokens) else None)
    && v.provenance == (if v.unknownCalls > 0 then Unknown
                        else if u.provenance == Estimated || r.provenance == Estimated then Estimated else Exact)
  }

  predicate CostPriced(r: Record) {
    r.amount.Some? && (r.costStatus == ExactCost || r.costStatus == EstimatedCost)
  }

  predicate CostMissing(r: Record) {
    r.costStatus == UnknownCost || (r.amount.None? && (r.costStatus == ExactCost || r.costStatus == EstimatedCost))
  }

  /** How one currency moves when a call with a cost in it is added. */
  predicate CostCounts(before: Option<CurrencyUsage>, x: CurrencyUsage, r: Record) {
    var subtotal, unknown := if before.Some? then before.value.subtotal else 0, if before.Some? then before.value.unknownCalls else 0;
    && x.currency == r.currency
    && x.subtotal == subtotal + (if CostPriced(r) then r.amount.value else 0)
    && x.unknownCalls == unknown + (if CostMissing(r) then 1 else 0)
    && x.status == (if x.unknownCalls > 0 then UnknownCost
                    else if r.costStatus == NotApplicable && (before.None? || before.value.status == NotApplicable) then NotApplicable
                    else if r.costStatus == EstimatedCost || (before.Some? && before.value.status == EstimatedCost) then EstimatedCost
                    else ExactCost)
    && x.total == (if x.status == ExactCost || x.status == EstimatedCost then Some(x.subtotal) else None)
  }

  /** The first report of all. */
  lemma NothingUsed()
    ensures Aggregated([]) == Some(RunUsage(0, 0, Some(0), 0, Exact, []))
  {
    assert Latest([]) == Some([]) && Currencies([]) == [];
    assert Report([]).currencies == [];
  }

  lemma TokensOfOneMore(values: seq<Record>, r: Record)
    ensures TokensCount(Report(values), Report(values + [r]), r)
  {
    SumAppend(values, r, UncertainUsage);
    SumAppend(values, r, KnownTokens);
    SumAppend(values, r, GuessedUsage);
  }

  lemma {:induction false} ApplicableAreCosts(costs: seq<Record>)
    ensures Sum(costs, GuessedCost) <= Sum(costs, ApplicableCost)
  {
    if costs != [] {
      ApplicableAreCosts(costs[1..]);
    }
  }

  lemma CostOfOneMore(values: seq<Record>, r: Record)
    ensures var before := if Uses(values, r.currency) then Some(UsageIn(values, r.currency)) else None;
      CostCounts(before, UsageIn(values + [r], r.currency), r)
  {
    var costs := InCurrency(values, r.currency);
    CostsAppend(values, r, r.currency);
    SumAppend(costs, r, KnownAmount);
    SumAppend(costs, r, UncertainCost);
    SumAppend(costs, r, ApplicableCost);
    SumAppend(costs, r, GuessedCost);
    ApplicableAreCosts(costs);
    if !Uses(values, r.currency) {
      NoCosts(values, r.currency);
    }
  }

  /** A new call moves the tokens and its own currency, and no other currency. */
  ghost predicate CallCounts(u: RunUsage, v: RunUsage, r: Record) {
    && TokensCount(u, v, r)
    && In(v.currencies, r.currency).Some?
    && CostCounts(In(u.currencies, r.currency), In(v.currencies, r.currency).value, r)
    && forall code | code != r.currency :: In(v.currencies, code) == In(u.currencies, code)
  }

  lemma ReportOfOneMore(values: seq<Record>, r: Record)
    ensures CallCounts(Report(values), Report(values + [r]), r)
  {
    TokensOfOneMore(values, r);
    CostOfOneMore(values, r);
    InReport(values, r.currency);
    InReport(values + [r], r.currency);
    UsesOneMore(values, r, r.currency);
    forall code | code != r.currency ensures In(Report(values + [r]).currencies, code) == In(Report(values).currencies, code) {
      InReport(values, code);
      InReport(values + [r], code);
      CostsAppend(values, r, code);
      UsesOneMore(values, r, code);
      assert InCurrency(values + [r], code) == InCurrency(values, code);
    }
  }

  lemma LatestOfNew(records: seq<Record>, r: Record)
    requires Latest(records).Some? && forall q | q in records :: q.correlation != r.correlation
    ensures Latest(records + [r]) == Some(Latest(records).value + [r])
  {
    LatestRepresents(records);
    var latest := Latest(records).value;
    forall k | 0 <= k < |latest| ensures latest[k].correlation != r.correlation {
      assert Stands(records, latest[k]);
    }
    LatestOneMore(records, r);
  }

  /**
    A record of a new call counts by what it says: its tokens if they are known and one
    unknown call if not; its amount in its currency if it is exact or estimated, and one
    unknown call there, without a total, if it is unknown or missing.
   */
  lemma NewCallCounts(records: seq<Record>, r: Record)
    requires Aggregated(records).Some? && forall q | q in records :: q.correlation != r.correlation
    ensures Aggregated(records + [r]).Some?
    ensures CallCounts(Aggregated(records).value, Aggregated(records + [r]).value, r)
  {
    LatestOfNew(records, r);
    ReportOfOneMore(Latest(records).value, r);
  }

  // ------------------------------------------------------------------ a status by the records that count

  lemma {:induction false} SumPositive(costs: seq<Record>, f: Record -> nat)
    ensures Sum(costs, f) > 0 <==> exists r :: r in costs && f(r) > 0
  {
    if costs != [] {
      SumPositive(costs[1..], f);
      assert costs == [costs[0]] + costs[1..];
    }
  }

  lemma {:induction false} CostsAre(values: seq<Record>, code: string)
    ensures forall r :: r in InCurrency(values, code) <==> r in values && r.currency == code
  {
    if values != [] {
      CostsAre(values[1..], code);
      assert values == [values[0]] + values[1..];
    }
  }

  /** A record that counts has its cost in this currency. */
  ghost predicate Counts(records: seq<Record>, code: string, r: Record) {
    r in Kept(records) && r.currency == code
  }

  /**
    A currency's status is unknown exactly if some record that counts has no known cost,
    not applicable exactly if none of them has a cost at all, and estimated rather than
    exact exactly if one of them is.
   */
  lemma StatusByRecords(records: seq<Record>, code: string)
    requires Aggregated(records).Some? && In(Aggregated(records).value.currencies, code).Some?
    ensures var x := In(Aggregated(records).value.currencies, code).value;
      && (x.status == UnknownCost <==> exists r :: Counts(records, code, r) && CostMissing(r))
      && (x.status == NotApplicable <==> forall r | Counts(records, code, r) :: r.costStatus == NotApplicable)
      && (x.status == EstimatedCost
          <==> (forall r | Counts(records, code, r) :: !CostMissing(r)) && exists r :: Counts(records, code, r) && r.costStatus == EstimatedCost)
  {
    var values := Latest(records).value;
    var costs := InCurrency(values, code);
    InReport(values, code);
    CostsAre(values, code);
    SumPositive(costs, UncertainCost);
    SumPositive(costs, ApplicableCost);
    SumPositive(costs, GuessedCost);
    forall r ensures r in costs <==> Counts(records, code, r) {}
    forall r ensures UncertainCost(r) > 0 <==> CostMissing(r) {}
  }

  // ------------------------------------------------------------------ which record of a call counts

  /** Later, or as late and known where the other is unclear. */
  predicate Beats(a: Record, b: Record) {
    a.createdAt > b.createdAt || (a.createdAt == b.createdAt && a.outcome != Unclear && b.outcome == Unclear)
  }

  /** It fails exactly if two records of a call name different profiles or providers. */
  lemma FailsExactly(records: seq<Record>)
    ensures Aggregated(records).None?
            <==> exists a, b :: a in records && b in records && a.correlation == b.correlation
                                && (a.profile != b.profile || a.provider != b.provider)
  {
    LatestRepresents(records);
    if Conflict(records) {
      var r :| r in records && Clashes(records, r);
    }
    if a, b :| a in records && b in records && a.correlation == b.correlation && (a.profile != b.profile || a.provider != b.provider) {
      assert Clashes(records, b);
    }
  }

  /** The record that counts for a call is one of its records, and none of them beats it. */
  lemma KeptIsUnbeaten(records: seq<Record>, v: Record)
    requires v in Kept(records)
    ensures v in records && forall r | r in records && r.correlation == v.correlation :: !Beats(r, v)
  {
    LatestRepresents(records);
    var i :| 0 <= i < |Latest(records).value| && Latest(records).value[i] == v;
    assert Stands(records, Latest(records).value[i]);
  }

  /** Membership after one more record: the winner of its call, and everything else as before. */
  lemma PutMembers(latest: seq<Record>, r: Record)
    requires OnePerCall(latest) && Put(latest, r).Some?
    ensures forall v: Record | v.correlation != r.correlation :: v in Put(latest, r).value <==> v in latest
  {
    var i, after := IndexOf(latest, r.correlation), Put(latest, r).value;
    forall v: Record | v.correlation != r.correlation ensures v in after <==> v in latest {
      if v in latest {
        var j :| 0 <= j < |latest| && latest[j] == v;
        assert after[j] == v;
      }
      if v in after {
        var j :| 0 <= j < |after| && after[j] == v;
        assert j < |latest| && latest[j] == v;
      }
    }
  }

  lemma EntryIs(latest: seq<Record>, w: Record)
    requires OnePerCall(latest) && w in latest
    ensures IndexOf(latest, w.correlation) < |latest| && latest[IndexOf(latest, w.correlation)] == w
  {
    var j :| 0 <= j < |latest| && latest[j] == w;
    IndexOfHit(latest, j);
  }

  lemma Winner(latest: seq<Record>, r: Record, v: Record)
    requires OnePerCall(latest) && Put(latest, r).Some? && v.correlation == r.correlation
    ensures forall w | w in latest && w.correlation == r.correlation ::
              v in Put(latest, r).value <==> v == if Newer(r, w) then r else w
    ensures (forall w | w in latest :: w.correlation != r.correlation) ==> (v in Put(latest, r).value <==> v == r)
  {
    var i, after := IndexOf(latest, r.correlation), Put(latest, r).value;
    if v in after {
      var j :| 0 <= j < |after| && after[j] == v;
      if j < |latest| && latest[j] == v {
        EntryIs(latest, v);
      }
    }
    if i < |latest| {
      assert latest[i] in latest && after[i] in after;
    } else {
      assert after[|latest|] in after;
    }
    forall w | w in latest && w.correlation == r.correlation ensures i < |latest| && w == latest[i] {
      EntryIs(latest, w);
    }
  }

  /** Both keep the same records of the other calls. */
  ghost predicate AgreeElsewhere(some: seq<Record>, all: seq<Record>, correlation: string) {
    forall v: Record | v.correlation != correlation :: v in some <==> v in all
  }

  lemma AgreeOneMore(some: seq<Record>, all: seq<Record>, correlation: string, r: Record)
    requires OnePerCall(some) && OnePerCall(all) && AgreeElsewhere(some, all, correlation)
    requires Put(all, r).Some? && (r.correlation != correlation ==> Put(some, r).Some?)
    ensures AgreeElsewhere(if r.correlation != correlation then Put(some, r).value else some, Put(all, r).value, correlation)
  {
    PutMembers(all, r);
    if r.correlation != correlation {
      PutMembers(some, r);
      forall v: Record | v.correlation == r.correlation ensures v in Put(some, r).value <==> v in Put(all, r).value {
        Winner(some, r, v);
        Winner(all, r, v);
      }
    }
  }

  /** What the list keeps of the other calls is what they keep by themselves. */
  ghost predicate OthersKept(records: seq<Record>, correlation: string) {
    && Latest(records).Some? && Latest(Others(records, correlation)).Some?
    && OnePerCall(Latest(records).value) && OnePerCall(Latest(Others(records, correlation)).value)
    && AgreeElsewhere(Latest(Others(records, correlation)).value, Latest(records).value, correlation)
  }

  lemma OthersKeptHere(rest: seq<Record>, r: Record)
    requires OthersKept(rest, r.correlation) && Latest(rest + [r]).Some? && OnePerCall(Latest(rest + [r]).value)
    ensures OthersKept(rest + [r], r.correlation)
  {
    LatestOneMore(rest, r);
    OthersOneMore(rest, r, r.correlation);
    assert Others(rest + [r], r.correlation) == Others(rest, r.correlation);
    AgreeOneMore(Latest(Others(rest, r.correlation)).value, Latest(rest).value, r.correlation, r);
  }

  lemma OthersKeptElsewhere(rest: seq<Record>, r: Record, correlation: string)
    requires r.correlation != correlation && OthersKept(rest, correlation)
    requires Latest(rest + [r]).Some? && OnePerCall(Latest(rest + [r]).value)
    requires Latest(Others(rest + [r], correlation)).Some? && OnePerCall(Latest(Others(rest + [r], correlation)).value)
    ensures OthersKept(rest + [r], correlation)
  {
    LatestOneMore(rest, r);
    OthersOneMore(rest, r, correlation);
    LatestOneMore(Others(rest, correlation), r);
    AgreeOneMore(Latest(Others(rest, correlation)).value, Latest(rest).value, correlation, r);
  }

  lemma OthersFacts(records: seq<Record>, correlation: string)
    requires !Conflict(records)
    ensures Latest(records).Some? && OnePerCall(Latest(records).value)
    ensures Latest(Others(records, correlation)).Some? && OnePerCall(Latest(Others(records, correlation)).value)
  {
    LatestRepresents(records);
    OthersAgree(records, correlation);
    LatestRepresents(Others(records, correlation));
  }

  lemma OthersKeptNext(rest: seq<Record>, r: Record, correlation: string)
    requires !Conflict(rest + [r]) && OthersKept(rest, correlation)
    ensures OthersKept(rest + [r], correlation)
  {
    OthersFacts(rest + [r], correlation);
    if r.correlation == correlation {
      OthersKeptHere(rest, r);
    } else {
      OthersKeptElsewhere(rest, r, correlation);
    }
  }

  lemma NoneKept(correlation: string)
    ensures OthersKept([], correlation)
  {
  }

  /** The other calls keep what they would keep by themselves. */
  lemma {:induction false} OthersKeepTheirs(records: seq<Record>, correlation: string)
    requires !Conflict(records)
    ensures OthersKept(records, correlation)
  {
    if records == [] {
      NoneKept(correlation);
    } else {
      var rest, r := records[..|records| - 1], records[|records| - 1];
      assert records == rest + [r];
      PrefixAgrees(records, |rest|);
      OthersKeepTheirs(rest, correlation);
      OthersKeptNext(rest, r, correlation);
    }
  }

  /** It beats every record of its call. */
  ghost predicate Leads(records: seq<Record>, r: Record) {
    forall q | q in records && q.correlation == r.correlation :: Beats(r, q)
  }

  ghost predicate SameCall(records: seq<Record>, r: Record) {
    forall q | q in records && q.correlation == r.correlation :: q.profile == r.profile && q.provider == r.provider
  }

  /**
    A record that beats all others of its call replaces them: the usage is as if it were
    the only one. A record that beats not all of them changes nothing.
   */
  lemma LatestRecordCounts(records: seq<Record>, r: Record)
    requires Aggregated(records).Some? && SameCall(records, r)
    ensures Leads(records, r) ==> Aggregated(records + [r]) == Aggregated(Others(records, r.correlation) + [r])
    ensures !Leads(records, r) ==> Aggregated(records + [r]) == Aggregated(records)
  {
    LatestRepresents(records);
    LatestOneMore(records, r);
    if Leads(records, r) {
      LeaderReplaces(records, r);
    } else {
      var q :| q in records && q.correlation == r.correlation && !Beats(r, q);
      var i := IndexOf(Latest(records).value, r.correlation);
      assert Has(Latest(records).value, q.correlation);
      assert Stands(records, Latest(records).value[i]) && !Newer(q, Latest(records).value[i]);
    }
  }

  lemma LeaderReplaces(records: seq<Record>, r: Record)
    requires !Conflict(records) && Latest(records).Some? && SameCall(records, r) && Leads(records, r)
    requires Latest(records + [r]) == Put(Latest(records).value, r)
    ensures Aggregated(records + [r]) == Aggregated(Others(records, r.correlation) + [r])
  {
    var all, some := Latest(records).value, Others(records, r.correlation);
    LatestRepresents(records);
    OthersKeepTheirs(records, r.correlation);
    OthersAreThere(records, r.correlation);
    LatestOfNew(some, r);
    forall w | w in all && w.correlation == r.correlation ensures SameIdentity(w, r) && Newer(r, w) {
      KeptIsUnbeaten(records, w);
    }
    PutStands(records, all, r);
    PutMembers(all, r);
    forall v: Record ensures v in Put(all, r).value <==> v in Latest(some).value + [r] {
      if v.correlation == r.correlation {
        Winner(all, r, v);
        KeptOthers(some, v);
      }
    }
    LatestRepresents(some + [r]);
    SameMembersOnce(Put(all, r).value, Latest(some).value + [r]);
    ReportOfPermutation(Put(all, r).value, Latest(some).value + [r]);
  }

  lemma KeptOthers(some: seq<Record>, v: Record)
    requires Latest(some).Some? && forall q | q in some :: q.correlation != v.correlation
    ensures v !in Latest(some).value
  {
    if v in Latest(some).value {
      KeptIsUnbeaten(some, v);
    }
  }

  // ------------------------------------------------------------------ the order of the currencies

  /** They agree up to some place, where the first ends or has the smaller character. */
  ghost predicate Precedes(a: string, b: string) {
    exists n: nat | n <= |a| && n < |b| :: a[..n] == b[..n] && (n == |a| || a[n] < b[n])
  }

  lemma {:induction false} BelowPrecedes(a: string, b: string)
    requires Below(a, b)
    ensures Precedes(a, b)
  {
    if a == [] || a[0] < b[0] {
      assert a[..0] == b[..0];
    } else {
      BelowPrecedes(a[1..], b[1..]);
      var n: nat :| n <= |a[1..]| && n < |b[1..]| && a[1..][..n] == b[1..][..n] && (n == |a[1..]| || a[1..][n] < b[1..][n]);
      assert a == [a[0]] + a[1..] && b == [b[0]] + b[1..];
      assert a[..n + 1] == [a[0]] + a[1..][..n] && b[..n + 1] == [b[0]] + b[1..][..n];
      assert n + 1 <= |a| && n + 1 < |b| && a[..n + 1] == b[..n + 1] && (n + 1 == |a| || a[n + 1] < b[n + 1]);
    }
  }

  /** The currencies are reported by code, each once. */
  lemma CurrenciesInOrder(records: seq<Record>)
    requires Aggregated(records).Some?
    ensures var cs := Aggregated(records).value.currencies;
      && (forall i, j | 0 <= i < j < |cs| :: Precedes(cs[i].currency, cs[j].currency))
      && forall code :: In(cs, code).Some? <==> exists r :: Counts(records, code, r)
  {
    var values := Latest(records).value;
    CurrenciesSorted(values);
    forall i, j | 0 <= i < j < |Currencies(values)| ensures Precedes(Currencies(values)[i], Currencies(values)[j]) {
      BelowPrecedes(Currencies(values)[i], Currencies(values)[j]);
    }
    forall code ensures In(Report(values).currencies, code).Some? <==> exists r :: Counts(records, code, r) {
      InReport(values, code);
      if r :| r in values && r.currency == code {
        assert Counts(records, code, r);
      }
    }
  }
}
