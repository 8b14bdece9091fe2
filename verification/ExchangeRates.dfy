/** Exchange rates: units of the target currency per unit of the source currency, or nothing. */
module ExchangeRates {
  import opened Options
  import opened Text

  datatype RateRow = RateRow(source: string, target: string, date: int, rate: real)

  /** The three keys a payload may carry a rate under, in the order they are tried. */
  datatype RateKeys = RateKeys(fxRate: Option<real>, exchangeRate: Option<real>, conversionRate: Option<real>)

  function Normal(currency: string): string {
    Upper(Strip(currency))
  }

  predicate Eligible(row: RateRow, source: string, target: string, date: int) {
    row.source == source && row.target == target && row.date <= date
  }

  /** The newest row of a currency pair that is not after `date`; the earliest listed among equals. */
  function Newest(table: seq<RateRow>, source: string, target: string, date: int): (r: Option<RateRow>)
    ensures r.Some? ==> r.value in table && Eligible(r.value, source, target, date)
    ensures forall row | row in table && Eligible(row, source, target, date) ::
              r.Some? && row.date <= r.value.date
  {
    if table == [] then None
    else
      var rest := Newest(table[1..], source, target, date);
      var first := table[0];
      assert forall row | row in table :: row == first || row in table[1..];
      if Eligible(first, source, target, date) && (rest.None? || rest.value.date <= first.date) then Some(first)
      else rest
  }

  function Positive(rate: real): Option<real> {
    if rate > 0.0 then Some(rate) else None
  }

  function TableRate(table: seq<RateRow>, source: string, target: string, date: Option<int>): Option<real> {
    if date.None? then None
    else
      match Newest(table, source, target, date.value)
      case None => None
      case Some(row) => Positive(row.rate)
  }

  function ResolveRate(table: seq<RateRow>, source: string, target: string, date: Option<int>, payload: Option<real>)
    : (r: Option<real>)
    ensures r.Some? ==> r.value > 0.0
  {
    var s, t := Normal(source), Normal(target);
    if s == "" || t == "" then None
    else if s == t then Some(1.0)
    else if payload.Some? then Positive(payload.value)
    else
      var direct := TableRate(table, s, t, date);
      if direct.Some? then direct
      else
        match TableRate(table, t, s, date)
        case None => None
        case Some(inverse) => Some(1.0 / inverse)
  }

  /** The payload's own rate, unless the payload names a different currency pair. */
  function PayloadRate(payloadSource: string, payloadTarget: string, transfer: RateKeys, payment: RateKeys,
                       source: string, target: string): Option<real>
  {
    var s, t := Normal(payloadSource), Normal(payloadTarget);
    if s != "" && t != "" && (s != Normal(source) || t != Normal(target)) then None
    else Or(FirstKey(transfer), FirstKey(payment))
  }

  function FirstKey(keys: RateKeys): Option<real> {
    Or(keys.fxRate, Or(keys.exchangeRate, keys.conversionRate))
  }

  /**
   * Precedence: an identity is one whatever is on record; a payload rate makes the table irrelevant; and
   * a rate on record in the asked direction makes the opposite direction irrelevant.
   */
  lemma RatePrecedence(table: seq<RateRow>, other: seq<RateRow>, source: string, target: string, date: Option<int>,
                       payload: Option<real>)
    ensures Normal(source) == Normal(target) != "" ==> ResolveRate(table, source, target, date, payload) == Some(1.0)
    ensures payload.Some? ==>
              ResolveRate(table, source, target, date, payload) == ResolveRate(other, source, target, date, payload)
    ensures var rate := TableRate(table, Normal(source), Normal(target), date);
            rate.Some? && TableRate(other, Normal(source), Normal(target), date) == rate ==>
              ResolveRate(table, source, target, date, None) == ResolveRate(other, source, target, date, None)
  {
  }

  /** A pair stored in one direction only resolves to exact reciprocals both ways. */
  lemma OneDirectionGivesReciprocals(table: seq<RateRow>, a: string, b: string, date: Option<int>)
    requires TableRate(table, Normal(a), Normal(b), date).None? || TableRate(table, Normal(b), Normal(a), date).None?
    ensures var forth := ResolveRate(table, a, b, date, None);
            var back := ResolveRate(table, b, a, date, None);
            && forth.Some? == back.Some?
            && (forth.Some? ==> forth.value * back.value == 1.0)
  {
    var forth := ResolveRate(table, a, b, date, None);
    var back := ResolveRate(table, b, a, date, None);
    if forth.Some? && Normal(a) != Normal(b) {
      if TableRate(table, Normal(a), Normal(b), date).Some? {
        TimesReciprocal(forth.value);
      } else {
        TimesReciprocal(back.value);
      }
    }
  }

  lemma TimesReciprocal(x: real)
    requires x > 0.0
    ensures x * (1.0 / x) == 1.0 && (1.0 / x) * x == 1.0
  {
  }

  /** A table rate is the rate of the newest row on or before the date, and never a later one. */
  lemma TableRateIsNewest(table: seq<RateRow>, source: string, target: string, date: int, row: RateRow)
    requires row in table && Eligible(row, source, target, date)
    requires forall other | other in table && Eligible(other, source, target, date) && other != row ::
               other.date < row.date
    ensures TableRate(table, source, target, Some(date)) == Positive(row.rate)
  {
    var found := Newest(table, source, target, date);
  }

  // ---------------------------------------------------------------- what a rate is, in terms of the rows

  /** Row `k` is for this pair, not after the date, and newer than any other such row; of equals the first. */
  ghost predicate IsNewest(table: seq<RateRow>, source: string, target: string, date: int, k: nat) {
    && k < |table| && table[k].source == source && table[k].target == target && table[k].date <= date
    && forall j | 0 <= j < |table| && table[j].source == source && table[j].target == target && table[j].date <= date ::
         table[j].date < table[k].date || (table[j].date == table[k].date && k <= j)
  }

  /** The newest row of the pair gives the rate, and it is positive. */
  ghost predicate Recorded(table: seq<RateRow>, source: string, target: string, date: int, rate: real) {
    exists k: nat :: IsNewest(table, source, target, date, k) && table[k].rate == rate > 0.0
  }

  lemma {:induction false} NewestIs(table: seq<RateRow>, source: string, target: string, date: int, k: nat)
    requires IsNewest(table, source, target, date, k)
    ensures Newest(table, source, target, date) == Some(table[k])
  {
    var rest := table[1..];
    if k > 0 {
      assert table[k] == rest[k - 1];
      forall j | 0 <= j < |rest| ensures rest[j] == table[j + 1] {
      }
      NewestIs(rest, source, target, date, k - 1);
    } else {
      var newest := Newest(rest, source, target, date);
      if newest.Some? {
        var j :| 0 <= j < |rest| && rest[j] == newest.value;
        assert table[j + 1] == newest.value;
      }
    }
  }

  lemma {:induction false} SomeIsNewest(table: seq<RateRow>, source: string, target: string, date: int) returns (k: nat)
    requires Newest(table, source, target, date).Some?
    ensures IsNewest(table, source, target, date, k)
  {
    var rest, first := table[1..], table[0];
    var newest := Newest(rest, source, target, date);
    if Newest(table, source, target, date) == Some(first)
       && Eligible(first, source, target, date) && (newest.None? || newest.value.date <= first.date) {
      k := 0;
      forall j | 0 <= j < |table| && Eligible(table[j], source, target, date) ensures table[j].date <= first.date {
        assert j > 0 ==> table[j] == rest[j - 1] && table[j] in rest;
      }
    } else {
      k := SomeIsNewest(rest, source, target, date);
      k := k + 1;
      NewestIs(rest, source, target, date, k - 1);
      forall j | 0 <= j < |table| && Eligible(table[j], source, target, date)
        ensures table[j].date < table[k].date || (table[j].date == table[k].date && k <= j)
      {
        assert j > 0 ==> table[j] == rest[j - 1];
      }
    }
  }

  lemma TableRateMeans(table: seq<RateRow>, source: string, target: string, date: int, rate: real)
    ensures TableRate(table, source, target, Some(date)) == Some(rate) <==> Recorded(table, source, target, date, rate)
  {
    if Newest(table, source, target, date).Some? {
      var k := SomeIsNewest(table, source, target, date);
      NewestIs(table, source, target, date, k);
    }
    if Recorded(table, source, target, date, rate) {
      var k: nat :| IsNewest(table, source, target, date, k) && table[k].rate == rate > 0.0;
      NewestIs(table, source, target, date, k);
    }
  }

  /**
   * What one unit of `source` is in `target`: one for the same currency, else the payload's rate where
   * there is one, else the newest row's of the pair, else the reciprocal of the opposite pair's.
   */
  ghost predicate Rated(table: seq<RateRow>, source: string, target: string, date: int, payload: Option<real>,
                        rate: real) {
    var s, t := Upper(Strip(source)), Upper(Strip(target));
    && s != "" && t != "" && rate > 0.0
    && if s == t then rate == 1.0
       else if payload.Some? then rate == payload.value
       else if OnRecord(table, s, t, date) then Recorded(table, s, t, date, rate)
       else Reciprocal(table, s, t, date, rate)
  }

  ghost predicate OnRecord(table: seq<RateRow>, source: string, target: string, date: int) {
    exists rate :: Recorded(table, source, target, date, rate)
  }

  lemma PairIsOnRecord(table: seq<RateRow>, source: string, target: string, date: int)
    ensures OnRecord(table, source, target, date) == TableRate(table, source, target, Some(date)).Some?
    ensures var rate := TableRate(table, source, target, Some(date));
            rate.Some? ==> Recorded(table, source, target, date, rate.value)
  {
    var rate := TableRate(table, source, target, Some(date));
    if rate.Some? {
      TableRateMeans(table, source, target, date, rate.value);
    }
    if x :| Recorded(table, source, target, date, x) {
      TableRateMeans(table, source, target, date, x);
    }
  }

  /** Some rate of the opposite pair is on record, and this is its reciprocal. */
  ghost predicate Reciprocal(table: seq<RateRow>, source: string, target: string, date: int, rate: real) {
    exists opposite :: Recorded(table, target, source, date, opposite) && rate * opposite == 1.0
  }

  lemma ReciprocalIs(table: seq<RateRow>, source: string, target: string, date: int, rate: real)
    ensures Reciprocal(table, source, target, date, rate)
            <==> var opposite := TableRate(table, target, source, Some(date));
                 opposite.Some? && rate == 1.0 / opposite.value
  {
    PairIsOnRecord(table, target, source, date);
    var found := TableRate(table, target, source, Some(date));
    if found.Some? {
      TimesReciprocal(found.value);
    }
    if x :| Recorded(table, target, source, date, x) && rate * x == 1.0 {
      TableRateMeans(table, target, source, date, x);
      ReciprocalIsUnique(rate, x);
    }
  }

  /** A rate is resolved if and only if it is that one. */
  lemma ResolvedExactlyWhenRated(table: seq<RateRow>, source: string, target: string, date: int, payload: Option<real>,
                                 rate: real)
    ensures ResolveRate(table, source, target, Some(date), payload) == Some(rate)
            <==> Rated(table, source, target, date, payload, rate)
  {
    var s, t := Upper(Strip(source)), Upper(Strip(target));
    PairIsOnRecord(table, s, t, date);
    TableRateMeans(table, s, t, date, rate);
    ReciprocalIs(table, s, t, date, rate);
  }

  lemma ReciprocalIsUnique(x: real, y: real)
    requires y > 0.0
    ensures x * y == 1.0 <==> x == 1.0 / y
  {
  }

  /** The payload's rate is its first key, the transfer's before the payment's, unless it names another pair. */
  lemma PayloadRateMeans(payloadSource: string, payloadTarget: string, transfer: RateKeys, payment: RateKeys,
                         source: string, target: string)
    ensures var s, t := Upper(Strip(payloadSource)), Upper(Strip(payloadTarget));
            var rate := PayloadRate(payloadSource, payloadTarget, transfer, payment, source, target);
            if s != "" && t != "" && !(s == Upper(Strip(source)) && t == Upper(Strip(target))) then rate == None
            else FirstKnown([transfer.fxRate, transfer.exchangeRate, transfer.conversionRate,
                             payment.fxRate, payment.exchangeRate, payment.conversionRate], rate)
  {
    var rate := PayloadRate(payloadSource, payloadTarget, transfer, payment, source, target);
    var choices := [transfer.fxRate, transfer.exchangeRate, transfer.conversionRate,
                    payment.fxRate, payment.exchangeRate, payment.conversionRate];
    if rate.Some? {
      var i := if choices[0].Some? then 0 else if choices[1].Some? then 1 else if choices[2].Some? then 2
               else if choices[3].Some? then 3 else if choices[4].Some? then 4 else 5;
      assert rate == Or(FirstKey(transfer), FirstKey(payment)) ==> choices[i] == rate;
    }
  }
}
