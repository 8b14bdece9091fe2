/** The currency arithmetic of a priced payment. */
module PaymentQuotes {
  import opened Options
  import opened Money
  import opened ExchangeRates
  import opened PaymentModel
  import opened PaymentSteps

  /** Cents differ from an exact amount by at most half a cent. */
  predicate WithinHalfCent(cents: int, exact: real) {
    -0.5 <= cents as real - 100.0 * exact <= 0.5
  }

  /** `cents` is `paid` taken at `sourceRate` into the company currency and at `rate` out of it, to the nearest cent. */
  predicate NearestConversion(cents: int, paid: int, sourceRate: real, rate: real)
    requires rate > 0.0
  {
    WithinHalfCent(cents, Units(paid) * sourceRate / rate)
  }

  lemma QuoteShape(h: Host, info: InvoiceInfo, billId: string, p: Payment)
    requires QuoteOf(h, info, billId, p).Priced?
    ensures var t := QuoteOf(h, info, billId, p).terms;
            var source, home := Text.Upper(SourceCurrency(h, info, p)), CompanyCurrency(h, info);
            && t.received == Converted(t.paid, t.sourceRate, t.targetRate)
            && t.invoiceAmount == Converted(t.paid, t.sourceRate, t.invoiceRate)
            && (Text.Upper(Text.Else(info.currency, home)) == source ==> t.invoiceRate == t.sourceRate)
            && (Text.Upper(Text.Else(info.creditCurrency, Text.Else(info.currency, home))) == source
                ==> t.targetRate == t.sourceRate)
  {
  }

  /** Every priced payment pays a positive amount at positive rates, and both conversions are nearest-cent. */
  lemma PricesAreNearest(h: Host, info: InvoiceInfo, billId: string, p: Payment)
    requires QuoteOf(h, info, billId, p).Priced?
    ensures PricedWell(QuoteOf(h, info, billId, p).terms)
  {
    TermsOf(h, info, billId, p);
    QuoteShape(h, info, billId, p);
    ShapedWell(QuoteOf(h, info, billId, p).terms);
  }

  predicate PricedWell(t: Terms) {
    && t.paid > 0 && t.received >= 0 && t.invoiceAmount >= 0
    && t.sourceRate > 0.0 && t.targetRate > 0.0 && t.invoiceRate > 0.0
    && NearestConversion(t.received, t.paid, t.sourceRate, t.targetRate)
    && NearestConversion(t.invoiceAmount, t.paid, t.sourceRate, t.invoiceRate)
  }

  lemma ShapedWell(t: Terms)
    requires t.paid > 0 && t.received >= 0 && t.invoiceAmount >= 0
    requires t.sourceRate > 0.0 && t.targetRate > 0.0 && t.invoiceRate > 0.0
    requires t.received == Converted(t.paid, t.sourceRate, t.targetRate)
    requires t.invoiceAmount == Converted(t.paid, t.sourceRate, t.invoiceRate)
    ensures PricedWell(t)
  {
    ConvertedIsNear(t.paid, t.sourceRate, t.targetRate);
    ConvertedIsNear(t.paid, t.sourceRate, t.invoiceRate);
  }

  lemma ConvertedIsNear(cents: int, sourceRate: real, rate: real)
    requires rate > 0.0
    ensures NearestConversion(Converted(cents, sourceRate, rate), cents, sourceRate, rate)
  {
    var exact := Units(cents) * sourceRate / rate;
    RoundsToNearest(exact);
  }

  lemma ThereAndBack(cents: int, rate: real)
    requires rate > 0.0
    ensures Converted(cents, rate, rate) == cents
  {
    assert Units(cents) * rate / rate == Units(cents);
    RoundingIsIdempotent(cents);
  }

  /**
   * Where the invoice is in the source currency its amount is what was paid, to the cent, whatever
   * the rate; likewise the account's.
   */
  lemma SameCurrencyIsExact(h: Host, info: InvoiceInfo, billId: string, p: Payment)
    requires QuoteOf(h, info, billId, p).Priced?
    ensures var t := QuoteOf(h, info, billId, p).terms;
            var source, home := Text.Upper(SourceCurrency(h, info, p)), CompanyCurrency(h, info);
            && (Text.Upper(Text.Else(info.currency, home)) == source ==> t.invoiceAmount == t.paid)
            && (Text.Upper(Text.Else(info.creditCurrency, Text.Else(info.currency, home))) == source
                ==> t.received == t.paid)
  {
    var t := QuoteOf(h, info, billId, p).terms;
    TermsOf(h, info, billId, p);
    QuoteShape(h, info, billId, p);
    ThereAndBack(t.paid, t.sourceRate);
  }

  // ---------------------------------------------------------------- what a quote takes from where

  /** The first amount that is neither missing nor zero, in cents; nothing if there is none. */
  ghost predicate FirstAmount(choices: seq<Option<real>>, cents: int) {
    if exists i :: 0 <= i < |choices| && choices[i].Some? && choices[i] != Some(0.0)
    then exists i :: 0 <= i < |choices| && choices[i].Some? && choices[i] != Some(0.0)
                     && cents == AsMoney(choices[i].value)
                     && forall j | 0 <= j < i :: choices[j] in {None, Some(0.0)}
    else cents == 0
  }

  /** The currencies, the date, the amount, the identity and the mode are each the first that is given. */
  lemma ChoicesMean(h: Host, info: InvoiceInfo, p: Payment)
    ensures Text.FirstGiven([p.transfer.sourceCurrency, p.currency, info.currency, h.settings.defaultCurrency],
                            SourceCurrency(h, info, p))
    ensures var ofCompany :=
              if info.company != "" && info.company in h.companyCurrency then h.companyCurrency[info.company] else "";
            Text.FirstGiven([ofCompany, h.settings.defaultCurrency], CompanyCurrency(h, info))
    ensures FirstKnown([p.transfer.transferDate, p.createdAt, p.paidAt, Some(h.today)], Some(PostingDate(h, p)))
    ensures FirstAmount([p.amount, p.transfer.sourceAmount, p.sourceAmount], AmountOf(p))
    ensures Text.FirstGiven([p.id, p.transfer.transferId, p.cardTransactionId], p.Id())
    ensures exists asked :: Text.FirstGiven([p.paymentMethod, p.transfer.paymentMethod], asked)
                            && ModeOf(h, p) == if asked in h.modes then asked else ""
  {
    FirstOfFour(p.transfer.sourceCurrency, p.currency, info.currency, h.settings.defaultCurrency);
    FirstOfTwo(if info.company != "" && info.company in h.companyCurrency then h.companyCurrency[info.company] else "",
               h.settings.defaultCurrency);
    FirstOfThree(p.id, p.transfer.transferId, p.cardTransactionId);
    FirstOfTwo(p.paymentMethod, p.transfer.paymentMethod);
    DateIsFirst(h, p);
    AmountIsFirst(p);
  }

  lemma FirstOfTwo(a: string, b: string)
    ensures Text.FirstGiven([a, b], Text.Else(a, b))
  {
    assert [a, b][0] == a && [a, b][1] == b;
  }

  lemma FirstOfThree(a: string, b: string, c: string)
    ensures Text.FirstGiven([a, b, c], Text.Else(a, Text.Else(b, c)))
  {
    assert [a, b, c][0] == a && [a, b, c][1] == b && [a, b, c][2] == c;
  }

  lemma FirstOfFour(a: string, b: string, c: string, d: string)
    ensures Text.FirstGiven([a, b, c, d], Text.Else(a, Text.Else(b, Text.Else(c, d))))
  {
    assert [a, b, c, d][0] == a && [a, b, c, d][1] == b && [a, b, c, d][2] == c && [a, b, c, d][3] == d;
  }

  lemma DateIsFirst(h: Host, p: Payment)
    ensures FirstKnown([p.transfer.transferDate, p.createdAt, p.paidAt, Some(h.today)], Some(PostingDate(h, p)))
  {
    var dates := [p.transfer.transferDate, p.createdAt, p.paidAt, Some(h.today)];
    var i := if dates[0].Some? then 0 else if dates[1].Some? then 1 else if dates[2].Some? then 2 else 3;
    assert dates[i] == Some(PostingDate(h, p));
  }

  lemma AmountIsFirst(p: Payment)
    ensures FirstAmount([p.amount, p.transfer.sourceAmount, p.sourceAmount], AmountOf(p))
  {
    var amounts := [p.amount, p.transfer.sourceAmount, p.sourceAmount];
    var i := if amounts[0] !in {None, Some(0.0)} then 0 else if amounts[1] !in {None, Some(0.0)} then 1 else 2;
    if amounts[i] !in {None, Some(0.0)} {
      assert AmountOf(p) == AsMoney(amounts[i].value) && amounts[i].Some?;
    } else {
      assert forall j | 0 <= j < 3 :: amounts[j] in {None, Some(0.0)};
    }
  }

  /** The rate of a currency the payment is converted into: the source rate if it is that currency, else the table's. */
  ghost predicate SideRated(h: Host, currency: string, source: string, sourceRate: real, home: string, date: int,
                            rate: real)
  {
    if Text.Upper(currency) == Text.Upper(source) then rate == sourceRate
    else Rated(h.rates, currency, home, date, None, rate)
  }

  lemma SideRatedExactlyWhen(h: Host, currency: string, source: string, sourceRate: real, home: string, date: int,
                             rate: real)
    requires sourceRate > 0.0
    ensures SideRate(h, currency, source, sourceRate, home, date) == Some(rate)
            <==> SideRated(h, currency, source, sourceRate, home, date, rate)
  {
    ResolvedExactlyWhenRated(h.rates, currency, home, date, None, rate);
  }

  /** The three rates: of the source, of the invoice's account, and of the invoice, each into the company currency. */
  ghost predicate RatedAs(h: Host, info: InvoiceInfo, p: Payment, t: Terms) {
    var source, home := SourceCurrency(h, info, p), CompanyCurrency(h, info);
    var payload := PayloadRate(p.transfer.sourceCurrency, p.transfer.targetCurrency, p.transfer.rates, p.rates,
                               source, home);
    var invoiced := if info.currency != "" then info.currency else home;
    var account := if info.creditCurrency != "" then info.creditCurrency else invoiced;
    && Rated(h.rates, source, home, t.postingDate, payload, t.sourceRate)
    && SideRated(h, account, source, t.sourceRate, home, t.postingDate, t.targetRate) && t.targetRate > 0.0
    && SideRated(h, invoiced, source, t.sourceRate, home, t.postingDate, t.invoiceRate) && t.invoiceRate > 0.0
  }

  /** The amount goes through the company currency at those rates. */
  predicate ConvertedAs(t: Terms) {
    && t.targetRate > 0.0 && t.invoiceRate > 0.0
    && t.received == Converted(t.paid, t.sourceRate, t.targetRate)
    && t.invoiceAmount == Converted(t.paid, t.sourceRate, t.invoiceRate)
  }

  /** What else the terms take over from the payment, its invoice and the settings. */
  predicate TakenOver(h: Host, info: InvoiceInfo, billId: string, p: Payment, t: Terms) {
    && t.paymentId == p.Id() && t.settings == h.settings.name && t.billId == billId
    && t.paid == AmountOf(p) > 0 && t.postingDate == PostingDate(h, p)
    && t.company == info.company && t.party == info.supplier && t.mode == ModeOf(h, p)
    && SourceCurrency(h, info, p) in h.accounts && t.paidFrom == h.accounts[SourceCurrency(h, info, p)]
  }

  /** Where the three rates are looked up. */
  predicate LookedUp(h: Host, info: InvoiceInfo, p: Payment, t: Terms) {
    var source, home := SourceCurrency(h, info, p), CompanyCurrency(h, info);
    var payload := PayloadRate(p.transfer.sourceCurrency, p.transfer.targetCurrency, p.transfer.rates, p.rates,
                               source, home);
    var invoiced := if info.currency != "" then info.currency else home;
    var account := if info.creditCurrency != "" then info.creditCurrency else invoiced;
    && t.sourceRate > 0.0
    && ResolveRate(h.rates, source, home, Some(t.postingDate), payload) == Some(t.sourceRate)
    && SideRate(h, account, source, t.sourceRate, home, t.postingDate) == Some(t.targetRate)
    && SideRate(h, invoiced, source, t.sourceRate, home, t.postingDate) == Some(t.invoiceRate)
  }

  lemma LookedUpExactlyWhenRated(h: Host, info: InvoiceInfo, p: Payment, t: Terms)
    ensures LookedUp(h, info, p, t) <==> RatedAs(h, info, p, t)
  {
    var source, home := SourceCurrency(h, info, p), CompanyCurrency(h, info);
    var payload := PayloadRate(p.transfer.sourceCurrency, p.transfer.targetCurrency, p.transfer.rates, p.rates,
                               source, home);
    var invoiced := if info.currency != "" then info.currency else home;
    var account := if info.creditCurrency != "" then info.creditCurrency else invoiced;
    ResolvedExactlyWhenRated(h.rates, source, home, t.postingDate, payload, t.sourceRate);
    if t.sourceRate > 0.0 {
      SideRatedExactlyWhen(h, account, source, t.sourceRate, home, t.postingDate, t.targetRate);
      SideRatedExactlyWhen(h, invoiced, source, t.sourceRate, home, t.postingDate, t.invoiceRate);
    }
  }

  /** A payment is priced at these terms if and only if they follow from the payload, the invoice and the rate table. */
  lemma PricedExactlyWhen(h: Host, info: InvoiceInfo, billId: string, p: Payment, t: Terms)
    ensures QuoteOf(h, info, billId, p) == Priced(t)
            <==> TakenOver(h, info, billId, p, t) && RatedAs(h, info, p, t) && ConvertedAs(t)
  {
    LookedUpExactlyWhenRated(h, info, p, t);
    if QuoteOf(h, info, billId, p) == Priced(t) {
      QuoteIsLookedUp(h, info, billId, p);
    } else if TakenOver(h, info, billId, p, t) && LookedUp(h, info, p, t) && ConvertedAs(t) {
      LookedUpIsQuoted(h, info, billId, p, t);
    }
  }

  lemma QuoteIsLookedUp(h: Host, info: InvoiceInfo, billId: string, p: Payment)
    requires QuoteOf(h, info, billId, p).Priced?
    ensures var t := QuoteOf(h, info, billId, p).terms;
            && TakenOver(h, info, billId, p, t) && LookedUp(h, info, p, t) && t.targetRate > 0.0 && t.invoiceRate > 0.0
            && t.received == Converted(t.paid, t.sourceRate, t.targetRate)
            && t.invoiceAmount == Converted(t.paid, t.sourceRate, t.invoiceRate)
  {
  }

  lemma LookedUpIsQuoted(h: Host, info: InvoiceInfo, billId: string, p: Payment, t: Terms)
    requires TakenOver(h, info, billId, p, t) && LookedUp(h, info, p, t) && t.targetRate > 0.0 && t.invoiceRate > 0.0
    requires t.received == Converted(t.paid, t.sourceRate, t.targetRate)
    requires t.invoiceAmount == Converted(t.paid, t.sourceRate, t.invoiceRate)
    ensures QuoteOf(h, info, billId, p) == Priced(t)
  {
  }

  /** A payment is held for the first thing that is missing. */
  lemma HeldForWhatIsMissing(h: Host, info: InvoiceInfo, billId: string, p: Payment)
    requires QuoteOf(h, info, billId, p).Unpriced?
    ensures var source, home, date := SourceCurrency(h, info, p), CompanyCurrency(h, info), PostingDate(h, p);
            match QuoteOf(h, info, billId, p).reason
            case MissingAccountMapping(currency) => currency == source && source !in h.accounts
            case InvalidAmount => source in h.accounts && AmountOf(p) <= 0
            case MissingRate(from, to) =>
              && source in h.accounts && AmountOf(p) > 0 && to == home
              && (from == source || (Text.Upper(from) != Text.Upper(source)
                                     && forall rate :: !Rated(h.rates, from, home, date, None, rate)))
            case _ => false
  {
    var reason, home, date := QuoteOf(h, info, billId, p).reason, CompanyCurrency(h, info), PostingDate(h, p);
    if reason.MissingRate? {
      forall rate ensures ResolveRate(h.rates, reason.source, home, Some(date), None) == Some(rate)
                          <==> Rated(h.rates, reason.source, home, date, None, rate) {
        ResolvedExactlyWhenRated(h.rates, reason.source, home, date, None, rate);
      }
    }
  }
}
