/** Concrete bills and ledgers that meet the conditions under which reconciling does less than it promises. */
module PaymentInputs {
  import opened Options
  import opened PaymentModel
  import opened PaymentPasses
  import opened PaymentLimits
  import opened PaymentRuns

  const ONE_INVOICE := map["I" := Invoice(DOLLAR_INVOICE, 200)]

  lemma CancelledDollarQuote(id: string, cents: int)
    requires cents > 0 && id != ""
    ensures var p := DollarTransfer(id, Money.Units(cents)).(status := "CANCELLED");
            && QuoteOf(DOLLAR_HOST, DOLLAR_INVOICE, "B", p) == Priced(DollarTerms(id, cents))
            && p.Terminal() && p.Supported() && p.Id() == id
  {
    DollarQuote(id, cents);
    var p := DollarTransfer(id, Money.Units(cents));
    assert QuoteOf(DOLLAR_HOST, DOLLAR_INVOICE, "B", p.(status := "CANCELLED"))
           == QuoteOf(DOLLAR_HOST, DOLLAR_INVOICE, "B", p);
    assert Text.Upper("CANCELLED") == "CANCELLED";
  }

  /** A bill of one cancelled transfer on a ledger without entries is booked and withdrawn for ever. */
  lemma CancelledTransferNeverRests()
    ensures var p := DollarTransfer("p1", Money.Units(100)).(status := "CANCELLED");
            var y, l := Sync(DOLLAR_HOST, "I", DOLLAR_INVOICE, "B", [p]), Ledger(map[], ONE_INVOICE, 0);
            && y.Fits(l) && y.Distinct() && y.Contradictory(p) && !y.Blocked(l, p)
            && forall n: nat :: !RestsAfter(y, l, n)
  {
    var p := DollarTransfer("p1", Money.Units(100)).(status := "CANCELLED");
    var y, l := Sync(DOLLAR_HOST, "I", DOLLAR_INVOICE, "B", [p]), Ledger(map[], ONE_INVOICE, 0);
    CancelledDollarQuote("p1", 100);
    assert y.Fits(l) && y.Distinct() && y.payments[0] == p;
    forall n: nat ensures !RestsAfter(y, l, n) {
      NeverRests(y, l, 0, n);
    }
  }

  /** An entry of 1.00 that an operator cancelled, and its payment seen again with 1.50. */
  lemma CancelledEntryIsMisread()
    ensures var e := FreshEntry(DollarTerms("p1", 100), "I", 100, None).(docstatus := Cancelled);
            var l, p := Ledger(map[0 := e], ONE_INVOICE, 1), DollarTransfer("p1", Money.Units(150));
            && Misread(DOLLAR_HOST, l, "I", "B", p)
            && Import(DOLLAR_HOST, l, "I", "B", p, true).1 == WouldUpdate(0)
            && Import(DOLLAR_HOST, l, "I", "B", p, false) == (l, Held(EntryCancelled))
  {
    var e := FreshEntry(DollarTerms("p1", 100), "I", 100, None).(docstatus := Cancelled);
    var l := Ledger(map[0 := e], ONE_INVOICE, 1);
    DollarQuote("p1", 150);
    assert e.paymentId == "p1" && e.paid == 100;
    assert Find(l.entries, "p1", 1) == Some(0);
  }
}
