/**
 * Whole reconciliations of one bill against one invoice, repeated: what one, two and more passes
 * establish about every observed payment.
 */
module PaymentPasses {
  import opened Options
  import opened PaymentModel
  import opened PaymentEffects
  import opened PaymentSteps

  function CountTrue(flags: seq<bool>): nat {
    if flags == [] then 0 else (if flags[0] then 1 else 0) + CountTrue(flags[1..])
  }

  /** A bill's payments, the invoice they are set against, and the host: fixed from pass to pass. */
  datatype Sync = Sync(host: Host, inv: string, info: InvoiceInfo, billId: string, payments: seq<Payment>)
  {
    ghost predicate Fits(l: Ledger) {
      && Valid(l, host.settings.name)
      && inv in l.invoices && l.invoices[inv].info == info
    }

    /** No two payments of the bill share an identity. */
    ghost predicate Distinct() {
      forall i, j | 0 <= i < j < |payments| && payments[i].Id() != "" :: payments[i].Id() != payments[j].Id()
    }

    function Import1(l: Ledger, p: Payment): (r: Ledger)
      requires inv in l.invoices
      ensures inv in r.invoices
    {
      Import(host, l, inv, billId, p, false).0
    }

    function From(l: Ledger, k: nat): (r: Ledger)
      requires inv in l.invoices && k <= |payments|
      ensures inv in r.invoices
    {
      ImportFrom(host, l, inv, billId, payments, k, false).0
    }

    function Rows(l: Ledger): seq<nat> {
      Linked(l.entries, host.settings.name, inv, l.nextName)
    }

    /** One whole reconciliation of the bill. */
    function Pass(l: Ledger): (r: Ledger)
      requires inv in l.invoices
      ensures inv in r.invoices
    {
      Reconciled(host, l, inv, Bill(billId, Some(payments)), false).0
    }

    function PassN(l: Ledger, n: nat): (r: Ledger)
      requires inv in l.invoices
      ensures inv in r.invoices
      decreases n
    {
      if n == 0 then l else PassN(Pass(l), n - 1)
    }

    predicate Adjusts(p: Payment) { Adjustable(host, info, billId, p) }

    predicate Creates(p: Payment) { Creatable(host, info, billId, p) }

    function TermsFor(p: Payment): Terms
      requires Adjusts(p)
    {
      QuoteOf(host, info, billId, p).terms
    }

    function Left(l: Ledger): int
      requires inv in l.invoices
    {
      Room(l, host.settings.name, inv)
    }

    /** The payment's live entry is one this bill keeps up to date. */
    predicate Kept(l: Ledger, p: Payment) {
      && p.Id() != "" && Adjusts(p)
      && Holding(l, p.Id()).Some? && Holding(l, p.Id()).value.Live()
    }

    function Share(l: Ledger, p: Payment): int
      requires Kept(l, p)
    {
      AllocatedInAll(Holding(l, p.Id()).value.references)
    }

    function ShareHere(l: Ledger, p: Payment): int
      requires Kept(l, p)
    {
      AllocatedTo(Holding(l, p.Id()).value.references, inv)
    }

    /** The entry holds allocations on some other invoice. */
    predicate Astray(l: Ledger, p: Payment) {
      Kept(l, p) && Share(l, p) != ShareHere(l, p)
    }

    /** An operator cancelled the entry without clearing its id; the payment is never touched again. */
    predicate Blocked(l: Ledger, p: Payment) {
      Holding(l, p.Id()).Some? && !Holding(l, p.Id()).value.Live()
    }

    /** The bill shows the payment as ended and would still create an entry for it. */
    predicate Contradictory(p: Payment) {
      p.Id() != "" && p.Terminal() && Creates(p)
    }

    predicate Settles(l: Ledger, p: Payment) {
      Contradictory(p) ==> Blocked(l, p)
    }

    /** The payment has an entry or will never get one, and an entry it keeps is tuned within its amount. */
    predicate Placed(l: Ledger, p: Payment)
      requires inv in l.invoices
    {
      p.Id() != "" ==>
        match Holding(l, p.Id())
        case None => !Creates(p)
        case Some(e) => e.Live() ==>
            && !p.Retired()
            && (Adjusts(p) ==>
                  && Tuned(e, TermsFor(p), inv, Share(l, p))
                  && Share(l, p) <= TermsFor(p).invoiceAmount
                  && (Left(l) < 0 ==> Share(l, p) == 0))
    }

    /** An entry that holds this invoice only is fully allocated, or the invoice has no room left. */
    predicate Filled(l: Ledger, p: Payment)
      requires inv in l.invoices
    {
      Kept(l, p) && !Astray(l, p) ==> Share(l, p) == TermsFor(p).invoiceAmount || Left(l) <= 0
    }

    /** No live entry on the invoice is one the bill does not show. */
    ghost predicate Clean(l: Ledger) {
      forall n | n in l.entries && l.entries[n].settings == host.settings.name && Links(l.entries[n], inv)
                 && l.entries[n].Live() :: !Withdrawn(l.entries[n], Ids(payments))
    }

    function AstrayFlags(l: Ledger): seq<bool> {
      seq(|payments|, i requires 0 <= i < |payments| => Astray(l, payments[i]))
    }

    /** How many payments of the bill have an astray entry. */
    function Astrays(l: Ledger): nat {
      CountTrue(AstrayFlags(l))
    }

    // -------------------------------------------------------------- one payment

    lemma StepFits(l: Ledger, p: Payment)
      requires Fits(l)
      ensures Fits(Import1(l, p))
      ensures p.Id() == "" ==> Import1(l, p) == l
      ensures p.Id() != "" ==> OnlyTouches(l, Import1(l, p), p.Id())
    {
      ImportFrame(host, l, inv, billId, p);
    }

    lemma StepKeepsOthers(l: Ledger, p: Payment, id: string)
      requires Fits(l) && id != p.Id() && id != ""
      ensures Holding(Import1(l, p), id) == Holding(l, id)
    {
      StepFits(l, p);
      if p.Id() != "" {
        OthersKeepTheirEntries(l, Import1(l, p), host.settings.name, p.Id(), id);
      }
    }

    /** Importing a payment places it, from any ledger, and never overdraws the invoice. */
    lemma StepPlaces(l: Ledger, p: Payment)
      requires Fits(l) && Settles(l, p)
      ensures var l' := Import1(l, p);
              && Fits(l') && Placed(l', p)
              && (Left(l) >= 0 ==> Left(l') >= 0)
              && (Astray(l', p) ==> Astray(l, p))
    {
      StepFits(l, p);
      if p.Id() == "" {
      } else if Holding(l, p.Id()).None? {
        AdmitPlaces(l, p);
      } else if !Holding(l, p.Id()).value.Live() {
        IdleStep(host, l, inv, billId, p);
      } else if p.Retired() {
        RetireStep(host, l, inv, billId, p, inv);
        AllocationBounds(Holding(l, p.Id()).value.references, inv);
      } else if Adjusts(p) {
        AdjustPlaces(l, p);
      } else {
        IdleStep(host, l, inv, billId, p);
      }
    }

    lemma AdmitPlaces(l: Ledger, p: Payment)
      requires Fits(l) && Settles(l, p) && p.Id() != "" && Holding(l, p.Id()).None?
      ensures var l' := Import1(l, p);
              && Fits(l') && Placed(l', p) && Filled(l', p) && !Astray(l', p)
              && (Left(l) >= 0 ==> Left(l') >= 0)
              && (!Creates(p) ==> l' == l)
              && (Creates(p) ==>
                    && Kept(l', p)
                    && Left(l') == Left(l) - Allocation(TermsFor(p), Max(0, Left(l))))
    {
      StepFits(l, p);
      AdmitStep(host, l, inv, billId, p, inv);
      if Creates(p) {
        assert Adjusts(p);
        TermsOf(host, info, billId, p);
        var share := Allocation(TermsFor(p), Max(0, Left(l)));
        SingleReference(inv, share, inv);
        var e := Holding(Import1(l, p), p.Id()).value;
        WrittenIsTuned(e, TermsFor(p), inv, share);
      }
    }

    lemma AdjustPlaces(l: Ledger, p: Payment)
      requires Fits(l) && Kept(l, p)
      ensures var l' := Import1(l, p);
              && Fits(l') && Kept(l', p) && Placed(l', p) && Filled(l', p)
              && (Left(l) >= 0 ==> Left(l') >= 0)
              && (l' == l || !Astray(l', p))
              && (l' == l || Left(l') == Left(l) + ShareHere(l, p) - Share(l', p))
              && Share(l', p) == Allocation(TermsFor(p), Max(0, Left(l) + ShareHere(l, p)))
    {
      StepFits(l, p);
      AdjustStep(host, l, inv, billId, p, inv);
      var terms := TermsFor(p);
      TermsOf(host, info, billId, p);
      var e := Holding(l, p.Id()).value;
      var l' := Import1(l, p);
      var e' := Holding(l', p.Id()).value;
      var share := Due(l, host.settings.name, inv, terms, e);
      DueBounds(l, host.settings.name, inv, terms, e);
      AllocationBounds(e.references, inv);
      SingleReference(inv, share, inv);
    }

    /** What one payment's step cannot do to another payment. */
    lemma StepKeepsPlaced(l: Ledger, p: Payment, q: Payment)
      requires Fits(l) && Settles(l, p) && q.Id() != p.Id() && Placed(l, q)
      ensures Placed(Import1(l, p), q)
    {
      StepPlaces(l, p);
      if q.Id() != "" {
        StepKeepsOthers(l, p, q.Id());
      }
    }

    lemma StepKeepsVerdicts(l: Ledger, p: Payment, q: Payment)
      requires Fits(l) && q.Id() != p.Id()
      ensures var l' := Import1(l, p);
              && Kept(l', q) == Kept(l, q) && Astray(l', q) == Astray(l, q) && Settles(l', q) == Settles(l, q)
              && (Kept(l, q) ==> Share(l', q) == Share(l, q) && ShareHere(l', q) == ShareHere(l, q))
    {
      if q.Id() != "" {
        StepKeepsOthers(l, p, q.Id());
      }
    }

    /** Once a payment is placed, importing it fills it, and changes nothing if it was filled and not astray. */
    lemma StepFills(l: Ledger, p: Payment)
      requires Fits(l) && Placed(l, p)
      ensures var l' := Import1(l, p);
              && Fits(l') && Placed(l', p) && Filled(l', p)
              && Left(l') <= Left(l) && (Left(l) >= 0 ==> Left(l') >= 0)
              && (Astray(l', p) ==> l' == l)
              && (Kept(l', p) <==> Kept(l, p))
              && (Kept(l, p) && !Astray(l, p) ==> !Astray(l', p) && Share(l', p) >= Share(l, p))
              && (Filled(l, p) && !Astray(l, p) ==> l' == l)
    {
      if Kept(l, p) {
        AdjustPlaces(l, p);
        var e := Holding(l, p.Id()).value;
        AllocationBounds(e.references, inv);
        AdjustStep(host, l, inv, billId, p, inv);
      } else {
        PlacedAndUnkeptIsIdle(l, p);
      }
    }

    lemma PlacedAndUnkeptIsIdle(l: Ledger, p: Payment)
      requires Fits(l) && Placed(l, p) && !Kept(l, p)
      ensures Import1(l, p) == l
    {
      if p.Id() != "" && Holding(l, p.Id()).None? {
        AdmitStep(host, l, inv, billId, p, inv);
      } else {
        IdleStep(host, l, inv, billId, p);
      }
    }
  }
}
