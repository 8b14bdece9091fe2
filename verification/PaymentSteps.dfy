/** One observed payment: what importing it does, case by case, and what it leaves alone. */
module PaymentSteps {
  import opened Options
  import opened Money
  import opened PaymentModel
  import opened PaymentEffects

  /** The payment's existing live entry can be brought up to date. */
  predicate Adjustable(h: Host, info: InvoiceInfo, billId: string, p: Payment) {
    !p.Retired() && info.docstatus == Submitted && QuoteOf(h, info, billId, p).Priced?
  }

  /** A payment without an entry gets one. */
  predicate Creatable(h: Host, info: InvoiceInfo, billId: string, p: Payment) {
    h.settings.supplierPayments && p.Supported() && info.docstatus == Submitted && QuoteOf(h, info, billId, p).Priced?
  }

  /** What a live entry of these terms should hold, given the room the rest of the ledger leaves it. */
  function Due(l: Ledger, settings: string, inv: string, terms: Terms, e: Entry): int
    requires inv in l.invoices
  {
    Allocation(terms, Max(0, Room(l, settings, inv) + AllocatedTo(e.references, inv)))
  }

  /** Importing would not change the entry: it matches, or it is a draft that an update leaves as it is. */
  predicate Tuned(e: Entry, terms: Terms, inv: string, share: int) {
    Matches(e, terms, share) || (e.docstatus == Draft && Revised(e, terms, inv, share) == e)
  }

  lemma DueBounds(l: Ledger, settings: string, inv: string, terms: Terms, e: Entry)
    requires inv in l.invoices && terms.invoiceAmount >= 0
    ensures 0 <= Due(l, settings, inv, terms, e) <= terms.invoiceAmount
  {
  }

  lemma TermsOf(h: Host, info: InvoiceInfo, billId: string, p: Payment)
    requires QuoteOf(h, info, billId, p).Priced?
    ensures var t := QuoteOf(h, info, billId, p).terms;
            && t.paymentId == p.Id() && t.settings == h.settings.name && t.billId == billId
            && t.paid > 0 && t.received >= 0 && t.invoiceAmount >= 0
            && t.sourceRate > 0.0 && t.targetRate > 0.0 && t.invoiceRate > 0.0
  {
    var t := QuoteOf(h, info, billId, p).terms;
    ConvertedIsNonNegative(t.paid, t.sourceRate, t.targetRate);
    ConvertedIsNonNegative(t.paid, t.sourceRate, t.invoiceRate);
  }

  lemma ConvertedIsNonNegative(cents: int, sourceRate: real, rate: real)
    requires cents > 0 && sourceRate > 0.0 && rate > 0.0
    ensures Converted(cents, sourceRate, rate) >= 0
  {
    var base := Units(cents) * sourceRate;
    assert base > 0.0;
    QuotientIsPositive(base, rate);
    RoundingKeepsSign(base / rate);
  }

  lemma QuotientIsPositive(x: real, y: real)
    requires x > 0.0 && y > 0.0
    ensures x / y > 0.0
  {
  }

  /** What an import of a payment without an entry comes down to. */
  lemma AdmitIs(h: Host, l: Ledger, inv: string, billId: string, p: Payment)
    requires inv in l.invoices && p.Id() != "" && Holder(l, p.Id()).None?
    ensures Import(h, l, inv, billId, p, false).0
            == if Creatable(h, l.invoices[inv].info, billId, p)
               then var terms := QuoteOf(h, l.invoices[inv].info, billId, p).terms;
                    Create(l, terms, inv, Allocation(terms, Max(0, Room(l, h.settings.name, inv))), None,
                           h.settings.submitDocuments)
               else l
  {
  }

  lemma CreateStep(l: Ledger, terms: Terms, inv: string, share: int, submit: bool)
    requires Valid(l, terms.settings) && terms.paymentId != "" && Holder(l, terms.paymentId).None? && inv in l.invoices
    ensures var l' := Create(l, terms, inv, share, None, submit);
            && OnlyTouches(l, l', terms.paymentId)
            && Holder(l', terms.paymentId) == Some(l.nextName)
            && Holding(l', terms.paymentId)
               == Some(FreshEntry(terms, inv, share, None).(docstatus := if submit then Submitted else Draft))
  {
    var l' := Create(l, terms, inv, share, None, submit);
    CreateEffect(l, terms, inv, share, None, submit, inv);
    HolderIsUnique(l', terms.settings, l.nextName);
  }

  /** A payment without an entry is created exactly when it is creatable, with what room there is. */
  lemma AdmitStep(h: Host, l: Ledger, inv: string, billId: string, p: Payment, other: string)
    requires Valid(l, h.settings.name) && inv in l.invoices && other in l.invoices && p.Id() != ""
    requires Holder(l, p.Id()).None?
    ensures var l' := Import(h, l, inv, billId, p, false).0;
            && Valid(l', h.settings.name)
            && OnlyTouches(l, l', p.Id())
            && InvoiceTotal(l', other) == InvoiceTotal(l, other)
            && (!Creatable(h, l.invoices[inv].info, billId, p) ==> l' == l)
            && (Creatable(h, l.invoices[inv].info, billId, p) ==>
                  var terms := QuoteOf(h, l.invoices[inv].info, billId, p).terms;
                  var share := Allocation(terms, Max(0, Room(l, h.settings.name, inv)));
                  var e := FreshEntry(terms, inv, share, None)
                           .(docstatus := if h.settings.submitDocuments then Submitted else Draft);
                  && Holding(l', p.Id()) == Some(e)
                  && Holder(l', p.Id()) == Some(l.nextName)
                  && Room(l', h.settings.name, other)
                     == Room(l, h.settings.name, other) - AllocatedTo(e.references, other))
  {
    var info := l.invoices[inv].info;
    AdmitIs(h, l, inv, billId, p);
    if Creatable(h, info, billId, p) {
      var terms := QuoteOf(h, info, billId, p).terms;
      var share := Allocation(terms, Max(0, Room(l, h.settings.name, inv)));
      TermsOf(h, info, billId, p);
      CreateEffect(l, terms, inv, share, None, h.settings.submitDocuments, other);
      CreateStep(l, terms, inv, share, h.settings.submitDocuments);
    }
  }

  lemma RemovalFreesTheId(l: Ledger, settings: string, n: nat)
    requires Valid(l, settings) && n in l.entries && l.entries[n].Live() && l.entries[n].paymentId != ""
    ensures Holder(Remove(l, n), l.entries[n].paymentId).None?
  {
    if l.entries[n].docstatus == Submitted {
      ClearingFreesTheId(l, settings, n);
    } else {
      assert forall m | m in Remove(l, n).entries :: Remove(l, n).entries[m].paymentId != l.entries[n].paymentId;
    }
  }

  lemma RemovalTouchesItsEntry(l: Ledger, settings: string, n: nat)
    requires Valid(l, settings) && n in l.entries
    ensures OnlyTouches(l, Remove(l, n), l.entries[n].paymentId)
  {
    RemoveIsInPlace(l, n);
  }

  lemma RemoveIsInPlace(l: Ledger, n: nat)
    requires n in l.entries
    ensures var l' := Remove(l, n);
            && SameInvoices(l, l') && l'.nextName == l.nextName
            && (forall m | m in l.entries && m != n :: m in l'.entries && l'.entries[m] == l.entries[m])
            && l'.entries.Keys <= l.entries.Keys
            && (n in l'.entries ==> l'.entries[n] == l.entries[n]
                                    || (l'.entries[n].paymentId == "" && !l'.entries[n].Live()))
  {
  }

  /** A retired payment's entry goes and gives its allocation back. */
  lemma RetireStep(h: Host, l: Ledger, inv: string, billId: string, p: Payment, other: string)
    requires Valid(l, h.settings.name) && inv in l.invoices && other in l.invoices && p.Id() != ""
    requires Holding(l, p.Id()).Some? && p.Retired()
    ensures var l' := Import(h, l, inv, billId, p, false).0;
            var e := Holding(l, p.Id()).value;
            && Valid(l', h.settings.name)
            && OnlyTouches(l, l', p.Id())
            && InvoiceTotal(l', other) == InvoiceTotal(l, other)
            && (!e.Live() ==> l' == l)
            && (e.Live() ==>
                  && Holding(l', p.Id()).None?
                  && Room(l', h.settings.name, other)
                     == Room(l, h.settings.name, other) + AllocatedTo(e.references, other))
  {
    var n := Holder(l, p.Id()).value;
    RemoveEffect(l, h.settings.name, n, other);
    RemovalTouchesItsEntry(l, h.settings.name, n);
    if l.entries[n].Live() {
      RemovalFreesTheId(l, h.settings.name, n);
    }
    RetireIs(h, l, inv, billId, p, n);
  }

  lemma RetireIs(h: Host, l: Ledger, inv: string, billId: string, p: Payment, n: nat)
    requires inv in l.invoices && p.Id() != "" && p.Retired() && Holder(l, p.Id()) == Some(n)
    ensures Import(h, l, inv, billId, p, false).0 == Remove(l, n)
  {
  }

  lemma ReviseStep(l: Ledger, n: nat, terms: Terms, inv: string, share: int)
    requires Valid(l, terms.settings) && n in l.entries && l.entries[n].docstatus == Draft
    requires l.entries[n].paymentId == terms.paymentId != "" && inv in l.invoices
    ensures var l' := Put(l, n, Revised(l.entries[n], terms, inv, share));
            OnlyTouches(l, l', terms.paymentId) && Holding(l', terms.paymentId) == Some(l'.entries[n])
  {
    var l' := Put(l, n, Revised(l.entries[n], terms, inv, share));
    ReviseEffect(l, n, terms, inv, share, inv);
    HolderIsUnique(l', terms.settings, n);
  }

  lemma AmendedEntries(l: Ledger, n: nat, terms: Terms, inv: string, share: int, submit: bool)
    requires n in l.entries && n < l.nextName
    ensures var l' := Amend(l, n, terms, inv, share, submit);
            && l'.nextName == l.nextName + 1
            && SameInvoices(l, l')
            && l'.entries
               == l.entries[n := l.entries[n].(paymentId := "", docstatus := Cancelled)]
                           [l.nextName := FreshEntry(terms, inv, share, Some(n))
                                            .(docstatus := if submit then Submitted else Draft)]
  {
  }

  lemma AmendStep(l: Ledger, n: nat, terms: Terms, inv: string, share: int, submit: bool)
    requires Valid(l, terms.settings) && n in l.entries && l.entries[n].docstatus == Submitted
    requires l.entries[n].paymentId == terms.paymentId != "" && inv in l.invoices
    ensures var l' := Amend(l, n, terms, inv, share, submit);
            && OnlyTouches(l, l', terms.paymentId)
            && Holding(l', terms.paymentId)
               == Some(FreshEntry(terms, inv, share, Some(n)).(docstatus := if submit then Submitted else Draft))
  {
    var l' := Amend(l, n, terms, inv, share, submit);
    AmendEffect(l, n, terms, inv, share, submit, inv);
    AmendedEntries(l, n, terms, inv, share, submit);
    AmendTouches(l, l', n, terms.paymentId, l'.entries[l.nextName]);
    HolderIsUnique(l', terms.settings, l.nextName);
  }

  lemma AmendTouches(l: Ledger, l': Ledger, n: nat, id: string, e: Entry)
    requires n in l.entries && l.entries[n].paymentId == id == e.paymentId && l.nextName !in l.entries
    requires SameInvoices(l, l') && l'.nextName == l.nextName + 1
    requires l'.entries == l.entries[n := l.entries[n].(paymentId := "", docstatus := Cancelled)][l.nextName := e]
    ensures OnlyTouches(l, l', id)
  {
  }

  lemma WrittenIsTuned(e: Entry, terms: Terms, inv: string, share: int)
    requires share >= 0
    requires e == FreshEntry(terms, inv, share, e.amendedFrom).(docstatus := e.docstatus)
             || (e.docstatus == Draft && Revised(e, terms, inv, share) == e)
    ensures Tuned(e, terms, inv, share) && AllocatedInAll(e.references) == share
  {
    SingleReference(inv, share, inv);
  }

  /** What an import of a live, adjustable entry comes down to. */
  lemma AdjustIs(h: Host, l: Ledger, inv: string, billId: string, p: Payment, n: nat)
    requires inv in l.invoices && p.Id() != "" && Holder(l, p.Id()) == Some(n) && l.entries[n].Live()
    requires Valid(l, h.settings.name)
    ensures Adjustable(h, l.invoices[inv].info, billId, p) ==>
            var terms := QuoteOf(h, l.invoices[inv].info, billId, p).terms;
            var e := l.entries[n];
            var share := Due(l, h.settings.name, inv, terms, e);
            Import(h, l, inv, billId, p, false).0
            == if Matches(e, terms, share) then l
               else if e.docstatus == Draft then Put(l, n, Revised(e, terms, inv, share))
               else Amend(l, n, terms, inv, share, h.settings.submitDocuments)
  {
    OwnShareIsAllocated(l, h.settings.name, inv, n);
    assert Import(h, l, inv, billId, p, false) == Reconcile(h, l, inv, billId, p, n, false);
  }

  lemma OwnShareIsAllocated(l: Ledger, settings: string, inv: string, n: nat)
    requires Valid(l, settings) && inv in l.invoices && n in l.entries
    requires l.entries[n].paymentId != "" && l.entries[n].Live()
    ensures Available(l, settings, inv, Some(n))
            == Max(0, Room(l, settings, inv) + AllocatedTo(l.entries[n].references, inv))
  {
  }

  /** From `l` to `l'` the live entry of these terms was brought to the share it was due. */
  ghost predicate Adjusted(l: Ledger, l': Ledger, terms: Terms, inv: string, other: string)
    requires inv in l.invoices && other in l.invoices && other in l'.invoices
  {
    && Holding(l, terms.paymentId).Some?
    && Holding(l', terms.paymentId).Some?
    && var e, e' := Holding(l, terms.paymentId).value, Holding(l', terms.paymentId).value;
    && var share := Due(l, terms.settings, inv, terms, e);
    && e'.Live() && Tuned(e', terms, inv, share) && AllocatedInAll(e'.references) == share
    && (l' == l || e'.references == ReferencesTo(inv, share))
    && Room(l', terms.settings, other)
       == Room(l, terms.settings, other) + AllocatedTo(e.references, other) - AllocatedTo(e'.references, other)
  }

  lemma ReviseAdjusts(l: Ledger, n: nat, terms: Terms, inv: string, other: string)
    requires Valid(l, terms.settings) && inv in l.invoices && other in l.invoices && terms.invoiceAmount >= 0
    requires terms.paymentId != "" && Holder(l, terms.paymentId) == Some(n) && l.entries[n].docstatus == Draft
    ensures Adjusted(l, Put(l, n, Revised(l.entries[n], terms, inv, Due(l, terms.settings, inv, terms, l.entries[n]))),
                     terms, inv, other)
  {
    var e := l.entries[n];
    var share := Due(l, terms.settings, inv, terms, e);
    DueBounds(l, terms.settings, inv, terms, e);
    ReviseEffect(l, n, terms, inv, share, other);
    ReviseStep(l, n, terms, inv, share);
    WrittenIsTuned(Revised(e, terms, inv, share), terms, inv, share);
  }

  lemma AmendAdjusts(l: Ledger, n: nat, terms: Terms, inv: string, submit: bool, other: string)
    requires Valid(l, terms.settings) && inv in l.invoices && other in l.invoices && terms.invoiceAmount >= 0
    requires terms.paymentId != "" && Holder(l, terms.paymentId) == Some(n) && l.entries[n].docstatus == Submitted
    ensures var l' := Amend(l, n, terms, inv, Due(l, terms.settings, inv, terms, l.entries[n]), submit);
            other in l'.invoices && Adjusted(l, l', terms, inv, other)
  {
    var e := l.entries[n];
    var share := Due(l, terms.settings, inv, terms, e);
    DueBounds(l, terms.settings, inv, terms, e);
    AmendEffect(l, n, terms, inv, share, submit, other);
    AmendStep(l, n, terms, inv, share, submit);
    var e' := FreshEntry(terms, inv, share, Some(n)).(docstatus := if submit then Submitted else Draft);
    WrittenIsTuned(e', terms, inv, share);
  }

  /** A live, adjustable entry ends up tuned to what it was due; a tuned one is not touched. */
  lemma AdjustStep(h: Host, l: Ledger, inv: string, billId: string, p: Payment, other: string)
    requires Valid(l, h.settings.name) && inv in l.invoices && other in l.invoices && p.Id() != ""
    requires Holding(l, p.Id()).Some? && Holding(l, p.Id()).value.Live()
    requires Adjustable(h, l.invoices[inv].info, billId, p)
    ensures var l' := Import(h, l, inv, billId, p, false).0;
            var terms := QuoteOf(h, l.invoices[inv].info, billId, p).terms;
            && Valid(l', h.settings.name)
            && OnlyTouches(l, l', p.Id())
            && InvoiceTotal(l', other) == InvoiceTotal(l, other)
            && terms.paymentId == p.Id() && terms.settings == h.settings.name
            && Adjusted(l, l', terms, inv, other)
            && (Tuned(Holding(l, p.Id()).value, terms, inv,
                      Due(l, h.settings.name, inv, terms, Holding(l, p.Id()).value))
                ==> l' == l)
  {
    var info := l.invoices[inv].info;
    var n := Holder(l, p.Id()).value;
    var e := l.entries[n];
    var terms := QuoteOf(h, info, billId, p).terms;
    var share := Due(l, h.settings.name, inv, terms, e);
    TermsOf(h, info, billId, p);
    AdjustIs(h, l, inv, billId, p, n);
    if Matches(e, terms, share) {
    } else if e.docstatus == Draft {
      ReviseAdjusts(l, n, terms, inv, other);
      ReviseEffect(l, n, terms, inv, share, other);
      ReviseStep(l, n, terms, inv, share);
    } else {
      AmendAdjusts(l, n, terms, inv, h.settings.submitDocuments, other);
      AmendEffect(l, n, terms, inv, share, h.settings.submitDocuments, other);
      AmendStep(l, n, terms, inv, share, h.settings.submitDocuments);
    }
  }

  /** Nothing happens to a payment without identity, a cancelled entry, or one that cannot be quoted. */
  lemma IdleStep(h: Host, l: Ledger, inv: string, billId: string, p: Payment)
    requires Valid(l, h.settings.name) && inv in l.invoices
    requires p.Id() == "" || (Holding(l, p.Id()).Some?
                              && (!Holding(l, p.Id()).value.Live()
                                  || (!p.Retired() && !Adjustable(h, l.invoices[inv].info, billId, p))))
    ensures Import(h, l, inv, billId, p, false).0 == l
  {
  }

  /** Every step keeps the ledger well-formed, every invoice's total, and every other payment's entry. */
  lemma ImportFrame(h: Host, l: Ledger, inv: string, billId: string, p: Payment)
    requires Valid(l, h.settings.name) && inv in l.invoices
    ensures var l' := Import(h, l, inv, billId, p, false).0;
            && Valid(l', h.settings.name)
            && (if p.Id() == "" then l' == l else OnlyTouches(l, l', p.Id()))
            && forall i | i in l.invoices :: i in l'.invoices && InvoiceTotal(l', i) == InvoiceTotal(l, i)
  {
    if p.Id() == "" {
    } else {
      var l' := Import(h, l, inv, billId, p, false).0;
      forall i | i in l.invoices
        ensures Valid(l', h.settings.name) && OnlyTouches(l, l', p.Id()) && InvoiceTotal(l', i) == InvoiceTotal(l, i)
      {
        if Holding(l, p.Id()).None? {
          AdmitStep(h, l, inv, billId, p, i);
        } else if p.Retired() {
          RetireStep(h, l, inv, billId, p, i);
        } else if Holding(l, p.Id()).value.Live() && Adjustable(h, l.invoices[inv].info, billId, p) {
          AdjustStep(h, l, inv, billId, p, i);
        } else {
          IdleStep(h, l, inv, billId, p);
        }
      }
      assert inv in l.invoices;
    }
  }
}
