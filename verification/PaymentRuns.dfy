/**
 * Every run of imports, bill reconciliations, dry runs and operator actions: totals are conserved,
 * no invoice is overdrawn, and no payment is booked twice.
 */
module PaymentRuns {
  import opened Options
  import opened PaymentModel
  import opened PaymentEffects
  import opened PaymentSteps
  import opened PaymentWithdrawals

  // ---------------------------------------------------------------- dry runs

  lemma DryImportChangesNothing(h: Host, l: Ledger, inv: string, billId: string, p: Payment)
    requires inv in l.invoices
    ensures Import(h, l, inv, billId, p, true).0 == l
  {
  }

  lemma {:induction false} DrySweepChangesNothing(h: Host, l: Ledger, inv: string, billId: string, ps: seq<Payment>,
                                                  k: nat)
    requires inv in l.invoices && k <= |ps|
    ensures ImportFrom(h, l, inv, billId, ps, k, true).0 == l
    decreases |ps| - k
  {
    if k < |ps| {
      DryImportChangesNothing(h, l, inv, billId, ps[k]);
      DrySweepChangesNothing(h, l, inv, billId, ps, k + 1);
    }
  }

  lemma {:induction false} DryWithdrawalChangesNothing(l: Ledger, names: seq<nat>, observed: set<string>)
    ensures Withdraw(l, names, observed, true).0 == l
    decreases |names|
  {
    if names != [] {
      DryWithdrawalChangesNothing(l, names[1..], observed);
    }
  }

  /** A dry reconciliation of a bill changes nothing, whatever the ledger and the bill. */
  lemma DryRunIsPure(h: Host, l: Ledger, inv: string, bill: Bill)
    requires inv in l.invoices
    ensures Reconciled(h, l, inv, bill, true).0 == l
  {
    if bill.payments.Some? {
      var ps := bill.payments.value;
      DrySweepChangesNothing(h, l, inv, bill.id, ps, 0);
      DryWithdrawalChangesNothing(l, Linked(l.entries, h.settings.name, inv, l.nextName), Ids(ps));
    }
  }

  /** The live outcome is what the dry outcome announced. */
  predicate Announced(dry: Outcome, live: Outcome) {
    match dry
    case WouldCreate => live.Created?
    case WouldUpdate(n) => live == Updated(n) || (live.Amended? && live.previous == n)
    case WouldRemove(n, why) => live == DeletedEntry(n, why) || live == CancelledEntry(n, why)
    case _ => live == dry
  }

  /** An operator-cancelled entry that the dry run takes for one it could still update or remove. */
  predicate Misread(h: Host, l: Ledger, inv: string, billId: string, p: Payment)
    requires inv in l.invoices
  {
    && p.Id() != "" && Holding(l, p.Id()).Some?
    && var e := Holding(l, p.Id()).value;
    && !e.Live()
    && (p.Retired()
        || (Adjustable(h, l.invoices[inv].info, billId, p)
            && var terms := QuoteOf(h, l.invoices[inv].info, billId, p).terms;
               !Matches(e, terms, Allocation(terms, Max(0, Room(l, h.settings.name, inv))))))
  }

  /** A dry run of one payment announces the live outcome if and only if it does not misread a cancelled entry. */
  lemma DryRunFidelity(h: Host, l: Ledger, inv: string, billId: string, p: Payment)
    requires inv in l.invoices
    ensures Announced(Import(h, l, inv, billId, p, true).1, Import(h, l, inv, billId, p, false).1)
            <==> !Misread(h, l, inv, billId, p)
  {
    if p.Id() != "" && Holding(l, p.Id()).Some? {
      var n := Holder(l, p.Id()).value;
      var e := l.entries[n];
      assert !e.Live() ==> OwnShare(l, h.settings.name, inv, Some(n)) == 0;
    }
  }

  // ---------------------------------------------------------------- what every reachable ledger satisfies

  /** Drafts and submitted entries together never exceed an invoice. */
  ghost predicate Solvent(l: Ledger, settings: string) {
    forall i | i in l.invoices :: Room(l, settings, i) >= 0
  }

  /** A live entry of these settings still carries the id of the payment it books. */
  ghost predicate Tagged(l: Ledger, settings: string) {
    forall n | n in l.entries && l.entries[n].Live() && l.entries[n].settings == settings ::
      l.entries[n].paymentId != "" && l.entries[n].paymentId == l.entries[n].referenceNo
  }

  ghost predicate Sound(l: Ledger, settings: string) {
    Valid(l, settings) && Solvent(l, settings) && Tagged(l, settings)
  }

  ghost predicate SameTotals(l: Ledger, l': Ledger) {
    forall i | i in l.invoices :: i in l'.invoices && InvoiceTotal(l', i) == InvoiceTotal(l, i)
  }

  /** In a sound ledger a payment has at most one live entry, and outstanding amounts cover all drafts. */
  lemma SoundMeans(l: Ledger, settings: string)
    requires Sound(l, settings)
    ensures forall m, n | m in l.entries && n in l.entries && l.entries[m].Live() && l.entries[n].Live()
                          && l.entries[m].settings == settings && l.entries[n].settings == settings
                          && l.entries[m].referenceNo == l.entries[n].referenceNo :: m == n
    ensures forall i | i in l.invoices ::
              l.invoices[i].outstanding >= Sum(l.entries, Drafts(settings, i), l.nextName) >= 0
  {
    forall i | i in l.invoices
      ensures l.invoices[i].outstanding >= Sum(l.entries, Drafts(settings, i), l.nextName) >= 0
    {
      SumIsNonNegative(l, settings, Drafts(settings, i), l.nextName);
      assert Room(l, settings, i) >= 0;
    }
  }

  lemma AdmittingIsSolvent(h: Host, l: Ledger, inv: string, billId: string, p: Payment, other: string)
    requires Valid(l, h.settings.name) && inv in l.invoices && other in l.invoices
    requires Room(l, h.settings.name, inv) >= 0 && Room(l, h.settings.name, other) >= 0
    requires p.Id() != "" && Holder(l, p.Id()).None?
    ensures var l' := Import(h, l, inv, billId, p, false).0;
            other in l'.invoices && Room(l', h.settings.name, other) >= 0
  {
    AdmitStep(h, l, inv, billId, p, other);
    if Creatable(h, l.invoices[inv].info, billId, p) {
      var terms := QuoteOf(h, l.invoices[inv].info, billId, p).terms;
      TermsOf(h, l.invoices[inv].info, billId, p);
      SingleReference(inv, Allocation(terms, Max(0, Room(l, h.settings.name, inv))), other);
    }
  }

  lemma AdjustingIsSolvent(l: Ledger, l': Ledger, terms: Terms, inv: string, other: string)
    requires Valid(l, terms.settings) && inv in l.invoices && other in l.invoices && other in l'.invoices
    requires Room(l, terms.settings, inv) >= 0 && Room(l, terms.settings, other) >= 0
    requires terms.invoiceAmount >= 0 && Adjusted(l, l', terms, inv, other)
    ensures Room(l', terms.settings, other) >= 0
  {
    var e := Holding(l, terms.paymentId).value;
    var share := Due(l, terms.settings, inv, terms, e);
    AllocationBounds(e.references, other);
    DueBounds(l, terms.settings, inv, terms, e);
    SingleReference(inv, share, other);
  }

  lemma ImportIsSolvent(h: Host, l: Ledger, inv: string, billId: string, p: Payment, other: string)
    requires Valid(l, h.settings.name) && inv in l.invoices && other in l.invoices
    requires Room(l, h.settings.name, inv) >= 0 && Room(l, h.settings.name, other) >= 0
    ensures var l' := Import(h, l, inv, billId, p, false).0;
            other in l'.invoices && Room(l', h.settings.name, other) >= 0
  {
    ImportFrame(h, l, inv, billId, p);
    var info := l.invoices[inv].info;
    if p.Id() == "" {
    } else if Holding(l, p.Id()).None? {
      AdmittingIsSolvent(h, l, inv, billId, p, other);
    } else if p.Retired() {
      RetireStep(h, l, inv, billId, p, other);
      AllocationBounds(Holding(l, p.Id()).value.references, other);
    } else if Holding(l, p.Id()).value.Live() && Adjustable(h, info, billId, p) {
      var terms := QuoteOf(h, info, billId, p).terms;
      AdjustStep(h, l, inv, billId, p, other);
      TermsOf(h, info, billId, p);
      AdjustingIsSolvent(l, Import(h, l, inv, billId, p, false).0, terms, inv, other);
    } else {
      IdleStep(h, l, inv, billId, p);
    }
  }

  lemma CreatedIsTagged(l: Ledger, terms: Terms, inv: string, share: int, from: Option<nat>, submit: bool)
    requires Tagged(l, terms.settings) && terms.paymentId != ""
    ensures Tagged(Create(l, terms, inv, share, from, submit), terms.settings)
  {
  }

  lemma AdjustedIsTagged(l: Ledger, n: nat, terms: Terms, inv: string, share: int, submit: bool)
    requires Tagged(l, terms.settings) && n in l.entries && terms.paymentId != ""
    ensures Tagged(Put(l, n, Revised(l.entries[n], terms, inv, share)), terms.settings)
    ensures Tagged(Amend(l, n, terms, inv, share, submit), terms.settings)
  {
    CreatedIsTagged(Cancel(ClearId(l, n), n), terms, inv, share, Some(n), submit);
  }

  lemma ImportIsTagged(h: Host, l: Ledger, inv: string, billId: string, p: Payment)
    requires Valid(l, h.settings.name) && inv in l.invoices && Tagged(l, h.settings.name)
    ensures Tagged(Import(h, l, inv, billId, p, false).0, h.settings.name)
  {
    var info, submit := l.invoices[inv].info, h.settings.submitDocuments;
    if p.Id() == "" {
    } else if Holding(l, p.Id()).None? {
      if Creatable(h, info, billId, p) {
        var terms := QuoteOf(h, info, billId, p).terms;
        TermsOf(h, info, billId, p);
        CreatedIsTagged(l, terms, inv, Allocation(terms, Max(0, Room(l, h.settings.name, inv))), None, submit);
      }
    } else if p.Retired() {
    } else if Holding(l, p.Id()).value.Live() && Adjustable(h, info, billId, p) {
      var n := Holder(l, p.Id()).value;
      var terms := QuoteOf(h, info, billId, p).terms;
      TermsOf(h, info, billId, p);
      AdjustIs(h, l, inv, billId, p, n);
      AdjustedIsTagged(l, n, terms, inv, Due(l, h.settings.name, inv, terms, l.entries[n]), submit);
    } else {
      IdleStep(h, l, inv, billId, p);
    }
  }

  lemma ImportIsSound(h: Host, l: Ledger, inv: string, billId: string, p: Payment)
    requires Sound(l, h.settings.name) && inv in l.invoices
    ensures var l' := Import(h, l, inv, billId, p, false).0;
            Sound(l', h.settings.name) && SameTotals(l, l') && l'.invoices.Keys == l.invoices.Keys
  {
    var l' := Import(h, l, inv, billId, p, false).0;
    ImportFrame(h, l, inv, billId, p);
    ImportIsTagged(h, l, inv, billId, p);
    forall i | i in l'.invoices ensures Room(l', h.settings.name, i) >= 0 {
      ImportIsSolvent(h, l, inv, billId, p, i);
    }
  }

  lemma {:induction false} SweepIsSound(h: Host, l: Ledger, inv: string, billId: string, ps: seq<Payment>, k: nat)
    requires Sound(l, h.settings.name) && inv in l.invoices && k <= |ps|
    ensures var l' := ImportFrom(h, l, inv, billId, ps, k, false).0;
            Sound(l', h.settings.name) && SameTotals(l, l') && l'.invoices.Keys == l.invoices.Keys
    decreases |ps| - k
  {
    if k < |ps| {
      ImportIsSound(h, l, inv, billId, ps[k]);
      SweepIsSound(h, Import(h, l, inv, billId, ps[k], false).0, inv, billId, ps, k + 1);
    }
  }

  lemma WithdrawalIsSound(l: Ledger, settings: string, names: seq<nat>, observed: set<string>)
    requires Sound(l, settings)
    requires forall n | n in names && n in l.entries :: l.entries[n].settings == settings
    requires l.invoices != map[]
    ensures var l' := Withdraw(l, names, observed, false).0;
            Sound(l', settings) && SameTotals(l, l') && l'.invoices.Keys == l.invoices.Keys
  {
    forall i | i in l.invoices ensures WithdrawalHolds(l, settings, names, observed, i) {
      WithdrawIsExact(l, settings, names, observed, i);
    }
    var i :| i in l.invoices;
    assert WithdrawalHolds(l, settings, names, observed, i);
    WithdrawalKeepsTags(l, Withdraw(l, names, observed, false).0, settings, names, observed);
  }

  /** What a withdrawal leaves of validity, of one invoice, and of the entries. */
  ghost predicate WithdrawalHolds(l: Ledger, settings: string, names: seq<nat>, observed: set<string>, i: string) {
    var l' := Withdraw(l, names, observed, false).0;
    && Valid(l', settings) && WithdrewExactly(l, l', names, observed)
    && i in l.invoices && i in l'.invoices && Room(l', settings, i) >= 0 && InvoiceTotal(l', i) == InvoiceTotal(l, i)
  }

  lemma WithdrawalKeepsTags(l: Ledger, l': Ledger, settings: string, names: seq<nat>, observed: set<string>)
    requires Tagged(l, settings) && WithdrewExactly(l, l', names, observed)
    ensures Tagged(l', settings)
  {
    forall n | n in l'.entries && l'.entries[n].Live() && l'.entries[n].settings == settings
      ensures l'.entries[n].paymentId != "" && l'.entries[n].paymentId == l'.entries[n].referenceNo
    {
      assert At(l', n) == Some(l'.entries[n]);
    }
  }

  lemma ReconcilingIsSound(h: Host, l: Ledger, inv: string, bill: Bill)
    requires Sound(l, h.settings.name) && inv in l.invoices
    ensures var l' := Reconciled(h, l, inv, bill, false).0;
            Sound(l', h.settings.name) && SameTotals(l, l') && l'.invoices.Keys == l.invoices.Keys
  {
    if bill.payments.Some? {
      var ps := bill.payments.value;
      SweepIsSound(h, l, inv, bill.id, ps, 0);
      var l1 := ImportFrom(h, l, inv, bill.id, ps, 0, false).0;
      WithdrawalIsSound(l1, h.settings.name, Linked(l1.entries, h.settings.name, inv, l1.nextName), Ids(ps));
    }
  }

  // ---------------------------------------------------------------- runs

  /** What can happen to a ledger: the integration's calls, and an operator at the desk. */
  datatype Action =
    | ImportPayment(h: Host, inv: string, billId: string, p: Payment, dry: bool)
    | ReconcileBill(h: Host, inv: string, bill: Bill, dry: bool)
    | OperatorSubmits(n: nat)
    | OperatorCancels(n: nat)
    | OperatorDeletes(n: nat)
    | InvoiceArrives(inv: string, invoice: Invoice)

  /** The host's rules for each action, and the one settings document all calls run under. */
  predicate Enabled(l: Ledger, settings: string, a: Action) {
    match a
    case ImportPayment(h, inv, _, _, _) => h.settings.name == settings && inv in l.invoices
    case ReconcileBill(h, inv, _, _) => h.settings.name == settings && inv in l.invoices
    case OperatorSubmits(n) => n in l.entries && l.entries[n].docstatus == Draft && l.entries[n].settings == settings
    case OperatorCancels(n) => n in l.entries && l.entries[n].docstatus == Submitted
    case OperatorDeletes(n) => n in l.entries && l.entries[n].docstatus == Draft
    case InvoiceArrives(inv, invoice) =>
      inv !in l.invoices && invoice.outstanding >= 0
      && forall n | n in l.entries :: !Links(l.entries[n], inv)
  }

  function Apply(l: Ledger, settings: string, a: Action): Ledger {
    if !Enabled(l, settings, a) then l
    else
      match a
      case ImportPayment(h, inv, billId, p, dry) => Import(h, l, inv, billId, p, dry).0
      case ReconcileBill(h, inv, bill, dry) => Reconciled(h, l, inv, bill, dry).0
      case OperatorSubmits(n) => Submit(l, n)
      case OperatorCancels(n) => Cancel(l, n)
      case OperatorDeletes(n) => Drop(l, n)
      case InvoiceArrives(inv, invoice) => l.(invoices := l.invoices[inv := invoice])
  }

  function Run(l: Ledger, settings: string, actions: seq<Action>): Ledger
    decreases |actions|
  {
    if actions == [] then l else Run(Apply(l, settings, actions[0]), settings, actions[1..])
  }

  lemma {:induction false} UnlinkedSumIsZero(l: Ledger, settings: string, inv: string, n: nat)
    requires forall k | k in l.entries :: !Links(l.entries[k], inv)
    ensures Sum(l.entries, Drafts(settings, inv), n) == 0
  {
    if n != 0 {
      UnlinkedSumIsZero(l, settings, inv, n - 1);
      if n - 1 in l.entries {
        UnlinkedHoldsNothing(l.entries[n - 1], l.entries[n - 1].references, inv);
      }
    }
  }

  lemma OperatorIsSound(l: Ledger, settings: string, a: Action)
    requires Sound(l, settings) && Enabled(l, settings, a)
    requires a.OperatorSubmits? || a.OperatorCancels? || a.OperatorDeletes?
    ensures Sound(Apply(l, settings, a), settings) && SameTotals(l, Apply(l, settings, a))
  {
    var l' := Apply(l, settings, a);
    assert Valid(l', settings);
    assert Tagged(l', settings);
    forall i | i in l.invoices
      ensures i in l'.invoices && Room(l', settings, i) >= 0 && InvoiceTotal(l', i) == InvoiceTotal(l, i)
    {
      AllocationBounds(l.entries[a.n].references, i);
      match a {
        case OperatorSubmits(n) => SubmitEffect(l, settings, n, i);
        case OperatorCancels(n) => CancelEffect(l, settings, n, false, i);
        case OperatorDeletes(n) => DropEffect(l, n, settings, i);
      }
    }
  }

  lemma ArrivalIsSound(l: Ledger, settings: string, inv: string, invoice: Invoice)
    requires Sound(l, settings) && Enabled(l, settings, InvoiceArrives(inv, invoice))
    ensures var l' := Apply(l, settings, InvoiceArrives(inv, invoice)); Sound(l', settings) && SameTotals(l, l')
  {
    var l' := Apply(l, settings, InvoiceArrives(inv, invoice));
    UnlinkedSumIsZero(l, settings, inv, l.nextName);
    forall i | i in l'.invoices ensures Room(l', settings, i) >= 0 {
      if i in l.invoices {
        assert Room(l', settings, i) == Room(l, settings, i);
      }
    }
  }

  lemma ActionIsSound(l: Ledger, settings: string, a: Action)
    requires Sound(l, settings)
    ensures Sound(Apply(l, settings, a), settings) && SameTotals(l, Apply(l, settings, a))
  {
    if Enabled(l, settings, a) {
      match a {
        case ImportPayment(h, inv, billId, p, dry) =>
          if dry {
            DryImportChangesNothing(h, l, inv, billId, p);
          } else {
            ImportIsSound(h, l, inv, billId, p);
          }
        case ReconcileBill(h, inv, bill, dry) =>
          if dry {
            DryRunIsPure(h, l, inv, bill);
          } else {
            ReconcilingIsSound(h, l, inv, bill);
          }
        case InvoiceArrives(inv, invoice) => ArrivalIsSound(l, settings, inv, invoice);
        case _ => OperatorIsSound(l, settings, a);
      }
    }
  }

  /**
   * Over every run: each invoice's outstanding amount plus its submitted allocations is its total,
   * unchanged; drafts never exceed what is outstanding; and no payment has two live entries.
   */
  lemma {:induction false} EveryRunIsSound(l: Ledger, settings: string, actions: seq<Action>)
    requires Sound(l, settings)
    ensures Sound(Run(l, settings, actions), settings) && SameTotals(l, Run(l, settings, actions))
    decreases |actions|
  {
    if actions != [] {
      ActionIsSound(l, settings, actions[0]);
      EveryRunIsSound(Apply(l, settings, actions[0]), settings, actions[1..]);
    }
  }

  /** A ledger without entries is where runs start. */
  lemma EmptyLedgerIsSound(invoices: map<string, Invoice>, settings: string)
    requires forall i | i in invoices :: invoices[i].outstanding >= 0
    ensures Sound(Ledger(map[], invoices, 0), settings)
  {
  }

  /** Every ledger that a run reaches from invoices without entries is sound, and each invoice keeps its total. */
  lemma EveryReachableLedgerIsSound(invoices: map<string, Invoice>, settings: string, actions: seq<Action>)
    requires forall i | i in invoices :: invoices[i].outstanding >= 0
    ensures var l := Run(Ledger(map[], invoices, 0), settings, actions);
            && Sound(l, settings)
            && forall i | i in invoices :: i in l.invoices && InvoiceTotal(l, i) == invoices[i].outstanding
  {
    EmptyLedgerIsSound(invoices, settings);
    EveryRunIsSound(Ledger(map[], invoices, 0), settings, actions);
  }
}
