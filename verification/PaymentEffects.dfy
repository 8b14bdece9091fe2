/** What every ledger operation does to the sums, to validity and to the entries it does not own. */
module PaymentEffects {
  import opened Options
  import opened PaymentModel

  /** All allocations are amounts to pay, never refunds. */
  predicate NonNegative(references: seq<Reference>) {
    forall r | r in references :: r.amount >= 0
  }

  /**
   * A well-formed ledger of one settings document: names are below the counter, a payment id is
   * carried by at most one entry (the unique key of the custom field) and only by entries of
   * these settings, and allocations are not negative.
   */
  ghost predicate Valid(l: Ledger, settings: string) {
    && (forall n | n in l.entries :: n < l.nextName)
    && (forall m, n | m in l.entries && n in l.entries
                      && l.entries[m].paymentId != "" && l.entries[m].paymentId == l.entries[n].paymentId :: m == n)
    && (forall n | n in l.entries :: l.entries[n].paymentId != "" ==> l.entries[n].settings == settings)
    && (forall n | n in l.entries :: NonNegative(l.entries[n].references))
  }

  function Holder(l: Ledger, id: string): (r: Option<nat>)
    ensures r.Some? ==> r.value in l.entries && l.entries[r.value].paymentId == id
  {
    Find(l.entries, id, l.nextName)
  }

  /** The entry that carries a payment id. */
  function Holding(l: Ledger, id: string): Option<Entry> {
    match Holder(l, id)
    case None => None
    case Some(n) => Some(l.entries[n])
  }

  lemma HolderIsUnique(l: Ledger, settings: string, n: nat)
    requires Valid(l, settings) && n in l.entries && l.entries[n].paymentId != ""
    ensures Holder(l, l.entries[n].paymentId) == Some(n)
  {
  }

  // ---------------------------------------------------------------- allocations

  lemma {:induction false} AllocationBounds(references: seq<Reference>, inv: string)
    requires NonNegative(references)
    ensures 0 <= AllocatedTo(references, inv) <= AllocatedInAll(references)
  {
    if references != [] {
      assert references[0] in references;
      assert forall r | r in references[1..] :: r in references;
      AllocationBounds(references[1..], inv);
    }
  }

  lemma {:induction false} UnlinkedHoldsNothing(e: Entry, references: seq<Reference>, inv: string)
    requires forall r | r in references :: r in e.references
    requires !Links(e, inv)
    ensures AllocatedTo(references, inv) == 0
  {
    if references != [] {
      assert references[0] in references;
      assert forall r | r in references[1..] :: r in references;
      UnlinkedHoldsNothing(e, references[1..], inv);
    }
  }

  lemma SingleReference(inv: string, share: int, other: string)
    ensures NonNegative(ReferencesTo(inv, share))
    ensures AllocatedTo(ReferencesTo(inv, share), other) == if other == inv then Max(0, share) else 0
    ensures AllocatedInAll(ReferencesTo(inv, share)) == Max(0, share)
  {
    var references := ReferencesTo(inv, share);
    if share > 0 {
      assert references[1..] == [];
    }
  }

  // ---------------------------------------------------------------- sums

  ghost predicate AgreeExcept(a: map<nat, Entry>, b: map<nat, Entry>, k: nat) {
    forall m: nat | m != k :: (m in a <==> m in b) && (m in a ==> a[m] == b[m])
  }

  lemma {:induction false} SumChange(a: map<nat, Entry>, b: map<nat, Entry>, g: Gauge, k: nat, n: nat)
    requires AgreeExcept(a, b, k)
    ensures Sum(b, g, n) == Sum(a, g, n) + if k < n then WeightAt(b, g, k) - WeightAt(a, g, k) else 0
  {
    if n != 0 {
      SumChange(a, b, g, k, n - 1);
    }
  }

  lemma {:induction false} SumIsNonNegative(l: Ledger, settings: string, g: Gauge, n: nat)
    requires Valid(l, settings)
    ensures Sum(l.entries, g, n) >= 0
  {
    if n != 0 {
      SumIsNonNegative(l, settings, g, n - 1);
      if n - 1 in l.entries {
        AllocationBounds(l.entries[n - 1].references, g.inv);
      }
    }
  }

  // ---------------------------------------------------------------- primitives

  /** Room and total after an entry is rewritten and outstanding amounts are replaced. */
  lemma PutEffect(l: Ledger, n: nat, e: Entry, settings: string, inv: string)
    requires n in l.entries && n < l.nextName && inv in l.invoices
    ensures Room(Put(l, n, e), settings, inv)
            == Room(l, settings, inv) + Weight(Drafts(settings, inv), l.entries[n]) - Weight(Drafts(settings, inv), e)
    ensures InvoiceTotal(Put(l, n, e), inv)
            == InvoiceTotal(l, inv) - Weight(AllSubmitted(inv), l.entries[n]) + Weight(AllSubmitted(inv), e)
  {
    SumChange(l.entries, Put(l, n, e).entries, Drafts(settings, inv), n, l.nextName);
    SumChange(l.entries, Put(l, n, e).entries, AllSubmitted(inv), n, l.nextName);
  }

  lemma PutKeepsValid(l: Ledger, n: nat, e: Entry, settings: string)
    requires Valid(l, settings) && n in l.entries && NonNegative(e.references)
    requires e.paymentId == "" || (e.paymentId == l.entries[n].paymentId && e.settings == settings)
    ensures Valid(Put(l, n, e), settings)
  {
  }

  lemma DropEffect(l: Ledger, n: nat, settings: string, inv: string)
    requires Valid(l, settings) && n in l.entries && inv in l.invoices
    ensures Valid(Drop(l, n), settings)
    ensures Room(Drop(l, n), settings, inv) == Room(l, settings, inv) + Weight(Drafts(settings, inv), l.entries[n])
    ensures InvoiceTotal(Drop(l, n), inv) == InvoiceTotal(l, inv) - Weight(AllSubmitted(inv), l.entries[n])
  {
    SumChange(l.entries, Drop(l, n).entries, Drafts(settings, inv), n, l.nextName);
    SumChange(l.entries, Drop(l, n).entries, AllSubmitted(inv), n, l.nextName);
  }

  lemma InsertEffect(l: Ledger, e: Entry, settings: string, inv: string)
    requires l.nextName !in l.entries && inv in l.invoices
    ensures Room(Insert(l, e), settings, inv) == Room(l, settings, inv) - Weight(Drafts(settings, inv), e)
    ensures InvoiceTotal(Insert(l, e), inv) == InvoiceTotal(l, inv) + Weight(AllSubmitted(inv), e)
  {
    SumChange(l.entries, Insert(l, e).entries, Drafts(settings, inv), l.nextName, l.nextName);
    SumChange(l.entries, Insert(l, e).entries, AllSubmitted(inv), l.nextName, l.nextName);
  }

  lemma InsertKeepsValid(l: Ledger, e: Entry, settings: string)
    requires Valid(l, settings) && NonNegative(e.references) && e.settings == settings
    requires Holder(l, e.paymentId).None?
    ensures Valid(Insert(l, e), settings)
  {
  }

  lemma SubmitEffect(l: Ledger, settings: string, n: nat, inv: string)
    requires Valid(l, settings) && n in l.entries && inv in l.invoices
    requires l.entries[n].docstatus == Draft && l.entries[n].settings == settings
    ensures Valid(Submit(l, n), settings)
    ensures Room(Submit(l, n), settings, inv) == Room(l, settings, inv)
    ensures InvoiceTotal(Submit(l, n), inv) == InvoiceTotal(l, inv)
  {
    var e := l.entries[n].(docstatus := Submitted);
    PutEffect(l, n, e, settings, inv);
    PutKeepsValid(l, n, e, settings);
    assert Submit(l, n).entries == Put(l, n, e).entries;
    assert Submit(l, n).invoices[inv].outstanding == l.invoices[inv].outstanding - AllocatedTo(e.references, inv);
  }

  /** Cancelling a submitted entry, whether or not its payment id is cleared first. */
  lemma CancelEffect(l: Ledger, settings: string, n: nat, clear: bool, inv: string)
    requires Valid(l, settings) && n in l.entries && inv in l.invoices && l.entries[n].docstatus == Submitted
    ensures var l' := Cancel(if clear then ClearId(l, n) else l, n);
            && Valid(l', settings)
            && Room(l', settings, inv) == Room(l, settings, inv) + AllocatedTo(l.entries[n].references, inv)
            && InvoiceTotal(l', inv) == InvoiceTotal(l, inv)
  {
    var e := l.entries[n].(docstatus := Cancelled, paymentId := if clear then "" else l.entries[n].paymentId);
    PutEffect(l, n, e, settings, inv);
    PutKeepsValid(l, n, e, settings);
    var l' := Cancel(if clear then ClearId(l, n) else l, n);
    assert l'.entries == Put(l, n, e).entries;
    assert l'.invoices[inv].outstanding == l.invoices[inv].outstanding + AllocatedTo(e.references, inv);
  }

  // ---------------------------------------------------------------- whole operations

  lemma RemoveEffect(l: Ledger, settings: string, n: nat, inv: string)
    requires Valid(l, settings) && n in l.entries && l.entries[n].settings == settings && inv in l.invoices
    ensures Valid(Remove(l, n), settings)
    ensures Room(Remove(l, n), settings, inv)
            == Room(l, settings, inv) + if l.entries[n].Live() then AllocatedTo(l.entries[n].references, inv) else 0
    ensures InvoiceTotal(Remove(l, n), inv) == InvoiceTotal(l, inv)
  {
    match l.entries[n].docstatus {
      case Draft => DropEffect(l, n, settings, inv);
      case Submitted => CancelEffect(l, settings, n, true, inv);
      case Cancelled =>
    }
  }

  lemma CreateEffect(l: Ledger, terms: Terms, inv: string, share: int, from: Option<nat>, submit: bool, other: string)
    requires Valid(l, terms.settings) && other in l.invoices
    requires Holder(l, terms.paymentId).None?
    ensures var l' := Create(l, terms, inv, share, from, submit);
            && Valid(l', terms.settings)
            && Room(l', terms.settings, other)
               == Room(l, terms.settings, other) - AllocatedTo(ReferencesTo(inv, share), other)
            && InvoiceTotal(l', other) == InvoiceTotal(l, other)
  {
    var e := FreshEntry(terms, inv, share, from);
    SingleReference(inv, share, other);
    InsertEffect(l, e, terms.settings, other);
    InsertKeepsValid(l, e, terms.settings);
    if submit {
      SubmitEffect(Insert(l, e), terms.settings, l.nextName, other);
    }
  }

  lemma ClearingFreesTheId(l: Ledger, settings: string, n: nat)
    requires Valid(l, settings) && n in l.entries && l.entries[n].paymentId != ""
    ensures Holder(Cancel(ClearId(l, n), n), l.entries[n].paymentId).None?
  {
    var id := l.entries[n].paymentId;
    var l1 := Cancel(ClearId(l, n), n);
    assert l1.entries == l.entries[n := l.entries[n].(paymentId := "", docstatus := Cancelled)];
    assert forall m | m in l1.entries :: l1.entries[m].paymentId != id;
  }

  lemma AmendEffect(l: Ledger, n: nat, terms: Terms, inv: string, share: int, submit: bool, other: string)
    requires Valid(l, terms.settings) && other in l.invoices
    requires n in l.entries && l.entries[n].docstatus == Submitted
    requires l.entries[n].paymentId == terms.paymentId != ""
    ensures var l' := Amend(l, n, terms, inv, share, submit);
            && Valid(l', terms.settings)
            && Room(l', terms.settings, other)
               == Room(l, terms.settings, other)
                  + AllocatedTo(l.entries[n].references, other) - AllocatedTo(ReferencesTo(inv, share), other)
            && InvoiceTotal(l', other) == InvoiceTotal(l, other)
  {
    var l1 := Cancel(ClearId(l, n), n);
    CancelEffect(l, terms.settings, n, true, other);
    ClearingFreesTheId(l, terms.settings, n);
    assert other in l1.invoices;
    CreateEffect(l1, terms, inv, share, Some(n), submit, other);
  }

  lemma ReviseEffect(l: Ledger, n: nat, terms: Terms, inv: string, share: int, other: string)
    requires Valid(l, terms.settings) && other in l.invoices
    requires n in l.entries && l.entries[n].docstatus == Draft
    requires l.entries[n].paymentId == terms.paymentId != ""
    ensures var l' := Put(l, n, Revised(l.entries[n], terms, inv, share));
            && Valid(l', terms.settings)
            && Room(l', terms.settings, other)
               == Room(l, terms.settings, other)
                  + AllocatedTo(l.entries[n].references, other) - AllocatedTo(ReferencesTo(inv, share), other)
            && InvoiceTotal(l', other) == InvoiceTotal(l, other)
  {
    SingleReference(inv, share, other);
    var e := Revised(l.entries[n], terms, inv, share);
    PutEffect(l, n, e, terms.settings, other);
    PutKeepsValid(l, n, e, terms.settings);
  }

  // ---------------------------------------------------------------- frames

  /** Every step may change outstanding amounts but never what an invoice is. */
  ghost predicate SameInvoices(l: Ledger, l': Ledger) {
    && l'.invoices.Keys == l.invoices.Keys
    && forall i | i in l.invoices :: l'.invoices[i].info == l.invoices[i].info
  }

  /** From `l` to `l'` only the entry that carries `id`, and new entries, differ. */
  ghost predicate OnlyTouches(l: Ledger, l': Ledger, id: string) {
    && SameInvoices(l, l')
    && l.nextName <= l'.nextName
    && (forall n | n in l.entries && l.entries[n].paymentId != id :: n in l'.entries && l'.entries[n] == l.entries[n])
    && (forall n | n in l'.entries && n in l.entries && l.entries[n].paymentId == id ::
          l'.entries[n].paymentId == id || (l'.entries[n].paymentId == "" && !l'.entries[n].Live()))
    && (forall n | n in l'.entries && n !in l.entries :: n >= l.nextName && l'.entries[n].paymentId == id)
  }

  lemma OthersKeepTheirEntries(l: Ledger, l': Ledger, settings: string, id: string, other: string)
    requires Valid(l, settings) && Valid(l', settings) && OnlyTouches(l, l', id)
    requires other != id && other != ""
    ensures Holder(l', other) == Holder(l, other) && Holding(l', other) == Holding(l, other)
  {
    match Holder(l, other) {
      case Some(n) => HolderIsUnique(l', settings, n);
      case None =>
    }
  }
}
