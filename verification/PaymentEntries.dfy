/** What an import leaves in the payment's entry, field by field, and what its outcome says about it. */
module PaymentEntries {
  import opened Options
  import opened Text
  import opened Money
  import opened PaymentModel
  import opened PaymentEffects
  import opened PaymentSteps

  /** What of an entry is compared with a quote, its allocation aside. */
  predicate Agrees(e: Entry, t: Terms, mode: string) {
    && e.paid == t.paid && e.received == t.received
    && AsMoney(e.sourceRate) == AsMoney(t.sourceRate) && AsMoney(e.targetRate) == AsMoney(t.targetRate)
    && e.postingDate == t.postingDate && e.referenceNo == t.paymentId && e.mode == mode
  }

  /** The entry is written from the quote, with this allocation and mode. */
  predicate WrittenFrom(e: Entry, t: Terms, inv: string, share: int, mode: string) {
    && e.paymentId == t.paymentId && e.referenceNo == t.paymentId && e.settings == t.settings && e.billId == t.billId
    && e.paid == t.paid && e.received == t.received && e.sourceRate == t.sourceRate && e.targetRate == t.targetRate
    && e.postingDate == t.postingDate && e.company == t.company && e.party == t.party && e.paidFrom == t.paidFrom
    && e.mode == mode && e.references == if share > 0 then [Reference(true, inv, share)] else []
  }

  /** The smaller of the payment's amount on the invoice and the room, and nothing where there is no room. */
  function Share(t: Terms, room: int): int {
    if room <= 0 then 0 else if t.invoiceAmount <= room then t.invoiceAmount else room
  }

  /** The draft is written anew in place; it keeps its old mode where the quote has none. */
  ghost predicate Rewritten(l: Ledger, l': Ledger, n: nat, t: Terms, inv: string, share: int)
    requires n in l.entries
  {
    && n in l'.entries && l'.entries[n].docstatus == Draft && l'.entries[n].amendedFrom == l.entries[n].amendedFrom
    && WrittenFrom(l'.entries[n], t, inv, share, if t.mode != "" then t.mode else l.entries[n].mode)
  }

  /** The entry is cancelled without its id, and a new one written that names it. */
  ghost predicate Replaced(l: Ledger, l': Ledger, n: nat, t: Terms, inv: string, share: int, submit: bool)
    requires n in l.entries
  {
    && n in l'.entries && l.nextName in l'.entries
    && l'.entries[n] == l.entries[n].(paymentId := "", docstatus := Cancelled)
    && l'.entries[l.nextName].amendedFrom == Some(n)
    && l'.entries[l.nextName].docstatus == (if submit then Submitted else Draft)
    && WrittenFrom(l'.entries[l.nextName], t, inv, share, t.mode)
  }

  lemma AmendedIsWritten(l: Ledger, n: nat, t: Terms, inv: string, share: int, submit: bool)
    requires n in l.entries && n < l.nextName
    ensures Replaced(l, Amend(l, n, t, inv, share, submit), n, t, inv, share, submit)
  {
    AmendedEntries(l, n, t, inv, share, submit);
    FreshIsWritten(t, inv, share, Some(n));
  }

  lemma ShareIsAllocation(t: Terms, room: int)
    ensures Allocation(t, Max(0, room)) == Share(t, room)
  {
  }

  lemma FreshIsWritten(t: Terms, inv: string, share: int, from: Option<nat>)
    ensures WrittenFrom(FreshEntry(t, inv, share, from), t, inv, share, t.mode)
    ensures FreshEntry(t, inv, share, from).amendedFrom == from && FreshEntry(t, inv, share, from).docstatus == Draft
  {
  }

  lemma RevisedIsWritten(e: Entry, t: Terms, inv: string, share: int)
    ensures WrittenFrom(Revised(e, t, inv, share), t, inv, share, if t.mode != "" then t.mode else e.mode)
    ensures Revised(e, t, inv, share).amendedFrom == e.amendedFrom && Revised(e, t, inv, share).docstatus == e.docstatus
  {
  }

  lemma MatchesMeans(e: Entry, t: Terms, share: int)
    ensures Matches(e, t, share) <==> Agrees(e, t, t.mode) && AllocatedInAll(e.references) == share
  {
  }

  /** The entry exists as quoted, is rewritten, or is replaced. */
  ghost predicate AsReconciled(l: Ledger, r: (Ledger, Outcome), n: nat, t: Terms, inv: string, share: int, submit: bool)
    requires n in l.entries
  {
    var e, l', outcome := l.entries[n], r.0, r.1;
    if Agrees(e, t, t.mode) && AllocatedInAll(e.references) == share then l' == l && outcome == Exists(n)
    else if e.docstatus == Draft then outcome == Updated(n) && Rewritten(l, l', n, t, inv, share)
    else outcome == Amended(l.nextName, n) && Replaced(l, l', n, t, inv, share, submit)
  }

  /** The ledger and the outcome of the branches for a live entry. */
  function Branches(l: Ledger, n: nat, t: Terms, inv: string, share: int, submit: bool): (Ledger, Outcome)
    requires n in l.entries
  {
    if Matches(l.entries[n], t, share) then (l, Exists(n))
    else if l.entries[n].docstatus == Draft then (Put(l, n, Revised(l.entries[n], t, inv, share)), Updated(n))
    else (Amend(l, n, t, inv, share, submit), Amended(l.nextName, n))
  }

  lemma BranchesMean(l: Ledger, n: nat, t: Terms, inv: string, share: int, submit: bool)
    requires n in l.entries && n < l.nextName
    ensures AsReconciled(l, Branches(l, n, t, inv, share, submit), n, t, inv, share, submit)
  {
    MatchesMeans(l.entries[n], t, share);
    RevisedIsWritten(l.entries[n], t, inv, share);
    AmendedIsWritten(l, n, t, inv, share, submit);
  }

  /** What the branches for a live entry come to. */
  lemma ReconcileIs(h: Host, l: Ledger, inv: string, billId: string, p: Payment, n: nat)
    requires Valid(l, h.settings.name) && inv in l.invoices && p.Id() != "" && n in l.entries
    requires l.entries[n].paymentId == p.Id() && l.entries[n].Live()
    requires !p.Retired() && l.invoices[inv].info.docstatus == Submitted
    requires QuoteOf(h, l.invoices[inv].info, billId, p).Priced?
    ensures var t, e := QuoteOf(h, l.invoices[inv].info, billId, p).terms, l.entries[n];
            var share := Share(t, Room(l, h.settings.name, inv) + AllocatedTo(e.references, inv));
            Import(h, l, inv, billId, p, false) == Branches(l, n, t, inv, share, h.settings.submitDocuments)
  {
    var t := QuoteOf(h, l.invoices[inv].info, billId, p).terms;
    HolderIsUnique(l, h.settings.name, n);
    OwnShareIsAllocated(l, h.settings.name, inv, n);
    ShareIsAllocation(t, Room(l, h.settings.name, inv) + AllocatedTo(l.entries[n].references, inv));
    assert Import(h, l, inv, billId, p, false) == Reconcile(h, l, inv, billId, p, n, false);
  }

  /**
   * Reconciling a live entry: it exists as quoted if and only if everything compared already agreed and
   * its total was its share; otherwise a draft is rewritten in place and a submitted entry is cancelled,
   * without its id, for a new one that names it. Only a draft keeps its old mode, and only where the
   * quote has none.
   */
  lemma AdjustedEntryIsAsQuoted(h: Host, l: Ledger, inv: string, billId: string, p: Payment, n: nat)
    returns (r: (Ledger, Outcome), t: Terms, share: int)
    requires Valid(l, h.settings.name) && inv in l.invoices && p.Id() != "" && n in l.entries
    requires l.entries[n].paymentId == p.Id() && l.entries[n].Live()
    requires !p.Retired() && l.invoices[inv].info.docstatus == Submitted
    requires QuoteOf(h, l.invoices[inv].info, billId, p).Priced?
    ensures r == Import(h, l, inv, billId, p, false) && QuoteOf(h, l.invoices[inv].info, billId, p) == Priced(t)
    ensures share == Share(t, Room(l, h.settings.name, inv) + AllocatedTo(l.entries[n].references, inv))
    ensures AsReconciled(l, r, n, t, inv, share, h.settings.submitDocuments)
  {
    t := QuoteOf(h, l.invoices[inv].info, billId, p).terms;
    share := Share(t, Room(l, h.settings.name, inv) + AllocatedTo(l.entries[n].references, inv));
    r := Branches(l, n, t, inv, share, h.settings.submitDocuments);
    ReconcileIs(h, l, inv, billId, p, n);
    BranchesMean(l, n, t, inv, share, h.settings.submitDocuments);
  }

  /** So the entry agrees with the quote afterwards, whether or not it was written. */
  lemma AdjustedEntryAgrees(h: Host, l: Ledger, inv: string, billId: string, p: Payment)
    requires Valid(l, h.settings.name) && inv in l.invoices && p.Id() != ""
    requires Holding(l, p.Id()).Some? && Holding(l, p.Id()).value.Live()
    requires !p.Retired() && l.invoices[inv].info.docstatus == Submitted
    requires QuoteOf(h, l.invoices[inv].info, billId, p).Priced?
    ensures var (l', outcome) := Import(h, l, inv, billId, p, false);
            var t, e := QuoteOf(h, l.invoices[inv].info, billId, p).terms, Holding(l, p.Id()).value;
            && Holding(l', p.Id()).Some?
            && Agrees(Holding(l', p.Id()).value, t,
                      if t.mode == "" && e.docstatus == Draft && !outcome.Exists? then e.mode else t.mode)
  {
    var n := Holder(l, p.Id()).value;
    var r, _, _ := AdjustedEntryIsAsQuoted(h, l, inv, billId, p, n);
    AdjustStep(h, l, inv, billId, p, inv);
    if r.1.Updated? {
      HolderIsUnique(r.0, h.settings.name, n);
    } else if r.1.Amended? {
      HolderIsUnique(r.0, h.settings.name, l.nextName);
    }
  }

  /**
   * A payment without an entry gets one if and only if supplier payments are enabled, it is a transfer
   * or an external payment, the invoice is submitted and the payment can be priced; the entry is written
   * from the quote, with the smaller of its amount and the room. Otherwise nothing changes, and the
   * outcome is the first reason.
   */
  lemma CreatedEntryIsAsQuoted(h: Host, l: Ledger, inv: string, billId: string, p: Payment)
    requires Valid(l, h.settings.name) && inv in l.invoices && p.Id() != ""
    requires forall n | n in l.entries :: l.entries[n].paymentId != p.Id()
    ensures var (l', outcome) := Import(h, l, inv, billId, p, false);
            var info := l.invoices[inv].info;
            if !h.settings.supplierPayments then l' == l && outcome == Guarded
            else if Upper(p.kind) == "CARD_TRANSACTION" then l' == l && outcome == Held(CardOwnedBySpend)
            else if Upper(p.kind) != "TRANSFER" && Upper(p.kind) != "EXTERNAL" then
              l' == l && outcome == Held(UnsupportedType(Upper(p.kind)))
            else if info.docstatus != Submitted then l' == l && outcome == Held(InvoiceNotSubmitted)
            else match QuoteOf(h, info, billId, p)
              case Unpriced(reason) => l' == l && outcome == Held(reason)
              case Priced(t) =>
                && outcome == Created(l.nextName, h.settings.submitDocuments)
                && l'.entries.Keys == l.entries.Keys + {l.nextName}
                && WrittenFrom(l'.entries[l.nextName], t, inv, Share(t, Room(l, h.settings.name, inv)), t.mode)
                && l'.entries[l.nextName].amendedFrom == None
                && l'.entries[l.nextName].docstatus == if h.settings.submitDocuments then Submitted else Draft
  {
    AdmitOutcomeIs(h, l, inv, billId, p);
    if Creatable(h, l.invoices[inv].info, billId, p) {
      var t := QuoteOf(h, l.invoices[inv].info, billId, p).terms;
      FreshIsWritten(t, inv, Share(t, Room(l, h.settings.name, inv)), None);
    }
  }

  lemma AdmitOutcomeIs(h: Host, l: Ledger, inv: string, billId: string, p: Payment)
    requires inv in l.invoices && p.Id() != "" && forall n | n in l.entries :: l.entries[n].paymentId != p.Id()
    ensures Import(h, l, inv, billId, p, false) == Admit(h, l, inv, billId, p, false)
    ensures Creatable(h, l.invoices[inv].info, billId, p) && Upper(p.kind) != "CARD_TRANSACTION" ==>
              var t := QuoteOf(h, l.invoices[inv].info, billId, p).terms;
              Admit(h, l, inv, billId, p, false)
              == (Create(l, t, inv, Share(t, Room(l, h.settings.name, inv)), None, h.settings.submitDocuments),
                  Created(l.nextName, h.settings.submitDocuments))
  {
    assert Find(l.entries, p.Id(), l.nextName).None?;
  }

  /** A payment is retired when its status has ended it or its type is not one the reconciler books. */
  lemma RetiredMeans(p: Payment)
    ensures p.Retired() <==>
              || Upper(p.status) == "CANCELLED" || Upper(p.status) == "VOIDED"
              || Upper(p.status) == "DELETED" || Upper(p.status) == "TRASHED"
              || (p.kind != "" && Upper(p.kind) != "TRANSFER" && Upper(p.kind) != "EXTERNAL")
  {
  }

  /** A retired payment's entry: a draft goes, a submitted one is cancelled and loses its id, a cancelled one stays. */
  lemma RetiredEntryGoes(h: Host, l: Ledger, inv: string, billId: string, p: Payment, n: nat)
    requires Valid(l, h.settings.name) && inv in l.invoices && p.Id() != "" && n in l.entries
    requires l.entries[n].paymentId == p.Id() && p.Retired()
    ensures var (l', outcome) := Import(h, l, inv, billId, p, false);
            var ended := Upper(p.status) in {"CANCELLED", "VOIDED", "DELETED", "TRASHED"};
            var why := if ended then PaymentTrashed else UnsupportedType(Upper(p.kind));
            match l.entries[n].docstatus
            case Draft => outcome == DeletedEntry(n, why) && l'.entries == l.entries - {n}
            case Submitted =>
              && outcome == CancelledEntry(n, why)
              && l'.entries == l.entries[n := l.entries[n].(paymentId := "", docstatus := Cancelled)]
            case Cancelled => outcome == AlreadyCancelled(n, why) && l' == l
  {
    HolderIsUnique(l, h.settings.name, n);
  }

  /** A live entry whose payment cannot be reconciled now is held as it is, for the first reason. */
  lemma UnreconciledEntryIsHeld(h: Host, l: Ledger, inv: string, billId: string, p: Payment, n: nat)
    requires Valid(l, h.settings.name) && inv in l.invoices && p.Id() != "" && n in l.entries
    requires l.entries[n].paymentId == p.Id() && !p.Retired()
    ensures var (l', outcome) := Import(h, l, inv, billId, p, false);
            var info := l.invoices[inv].info;
            && (info.docstatus != Submitted ==> l' == l && outcome == Held(InvoiceNotSubmitted))
            && (info.docstatus == Submitted ==>
                  match QuoteOf(h, info, billId, p)
                  case Unpriced(reason) => l' == l && outcome == Held(reason)
                  case Priced(t) =>
                    l.entries[n].docstatus == Cancelled ==> l' == l && outcome in {Exists(n), Held(EntryCancelled)})
  {
    HolderIsUnique(l, h.settings.name, n);
  }

  /** An allocation is against the invoice of that name, and no other kind of document counts. */
  lemma AllocationMeans(before: seq<Reference>, r: Reference, inv: string)
    ensures AllocatedTo(before + [r], inv)
            == AllocatedTo(before, inv) + if r.isInvoice && r.name == inv then r.amount else 0
    ensures AllocatedInAll(before + [r]) == AllocatedInAll(before) + if r.isInvoice then r.amount else 0
  {
    if before != [] {
      assert (before + [r])[1..] == before[1..] + [r];
      AllocationMeans(before[1..], r, inv);
    } else {
      assert ([] + [r])[1..] == [] && [] + [r] == [r];
    }
  }

  /** A payment without an identity is held, whatever else it says. */
  lemma UnnamedPaymentIsHeld(h: Host, l: Ledger, inv: string, billId: string, p: Payment, dry: bool)
    requires inv in l.invoices && p.id == "" && p.transfer.transferId == "" && p.cardTransactionId == ""
    ensures Import(h, l, inv, billId, p, dry) == (l, Held(MissingPaymentId))
  {
  }

  /** The dry outcome announces a write that the live call makes, and is the live outcome where it makes none. */
  predicate Foretells(dry: Outcome, live: Outcome) {
    match live
    case Created(_, _) => dry == WouldCreate
    case Updated(n) => dry == WouldUpdate(n)
    case Amended(_, n) => dry == WouldUpdate(n)
    case DeletedEntry(n, why) => dry == WouldRemove(n, why)
    case CancelledEntry(n, why) => dry == WouldRemove(n, why)
    case AlreadyCancelled(n, why) => dry == WouldRemove(n, why)
    case Held(reason) => dry == live || (reason == EntryCancelled && dry.WouldUpdate?)
    case _ => dry == live
  }

  lemma DryReconcileMeans(h: Host, l: Ledger, inv: string, billId: string, p: Payment, n: nat)
    requires inv in l.invoices && n in l.entries
    ensures Reconcile(h, l, inv, billId, p, n, true).0 == l
    ensures Foretells(Reconcile(h, l, inv, billId, p, n, true).1, Reconcile(h, l, inv, billId, p, n, false).1)
  {
  }

  lemma DryAdmitMeans(h: Host, l: Ledger, inv: string, billId: string, p: Payment)
    requires inv in l.invoices
    ensures Admit(h, l, inv, billId, p, true).0 == l
    ensures Foretells(Admit(h, l, inv, billId, p, true).1, Admit(h, l, inv, billId, p, false).1)
  {
  }

  /** A dry run writes nothing and says what the live call would do. */
  lemma DryOutcomeMeans(h: Host, l: Ledger, inv: string, billId: string, p: Payment)
    requires inv in l.invoices
    ensures Import(h, l, inv, billId, p, true).0 == l
    ensures Foretells(Import(h, l, inv, billId, p, true).1, Import(h, l, inv, billId, p, false).1)
  {
    match Find(l.entries, p.Id(), l.nextName)
    case Some(n) => DryReconcileMeans(h, l, inv, billId, p, n);
    case None => DryAdmitMeans(h, l, inv, billId, p);
  }
}
