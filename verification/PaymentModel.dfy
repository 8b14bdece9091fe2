/**
 * The bill-payment reconciler on values: what a ledger of Payment Entries is, what a bill payment
 * is quoted at, and what each reconciling step makes of the ledger. The class Books in
 * PaymentBooks.dfy does the same work in place.
 */
module PaymentModel {
  import opened Options
  import opened Text
  import opened Money
  import opened ExchangeRates

  datatype DocStatus = Draft | Submitted | Cancelled

  /** One row of an entry's reference table: an amount set against a document. */
  datatype Reference = Reference(isInvoice: bool, name: string, amount: int)

  datatype Entry = Entry(
    docstatus: DocStatus,
    paymentId: string,      // custom_airwallex_payment_id, "" when unset
    settings: string,       // custom_airwallex_settings, "" when unset
    referenceNo: string,
    billId: string,
    references: seq<Reference>,
    paid: int,
    received: int,
    sourceRate: real,
    targetRate: real,
    postingDate: int,
    company: string,
    party: string,
    paidFrom: string,
    mode: string,           // mode_of_payment, "" when unset
    amendedFrom: Option<nat>)
  {
    predicate Live() { docstatus != Cancelled }
  }

  datatype InvoiceInfo = InvoiceInfo(
    docstatus: DocStatus, company: string, supplier: string, currency: string, creditCurrency: string)

  datatype Invoice = Invoice(info: InvoiceInfo, outstanding: int)

  /** Entries by name; names are handed out in increasing order and never reused. */
  datatype Ledger = Ledger(entries: map<nat, Entry>, invoices: map<string, Invoice>, nextName: nat)

  datatype Settings = Settings(name: string, supplierPayments: bool, submitDocuments: bool, defaultCurrency: string)

  /** The settings document and the lookups the reconciler reads but never writes. */
  datatype Host = Host(
    settings: Settings,
    accounts: map<string, string>,        // enabled account mappings: currency to ledger account
    companyCurrency: map<string, string>,
    rates: seq<RateRow>,
    modes: set<string>,
    today: int)

  datatype Transfer = Transfer(
    transferId: string, sourceCurrency: string, targetCurrency: string, sourceAmount: Option<real>,
    transferDate: Option<int>, rates: RateKeys, paymentMethod: string)

  datatype Payment = Payment(
    id: string, cardTransactionId: string, kind: string, status: string, currency: string,
    amount: Option<real>, sourceAmount: Option<real>, createdAt: Option<int>, paidAt: Option<int>,
    rates: RateKeys, paymentMethod: string, transfer: Transfer)
  {
    /** The identity of the payment, "" when the payload names none. */
    function Id(): string {
      Else(id, Else(transfer.transferId, cardTransactionId))
    }

    predicate Terminal() {
      Upper(status) in {"CANCELLED", "VOIDED", "DELETED", "TRASHED"}
    }

    predicate Supported() {
      Upper(kind) in {"TRANSFER", "EXTERNAL"}
    }

    /** An existing entry of this payment is to be withdrawn. */
    predicate Retired() {
      Terminal() || (kind != "" && !Supported())
    }
  }

  /** `payments` is None when the payload carried no payment data at all. */
  datatype Bill = Bill(id: string, payments: Option<seq<Payment>>)

  datatype Reason =
    | MissingPaymentId | CardOwnedBySpend | UnsupportedType(kind: string) | InvoiceNotSubmitted
    | MissingAccountMapping(currency: string) | InvalidAmount | MissingRate(source: string, target: string)
    | EntryCancelled | PaymentTrashed | NotInBill

  datatype Outcome =
    | Held(reason: Reason) | Guarded | Exists(name: nat)
    | WouldCreate | WouldUpdate(name: nat) | WouldRemove(name: nat, why: Reason)
    | Created(name: nat, submitted: bool) | Updated(name: nat) | Amended(name: nat, previous: nat)
    | DeletedEntry(name: nat, why: Reason) | CancelledEntry(name: nat, why: Reason)
    | AlreadyCancelled(name: nat, why: Reason)

  // ---------------------------------------------------------------- allocations

  /** What the references set against invoice `inv`. */
  function AllocatedTo(references: seq<Reference>, inv: string): int {
    if references == [] then 0
    else
      (if references[0].isInvoice && references[0].name == inv then references[0].amount else 0)
      + AllocatedTo(references[1..], inv)
  }

  /** What the references set against purchase invoices of any name. */
  function AllocatedInAll(references: seq<Reference>): int {
    if references == [] then 0
    else (if references[0].isInvoice then references[0].amount else 0) + AllocatedInAll(references[1..])
  }

  predicate Links(e: Entry, inv: string) {
    exists r | r in e.references :: r.isInvoice && r.name == inv
  }

  /** What a sum over the ledger counts: this settings' drafts, or all submitted entries, on one invoice. */
  datatype Gauge = Drafts(settings: string, inv: string) | AllSubmitted(inv: string)

  function Weight(g: Gauge, e: Entry): int {
    match g
    case Drafts(settings, inv) =>
      if e.docstatus == Draft && e.settings == settings then AllocatedTo(e.references, inv) else 0
    case AllSubmitted(inv) => if e.docstatus == Submitted then AllocatedTo(e.references, inv) else 0
  }

  function WeightAt(entries: map<nat, Entry>, g: Gauge, n: nat): int {
    if n in entries then Weight(g, entries[n]) else 0
  }

  /** The sum of the weights of the entries named below `n`. */
  function Sum(entries: map<nat, Entry>, g: Gauge, n: nat): int {
    if n == 0 then 0 else Sum(entries, g, n - 1) + WeightAt(entries, g, n - 1)
  }

  /** What drafts leave of an invoice's outstanding amount. */
  function Room(l: Ledger, settings: string, inv: string): int
    requires inv in l.invoices
  {
    l.invoices[inv].outstanding - Sum(l.entries, Drafts(settings, inv), l.nextName)
  }

  /** Outstanding plus everything submitted against the invoice: its total. */
  function InvoiceTotal(l: Ledger, inv: string): int
    requires inv in l.invoices
  {
    l.invoices[inv].outstanding + Sum(l.entries, AllSubmitted(inv), l.nextName)
  }

  function Min(a: int, b: int): int {
    if a < b then a else b
  }

  function Max(a: int, b: int): int {
    if a < b then b else a
  }

  /** What the entry `exclude` itself holds of the invoice's room while it is live. */
  function OwnShare(l: Ledger, settings: string, inv: string, exclude: Option<nat>): int {
    if exclude.Some? && exclude.value in l.entries
       && l.entries[exclude.value].settings == settings && l.entries[exclude.value].Live()
    then AllocatedTo(l.entries[exclude.value].references, inv) else 0
  }

  function Available(l: Ledger, settings: string, inv: string, exclude: Option<nat>): int
    requires inv in l.invoices
  {
    Max(0, Room(l, settings, inv) + OwnShare(l, settings, inv, exclude))
  }

  // ---------------------------------------------------------------- quoting a payment

  /** Everything a Payment Entry takes from a payment and its invoice, except the allocation. */
  datatype Terms = Terms(
    paymentId: string, settings: string, billId: string, paid: int, received: int, invoiceAmount: int,
    sourceRate: real, targetRate: real, invoiceRate: real, postingDate: int,
    company: string, party: string, paidFrom: string, mode: string)

  datatype Quote = Priced(terms: Terms) | Unpriced(reason: Reason)

  function SourceCurrency(h: Host, info: InvoiceInfo, p: Payment): string {
    Else(p.transfer.sourceCurrency, Else(p.currency, Else(info.currency, h.settings.defaultCurrency)))
  }

  function CompanyCurrency(h: Host, info: InvoiceInfo): string {
    var found :=
      if info.company != "" && info.company in h.companyCurrency then h.companyCurrency[info.company] else "";
    Else(found, h.settings.defaultCurrency)
  }

  function PostingDate(h: Host, p: Payment): int {
    var given := Or(p.transfer.transferDate, Or(p.createdAt, p.paidAt));
    if given.Some? then given.value else h.today
  }

  /** A zero amount counts as missing. */
  function NonZero(amount: Option<real>): Option<real> {
    if amount == Some(0.0) then None else amount
  }

  function AmountOf(p: Payment): int {
    var given := Or(NonZero(p.amount), Or(NonZero(p.transfer.sourceAmount), p.sourceAmount));
    if given.Some? then AsMoney(given.value) else 0
  }

  function ModeOf(h: Host, p: Payment): string {
    var asked := Else(p.paymentMethod, p.transfer.paymentMethod);
    if asked != "" && asked in h.modes then asked else ""
  }

  /** The rate of `currency`: the source rate when it is the source currency, else the table's. */
  function SideRate(h: Host, currency: string, source: string, sourceRate: real, home: string, date: int)
    : (r: Option<real>)
    requires sourceRate > 0.0
    ensures r.Some? ==> r.value > 0.0
  {
    if Upper(currency) == Upper(source) then Some(sourceRate)
    else ResolveRate(h.rates, currency, home, Some(date), None)
  }

  /** An amount in cents, taken at one rate into the company currency and at another out of it. */
  function Converted(cents: int, sourceRate: real, rate: real): int
    requires rate > 0.0
  {
    AsMoney(Units(cents) * sourceRate / rate)
  }

  function QuoteOf(h: Host, info: InvoiceInfo, billId: string, p: Payment): Quote {
    var source := SourceCurrency(h, info, p);
    if source !in h.accounts then Unpriced(MissingAccountMapping(source))
    else
      var amount := AmountOf(p);
      if amount <= 0 then Unpriced(InvalidAmount)
      else
        var date := PostingDate(h, p);
        var home := CompanyCurrency(h, info);
        var payload := PayloadRate(p.transfer.sourceCurrency, p.transfer.targetCurrency, p.transfer.rates, p.rates,
                                   source, home);
        match ResolveRate(h.rates, source, home, Some(date), payload)
        case None => Unpriced(MissingRate(source, home))
        case Some(sourceRate) =>
          var target := Else(info.creditCurrency, Else(info.currency, home));
          match SideRate(h, target, source, sourceRate, home, date)
          case None => Unpriced(MissingRate(target, home))
          case Some(targetRate) =>
            var invoiced := Else(info.currency, home);
            match SideRate(h, invoiced, source, sourceRate, home, date)
            case None => Unpriced(MissingRate(invoiced, home))
            case Some(invoiceRate) =>
              Priced(Terms(p.Id(), h.settings.name, billId, amount,
                           Converted(amount, sourceRate, targetRate), Converted(amount, sourceRate, invoiceRate),
                           sourceRate, targetRate, invoiceRate, date,
                           info.company, info.supplier, h.accounts[source], ModeOf(h, p)))
  }

  function Allocation(terms: Terms, available: int): int {
    if available <= 0 then 0 else Min(terms.invoiceAmount, available)
  }

  // ---------------------------------------------------------------- writing entries

  function ReferencesTo(inv: string, share: int): seq<Reference> {
    if share > 0 then [Reference(true, inv, share)] else []
  }

  function FreshEntry(terms: Terms, inv: string, share: int, amendedFrom: Option<nat>): Entry {
    Entry(Draft, terms.paymentId, terms.settings, terms.paymentId, terms.billId, ReferencesTo(inv, share),
          terms.paid, terms.received, terms.sourceRate, terms.targetRate, terms.postingDate,
          terms.company, terms.party, terms.paidFrom, terms.mode, amendedFrom)
  }

  /** A draft brought up to date; a quote without a mode leaves the draft's old mode in place. */
  function Revised(e: Entry, terms: Terms, inv: string, share: int): Entry {
    FreshEntry(terms, inv, share, e.amendedFrom)
      .(docstatus := e.docstatus, mode := if terms.mode != "" then terms.mode else e.mode)
  }

  /** Rates agree when they round to the same two places; allocations agree in total only. */
  predicate Matches(e: Entry, terms: Terms, share: int) {
    && e.paid == terms.paid
    && e.received == terms.received
    && AsMoney(e.sourceRate) == AsMoney(terms.sourceRate)
    && AsMoney(e.targetRate) == AsMoney(terms.targetRate)
    && e.postingDate == terms.postingDate
    && e.referenceNo == terms.paymentId
    && e.mode == terms.mode
    && AllocatedInAll(e.references) == share
  }

  // ---------------------------------------------------------------- ledger primitives

  function Put(l: Ledger, n: nat, e: Entry): Ledger {
    l.(entries := l.entries[n := e])
  }

  function Drop(l: Ledger, n: nat): Ledger {
    l.(entries := l.entries - {n})
  }

  function Insert(l: Ledger, e: Entry): Ledger {
    Ledger(l.entries[l.nextName := e], l.invoices, l.nextName + 1)
  }

  /** Outstanding amounts after `sign` times the references has been added to them. */
  function Posted(invoices: map<string, Invoice>, references: seq<Reference>, sign: int): map<string, Invoice> {
    map i | i in invoices :: invoices[i].(outstanding := invoices[i].outstanding + sign * AllocatedTo(references, i))
  }

  /** The host submits a draft: its allocations come off the invoices. */
  function Submit(l: Ledger, n: nat): Ledger
    requires n in l.entries
  {
    var e := l.entries[n];
    Put(l, n, e.(docstatus := Submitted)).(invoices := Posted(l.invoices, e.references, -1))
  }

  /** The host cancels a submitted entry: its allocations go back to the invoices. */
  function Cancel(l: Ledger, n: nat): Ledger
    requires n in l.entries
  {
    var e := l.entries[n];
    Put(l, n, e.(docstatus := Cancelled)).(invoices := Posted(l.invoices, e.references, 1))
  }

  function ClearId(l: Ledger, n: nat): Ledger
    requires n in l.entries
  {
    Put(l, n, l.entries[n].(paymentId := ""))
  }

  // ---------------------------------------------------------------- reconciling steps

  /** The lowest name below `n` of an entry that carries the payment id. */
  function Find(entries: map<nat, Entry>, id: string, n: nat): (r: Option<nat>)
    ensures r.Some? ==> r.value < n && r.value in entries && entries[r.value].paymentId == id
    ensures r.None? ==> forall k | k in entries && k < n :: entries[k].paymentId != id
  {
    if n == 0 then None
    else
      var lower := Find(entries, id, n - 1);
      if lower.Some? then lower
      else if n - 1 in entries && entries[n - 1].paymentId == id then Some(n - 1)
      else None
  }

  function Remove(l: Ledger, n: nat): Ledger
    requires n in l.entries
  {
    match l.entries[n].docstatus
    case Draft => Drop(l, n)
    case Submitted => Cancel(ClearId(l, n), n)
    case Cancelled => l
  }

  function RemovalOutcome(e: Entry, n: nat, why: Reason): Outcome {
    match e.docstatus
    case Draft => DeletedEntry(n, why)
    case Submitted => CancelledEntry(n, why)
    case Cancelled => AlreadyCancelled(n, why)
  }

  function Create(l: Ledger, terms: Terms, inv: string, share: int, amendedFrom: Option<nat>, submit: bool): Ledger {
    var inserted := Insert(l, FreshEntry(terms, inv, share, amendedFrom));
    if submit then Submit(inserted, l.nextName) else inserted
  }

  function Amend(l: Ledger, n: nat, terms: Terms, inv: string, share: int, submit: bool): Ledger
    requires n in l.entries
  {
    Create(Cancel(ClearId(l, n), n), terms, inv, share, Some(n), submit)
  }

  function RetirementReason(p: Payment): Reason {
    if p.Terminal() then PaymentTrashed else UnsupportedType(Upper(p.kind))
  }

  /** Reconciles the entry named `n` with an observation of its payment. */
  function Reconcile(h: Host, l: Ledger, inv: string, billId: string, p: Payment, n: nat, dry: bool): (Ledger, Outcome)
    requires inv in l.invoices && n in l.entries
  {
    var e := l.entries[n];
    if p.Retired() then
      if dry then (l, WouldRemove(n, RetirementReason(p)))
      else (Remove(l, n), RemovalOutcome(e, n, RetirementReason(p)))
    else if l.invoices[inv].info.docstatus != Submitted then (l, Held(InvoiceNotSubmitted))
    else
      match QuoteOf(h, l.invoices[inv].info, billId, p)
      case Unpriced(reason) => (l, Held(reason))
      case Priced(terms) =>
        var share := Allocation(terms, Available(l, h.settings.name, inv, Some(n)));
        if Matches(e, terms, share) then (l, Exists(n))
        else if dry then (l, WouldUpdate(n))
        else
          match e.docstatus
          case Draft => (Put(l, n, Revised(e, terms, inv, share)), Updated(n))
          case Submitted => (Amend(l, n, terms, inv, share, h.settings.submitDocuments), Amended(l.nextName, n))
          case Cancelled => (l, Held(EntryCancelled))
  }

  /** Reconciles a payment that no entry carries yet. */
  function Admit(h: Host, l: Ledger, inv: string, billId: string, p: Payment, dry: bool): (Ledger, Outcome)
    requires inv in l.invoices
  {
    if !h.settings.supplierPayments then (l, Guarded)
    else if Upper(p.kind) == "CARD_TRANSACTION" then (l, Held(CardOwnedBySpend))
    else if !p.Supported() then (l, Held(UnsupportedType(Upper(p.kind))))
    else if l.invoices[inv].info.docstatus != Submitted then (l, Held(InvoiceNotSubmitted))
    else
      match QuoteOf(h, l.invoices[inv].info, billId, p)
      case Unpriced(reason) => (l, Held(reason))
      case Priced(terms) =>
        if dry then (l, WouldCreate)
        else
          var share := Allocation(terms, Available(l, h.settings.name, inv, None));
          (Create(l, terms, inv, share, None, h.settings.submitDocuments),
           Created(l.nextName, h.settings.submitDocuments))
  }

  /** One observed payment. */
  function Import(h: Host, l: Ledger, inv: string, billId: string, p: Payment, dry: bool): (r: (Ledger, Outcome))
    requires inv in l.invoices
    ensures r.0.invoices.Keys == l.invoices.Keys
  {
    if p.Id() == "" then (l, Held(MissingPaymentId))
    else
      match Find(l.entries, p.Id(), l.nextName)
      case Some(n) => Reconcile(h, l, inv, billId, p, n, dry)
      case None => Admit(h, l, inv, billId, p, dry)
  }

  /** The payments of a bill in order, from index `k` on. */
  function ImportFrom(h: Host, l: Ledger, inv: string, billId: string, ps: seq<Payment>, k: nat, dry: bool)
    : (r: (Ledger, seq<Outcome>))
    requires inv in l.invoices && k <= |ps|
    ensures inv in r.0.invoices
    decreases |ps| - k
  {
    if k == |ps| then (l, [])
    else
      var (l1, outcome) := Import(h, l, inv, billId, ps[k], dry);
      var (l2, outcomes) := ImportFrom(h, l1, inv, billId, ps, k + 1, dry);
      (l2, [outcome] + outcomes)
  }

  /** The identity a linked row is withdrawn by. */
  function RowId(e: Entry): string {
    Else(e.paymentId, e.referenceNo)
  }

  /** The entry named `n` is of these settings and references the invoice. */
  predicate Listed(entries: map<nat, Entry>, settings: string, inv: string, n: nat) {
    n in entries && entries[n].settings == settings && Links(entries[n], inv)
  }

  /** The listed entries named below `n`, in name order. */
  function Linked(entries: map<nat, Entry>, settings: string, inv: string, n: nat): (names: seq<nat>)
    ensures forall k: nat :: k in names <==> k < n && Listed(entries, settings, inv, k)
  {
    if n == 0 then []
    else
      var lower := Linked(entries, settings, inv, n - 1);
      if Listed(entries, settings, inv, n - 1) then lower + [n - 1] else lower
  }

  function Ids(ps: seq<Payment>): set<string> {
    set p | p in ps :: p.Id()
  }

  predicate Withdrawn(e: Entry, observed: set<string>) {
    RowId(e) != "" && RowId(e) !in observed
  }

  /** Removes every listed entry that the bill no longer shows. */
  function Withdraw(l: Ledger, names: seq<nat>, observed: set<string>, dry: bool): (r: (Ledger, seq<Outcome>))
    ensures r.0.invoices.Keys == l.invoices.Keys
    decreases |names|
  {
    if names == [] then (l, [])
    else
      var n := names[0];
      if n !in l.entries || !Withdrawn(l.entries[n], observed) then Withdraw(l, names[1..], observed, dry)
      else
        var l1 := if dry then l else Remove(l, n);
        var outcome := if dry then WouldRemove(n, NotInBill) else RemovalOutcome(l.entries[n], n, NotInBill);
        var (l2, outcomes) := Withdraw(l1, names[1..], observed, dry);
        (l2, [outcome] + outcomes)
  }

  /** One whole reconciliation of a bill. */
  function Reconciled(h: Host, l: Ledger, inv: string, bill: Bill, dry: bool): (r: (Ledger, seq<Outcome>))
    requires inv in l.invoices
    ensures inv in r.0.invoices
  {
    match bill.payments
    case None => (l, [])
    case Some(ps) =>
      var (l1, imported) := ImportFrom(h, l, inv, bill.id, ps, 0, dry);
      var (l2, removed) := Withdraw(l1, Linked(l1.entries, h.settings.name, inv, l1.nextName), Ids(ps), dry);
      (l2, imported + removed)
  }
}
