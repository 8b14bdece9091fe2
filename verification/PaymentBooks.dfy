/**
 * The reconciler in place: documents are inserted, updated, submitted, cancelled and deleted in the
 * fields of one object, and every call leaves exactly the ledger that PaymentModel describes.
 */
module PaymentBooks {
  import opened Options
  import opened PaymentModel
  import opened PaymentEffects

  // ---------------------------------------------------------------- rows of a query

  /** The sum of the weights of the listed entries. */
  function RowSum(entries: map<nat, Entry>, g: Gauge, rows: seq<nat>): int {
    if rows == [] then 0 else RowSum(entries, g, rows[..|rows| - 1]) + WeightAt(entries, g, rows[|rows| - 1])
  }

  predicate Increasing(rows: seq<nat>) {
    forall i, j | 0 <= i < j < |rows| :: rows[i] < rows[j]
  }

  lemma UnlistedWeighsNothing(entries: map<nat, Entry>, settings: string, inv: string, n: nat)
    requires !Listed(entries, settings, inv, n)
    ensures WeightAt(entries, Drafts(settings, inv), n) == 0
  {
    if n in entries && entries[n].settings == settings {
      UnlinkedHoldsNothing(entries[n], entries[n].references, inv);
    }
  }

  lemma RowSumAppend(entries: map<nat, Entry>, g: Gauge, rows: seq<nat>, n: nat)
    ensures RowSum(entries, g, rows + [n]) == RowSum(entries, g, rows) + WeightAt(entries, g, n)
  {
    assert (rows + [n])[..|rows|] == rows;
  }

  lemma {:induction false} RowsIncrease(entries: map<nat, Entry>, settings: string, inv: string, n: nat)
    ensures Increasing(Linked(entries, settings, inv, n))
  {
    if n != 0 {
      var lower := Linked(entries, settings, inv, n - 1);
      RowsIncrease(entries, settings, inv, n - 1);
      assert forall i | 0 <= i < |lower| :: lower[i] in lower;
    }
  }

  /** The linked rows account for every draft on the invoice. */
  lemma {:induction false} RowsCoverTheSum(entries: map<nat, Entry>, settings: string, inv: string, n: nat)
    ensures RowSum(entries, Drafts(settings, inv), Linked(entries, settings, inv, n))
            == Sum(entries, Drafts(settings, inv), n)
  {
    if n != 0 {
      RowsCoverTheSum(entries, settings, inv, n - 1);
      if Listed(entries, settings, inv, n - 1) {
        RowSumAppend(entries, Drafts(settings, inv), Linked(entries, settings, inv, n - 1), n - 1);
      } else {
        UnlistedWeighsNothing(entries, settings, inv, n - 1);
      }
    }
  }

  lemma {:induction false} AllocatedToAppend(references: seq<Reference>, r: Reference, inv: string)
    ensures AllocatedTo(references + [r], inv)
            == AllocatedTo(references, inv) + if r.isInvoice && r.name == inv then r.amount else 0
    ensures AllocatedInAll(references + [r]) == AllocatedInAll(references) + if r.isInvoice then r.amount else 0
  {
    if references != [] {
      assert (references + [r])[1..] == references[1..] + [r];
      AllocatedToAppend(references[1..], r, inv);
    }
  }

  /** Posting one more reference changes one invoice. */
  lemma PostedAppend(invoices: map<string, Invoice>, references: seq<Reference>, r: Reference, sign: int)
    ensures var posted := Posted(invoices, references, sign);
            Posted(invoices, references + [r], sign)
            == if r.isInvoice && r.name in invoices
               then posted[r.name := posted[r.name].(outstanding := posted[r.name].outstanding + sign * r.amount)]
               else posted
  {
    forall i: string
      ensures AllocatedTo(references + [r], i)
              == AllocatedTo(references, i) + if r.isInvoice && r.name == i then r.amount else 0
    {
      AllocatedToAppend(references, r, i);
    }
    Distributes(invoices, references, r, sign);
  }

  lemma Distributes(invoices: map<string, Invoice>, references: seq<Reference>, r: Reference, sign: int)
    ensures forall i: string ::
              sign * (AllocatedTo(references, i) + r.amount) == sign * AllocatedTo(references, i) + sign * r.amount
  {
  }

  /** What the entry set aside holds of the invoice, once it has come up among the rows and while it is live. */
  function OwnAmong(entries: map<nat, Entry>, inv: string, rows: seq<nat>, exclude: Option<nat>): int {
    if exclude.Some? && exclude.value in rows && exclude.value in entries && entries[exclude.value].Live()
    then AllocatedTo(entries[exclude.value].references, inv) else 0
  }

  /** What the rows taken so far leave of the invoice, with the entry set aside given back. */
  function Balance(entries: map<nat, Entry>, settings: string, inv: string, rows: seq<nat>, exclude: Option<nat>): int {
    OwnAmong(entries, inv, rows, exclude) - RowSum(entries, Drafts(settings, inv), rows)
  }

  lemma RowTaken(entries: map<nat, Entry>, settings: string, inv: string, rows: seq<nat>, row: nat,
                 exclude: Option<nat>)
    requires Listed(entries, settings, inv, row) && row !in rows
    ensures var e := entries[row];
            var allocation := AllocatedTo(e.references, inv);
            Balance(entries, settings, inv, rows + [row], exclude) == Balance(entries, settings, inv, rows, exclude)
              + if exclude == Some(row) then (if e.docstatus == Submitted then allocation else 0)
                else if e.docstatus == Draft then -allocation else 0
  {
    RowSumAppend(entries, Drafts(settings, inv), rows, row);
  }

  /** Among all linked rows that is its own share. */
  lemma OwnAmongAll(l: Ledger, settings: string, inv: string, exclude: Option<nat>)
    requires forall n | n in l.entries :: n < l.nextName
    ensures OwnAmong(l.entries, inv, Linked(l.entries, settings, inv, l.nextName), exclude)
            == OwnShare(l, settings, inv, exclude)
  {
    if exclude.Some? && exclude.value in l.entries && l.entries[exclude.value].settings == settings {
      var e := l.entries[exclude.value];
      if !Links(e, inv) {
        UnlinkedHoldsNothing(e, e.references, inv);
      }
    }
  }

  // ---------------------------------------------------------------- progress of the two loops

  /** The first `k` payments are imported, with these outcomes, and `l` is where that led. */
  ghost predicate ImportedTo(h: Host, start: Ledger, l: Ledger, inv: string, billId: string, ps: seq<Payment>, k: nat,
                             dry: bool, outcomes: seq<Outcome>)
  {
    && inv in start.invoices && inv in l.invoices && k <= |ps|
    && var all, rest := ImportFrom(h, start, inv, billId, ps, 0, dry), ImportFrom(h, l, inv, billId, ps, k, dry);
    && all.0 == rest.0 && all.1 == outcomes + rest.1
  }

  lemma ImportedOneMore(h: Host, start: Ledger, l: Ledger, inv: string, billId: string, ps: seq<Payment>, k: nat,
                        dry: bool, outcomes: seq<Outcome>)
    requires ImportedTo(h, start, l, inv, billId, ps, k, dry, outcomes) && k < |ps|
    ensures var (l1, outcome) := Import(h, l, inv, billId, ps[k], dry);
            ImportedTo(h, start, l1, inv, billId, ps, k + 1, dry, outcomes + [outcome])
  {
    var (l1, outcome) := Import(h, l, inv, billId, ps[k], dry);
    var rest := ImportFrom(h, l1, inv, billId, ps, k + 1, dry);
    assert ImportFrom(h, l, inv, billId, ps, k, dry) == (rest.0, [outcome] + rest.1);
    assert outcomes + ([outcome] + rest.1) == (outcomes + [outcome]) + rest.1;
  }

  lemma ImportedAll(h: Host, start: Ledger, l: Ledger, inv: string, billId: string, ps: seq<Payment>, dry: bool,
                    outcomes: seq<Outcome>)
    requires ImportedTo(h, start, l, inv, billId, ps, |ps|, dry, outcomes)
    ensures (l, outcomes) == ImportFrom(h, start, inv, billId, ps, 0, dry)
  {
    assert outcomes + [] == outcomes;
  }

  /** The rows before the listed ones are dealt with, with these outcomes, and `l` is where that led. */
  ghost predicate WithdrawnTo(start: Ledger, l: Ledger, all: seq<nat>, rows: seq<nat>, observed: set<string>, dry: bool,
                              outcomes: seq<Outcome>)
  {
    var whole, rest := Withdraw(start, all, observed, dry), Withdraw(l, rows, observed, dry);
    whole.0 == rest.0 && whole.1 == outcomes + rest.1
  }

  lemma WithdrawnOneMore(start: Ledger, l: Ledger, all: seq<nat>, rows: seq<nat>, observed: set<string>, dry: bool,
                         outcomes: seq<Outcome>)
    requires WithdrawnTo(start, l, all, rows, observed, dry, outcomes) && rows != []
    ensures var n := rows[0];
            if n !in l.entries || !Withdrawn(l.entries[n], observed)
            then WithdrawnTo(start, l, all, rows[1..], observed, dry, outcomes)
            else WithdrawnTo(start, if dry then l else Remove(l, n), all, rows[1..], observed, dry,
                             outcomes + [if dry then WouldRemove(n, NotInBill)
                                         else RemovalOutcome(l.entries[n], n, NotInBill)])
  {
    var n := rows[0];
    if n in l.entries && Withdrawn(l.entries[n], observed) {
      var outcome := if dry then WouldRemove(n, NotInBill) else RemovalOutcome(l.entries[n], n, NotInBill);
      var rest := Withdraw(if dry then l else Remove(l, n), rows[1..], observed, dry);
      assert outcomes + ([outcome] + rest.1) == (outcomes + [outcome]) + rest.1;
    }
  }

  // ---------------------------------------------------------------- the ledger as an object

  class Books {
    var entries: map<nat, Entry>
    var invoices: map<string, Invoice>
    var nextName: nat

    ghost predicate Valid()
      reads this
    {
      forall n | n in entries :: n < nextName
    }

    function State(): Ledger
      reads this
    {
      Ledger(entries, invoices, nextName)
    }

    constructor (invoices: map<string, Invoice>)
      ensures Valid() && State() == Ledger(map[], invoices, 0)
    {
      this.entries, this.invoices, this.nextName := map[], invoices, 0;
    }

    // -------------------------------------------------------------- documents

    /** Adds `sign` times each reference to its invoice's outstanding amount, one reference at a time. */
    method Post(references: seq<Reference>, sign: int)
      modifies this`invoices
      ensures invoices == Posted(old(invoices), references, sign)
    {
      for k := 0 to |references|
        invariant invoices == Posted(old(invoices), references[..k], sign)
      {
        var r := references[k];
        assert references[..k + 1] == references[..k] + [r];
        PostedAppend(old(invoices), references[..k], r, sign);
        if r.isInvoice && r.name in invoices {
          var invoice := invoices[r.name];
          invoices := invoices[r.name := invoice.(outstanding := invoice.outstanding + sign * r.amount)];
        }
      }
      assert references[..|references|] == references;
    }

    method InsertEntry(e: Entry) returns (name: nat)
      requires Valid()
      modifies this
      ensures Valid() && name == old(nextName) && State() == Insert(old(State()), e)
    {
      name := nextName;
      entries := entries[name := e];
      nextName := nextName + 1;
    }

    method SubmitEntry(n: nat)
      requires Valid() && n in entries
      modifies this
      ensures Valid() && State() == Submit(old(State()), n)
    {
      entries := entries[n := entries[n].(docstatus := Submitted)];
      Post(entries[n].references, -1);
    }

    method CancelEntry(n: nat)
      requires Valid() && n in entries
      modifies this
      ensures Valid() && State() == Cancel(old(State()), n)
    {
      entries := entries[n := entries[n].(docstatus := Cancelled)];
      Post(entries[n].references, 1);
    }

    // -------------------------------------------------------------- queries

    method AllocationToInvoice(n: nat, inv: string) returns (total: int)
      requires n in entries
      ensures total == AllocatedTo(entries[n].references, inv)
    {
      var references := entries[n].references;
      total := 0;
      for k := 0 to |references|
        invariant total == AllocatedTo(references[..k], inv)
      {
        assert references[..k + 1] == references[..k] + [references[k]];
        AllocatedToAppend(references[..k], references[k], inv);
        if references[k].isInvoice && references[k].name == inv {
          total := total + references[k].amount;
        }
      }
      assert references[..|references|] == references;
    }

    method AvailableOutstanding(settings: string, inv: string, exclude: Option<nat>) returns (available: int)
      requires Valid() && inv in invoices
      requires exclude.Some? ==> exclude.value in entries
      ensures available == Available(State(), settings, inv, exclude)
    {
      var rows := Linked(entries, settings, inv, nextName);
      RowsIncrease(entries, settings, inv, nextName);
      RowsCoverTheSum(entries, settings, inv, nextName);
      available := invoices[inv].outstanding;
      for k := 0 to |rows|
        invariant available == invoices[inv].outstanding + Balance(entries, settings, inv, rows[..k], exclude)
      {
        var row := rows[k];
        assert rows[..k + 1] == rows[..k] + [row];
        assert row in rows && row !in rows[..k];
        RowTaken(entries, settings, inv, rows[..k], row, exclude);
        var allocation := AllocationToInvoice(row, inv);
        if exclude == Some(row) {
          if entries[row].docstatus == Submitted {
            available := available + allocation;
          }
        } else if entries[row].docstatus == Draft {
          available := available - allocation;
        }
      }
      assert rows[..|rows|] == rows;
      OwnAmongAll(State(), settings, inv, exclude);
      available := if available > 0 then available else 0;
    }

    method EntryMatches(n: nat, terms: Terms, share: int) returns (matches: bool)
      requires n in entries
      ensures matches == Matches(entries[n], terms, share)
    {
      var e := entries[n];
      if e.paid != terms.paid || e.received != terms.received
         || Money.AsMoney(e.sourceRate) != Money.AsMoney(terms.sourceRate)
         || Money.AsMoney(e.targetRate) != Money.AsMoney(terms.targetRate) {
        return false;
      }
      if e.postingDate != terms.postingDate || e.referenceNo != terms.paymentId || e.mode != terms.mode {
        return false;
      }
      var actual := 0;
      for k := 0 to |e.references|
        invariant actual == AllocatedInAll(e.references[..k])
      {
        assert e.references[..k + 1] == e.references[..k] + [e.references[k]];
        AllocatedToAppend(e.references[..k], e.references[k], "");
        if e.references[k].isInvoice {
          actual := actual + e.references[k].amount;
        }
      }
      assert e.references[..|e.references|] == e.references;
      matches := actual == share;
    }

    // -------------------------------------------------------------- reconciling

    /** Deletes a draft; clears the id of a submitted entry and cancels it; leaves a cancelled one. */
    method RemovePaymentEntry(n: nat, why: Reason) returns (outcome: Outcome)
      requires Valid() && n in entries
      modifies this
      ensures Valid() && State() == Remove(old(State()), n)
      ensures outcome == RemovalOutcome(old(entries)[n], n, why)
    {
      match entries[n].docstatus {
        case Draft =>
          entries := entries - {n};
          outcome := DeletedEntry(n, why);
        case Submitted =>
          entries := entries[n := entries[n].(paymentId := "")];
          CancelEntry(n);
          outcome := CancelledEntry(n, why);
        case Cancelled =>
          outcome := AlreadyCancelled(n, why);
      }
    }

    method CreateEntry(terms: Terms, inv: string, share: int, amendedFrom: Option<nat>, submit: bool)
      returns (name: nat)
      requires Valid()
      modifies this
      ensures Valid() && name == old(nextName)
      ensures State() == Create(old(State()), terms, inv, share, amendedFrom, submit)
    {
      name := InsertEntry(FreshEntry(terms, inv, share, amendedFrom));
      if submit {
        SubmitEntry(name);
      }
    }

    method AmendPayment(n: nat, terms: Terms, inv: string, share: int, submit: bool) returns (outcome: Outcome)
      requires Valid() && n in entries
      modifies this
      ensures Valid() && State() == Amend(old(State()), n, terms, inv, share, submit)
      ensures outcome == Amended(old(nextName), n)
    {
      entries := entries[n := entries[n].(paymentId := "")];
      CancelEntry(n);
      var name := CreateEntry(terms, inv, share, Some(n), submit);
      outcome := Amended(name, n);
    }

    method ReconcileExistingPayment(h: Host, inv: string, billId: string, p: Payment, n: nat, dry: bool)
      returns (outcome: Outcome)
      requires Valid() && inv in invoices && n in entries
      modifies this
      ensures Valid() && (State(), outcome) == Reconcile(h, old(State()), inv, billId, p, n, dry)
    {
      if p.Retired() {
        if dry {
          return WouldRemove(n, RetirementReason(p));
        }
        outcome := RemovePaymentEntry(n, RetirementReason(p));
        return;
      }
      var info := invoices[inv].info;
      if info.docstatus != Submitted {
        return Held(InvoiceNotSubmitted);
      }
      match QuoteOf(h, info, billId, p) {
        case Unpriced(reason) => return Held(reason);
        case Priced(terms) =>
          var available := AvailableOutstanding(h.settings.name, inv, Some(n));
          var share := Allocation(terms, available);
          var matches := EntryMatches(n, terms, share);
          if matches {
            return Exists(n);
          }
          if dry {
            return WouldUpdate(n);
          }
          match entries[n].docstatus {
            case Draft =>
              entries := entries[n := Revised(entries[n], terms, inv, share)];
              outcome := Updated(n);
            case Submitted =>
              outcome := AmendPayment(n, terms, inv, share, h.settings.submitDocuments);
            case Cancelled =>
              outcome := Held(EntryCancelled);
          }
      }
    }

    method ImportBillPayment(h: Host, inv: string, billId: string, p: Payment, dry: bool) returns (outcome: Outcome)
      requires Valid() && inv in invoices
      modifies this
      ensures Valid() && (State(), outcome) == Import(h, old(State()), inv, billId, p, dry)
    {
      if p.Id() == "" {
        return Held(MissingPaymentId);
      }
      var existing := Find(entries, p.Id(), nextName);
      if existing.Some? {
        outcome := ReconcileExistingPayment(h, inv, billId, p, existing.value, dry);
        return;
      }
      if !h.settings.supplierPayments {
        return Guarded;
      }
      if Text.Upper(p.kind) == "CARD_TRANSACTION" {
        return Held(CardOwnedBySpend);
      }
      if !p.Supported() {
        return Held(UnsupportedType(Text.Upper(p.kind)));
      }
      var info := invoices[inv].info;
      if info.docstatus != Submitted {
        return Held(InvoiceNotSubmitted);
      }
      match QuoteOf(h, info, billId, p) {
        case Unpriced(reason) => return Held(reason);
        case Priced(terms) =>
          if dry {
            return WouldCreate;
          }
          var available := AvailableOutstanding(h.settings.name, inv, None);
          var name := CreateEntry(terms, inv, Allocation(terms, available), None, h.settings.submitDocuments);
          outcome := Created(name, h.settings.submitDocuments);
      }
    }

    method ImportObservations(h: Host, inv: string, billId: string, observations: seq<Payment>, dry: bool)
      returns (results: seq<Outcome>)
      requires Valid() && inv in invoices
      modifies this
      ensures Valid() && (State(), results) == ImportFrom(h, old(State()), inv, billId, observations, 0, dry)
    {
      results := [];
      for k := 0 to |observations|
        invariant Valid()
        invariant ImportedTo(h, old(State()), State(), inv, billId, observations, k, dry, results)
      {
        ImportedOneMore(h, old(State()), State(), inv, billId, observations, k, dry, results);
        var outcome := ImportBillPayment(h, inv, billId, observations[k], dry);
        results := results + [outcome];
      }
      ImportedAll(h, old(State()), State(), inv, billId, observations, dry, results);
    }

    method WithdrawUnobserved(rows: seq<nat>, observed: set<string>, dry: bool) returns (results: seq<Outcome>)
      requires Valid()
      modifies this
      ensures Valid() && (State(), results) == Withdraw(old(State()), rows, observed, dry)
    {
      results := [];
      assert rows[0..] == rows;
      for k := 0 to |rows|
        invariant Valid()
        invariant WithdrawnTo(old(State()), State(), rows, rows[k..], observed, dry, results)
      {
        var n := rows[k];
        assert rows[k..][1..] == rows[k + 1..];
        WithdrawnOneMore(old(State()), State(), rows, rows[k..], observed, dry, results);
        if n !in entries || !Withdrawn(entries[n], observed) {
          continue;
        }
        var outcome := WouldRemove(n, NotInBill);
        if !dry {
          outcome := RemovePaymentEntry(n, NotInBill);
        }
        results := results + [outcome];
      }
      assert results + [] == results;
    }

    /** Imports every observed payment, then removes the linked entries the bill no longer shows. */
    method ImportBillPayments(h: Host, inv: string, bill: Bill, dry: bool) returns (results: seq<Outcome>)
      requires Valid() && inv in invoices
      modifies this
      ensures Valid() && (State(), results) == Reconciled(h, old(State()), inv, bill, dry)
    {
      var observations := if bill.payments.Some? then bill.payments.value else [];
      results := ImportObservations(h, inv, bill.id, observations, dry);
      if bill.payments.None? {
        return;
      }
      var rows := Linked(entries, h.settings.name, inv, nextName);
      var removed := WithdrawUnobserved(rows, Ids(observations), dry);
      results := results + removed;
    }
  }
}
