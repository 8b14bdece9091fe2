/** A single reconciliation of a bill: what it withdraws and leaves alone, and how much it allocates. */
module PaymentBills {
  import opened Options
  import opened PaymentModel
  import opened PaymentEffects
  import opened PaymentSteps
  import opened PaymentWithdrawals
  import opened PaymentPasses
  import opened PaymentConvergence
  import opened PaymentLimits

  // ---------------------------------------------------------------- withdrawals

  lemma ImportLeavesUnobserved(h: Host, l: Ledger, inv: string, billId: string, p: Payment, ids: set<string>)
    requires Valid(l, h.settings.name) && inv in l.invoices && p.Id() in ids
    ensures var l' := Import(h, l, inv, billId, p, false).0;
            && Valid(l', h.settings.name) && SameInvoices(l, l') && l.nextName <= l'.nextName
            && forall n | n in l.entries && !Observed(l.entries[n], ids) :: At(l', n) == At(l, n)
  {
    ImportFrame(h, l, inv, billId, p);
  }

  lemma {:induction false} SweepFrame(h: Host, l: Ledger, inv: string, billId: string, ps: seq<Payment>, k: nat)
    requires Valid(l, h.settings.name) && inv in l.invoices && k <= |ps|
    ensures var l' := ImportFrom(h, l, inv, billId, ps, k, false).0;
            && Valid(l', h.settings.name) && SameInvoices(l, l') && l.nextName <= l'.nextName
            && (forall n | n in l.entries && !Observed(l.entries[n], Ids(ps)) :: At(l', n) == At(l, n))
    decreases |ps| - k
  {
    if k < |ps| {
      var l1 := Import(h, l, inv, billId, ps[k], false).0;
      assert ps[k] in ps;
      ImportLeavesUnobserved(h, l, inv, billId, ps[k], Ids(ps));
      SweepFrame(h, l1, inv, billId, ps, k + 1);
      forall n | n in l.entries && !Observed(l.entries[n], Ids(ps))
        ensures At(ImportFrom(h, l, inv, billId, ps, k, false).0, n) == At(l, n)
      {
        assert At(l1, n) == At(l, n);
      }
    }
  }

  /** The entry carries an id the bill shows. */
  predicate Observed(e: Entry, ids: set<string>) {
    e.paymentId != "" && e.paymentId in ids
  }

  /** The entry belongs to the invoice under these settings and the bill does not show its payment. */
  predicate Vanished(e: Entry, settings: string, inv: string, ids: set<string>) {
    e.settings == settings && Links(e, inv) && Withdrawn(e, ids)
  }

  /** In terms of the fields: the row's id is the payment id, or for want of one the reference number. */
  lemma VanishedMeans(e: Entry, settings: string, inv: string, ps: seq<Payment>)
    ensures Vanished(e, settings, inv, Ids(ps)) <==>
              && e.settings == settings
              && (exists r | r in e.references :: r.isInvoice && r.name == inv)
              && var id := if e.paymentId != "" then e.paymentId else e.referenceNo;
                 id != "" && forall p | p in ps :: p.Id() != id
    ensures Removed(e) == if e.docstatus == Draft then None
                          else Some(if e.docstatus == Submitted then e.(paymentId := "", docstatus := Cancelled) else e)
  {
  }

  lemma WithdrawalAfter(h: Host, l: Ledger, l1: Ledger, l': Ledger, inv: string, ids: set<string>)
    requires WithdrewExactly(l1, l', Linked(l1.entries, h.settings.name, inv, l1.nextName), ids)
    requires Valid(l1, h.settings.name)
    requires forall n | n in l.entries && !Observed(l.entries[n], ids) :: At(l1, n) == At(l, n)
    ensures OnlyShown(l', h.settings.name, inv, ids) && ExactlyVanishedGo(l, l', h.settings.name, inv, ids)
  {
    forall n | n in l'.entries && l'.entries[n].Live() && l'.entries[n].settings == h.settings.name
               && Links(l'.entries[n], inv) && RowId(l'.entries[n]) != ""
      ensures RowId(l'.entries[n]) in ids
    {
      assert At(l', n) == Some(l'.entries[n]);
      assert At(l1, n).Some?;
    }
    forall n | n in l.entries && !Observed(l.entries[n], ids)
      ensures At(l', n) == if Vanished(l.entries[n], h.settings.name, inv, ids)
                           then Removed(l.entries[n]) else Some(l.entries[n])
    {
      assert At(l1, n) == At(l, n);
    }
  }

  /** Every live entry on the invoice with an identity is one the bill shows. */
  ghost predicate OnlyShown(l: Ledger, settings: string, inv: string, ids: set<string>) {
    forall n | n in l.entries && l.entries[n].Live() && l.entries[n].settings == settings
               && Links(l.entries[n], inv) && RowId(l.entries[n]) != "" ::
      RowId(l.entries[n]) in ids
  }

  /**
   * Of the entries whose id the bill does not show, those that vanished from it are removed, and no
   * other is touched.
   */
  ghost predicate ExactlyVanishedGo(l: Ledger, l': Ledger, settings: string, inv: string, ids: set<string>) {
    forall n | n in l.entries && !Observed(l.entries[n], ids) ::
      At(l', n) == if Vanished(l.entries[n], settings, inv, ids) then Removed(l.entries[n]) else Some(l.entries[n])
  }

  /**
   * Withdrawal is complete and exact for a bill that shows its payments; a bill without payment data
   * shows nothing about them and changes nothing.
   */
  lemma WithdrawalIsCompleteAndExact(h: Host, l: Ledger, inv: string, bill: Bill)
    requires Valid(l, h.settings.name) && inv in l.invoices
    ensures var l' := Reconciled(h, l, inv, bill, false).0;
            match bill.payments
            case None => l' == l
            case Some(ps) =>
              OnlyShown(l', h.settings.name, inv, Ids(ps)) && ExactlyVanishedGo(l, l', h.settings.name, inv, Ids(ps))
  {
    if bill.payments.Some? {
      var s, ps := h.settings.name, bill.payments.value;
      var l1 := ImportFrom(h, l, inv, bill.id, ps, 0, false).0;
      var names := Linked(l1.entries, s, inv, l1.nextName);
      var l' := Withdraw(l1, names, Ids(ps), false).0;
      SweepFrame(h, l, inv, bill.id, ps, 0);
      WithdrawIsExact(l1, s, names, Ids(ps), inv);
      WithdrawalAfter(h, l, l1, l', inv, Ids(ps));
    }
  }

  // ---------------------------------------------------------------- the first import of a bill

  /** What a payment amounts to on the invoice, nothing if it is not creatable. */
  function Want(y: Sync, p: Payment): (w: int)
    ensures w >= 0
  {
    if p.Id() != "" && y.Creates(p) then
      TermsOf(y.host, y.info, y.billId, p);
      QuoteOf(y.host, y.info, y.billId, p).terms.invoiceAmount
    else 0
  }

  /** What the bill's creatable payments, from index `k` on, amount to on the invoice. */
  function Wanted(y: Sync, k: nat): int
    requires k <= |y.payments|
    decreases |y.payments| - k
  {
    if k == |y.payments| then 0
    else
      Want(y, y.payments[k]) + Wanted(y, k + 1)
  }

  /** What the payment's entry holds of the invoice. */
  function Held(y: Sync, l: Ledger, p: Payment): int {
    if p.Id() != "" && Holding(l, p.Id()).Some? then AllocatedTo(Holding(l, p.Id()).value.references, y.inv) else 0
  }

  /** What the entries of the payments from index `k` on hold of the invoice. */
  function Booked(y: Sync, l: Ledger, k: nat): int
    requires k <= |y.payments|
    decreases |y.payments| - k
  {
    if k == |y.payments| then 0 else Held(y, l, y.payments[k]) + Booked(y, l, k + 1)
  }

  ghost predicate NewFrom(y: Sync, l: Ledger, k: nat) {
    forall i | k <= i < |y.payments| && y.payments[i].Id() != "" :: Holding(l, y.payments[i].Id()).None?
  }

  lemma {:induction false} WantedIsNonNegative(y: Sync, k: nat)
    requires k <= |y.payments|
    ensures Wanted(y, k) >= 0
    decreases |y.payments| - k
  {
    if k < |y.payments| {
      WantedIsNonNegative(y, k + 1);
    }
  }

  lemma StepKeepsNew(y: Sync, l: Ledger, k: nat)
    requires y.Fits(l) && y.Distinct() && k < |y.payments| && NewFrom(y, l, k)
    ensures NewFrom(y, y.Import1(l, y.payments[k]), k + 1)
  {
    forall i | k + 1 <= i < |y.payments| && y.payments[i].Id() != ""
      ensures Holding(y.Import1(l, y.payments[k]), y.payments[i].Id()).None?
    {
      DistinctIds(y, k, i);
      y.StepKeepsOthers(l, y.payments[k], y.payments[i].Id());
    }
  }

  /** What later steps leave of the entry that step `k` made. */
  lemma LaterStepsKeep(y: Sync, l: Ledger, k: nat)
    requires y.Fits(l) && y.Distinct() && k < |y.payments|
    ensures Held(y, y.From(l, k), y.payments[k]) == Held(y, y.Import1(l, y.payments[k]), y.payments[k])
  {
    var p, l1 := y.payments[k], y.Import1(l, y.payments[k]);
    y.StepFits(l, p);
    if p.Id() != "" {
      forall i | k + 1 <= i < |y.payments| ensures y.payments[i].Id() != p.Id() {
        DistinctIds(y, i, k);
      }
      SweepKeepsOthers(y, l1, k + 1, p.Id());
    }
    SweepStep(y, l, k);
  }

  /** A new payment takes its amount or the room that is left, and nothing if it is not creatable. */
  lemma NewPaymentTakes(y: Sync, l: Ledger, p: Payment)
    requires y.Fits(l) && (p.Id() != "" ==> Holding(l, p.Id()).None?)
    ensures var l1 := y.Import1(l, p);
            && y.Fits(l1)
            && Held(y, l1, p) == Min(Max(0, y.Left(l)), Want(y, p))
            && y.Left(l1) == y.Left(l) - Held(y, l1, p)
  {
    y.StepFits(l, p);
    if p.Id() == "" {
      EmptyIdIsTrivial(y, l, p);
    } else {
      AdmitStep(y.host, l, y.inv, y.billId, p, y.inv);
      if y.Creates(p) {
        TermsOf(y.host, y.info, y.billId, p);
        SingleReference(y.inv, Allocation(QuoteOf(y.host, y.info, y.billId, p).terms, Max(0, y.Left(l))), y.inv);
      }
    }
  }

  lemma TakingTwice(room: int, v: int, w: int)
    requires v >= 0 && w >= 0
    ensures var first := Min(Max(0, room), v);
            first + Min(Max(0, room - first), w) == Min(Max(0, room), v + w)
  {
  }

  /** One step of such a sweep: what payment `k` takes, and what the rest of the sweep finds. */
  lemma SweepTakes(y: Sync, l: Ledger, k: nat) returns (held: int)
    requires y.Fits(l) && y.Distinct() && k < |y.payments| && NewFrom(y, l, k)
    ensures var l1 := y.Import1(l, y.payments[k]);
            && y.Fits(l1) && NewFrom(y, l1, k + 1) && y.From(l, k) == y.From(l1, k + 1)
            && held == Min(Max(0, y.Left(l)), Want(y, y.payments[k])) && y.Left(l1) == y.Left(l) - held
            && Booked(y, y.From(l, k), k) == held + Booked(y, y.From(l, k), k + 1)
    ensures Wanted(y, k) == Want(y, y.payments[k]) + Wanted(y, k + 1)
  {
    var p := y.payments[k];
    held := Held(y, y.Import1(l, p), p);
    NewPaymentTakes(y, l, p);
    StepKeepsNew(y, l, k);
    LaterStepsKeep(y, l, k);
    SweepStep(y, l, k);
  }

  /** A sweep over new payments books as much of them as there is room for. */
  lemma {:induction false} SweepBooks(y: Sync, l: Ledger, k: nat)
    requires y.Fits(l) && y.Distinct() && k <= |y.payments| && NewFrom(y, l, k)
    ensures Booked(y, y.From(l, k), k) == Min(Max(0, y.Left(l)), Wanted(y, k))
    ensures y.Left(y.From(l, k)) == y.Left(l) - Booked(y, y.From(l, k), k)
    decreases |y.payments| - k
  {
    if k < |y.payments| {
      var held := SweepTakes(y, l, k);
      WantedIsNonNegative(y, k + 1);
      SweepBooks(y, y.Import1(l, y.payments[k]), k + 1);
      SweepAdds(y, l, y.Import1(l, y.payments[k]), y.From(l, k), k, held);
    }
  }

  lemma SweepAdds(y: Sync, l: Ledger, l1: Ledger, l': Ledger, k: nat, held: int)
    requires k < |y.payments| && y.inv in l.invoices && y.inv in l1.invoices && y.inv in l'.invoices
    requires held == Min(Max(0, y.Left(l)), Want(y, y.payments[k])) && y.Left(l1) == y.Left(l) - held
    requires Booked(y, l', k) == held + Booked(y, l', k + 1)
    requires Wanted(y, k) == Want(y, y.payments[k]) + Wanted(y, k + 1)
    requires Booked(y, l', k + 1) == Min(Max(0, y.Left(l1)), Wanted(y, k + 1)) && Wanted(y, k + 1) >= 0
    requires y.Left(l') == y.Left(l1) - Booked(y, l', k + 1)
    ensures Booked(y, l', k) == Min(Max(0, y.Left(l)), Wanted(y, k)) && y.Left(l') == y.Left(l) - Booked(y, l', k)
  {
    TakingTwice(y.Left(l), Want(y, y.payments[k]), Wanted(y, k + 1));
  }

  /** No payment of the bill has an entry yet, and no live entry on the invoice would be withdrawn. */
  ghost predicate FirstImport(y: Sync, l: Ledger) {
    y.Fits(l) && y.Distinct() && NewFrom(y, l, 0) && y.Clean(l)
  }

  lemma {:induction false} SweepStaysClean(y: Sync, l: Ledger, k: nat)
    requires y.Fits(l) && y.Clean(l) && k <= |y.payments|
    ensures y.Clean(y.From(l, k))
    decreases |y.payments| - k
  {
    if k < |y.payments| {
      StepKeepsClean(y, l, k);
      y.StepFits(l, y.payments[k]);
      SweepStaysClean(y, y.Import1(l, y.payments[k]), k + 1);
    }
  }

  /**
   * Greedy maximality: the first import of a bill allocates the smaller of the room on the invoice
   * and the sum of its creatable payments, and takes exactly that from the room.
   */
  lemma FirstImportIsMaximal(y: Sync, l: Ledger)
    requires FirstImport(y, l)
    ensures Booked(y, y.Pass(l), 0) == Min(Max(0, y.Left(l)), Wanted(y, 0))
    ensures y.Left(y.Pass(l)) == y.Left(l) - Booked(y, y.Pass(l), 0)
  {
    SweepBooks(y, l, 0);
    SweepStaysClean(y, l, 0);
    CleanPassIsASweep(y, l);
  }

  ghost predicate RestingUpTo(y: Sync, l: Ledger, k: nat)
    requires y.inv in l.invoices && k <= |y.payments|
  {
    forall i | 0 <= i < k :: Resting(y, l, y.payments[i])
  }

  lemma NewPaymentIsResting(y: Sync, l: Ledger, p: Payment)
    requires y.Fits(l) && y.Settles(l, p) && (p.Id() != "" ==> Holding(l, p.Id()).None?)
    ensures y.Fits(y.Import1(l, p)) && Resting(y, y.Import1(l, p), p)
  {
    y.StepPlaces(l, p);
    if p.Id() == "" {
      EmptyIdIsTrivial(y, l, p);
    } else {
      y.AdmitPlaces(l, p);
    }
  }

  lemma NewPaymentRests(y: Sync, l: Ledger, k: nat)
    requires y.Fits(l) && y.Distinct() && AllSettle(y, l) && k < |y.payments| && NewFrom(y, l, k)
    requires RestingUpTo(y, l, k)
    ensures var l1 := y.Import1(l, y.payments[k]); y.Fits(l1) && RestingUpTo(y, l1, k + 1)
  {
    var l1 := y.Import1(l, y.payments[k]);
    NewPaymentIsResting(y, l, y.payments[k]);
    forall i | 0 <= i < k + 1 ensures Resting(y, l1, y.payments[i]) {
      if i < k {
        StepKeepsResting(y, l, k, i);
      }
    }
  }

  lemma {:induction false} FirstSweepFills(y: Sync, l: Ledger, k: nat)
    requires y.Fits(l) && y.Distinct() && k <= |y.payments| && NewFrom(y, l, k) && AllSettle(y, l)
    requires RestingUpTo(y, l, k)
    ensures var l' := y.From(l, k); y.Fits(l') && RestingUpTo(y, l', |y.payments|)
    decreases |y.payments| - k
  {
    if k < |y.payments| {
      NewPaymentRests(y, l, k);
      StepKeepsAllSettled(y, l, k);
      StepKeepsNew(y, l, k);
      SweepStep(y, l, k);
      FirstSweepFills(y, y.Import1(l, y.payments[k]), k + 1);
    }
  }

  /** Importing the payment again would change nothing. */
  predicate Resting(y: Sync, l: Ledger, p: Payment)
    requires y.inv in l.invoices
  {
    y.Placed(l, p) && y.Filled(l, p) && !y.Astray(l, p)
  }

  lemma StepKeepsResting(y: Sync, l: Ledger, k: nat, i: nat)
    requires y.Fits(l) && y.Distinct() && AllSettle(y, l) && i < k < |y.payments| && NewFrom(y, l, k)
    requires Resting(y, l, y.payments[i])
    ensures y.inv in y.Import1(l, y.payments[k]).invoices && Resting(y, y.Import1(l, y.payments[k]), y.payments[i])
  {
    var p, q := y.payments[k], y.payments[i];
    DistinctIds(y, i, k);
    NewPaymentTakes(y, l, p);
    if q.Id() != p.Id() {
      y.StepKeepsPlaced(l, p, q);
      y.StepKeepsVerdicts(l, p, q);
    } else {
      EmptyIdIsTrivial(y, l, p);
    }
  }

  lemma RestingStepIsIdle(y: Sync, l: Ledger, p: Payment)
    requires y.Fits(l) && Resting(y, l, p)
    ensures y.Import1(l, p) == l
  {
    y.StepFills(l, p);
  }

  lemma {:induction false} RestingSweepIsIdle(y: Sync, l: Ledger, k: nat)
    requires y.Fits(l) && k <= |y.payments| && RestingUpTo(y, l, |y.payments|)
    ensures y.From(l, k) == l
    decreases |y.payments| - k
  {
    if k < |y.payments| {
      RestingStepIsIdle(y, l, y.payments[k]);
      SweepStep(y, l, k);
      RestingSweepIsIdle(y, l, k + 1);
    }
  }

  /** An immediate re-import of a bill without contradictory payments is a no-op. */
  lemma ReimportIsANoOp(y: Sync, l: Ledger)
    requires FirstImport(y, l) && AllSettle(y, l)
    ensures y.Pass(y.Pass(l)) == y.Pass(l)
  {
    SweepStaysClean(y, l, 0);
    CleanPassIsASweep(y, l);
    FirstSweepFills(y, l, 0);
    var l' := y.Pass(l);
    RestingSweepIsIdle(y, l', 0);
    CleanPassIsASweep(y, l');
  }

  // ---------------------------------------------------------------- what a reconciliation reports

  /** The ledger that payment `k` of the bill finds. */
  function FoundBy(h: Host, l: Ledger, inv: string, billId: string, ps: seq<Payment>, k: nat, dry: bool): (r: Ledger)
    requires inv in l.invoices && k <= |ps|
    ensures inv in r.invoices
  {
    if k == 0 then l
    else Import(h, FoundBy(h, l, inv, billId, ps, k - 1, dry), inv, billId, ps[k - 1], dry).0
  }

  /** The results from payment `k` on, each on the ledger that its payment finds. */
  function Results(h: Host, l: Ledger, inv: string, billId: string, ps: seq<Payment>, k: nat, dry: bool): seq<Outcome>
    requires inv in l.invoices && k <= |ps|
    decreases |ps| - k
  {
    if k == |ps| then []
    else [Import(h, FoundBy(h, l, inv, billId, ps, k, dry), inv, billId, ps[k], dry).1]
         + Results(h, l, inv, billId, ps, k + 1, dry)
  }

  lemma {:induction false} SweepReports(h: Host, l: Ledger, inv: string, billId: string, ps: seq<Payment>, k: nat,
                                        dry: bool)
    requires inv in l.invoices && k <= |ps|
    ensures ImportFrom(h, FoundBy(h, l, inv, billId, ps, k, dry), inv, billId, ps, k, dry)
            == (FoundBy(h, l, inv, billId, ps, |ps|, dry), Results(h, l, inv, billId, ps, k, dry))
    decreases |ps| - k
  {
    if k == |ps| {
      assert Results(h, l, inv, billId, ps, k, dry) == [];
    } else {
      SweepReports(h, l, inv, billId, ps, k + 1, dry);
      OneReportMore(h, l, inv, billId, ps, k, dry, FoundBy(h, l, inv, billId, ps, |ps|, dry),
                    Results(h, l, inv, billId, ps, k + 1, dry));
    }
  }

  lemma OneReportMore(h: Host, l: Ledger, inv: string, billId: string, ps: seq<Payment>, k: nat, dry: bool, end: Ledger,
                      results: seq<Outcome>)
    requires inv in l.invoices && k < |ps| && results == Results(h, l, inv, billId, ps, k + 1, dry)
    requires ImportFrom(h, FoundBy(h, l, inv, billId, ps, k + 1, dry), inv, billId, ps, k + 1, dry) == (end, results)
    ensures ImportFrom(h, FoundBy(h, l, inv, billId, ps, k, dry), inv, billId, ps, k, dry)
            == (end, Results(h, l, inv, billId, ps, k, dry))
  {
    SplitsOff(h, FoundBy(h, l, inv, billId, ps, k, dry), inv, billId, ps, k, dry);
    OneResultMore(h, l, inv, billId, ps, k, dry);
  }

  lemma OneResultMore(h: Host, l: Ledger, inv: string, billId: string, ps: seq<Payment>, k: nat, dry: bool)
    requires inv in l.invoices && k < |ps|
    ensures var (next, outcome) := Import(h, FoundBy(h, l, inv, billId, ps, k, dry), inv, billId, ps[k], dry);
            && FoundBy(h, l, inv, billId, ps, k + 1, dry) == next
            && Results(h, l, inv, billId, ps, k, dry) == [outcome] + Results(h, l, inv, billId, ps, k + 1, dry)
  {
  }

  lemma SplitsOff(h: Host, l: Ledger, inv: string, billId: string, ps: seq<Payment>, k: nat, dry: bool)
    requires inv in l.invoices && k < |ps|
    ensures var (l1, outcome) := Import(h, l, inv, billId, ps[k], dry);
            var rest := ImportFrom(h, l1, inv, billId, ps, k + 1, dry);
            ImportFrom(h, l, inv, billId, ps, k, dry) == (rest.0, [outcome] + rest.1)
  {
  }

  /** The results are first one for each payment in order, then one for each entry withdrawn. */
  lemma ResultsAreInOrder(h: Host, l: Ledger, inv: string, billId: string, ps: seq<Payment>, dry: bool)
    requires inv in l.invoices
    ensures var l1 := FoundBy(h, l, inv, billId, ps, |ps|, dry);
            Reconciled(h, l, inv, Bill(billId, Some(ps)), dry).1
            == Results(h, l, inv, billId, ps, 0, dry)
               + Reports(l1, Linked(l1.entries, h.settings.name, inv, l1.nextName), Ids(ps), dry)
  {
    var l1 := FoundBy(h, l, inv, billId, ps, |ps|, dry);
    SweepReports(h, l, inv, billId, ps, 0, dry);
    LinkedOnce(l1.entries, h.settings.name, inv, l1.nextName);
    WithdrawalReports(l1, Linked(l1.entries, h.settings.name, inv, l1.nextName), Ids(ps), dry);
  }

  lemma {:induction false} LinkedOnce(entries: map<nat, Entry>, settings: string, inv: string, n: nat)
    ensures Once(Linked(entries, settings, inv, n))
  {
    if n != 0 {
      LinkedOnce(entries, settings, inv, n - 1);
      var lower := Linked(entries, settings, inv, n - 1);
      forall i | 0 <= i < |lower| ensures lower[i] < n - 1 {
        assert lower[i] in lower;
      }
    }
  }
}
