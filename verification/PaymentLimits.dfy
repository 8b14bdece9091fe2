/** Where repetition does not help: bills that never come to rest, and a bill that needs its extra pass. */
module PaymentLimits {
  import opened Options
  import opened ExchangeRates
  import opened PaymentModel
  import opened PaymentEffects
  import opened PaymentSteps
  import opened PaymentWithdrawals
  import opened PaymentPasses
  import opened PaymentConvergence

  // ---------------------------------------------------------------- a bill that never rests

  lemma {:induction false} SweepFits(y: Sync, l: Ledger, k: nat)
    requires y.Fits(l) && k <= |y.payments|
    ensures y.Fits(y.From(l, k))
    decreases |y.payments| - k
  {
    if k < |y.payments| {
      y.StepFits(l, y.payments[k]);
      SweepFits(y, y.Import1(l, y.payments[k]), k + 1);
    }
  }

  lemma {:induction false} SweepKeepsOthers(y: Sync, l: Ledger, k: nat, id: string)
    requires y.Fits(l) && k <= |y.payments| && id != ""
    requires forall i | k <= i < |y.payments| :: y.payments[i].Id() != id
    ensures Holding(y.From(l, k), id) == Holding(l, id)
    decreases |y.payments| - k
  {
    if k < |y.payments| {
      y.StepFits(l, y.payments[k]);
      y.StepKeepsOthers(l, y.payments[k], id);
      SweepKeepsOthers(y, y.Import1(l, y.payments[k]), k + 1, id);
    }
  }

  /** An entry appears where there was none, or disappears where there was a live one. */
  predicate Flipped(before: Option<Entry>, after: Option<Entry>) {
    match before
    case None => after.Some? && after.value.Live()
    case Some(e) => e.Live() && after.None?
  }

  lemma {:induction false} SweepFlips(y: Sync, l: Ledger, k: nat, j: nat)
    requires y.Fits(l) && y.Distinct() && k <= j < |y.payments|
    requires y.Contradictory(y.payments[j]) && !y.Blocked(l, y.payments[j])
    ensures Flipped(Holding(l, y.payments[j].Id()), Holding(y.From(l, k), y.payments[j].Id()))
    decreases j - k
  {
    var p, id := y.payments[k], y.payments[j].Id();
    y.StepFits(l, p);
    if k < j {
      DistinctIds(y, j, k);
      y.StepKeepsOthers(l, p, id);
      SweepFlips(y, y.Import1(l, p), k + 1, j);
    } else {
      if Holding(l, id).None? {
        AdmitStep(y.host, l, y.inv, y.billId, p, y.inv);
      } else {
        RetireStep(y.host, l, y.inv, y.billId, p, y.inv);
      }
      SweepKeepsOthers(y, y.Import1(l, p), k + 1, id);
    }
  }

  /** An ended payment that would still be created is booked and withdrawn in turn, pass after pass. */
  lemma PassFlips(y: Sync, l: Ledger, j: nat)
    requires y.Fits(l) && y.Distinct() && j < |y.payments|
    requires y.Contradictory(y.payments[j]) && !y.Blocked(l, y.payments[j])
    ensures y.Fits(y.Pass(l)) && Flipped(Holding(l, y.payments[j].Id()), Holding(y.Pass(l), y.payments[j].Id()))
  {
    SweepFits(y, l, 0);
    SweepFlips(y, l, 0, j);
    WithdrawalStage(y, y.From(l, 0));
  }

  /** Payment `j` of the bill is one that each pass books or withdraws. */
  ghost predicate Restless(y: Sync, l: Ledger, j: nat) {
    && y.Fits(l) && y.Distinct() && j < |y.payments|
    && y.Contradictory(y.payments[j]) && !y.Blocked(l, y.payments[j])
  }

  lemma PassMoves(y: Sync, l: Ledger, j: nat)
    requires Restless(y, l, j)
    ensures Restless(y, y.Pass(l), j) && y.Pass(l) != l
  {
    PassFlips(y, l, j);
  }

  lemma {:induction false} NeverRests(y: Sync, l: Ledger, j: nat, n: nat)
    requires Restless(y, l, j)
    ensures y.Pass(y.PassN(l, n)) != y.PassN(l, n)
    decreases n
  {
    PassMoves(y, l, j);
    if n == 0 {
      assert y.PassN(l, n) == l;
    } else {
      assert y.PassN(l, n) == y.PassN(y.Pass(l), n - 1);
      NeverRests(y, y.Pass(l), j, n - 1);
    }
  }

  ghost predicate RestsAfter(y: Sync, l: Ledger, n: nat)
    requires y.inv in l.invoices
  {
    y.Pass(y.PassN(l, n)) == y.PassN(l, n)
  }

  /**
   * Reconciling a bill over and over comes to rest if and only if every payment the bill shows as
   * ended is one it would not create, or one whose entry an operator has cancelled.
   */
  lemma RestsExactlyWhenAllSettle(y: Sync, l: Ledger)
    requires y.Fits(l) && y.Distinct()
    ensures (exists n: nat :: RestsAfter(y, l, n)) <==> AllSettle(y, l)
  {
    if AllSettle(y, l) {
      Converges(y, l);
      assert RestsAfter(y, l, 2 + y.Astrays(l));
    } else {
      var p :| p in y.payments && !y.Settles(l, p);
      var j :| 0 <= j < |y.payments| && y.payments[j] == p;
      forall n: nat ensures !RestsAfter(y, l, n) {
        NeverRests(y, l, j, n);
      }
    }
  }

  // ---------------------------------------------------------------- a bill that needs a third pass

  const NO_KEYS := RateKeys(None, None, None)
  const NO_TRANSFER := Transfer("", "", "", None, None, NO_KEYS, "")
  const DOLLAR_HOST := Host(Settings("AWX", true, false, "USD"), map["USD" := "Bank"], map[], [], {}, 0)
  const DOLLAR_INVOICE := InvoiceInfo(Submitted, "", "Acme", "USD", "")

  function DollarTransfer(id: string, amount: real): Payment {
    Payment(id, "", "TRANSFER", "PAID", "USD", Some(amount), None, Some(1), None, NO_KEYS, "", NO_TRANSFER)
  }

  function DollarTerms(id: string, cents: int): Terms {
    Terms(id, "AWX", "B", cents, cents, cents, 1.0, 1.0, 1.0, 1, "", "Acme", "Bank", "")
  }

  lemma DollarQuote(id: string, cents: int)
    requires cents > 0 && id != ""
    ensures var p := DollarTransfer(id, Money.Units(cents));
            && QuoteOf(DOLLAR_HOST, DOLLAR_INVOICE, "B", p) == Priced(DollarTerms(id, cents))
            && !p.Retired() && p.Supported() && p.Id() == id
  {
    var p := DollarTransfer(id, Money.Units(cents));
    Money.RoundingIsIdempotent(cents);
    assert Text.Upper("TRANSFER") == "TRANSFER";
    assert Text.Upper("PAID") == "PAID";
    assert AmountOf(p) == cents;
    assert Converted(cents, 1.0, 1.0) == cents by {
      var base := Money.Units(cents) * 1.0;
      assert base == Money.Units(cents) && base / 1.0 == base;
    }
    assert Text.Strip("USD") == "USD";
    assert Text.Upper("USD") == "USD";
  }

  /**
   * p1 is booked on invoice J for 1.00. On invoice I, of 2.00, sit a draft of px, which the bill does
   * not show, while `stray`, and p2's draft, if any, with the given share.
   */
  function Crossed(stray: bool, share2: Option<int>): Ledger {
    var booked := map[0 := FreshEntry(DollarTerms("p1", 100), "J", 100, None)];
    var drafts := if stray then booked[1 := FreshEntry(DollarTerms("px", 100), "I", 100, None)] else booked;
    Ledger(if share2.Some? then drafts[2 := FreshEntry(DollarTerms("p2", 150), "I", share2.value, None)] else drafts,
           map["I" := Invoice(DOLLAR_INVOICE, 200), "J" := Invoice(DOLLAR_INVOICE, 100)],
           if share2.Some? then 3 else 2)
  }

  function CrossedSync(): Sync {
    Sync(DOLLAR_HOST, "I", DOLLAR_INVOICE, "B",
         [DollarTransfer("p1", Money.Units(100)), DollarTransfer("p2", Money.Units(150))])
  }

  lemma CrossedRoom(stray: bool, share2: Option<int>)
    requires share2.Some? ==> share2.value > 0
    ensures var l := Crossed(stray, share2);
            && Room(l, "AWX", "I") == 200 - (if stray then 100 else 0) - (if share2.Some? then share2.value else 0)
            && AllocatedTo(l.entries[0].references, "I") == 0 && AllocatedInAll(l.entries[0].references) == 100
            && (share2.Some? ==> AllocatedTo(l.entries[2].references, "I") == share2.value)
  {
    var l := Crossed(stray, share2);
    SingleReference("J", 100, "I");
    SingleReference("I", 100, "I");
    if share2.Some? {
      SingleReference("I", share2.value, "I");
    }
    var g := Drafts("AWX", "I");
    assert Sum(l.entries, g, 1) == WeightAt(l.entries, g, 0) == 0;
    assert Sum(l.entries, g, 2) == WeightAt(l.entries, g, 1);
    assert share2.Some? ==> Sum(l.entries, g, 3) == Sum(l.entries, g, 2) + WeightAt(l.entries, g, 2);
  }

  lemma CrossedFacts(stray: bool, share2: Option<int>)
    requires share2.Some? ==> share2.value > 0
    ensures var l := Crossed(stray, share2);
            && CrossedSync().Fits(l)
            && Holder(l, "p1") == Some(0)
            && Holder(l, "p2") == (if share2.Some? then Some(2) else None)
  {
    var l := Crossed(stray, share2);
    CrossedFits(stray, share2);
    HolderIsUnique(l, "AWX", 0);
    if share2.Some? {
      HolderIsUnique(l, "AWX", 2);
    }
  }

  lemma CrossedFits(stray: bool, share2: Option<int>)
    requires share2.Some? ==> share2.value > 0
    ensures CrossedSync().Fits(Crossed(stray, share2))
  {
  }

  lemma CrossedP1IsAstray(stray: bool, share2: Option<int>)
    requires share2.Some? ==> 0 < share2.value <= 150
    ensures var y, l := CrossedSync(), Crossed(stray, share2);
            y.Fits(l) && y.Kept(l, y.payments[0]) && y.Astray(l, y.payments[0])
  {
    CrossedFacts(stray, share2);
    CrossedRoom(stray, share2);
    DollarQuote("p1", 100);
  }

  lemma CrossedP1Moves(stray: bool, share2: Option<int>)
    requires share2.Some? ==> 0 < share2.value <= 150
    requires Room(Crossed(stray, share2), "AWX", "I") < 100
    ensures var y, l := CrossedSync(), Crossed(stray, share2);
            y.inv in l.invoices && y.Import1(l, y.payments[0]) != l
  {
    var y, l := CrossedSync(), Crossed(stray, share2);
    CrossedP1IsAstray(stray, share2);
    CrossedRoom(stray, share2);
    DollarQuote("p1", 100);
    y.AdjustPlaces(l, y.payments[0]);
  }

  lemma CrossedP1IsTuned(stray: bool, share2: Option<int>)
    requires share2.Some? ==> 0 < share2.value <= 150
    requires Room(Crossed(stray, share2), "AWX", "I") >= 100
    ensures var l, terms := Crossed(stray, share2), DollarTerms("p1", 100);
            Due(l, "AWX", "I", terms, l.entries[0]) == 100 && Tuned(l.entries[0], terms, "I", 100)
  {
    CrossedRoom(stray, share2);
  }

  lemma CrossedP1Stays(stray: bool, share2: Option<int>)
    requires share2.Some? ==> 0 < share2.value <= 150
    requires Room(Crossed(stray, share2), "AWX", "I") >= 100
    ensures var y, l := CrossedSync(), Crossed(stray, share2);
            y.inv in l.invoices && y.Import1(l, y.payments[0]) == l
  {
    var y, l := CrossedSync(), Crossed(stray, share2);
    CrossedP1IsAstray(stray, share2);
    CrossedFacts(stray, share2);
    CrossedP1IsTuned(stray, share2);
    DollarQuote("p1", 100);
    AdjustStep(y.host, l, "I", "B", y.payments[0], "I");
  }

  lemma CrossedP1(stray: bool, share2: Option<int>)
    requires share2.Some? ==> 0 < share2.value <= 150
    ensures var y, l := CrossedSync(), Crossed(stray, share2);
            && y.Fits(l) && y.Astray(l, y.payments[0])
            && (y.Import1(l, y.payments[0]) == l <==> Room(l, "AWX", "I") >= 100)
  {
    CrossedP1IsAstray(stray, share2);
    if Room(Crossed(stray, share2), "AWX", "I") < 100 {
      CrossedP1Moves(stray, share2);
    } else {
      CrossedP1Stays(stray, share2);
    }
  }

  lemma CrossedP2Created()
    ensures var y := CrossedSync();
            y.inv in Crossed(true, None).invoices
            && y.Import1(Crossed(true, None), y.payments[1]) == Crossed(true, Some(100))
  {
    CrossedFacts(true, None);
    CrossedRoom(true, None);
    DollarQuote("p2", 150);
  }

  lemma CrossedP2IsRevised()
    ensures var l, terms := Crossed(false, Some(100)), DollarTerms("p2", 150);
            && Due(l, "AWX", "I", terms, l.entries[2]) == 150 && !Matches(l.entries[2], terms, 150)
            && Put(l, 2, Revised(l.entries[2], terms, "I", 150)) == Crossed(false, Some(150))
  {
    CrossedRoom(false, Some(100));
  }

  lemma CrossedP2Grows()
    ensures var y := CrossedSync();
            y.inv in Crossed(false, Some(100)).invoices
            && y.Import1(Crossed(false, Some(100)), y.payments[1]) == Crossed(false, Some(150))
  {
    var y, l := CrossedSync(), Crossed(false, Some(100));
    CrossedFacts(false, Some(100));
    DollarQuote("p2", 150);
    AdjustIs(y.host, l, "I", "B", y.payments[1], 2);
    CrossedP2IsRevised();
  }

  lemma CrossedRows(stray: bool, share2: int)
    requires share2 > 0
    ensures CrossedSync().Rows(Crossed(stray, Some(share2))) == if stray then [1, 2] else [2]
  {
    var l := Crossed(stray, Some(share2));
    var r := Reference(true, "I", share2);
    assert r in l.entries[2].references && Links(l.entries[2], "I");
    assert stray ==> Reference(true, "I", 100) in l.entries[1].references && Links(l.entries[1], "I");
    assert !Links(l.entries[0], "I");
    assert Linked(l.entries, "AWX", "I", 1) == [];
    assert Linked(l.entries, "AWX", "I", 2) == if stray then [1] else [];
  }

  lemma CrossedSweep(y: Sync, l: Ledger)
    requires |y.payments| == 2 && y.inv in l.invoices
    ensures y.From(l, 0) == y.Import1(y.Import1(l, y.payments[0]), y.payments[1])
  {
    var l1 := y.Import1(l, y.payments[0]);
    SweepStep(y, l, 0);
    SweepStep(y, l1, 1);
  }

  lemma CrossedIds()
    ensures Ids(CrossedSync().payments) == {"p1", "p2"}
  {
    var ps := CrossedSync().payments;
    assert ps[0] in ps && ps[1] in ps;
    assert forall p | p in ps :: p.Id() == "p1" || p.Id() == "p2";
  }

  lemma CrossedWithdrawalIsIdle(share2: int)
    ensures Withdraw(Crossed(false, Some(share2)), [2], {"p1", "p2"}, false).0 == Crossed(false, Some(share2))
  {
    NothingToWithdrawChangesNothing(Crossed(false, Some(share2)), [2], {"p1", "p2"});
  }

  lemma CrossedWithdrawal(stray: bool, share2: int)
    requires share2 > 0
    ensures var y, l := CrossedSync(), Crossed(stray, Some(share2));
            Withdraw(l, y.Rows(l), Ids(y.payments), false).0 == Crossed(false, Some(share2))
  {
    var l, l' := Crossed(stray, Some(share2)), Crossed(false, Some(share2));
    CrossedRows(stray, share2);
    CrossedIds();
    CrossedWithdrawalIsIdle(share2);
    if stray {
      assert Withdrawn(l.entries[1], {"p1", "p2"});
      assert Drop(l, 1) == l';
      assert [1, 2][1..] == [2];
    }
  }

  /**
   * Two passes are not enough for an entry that holds another invoice: its total happens to equal
   * its share of this invoice in both, and no longer does in the third.
   */
  lemma TwoPassesCanFallShort()
    ensures var y, l := CrossedSync(), Crossed(true, None);
            && y.Fits(l) && y.Distinct() && AllSettle(y, l) && y.Astrays(l) == 1
            && y.Pass(y.Pass(y.Pass(l))) != y.Pass(y.Pass(l))
  {
    var y, l0 := CrossedSync(), Crossed(true, None);
    CrossedFacts(true, None);
    CrossedRoom(true, None);
    CrossedP1(true, None);
    CrossedP2Created();
    CrossedSweep(y, l0);
    CrossedWithdrawal(true, 100);
    var l1 := Crossed(false, Some(100));
    assert y.Pass(l0) == l1;
    CrossedFacts(false, Some(100));
    CrossedRoom(false, Some(100));
    CrossedP1(false, Some(100));
    CrossedP2Grows();
    CrossedSweep(y, l1);
    CrossedWithdrawal(false, 150);
    var l2 := Crossed(false, Some(150));
    assert y.Pass(l1) == l2;
    CrossedFacts(false, Some(150));
    CrossedP1(false, Some(150));
    CrossedThirdPass(l2);
    CrossedHypotheses();
  }

  /** The third pass brings p1 over to invoice I. */
  lemma CrossedThirdPass(l: Ledger)
    requires l == Crossed(false, Some(150))
    ensures CrossedSync().inv in l.invoices && CrossedSync().Pass(l) != l
  {
    CrossedFacts(false, Some(150));
    CrossedRoom(false, Some(150));
    CrossedP1(false, Some(150));
    CrossedHypotheses();
    BroughtBackStays(CrossedSync(), l);
  }

  /** A pass that brings an astray first entry back changes the ledger. */
  lemma BroughtBackStays(y: Sync, l: Ledger)
    requires y.Fits(l) && y.Distinct() && y.payments != []
    requires y.Astray(l, y.payments[0]) && y.Import1(l, y.payments[0]) != l
    ensures y.Pass(l) != l
  {
    var p := y.payments[0];
    var l1 := y.Import1(l, p);
    y.AdjustPlaces(l, p);
    forall i | 1 <= i < |y.payments| ensures y.payments[i].Id() != p.Id() {
      DistinctIds(y, i, 0);
    }
    SweepKeepsOthers(y, l1, 1, p.Id());
    SweepFits(y, l1, 1);
    WithdrawalStage(y, y.From(l1, 1));
    assert y.From(l, 0) == y.From(l1, 1);
    assert Holding(y.Pass(l), p.Id()) == Holding(l1, p.Id());
  }

  lemma CrossedSettles()
    ensures CrossedSync().Distinct() && AllSettle(CrossedSync(), Crossed(true, None))
  {
    assert Text.Upper("PAID") == "PAID";
    var y := CrossedSync();
    forall p | p in y.payments ensures !p.Terminal() {
      assert p == y.payments[0] || p == y.payments[1];
    }
  }

  lemma CrossedHypotheses()
    ensures var y, l := CrossedSync(), Crossed(true, None);
            y.Distinct() && AllSettle(y, l) && y.Astrays(l) == 1
  {
    var y, l := CrossedSync(), Crossed(true, None);
    CrossedSettles();
    CrossedFlags();
    assert [true, false][1..] == [false] && [false][1..] == [];
  }

  lemma CrossedFlags()
    ensures CrossedSync().AstrayFlags(Crossed(true, None)) == [true, false]
  {
    var y, l := CrossedSync(), Crossed(true, None);
    CrossedFacts(true, None);
    CrossedP1IsAstray(true, None);
    assert !y.Kept(l, y.payments[1]);
  }
}
