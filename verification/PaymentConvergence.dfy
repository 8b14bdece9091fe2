/**
 * Repeating the reconciliation of a fixed bill. It comes to rest exactly when no payment is shown as
 * ended and still creatable; it then does so after two passes, plus one for every entry that holds
 * allocations on another invoice.
 */
module PaymentConvergence {
  import opened Options
  import opened PaymentModel
  import opened PaymentEffects
  import opened PaymentSteps
  import opened PaymentWithdrawals
  import opened PaymentPasses

  // ---------------------------------------------------------------- sweeps over the payments

  lemma DistinctIds(y: Sync, i: nat, j: nat)
    requires y.Distinct() && i < |y.payments| && j < |y.payments| && i != j
    ensures y.payments[i].Id() != y.payments[j].Id() || y.payments[i].Id() == ""
  {
  }

  lemma EmptyIdIsTrivial(y: Sync, l: Ledger, p: Payment)
    requires y.Fits(l) && p.Id() == ""
    ensures y.Placed(l, p) && y.Filled(l, p) && y.Settles(l, p) && !y.Astray(l, p) && y.Import1(l, p) == l
  {
  }

  ghost predicate PlacedUpTo(y: Sync, l: Ledger, k: nat)
    requires y.inv in l.invoices && k <= |y.payments|
  {
    forall i | 0 <= i < k :: y.Placed(l, y.payments[i])
  }

  ghost predicate FilledUpTo(y: Sync, l: Ledger, k: nat)
    requires y.inv in l.invoices && k <= |y.payments|
  {
    forall i | 0 <= i < k :: y.Filled(l, y.payments[i])
  }

  ghost predicate AllSettle(y: Sync, l: Ledger) {
    forall p | p in y.payments :: y.Settles(l, p)
  }

  lemma StepKeepsAllSettled(y: Sync, l: Ledger, k: nat)
    requires y.Fits(l) && y.Distinct() && AllSettle(y, l) && k < |y.payments|
    ensures AllSettle(y, y.Import1(l, y.payments[k]))
  {
    var p := y.payments[k];
    var l' := y.Import1(l, p);
    forall q | q in y.payments ensures y.Settles(l', q) {
      if q.Id() != p.Id() {
        y.StepKeepsVerdicts(l, p, q);
      } else if q.Id() == "" {
        EmptyIdIsTrivial(y, l, p);
      } else if y.Contradictory(q) {
        IdleStep(y.host, l, y.inv, y.billId, p);
      }
    }
  }

  lemma StepKeepsClean(y: Sync, l: Ledger, k: nat)
    requires y.Fits(l) && y.Clean(l) && k < |y.payments|
    ensures y.Clean(y.Import1(l, y.payments[k]))
  {
    y.StepFits(l, y.payments[k]);
    assert y.payments[k].Id() in Ids(y.payments);
  }

  lemma StepKeepsPrefixPlaced(y: Sync, l: Ledger, k: nat, m: nat)
    requires y.Fits(l) && y.Distinct() && k < |y.payments| && m <= |y.payments|
    requires y.Settles(l, y.payments[k]) && PlacedUpTo(y, l, m)
    ensures PlacedUpTo(y, y.Import1(l, y.payments[k]), m) && y.Placed(y.Import1(l, y.payments[k]), y.payments[k])
  {
    var p := y.payments[k];
    y.StepPlaces(l, p);
    forall i | 0 <= i < m ensures y.Placed(y.Import1(l, p), y.payments[i]) {
      if i != k {
        DistinctIds(y, i, k);
        if y.payments[i].Id() != p.Id() {
          y.StepKeepsPlaced(l, p, y.payments[i]);
        }
      }
    }
  }

  lemma StepKeepsPrefixFilled(y: Sync, l: Ledger, k: nat, m: nat)
    requires y.Fits(l) && y.Distinct() && k < |y.payments| && m <= |y.payments|
    requires y.Placed(l, y.payments[k]) && FilledUpTo(y, l, m)
    ensures FilledUpTo(y, y.Import1(l, y.payments[k]), m) && y.Filled(y.Import1(l, y.payments[k]), y.payments[k])
  {
    var p := y.payments[k];
    y.StepFills(l, p);
    forall i | 0 <= i < m ensures y.Filled(y.Import1(l, p), y.payments[i]) {
      if i != k {
        DistinctIds(y, i, k);
        if y.payments[i].Id() != p.Id() {
          y.StepKeepsVerdicts(l, p, y.payments[i]);
        }
      }
    }
  }

  lemma StepSendsNoneAstray(y: Sync, l: Ledger, k: nat, i: nat)
    requires y.Fits(l) && y.Distinct() && k < |y.payments| && i < |y.payments| && i != k
    ensures y.Astray(y.Import1(l, y.payments[k]), y.payments[i]) == y.Astray(l, y.payments[i])
  {
    DistinctIds(y, i, k);
    if y.payments[i].Id() != y.payments[k].Id() {
      y.StepKeepsVerdicts(l, y.payments[k], y.payments[i]);
    }
  }

  lemma {:induction false} CountDrops(a: seq<bool>, b: seq<bool>, k: int)
    requires |a| == |b|
    requires forall i | 0 <= i < |a| :: b[i] ==> a[i]
    requires 0 <= k < |a| ==> a[k] && !b[k]
    ensures CountTrue(b) <= CountTrue(a) - if 0 <= k < |a| then 1 else 0
  {
    if a != [] {
      CountDrops(a[1..], b[1..], k - 1);
    }
  }

  /** A step never sends another entry astray, and counts one fewer when it brings its own back. */
  lemma StepCountsAstrays(y: Sync, l: Ledger, k: nat)
    requires y.Fits(l) && y.Distinct() && k < |y.payments|
    requires y.Astray(y.Import1(l, y.payments[k]), y.payments[k]) ==> y.Astray(l, y.payments[k])
    ensures y.Astrays(y.Import1(l, y.payments[k])) <= y.Astrays(l)
    ensures y.Astray(l, y.payments[k]) && !y.Astray(y.Import1(l, y.payments[k]), y.payments[k])
            ==> y.Astrays(y.Import1(l, y.payments[k])) < y.Astrays(l)
  {
    var l' := y.Import1(l, y.payments[k]);
    var a, b := y.AstrayFlags(l), y.AstrayFlags(l');
    forall i | 0 <= i < |a| ensures b[i] ==> a[i] {
      if i != k {
        StepSendsNoneAstray(y, l, k, i);
      }
    }
    CountDrops(a, b, if a[k] && !b[k] then k else -1);
  }

  /** The first sweep places every payment. */
  lemma {:induction false} FirstSweep(y: Sync, l: Ledger, k: nat)
    requires y.Fits(l) && y.Distinct() && AllSettle(y, l) && k <= |y.payments| && PlacedUpTo(y, l, k)
    ensures var l' := y.From(l, k);
            && y.Fits(l') && AllSettle(y, l') && PlacedUpTo(y, l', |y.payments|)
            && y.Astrays(l') <= y.Astrays(l)
    decreases |y.payments| - k
  {
    if k < |y.payments| {
      var p := y.payments[k];
      y.StepPlaces(l, p);
      StepKeepsPrefixPlaced(y, l, k, k);
      StepKeepsAllSettled(y, l, k);
      StepCountsAstrays(y, l, k);
      FirstSweep(y, y.Import1(l, p), k + 1);
    }
  }

  /** Every payment is placed, those below `k` are filled, and nothing is left to withdraw. */
  ghost predicate Filling(y: Sync, l: Ledger, k: nat)
    requires k <= |y.payments|
  {
    && y.Fits(l) && y.Distinct() && AllSettle(y, l) && y.Clean(l)
    && PlacedUpTo(y, l, |y.payments|) && FilledUpTo(y, l, k)
  }

  lemma FillingStep(y: Sync, l: Ledger, k: nat)
    requires k < |y.payments| && Filling(y, l, k)
    ensures var l1 := y.Import1(l, y.payments[k]);
            && Filling(y, l1, k + 1)
            && y.Left(l1) <= y.Left(l) && y.Astrays(l1) <= y.Astrays(l)
  {
    y.StepFills(l, y.payments[k]);
    StepKeepsPrefixPlaced(y, l, k, |y.payments|);
    StepKeepsPrefixFilled(y, l, k, k);
    StepKeepsAllSettled(y, l, k);
    StepKeepsClean(y, l, k);
    StepCountsAstrays(y, l, k);
  }

  /** A sweep over placed payments fills them, and only ever takes room. */
  lemma {:induction false} FillingSweep(y: Sync, l: Ledger, k: nat)
    requires k <= |y.payments| && Filling(y, l, k)
    ensures var l' := y.From(l, k);
            && Filling(y, l', |y.payments|)
            && y.Astrays(l') <= y.Astrays(l) && y.Left(l') <= y.Left(l)
    decreases |y.payments| - k
  {
    if k < |y.payments| {
      FillingStep(y, l, k);
      FillingSweep(y, y.Import1(l, y.payments[k]), k + 1);
    }
  }

  /** With every payment filled a step changes nothing, or brings an astray entry back. */
  lemma RestingStep(y: Sync, l: Ledger, k: nat)
    requires k < |y.payments| && Filling(y, l, |y.payments|)
    ensures var l1 := y.Import1(l, y.payments[k]);
            l1 == l || (Filling(y, l1, k + 1) && y.Astrays(l1) < y.Astrays(l))
  {
    y.StepFills(l, y.payments[k]);
    if y.Import1(l, y.payments[k]) != l {
      StepCountsAstrays(y, l, k);
      assert Filling(y, l, k);
      FillingStep(y, l, k);
    }
  }

  /** A sweep over filled payments changes nothing, or brings an astray entry back. */
  lemma {:induction false} RestingSweep(y: Sync, l: Ledger, k: nat)
    requires k <= |y.payments| && Filling(y, l, |y.payments|)
    ensures var l' := y.From(l, k); l' == l || y.Astrays(l') < y.Astrays(l)
    decreases |y.payments| - k
  {
    if k < |y.payments| {
      var l1 := y.Import1(l, y.payments[k]);
      RestingStep(y, l, k);
      if l1 != l {
        FillingSweep(y, l1, k + 1);
      } else {
        RestingSweep(y, l, k + 1);
      }
      SweepStep(y, l, k);
    }
  }

  // ---------------------------------------------------------------- passes

  /** Where a second pass takes the ledger, and every later pass keeps it. */
  ghost predicate AtRestButAstray(y: Sync, l: Ledger) {
    Filling(y, l, |y.payments|)
  }

  lemma CleanPassIsASweep(y: Sync, l: Ledger)
    requires y.inv in l.invoices && y.Clean(y.From(l, 0))
    ensures y.Pass(l) == y.From(l, 0)
  {
    NothingToWithdrawChangesNothing(y.From(l, 0), y.Rows(y.From(l, 0)), Ids(y.payments));
  }

  /** From any well-formed ledger one pass places every payment and withdraws what the bill no longer shows. */
  lemma FirstPass(y: Sync, l: Ledger)
    requires y.Fits(l) && y.Distinct() && AllSettle(y, l)
    ensures var l' := y.Pass(l);
            && y.Fits(l') && AllSettle(y, l') && y.Clean(l') && PlacedUpTo(y, l', |y.payments|)
            && y.Astrays(l') <= y.Astrays(l)
  {
    FirstSweep(y, l, 0);
    WithdrawalStage(y, y.From(l, 0));
  }

  /** The entries of the bill's payments are the same in both ledgers. */
  ghost predicate SameHoldings(y: Sync, l: Ledger, l': Ledger) {
    forall p | p in y.payments && p.Id() != "" :: Holding(l', p.Id()) == Holding(l, p.Id())
  }

  lemma WithdrawalKeepsHoldings(y: Sync, l: Ledger)
    requires y.Fits(l)
    ensures var l' := Withdraw(l, y.Rows(l), Ids(y.payments), false).0;
            && y.Fits(l') && SameHoldings(y, l, l') && y.Left(l') >= y.Left(l)
            && WithdrewExactly(l, l', y.Rows(l), Ids(y.payments))
  {
    var s := y.host.settings.name;
    var l' := Withdraw(l, y.Rows(l), Ids(y.payments), false).0;
    WithdrawIsExact(l, s, y.Rows(l), Ids(y.payments), y.inv);
    forall p | p in y.payments && p.Id() != "" ensures Holding(l', p.Id()) == Holding(l, p.Id()) {
      ObservedStays(l, l', s, y.Rows(l), Ids(y.payments), p.Id());
    }
  }

  /** With the same entries and no less room, payments stay placed, settled and counted. */
  lemma SameHoldingsCarry(y: Sync, l: Ledger, l': Ledger)
    requires y.Fits(l) && y.Fits(l') && SameHoldings(y, l, l') && y.Left(l') >= y.Left(l)
    ensures AllSettle(y, l) ==> AllSettle(y, l')
    ensures PlacedUpTo(y, l, |y.payments|) ==> PlacedUpTo(y, l', |y.payments|)
    ensures y.Astrays(l') == y.Astrays(l)
  {
    assert y.AstrayFlags(l') == y.AstrayFlags(l);
  }

  /** The withdrawal stage leaves every observed payment as it was, frees room, and cleans the invoice. */
  lemma WithdrawalStage(y: Sync, l: Ledger)
    requires y.Fits(l)
    ensures var l' := Withdraw(l, y.Rows(l), Ids(y.payments), false).0;
            && y.Fits(l') && y.Clean(l')
            && y.Left(l') >= y.Left(l)
            && SameHoldings(y, l, l')
            && (AllSettle(y, l) ==> AllSettle(y, l'))
            && (PlacedUpTo(y, l, |y.payments|) ==> PlacedUpTo(y, l', |y.payments|))
            && y.Astrays(l') == y.Astrays(l)
  {
    var l' := Withdraw(l, y.Rows(l), Ids(y.payments), false).0;
    WithdrawalKeepsHoldings(y, l);
    SameHoldingsCarry(y, l, l');
    WithdrawalCleans(y, l, l');
  }

  lemma WithdrawalCleans(y: Sync, l: Ledger, l': Ledger)
    requires y.Fits(l) && WithdrewExactly(l, l', y.Rows(l), Ids(y.payments))
    ensures y.Clean(l')
  {
    forall n | n in l'.entries && l'.entries[n].settings == y.host.settings.name && Links(l'.entries[n], y.inv)
               && l'.entries[n].Live()
      ensures !Withdrawn(l'.entries[n], Ids(y.payments))
    {
      assert At(l', n) == Some(l'.entries[n]);
      assert At(l, n).Some?;
    }
  }

  /**
   * The second pass fills: it withdraws nothing, takes room only, and leaves the ledger at rest but
   * for astray entries.
   */
  lemma SecondPass(y: Sync, l: Ledger)
    requires y.Fits(l) && y.Distinct() && AllSettle(y, l) && y.Clean(l) && PlacedUpTo(y, l, |y.payments|)
    ensures AtRestButAstray(y, y.Pass(l))
    ensures y.Astrays(y.Pass(l)) <= y.Astrays(l) && y.Left(y.Pass(l)) <= y.Left(l)
  {
    FillingSweep(y, l, 0);
    CleanPassIsASweep(y, l);
  }

  lemma LaterPass(y: Sync, l: Ledger)
    requires y.Distinct() && AtRestButAstray(y, l)
    ensures AtRestButAstray(y, y.Pass(l))
    ensures y.Pass(l) == l || y.Astrays(y.Pass(l)) < y.Astrays(l)
  {
    SecondPass(y, l);
    FillingSweep(y, l, 0);
    CleanPassIsASweep(y, l);
    RestingSweep(y, l, 0);
  }

  lemma {:induction false} ComesToRest(y: Sync, l: Ledger, m: nat)
    requires y.Distinct() && AtRestButAstray(y, l) && y.Astrays(l) <= m
    ensures y.Pass(y.PassN(l, m)) == y.PassN(l, m) && AtRestButAstray(y, y.PassN(l, m))
    decreases m
  {
    LaterPass(y, l);
    if y.Pass(l) == l {
      RestStays(y, l, m);
    } else {
      ComesToRest(y, y.Pass(l), m - 1);
    }
  }

  lemma {:induction false} RestStays(y: Sync, l: Ledger, m: nat)
    requires y.inv in l.invoices && y.Pass(l) == l
    ensures y.PassN(l, m) == l
    decreases m
  {
    if m != 0 {
      RestStays(y, l, m - 1);
    }
  }

  lemma TwoPassesFirst(y: Sync, l: Ledger, m: nat)
    requires y.inv in l.invoices
    ensures y.PassN(l, 2 + m) == y.PassN(y.Pass(y.Pass(l)), m)
  {
    assert y.PassN(l, 2 + m) == y.PassN(y.Pass(l), 1 + m);
  }

  /**
   * Convergence: two passes, plus one for each entry that starts out holding allocations on another
   * invoice, reach a ledger that a further pass leaves exactly as it is.
   */
  lemma Converges(y: Sync, l: Ledger)
    requires y.Fits(l) && y.Distinct() && AllSettle(y, l)
    ensures var n := 2 + y.Astrays(l);
            y.Pass(y.PassN(l, n)) == y.PassN(l, n) && AtRestButAstray(y, y.PassN(l, n))
  {
    var m := y.Astrays(l);
    FirstPass(y, l);
    SecondPass(y, y.Pass(l));
    ComesToRest(y, y.Pass(y.Pass(l)), m);
    TwoPassesFirst(y, l, m);
  }

  /** With every observed entry on its own invoice, two passes are enough and a third changes nothing. */
  lemma TwoPassesSuffice(y: Sync, l: Ledger)
    requires y.Fits(l) && y.Distinct() && AllSettle(y, l) && y.Astrays(l) == 0
    ensures y.Pass(y.Pass(y.Pass(l))) == y.Pass(y.Pass(l))
    ensures AllFullOrNoRoom(y, y.Pass(y.Pass(l)))
  {
    Converges(y, l);
    TwoPassesFirst(y, l, 0);
    FirstPass(y, l);
    SecondPass(y, y.Pass(l));
    var l2 := y.Pass(y.Pass(l));
    forall p | p in y.payments && y.Kept(l2, p) ensures FullOrNoRoom(y, l2, p) {
      var i :| 0 <= i < |y.payments| && y.payments[i] == p;
      NoneTrue(y.AstrayFlags(l2), i);
    }
  }

  predicate FullOrNoRoom(y: Sync, l: Ledger, p: Payment)
    requires y.inv in l.invoices && y.Kept(l, p)
  {
    y.ShareHere(l, p) == y.TermsFor(p).invoiceAmount || y.Left(l) <= 0
  }

  ghost predicate AllFullOrNoRoom(y: Sync, l: Ledger)
    requires y.inv in l.invoices
  {
    forall p | p in y.payments && y.Kept(l, p) :: FullOrNoRoom(y, l, p)
  }

  lemma {:induction false} NoneTrue(flags: seq<bool>, i: nat)
    requires CountTrue(flags) == 0 && i < |flags|
    ensures !flags[i]
  {
    if i != 0 {
      NoneTrue(flags[1..], i - 1);
    }
  }

  // ---------------------------------------------------------------- the second pass only grows

  /** The entry of `p` is on this invoice only, and has not lost any of its allocation. */
  predicate Grew(y: Sync, l: Ledger, l': Ledger, p: Payment) {
    y.Kept(l, p) && !y.Astray(l, p) ==>
      y.Kept(l', p) && !y.Astray(l', p) && y.ShareHere(l', p) >= y.ShareHere(l, p)
  }

  lemma StepGrows(y: Sync, l: Ledger, k: nat, q: Payment)
    requires k < |y.payments| && Filling(y, l, k) && q in y.payments
    ensures Grew(y, l, y.Import1(l, y.payments[k]), q)
  {
    var p := y.payments[k];
    if q.Id() != p.Id() {
      y.StepKeepsVerdicts(l, p, q);
    } else if q.Id() != "" {
      SameIdSamePayment(y, k, q);
      y.StepFills(l, p);
    }
  }

  lemma GrowthComposes(y: Sync, a: Ledger, b: Ledger, c: Ledger, p: Payment)
    requires Grew(y, a, b, p) && Grew(y, b, c, p)
    ensures Grew(y, a, c, p)
  {
  }

  lemma FillingStepGrows(y: Sync, l: Ledger, k: nat, q: Payment)
    requires k < |y.payments| && Filling(y, l, k) && q in y.payments
    ensures var l1 := y.Import1(l, y.payments[k]);
            Filling(y, l1, k + 1) && Grew(y, l, l1, q) && y.From(l, k) == y.From(l1, k + 1)
  {
    FillingStep(y, l, k);
    StepGrows(y, l, k, q);
    SweepStep(y, l, k);
  }

  lemma {:induction false} GrowingSweep(y: Sync, l: Ledger, k: nat, q: Payment)
    requires k <= |y.payments| && q in y.payments && Filling(y, l, k)
    ensures Grew(y, l, y.From(l, k), q)
    decreases |y.payments| - k
  {
    if k == |y.payments| {
      assert y.From(l, k) == l;
    } else {
      var l1 := y.Import1(l, y.payments[k]);
      FillingStepGrows(y, l, k, q);
      GrowingSweep(y, l1, k + 1, q);
      GrowthComposes(y, l, l1, y.From(l1, k + 1), q);
    }
  }

  lemma SweepStep(y: Sync, l: Ledger, k: nat)
    requires k < |y.payments| && y.inv in l.invoices
    ensures y.From(l, k) == y.From(y.Import1(l, y.payments[k]), k + 1)
  {
  }

  lemma SameIdSamePayment(y: Sync, k: nat, q: Payment)
    requires y.Distinct() && k < |y.payments| && q in y.payments && q.Id() == y.payments[k].Id() != ""
    ensures q == y.payments[k]
  {
  }

  /** In the second pass nothing is withdrawn and every entry on this invoice keeps or increases its allocation. */
  lemma SecondPassOnlyGrows(y: Sync, l: Ledger)
    requires y.Fits(l) && y.Distinct() && AllSettle(y, l)
    ensures forall p | p in y.payments :: Grew(y, y.Pass(l), y.Pass(y.Pass(l)), p)
  {
    FirstPass(y, l);
    var l1 := y.Pass(l);
    FillingSweep(y, l1, 0);
    CleanPassIsASweep(y, l1);
    forall p | p in y.payments ensures Grew(y, l1, y.Pass(l1), p) {
      GrowingSweep(y, l1, 0, p);
    }
  }

  // ---------------------------------------------------------------- when two passes are enough

  /** The entry holds in all exactly what this invoice's room would give it. */
  predicate HoldsItsDue(y: Sync, l: Ledger, p: Payment)
    requires y.inv in l.invoices && y.Kept(l, p)
  {
    y.Share(l, p) == Allocation(y.TermsFor(p), Max(0, y.Left(l) + y.ShareHere(l, p)))
  }

  /** An import leaves a placed and filled payment as it is exactly when an astray entry holds its due. */
  lemma IdleExactlyWhenDue(y: Sync, l: Ledger, p: Payment)
    requires y.Fits(l) && y.Placed(l, p) && y.Filled(l, p)
    ensures y.Import1(l, p) == l <==> (y.Astray(l, p) ==> HoldsItsDue(y, l, p))
  {
    y.StepFills(l, p);
    if y.Astray(l, p) {
      y.AdjustPlaces(l, p);
      AdjustStep(y.host, l, y.inv, y.billId, p, y.inv);
    }
  }

  /** Importing payment `i` changes the ledger. */
  predicate Moves(y: Sync, l: Ledger, i: nat)
    requires i < |y.payments| && y.inv in l.invoices
  {
    y.Import1(l, y.payments[i]) != l
  }

  /** Which payments would change the ledger. */
  function MoveFlags(y: Sync, l: Ledger): seq<bool>
    requires y.inv in l.invoices
  {
    seq(|y.payments|, i requires 0 <= i < |y.payments| => Moves(y, l, i))
  }

  predicate NoneFrom(flags: seq<bool>, k: nat)
    requires k <= |flags|
    decreases |flags| - k
  {
    k == |flags| || (!flags[k] && NoneFrom(flags, k + 1))
  }

  lemma {:induction false} NoneFromMeans(flags: seq<bool>, k: nat)
    requires k <= |flags|
    ensures NoneFrom(flags, k) <==> forall i | k <= i < |flags| :: !flags[i]
    decreases |flags| - k
  {
    if k < |flags| {
      NoneFromMeans(flags, k + 1);
    }
  }

  lemma {:induction false} IdleSweep(y: Sync, l: Ledger, k: nat)
    requires k <= |y.payments| && Filling(y, l, |y.payments|)
    ensures y.From(l, k) == l <==> NoneFrom(MoveFlags(y, l), k)
    decreases |y.payments| - k
  {
    if k < |y.payments| {
      IdleSweep(y, l, k + 1);
      FirstMove(y, l, k);
    }
  }

  /** A sweep comes back to where it was only if its first payment moves nothing and the rest comes back. */
  lemma FirstMove(y: Sync, l: Ledger, k: nat)
    requires k < |y.payments| && Filling(y, l, |y.payments|)
    ensures y.From(l, k) == l <==> (!Moves(y, l, k) && y.From(l, k + 1) == l)
  {
    SweepStep(y, l, k);
    MovesOff(y, l, k);
  }

  lemma MovesOff(y: Sync, l: Ledger, k: nat)
    requires k < |y.payments| && Filling(y, l, |y.payments|)
    ensures var l1 := y.Import1(l, y.payments[k]); l1 != l ==> y.From(l1, k + 1) != l
  {
    RestingStep(y, l, k);
    if y.Import1(l, y.payments[k]) != l {
      MovedStaysMoved(y, l, y.Import1(l, y.payments[k]), k + 1);
    }
  }

  /** A sweep that goes on from a ledger with fewer astray entries does not come back. */
  lemma MovedStaysMoved(y: Sync, l: Ledger, l1: Ledger, k: nat)
    requires k <= |y.payments| && Filling(y, l1, k) && y.Astrays(l1) < y.Astrays(l)
    ensures y.From(l1, k) != l
  {
    FillingSweep(y, l1, k);
  }

  /** Every entry of the bill that holds another invoice holds in all what this invoice would give it. */
  ghost predicate AstrayHoldTheirDue(y: Sync, l: Ledger)
    requires y.inv in l.invoices
  {
    forall p | p in y.payments && y.Astray(l, p) :: HoldsItsDue(y, l, p)
  }

  lemma IdleMeansDue(y: Sync, l: Ledger)
    requires Filling(y, l, |y.payments|)
    ensures NoneFrom(MoveFlags(y, l), 0) <==> AstrayHoldTheirDue(y, l)
  {
    var flags := MoveFlags(y, l);
    NoneFromMeans(flags, 0);
    forall i | 0 <= i < |y.payments|
      ensures !flags[i] <==> (y.Astray(l, y.payments[i]) ==> HoldsItsDue(y, l, y.payments[i]))
    {
      IdleExactlyWhenDue(y, l, y.payments[i]);
    }
    if NoneFrom(flags, 0) {
      forall p | p in y.payments && y.Astray(l, p) ensures HoldsItsDue(y, l, p) {
        var i :| 0 <= i < |y.payments| && y.payments[i] == p;
      }
    }
  }

  /** A ledger that two passes have brought about rests if and only if no payment would change it. */
  lemma PassIsIdleExactlyWhen(y: Sync, l: Ledger)
    requires Filling(y, l, |y.payments|)
    ensures y.Pass(l) == l <==> AstrayHoldTheirDue(y, l)
  {
    FillingSweep(y, l, 0);
    CleanPassIsASweep(y, l);
    IdleSweep(y, l, 0);
    IdleMeansDue(y, l);
  }

  /**
   * Two passes are enough if and only if every entry that then still holds another invoice holds in
   * all what this invoice would give it.
   */
  lemma TwoPassesSufficeExactlyWhen(y: Sync, l: Ledger)
    requires y.Fits(l) && y.Distinct() && AllSettle(y, l)
    ensures var l2 := y.Pass(y.Pass(l));
            y.Pass(l2) == l2 <==> AstrayHoldTheirDue(y, l2)
  {
    FirstPass(y, l);
    SecondPass(y, y.Pass(l));
    PassIsIdleExactlyWhen(y, y.Pass(y.Pass(l)));
  }

  /** In particular two passes are enough whenever the first leaves every entry of the bill on this invoice only. */
  lemma TwoPassesSufficeAfterTheFirst(y: Sync, l: Ledger)
    requires y.Fits(l) && y.Distinct() && AllSettle(y, l) && y.Astrays(y.Pass(l)) == 0
    ensures y.Pass(y.Pass(y.Pass(l))) == y.Pass(y.Pass(l))
  {
    FirstPass(y, l);
    SecondPass(y, y.Pass(l));
    LaterPass(y, y.Pass(y.Pass(l)));
  }
}
