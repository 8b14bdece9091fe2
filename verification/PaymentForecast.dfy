/**
 * What a second pass will do, foretold from the ledger that the first one leaves, by arithmetic alone:
 * the room each payment will find, and which entries of other invoices will stay.
 */
module PaymentForecast {
  import opened Options
  import opened PaymentModel
  import opened PaymentEffects
  import opened PaymentPasses
  import opened PaymentConvergence
  import opened PaymentLimits

  /** What the payment's entry is due of this invoice when there is so much room besides its own share. */
  function DueIn(y: Sync, l: Ledger, p: Payment, room: int): int
    requires y.Kept(l, p)
  {
    Allocation(y.TermsFor(p), Max(0, room + y.ShareHere(l, p)))
  }

  /** An entry of another invoice that will be left there, because its total is just what it is due here. */
  predicate PassesForDue(y: Sync, l: Ledger, p: Payment, room: int) {
    y.Astray(l, p) && y.Share(l, p) == DueIn(y, l, p, room)
  }

  /** What the payment will take of the room it finds. */
  function Takes(y: Sync, l: Ledger, p: Payment, room: int): int {
    if !y.Kept(l, p) || PassesForDue(y, l, p, room) then 0 else DueIn(y, l, p, room) - y.ShareHere(l, p)
  }

  /** The room that payment `k` will find, or the room left when `k` is past the last. */
  function RoomAt(y: Sync, l: Ledger, k: nat): int
    requires k <= |y.payments| && y.inv in l.invoices
  {
    if k == 0 then y.Left(l)
    else RoomAt(y, l, k - 1) - Takes(y, l, y.payments[k - 1], RoomAt(y, l, k - 1))
  }

  lemma StepTakes(y: Sync, l: Ledger, p: Payment)
    requires y.Fits(l) && y.Placed(l, p)
    ensures var l1 := y.Import1(l, p);
            && y.inv in l1.invoices
            && y.Left(l1) == y.Left(l) - Takes(y, l, p, y.Left(l))
            && (y.Astray(l1, p) <==> PassesForDue(y, l, p, y.Left(l)))
            && (y.Astray(l1, p) ==> l1 == l)
  {
    y.StepFills(l, p);
    if y.Kept(l, p) {
      y.AdjustPlaces(l, p);
      if y.Astray(l, p) {
        IdleExactlyWhenDue(y, l, p);
      }
    }
  }

  /** The payment's entry holds the same in both ledgers. */
  predicate SameShare(y: Sync, l: Ledger, l': Ledger, p: Payment) {
    && y.Kept(l', p) == y.Kept(l, p)
    && (y.Kept(l, p) ==> y.Share(l', p) == y.Share(l, p) && y.ShareHere(l', p) == y.ShareHere(l, p))
  }

  lemma SameShareTakes(y: Sync, l: Ledger, l': Ledger, p: Payment, room: int)
    requires SameShare(y, l, l', p)
    ensures Takes(y, l', p, room) == Takes(y, l, p, room)
    ensures PassesForDue(y, l', p, room) == PassesForDue(y, l, p, room)
  {
  }

  lemma StepKeepsShare(y: Sync, l: Ledger, lk: Ledger, k: nat, i: nat)
    requires y.Fits(lk) && y.Distinct() && k < i < |y.payments| && SameShare(y, l, lk, y.payments[i])
    ensures SameShare(y, l, y.Import1(lk, y.payments[k]), y.payments[i])
  {
    DistinctIds(y, k, i);
    if y.payments[i].Id() != y.payments[k].Id() {
      y.StepKeepsVerdicts(lk, y.payments[k], y.payments[i]);
    }
  }

  /** What came of a payment at its turn lasts through the rest of the sweep. */
  lemma LaterStepsKeepShare(y: Sync, l1: Ledger, k: nat)
    requires y.Fits(l1) && y.Distinct() && k < |y.payments|
    ensures y.Astray(y.From(l1, k + 1), y.payments[k]) == y.Astray(l1, y.payments[k])
    ensures SameShare(y, l1, y.From(l1, k + 1), y.payments[k])
  {
    var id := y.payments[k].Id();
    if id != "" {
      forall i | k + 1 <= i < |y.payments| ensures y.payments[i].Id() != id {
        DistinctIds(y, i, k);
      }
      SweepKeepsOthers(y, l1, k + 1, id);
    }
  }

  /** The forecast for payment `i`, checked against the ledger after the sweep. */
  predicate ForetoldOf(y: Sync, l: Ledger, l': Ledger, i: nat)
    requires i < |y.payments| && y.inv in l.invoices
  {
    var p := y.payments[i];
    && (y.Astray(l', p) <==> PassesForDue(y, l, p, RoomAt(y, l, i)))
    && (y.Astray(l', p) ==> SameShare(y, l, l', p))
  }

  /** A sweep over `l` has come to `k` and to the ledger `lk`, as foretold. */
  ghost predicate Tracks(y: Sync, l: Ledger, lk: Ledger, k: nat)
    requires y.inv in l.invoices && k <= |y.payments|
  {
    && Filling(y, lk, k) && y.Left(lk) == RoomAt(y, l, k)
    && forall i | k <= i < |y.payments| :: SameShare(y, l, lk, y.payments[i])
  }

  ghost predicate ForetoldFrom(y: Sync, l: Ledger, l': Ledger, k: nat)
    requires y.inv in l.invoices && k <= |y.payments|
  {
    && y.inv in l'.invoices && y.Left(l') == RoomAt(y, l, |y.payments|)
    && forall i | k <= i < |y.payments| :: ForetoldOf(y, l, l', i)
  }

  lemma TracksOn(y: Sync, l: Ledger, lk: Ledger, k: nat)
    requires y.inv in l.invoices && k < |y.payments| && Tracks(y, l, lk, k)
    ensures var l1 := y.Import1(lk, y.payments[k]);
            && Tracks(y, l, l1, k + 1) && y.From(lk, k) == y.From(l1, k + 1)
            && ForetoldOf(y, l, l1, k)
  {
    var p := y.payments[k];
    StepTakes(y, lk, p);
    SameShareTakes(y, l, lk, p, y.Left(lk));
    FillingStep(y, lk, k);
    forall i | k + 1 <= i < |y.payments| ensures SameShare(y, l, y.Import1(lk, p), y.payments[i]) {
      StepKeepsShare(y, l, lk, k, i);
    }
    SweepStep(y, lk, k);
  }

  lemma ForetoldLasts(y: Sync, l: Ledger, l1: Ledger, k: nat)
    requires y.inv in l.invoices && y.Fits(l1) && y.Distinct() && k < |y.payments| && ForetoldOf(y, l, l1, k)
    ensures ForetoldOf(y, l, y.From(l1, k + 1), k)
  {
    LaterStepsKeepShare(y, l1, k);
  }

  lemma {:induction false} SweepIsForetold(y: Sync, l: Ledger, lk: Ledger, k: nat)
    requires k <= |y.payments| && y.inv in l.invoices && Tracks(y, l, lk, k)
    ensures ForetoldFrom(y, l, y.From(lk, k), k)
    decreases |y.payments| - k
  {
    if k == |y.payments| {
      assert y.From(lk, k) == lk;
    } else {
      var l1 := y.Import1(lk, y.payments[k]);
      TracksOn(y, l, lk, k);
      SweepIsForetold(y, l, l1, k + 1);
      ForetoldLasts(y, l, l1, k);
    }
  }

  /** An entry of another invoice that will be left there at its turn will hold its due when the sweep is over. */
  predicate StaysDue(y: Sync, l: Ledger, i: nat)
    requires i < |y.payments| && y.inv in l.invoices
  {
    PassesForDue(y, l, y.payments[i], RoomAt(y, l, i)) ==>
      PassesForDue(y, l, y.payments[i], RoomAt(y, l, |y.payments|))
  }

  ghost predicate AllStayDue(y: Sync, l: Ledger)
    requires y.inv in l.invoices
  {
    forall i | 0 <= i < |y.payments| :: StaysDue(y, l, i)
  }

  lemma StaysDueMeans(y: Sync, l: Ledger, l': Ledger, i: nat)
    requires i < |y.payments| && y.inv in l.invoices && ForetoldFrom(y, l, l', 0)
    ensures StaysDue(y, l, i) <==> (y.Astray(l', y.payments[i]) ==> HoldsItsDue(y, l', y.payments[i]))
  {
    assert ForetoldOf(y, l, l', i);
  }

  lemma AllStayDueMeans(y: Sync, l: Ledger, l': Ledger)
    requires y.inv in l.invoices && ForetoldFrom(y, l, l', 0)
    ensures AllStayDue(y, l) <==> AstrayHoldTheirDue(y, l')
  {
    forall i | 0 <= i < |y.payments|
      ensures StaysDue(y, l, i) <==> (y.Astray(l', y.payments[i]) ==> HoldsItsDue(y, l', y.payments[i]))
    {
      StaysDueMeans(y, l, l', i);
    }
    if AllStayDue(y, l) {
      forall p | p in y.payments && y.Astray(l', p) ensures HoldsItsDue(y, l', p) {
        var i :| 0 <= i < |y.payments| && y.payments[i] == p;
        assert StaysDue(y, l, i);
      }
    }
  }

  lemma SecondPassIsForetold(y: Sync, l: Ledger)
    requires y.Fits(l) && y.Distinct() && AllSettle(y, l) && y.Clean(l) && PlacedUpTo(y, l, |y.payments|)
    ensures ForetoldFrom(y, l, y.Pass(l), 0)
  {
    FillingSweep(y, l, 0);
    CleanPassIsASweep(y, l);
    SweepIsForetold(y, l, l, 0);
  }

  /**
   * Whether the second pass is the last can be told before it: it is if and only if each entry of
   * another invoice whose total is its due here at its turn, by the room the payments before it leave,
   * still has its due in the room that all of them leave.
   */
  lemma TwoPassesSufficeIsForetold(y: Sync, l: Ledger)
    requires y.Fits(l) && y.Distinct() && AllSettle(y, l)
    ensures var l1 := y.Pass(l);
            y.Pass(y.Pass(l1)) == y.Pass(l1) <==> AllStayDue(y, l1)
  {
    FirstPass(y, l);
    SecondPassIsForetold(y, y.Pass(l));
    AllStayDueMeans(y, y.Pass(l), y.Pass(y.Pass(l)));
    TwoPassesSufficeExactlyWhen(y, l);
  }
}
