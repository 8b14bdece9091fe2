/** The withdrawal stage: exactly the linked live entries the bill no longer shows are removed. */
module PaymentWithdrawals {
  import opened Options
  import opened PaymentModel
  import opened PaymentEffects

  /** What becomes of a removed entry: a draft is gone, a submitted one is cancelled without its id. */
  function Removed(e: Entry): Option<Entry> {
    match e.docstatus
    case Draft => None
    case Submitted => Some(e.(paymentId := "", docstatus := Cancelled))
    case Cancelled => Some(e)
  }

  function At(l: Ledger, n: nat): Option<Entry> {
    if n in l.entries then Some(l.entries[n]) else None
  }

  /** `l'` is `l` with exactly the listed, no longer observed entries removed. */
  ghost predicate WithdrewExactly(l: Ledger, l': Ledger, names: seq<nat>, observed: set<string>) {
    && SameInvoices(l, l') && l'.nextName == l.nextName
    && forall n: nat :: At(l', n) == if n in l.entries && n in names && Withdrawn(l.entries[n], observed)
                                     then Removed(l.entries[n]) else At(l, n)
  }

  lemma RemoveIsExact(l: Ledger, n: nat)
    requires n in l.entries
    ensures SameInvoices(l, Remove(l, n)) && Remove(l, n).nextName == l.nextName
    ensures forall m: nat :: At(Remove(l, n), m) == if m == n then Removed(l.entries[n]) else At(l, m)
  {
  }

  /** One removal followed by an exact withdrawal of the rest is an exact withdrawal. */
  lemma RemovalsCompose(l: Ledger, l': Ledger, names: seq<nat>, observed: set<string>)
    requires names != [] && names[0] in l.entries && Withdrawn(l.entries[names[0]], observed)
    requires WithdrewExactly(Remove(l, names[0]), l', names[1..], observed)
    ensures WithdrewExactly(l, l', names, observed)
  {
    var n := names[0];
    var l1 := Remove(l, n);
    RemoveIsExact(l, n);
    forall m: nat
      ensures At(l', m) == if m in l.entries && m in names && Withdrawn(l.entries[m], observed)
                           then Removed(l.entries[m]) else At(l, m)
    {
      assert At(l1, m) == if m == n then Removed(l.entries[n]) else At(l, m);
      assert m in names <==> m == n || m in names[1..];
    }
  }

  lemma {:induction false} WithdrawIsExact(l: Ledger, settings: string, names: seq<nat>, observed: set<string>,
                                           inv: string)
    requires Valid(l, settings) && inv in l.invoices
    requires forall n | n in names && n in l.entries :: l.entries[n].settings == settings
    ensures var l' := Withdraw(l, names, observed, false).0;
            && Valid(l', settings)
            && WithdrewExactly(l, l', names, observed)
            && Room(l', settings, inv) >= Room(l, settings, inv)
            && InvoiceTotal(l', inv) == InvoiceTotal(l, inv)
    decreases |names|
  {
    if names != [] {
      var n := names[0];
      assert forall m :: m in names <==> m == n || m in names[1..];
      if n !in l.entries || !Withdrawn(l.entries[n], observed) {
        WithdrawIsExact(l, settings, names[1..], observed, inv);
      } else {
        var l1 := Remove(l, n);
        RemoveEffect(l, settings, n, inv);
        RemoveIsExact(l, n);
        AllocationBounds(l.entries[n].references, inv);
        forall m | m in names[1..] && m in l1.entries ensures l1.entries[m].settings == settings {
          assert At(l1, m) == if m == n then Removed(l.entries[n]) else At(l, m);
        }
        WithdrawIsExact(l1, settings, names[1..], observed, inv);
        RemovalsCompose(l, Withdraw(l, names, observed, false).0, names, observed);
      }
    }
  }

  /** Nothing listed and live is unobserved. */
  ghost predicate NothingToWithdraw(l: Ledger, names: seq<nat>, observed: set<string>) {
    forall n | n in names && n in l.entries && l.entries[n].Live() :: !Withdrawn(l.entries[n], observed)
  }

  lemma {:induction false} NothingToWithdrawChangesNothing(l: Ledger, names: seq<nat>, observed: set<string>)
    requires NothingToWithdraw(l, names, observed)
    ensures Withdraw(l, names, observed, false).0 == l
    decreases |names|
  {
    if names != [] {
      assert forall m :: m in names[1..] ==> m in names;
      NothingToWithdrawChangesNothing(l, names[1..], observed);
    }
  }

  /** An observed payment's entry is out of reach of the withdrawal stage. */
  lemma ObservedStays(l: Ledger, l': Ledger, settings: string, names: seq<nat>, observed: set<string>, id: string)
    requires Valid(l, settings) && Valid(l', settings) && WithdrewExactly(l, l', names, observed)
    requires id in observed && id != ""
    ensures Holder(l', id) == Holder(l, id) && Holding(l', id) == Holding(l, id)
  {
    match Holder(l, id) {
      case Some(n) =>
        assert At(l', n) == At(l, n);
        HolderIsUnique(l', settings, n);
      case None =>
        match Holder(l', id) {
          case None =>
          case Some(n) => assert At(l', n) == Some(l'.entries[n]);
        }
    }
  }

  // ---------------------------------------------------------------- what a withdrawal reports

  /** One report for each listed entry that the bill does not show, in order, by what the entry was. */
  function Reports(l: Ledger, names: seq<nat>, observed: set<string>, dry: bool): seq<Outcome> {
    if names == [] then []
    else
      var rest := Reports(l, names[1..], observed, dry);
      if names[0] !in l.entries || !Withdrawn(l.entries[names[0]], observed) then rest
      else if dry then [WouldRemove(names[0], NotInBill)] + rest
      else
        match l.entries[names[0]].docstatus
        case Draft => [DeletedEntry(names[0], NotInBill)] + rest
        case Submitted => [CancelledEntry(names[0], NotInBill)] + rest
        case Cancelled => [AlreadyCancelled(names[0], NotInBill)] + rest
  }

  predicate Once(names: seq<nat>) {
    forall i, j | 0 <= i < j < |names| :: names[i] != names[j]
  }

  lemma {:induction false} ReportsElsewhere(l: Ledger, l': Ledger, names: seq<nat>, observed: set<string>, dry: bool)
    requires forall n | n in names :: At(l', n) == At(l, n)
    ensures Reports(l', names, observed, dry) == Reports(l, names, observed, dry)
  {
    if names != [] {
      assert At(l', names[0]) == At(l, names[0]);
      ReportsElsewhere(l, l', names[1..], observed, dry);
    }
  }

  lemma {:induction false} WithdrawalReports(l: Ledger, names: seq<nat>, observed: set<string>, dry: bool)
    requires Once(names)
    ensures Withdraw(l, names, observed, dry).1 == Reports(l, names, observed, dry)
    decreases |names|
  {
    if names != [] {
      var n := names[0];
      if n !in l.entries || !Withdrawn(l.entries[n], observed) {
        WithdrawalReports(l, names[1..], observed, dry);
      } else {
        var l1 := if dry then l else Remove(l, n);
        WithdrawalReports(l1, names[1..], observed, dry);
        if !dry {
          RemoveIsExact(l, n);
          ReportsElsewhere(l, l1, names[1..], observed, dry);
        }
      }
    }
  }
}
