/** Replay of the feeds: overlapping, repeated and reordered listings book what one listing would. */
module BankingReplay {
  import opened Money
  import opened Banking

  // ---------------------------------------------------------------- what the listings agree on

  predicate SameKey(a: Item, b: Item) {
    a.Movement? == b.Movement? && a.id == b.id
  }

  /** A payload does not change between listings. */
  ghost predicate Consistent(items: seq<Item>) {
    forall a, b | a in items && b in items && SameKey(a, b) && a.id != "" :: a == b
  }

  /** No two rows share an id of either feed. */
  predicate Keyed(rows: seq<Transaction>) {
    forall i, j | 0 <= i < j < |rows| ::
      && (rows[i].financialId != "" ==> rows[i].financialId != rows[j].financialId)
      && (rows[i].expenseId != "" ==> rows[i].expenseId != rows[j].expenseId)
  }

  predicate NoRepeats<T(==)>(s: seq<T>) {
    forall i, j | 0 <= i < j < |s| :: s[i] != s[j]
  }

  /** What the item is worth to the account. */
  function Worth(item: Item): real {
    match item
    case Movement(_, _, _, _, net, _, _) => net
    case Expense(_, _, billed, _) => -Magnitude(Units(AsMoney(billed)))
  }

  // ---------------------------------------------------------------- new rows and old rows

  /** The items that get a row, in the order of the listing. */
  function Firsts(settings: Settings, rows: seq<Transaction>, items: seq<Item>): seq<Item> {
    if items == [] then []
    else
      var before, x := Firsts(settings, rows, items[..|items| - 1]), items[|items| - 1];
      if Judge(settings, rows, x) == Creates && x !in before then before + [x] else before
  }

  function BookedAll(settings: Settings, items: seq<Item>): seq<Transaction> {
    seq(|items|, i requires 0 <= i < |items| => Booked(settings, items[i]))
  }

  predicate Touches(settings: Settings, item: Item, row: Transaction) {
    item.Expense? && !Refused(settings, item) && row.Holds(item)
  }

  /** An older row after the listing: an expense seen again refreshes its digest. */
  function Retouch(settings: Settings, row: Transaction, items: seq<Item>): (r: Transaction)
    ensures r.financialId == row.financialId && r.expenseId == row.expenseId && r.Effect() == row.Effect()
  {
    if items == [] then row
    else
      var before, x := Retouch(settings, row, items[..|items| - 1]), items[|items| - 1];
      if Touches(settings, x, row) then before.(digest := x.digest) else before
  }

  function RetouchAll(settings: Settings, rows: seq<Transaction>, items: seq<Item>): seq<Transaction> {
    seq(|rows|, i requires 0 <= i < |rows| => Retouch(settings, rows[i], items))
  }

  lemma {:induction false} FirstsAreNew(settings: Settings, rows: seq<Transaction>, items: seq<Item>)
    ensures NoRepeats(Firsts(settings, rows, items))
    ensures forall x :: x in Firsts(settings, rows, items) <==> x in items && Judge(settings, rows, x) == Creates
  {
    if items != [] {
      var before := items[..|items| - 1];
      assert items == before + [items[|items| - 1]];
      FirstsAreNew(settings, rows, before);
    }
  }

  lemma {:induction false} RetouchMeans(settings: Settings, row: Transaction, items: seq<Item>)
    requires Consistent(items)
    ensures forall x | x in items && Touches(settings, x, row) ::
              Retouch(settings, row, items) == row.(digest := x.digest)
    ensures (forall x | x in items :: !Touches(settings, x, row)) ==> Retouch(settings, row, items) == row
  {
    if items != [] {
      var before, y := items[..|items| - 1], items[|items| - 1];
      assert items == before + [y];
      RetouchMeans(settings, row, before);
      if Touches(settings, y, row) {
        assert forall x | x in items && Touches(settings, x, row) :: SameKey(x, y);
        if x :| x in before && Touches(settings, x, row) {
          assert Retouch(settings, row, before) == row.(digest := x.digest);
        }
      }
    }
  }

  lemma KnownAmong(settings: Settings, rows: seq<Transaction>, items: seq<Item>, booked: seq<Item>, x: Item)
    requires forall y | y in booked :: y.id != "" && (SameKey(x, y) ==> x == y)
    requires x.id != ""
    ensures var older, newer := RetouchAll(settings, rows, items), BookedAll(settings, booked);
            && Known(older, x) == Known(rows, x)
            && Known(newer, x) == (x in booked)
            && Known(older + newer, x) == (Known(rows, x) || x in booked)
  {
    var older, newer := RetouchAll(settings, rows, items), BookedAll(settings, booked);
    assert forall i | 0 <= i < |rows| :: older[i].Holds(x) == rows[i].Holds(x);
    forall i | 0 <= i < |booked| ensures newer[i].Holds(x) == (booked[i] == x) {
      assert booked[i] in booked;
    }
    if i: nat :| i < |booked| && booked[i] == x {
      assert newer[i].Holds(x);
      assert (older + newer)[|older| + i].Holds(x);
    }
    if i :| 0 <= i < |rows| && rows[i].Holds(x) {
      assert older[i].Holds(x) && (older + newer)[i].Holds(x);
    }
  }

  /** An older row that the listing names again: it alone is refreshed. */
  lemma OlderIsRefreshed(settings: Settings, rows: seq<Transaction>, before: seq<Item>, newer: seq<Transaction>,
                         x: Item)
    requires Keyed(rows) && x.Expense? && !Refused(settings, x) && Known(rows, x)
    requires Known(RetouchAll(settings, rows, before) + newer, x)
    ensures var all := RetouchAll(settings, rows, before) + newer;
            all[At(all, x) := all[At(all, x)].(digest := x.digest)] == RetouchAll(settings, rows, before + [x]) + newer
  {
    var older, after := RetouchAll(settings, rows, before), RetouchAll(settings, rows, before + [x]);
    assert (before + [x])[..|before|] == before;
    var k, i := At(rows, x), At(older + newer, x);
    assert (older + newer)[k].Holds(x);
    assert i < |older| && rows[i].Holds(x) && i == k;
    forall j | 0 <= j < |rows| ensures after[j] == if j == i then older[j].(digest := x.digest) else older[j] {
    }
  }

  lemma OlderStay(settings: Settings, rows: seq<Transaction>, before: seq<Item>, x: Item)
    requires x.Movement? || Refused(settings, x) || !Known(rows, x)
    ensures RetouchAll(settings, rows, before + [x]) == RetouchAll(settings, rows, before)
  {
    assert (before + [x])[..|before|] == before;
    forall j | 0 <= j < |rows|
      ensures Retouch(settings, rows[j], before + [x]) == Retouch(settings, rows[j], before) {
    }
  }

  lemma ImportStep(settings: Settings, rows: seq<Transaction>, before: seq<Item>, x: Item)
    requires Keyed(rows) && Consistent(before + [x])
    ensures Import(settings,
                   RetouchAll(settings, rows, before) + BookedAll(settings, Firsts(settings, rows, before)), x)
         == RetouchAll(settings, rows, before + [x]) + BookedAll(settings, Firsts(settings, rows, before + [x]))
  {
    var older, booked := RetouchAll(settings, rows, before), Firsts(settings, rows, before);
    var newer := BookedAll(settings, booked);
    assert (before + [x])[..|before|] == before;
    FirstsAreNew(settings, rows, before);
    if x.id != "" {
      KnownAmong(settings, rows, before, booked, x);
    }
    if Judge(settings, rows, x) == Updates {
      OlderIsRefreshed(settings, rows, before, newer, x);
    } else {
      OlderStay(settings, rows, before, x);
      if Judge(settings, rows, x) == Creates {
        if x in booked {
          BookedStays(settings, older, booked, x);
        } else {
          assert BookedAll(settings, booked + [x]) == newer + [Booked(settings, x)];
        }
      }
    }
  }

  /** A row booked by an earlier item of the listing: the same payload changes nothing. */
  lemma BookedStays(settings: Settings, older: seq<Transaction>, booked: seq<Item>, x: Item)
    requires x in booked && x.id != "" && !Known(older, x)
    requires forall y | y in booked :: y.id != "" && (SameKey(x, y) ==> x == y)
    requires Known(older + BookedAll(settings, booked), x)
    ensures Import(settings, older + BookedAll(settings, booked), x) == older + BookedAll(settings, booked)
  {
    var newer := BookedAll(settings, booked);
    assert forall j | 0 <= j < |older| :: !older[j].Holds(x);
    var i := At(older + newer, x);
    assert i >= |older|;
    assert booked[i - |older|] in booked;
    assert newer[i - |older|] == Booked(settings, x);
  }

  /**
   * The rows after any listing: the older ones, refreshed where an expense came up again, and then one
   * for each item that is eligible and was not known, in the order of its first appearance.
   */
  lemma {:induction false} ImportAllIs(settings: Settings, rows: seq<Transaction>, items: seq<Item>)
    requires Keyed(rows) && Consistent(items)
    ensures ImportAll(settings, rows, items)
            == RetouchAll(settings, rows, items) + BookedAll(settings, Firsts(settings, rows, items))
  {
    if items == [] {
      assert RetouchAll(settings, rows, items) == rows;
    } else {
      var before := items[..|items| - 1];
      assert items == before + [items[|items| - 1]];
      ImportAllIs(settings, rows, before);
      ImportStep(settings, rows, before, items[|items| - 1]);
    }
  }

  // ---------------------------------------------------------------- replay

  lemma {:induction false} ReplayFindsNothingNew(settings: Settings, rows: seq<Transaction>, items: seq<Item>,
                                                 replay: seq<Item>)
    requires forall x | x in replay :: x in items
    ensures Firsts(settings, rows, items + replay) == Firsts(settings, rows, items)
  {
    if replay == [] {
      assert items + replay == items;
    } else {
      var before, x := replay[..|replay| - 1], replay[|replay| - 1];
      assert (items + replay)[..|items + replay| - 1] == items + before;
      ReplayFindsNothingNew(settings, rows, items, before);
      FirstsAreNew(settings, rows, items);
    }
  }

  lemma RetouchedAlike(settings: Settings, rows: seq<Transaction>, items: seq<Item>, others: seq<Item>)
    requires Consistent(items) && Consistent(others)
    requires forall x :: x in items <==> x in others
    ensures RetouchAll(settings, rows, items) == RetouchAll(settings, rows, others)
  {
    forall i | 0 <= i < |rows| ensures Retouch(settings, rows[i], items) == Retouch(settings, rows[i], others) {
      RetouchMeans(settings, rows[i], items);
      RetouchMeans(settings, rows[i], others);
      if x :| x in items && Touches(settings, x, rows[i]) {
        assert x in others;
      }
    }
  }

  lemma {:induction false} ListingsCompose(settings: Settings, rows: seq<Transaction>, items: seq<Item>,
                                           more: seq<Item>)
    ensures ImportAll(settings, rows, items + more) == ImportAll(settings, ImportAll(settings, rows, items), more)
  {
    if more == [] {
      assert items + more == items;
    } else {
      assert (items + more)[..|items + more| - 1] == items + more[..|more| - 1];
      ListingsCompose(settings, rows, items, more[..|more| - 1]);
    }
  }

  /** Replaying any part of what was listed, in any order and however often, changes no row. */
  lemma ReplayChangesNothing(settings: Settings, rows: seq<Transaction>, items: seq<Item>, replay: seq<Item>)
    requires Keyed(rows) && Consistent(items) && forall x | x in replay :: x in items
    ensures ImportAll(settings, ImportAll(settings, rows, items), replay) == ImportAll(settings, rows, items)
  {
    ListingsCompose(settings, rows, items, replay);
    assert forall x :: x in items + replay <==> x in items;
    ImportAllIs(settings, rows, items);
    ImportAllIs(settings, rows, items + replay);
    ReplayFindsNothingNew(settings, rows, items, replay);
    RetouchedAlike(settings, rows, items, items + replay);
  }

  function Flatten(listings: seq<seq<Item>>): seq<Item> {
    if listings == [] then [] else Flatten(listings[..|listings| - 1]) + listings[|listings| - 1]
  }

  /** The rows after a sequence of runs, one listing each. */
  function Runs(settings: Settings, rows: seq<Transaction>, listings: seq<seq<Item>>): seq<Transaction> {
    if listings == [] then rows
    else ImportAll(settings, Runs(settings, rows, listings[..|listings| - 1]), listings[|listings| - 1])
  }

  lemma {:induction false} RunsAreOneListing(settings: Settings, rows: seq<Transaction>, listings: seq<seq<Item>>)
    ensures Runs(settings, rows, listings) == ImportAll(settings, rows, Flatten(listings))
  {
    if listings != [] {
      var before := listings[..|listings| - 1];
      RunsAreOneListing(settings, rows, before);
      ListingsCompose(settings, rows, Flatten(before), listings[|listings| - 1]);
    }
  }

  // ---------------------------------------------------------------- sets of items

  /** The rows of a set of items. */
  ghost function RowsOf(settings: Settings, items: set<Item>): multiset<Transaction> {
    if items == {} then multiset{}
    else
      var x :| x in items;
      RowsOf(settings, items - {x}) + multiset{Booked(settings, x)}
  }

  lemma {:induction false} RowsOfPick(settings: Settings, items: set<Item>, x: Item)
    requires x in items
    ensures RowsOf(settings, items) == RowsOf(settings, items - {x}) + multiset{Booked(settings, x)}
  {
    var y :| y in items && RowsOf(settings, items) == RowsOf(settings, items - {y}) + multiset{Booked(settings, y)};
    if y != x {
      RowsOfPick(settings, items - {y}, x);
      RowsOfPick(settings, items - {x}, y);
      assert items - {y} - {x} == items - {x} - {y};
    }
  }

  /** What a set of items is worth together. */
  ghost function Total(items: set<Item>): real {
    if items == {} then 0.0
    else
      var x :| x in items;
      Total(items - {x}) + Worth(x)
  }

  lemma {:induction false} TotalPick(items: set<Item>, x: Item)
    requires x in items
    ensures Total(items) == Total(items - {x}) + Worth(x)
  {
    var y :| y in items && Total(items) == Total(items - {y}) + Worth(y);
    if y != x {
      TotalPick(items - {y}, x);
      TotalPick(items - {x}, y);
      assert items - {y} - {x} == items - {x} - {y};
    }
  }

  function Distinct<T>(s: seq<T>): set<T> { set x | x in s }

  lemma LastOfDistinct(items: seq<Item>)
    requires NoRepeats(items) && items != []
    ensures var before, x := items[..|items| - 1], items[|items| - 1];
            NoRepeats(before) && x in Distinct(items) && Distinct(items) - {x} == Distinct(before)
  {
    assert items == items[..|items| - 1] + [items[|items| - 1]];
  }

  lemma LastBooked(settings: Settings, items: seq<Item>)
    requires items != []
    ensures var before, x := items[..|items| - 1], items[|items| - 1];
            BookedAll(settings, items) == BookedAll(settings, before) + [Booked(settings, x)]
  {
  }

  lemma {:induction false} BookedAreRowsOf(settings: Settings, items: seq<Item>)
    requires NoRepeats(items)
    ensures multiset(BookedAll(settings, items)) == RowsOf(settings, Distinct(items))
  {
    if items != [] {
      LastOfDistinct(items);
      BookedAreRowsOf(settings, items[..|items| - 1]);
      LastBooked(settings, items);
      RowsOfPick(settings, Distinct(items), items[|items| - 1]);
    }
  }

  lemma {:induction false} BookedAreWorth(settings: Settings, items: seq<Item>)
    requires NoRepeats(items)
    ensures Balance(BookedAll(settings, items)) == Total(Distinct(items))
  {
    if items != [] {
      var before, x := items[..|items| - 1], items[|items| - 1];
      LastOfDistinct(items);
      BookedAreWorth(settings, before);
      LastBooked(settings, items);
      assert BookedAll(settings, items)[..|items| - 1] == BookedAll(settings, before);
      TotalPick(Distinct(items), x);
    }
  }

  lemma {:induction false} BalanceSplit(a: seq<Transaction>, b: seq<Transaction>)
    ensures Balance(a + b) == Balance(a) + Balance(b)
  {
    if b == [] {
      assert a + b == a;
    } else {
      assert (a + b)[..|a + b| - 1] == a + b[..|b| - 1];
      BalanceSplit(a, b[..|b| - 1]);
    }
  }

  lemma {:induction false} RetouchKeepsBalance(settings: Settings, rows: seq<Transaction>, items: seq<Item>)
    ensures Balance(RetouchAll(settings, rows, items)) == Balance(rows)
  {
    if rows != [] {
      var before := rows[..|rows| - 1];
      RetouchKeepsBalance(settings, before, items);
      assert RetouchAll(settings, rows, items)[..|rows| - 1] == RetouchAll(settings, before, items);
    }
  }

  /** The items listed that are eligible and that no row was booked for. */
  function NewItems(settings: Settings, rows: seq<Transaction>, items: seq<Item>): set<Item> {
    set x | x in items && Judge(settings, rows, x) == Creates
  }

  /**
   * Any sequence of overlapping, repeated and reordered listings leaves the same rows, each as often,
   * as one listing that names every item once.
   */
  lemma OverlapsAreHarmless(settings: Settings, rows: seq<Transaction>, listings: seq<seq<Item>>, once: seq<Item>)
    requires Keyed(rows) && Consistent(Flatten(listings)) && Consistent(once)
    requires forall x :: x in once <==> x in Flatten(listings)
    ensures multiset(Runs(settings, rows, listings)) == multiset(ImportAll(settings, rows, once))
  {
    var items := Flatten(listings);
    RunsAreOneListing(settings, rows, listings);
    RowsAfter(settings, rows, items);
    RowsAfter(settings, rows, once);
    RetouchedAlike(settings, rows, items, once);
    assert NewItems(settings, rows, items) == NewItems(settings, rows, once);
  }

  lemma RowsAfter(settings: Settings, rows: seq<Transaction>, items: seq<Item>)
    requires Keyed(rows) && Consistent(items)
    ensures multiset(ImportAll(settings, rows, items))
         == multiset(RetouchAll(settings, rows, items)) + RowsOf(settings, NewItems(settings, rows, items))
    ensures Balance(ImportAll(settings, rows, items)) == Balance(rows) + Total(NewItems(settings, rows, items))
  {
    var booked := Firsts(settings, rows, items);
    ImportAllIs(settings, rows, items);
    FirstsAreNew(settings, rows, items);
    BookedAreRowsOf(settings, booked);
    BookedAreWorth(settings, booked);
    assert Distinct(booked) == NewItems(settings, rows, items);
    BalanceSplit(RetouchAll(settings, rows, items), BookedAll(settings, booked));
    RetouchKeepsBalance(settings, rows, items);
  }

  /**
   * Conservation: the deposits less the withdrawals grow by exactly the worth of the distinct eligible
   * items that were not known, however often each was listed.
   */
  lemma BalanceGrowsByDistinctItems(settings: Settings, rows: seq<Transaction>, listings: seq<seq<Item>>)
    requires Keyed(rows) && Consistent(Flatten(listings))
    ensures Balance(Runs(settings, rows, listings))
            == Balance(rows) + Total(NewItems(settings, rows, Flatten(listings)))
  {
    RunsAreOneListing(settings, rows, listings);
    RowsAfter(settings, rows, Flatten(listings));
  }

  // ---------------------------------------------------------------- one row an id

  /** Imports keep ids unique, whatever the payloads. */
  lemma {:induction false} IdsStayUnique(settings: Settings, rows: seq<Transaction>, items: seq<Item>)
    requires Keyed(rows)
    ensures Keyed(ImportAll(settings, rows, items))
  {
    if items != [] {
      IdsStayUnique(settings, rows, items[..|items| - 1]);
      ImportKeepsIdsUnique(settings, ImportAll(settings, rows, items[..|items| - 1]), items[|items| - 1]);
    }
  }

  lemma ImportKeepsIdsUnique(settings: Settings, rows: seq<Transaction>, x: Item)
    requires Keyed(rows)
    ensures Keyed(Import(settings, rows, x))
  {
    if Judge(settings, rows, x) == Creates {
      assert forall i | 0 <= i < |rows| :: !rows[i].Holds(x);
    }
  }

  function HowMany(rows: seq<Transaction>, x: Item): nat {
    if rows == [] then 0 else HowMany(rows[..|rows| - 1], x) + if rows[|rows| - 1].Holds(x) then 1 else 0
  }

  lemma {:induction false} HowManyAmong(rows: seq<Transaction>, x: Item)
    requires Keyed(rows) && x.id != ""
    ensures HowMany(rows, x) == if Known(rows, x) then 1 else 0
  {
    if rows != [] {
      var before := rows[..|rows| - 1];
      HowManyAmong(before, x);
      if i :| 0 <= i < |rows| && rows[i].Holds(x) {
        assert i < |before| ==> before[i].Holds(x);
      }
      if i :| 0 <= i < |before| && before[i].Holds(x) {
        assert rows[i].Holds(x);
      }
    }
  }

  /**
   * An item listed, however often, has exactly one row if it was known or is eligible, and none
   * otherwise; in particular a card purchase of the wallet feed gets none, and the expense of the same
   * purchase gets the one row that withdraws its amount.
   */
  lemma ListedItemsHaveOneRow(settings: Settings, rows: seq<Transaction>, items: seq<Item>, x: Item)
    requires Keyed(rows) && Consistent(items) && x in items && x.id != ""
    ensures HowMany(ImportAll(settings, rows, items), x) == if Known(rows, x) || !Refused(settings, x) then 1 else 0
    ensures !Known(rows, x) && !Refused(settings, x) ==> Booked(settings, x) in ImportAll(settings, rows, items)
  {
    var booked := Firsts(settings, rows, items);
    ImportAllIs(settings, rows, items);
    FirstsAreNew(settings, rows, items);
    IdsStayUnique(settings, rows, items);
    HowManyAmong(ImportAll(settings, rows, items), x);
    KnownAmong(settings, rows, items, booked, x);
    if !Known(rows, x) && !Refused(settings, x) {
      var i :| 0 <= i < |booked| && booked[i] == x;
      assert BookedAll(settings, booked)[i] == Booked(settings, x);
    }
  }
}
