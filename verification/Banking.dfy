/**
 * The two feeds that book Bank Transactions: wallet movements, and card purchases, which only the
 * expense feed books. Listings overlap and are replayed, so every import looks its id up first.
 */
module Banking {
  import opened Text
  import opened Money

  datatype Settings = Settings(settledOnly: bool, defaultCurrency: string, accounts: map<string, string>)
  {
    /** The bank account of a currency, `""` when none is mapped. */
    function Account(currency: string): string {
      var c := Else(currency, defaultCurrency);
      if c in accounts then accounts[c] else ""
    }
  }

  /** An item of a listing. `digest` stands for the payload hash and the mapped dimensions. */
  datatype Item =
    | Movement(id: string, sourceType: string, status: string, currency: string, net: real, source: string,
               digest: string)
    | Expense(id: string, currency: string, billed: real, digest: string)

  datatype Transaction = Transaction(
    financialId: string, expenseId: string, account: string, deposit: real, withdrawal: real, reference: string,
    digest: string)
  {
    function Effect(): real { deposit - withdrawal }

    /** The transaction was booked for the item. */
    predicate Holds(item: Item) {
      match item
      case Movement(_, _, _, _, _, _, _) => financialId == item.id
      case Expense(_, _, _, _) => expenseId == item.id
    }
  }

  datatype Verdict = Held | Excluded | Exists | Creates | Updates

  const CARD_PURCHASE := "CARD_PURCHASE"
  const SETTLED := "SETTLED"

  function Magnitude(x: real): real { if x < 0.0 then -x else x }

  function Booked(settings: Settings, item: Item): Transaction {
    match item
    case Movement(id, _, _, currency, net, source, digest) =>
      Transaction(id, "", settings.Account(currency), if net > 0.0 then net else 0.0, if net < 0.0 then -net else 0.0,
                  Else(source, id), digest)
    case Expense(id, currency, billed, digest) =>
      Transaction("", id, settings.Account(currency), 0.0, Magnitude(Units(AsMoney(billed))), id, digest)
  }

  predicate Refused(settings: Settings, item: Item) {
    || item.id == ""
    || settings.Account(item.currency) == ""
    || (item.Movement? && (item.sourceType == CARD_PURCHASE || (settings.settledOnly && item.status != SETTLED)))
  }

  predicate Known(rows: seq<Transaction>, item: Item) {
    exists i | 0 <= i < |rows| :: rows[i].Holds(item)
  }

  function Judge(settings: Settings, rows: seq<Transaction>, item: Item): Verdict {
    if item.id == "" then Held
    else match item
      case Movement(_, sourceType, status, currency, _, _, _) =>
        if sourceType == CARD_PURCHASE then Excluded
        else if settings.settledOnly && status != SETTLED then Held
        else if Known(rows, item) then Exists
        else if settings.Account(currency) == "" then Held
        else Creates
      case Expense(_, currency, _, _) =>
        if settings.Account(currency) == "" then Held
        else if Known(rows, item) then Updates
        else Creates
  }

  /** The row an item finds, the first of its id. */
  function At(rows: seq<Transaction>, item: Item): (i: nat)
    requires Known(rows, item)
    ensures i < |rows| && rows[i].Holds(item) && forall j | 0 <= j < i :: !rows[j].Holds(item)
  {
    if rows[0].Holds(item) then 0
    else
      assert Known(rows[1..], item) by {
        var j :| 0 <= j < |rows| && rows[j].Holds(item);
        assert rows[1..][j - 1].Holds(item);
      }
      1 + At(rows[1..], item)
  }

  /** The rows after a live import of one item. */
  function Import(settings: Settings, rows: seq<Transaction>, item: Item): seq<Transaction> {
    match Judge(settings, rows, item)
    case Creates => rows + [Booked(settings, item)]
    case Updates => rows[At(rows, item) := rows[At(rows, item)].(digest := item.digest)]
    case _ => rows
  }

  function ImportAll(settings: Settings, rows: seq<Transaction>, items: seq<Item>): seq<Transaction> {
    if items == [] then rows
    else Import(settings, ImportAll(settings, rows, items[..|items| - 1]), items[|items| - 1])
  }

  function Balance(rows: seq<Transaction>): real {
    if rows == [] then 0.0 else Balance(rows[..|rows| - 1]) + rows[|rows| - 1].Effect()
  }

  // ---------------------------------------------------------------- the services

  /** The Bank Transaction table of one settings document. */
  class Bank {
    const settings: Settings
    var rows: seq<Transaction>

    constructor (settings: Settings)
      ensures this.settings == settings && rows == []
    {
      this.settings, rows := settings, [];
    }

    /** The row booked for an item, if there is one. */
    method Lookup(item: Item) returns (found: bool, at: nat)
      ensures found == Known(rows, item) && (found ==> at == At(rows, item))
    {
      at := 0;
      while at < |rows|
        invariant at <= |rows| && forall j | 0 <= j < at :: !rows[j].Holds(item)
      {
        if rows[at].Holds(item) {
          return true, at;
        }
        at := at + 1;
      }
      found := false;
    }

    method ImportFinancialTransaction(item: Item, dryRun: bool) returns (verdict: Verdict)
      requires item.Movement?
      modifies this`rows
      ensures verdict == Judge(settings, old(rows), item)
      ensures rows == if dryRun then old(rows) else Import(settings, old(rows), item)
    {
      if item.id == "" {
        return Held;
      }
      if item.sourceType == CARD_PURCHASE {
        return Excluded;
      }
      if settings.settledOnly && item.status != SETTLED {
        return Held;
      }
      var existing, _ := Lookup(item);
      if existing {
        return Exists;
      }
      var account := settings.Account(item.currency);
      if account == "" {
        return Held;
      }
      var deposit, withdrawal := 0.0, 0.0;
      if item.net > 0.0 {
        deposit := item.net;
      }
      if item.net < 0.0 {
        withdrawal := -item.net;
      }
      if !dryRun {
        rows := rows + [Transaction(item.id, "", account, deposit, withdrawal, Else(item.source, item.id),
                                    item.digest)];
      }
      return Creates;
    }

    method ImportExpense(item: Item, dryRun: bool) returns (verdict: Verdict)
      requires item.Expense?
      modifies this`rows
      ensures verdict == Judge(settings, old(rows), item)
      ensures rows == if dryRun then old(rows) else Import(settings, old(rows), item)
    {
      if item.id == "" {
        return Held;
      }
      var existing, at := Lookup(item);
      var account := settings.Account(item.currency);
      if account == "" {
        return Held;
      }
      if !existing {
        if !dryRun {
          var withdrawal := Magnitude(Units(AsMoney(item.billed)));
          rows := rows + [Transaction("", item.id, account, 0.0, withdrawal, item.id, item.digest)];
        }
        return Creates;
      }
      if !dryRun {
        rows := rows[at := rows[at].(digest := item.digest)];
      }
      return Updates;
    }

    /** One listing of either feed, item by item; `counts` says how often each verdict came up. */
    method Sync(items: seq<Item>, dryRun: bool) returns (counts: map<Verdict, nat>)
      modifies this`rows
      ensures rows == if dryRun then old(rows) else ImportAll(settings, old(rows), items)
      ensures forall v :: (if v in counts then counts[v] else 0) ==
                          multiset(Verdicts(settings, old(rows), items, dryRun))[v]
    {
      counts := map[];
      ghost var verdicts := [];
      for k := 0 to |items|
        invariant verdicts == Verdicts(settings, old(rows), items[..k], dryRun)
        invariant rows == if dryRun then old(rows) else ImportAll(settings, old(rows), items[..k])
        invariant forall v :: (if v in counts then counts[v] else 0) == multiset(verdicts)[v]
      {
        var verdict;
        if items[k].Movement? {
          verdict := ImportFinancialTransaction(items[k], dryRun);
        } else {
          verdict := ImportExpense(items[k], dryRun);
        }
        assert items[..k + 1][..k] == items[..k];
        verdicts := verdicts + [verdict];
        counts := counts[verdict := (if verdict in counts then counts[verdict] else 0) + 1];
      }
      assert items[..|items|] == items;
    }
  }

  function Verdicts(settings: Settings, rows: seq<Transaction>, items: seq<Item>, dryRun: bool): seq<Verdict> {
    if items == [] then []
    else
      var before := items[..|items| - 1];
      var now := if dryRun then rows else ImportAll(settings, rows, before);
      Verdicts(settings, rows, before, dryRun) + [Judge(settings, now, items[|items| - 1])]
  }

  // ---------------------------------------------------------------- what is booked, and when

  /** The currency an item is in, and the account of that currency. */
  predicate AccountIs(settings: Settings, currency: string, account: string) {
    var c := if currency != "" then currency else settings.defaultCurrency;
    c in settings.accounts && account == settings.accounts[c]
  }

  /** A wallet movement goes in as its net amount, on one side only; a card purchase goes out, to the cent. */
  lemma BookedMeans(settings: Settings, item: Item)
    requires settings.Account(item.currency) != ""
    ensures var t := Booked(settings, item);
            && AccountIs(settings, item.currency, t.account) && t.digest == item.digest
            && t.deposit >= 0.0 && t.withdrawal >= 0.0 && (t.deposit == 0.0 || t.withdrawal == 0.0)
            && match item
               case Movement(id, _, _, _, net, source, _) =>
                 && t.financialId == id && t.expenseId == "" && t.deposit - t.withdrawal == net
                 && t.reference == if source != "" then source else id
               case Expense(id, _, billed, _) =>
                 && t.expenseId == id && t.financialId == "" && t.reference == id && t.deposit == 0.0
                 && (t.withdrawal == Units(AsMoney(billed)) || t.withdrawal == -Units(AsMoney(billed)))
  {
  }

  /** The table has a row for the item's id in its own feed. */
  ghost predicate HasRow(rows: seq<Transaction>, item: Item) {
    exists t :: t in rows && (if item.Movement? then t.financialId == item.id else t.expenseId == item.id)
  }

  lemma KnownMeans(rows: seq<Transaction>, item: Item)
    ensures Known(rows, item) <==> HasRow(rows, item)
  {
    if t :| t in rows && t.Holds(item) {
      var i :| 0 <= i < |rows| && rows[i] == t;
      assert rows[i].Holds(item);
    }
    if i :| 0 <= i < |rows| && rows[i].Holds(item) {
      assert rows[i] in rows;
    }
  }

  /** The verdict on an item, from its fields and the table. */
  lemma JudgeMeans(settings: Settings, rows: seq<Transaction>, item: Item)
    ensures var mapped := exists account :: AccountIs(settings, item.currency, account) && account != "";
            var purchase := item.Movement? && item.sourceType == "CARD_PURCHASE";
            var unsettled := item.Movement? && settings.settledOnly && item.status != "SETTLED";
            Judge(settings, rows, item)
            == if item.id == "" then Held
               else if purchase then Excluded
               else if unsettled then Held
               else if item.Movement? && HasRow(rows, item) then Exists
               else if !mapped then Held
               else if HasRow(rows, item) then Updates
               else Creates
  {
    KnownMeans(rows, item);
    var c := if item.currency != "" then item.currency else settings.defaultCurrency;
    if settings.Account(item.currency) != "" {
      assert AccountIs(settings, item.currency, settings.accounts[c]);
    }
  }

  /** An item is refused for want of an id or an account, as a card purchase, or as not settled. */
  lemma RefusedMeans(settings: Settings, item: Item)
    ensures Refused(settings, item) <==>
              || item.id == ""
              || (forall account | AccountIs(settings, item.currency, account) :: account == "")
              || (item.Movement? && item.sourceType == "CARD_PURCHASE")
              || (item.Movement? && settings.settledOnly && item.status != "SETTLED")
  {
    var c := if item.currency != "" then item.currency else settings.defaultCurrency;
    if settings.Account(item.currency) != "" {
      assert AccountIs(settings, item.currency, settings.accounts[c]);
    }
  }
}
