/**
 * The clean-up of duplicate File rows: of the rows that name the same file for the same target one is
 * kept, the one that knows most about its origin.
 */
module FileDedup {
  import opened Text

  type FileKey = (string, string, string)

  datatype Row = Row(
    name: string, doctype: string, isPrivate: bool,
    target: string, hash: string, url: string, attachment: string, message: string, creation: string)
  {
    /** The rows the patch asks for. */
    predicate Eligible() { doctype == "Bank Transaction" && isPrivate && hash != "" && url != "" }

    function Key(): FileKey { (target, hash, url) }

    predicate Complete() { target != "" && hash != "" && url != "" }
  }

  /** `b` ranks above `a`: by attachment id, then source message, then creation. */
  predicate Outranks(b: Row, a: Row) {
    if (b.attachment != "") != (a.attachment != "") then b.attachment != ""
    else if (b.message != "") != (a.message != "") then b.message != ""
    else TextBelow(a.creation, b.creation)
  }

  lemma OutranksIsAnOrder(a: Row, b: Row, c: Row)
    ensures !Outranks(a, a) && !(Outranks(a, b) && Outranks(b, a))
    ensures Outranks(a, b) ==> Outranks(a, c) || Outranks(c, b)
  {
    TextIsTotal(a.creation, a.creation);
    TextIsTotal(a.creation, b.creation);
    TextIsTotal(a.creation, c.creation);
    if TextBelow(b.creation, a.creation) && TextBelow(a.creation, c.creation) {
      TextIsTransitive(b.creation, a.creation, c.creation);
    }
  }

  /** The first row of the group that none outranks. */
  function Keeper(group: seq<Row>): Row
    requires group != []
  {
    var last := group[|group| - 1];
    if |group| == 1 then last
    else
      var best := Keeper(group[..|group| - 1]);
      if Outranks(last, best) then last else best
  }

  lemma BetterStaysUnbeaten(best: Row, last: Row, r: Row)
    requires !Outranks(r, best) && Outranks(last, best)
    ensures !Outranks(r, last)
  {
    OutranksIsAnOrder(last, best, r);
    OutranksIsAnOrder(r, last, best);
  }

  lemma {:induction false} KeeperIsGreatest(group: seq<Row>)
    requires group != []
    ensures Keeper(group) in group && forall r | r in group :: !Outranks(r, Keeper(group))
  {
    var before, last := group[..|group| - 1], group[|group| - 1];
    assert group == before + [last];
    OutranksIsAnOrder(last, last, last);
    if before != [] {
      KeeperIsGreatest(before);
      var best := Keeper(before);
      if Outranks(last, best) {
        forall r | r in before ensures !Outranks(r, last) {
          BetterStaysUnbeaten(best, last, r);
        }
      }
    }
  }

  function Group(listing: seq<Row>, key: FileKey): seq<Row> {
    if listing == [] then []
    else
      var before, r := Group(listing[..|listing| - 1], key), listing[|listing| - 1];
      if r.Complete() && r.Key() == key then before + [r] else before
  }

  lemma {:induction false} GroupIs(listing: seq<Row>, key: FileKey)
    ensures forall r :: r in Group(listing, key) <==> r in listing && r.Complete() && r.Key() == key
  {
    if listing != [] {
      assert listing == listing[..|listing| - 1] + [listing[|listing| - 1]];
      GroupIs(listing[..|listing| - 1], key);
    }
  }

  /** The names a group loses: all but its keeper's. */
  ghost function Spare(group: seq<Row>): set<string>
    requires group != []
  {
    set r | r in group && r.name != Keeper(group).name :: r.name
  }

  /** The rows the patch removes: in a complete group, and not the one it keeps. */
  ghost function Redundant(listing: seq<Row>): set<string> {
    set r | r in listing && r.Complete()
            && Group(listing, r.Key()) != [] && r.name != Keeper(Group(listing, r.Key())).name :: r.name
  }

  // ---------------------------------------------------------------- the patch

  type Table = map<string, Row>
  type Groups = map<FileKey, seq<Row>>

  ghost predicate GroupsOf(groups: Groups, listing: seq<Row>) {
    && (forall k :: k in groups <==> Group(listing, k) != [])
    && (forall k | k in groups :: groups[k] == Group(listing, k))
  }

  method GroupRows(listing: seq<Row>) returns (groups: Groups)
    ensures GroupsOf(groups, listing)
  {
    groups := map[];
    for i := 0 to |listing|
      invariant GroupsOf(groups, listing[..i])
    {
      var row := listing[i];
      var key := row.Key();
      assert listing[..i + 1][..i] == listing[..i];
      if row.Complete() {
        groups := groups[key := (if key in groups then groups[key] else []) + [row]];
      }
    }
    assert listing[..|listing|] == listing;
  }

  /** The names that the groups of some keys lose. */
  ghost function Losers(groups: Groups, keys: set<FileKey>): set<string> {
    set k, n | k in keys && k in groups && groups[k] != [] && n in Spare(groups[k]) :: n
  }

  lemma LosersOfOneMore(groups: Groups, done: set<FileKey>, key: FileKey)
    requires key in groups && groups[key] != []
    ensures Losers(groups, done + {key}) == Losers(groups, done) + Spare(groups[key])
    ensures |groups[key]| < 2 ==> Spare(groups[key]) == {}
  {
    if |groups[key]| < 2 {
      assert forall r | r in groups[key] :: r == groups[key][0];
    }
  }

  lemma LosersAreRedundant(listing: seq<Row>, groups: Groups)
    requires GroupsOf(groups, listing)
    ensures Losers(groups, groups.Keys) == Redundant(listing)
  {
    forall n | n in Losers(groups, groups.Keys) ensures n in Redundant(listing) {
      var k :| k in groups && n in Spare(groups[k]);
      var r :| r in groups[k] && r.name != Keeper(groups[k]).name && r.name == n;
      GroupIs(listing, k);
    }
    forall n | n in Redundant(listing) ensures n in Losers(groups, groups.Keys) {
      var r :| r in listing && r.Complete() && Group(listing, r.Key()) != [] && r.name == n
               && r.name != Keeper(Group(listing, r.Key())).name;
      GroupIs(listing, r.Key());
      assert r.name in Spare(groups[r.Key()]);
    }
  }

  lemma RemovedTwice(table: Table, first: set<string>, second: set<string>)
    ensures table - first - second == table - (first + second)
    ensures second == {} ==> table - first == table - (first + second)
  {
  }

  class FileTable {
    var rows: Table

    constructor (rows: Table)
      ensures this.rows == rows
    {
      this.rows := rows;
    }

    /** Removes the rows of one group, but its keeper. */
    method KeepOne(group: seq<Row>)
      requires group != []
      modifies this
      ensures rows == old(rows) - Spare(group)
    {
      var keeper := Keeper(group);
      for j := 0 to |group|
        invariant rows == old(rows) - set r | r in group[..j] && r.name != keeper.name :: r.name
      {
        if group[j].name != keeper.name {
          rows := rows - {group[j].name};
        }
      }
      assert group[..|group|] == group;
    }

    method Execute(listing: seq<Row>)
      modifies this
      ensures rows == old(rows) - Redundant(listing)
    {
      var groups := GroupRows(listing);
      var todo := groups.Keys;
      ghost var done: set<FileKey> := {};
      while todo != {}
        invariant todo + done == groups.Keys
        invariant rows == old(rows) - Losers(groups, done)
      {
        var key :| key in todo;
        var group := groups[key];
        if |group| >= 2 {
          KeepOne(group);
        }
        LosersOfOneMore(groups, done, key);
        RemovedTwice(old(rows), Losers(groups, done), Spare(group));
        todo, done := todo - {key}, done + {key};
      }
      LosersAreRedundant(listing, groups);
    }
  }

  // ---------------------------------------------------------------- what remains

  /** Rows are stored under their own names. */
  ghost predicate Named(table: Table) {
    forall n | n in table :: table[n].name == n
  }

  /** The listing has every eligible row of the table, in any order, and no other. */
  ghost predicate Lists(listing: seq<Row>, table: Table) {
    forall r :: r in listing <==> r.name in table && table[r.name] == r && r.Eligible()
  }

  /** The eligible rows of one complete key. */
  ghost function Copies(table: Table, key: FileKey): set<Row> {
    set n | n in table && table[n].Eligible() && table[n].Complete() && table[n].Key() == key :: table[n]
  }

  lemma KeptIsKeeper(table: Table, listing: seq<Row>, r: Row)
    requires Named(table) && Lists(listing, table)
    requires r in listing && r.Complete()
    ensures var group := Group(listing, r.Key());
            && group != []
            && Keeper(group) in listing && Keeper(group).Complete() && Keeper(group).Key() == r.Key()
            && (r.name in Redundant(listing) <==> r != Keeper(group))
            && Keeper(group).name !in Redundant(listing)
  {
    var group := Group(listing, r.Key());
    GroupIs(listing, r.Key());
    KeeperIsGreatest(group);
    assert forall a, b | a in listing && b in listing && a.name == b.name :: a == b;
  }

  /** Of the rows of a complete key exactly one remains, and none of the others outranks it. */
  lemma OneCopyRemains(table: Table, listing: seq<Row>, key: FileKey)
    requires Named(table) && Lists(listing, table) && Copies(table, key) != {}
    ensures exists kept ::
              && kept in Copies(table, key)
              && Copies(table - Redundant(listing), key) == {kept}
              && forall r | r in Copies(table, key) :: !Outranks(r, kept)
  {
    var r :| r in Copies(table, key);
    assert r.Key() == key && r in listing;
    KeptIsKeeper(table, listing, r);
    var kept, after := Keeper(Group(listing, key)), table - Redundant(listing);
    assert kept in Copies(table, key) by {
      assert table[kept.name] == kept;
    }
    forall c | c in Copies(table, key)
      ensures !Outranks(c, kept) && (c.name in Redundant(listing) <==> c != kept) {
      assert c.Key() == key && c in listing;
      KeptIsKeeper(table, listing, c);
      GroupIs(listing, key);
      KeeperIsGreatest(Group(listing, key));
    }
    assert Copies(after, key) <= Copies(table, key);
    assert after[kept.name] == kept;
    assert Copies(after, key) == {kept};
  }

  /** Rows that are not eligible or whose key is incomplete stay, and nothing is changed or added. */
  lemma OthersStay(table: Table, listing: seq<Row>, n: string)
    requires Named(table) && Lists(listing, table)
    ensures n in table - Redundant(listing) ==> n in table && (table - Redundant(listing))[n] == table[n]
    ensures n in table && !(table[n].Eligible() && table[n].Complete()) ==> n in table - Redundant(listing)
  {
  }

  ghost function Urls(table: Table): set<string> {
    set n | n in table :: table[n].url
  }

  /** Every file that some row named is still named by one. */
  lemma UrlsStay(table: Table, listing: seq<Row>)
    requires Named(table) && Lists(listing, table)
    ensures Urls(table - Redundant(listing)) == Urls(table)
  {
    var after := table - Redundant(listing);
    forall n | n in table ensures table[n].url in Urls(after) {
      var r := table[n];
      if n in Redundant(listing) {
        KeptIsKeeper(table, listing, r);
        var kept := Keeper(Group(listing, r.Key()));
        assert kept.name in after && after[kept.name].url == r.url;
      } else {
        assert n in after;
      }
    }
  }

  /** A second run removes nothing, in whatever order the rows come. */
  lemma SecondRunRemovesNothing(table: Table, listing: seq<Row>, again: seq<Row>)
    requires Named(table) && Lists(listing, table)
    requires Lists(again, table - Redundant(listing))
    ensures Redundant(again) == {}
  {
    var after := table - Redundant(listing);
    forall r | r in again && r.Complete() ensures r.name !in Redundant(again) {
      KeptIsKeeper(after, again, r);
      var kept := Keeper(Group(again, r.Key()));
      assert r in Copies(after, r.Key()) && kept in Copies(after, r.Key());
      assert r in Copies(table, r.Key());
      OneCopyRemains(table, listing, r.Key());
    }
  }

  // ---------------------------------------------------------------- the same by the rows' own fields

  /** The two rows are of the same file on the same target. */
  predicate SameFile(r: Row, s: Row) {
    r.target == s.target && r.hash == s.hash && r.url == s.url
  }

  /** The rows the patch is about: private files of a bank transaction, with target, content hash and url. */
  predicate Concerned(r: Row) {
    r.doctype == "Bank Transaction" && r.isPrivate && r.target != "" && r.hash != "" && r.url != ""
  }

  /** `b` says more of its origin than `a`: an attachment id first, then a source message, then a later creation. */
  predicate SaysMore(b: Row, a: Row) {
    || (b.attachment != "" && a.attachment == "")
    || ((b.attachment == "") == (a.attachment == "") && b.message != "" && a.message == "")
    || ((b.attachment == "") == (a.attachment == "") && (b.message == "") == (a.message == "")
        && TextBelow(a.creation, b.creation))
  }

  /**
   * Of the rows concerned exactly one remains for each file on each target, none of those removed says
   * more than it, and every other row of the table remains.
   */
  lemma OneRowAFile(table: Table, listing: seq<Row>, n: string)
    requires Named(table) && Lists(listing, table) && n in table
    ensures var after := table - Redundant(listing);
            if Concerned(table[n]) then
              exists k :: && k in after && k in table && SameFile(table[k], table[n]) && Concerned(table[k])
                          && (forall m | m in after && Concerned(table[m]) && SameFile(table[m], table[n]) :: m == k)
                          && (forall m | m in table && Concerned(table[m]) && SameFile(table[m], table[n]) ::
                                !SaysMore(table[m], table[k]))
            else n in after
  {
    var r := table[n];
    if Concerned(r) {
      assert r in listing;
      KeptIsKeeper(table, listing, r);
      var kept := Keeper(Group(listing, r.Key()));
      forall m | m in table && Concerned(table[m]) && SameFile(table[m], r)
        ensures !SaysMore(table[m], kept) && (m in table - Redundant(listing) ==> m == kept.name)
      {
        assert table[m] in listing;
        KeptIsKeeper(table, listing, table[m]);
        GroupIs(listing, r.Key());
        KeeperIsGreatest(Group(listing, r.Key()));
      }
    }
  }
}
