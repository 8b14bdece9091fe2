/**
 * Reading a paged listing: by page number, and by following the cursor each page carries. Both
 * generators yield the records of a page in order, skip what is not a record, and stop at a maximum.
 */
module Pagination {

  datatype Item<T> = Record(value: T) | Other

  function Records<T>(items: seq<Item<T>>): seq<T> {
    if items == [] then []
    else if items[0].Record? then [items[0].value] + Records(items[1..])
    else Records(items[1..])
  }

  function AtMost<T>(s: seq<T>, n: int): seq<T> {
    if n <= 0 then [] else if n < |s| then s[..n] else s
  }

  lemma {:induction false} RecordsSplit<T>(a: seq<Item<T>>, b: seq<Item<T>>)
    ensures Records(a + b) == Records(a) + Records(b)
  {
    if a == [] {
      assert a + b == b;
    } else {
      assert (a + b)[1..] == a[1..] + b;
      RecordsSplit(a[1..], b);
    }
  }

  lemma NextItem<T>(items: seq<Item<T>>, i: nat)
    requires i < |items|
    ensures Records(items[i..]) == (if items[i].Record? then [items[i].value] else []) + Records(items[i + 1..])
  {
    assert items[i..][0] == items[i] && items[i..][1..] == items[i + 1..];
  }

  /** What one page more leaves to read, or the cut it comes to. */
  lemma OnePage<T>(all: seq<T>, yielded: seq<T>, page: seq<Item<T>>, later: seq<Item<T>>, maxItems: int)
    requires all == yielded + Records(page + later) && |yielded| < maxItems
    ensures var out := AtMost(yielded + Records(page), maxItems);
            if |yielded| + |Records(page)| >= maxItems then out == AtMost(all, maxItems)
            else |out| < maxItems && all == out + Records(later)
  {
    RecordsSplit(page, later);
    assert all == (yielded + Records(page)) + Records(later);
  }

  /** The loop over one page, shared by both generators: `full` once the maximum is reached. */
  method YieldPage<T>(yielded: seq<T>, items: seq<Item<T>>, maxItems: int) returns (out: seq<T>, full: bool)
    requires |yielded| < maxItems
    ensures out == AtMost(yielded + Records(items), maxItems)
    ensures full == (|yielded| + |Records(items)| >= maxItems)
  {
    out := yielded;
    assert items[0..] == items;
    for i := 0 to |items|
      invariant |out| < maxItems && yielded + Records(items) == out + Records(items[i..])
    {
      NextItem(items, i);
      if items[i].Record? {
        out := out + [items[i].value];
        if |out| >= maxItems {
          return out, true;
        }
      }
    }
    full := false;
  }

  // ---------------------------------------------------------------- numbered pages

  function PageSize(asked: int): (size: nat)
    ensures 1 <= size <= 1000 && (1 <= asked <= 1000 ==> size == asked)
  {
    var low := if asked < 1 then 1 else asked;
    if low > 1000 then 1000 else low
  }

  function From<T>(s: seq<T>, k: nat): seq<T> {
    if k <= |s| then s[k..] else []
  }

  /** What is left of the server's sequence from a page on. */
  function Rest<T>(server: seq<T>, size: nat, number: nat): seq<T> {
    From(server, number * size)
  }

  /** The server cuts its sequence into pages of `size`; the last is short, those past it empty. */
  function Page<T>(server: seq<T>, size: nat, number: nat): (page: seq<T>)
    ensures |page| <= size
    ensures Rest(server, size, number) == page + (if |page| < size then [] else Rest(server, size, number + 1))
  {
    assert (number + 1) * size == number * size + size;
    var tail := Rest(server, size, number);
    if size < |tail| then tail[..size] else tail
  }

  /** Page by page, the generator yields the records from its first page on, cut at the maximum. */
  method PaginateNumbered<T>(server: seq<Item<T>>, askedSize: int, firstPage: nat, maxItems: int) returns (out: seq<T>)
    ensures out == AtMost(Records(From(server, firstPage * PageSize(askedSize))), maxItems)
  {
    out := [];
    var size, number := PageSize(askedSize), firstPage;
    ghost var all := Records(Rest(server, size, firstPage));
    ghost var rest := Rest(server, size, firstPage);
    while |out| < maxItems
      invariant |out| < maxItems || (maxItems <= 0 && out == [])
      invariant rest == Rest(server, size, number)
      invariant all == out + Records(rest)
      decreases |rest|
    {
      var items := Page(server, size, number);
      if items == [] {
        return;
      }
      ghost var later := if |items| < size then [] else Rest(server, size, number + 1);
      OnePage(all, out, items, later, maxItems);
      var full;
      out, full := YieldPage(out, items, maxItems);
      if full || |items| < size {
        return;
      }
      number, rest := number + 1, later;
    }
  }

  /** A server of records only, read from page zero, yields exactly its own first records. */
  lemma {:induction false} RecordsOfRecords<T>(items: seq<Item<T>>)
    requires forall item | item in items :: item.Record?
    ensures |Records(items)| == |items| && forall i | 0 <= i < |items| :: Records(items)[i] == items[i].value
  {
    if items != [] {
      RecordsOfRecords(items[1..]);
    }
  }

  // ---------------------------------------------------------------- bookmarked pages

  /** A page and the cursor of the next; the empty cursor stands for a missing one. */
  datatype Leaf<T> = Leaf(items: seq<Item<T>>, next: string)

  /** A cursor the server does not know gets an empty last page. */
  datatype Server<T> = Server(first: Leaf<T>, leaves: map<string, Leaf<T>>)
  {
    function At(cursor: string): Leaf<T> {
      if cursor in leaves then leaves[cursor] else Leaf([], "")
    }

    /** Twice the unseen cursors, and one while there is a cursor to follow. */
    function Measure(leaf: Leaf<T>, seen: set<string>): nat {
      2 * |leaves.Keys - seen| + if leaf.next == "" then 0 else 1
    }

    predicate Ends(leaf: Leaf<T>, seen: set<string>) { leaf.next == "" || leaf.next in seen }

    lemma MeasureFalls(leaf: Leaf<T>, seen: set<string>)
      requires !Ends(leaf, seen)
      ensures Measure(At(leaf.next), seen + {leaf.next}) < Measure(leaf, seen)
    {
      var before, after := leaves.Keys - seen, leaves.Keys - (seen + {leaf.next});
      if leaf.next in leaves {
        assert before == after + {leaf.next};
      } else {
        assert before == after;
      }
    }

    /** The cursors followed after `leaf`: up to a missing one or one seen before. */
    function FollowedFrom(leaf: Leaf<T>, seen: set<string>): seq<string>
      decreases Measure(leaf, seen)
    {
      if Ends(leaf, seen) then []
      else
        MeasureFalls(leaf, seen);
        [leaf.next] + FollowedFrom(At(leaf.next), seen + {leaf.next})
    }

    function Followed(): seq<string> { FollowedFrom(first, {}) }

    function ItemsAt(cursors: seq<string>): seq<Item<T>> {
      if cursors == [] then [] else At(cursors[0]).items + ItemsAt(cursors[1..])
    }

    /** The items from `leaf` on, page by page. */
    function ItemsFrom(leaf: Leaf<T>, seen: set<string>): seq<Item<T>>
      decreases Measure(leaf, seen)
    {
      if Ends(leaf, seen) then leaf.items
      else
        MeasureFalls(leaf, seen);
        leaf.items + ItemsFrom(At(leaf.next), seen + {leaf.next})
    }

    function Listing(): seq<Item<T>> { ItemsFrom(first, {}) }

    lemma {:induction false} ItemsAreOfFollowed(leaf: Leaf<T>, seen: set<string>)
      ensures ItemsFrom(leaf, seen) == leaf.items + ItemsAt(FollowedFrom(leaf, seen))
      decreases Measure(leaf, seen)
    {
      if !Ends(leaf, seen) {
        MeasureFalls(leaf, seen);
        ItemsAreOfFollowed(At(leaf.next), seen + {leaf.next});
        assert FollowedFrom(leaf, seen)[1..] == FollowedFrom(At(leaf.next), seen + {leaf.next});
      }
    }

    /** The listing is the first page and the pages of the cursors followed. */
    lemma ListingIsOfFollowed()
      ensures Listing() == first.items + ItemsAt(Followed())
    {
      ItemsAreOfFollowed(first, {});
    }

    lemma FollowsOn(leaf: Leaf<T>, seen: set<string>)
      ensures Ends(leaf, seen) ==> FollowedFrom(leaf, seen) == [] && ItemsFrom(leaf, seen) == leaf.items + []
      ensures !Ends(leaf, seen) ==>
                var next, more := At(leaf.next), seen + {leaf.next};
                && FollowedFrom(leaf, seen) == [leaf.next] + FollowedFrom(next, more)
                && ItemsFrom(leaf, seen) == leaf.items + ItemsFrom(next, more)
                && Measure(next, more) < Measure(leaf, seen)
    {
      if !Ends(leaf, seen) {
        MeasureFalls(leaf, seen);
      }
    }

    /** The cursor reached by following `k` more after the first page's, `""` once there is none. */
    function Nth(k: nat): string {
      if k == 0 then first.next else if Nth(k - 1) == "" then "" else At(Nth(k - 1)).next
    }

    lemma {:induction false} FollowedIsAPath(leaf: Leaf<T>, seen: set<string>, k: nat)
      requires leaf.next == Nth(k)
      ensures var cs := FollowedFrom(leaf, seen);
              && (forall i | 0 <= i < |cs| :: cs[i] == Nth(k + i) && cs[i] != "" && cs[i] !in seen)
              && (forall i, j | 0 <= i < j < |cs| :: cs[i] != cs[j])
              && (Nth(k + |cs|) == "" || Nth(k + |cs|) in seen || Nth(k + |cs|) in cs)
      decreases Measure(leaf, seen)
    {
      if !Ends(leaf, seen) {
        MeasureFalls(leaf, seen);
        FollowedIsAPath(At(leaf.next), seen + {leaf.next}, k + 1);
        var cs, rest := FollowedFrom(leaf, seen), FollowedFrom(At(leaf.next), seen + {leaf.next});
        assert cs == [leaf.next] + rest;
        forall i | 0 <= i < |cs| ensures cs[i] == Nth(k + i) && cs[i] != "" && cs[i] !in seen {
          if i > 0 {
            assert cs[i] == rest[i - 1] && k + i == (k + 1) + (i - 1);
          }
        }
        assert k + |cs| == (k + 1) + |rest|;
      }
    }

    /**
     * Whatever cursors the pages carry, cycles included, each reachable cursor is followed exactly
     * once, in the order in which they are reached.
     */
    lemma FollowsEachReachableCursorOnce()
      ensures forall i | 0 <= i < |Followed()| :: Followed()[i] == Nth(i)
      ensures forall i, j | 0 <= i < j < |Followed()| :: Followed()[i] != Followed()[j]
      ensures forall c :: c in Followed() <==> c != "" && exists k: nat :: Nth(k) == c
    {
      FollowedIsAPath(first, {}, 0);
      var cs := Followed();
      assert forall i | 0 <= i < |cs| :: cs[i] == Nth(0 + i);
      forall c | c in cs ensures c != "" && exists k: nat :: Nth(k) == c {
        var i: nat :| i < |cs| && cs[i] == c;
        assert Nth(i) == c;
      }
      forall k: nat | Nth(k) != "" ensures Nth(k) in cs {
        ReachableIsFollowed(k);
      }
    }

    lemma {:induction false} ReachableIsFollowed(k: nat)
      requires Nth(k) != ""
      ensures Nth(k) in Followed()
    {
      FollowedIsAPath(first, {}, 0);
      var cs := Followed();
      if k > 0 {
        ReachableIsFollowed(k - 1);
        var i: nat :| i < |cs| && cs[i] == Nth(k - 1);
        assert cs[i] == Nth(0 + i);
        assert Nth(k) == At(Nth(i)).next == Nth(i + 1);
        if i + 1 < |cs| {
          assert cs[i + 1] == Nth(0 + (i + 1));
        } else {
          assert Nth(0 + |cs|) == Nth(k);
        }
      } else {
        assert Nth(0 + |cs|) in cs || cs[0] == Nth(0 + 0);
      }
    }

    /** Distinct cursors, each page carrying the next one's and the last none. */
    predicate IsChain(leaf: Leaf<T>, chain: seq<string>)
      decreases |chain|
    {
      if chain == [] then leaf.next == ""
      else leaf.next == chain[0] && chain[0] != "" && chain[0] !in chain[1..] && IsChain(At(chain[0]), chain[1..])
    }

    /** On a chain of pages that comes to an end, the listing is all of them, one after the other. */
    lemma {:induction false} ChainIsListedWhole(leaf: Leaf<T>, chain: seq<string>, seen: set<string>)
      requires IsChain(leaf, chain) && forall c | c in chain :: c !in seen
      ensures FollowedFrom(leaf, seen) == chain
      decreases |chain|
    {
      if chain != [] {
        ChainIsListedWhole(At(chain[0]), chain[1..], seen + {chain[0]});
      }
    }
  }

  lemma MoveOne(path: seq<string>, visited: seq<string>, ahead: seq<string>, cursor: string, beyond: seq<string>)
    requires path == visited + ahead && ahead == [cursor] + beyond
    ensures path == (visited + [cursor]) + beyond
  {
  }

  /**
   * Cursor by cursor, the generator yields the records of the first page and of every reachable one,
   * cut at the maximum; `visited` holds the cursors it asked for.
   */
  method PaginateBookmark<T>(server: Server<T>, maxItems: int) returns (out: seq<T>, visited: seq<string>)
    ensures out == AtMost(Records(server.Listing()), maxItems)
    ensures visited <= server.Followed()
    ensures |out| < maxItems ==> visited == server.Followed()
  {
    out, visited := [], [];
    var seen: set<string> := {};
    var query := server.first;
    ghost var all, path := Records(server.Listing()), server.Followed();
    while |out| < maxItems
      invariant |out| < maxItems || (maxItems <= 0 && out == [])
      invariant path == visited + server.FollowedFrom(query, seen)
      invariant all == out + Records(server.ItemsFrom(query, seen))
      decreases server.Measure(query, seen)
    {
      var cursor := query.next;
      var ends := cursor == "" || cursor in seen;
      server.FollowsOn(query, seen);
      ghost var next, more := server.At(cursor), seen + {cursor};
      OnePage(all, out, query.items, if ends then [] else server.ItemsFrom(next, more), maxItems);
      var full;
      out, full := YieldPage(out, query.items, maxItems);
      if full || ends {
        return;
      }
      MoveOne(path, visited, server.FollowedFrom(query, seen), cursor, server.FollowedFrom(next, more));
      visited, seen, query := visited + [cursor], seen + {cursor}, server.At(cursor);
    }
  }

  // ---------------------------------------------------------------- sizes and cuts

  /** The page size is the number from one to a thousand that is nearest to the one asked for. */
  lemma PageSizeIsNearest(asked: int, size: int)
    requires 1 <= size <= 1000
    ensures var nearest := PageSize(asked);
            1 <= nearest <= 1000 && (asked - nearest <= asked - size || nearest - asked <= size - asked)
            && (asked - nearest) * (asked - nearest) <= (asked - size) * (asked - size)
  {
    if asked < 1 {
      assert (asked - size) * (asked - size) - (asked - 1) * (asked - 1) == (size - 1) * (size + 1 - 2 * asked);
    } else if asked > 1000 {
      assert (asked - size) * (asked - size) - (asked - 1000) * (asked - 1000)
             == (1000 - size) * (2 * asked - 1000 - size);
    } else {
      assert (asked - size) * (asked - size) >= 0;
    }
  }

  /** A cut is a beginning, as long as the maximum allows. */
  lemma AtMostMeans<T>(s: seq<T>, n: int)
    ensures AtMost(s, n) <= s
    ensures |AtMost(s, n)| == if n <= 0 then 0 else if n < |s| then n else |s|
  {
  }
}
