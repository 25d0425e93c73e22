/** Keyset pagination: pages of a collection that grows while it is being read. */
module Pages {
  import opened Outcomes

  const MAX_LIMIT := 500

  function Bounded(limit: int): (n: nat)
    ensures 1 <= n <= MAX_LIMIT
  {
    var least := if limit < MAX_LIMIT then limit else MAX_LIMIT;
    if 1 < least then least else 1
  }

  /** A row's place in the order: its sort key and its identifier, which no other row has. */
  datatype Key = Key(at: int, id: int)

  predicate Below(a: Key, b: Key) {
    a.at < b.at || (a.at == b.at && a.id < b.id)
  }

  // ------------------------------------------------------------------ newest first

  predicate IsGreatest(m: Key, s: set<Key>) {
    m in s && forall k | k in s :: k == m || Below(k, m)
  }

  lemma {:induction false} GreatestExists(s: set<Key>)
    requires s != {}
    ensures exists m :: IsGreatest(m, s)
  {
    var k :| k in s;
    if s == {k} {
      assert IsGreatest(k, s);
    } else {
      var rest := s - {k};
      assert s == {k} + rest;
      GreatestExists(rest);
      var r :| IsGreatest(r, rest);
      assert IsGreatest(if Below(r, k) then k else r, s);
    }
  }

  function Greatest(s: set<Key>): (m: Key)
    requires s != {}
    ensures IsGreatest(m, s)
  {
    GreatestExists(s);
    var m :| IsGreatest(m, s);
    m
  }

  predicate Descending(r: seq<Key>) {
    forall i, j | 0 <= i < j < |r| :: Below(r[j], r[i])
  }

  /** The keys, newest first. */
  function Newest(s: set<Key>): (r: seq<Key>)
    ensures forall k :: k in r <==> k in s
    ensures |r| == |s|
  {
    if s == {} then [] else var m := Greatest(s); [m] + Newest(s - {m})
  }

  lemma {:induction false} NewestDescends(s: set<Key>)
    ensures Descending(Newest(s))
  {
    if s != {} {
      var m, rest := Greatest(s), Newest(s - {Greatest(s)});
      NewestDescends(s - {m});
      forall i, j | 0 <= i < j < |[m] + rest| ensures Below(([m] + rest)[j], ([m] + rest)[i]) {
        assert rest[j - 1] in s - {m};
      }
    }
  }

  // ------------------------------------------------------------------ one page

  datatype Page = Page(items: seq<Key>, next: Option<Key>)

  /** The keyset predicate: everything strictly below the cursor's position. */
  function After(rows: set<Key>, before: Option<Key>): set<Key> {
    if before.None? then rows else set k | k in rows && Below(k, before.value)
  }

  /** One row more than asked for is read, and says whether there is another page. */
  function PageOf(rows: set<Key>, limit: int, before: Option<Key>): Page {
    var n := Bounded(limit);
    var found := Newest(After(rows, before));
    if |found| > n then Page(found[..n], Some(found[n - 1])) else Page(found, None)
  }

  predicate Under(k: Key, before: Option<Key>) {
    before.Some? ==> Below(k, before.value)
  }

  lemma FirstFew(found: seq<Key>, n: nat)
    requires 0 < n < |found| && Descending(found)
    ensures Descending(found[..n]) && forall k | k in found[..n] :: k in found
    ensures forall k | k in found :: k in found[..n] || Below(k, found[n - 1])
  {
    forall k | k in found ensures k in found[..n] || Below(k, found[n - 1]) {
      var i :| 0 <= i < |found| && found[i] == k;
      if i < n { assert found[..n][i] == k; }
    }
  }

  /** A page holds matching rows under the cursor, newest first; and each such row is on it or under
      the next cursor, which is the last row of the page. */
  lemma PageCovers(rows: set<Key>, limit: int, before: Option<Key>)
    ensures var page := PageOf(rows, limit, before);
            Descending(page.items) &&
            (forall k | k in page.items :: k in rows && Under(k, before)) &&
            (forall k | k in rows && Under(k, before) :: k in page.items || (page.next.Some? && Under(k, page.next))) &&
            (page.next.Some? ==> page.items != [] && page.next.value == page.items[|page.items| - 1])
  {
    var n, found := Bounded(limit), Newest(After(rows, before));
    NewestDescends(After(rows, before));
    if |found| > n {
      FirstFew(found, n);
      forall k | k in rows && Under(k, before) ensures k in found[..n] || Below(k, found[n - 1]) {
        assert k in found;
      }
    }
  }

  // ------------------------------------------------------------------ walking the pages

  /** What a walk delivers, and whether it came to an end. */
  datatype Walked = Walked(delivered: seq<Key>, ended: bool)

  /** Following `next`: page i is read from the rows that match at that time, `stores[i]`, with any
      limit; the walk ends at the first page without a next. */
  function Walk(stores: seq<set<Key>>, limits: seq<int>, before: Option<Key>): Walked
    requires |stores| == |limits|
  {
    if stores == [] then Walked([], false)
    else
      var page := PageOf(stores[0], limits[0], before);
      if page.next.None? then Walked(page.items, true)
      else
        var rest := Walk(stores[1..], limits[1..], page.next);
        Walked(page.items + rest.delivered, rest.ended)
  }

  lemma {:induction false} WalkDescendsFrom(stores: seq<set<Key>>, limits: seq<int>, before: Option<Key>)
    requires |stores| == |limits|
    ensures Descending(Walk(stores, limits, before).delivered)
    ensures forall k | k in Walk(stores, limits, before).delivered :: Under(k, before)
  {
    if stores != [] {
      var page := PageOf(stores[0], limits[0], before);
      PageCovers(stores[0], limits[0], before);
      if page.next.Some? {
        WalkDescendsFrom(stores[1..], limits[1..], page.next);
        Descends(page.items, Walk(stores[1..], limits[1..], page.next).delivered);
      }
    }
  }

  lemma Descends(a: seq<Key>, b: seq<Key>)
    requires a != [] && Descending(a) && Descending(b)
    requires forall k | k in b :: Below(k, a[|a| - 1])
    ensures Descending(a + b)
    ensures forall k | k in a + b :: k == a[0] || Below(k, a[0])
  {
    forall i, j | 0 <= i < j < |a + b| ensures Below((a + b)[j], (a + b)[i]) {
      if j >= |a| { assert b[j - |a|] in b; }
    }
    forall k | k in a + b ensures k == a[0] || Below(k, a[0]) {
      var j :| 0 <= j < |a + b| && (a + b)[j] == k;
      if j > 0 { assert Below((a + b)[j], (a + b)[0]); }
    }
  }

  /** No row is delivered twice: what a walk delivers strictly descends, whatever rows are inserted
      or removed between its pages. */
  lemma NoneDeliveredTwice(stores: seq<set<Key>>, limits: seq<int>)
    requires |stores| == |limits|
    ensures var delivered := Walk(stores, limits, None).delivered;
            Descending(delivered) && forall i, j | 0 <= i < j < |delivered| :: delivered[i] != delivered[j]
  {
    WalkDescendsFrom(stores, limits, None);
  }

  lemma {:induction false} WalkCovers(stores: seq<set<Key>>, limits: seq<int>, before: Option<Key>, k: Key)
    requires |stores| == |limits| && Walk(stores, limits, before).ended
    requires Under(k, before) && forall i | 0 <= i < |stores| :: k in stores[i]
    ensures k in Walk(stores, limits, before).delivered
  {
    hide PageOf;
    var page := PageOf(stores[0], limits[0], before);
    PageCovers(stores[0], limits[0], before);
    if page.next.Some? && k !in page.items {
      WalkCovers(stores[1..], limits[1..], page.next, k);
    }
  }

  /** No row is skipped: a walk that ends has delivered every matching row that was there all along. */
  lemma NoneSkipped(stores: seq<set<Key>>, limits: seq<int>, k: Key)
    requires |stores| == |limits| && Walk(stores, limits, None).ended
    requires forall i | 0 <= i < |stores| :: k in stores[i]
    ensures k in Walk(stores, limits, None).delivered
  {
    WalkCovers(stores, limits, None, k);
  }

  lemma {:induction false} WalkDelivers(stores: seq<set<Key>>, limits: seq<int>, before: Option<Key>, k: Key)
    requires |stores| == |limits| && k in Walk(stores, limits, before).delivered
    ensures exists i :: 0 <= i < |stores| && k in stores[i]
  {
    hide PageOf;
    var page := PageOf(stores[0], limits[0], before);
    PageCovers(stores[0], limits[0], before);
    if k !in page.items {
      WalkDelivers(stores[1..], limits[1..], page.next, k);
      var i :| 0 <= i < |stores[1..]| && k in stores[1..][i];
      assert k in stores[i + 1];
    }
  }

  /** Nothing is made up: every delivered row matched when its page was read. */
  lemma OnlyMatchingRows(stores: seq<set<Key>>, limits: seq<int>, k: Key)
    requires |stores| == |limits| && k in Walk(stores, limits, None).delivered
    ensures exists i :: 0 <= i < |stores| && k in stores[i]
  {
    WalkDelivers(stores, limits, None, k);
  }

  // ------------------------------------------------------------------ growth at the head

  /** The collection only gains rows that sort above those it had at the start. */
  predicate GrowsAtTheHead(first: set<Key>, stores: seq<set<Key>>) {
    forall i | 0 <= i < |stores| :: first <= stores[i] &&
        forall k | k in stores[i] - first :: forall f | f in first :: Below(f, k)
  }

  /** Under a row of the first collection there is only the first collection. */
  lemma SameAfter(first: set<Key>, stores: seq<set<Key>>, before: Key)
    requires stores != [] && GrowsAtTheHead(first, stores) && before in first
    ensures After(stores[0], Some(before)) == After(first, Some(before))
  {
    forall k | k in stores[0] && Below(k, before) ensures k in first {
      assert k in stores[0] - first ==> Below(before, k);
    }
  }

  /** A page read from the grown collection is the page of the first one. */
  lemma SamePage(first: set<Key>, stores: seq<set<Key>>, limit: int, before: Key)
    requires stores != [] && GrowsAtTheHead(first, stores) && before in first
    ensures PageOf(stores[0], limit, Some(before)) == PageOf(first, limit, Some(before))
  {
    hide After, Newest;
    SameAfter(first, stores, before);
  }

  lemma {:induction false} WalkAsFirst(first: set<Key>, stores: seq<set<Key>>, limits: seq<int>, before: Key)
    requires |stores| == |limits| && GrowsAtTheHead(first, stores) && before in first
    ensures var walked := Walk(stores, limits, Some(before));
            var all := Newest(After(first, Some(before)));
            walked.delivered <= all && (walked.ended ==> walked.delivered == all)
  {
    hide After, Newest, PageOf;
    if stores != [] {
      SamePage(first, stores, limits[0], before);
      PageThenRest(first, limits[0], Some(before));
      var page := PageOf(first, limits[0], Some(before));
      if page.next.Some? {
        WalkAsFirst(first, stores[1..], limits[1..], page.next.value);
        PrefixOfRest(page.items, Walk(stores[1..], limits[1..], page.next).delivered, Newest(After(first, page.next)));
      }
    }
  }

  lemma InTail(all: seq<Key>, n: nat, k: Key)
    requires Descending(all) && 0 < n <= |all|
    ensures k in all[n..] <==> k in all && Below(k, all[n - 1])
  {
    if k in all[n..] {
      var i :| 0 <= i < |all[n..]| && all[n..][i] == k;
      assert all[n + i] == k;
    }
    if k in all && Below(k, all[n - 1]) {
      var i :| 0 <= i < |all| && all[i] == k;
      assert i < n - 1 ==> Below(all[n - 1], all[i]);
      assert all[n..][i - n] == k;
    }
  }

  lemma TailDescends(all: seq<Key>, n: nat)
    requires Descending(all) && n <= |all|
    ensures Descending(all[n..])
  {
    forall i, j | 0 <= i < j < |all[n..]| ensures Below(all[n..][j], all[n..][i]) {
      assert Below(all[n + j], all[n + i]);
    }
  }

  /** What follows the nth row is what comes after it. */
  lemma TailIsAfter(rows: set<Key>, before: Option<Key>, n: nat)
    requires 0 < n <= |Newest(After(rows, before))|
    ensures var all := Newest(After(rows, before));
            all[n - 1] in rows && all[n..] == Newest(After(rows, Some(all[n - 1])))
  {
    hide Newest, Descending;
    var all := Newest(After(rows, before));
    NewestDescends(After(rows, before));
    var last := all[n - 1];
    assert last in all;
    forall k ensures k in all[n..] <==> k in After(rows, Some(last)) {
      InTail(all, n, k);
    }
    TailDescends(all, n);
    NewestOf(all[n..], After(rows, Some(last)));
  }

  /** A page, the rest of the list, and what of the rest is still to come. */
  lemma PageThenRest(rows: set<Key>, limit: int, before: Option<Key>)
    ensures var page, all := PageOf(rows, limit, before), Newest(After(rows, before));
            if page.next.None? then page.items == all
            else page.next.value in rows && all == page.items + Newest(After(rows, page.next)) && page.items != []
  {
    hide Newest;
    var n, all := Bounded(limit), Newest(After(rows, before));
    if |all| > n {
      TailIsAfter(rows, before, n);
      assert all == all[..n] + all[n..];
    }
  }

  lemma PrefixOfRest<T>(a: seq<T>, b: seq<T>, c: seq<T>)
    requires b <= c
    ensures a + b <= a + c
  {
  }

  /** A descending list of exactly these keys is the list, newest first. */
  lemma {:induction false} NewestOf(r: seq<Key>, s: set<Key>)
    requires Descending(r) && forall k :: k in r <==> k in s
    ensures r == Newest(s)
  {
    if r == [] {
      assert s == {};
    } else {
      assert r[0] in s;
      var m := Greatest(s);
      assert m in r;
      var i :| 0 <= i < |r| && r[i] == m;
      assert i > 0 ==> Below(r[i], r[0]);
      forall k ensures k in r[1..] <==> k in s - {m} {
        if k in r[1..] {
          var j :| 0 <= j < |r[1..]| && r[1..][j] == k;
          assert Below(r[j + 1], r[0]);
        }
        if k in s - {m} {
          var j :| 0 <= j < |r| && r[j] == k;
          assert r[1..][j - 1] == k;
        }
      }
      NewestOf(r[1..], s - {m});
      assert r == [m] + r[1..];
    }
  }

  /** While rows are only added at the head, a walk delivers exactly what the collection held when
      it began, newest first, as far as it goes. */
  lemma WalkIsTheFirstCollection(stores: seq<set<Key>>, limits: seq<int>)
    requires |stores| == |limits| && stores != [] && GrowsAtTheHead(stores[0], stores)
    ensures var walked := Walk(stores, limits, None);
            walked.delivered <= Newest(stores[0]) && (walked.ended ==> walked.delivered == Newest(stores[0]))
  {
    hide Newest, PageOf;
    var first := stores[0];
    PageThenRest(first, limits[0], None);
    var page := PageOf(first, limits[0], None);
    assert After(first, None) == first;
    if page.next.Some? {
      WalkAsFirst(first, stores[1..], limits[1..], page.next.value);
      PrefixOfRest(page.items, Walk(stores[1..], limits[1..], page.next).delivered, Newest(After(first, page.next)));
    }
  }

  lemma {:induction false} WalkProgresses(first: set<Key>, stores: seq<set<Key>>, limits: seq<int>, before: Key)
    requires |stores| == |limits| && GrowsAtTheHead(first, stores) && before in first
    requires |stores| > |Newest(After(first, Some(before)))|
    ensures Walk(stores, limits, Some(before)).ended
    decreases |stores|
  {
    hide After, Newest, PageOf;
    SamePage(first, stores, limits[0], before);
    PageThenRest(first, limits[0], Some(before));
    var page := PageOf(first, limits[0], Some(before));
    if page.next.Some? { WalkProgresses(first, stores[1..], limits[1..], page.next.value); }
  }

  /** And it does end: no later than one page after the number of rows there were. */
  lemma WalkEnds(stores: seq<set<Key>>, limits: seq<int>)
    requires |stores| == |limits| && stores != [] && GrowsAtTheHead(stores[0], stores)
    requires |stores| > |stores[0]|
    ensures Walk(stores, limits, None).ended
  {
    hide Newest, PageOf;
    var first := stores[0];
    PageThenRest(first, limits[0], None);
    var page := PageOf(first, limits[0], None);
    assert After(first, None) == first;
    if page.next.Some? { WalkProgresses(first, stores[1..], limits[1..], page.next.value); }
  }

  // ------------------------------------------------------------------ how much, and in which order

  /** A page holds as many rows as were asked for, at least one and at most 500, or all there are; and it has
      a next page exactly when there are more. */
  lemma PageIsFull(rows: set<Key>, limit: int, before: Option<Key>)
    ensures var page := PageOf(rows, limit, before);
            var most := if limit < 1 then 1 else if limit > 500 then 500 else limit;
            var under := set k | k in rows &&
              (before.Some? ==> k.at < before.value.at || (k.at == before.value.at && k.id < before.value.id));
            (page.next.Some? <==> |under| > most) && |page.items| == if |under| > most then most else |under|
  {
    assert After(rows, before) == set k | k in rows &&
      (before.Some? ==> k.at < before.value.at || (k.at == before.value.at && k.id < before.value.id));
  }

  /** Newest first: later instants come first, and within one instant greater identifiers do. */
  lemma NewestFirst(rows: seq<Key>)
    ensures Descending(rows) <==>
            forall i, j | 0 <= i < j < |rows| ::
              rows[j].at < rows[i].at || (rows[j].at == rows[i].at && rows[j].id < rows[i].id)
  {
    if Descending(rows) {
      forall i, j | 0 <= i < j < |rows|
        ensures rows[j].at < rows[i].at || (rows[j].at == rows[i].at && rows[j].id < rows[i].id)
      {
        assert Below(rows[j], rows[i]);
      }
    }
  }
}
