/** The audit trail: events appended, never changed, and read newest first through filters. */
module AuditStore {
  import opened Outcomes
  import opened Pages
  import Cursor

  datatype Event = Event(actor: string, via: string, category: string, action: string, outcome: string)

  type Events = map<Key, Event>

  datatype Filter = Filter(category: Option<string>, actor: Option<string>, since: Option<int>, until: Option<int>)

  predicate Matches(filter: Filter, k: Key, e: Event) {
    (filter.category.Some? ==> e.category == filter.category.value) &&
    (filter.actor.Some? ==> e.actor == filter.actor.value) &&
    (filter.since.Some? ==> filter.since.value <= k.at) &&
    (filter.until.Some? ==> k.at <= filter.until.value)
  }

  function Matching(events: Events, filter: Filter): set<Key> {
    set k | k in events && Matches(filter, k, events[k])
  }

  // ------------------------------------------------------------------ cursors

  /** How an instant and an identifier are written, and read back. */
  datatype Codec = Codec(show: Key -> seq<string>, read: seq<string> -> Option<Key>)

  /** ISO instants and hexadecimal identifiers: two parts without the separator, read back exactly. */
  ghost predicate Faithful(codec: Codec) {
    forall k :: |codec.show(k)| == 2 && Cursor.AllClean(codec.show(k)) && codec.read(codec.show(k)) == Some(k)
  }

  function CursorOf(codec: Codec, k: Key): string {
    Cursor.EncodeCursor(codec.show(k))
  }

  /** Where a `before` stands: nowhere without one, and nothing at all for an unreadable one. */
  function Position(codec: Codec, before: Option<string>): Option<Option<Key>> {
    if before.None? then Some(None)
    else
      match Cursor.DecodeCursor(before.value, 2)
      case None => None
      case Some(parts) => if codec.read(parts).Some? then Some(codec.read(parts)) else None
  }

  function NextOf(codec: Codec, page: Page): Option<string> {
    if page.next.Some? then Some(CursorOf(codec, page.next.value)) else None
  }

  /** A `next` handed back as a `before` stands exactly where the page ended. */
  lemma NextIsFollowed(codec: Codec, page: Page)
    requires Faithful(codec)
    ensures Position(codec, NextOf(codec, page)) == Some(page.next)
  {
    hide Cursor.EncodeCursor, Cursor.DecodeCursor;
    if page.next.Some? {
      var parts := codec.show(page.next.value);
      assert |parts| == 2 && Cursor.AllClean(parts);
      Cursor.CursorRoundTripsExactly(parts);
    }
  }

  // ------------------------------------------------------------------ the store

  function EventsAt(events: Events, keys: seq<Key>): (items: seq<Event>)
    requires forall i | 0 <= i < |keys| :: keys[i] in events
    ensures |items| == |keys| && forall i | 0 <= i < |keys| :: items[i] == events[keys[i]]
  {
    seq(|keys|, i requires 0 <= i < |keys| => events[keys[i]])
  }

  predicate AllDifferent(identifiers: seq<int>) {
    forall i, j | 0 <= i < j < |identifiers| :: identifiers[i] != identifiers[j]
  }

  function KeysAt(at: int, identifiers: seq<int>): set<Key> {
    set i | 0 <= i < |identifiers| :: Key(at, identifiers[i])
  }

  /** Entries that share one instant, each under its own identifier. */
  function Added(at: int, identifiers: seq<int>, entries: seq<Event>): Events
    requires |identifiers| == |entries| && AllDifferent(identifiers)
  {
    map i | 0 <= i < |entries| :: Key(at, identifiers[i]) := entries[i]
  }

  lemma AddedKeys(at: int, identifiers: seq<int>, entries: seq<Event>)
    requires |identifiers| == |entries| && AllDifferent(identifiers)
    ensures Added(at, identifiers, entries).Keys == KeysAt(at, identifiers)
  {
  }

  class Store {
    var events: Events
    const codec: Codec

    constructor (codec: Codec)
      ensures events == map[] && this.codec == codec
    {
      events := map[];
      this.codec := codec;
    }

    /** Appends entries that share one instant, each under an identifier never used before. */
    method RecordEach(at: int, identifiers: seq<int>, entries: seq<Event>)
      requires |identifiers| == |entries|
      requires AllDifferent(identifiers)
      requires forall i, k | 0 <= i < |identifiers| && k in events :: k.id != identifiers[i]
      modifies this`events
      ensures events.Keys == old(events).Keys + KeysAt(at, identifiers)
      ensures forall k | k in old(events) :: events[k] == old(events)[k]
      ensures forall i | 0 <= i < |entries| :: events[Key(at, identifiers[i])] == entries[i]
    {
      AddedKeys(at, identifiers, entries);
      events := events + Added(at, identifiers, entries);
    }

    method PageFrom(filter: Filter, limit: int, before: Option<string>)
      returns (result: Result<(seq<Event>, Option<string>), string>)
      ensures result.Err? <==> Position(codec, before).None?
      ensures result.Err? ==> before == Some(result.error)
      ensures result.Ok? ==>
                var page := PageOf(Matching(events, filter), limit, Position(codec, before).value);
                result.value.1 == NextOf(codec, page) && |result.value.0| == |page.items| &&
                forall i | 0 <= i < |page.items| :: page.items[i] in events &&
                    result.value.0[i] == events[page.items[i]]
    {
      hide PageOf, CursorOf;
      var position := Position(codec, before);
      if position.None? { return Err(before.value); }
      var rows := Matching(events, filter);
      var page := PageOf(rows, limit, position.value);
      PageCovers(rows, limit, position.value);
      assert forall i | 0 <= i < |page.items| :: page.items[i] in page.items;
      return Ok((EventsAt(events, page.items), NextOf(codec, page)));
    }
  }

  // ------------------------------------------------------------------ following the cursors

  /** The rows a reader is given by following `next` through a filter, when page i is read from
      `histories[i]`; and whether the last page was reached. `None` if a cursor was refused. */
  function Browse(codec: Codec, filter: Filter, histories: seq<Events>, limits: seq<int>,
                  before: Option<string>): Option<(seq<Key>, bool)>
    requires |histories| == |limits|
  {
    if histories == [] then Some(([], false))
    else
      match Position(codec, before)
      case None => None
      case Some(position) =>
        var page := PageOf(Matching(histories[0], filter), limits[0], position);
        if page.next.None? then Some((page.items, true))
        else
          match Browse(codec, filter, histories[1..], limits[1..], NextOf(codec, page))
          case None => None
          case Some((rows, ended)) => Some((page.items + rows, ended))
  }

  function Stores(filter: Filter, histories: seq<Events>): (stores: seq<set<Key>>)
    ensures |stores| == |histories|
    ensures forall i | 0 <= i < |histories| :: stores[i] == Matching(histories[i], filter)
  {
    seq(|histories|, i requires 0 <= i < |histories| => Matching(histories[i], filter))
  }

  lemma {:induction false} BrowseIsWalk(codec: Codec, filter: Filter, histories: seq<Events>, limits: seq<int>,
                                        before: Option<string>, position: Option<Key>)
    requires Faithful(codec) && |histories| == |limits| && Position(codec, before) == Some(position)
    ensures var walked := Walk(Stores(filter, histories), limits, position);
            Browse(codec, filter, histories, limits, before) == Some((walked.delivered, walked.ended))
  {
    hide PageOf, Position, NextOf, Matching, Faithful;
    if histories != [] {
      var page := PageOf(Matching(histories[0], filter), limits[0], position);
      NextIsFollowed(codec, page);
      if page.next.Some? {
        BrowseIsWalk(codec, filter, histories[1..], limits[1..], NextOf(codec, page), page.next);
        assert Stores(filter, histories)[1..] == Stores(filter, histories[1..]);
      } else {
        NothingNext(codec, page);
      }
    }
  }

  lemma NothingNext(codec: Codec, page: Page)
    ensures NextOf(codec, page).None? <==> page.next.None?
  {
  }

  predicate Throughout(histories: seq<Events>, k: Key, e: Event) {
    forall i | 0 <= i < |histories| :: k in histories[i] && histories[i][k] == e
  }

  /** Whatever is recorded, or expires, between the pages: the cursors are always accepted, events
      come newest first and never twice, and once the last page is reached every event that matched
      the filter and was there throughout has been given. */
  lemma TrailIsRead(codec: Codec, filter: Filter, histories: seq<Events>, limits: seq<int>, k: Key, e: Event)
    requires Faithful(codec) && |histories| == |limits|
    ensures var result := Browse(codec, filter, histories, limits, None);
            result.Some? &&
            (forall i, j | 0 <= i < j < |result.value.0| ::
               var newer, older := result.value.0[i], result.value.0[j];
               older.at < newer.at || (older.at == newer.at && older.id < newer.id)) &&
            ((result.value.1 && Matches(filter, k, e) && Throughout(histories, k, e)) ==> k in result.value.0) &&
            (k in result.value.0 ==>
               exists i :: 0 <= i < |histories| && k in histories[i] && Matches(filter, k, histories[i][k]))
  {
    hide Walk, Browse, Faithful, Matches, Descending;
    var stores := Stores(filter, histories);
    BrowseIsWalk(codec, filter, histories, limits, None, None);
    NoneDeliveredTwice(stores, limits);
    var walked := Walk(stores, limits, None);
    NewestFirst(walked.delivered);
    if walked.ended && Matches(filter, k, e) && Throughout(histories, k, e) {
      assert forall i | 0 <= i < |stores| :: k in Matching(histories[i], filter);
      NoneSkipped(stores, limits, k);
    }
    if k in walked.delivered {
      OnlyMatchingRows(stores, limits, k);
      var i :| 0 <= i < |stores| && k in stores[i];
      assert k in Matching(histories[i], filter);
    }
  }

  /** Without a filter every event is asked for; and each criterion that is added leaves exactly the events
      that meet it: of that category, by that actor, not before that instant, not after it. */
  lemma FilterNarrows(filter: Filter, k: Key, e: Event, text: string, instant: int)
    ensures Matches(Filter(None, None, None, None), k, e)
    ensures Matches(filter.(category := Some(text)), k, e) <==>
            Matches(filter.(category := None), k, e) && e.category == text
    ensures Matches(filter.(actor := Some(text)), k, e) <==>
            Matches(filter.(actor := None), k, e) && e.actor == text
    ensures Matches(filter.(since := Some(instant)), k, e) <==>
            Matches(filter.(since := None), k, e) && k.at >= instant
    ensures Matches(filter.(until := Some(instant)), k, e) <==>
            Matches(filter.(until := None), k, e) && k.at <= instant
  {
  }
}
