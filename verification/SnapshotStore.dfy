/** The history of Snapshots: an append-only collection numbered without gaps, read page by page
    through cursors that carry a number. */
module SnapshotStore {
  import opened Outcomes
  import opened Json
  import opened Pages
  import opened PropertiesFile
  import Cursor

  // ------------------------------------------------------------------ numbers as text

  function DigitOf(d: nat): char
    requires d < 10
  {
    ('0' as int + d) as char
  }

  predicate IsDigit(c: char) {
    '0' <= c <= '9'
  }

  /** The digits of a natural number. */
  function Decimal(n: nat): (text: string)
    ensures text != []
  {
    if n < 10 then [DigitOf(n)] else Decimal(n / 10) + [DigitOf(n % 10)]
  }

  /** `str` of a number. */
  function ShowInt(n: int): string {
    if n < 0 then ['-'] + Decimal(-n) else Decimal(n)
  }

  /** Digits with single underscores between them. */
  function ReadDigits(text: string): Option<nat> {
    if text == [] || !IsDigit(text[|text| - 1]) then None
    else
      var d := text[|text| - 1] as int - '0' as int;
      if |text| == 1 then Some(d)
      else
        match ReadDigits(if text[|text| - 2] == '_' then text[..|text| - 2] else text[..|text| - 1])
        case None => None
        case Some(front) => Some(front * 10 + d)
  }

  /** Python's `int`, on text whose digits are the ASCII ones. */
  function ReadInt(text: string): Option<int> {
    var t := Strip(text);
    if t != [] && t[0] in "+-" then
      match ReadDigits(t[1..])
      case None => None
      case Some(n) => Some(if t[0] == '-' then 0 - n else n)
    else
      match ReadDigits(t)
      case None => None
      case Some(n) => Some(n)
  }

  /** Digits, and underscores that stand alone between two of them. */
  predicate Numeral(text: string) {
    text != [] && forall i | 0 <= i < |text| ::
      IsDigit(text[i]) || (text[i] == '_' && 0 < i < |text| - 1 && IsDigit(text[i - 1]) && IsDigit(text[i + 1]))
  }

  lemma {:induction false} NumeralsAreRead(text: string)
    ensures ReadDigits(text).Some? <==> Numeral(text)
    decreases |text|
  {
    if |text| > 1 && IsDigit(text[|text| - 1]) {
      var shorter := if text[|text| - 2] == '_' then text[..|text| - 2] else text[..|text| - 1];
      NumeralsAreRead(shorter);
      if Numeral(shorter) {
        NumeralLonger(text, shorter);
      } else if Numeral(text) {
        NumeralShorter(text, shorter);
      }
    }
  }

  lemma NumeralLonger(text: string, shorter: string)
    requires |text| > 1 && IsDigit(text[|text| - 1]) && Numeral(shorter)
    requires shorter == if text[|text| - 2] == '_' then text[..|text| - 2] else text[..|text| - 1]
    ensures Numeral(text)
  {
    assert IsDigit(shorter[|shorter| - 1]);
    forall i | 0 <= i < |text|
      ensures IsDigit(text[i]) || (text[i] == '_' && 0 < i < |text| - 1 && IsDigit(text[i - 1]) && IsDigit(text[i + 1]))
    {
      if i < |shorter| { assert text[i] == shorter[i]; }
    }
  }

  lemma NumeralShorter(text: string, shorter: string)
    requires |text| > 1 && Numeral(text)
    requires shorter == if text[|text| - 2] == '_' then text[..|text| - 2] else text[..|text| - 1]
    ensures Numeral(shorter)
  {
    assert |text| == 2 ==> IsDigit(text[0]);
    forall i | 0 <= i < |shorter|
      ensures IsDigit(shorter[i]) || (shorter[i] == '_' && 0 < i < |shorter| - 1 && IsDigit(shorter[i - 1]) &&
                IsDigit(shorter[i + 1]))
    {
      assert text[i] == shorter[i];
    }
  }

  /** What is read as a number: a numeral, perhaps with a sign before it, in any white space. */
  lemma NumbersAreRead(text: string)
    ensures var t := Strip(text);
            ReadInt(text).Some? <==>
            Numeral(t) || (t != "" && (t[0] == '+' || t[0] == '-') && Numeral(t[1..]))
    ensures var t := Strip(text);
            ReadInt(text).Some? ==>
              if t[0] == '-' then Some(0 - ReadInt(text).value) == ReadDigits(t[1..])
              else Some(ReadInt(text).value) == ReadDigits(if t[0] == '+' then t[1..] else t)
  {
    hide Strip;
    var t := Strip(text);
    NumeralsAreRead(t);
    if t != "" {
      NumeralsAreRead(t[1..]);
      assert t[0] in "+-" <==> t[0] == '+' || t[0] == '-' by { assert "+-"[0] == '+' && "+-"[1] == '-'; }
    }
  }

  lemma {:induction false} DecimalDigits(n: nat)
    ensures forall i | 0 <= i < |Decimal(n)| :: IsDigit(Decimal(n)[i])
    ensures ReadDigits(Decimal(n)) == Some(n)
  {
    if n >= 10 {
      DecimalDigits(n / 10);
      var front, text := Decimal(n / 10), Decimal(n);
      assert text[..|text| - 1] == front && text[|text| - 2] == front[|front| - 1];
    }
  }

  lemma IntRoundTrip(n: int)
    ensures ReadInt(ShowInt(n)) == Some(n)
  {
    hide Decimal, ReadDigits, Strip;
    var size := if n < 0 then -n else n;
    DecimalDigits(size);
    assert IsDigit(Decimal(size)[0]) && IsDigit(Decimal(size)[|Decimal(size)| - 1]);
    StripTrimmed(ShowInt(n));
    assert (['-'] + Decimal(size))[1..] == Decimal(size);
  }

  // ------------------------------------------------------------------ cursors

  function CursorOf(number: int): string {
    Cursor.EncodeCursor([ShowInt(number)])
  }

  /** The number in a cursor, or nothing for one that came from somewhere else. */
  function NumberIn(cursor: string): Option<int> {
    match Cursor.DecodeCursor(cursor, 1)
    case None => None
    case Some(parts) => if |parts| == 1 then ReadInt(parts[0]) else None
  }

  /** A `next` handed back as a `before` names the row it came from. */
  lemma CursorNamesItsSnapshot(number: int)
    ensures NumberIn(CursorOf(number)) == Some(number)
  {
    hide Cursor.EncodeCursor, Cursor.DecodeCursor, ShowInt, ReadInt;
    NoSeparator(number);
    Cursor.CursorRoundTripsExactly([ShowInt(number)]);
    IntRoundTrip(number);
  }

  lemma NoSeparator(number: int)
    ensures Cursor.AllClean([ShowInt(number)])
  {
    DecimalDigits(if number < 0 then -number else number);
    assert !IsDigit(Cursor.SEPARATOR);
  }

  // ------------------------------------------------------------------ what a page answers

  /** One page of Snapshot numbers; its `next` is text. */
  datatype Answer = Answer(numbers: seq<int>, next: Option<string>)

  function RowsUpTo(count: nat): set<Key> {
    set n | 1 <= n <= count :: Key(n, 0)
  }

  function Numbers(keys: seq<Key>): (numbers: seq<int>)
    ensures |numbers| == |keys| && forall i | 0 <= i < |keys| :: numbers[i] == keys[i].at
  {
    seq(|keys|, i requires 0 <= i < |keys| => keys[i].at)
  }

  function Position(before: Option<string>): Option<Option<Key>> {
    if before.None? then Some(None)
    else
      match NumberIn(before.value)
      case None => None
      case Some(n) => Some(Some(Key(n, 0)))
  }

  function NextOf(page: Page): Option<string> {
    if page.next.Some? then Some(CursorOf(page.next.value.at)) else None
  }

  /** The page of a history of `count` Snapshots, or nothing for a bad cursor. */
  function Answered(count: nat, limit: int, before: Option<string>): Option<Answer> {
    match Position(before)
    case None => None
    case Some(position) =>
      var page := PageOf(RowsUpTo(count), limit, position);
      Some(Answer(Numbers(page.items), NextOf(page)))
  }

  // ------------------------------------------------------------------ the store

  datatype Snapshot = Snapshot(number: int, sections: map<string, Fields>, createdAt: int, applyId: string)

  const SECTIONS: set<string> :=
    {"catalogs", "client_certificates", "certificate_mapping", "permissions", "resource_groups", "event_listeners"}

  const EMPTY: map<string, Fields> := map name | name in SECTIONS :: map[]

  /** Numbered 1 to n, each document under its own number. */
  ghost predicate Numbered(documents: map<int, Snapshot>) {
    forall n :: (n in documents <==> 1 <= n <= |documents|) && (n in documents ==> documents[n].number == n)
  }

  lemma OneLarger(documents: map<int, Snapshot>, n: int, s: Snapshot)
    requires n !in documents
    ensures |documents[n := s]| == |documents| + 1
  {
    assert documents[n := s].Keys == documents.Keys + {n};
  }

  /** One more document under the next number leaves no gap. */
  lemma NextNumber(documents: map<int, Snapshot>, s: Snapshot)
    requires Numbered(documents) && s.number == |documents| + 1
    ensures s.number !in documents && |documents[s.number := s]| == |documents| + 1
    ensures Numbered(documents[s.number := s])
  {
    assert s.number !in documents;
    OneLarger(documents, s.number, s);
    var more := documents[s.number := s];
    forall n ensures (n in more <==> 1 <= n <= |more|) && (n in more ==> more[n].number == n) {
      assert n in more <==> n in documents || n == s.number;
      assert n in documents <==> 1 <= n <= |documents|;
    }
  }

  function SnapshotsAt(documents: map<int, Snapshot>, keys: seq<Key>): (items: seq<Snapshot>)
    requires forall i | 0 <= i < |keys| :: keys[i].at in documents
    ensures |items| == |keys| && forall i | 0 <= i < |keys| :: items[i] == documents[keys[i].at]
  {
    seq(|keys|, i requires 0 <= i < |keys| => documents[keys[i].at])
  }

  class Store {
    var documents: map<int, Snapshot>

    ghost predicate Valid()
      reads this
    {
      Numbered(documents)
    }

    constructor ()
      ensures Valid() && documents == map[]
    {
      documents := map[];
    }

    /** The document with the greatest number. */
    method Latest() returns (latest: Option<Snapshot>)
      requires Valid()
      ensures latest == if |documents| == 0 then None else Some(documents[|documents|])
    {
      if |documents| == 0 { return None; }
      assert |documents| in documents;
      var number :| number in documents && forall n | n in documents :: n <= number;
      return Some(documents[number]);
    }

    method Get(number: int) returns (found: Option<Snapshot>)
      ensures found == if number in documents then Some(documents[number]) else None
    {
      return if number in documents then Some(documents[number]) else None;
    }

    /** The configuration a Snapshot holds, Section by Section, or the empty baseline. */
    method SectionsOf(number: Option<int>) returns (sections: map<string, Fields>)
      ensures sections.Keys == SECTIONS
      ensures forall name | name in SECTIONS ::
                sections[name] ==
                if number.Some? && number.value in documents && name in documents[number.value].sections
                then documents[number.value].sections[name] else map[]
    {
      if number.None? { return EMPTY; }
      var snapshot := Get(number.value);
      if snapshot.None? { return EMPTY; }
      return map name | name in SECTIONS :: if name in snapshot.value.sections then snapshot.value.sections[name]
        else map[];
    }

    /** Records the next Snapshot; every earlier one stays as it is. */
    method Commit(sections: map<string, Fields>, at: int, applyId: string) returns (snapshot: Snapshot)
      requires Valid()
      modifies this
      ensures Valid() && |documents| == old(|documents|) + 1
      ensures snapshot == Snapshot(old(|documents|) + 1, sections, at, applyId)
      ensures documents == old(documents)[snapshot.number := snapshot]
      ensures forall n | n in old(documents) :: documents[n] == old(documents)[n]
    {
      var previous := Latest();
      snapshot := Snapshot(if previous.None? then 1 else previous.value.number + 1, sections, at, applyId);
      NextNumber(documents, snapshot);
      documents := documents[snapshot.number := snapshot];
    }

    /** Newest first, under the number in the cursor. */
    method PageFrom(limit: int, before: Option<string>)
      returns (result: Result<(seq<Snapshot>, Option<string>), string>)
      requires Valid()
      ensures result.Err? <==> Answered(|documents|, limit, before).None?
      ensures result.Err? ==> before == Some(result.error)
      ensures result.Ok? ==>
                var answer := Answered(|documents|, limit, before).value;
                result.value.1 == answer.next && |result.value.0| == |answer.numbers| &&
                forall i | 0 <= i < |answer.numbers| ::
                  answer.numbers[i] in documents && result.value.0[i] == documents[answer.numbers[i]]
    {
      hide PageOf, CursorOf, NumberIn;
      var position := Position(before);
      if position.None? { return Err(before.value); }
      var rows := set n | n in documents :: Key(n, 0);
      assert rows == RowsUpTo(|documents|);
      var page := PageOf(rows, limit, position.value);
      PageCovers(rows, limit, position.value);
      assert forall i | 0 <= i < |page.items| :: page.items[i] in page.items;
      assert forall i | 0 <= i < |page.items| :: page.items[i].at in documents;
      return Ok((SnapshotsAt(documents, page.items), NextOf(page)));
    }
  }

  // ------------------------------------------------------------------ following the cursors

  /** Everything a reader is given by following `next`, when page i is read from `counts[i]`
      Snapshots; and whether the last page was reached. `None` if a cursor was refused. */
  function Browse(counts: seq<nat>, limits: seq<int>, before: Option<string>): Option<(seq<int>, bool)>
    requires |counts| == |limits|
  {
    if counts == [] then Some(([], false))
    else
      match Answered(counts[0], limits[0], before)
      case None => None
      case Some(answer) =>
        if answer.next.None? then Some((answer.numbers, true))
        else
          match Browse(counts[1..], limits[1..], answer.next)
          case None => None
          case Some((numbers, ended)) => Some((answer.numbers + numbers, ended))
  }

  function Stores(counts: seq<nat>): (stores: seq<set<Key>>)
    ensures |stores| == |counts|
  {
    seq(|counts|, i requires 0 <= i < |counts| => RowsUpTo(counts[i]))
  }

  lemma NextIsFollowed(count: nat, limit: int, before: Option<Key>)
    ensures var page := PageOf(RowsUpTo(count), limit, before);
            (NextOf(page).None? <==> page.next.None?) && Position(NextOf(page)) == Some(page.next)
  {
    hide PageOf, CursorOf, NumberIn;
    var page := PageOf(RowsUpTo(count), limit, before);
    PageCovers(RowsUpTo(count), limit, before);
    if page.next.Some? {
      assert page.next.value in page.items;
      CursorNamesItsSnapshot(page.next.value.at);
    }
  }

  /** Following the text cursors is walking the keys. */
  lemma {:induction false} BrowseIsWalk(counts: seq<nat>, limits: seq<int>, before: Option<string>,
                                        position: Option<Key>)
    requires |counts| == |limits| && Position(before) == Some(position)
    ensures var walked := Walk(Stores(counts), limits, position);
            Browse(counts, limits, before) == Some((Numbers(walked.delivered), walked.ended))
  {
    hide PageOf, Position, NextOf, RowsUpTo;
    if counts != [] {
      var page := PageOf(RowsUpTo(counts[0]), limits[0], position);
      NextIsFollowed(counts[0], limits[0], position);
      if page.next.Some? {
        BrowseIsWalk(counts[1..], limits[1..], NextOf(page), page.next);
        assert Stores(counts)[1..] == Stores(counts[1..]);
        var rest := Walk(Stores(counts[1..]), limits[1..], page.next);
        assert Numbers(page.items + rest.delivered) == Numbers(page.items) + Numbers(rest.delivered);
      }
    }
  }

  /** n, n - 1, ..., 1. */
  function Countdown(n: nat): (keys: seq<Key>)
    ensures |keys| == n && forall i | 0 <= i < n :: keys[i] == Key(n - i, 0)
  {
    seq(n, i requires 0 <= i < n => Key(n - i, 0))
  }

  lemma NewestIsCountdown(n: nat)
    ensures Newest(RowsUpTo(n)) == Countdown(n) && |RowsUpTo(n)| == n
  {
    var r := Countdown(n);
    forall k ensures k in r <==> k in RowsUpTo(n) {
      if k in RowsUpTo(n) { assert r[n - k.at] == k; }
    }
    NewestOf(r, RowsUpTo(n));
  }

  lemma CommitsAddAtTheHead(counts: seq<nat>)
    requires counts != [] && forall i | 0 <= i < |counts| :: counts[0] <= counts[i]
    ensures GrowsAtTheHead(RowsUpTo(counts[0]), Stores(counts))
  {
  }

  /** A reader who starts at the newest page and follows `next`, while Snapshots are committed
      between the pages, is given the Snapshots there were, each once and newest first; and comes
      to the end of them. */
  lemma HistoryIsReadExactly(counts: seq<nat>, limits: seq<int>)
    requires |counts| == |limits| && counts != []
    requires forall i | 0 <= i < |counts| :: counts[0] <= counts[i]
    ensures var result := Browse(counts, limits, None);
            result.Some? && result.value.0 <= Numbers(Countdown(counts[0])) &&
            (result.value.1 ==> result.value.0 == Numbers(Countdown(counts[0]))) &&
            (|counts| > counts[0] ==> result.value.1)
  {
    hide Walk, Browse, RowsUpTo, Newest, GrowsAtTheHead;
    var stores := Stores(counts);
    assert stores[0] == RowsUpTo(counts[0]);
    BrowseIsWalk(counts, limits, None, None);
    CommitsAddAtTheHead(counts);
    WalkIsTheFirstCollection(stores, limits);
    NewestIsCountdown(counts[0]);
    if |counts| > counts[0] { WalkEnds(stores, limits); }
  }

  /** Numbers are written in decimal: the ten digits, the most significant first, and a minus before. */
  lemma DecimalExactly(n: nat, d: nat)
    requires d < 10
    ensures ShowInt(d) == ["0123456789"[d]]
    ensures 0 < n ==> ShowInt(10 * n + d) == ShowInt(n) + ShowInt(d) && ShowInt(0 - n) == "-" + ShowInt(n)
  {
    assert "0123456789"[d] == ('0' as int + d) as char;
    if 0 < n { assert (10 * n + d) / 10 == n && (10 * n + d) % 10 == d; }
  }
}
