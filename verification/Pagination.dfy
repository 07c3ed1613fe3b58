/**
 * Paging a list that may change between pages (packages/federation/src/pagination.ts).
 * A cursor is the encoded sort key of the last item delivered; the encoding of a key
 * as text is a parameter that loses nothing.
 */
module Pagination {
  import opened Wrappers
  import opened Text

  /** What a client may send where a cursor belongs. */
  datatype Cursor = Absent | Given(text: string) | NotAString

  datatype Error = EmptyCursor | ForeignCursor

  datatype Page<T> = Page(items: seq<T>, nextCursor: Option<string>)

  datatype Codec = Codec(encode: string -> string, decode: string -> string)

  /** Decoding undoes encoding, and only the empty key has the empty encoding. */
  ghost predicate Faithful(codec: Codec) {
    forall key :: codec.decode(codec.encode(key)) == key && (codec.encode(key) == "" <==> key == "")
  }

  function DecodeCursor(cursor: Cursor, codec: Codec): Result<Option<string>, Error> {
    match cursor
    case Absent => Ok(None)
    case NotAString => Err(EmptyCursor)
    case Given(text) =>
      if text == "" then Err(EmptyCursor)
      else
        var decoded := codec.decode(text);
        if codec.encode(decoded) != text then Err(ForeignCursor) else Ok(Some(decoded))
  }

  // ----- sorting ---------------------------------------------------------------------

  function Insert<T>(item: T, sorted: seq<T>, keyOf: T -> string): (r: seq<T>)
    ensures |r| == |sorted| + 1 && multiset(r) == multiset{item} + multiset(sorted)
  {
    if sorted == [] || !Less(keyOf(sorted[0]), keyOf(item)) then [item] + sorted
    else
      assert sorted == [sorted[0]] + sorted[1..];
      [sorted[0]] + Insert(item, sorted[1..], keyOf)
  }

  /** A stable sort by key in code-unit order. */
  function SortByKey<T>(items: seq<T>, keyOf: T -> string): (r: seq<T>)
    ensures |r| == |items| && multiset(r) == multiset(items)
  {
    if items == [] then []
    else
      assert items == [items[0]] + items[1..];
      Insert(items[0], SortByKey(items[1..], keyOf), keyOf)
  }

  predicate Increasing<T>(items: seq<T>, keyOf: T -> string) {
    forall i, j :: 0 <= i < j < |items| ==> Less(keyOf(items[i]), keyOf(items[j]))
  }

  predicate UniqueKeys<T>(items: seq<T>, keyOf: T -> string) {
    forall i, j :: 0 <= i < j < |items| ==> keyOf(items[i]) != keyOf(items[j])
  }

  predicate HasKey<T>(items: seq<T>, keyOf: T -> string, key: string) {
    exists i :: 0 <= i < |items| && keyOf(items[i]) == key
  }

  lemma {:induction false} InsertIncreases<T>(item: T, sorted: seq<T>, keyOf: T -> string)
    requires Increasing(sorted, keyOf) && !HasKey(sorted, keyOf, keyOf(item))
    ensures Increasing(Insert(item, sorted, keyOf), keyOf)
    ensures forall key :: HasKey(Insert(item, sorted, keyOf), keyOf, key) <==> key == keyOf(item) || HasKey(sorted, keyOf, key)
  {
    var r := Insert(item, sorted, keyOf);
    if sorted != [] && Less(keyOf(sorted[0]), keyOf(item)) {
      var first, rest := sorted[0], sorted[1..];
      var inserted := Insert(item, rest, keyOf);
      assert sorted == [first] + rest;
      KeyOfFirst(first, rest, keyOf);
      InsertIncreases(item, rest, keyOf);
      KeyOfFirst(first, inserted, keyOf);
      forall j | 0 <= j < |inserted| ensures Less(keyOf(first), keyOf(inserted[j])) {
        assert HasKey(inserted, keyOf, keyOf(inserted[j]));
        if keyOf(inserted[j]) != keyOf(item) {
          var i :| 0 <= i < |rest| && keyOf(rest[i]) == keyOf(inserted[j]);
          assert rest[i] == sorted[i + 1];
        }
      }
    } else {
      KeyOfFirst(item, sorted, keyOf);
      forall j | 0 <= j < |sorted| ensures Less(keyOf(item), keyOf(sorted[j])) {
        assert HasKey(sorted, keyOf, keyOf(sorted[j]));
        LessTotal(keyOf(item), keyOf(sorted[0]));
        if j > 0 { LessTransitive(keyOf(item), keyOf(sorted[0]), keyOf(sorted[j])); }
      }
    }
  }

  lemma KeyOfFirst<T>(first: T, rest: seq<T>, keyOf: T -> string)
    ensures forall key :: HasKey([first] + rest, keyOf, key) <==> key == keyOf(first) || HasKey(rest, keyOf, key)
  {
    var all := [first] + rest;
    forall key | HasKey(rest, keyOf, key) ensures HasKey(all, keyOf, key) {
      var i :| 0 <= i < |rest| && keyOf(rest[i]) == key;
      assert all[i + 1] == rest[i];
    }
    assert keyOf(all[0]) == keyOf(first);
  }

  /** Sorting puts unique keys in strictly increasing order and loses none. */
  lemma {:induction false} SortIncreases<T>(items: seq<T>, keyOf: T -> string)
    requires UniqueKeys(items, keyOf)
    ensures Increasing(SortByKey(items, keyOf), keyOf)
    ensures forall key :: HasKey(SortByKey(items, keyOf), keyOf, key) <==> HasKey(items, keyOf, key)
  {
    if items != [] {
      var first, rest := items[0], items[1..];
      assert items == [first] + rest;
      SortIncreases(rest, keyOf);
      InsertIncreases(first, SortByKey(rest, keyOf), keyOf);
      KeyOfFirst(first, rest, keyOf);
    }
  }

  // ----- one page --------------------------------------------------------------------

  predicate Above(key: string, after: Option<string>) {
    after.None? || Less(after.value, key)
  }

  /** `findIndex`: the first item above the cursor, or the length. */
  function FirstAbove<T>(sorted: seq<T>, keyOf: T -> string, after: Option<string>, from: nat): (i: nat)
    requires from <= |sorted|
    ensures from <= i <= |sorted| && (i < |sorted| ==> Above(keyOf(sorted[i]), after))
    ensures forall k :: from <= k < i ==> !Above(keyOf(sorted[k]), after)
    decreases |sorted| - from
  {
    if from < |sorted| && !Above(keyOf(sorted[from]), after) then FirstAbove(sorted, keyOf, after, from + 1) else from
  }

  function Min(a: nat, b: nat): nat {
    if a < b then a else b
  }

  function PageAfter<T>(sorted: seq<T>, keyOf: T -> string, after: Option<string>, pageSize: nat, codec: Codec): Page<T> {
    var start := FirstAbove(sorted, keyOf, after, 0);
    var end := Min(start + pageSize, |sorted|);
    Page(sorted[start..end], if start == end || end == |sorted| then None else Some(codec.encode(keyOf(sorted[end - 1]))))
  }

  function Paginate<T>(items: seq<T>, keyOf: T -> string, cursor: Cursor, pageSize: nat, codec: Codec): Result<Page<T>, Error> {
    match DecodeCursor(cursor, codec)
    case Err(e) => Err(e)
    case Ok(after) => Ok(PageAfter(SortByKey(items, keyOf), keyOf, after, pageSize, codec))
  }

  /** `page` holds, in order, the items above `after` and not above `upto`. */
  ghost predicate Covers<T>(page: seq<T>, items: seq<T>, keyOf: T -> string, after: Option<string>, upto: Option<string>) {
    && Increasing(page, keyOf)
    && (forall i :: 0 <= i < |page| ==>
          && HasKey(items, keyOf, keyOf(page[i])) && Above(keyOf(page[i]), after)
          && (upto.Some? ==> !Less(upto.value, keyOf(page[i]))))
    && (forall key :: HasKey(items, keyOf, key) && Above(key, after) && (upto.Some? ==> !Less(upto.value, key)) ==>
          HasKey(page, keyOf, key))
  }

  /** The key a page ends at, when there is a next one. */
  function LastKey<T>(page: Page<T>, keyOf: T -> string): (key: Option<string>)
    requires page.nextCursor.Some? ==> page.items != []
  {
    if page.nextCursor.Some? then Some(keyOf(page.items[|page.items| - 1])) else None
  }

  /** A page covers the list from its cursor to its own last key, or to the end. */
  lemma PageCovers<T>(items: seq<T>, keyOf: T -> string, after: Option<string>, pageSize: nat, codec: Codec)
    requires UniqueKeys(items, keyOf) && pageSize > 0
    ensures var page := PageAfter(SortByKey(items, keyOf), keyOf, after, pageSize, codec);
            && (page.nextCursor.Some? ==> page.items != [])
            && Covers(page.items, items, keyOf, after, LastKey(page, keyOf))
            && (page.nextCursor.Some? ==> page.nextCursor == Some(codec.encode(LastKey(page, keyOf).value)))
  {
    hide SortByKey, Less, Covers, Increasing, UniqueKeys, HasKey;
    SortIncreases(items, keyOf);
    var sorted := SortByKey(items, keyOf);
    var start := FirstAbove(sorted, keyOf, after, 0);
    var end := Min(start + pageSize, |sorted|);
    SliceCovers(sorted, keyOf, after, end);
    CoversSameKeys(sorted[start..end], sorted, items, keyOf, after, if end == |sorted| then None else Some(keyOf(sorted[end - 1])));
    assert start < end ==> sorted[start..end][end - start - 1] == sorted[end - 1];
  }

  /** Every page but the last is as long as it may be. */
  lemma PageIsFull<T>(items: seq<T>, keyOf: T -> string, after: Option<string>, pageSize: nat, codec: Codec)
    ensures var page := PageAfter(SortByKey(items, keyOf), keyOf, after, pageSize, codec);
      |page.items| <= pageSize && (page.nextCursor.Some? ==> |page.items| == pageSize)
  {
    hide SortByKey, Less;
  }

  lemma CoversSameKeys<T>(page: seq<T>, a: seq<T>, b: seq<T>, keyOf: T -> string, after: Option<string>, upto: Option<string>)
    requires Covers(page, a, keyOf, after, upto) && forall key :: HasKey(a, keyOf, key) <==> HasKey(b, keyOf, key)
    ensures Covers(page, b, keyOf, after, upto)
  {
    hide HasKey, Less, Increasing;
  }

  lemma SliceCovers<T>(sorted: seq<T>, keyOf: T -> string, after: Option<string>, end: nat)
    requires Increasing(sorted, keyOf)
    requires FirstAbove(sorted, keyOf, after, 0) <= end <= |sorted|
    requires FirstAbove(sorted, keyOf, after, 0) < end || end == |sorted|
    ensures var page := sorted[FirstAbove(sorted, keyOf, after, 0)..end];
            Covers(page, sorted, keyOf, after, if end == |sorted| then None else Some(keyOf(sorted[end - 1])))
  {
    hide Less, Increasing;
    var start := FirstAbove(sorted, keyOf, after, 0);
    var page := sorted[start..end];
    SliceIncreases(sorted, keyOf, start, end);
    forall i | 0 <= i < |page| ensures HasKey(sorted, keyOf, keyOf(page[i])) && Above(keyOf(page[i]), after) {
      assert page[i] == sorted[start + i];
      AboveStays(sorted, keyOf, after, start, start + i);
    }
    if end < |sorted| {
      forall i | 0 <= i < |page| ensures !Less(keyOf(sorted[end - 1]), keyOf(page[i])) {
        NotBelow(sorted, keyOf, start + i, end - 1);
      }
    }
    forall key | HasKey(sorted, keyOf, key) && Above(key, after) && (end < |sorted| ==> !Less(keyOf(sorted[end - 1]), key))
      ensures HasKey(page, keyOf, key)
    {
      InSlice(sorted, keyOf, after, end, key);
    }
  }

  lemma SliceIncreases<T>(sorted: seq<T>, keyOf: T -> string, start: nat, end: nat)
    requires Increasing(sorted, keyOf) && start <= end <= |sorted|
    ensures Increasing(sorted[start..end], keyOf)
  {
    hide Less;
  }

  lemma InSlice<T>(sorted: seq<T>, keyOf: T -> string, after: Option<string>, end: nat, key: string)
    requires Increasing(sorted, keyOf) && HasKey(sorted, keyOf, key) && Above(key, after)
    requires FirstAbove(sorted, keyOf, after, 0) <= end <= |sorted|
    requires FirstAbove(sorted, keyOf, after, 0) < end || end == |sorted|
    requires end < |sorted| ==> !Less(keyOf(sorted[end - 1]), key)
    ensures HasKey(sorted[FirstAbove(sorted, keyOf, after, 0)..end], keyOf, key)
  {
    hide *;
    var start := FirstAbove(sorted, keyOf, after, 0);
    var i := KeyAt(sorted, keyOf, key);
    assert start <= i;
    if end < |sorted| { NotBehind(sorted, keyOf, end, i); }
    assert sorted[start..end][i - start] == sorted[i];
    KeyOfItem(sorted[start..end], keyOf, i - start);
  }

  lemma KeyAt<T>(items: seq<T>, keyOf: T -> string, key: string) returns (i: nat)
    requires HasKey(items, keyOf, key)
    ensures i < |items| && keyOf(items[i]) == key
  {
    i :| 0 <= i < |items| && keyOf(items[i]) == key;
  }

  lemma KeyOfItem<T>(items: seq<T>, keyOf: T -> string, i: nat)
    requires i < |items|
    ensures HasKey(items, keyOf, keyOf(items[i]))
  {
  }

  lemma NotBehind<T>(sorted: seq<T>, keyOf: T -> string, end: nat, i: nat)
    requires Increasing(sorted, keyOf) && 0 < end && i < |sorted| && end <= |sorted|
    requires !Less(keyOf(sorted[end - 1]), keyOf(sorted[i]))
    ensures i < end
  {
    hide Less;
  }

  lemma AboveStays<T>(sorted: seq<T>, keyOf: T -> string, after: Option<string>, i: nat, j: nat)
    requires Increasing(sorted, keyOf) && i <= j < |sorted| && Above(keyOf(sorted[i]), after)
    ensures Above(keyOf(sorted[j]), after)
  {
    if after.Some? && i < j { LessTransitive(after.value, keyOf(sorted[i]), keyOf(sorted[j])); }
  }

  lemma NotBelow<T>(sorted: seq<T>, keyOf: T -> string, i: nat, j: nat)
    requires Increasing(sorted, keyOf) && i <= j < |sorted|
    ensures !Less(keyOf(sorted[j]), keyOf(sorted[i]))
  {
    LessIrreflexive(keyOf(sorted[i]));
    if i < j && Less(keyOf(sorted[j]), keyOf(sorted[i])) {
      LessTransitive(keyOf(sorted[i]), keyOf(sorted[j]), keyOf(sorted[i]));
    }
  }

  /** A cursor the gateway issued for a key that is not empty is taken back as that key. */
  lemma IssuedCursorIsAccepted(key: string, codec: Codec)
    requires Faithful(codec)
    ensures DecodeCursor(Given(codec.encode(key)), codec) == if key == "" then Err(EmptyCursor) else Ok(Some(key))
  {
    assert codec.decode(codec.encode(key)) == key;
  }

  /** A cursor is accepted exactly if it is the encoding of a key that is not empty. */
  lemma OnlyIssuedCursorsAreAccepted(text: string, codec: Codec)
    requires Faithful(codec)
    ensures DecodeCursor(Given(text), codec).Ok? <==> exists key :: key != "" && codec.encode(key) == text
    ensures DecodeCursor(Absent, codec) == Ok(None) && DecodeCursor(NotAString, codec) == Err(EmptyCursor)
  {
    var key := codec.decode(text);
    if text != "" && codec.encode(key) == text { assert key != ""; }
    forall k | k != "" && codec.encode(k) == text ensures DecodeCursor(Given(text), codec).Ok? {
      assert codec.decode(codec.encode(k)) == k;
    }
  }

  // ----- draining a list -------------------------------------------------------------

  /** A client asking for page after page: what it has, and what it will send next. */
  datatype Progress<T> = Fetching(delivered: seq<T>, cursor: Cursor) | Finished(delivered: seq<T>) | Failed(delivered: seq<T>)

  /** After as many requests as there are snapshots; each page is cut from the list as it then is. */
  function Drain<T>(snapshots: seq<seq<T>>, keyOf: T -> string, pageSize: nat, codec: Codec): Progress<T> {
    if snapshots == [] then Fetching([], Absent)
    else
      var before := Drain(snapshots[..|snapshots| - 1], keyOf, pageSize, codec);
      if !before.Fetching? then before
      else
        match Paginate(snapshots[|snapshots| - 1], keyOf, before.cursor, pageSize, codec)
        case Err(_) => Failed(before.delivered)
        case Ok(page) =>
          if page.nextCursor.None? then Finished(before.delivered + page.items)
          else Fetching(before.delivered + page.items, Given(page.nextCursor.value))
  }

  /** Every list the client may see has unique keys. */
  ghost predicate Keyed<T>(snapshots: seq<seq<T>>, keyOf: T -> string) {
    forall n :: 0 <= n < |snapshots| ==> UniqueKeys(snapshots[n], keyOf)
  }

  /** The first page is not the last one and ends at the empty key, whose encoding is no cursor. */
  ghost predicate EndsAtEmptyKey<T>(items: seq<T>, keyOf: T -> string, pageSize: nat) {
    pageSize == 1 && |items| > 1 && HasKey(items, keyOf, "")
  }

  ghost predicate InAll<T>(snapshots: seq<seq<T>>, keyOf: T -> string, key: string) {
    forall n :: 0 <= n < |snapshots| ==> HasKey(snapshots[n], keyOf, key)
  }

  ghost predicate Delivered<T>(progress: Progress<T>, snapshots: seq<seq<T>>, keyOf: T -> string, codec: Codec) {
    && Increasing(progress.delivered, keyOf)
    && (progress.Finished? ==> forall key :: InAll(snapshots, keyOf, key) ==> HasKey(progress.delivered, keyOf, key))
    && (progress.Fetching? ==>
          if progress.delivered == [] then progress.cursor.Absent? && snapshots == []
          else
            var last := keyOf(progress.delivered[|progress.delivered| - 1]);
            && progress.cursor == Given(codec.encode(last))
            && forall key :: InAll(snapshots, keyOf, key) && !Less(last, key) ==> HasKey(progress.delivered, keyOf, key))
  }

  /** The key of the last item a client has, or none before the first page. */
  function Resume<T>(delivered: seq<T>, keyOf: T -> string): Option<string> {
    if delivered == [] then None else Some(keyOf(delivered[|delivered| - 1]))
  }

  /** The cursor a client sends resumes right behind the last item it has. */
  lemma OnePageMore<T>(snapshots: seq<seq<T>>, keyOf: T -> string, pageSize: nat, codec: Codec)
    requires Faithful(codec) && snapshots != []
    requires var earlier := snapshots[..|snapshots| - 1];
             var before := Drain(earlier, keyOf, pageSize, codec);
             before.Fetching? && Delivered(before, earlier, keyOf, codec) && Resume(before.delivered, keyOf) != Some("")
    ensures var delivered := Drain(snapshots[..|snapshots| - 1], keyOf, pageSize, codec).delivered;
            var page := PageAfter(SortByKey(snapshots[|snapshots| - 1], keyOf), keyOf, Resume(delivered, keyOf), pageSize, codec);
            Drain(snapshots, keyOf, pageSize, codec)
              == if page.nextCursor.None? then Finished(delivered + page.items)
                 else Fetching(delivered + page.items, Given(page.nextCursor.value))
  {
    hide PageAfter, SortByKey, Faithful, Increasing, HasKey, InAll, Less;
    var before := Drain(snapshots[..|snapshots| - 1], keyOf, pageSize, codec);
    var after := Resume(before.delivered, keyOf);
    if after.Some? { IssuedCursorIsAccepted(after.value, codec); }
  }

  /** Behind an item with the empty key the client sends an empty cursor, which is refused. */
  lemma EmptyCursorFails<T>(snapshots: seq<seq<T>>, keyOf: T -> string, pageSize: nat, codec: Codec)
    requires Faithful(codec) && snapshots != []
    requires var earlier := snapshots[..|snapshots| - 1];
             var before := Drain(earlier, keyOf, pageSize, codec);
             before.Fetching? && Delivered(before, earlier, keyOf, codec) && Resume(before.delivered, keyOf) == Some("")
    ensures Drain(snapshots, keyOf, pageSize, codec) == Failed(Drain(snapshots[..|snapshots| - 1], keyOf, pageSize, codec).delivered)
    ensures |Drain(snapshots[..|snapshots| - 1], keyOf, pageSize, codec).delivered| == 1
  {
    hide PageAfter, SortByKey, Faithful, HasKey, InAll;
    var delivered := Drain(snapshots[..|snapshots| - 1], keyOf, pageSize, codec).delivered;
    IssuedCursorIsAccepted("", codec);
    assert |delivered| > 1 ==> Less(keyOf(delivered[|delivered| - 2]), keyOf(delivered[|delivered| - 1]));
  }

  lemma {:induction false} DrainDelivers<T>(snapshots: seq<seq<T>>, keyOf: T -> string, pageSize: nat, codec: Codec)
    requires Keyed(snapshots, keyOf) && pageSize > 0 && Faithful(codec)
    ensures Delivered(Drain(snapshots, keyOf, pageSize, codec), snapshots, keyOf, codec)
    decreases |snapshots|
  {
    if snapshots != [] {
      var earlier, now := snapshots[..|snapshots| - 1], snapshots[|snapshots| - 1];
      DrainDelivers(earlier, keyOf, pageSize, codec);
      var before := Drain(earlier, keyOf, pageSize, codec);
      forall key | InAll(snapshots, keyOf, key) ensures InAll(earlier, keyOf, key) && HasKey(now, keyOf, key) {
        assert forall n :: 0 <= n < |earlier| ==> earlier[n] == snapshots[n];
      }
      if before.Fetching? && Resume(before.delivered, keyOf) == Some("") {
        EmptyCursorFails(snapshots, keyOf, pageSize, codec);
      } else if before.Fetching? {
        var after := Resume(before.delivered, keyOf);
        OnePageMore(snapshots, keyOf, pageSize, codec);
        var page := PageAfter(SortByKey(now, keyOf), keyOf, after, pageSize, codec);
        PageCovers(now, keyOf, after, pageSize, codec);
        PageContinues(before.delivered, page.items, now, keyOf, LastKey(page, keyOf));
        forall key | InAll(snapshots, keyOf, key) && (page.nextCursor.Some? ==> !Less(LastKey(page, keyOf).value, key))
          ensures HasKey(before.delivered + page.items, keyOf, key)
        {
          KeyInEither(before.delivered, page.items, keyOf, key);
        }
      }
    }
  }

  /** A page's keys lie above everything delivered, so the whole stays in strict order. */
  lemma PageContinues<T>(delivered: seq<T>, page: seq<T>, items: seq<T>, keyOf: T -> string, upto: Option<string>)
    requires Increasing(delivered, keyOf) && Covers(page, items, keyOf, Resume(delivered, keyOf), upto)
    ensures Increasing(delivered + page, keyOf)
  {
    var all, n := delivered + page, |delivered|;
    forall i, j | 0 <= i < j < |all| ensures Less(keyOf(all[i]), keyOf(all[j])) {
      if i < n <= j {
        assert all[i] == delivered[i] && all[j] == page[j - n];
        assert Above(keyOf(page[j - n]), Resume(delivered, keyOf));
        if i < n - 1 { LessTransitive(keyOf(delivered[i]), keyOf(delivered[n - 1]), keyOf(page[j - n])); }
      }
    }
  }

  lemma KeyInEither<T>(a: seq<T>, b: seq<T>, keyOf: T -> string, key: string)
    ensures HasKey(a + b, keyOf, key) <==> HasKey(a, keyOf, key) || HasKey(b, keyOf, key)
  {
    var all := a + b;
    if HasKey(a, keyOf, key) {
      var i :| 0 <= i < |a| && keyOf(a[i]) == key;
      assert all[i] == a[i];
    }
    if HasKey(b, keyOf, key) {
      var i :| 0 <= i < |b| && keyOf(b[i]) == key;
      assert all[|a| + i] == b[i];
    }
  }

  /** Only the first page can end at the empty key. */
  lemma FirstPageEnds<T>(items: seq<T>, keyOf: T -> string, pageSize: nat, codec: Codec)
    requires UniqueKeys(items, keyOf) && pageSize > 0
    ensures var page := PageAfter(SortByKey(items, keyOf), keyOf, None, pageSize, codec);
      && (page.nextCursor.Some? ==> page.items != [])
      && (LastKey(page, keyOf) == Some("") <==> EndsAtEmptyKey(items, keyOf, pageSize))
  {
    SortIncreases(items, keyOf);
    var sorted := SortByKey(items, keyOf);
    assert FirstAbove(sorted, keyOf, None, 0) == 0;
    var end := Min(pageSize, |sorted|);
    hide SortByKey, UniqueKeys;
    assert sorted[0..end] == sorted[..end];
    if end > 1 { assert Less(keyOf(sorted[0]), keyOf(sorted[end - 1])); }
    if HasKey(items, keyOf, "") {
      var k := KeyAt(sorted, keyOf, "");
      assert k > 0 ==> Less(keyOf(sorted[0]), keyOf(sorted[k]));
    } else if sorted != [] {
      KeyOfItem(sorted, keyOf, 0);
    }
  }

  lemma LaterPageEnds<T>(items: seq<T>, keyOf: T -> string, after: string, pageSize: nat, codec: Codec)
    requires UniqueKeys(items, keyOf) && pageSize > 0
    ensures var page := PageAfter(SortByKey(items, keyOf), keyOf, Some(after), pageSize, codec);
      (page.nextCursor.Some? ==> page.items != []) && LastKey(page, keyOf) != Some("")
  {
    hide SortByKey, PageAfter, UniqueKeys;
    PageCovers(items, keyOf, Some(after), pageSize, codec);
  }

  lemma LastOfBoth<T>(delivered: seq<T>, page: Page<T>, keyOf: T -> string)
    requires page.nextCursor.Some? && page.items != []
    ensures delivered + page.items != [] && Resume(delivered + page.items, keyOf) == LastKey(page, keyOf)
  {
  }

  /** When a drain has failed, and when its next request will fail. */
  lemma {:induction false} DrainFails<T>(snapshots: seq<seq<T>>, keyOf: T -> string, pageSize: nat, codec: Codec)
    requires Keyed(snapshots, keyOf) && pageSize > 0 && Faithful(codec)
    ensures var p := Drain(snapshots, keyOf, pageSize, codec);
      && (p.Failed? <==> |snapshots| >= 2 && EndsAtEmptyKey(snapshots[0], keyOf, pageSize))
      && (p.Fetching? && Resume(p.delivered, keyOf) == Some("") <==>
            |snapshots| == 1 && EndsAtEmptyKey(snapshots[0], keyOf, pageSize))
    decreases |snapshots|
  {
    hide EndsAtEmptyKey, UniqueKeys, Faithful, SortByKey, PageAfter, Delivered;
    if snapshots != [] {
      var earlier, now := snapshots[..|snapshots| - 1], snapshots[|snapshots| - 1];
      DrainFails(earlier, keyOf, pageSize, codec);
      DrainDelivers(earlier, keyOf, pageSize, codec);
      var before := Drain(earlier, keyOf, pageSize, codec);
      if before.Fetching? && Resume(before.delivered, keyOf) == Some("") {
        EmptyCursorFails(snapshots, keyOf, pageSize, codec);
      } else if before.Fetching? {
        var after := Resume(before.delivered, keyOf);
        OnePageMore(snapshots, keyOf, pageSize, codec);
        var page := PageAfter(SortByKey(now, keyOf), keyOf, after, pageSize, codec);
        FirstFetch(earlier, keyOf, pageSize, codec);
        if after.None? { FirstPageEnds(now, keyOf, pageSize, codec); } else { LaterPageEnds(now, keyOf, after.value, pageSize, codec); }
        if page.nextCursor.Some? { LastOfBoth(before.delivered, page, keyOf); }
      }
    }
  }

  /** Before the first page nothing is delivered; behind every other that is not the last something is. */
  lemma FirstFetch<T>(snapshots: seq<seq<T>>, keyOf: T -> string, pageSize: nat, codec: Codec)
    requires var p := Drain(snapshots, keyOf, pageSize, codec); p.Fetching? && Delivered(p, snapshots, keyOf, codec)
    ensures Resume(Drain(snapshots, keyOf, pageSize, codec).delivered, keyOf).None? <==> snapshots == []
  {
    hide Increasing, InAll, HasKey, Less;
  }

  /**
   * Draining a list that changes between pages never repeats a key, and once it has
   * finished has delivered every key that was there all along exactly once. It fails
   * exactly when the page size is one and the first list held the empty key and more.
   */
  lemma DrainIsExact<T>(snapshots: seq<seq<T>>, keyOf: T -> string, pageSize: nat, codec: Codec)
    requires Keyed(snapshots, keyOf) && pageSize > 0 && Faithful(codec)
    ensures var p := Drain(snapshots, keyOf, pageSize, codec);
            && (p.Failed? <==> |snapshots| >= 2 && EndsAtEmptyKey(snapshots[0], keyOf, pageSize))
            && Increasing(p.delivered, keyOf) && UniqueKeys(p.delivered, keyOf)
            && (p.Finished? ==> forall key :: InAll(snapshots, keyOf, key) ==> HasKey(p.delivered, keyOf, key))
  {
    DrainDelivers(snapshots, keyOf, pageSize, codec);
    DrainFails(snapshots, keyOf, pageSize, codec);
    var d := Drain(snapshots, keyOf, pageSize, codec).delivered;
    forall i, j | 0 <= i < j < |d| ensures keyOf(d[i]) != keyOf(d[j]) {
      LessIrreflexive(keyOf(d[i]));
    }
  }

  // ----- a list that does not change -------------------------------------------------

  function Repeat<T>(items: seq<T>, n: nat): (r: seq<seq<T>>)
    ensures |r| == n && forall i :: 0 <= i < n ==> r[i] == items
  {
    seq(n, _ => items)
  }

  /** Resuming from the `m`-th item of a sorted list starts right behind it. */
  lemma StartsBehind<T>(sorted: seq<T>, keyOf: T -> string, m: nat)
    requires Increasing(sorted, keyOf) && m <= |sorted|
    ensures FirstAbove(sorted, keyOf, Resume(sorted[..m], keyOf), 0) == m
  {
    hide Less;
    var after := Resume(sorted[..m], keyOf);
    if m > 0 {
      assert after == Some(keyOf(sorted[m - 1]));
      assert m < |sorted| ==> Above(keyOf(sorted[m]), after);
      forall k | 0 <= k < m ensures !Above(keyOf(sorted[k]), after) { NotBelow(sorted, keyOf, k, m - 1); }
    }
  }

  /** One more page of an unchanging list. */
  lemma NextPage<T>(sorted: seq<T>, keyOf: T -> string, pageSize: nat, codec: Codec, m: nat)
    requires Increasing(sorted, keyOf) && m <= |sorted| && pageSize > 0
    ensures var page := PageAfter(sorted, keyOf, Resume(sorted[..m], keyOf), pageSize, codec);
            && sorted[..m] + page.items <= sorted
            && (page.nextCursor.None? ==> sorted[..m] + page.items == sorted)
            && (page.nextCursor.Some? ==> m < |sorted[..m] + page.items| < |sorted|)
  {
    hide Less, Increasing;
    StartsBehind(sorted, keyOf, m);
    var end := Min(m + pageSize, |sorted|);
    assert sorted[..m] + sorted[m..end] == sorted[..end];
  }

  lemma PrefixGrows<T>(delivered: seq<T>, sorted: seq<T>, keyOf: T -> string, pageSize: nat, codec: Codec)
    requires Increasing(sorted, keyOf) && delivered <= sorted && pageSize > 0
    ensures var page := PageAfter(sorted, keyOf, Resume(delivered, keyOf), pageSize, codec);
            && delivered + page.items <= sorted
            && (page.nextCursor.None? ==> delivered + page.items == sorted)
            && (page.nextCursor.Some? ==> |delivered| < |delivered + page.items| < |sorted|)
  {
    hide Less, Increasing, PageAfter;
    assert sorted[..|delivered|] == delivered;
    NextPage(sorted, keyOf, pageSize, codec, |delivered|);
  }

  lemma NothingDrained<T>(keyOf: T -> string, pageSize: nat, codec: Codec)
    ensures Drain([], keyOf, pageSize, codec) == Fetching([], Absent)
  {
  }

  lemma KeyedRepeat<T>(items: seq<T>, keyOf: T -> string, n: nat)
    requires UniqueKeys(items, keyOf)
    ensures Keyed(Repeat(items, n), keyOf)
  {
    hide UniqueKeys;
  }

  lemma DrainStays<T>(snapshots: seq<seq<T>>, keyOf: T -> string, pageSize: nat, codec: Codec)
    requires snapshots != []
    ensures var before := Drain(snapshots[..|snapshots| - 1], keyOf, pageSize, codec);
      !before.Fetching? ==> Drain(snapshots, keyOf, pageSize, codec) == before
  {
    hide Paginate;
  }

  lemma RepeatOneLess<T>(items: seq<T>, n: nat)
    requires n > 0
    ensures |Repeat(items, n)| == n && Repeat(items, n)[..n - 1] == Repeat(items, n - 1) && Repeat(items, n)[n - 1] == items
  {
  }

  lemma PrefixPage<T>(items: seq<T>, keyOf: T -> string, pageSize: nat, codec: Codec, n: nat)
    requires n > 0 && pageSize > 0 && Faithful(codec) && Increasing(SortByKey(items, keyOf), keyOf)
    requires var before := Drain(Repeat(items, n - 1), keyOf, pageSize, codec);
      && before.Fetching? && Delivered(before, Repeat(items, n - 1), keyOf, codec)
      && Resume(before.delivered, keyOf) != Some("") && before.delivered <= SortByKey(items, keyOf)
    ensures var before, p := Drain(Repeat(items, n - 1), keyOf, pageSize, codec), Drain(Repeat(items, n), keyOf, pageSize, codec);
      var sorted := SortByKey(items, keyOf);
      && p.delivered <= sorted && !p.Failed? && (p.Finished? ==> p.delivered == sorted)
      && (p.Fetching? ==> |before.delivered| < |p.delivered| < |sorted|)
  {
    hide *;
    RepeatOneLess(items, n);
    OnePageMore(Repeat(items, n), keyOf, pageSize, codec);
    PrefixGrows(Drain(Repeat(items, n - 1), keyOf, pageSize, codec).delivered, SortByKey(items, keyOf), keyOf, pageSize, codec);
  }

  /** From an unchanging list a client has, after `n` pages, a prefix of the sorted list. */
  lemma {:induction false} DrainIsPrefix<T>(items: seq<T>, keyOf: T -> string, pageSize: nat, codec: Codec, n: nat)
    requires UniqueKeys(items, keyOf) && pageSize > 0 && Faithful(codec)
    ensures var p, sorted := Drain(Repeat(items, n), keyOf, pageSize, codec), SortByKey(items, keyOf);
            && p.delivered <= sorted
            && (p.Finished? ==> p.delivered == sorted)
            && (p.Failed? ==> |p.delivered| == 1)
            && (n > 0 && p.Fetching? ==> n <= |p.delivered| < |sorted|)
    decreases n
  {
    hide *;
    if n == 0 {
      NothingDrained(keyOf, pageSize, codec);
      assert Repeat(items, 0) == [];
    } else {
      KeyedRepeat(items, keyOf, n - 1);
      DrainStays(Repeat(items, n), keyOf, pageSize, codec);
      var earlier := Repeat(items, n - 1);
      assert Repeat(items, n)[..n - 1] == earlier;
      DrainIsPrefix(items, keyOf, pageSize, codec, n - 1);
      DrainDelivers(earlier, keyOf, pageSize, codec);
      SortIncreases(items, keyOf);
      var before, sorted := Drain(earlier, keyOf, pageSize, codec), SortByKey(items, keyOf);
      if before.Fetching? && Resume(before.delivered, keyOf) == Some("") {
        EmptyCursorFails(Repeat(items, n), keyOf, pageSize, codec);
      } else if before.Fetching? {
        PrefixPage(items, keyOf, pageSize, codec, n);
      }
    }
  }

  /**
   * The pages of an unchanging list put together are the sorted list, and the client
   * finishes; only if the first page ends at the empty key it gets stuck behind it.
   */
  lemma DrainOfUnchangingList<T>(items: seq<T>, keyOf: T -> string, pageSize: nat, codec: Codec)
    requires UniqueKeys(items, keyOf) && pageSize > 0 && Faithful(codec)
    ensures Drain(Repeat(items, |items| + 1), keyOf, pageSize, codec)
         == if EndsAtEmptyKey(items, keyOf, pageSize) then Failed(SortByKey(items, keyOf)[..1])
            else Finished(SortByKey(items, keyOf))
  {
    DrainIsPrefix(items, keyOf, pageSize, codec, |items| + 1);
    DrainFails(Repeat(items, |items| + 1), keyOf, pageSize, codec);
  }

  /** The empty key and one more, one item a page: the second request is refused. */
  lemma EmptyKeyStopsDrain(codec: Codec)
    requires Faithful(codec)
    ensures Drain([["", "a"], ["", "a"]], (key: string) => key, 1, codec).Failed?
  {
    hide Faithful;
    var items, keyOf := ["", "a"], (key: string) => key;
    KeyOfItem(items, keyOf, 0);
    assert Keyed([items, items], keyOf);
    DrainIsExact([items, items], keyOf, 1, codec);
  }
}
