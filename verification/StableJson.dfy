/**
 * The canonical text behind schema hashes (packages/core/src/json.ts): properties
 * are printed in key order, so structures that differ only in property order get
 * the same text.
 */
module StableJson {
  import opened Wrappers
  import opened Text
  import opened JsonText

  type Property = (string, Json)

  /**
   * The values stableStringify may meet. A number is known by its JSON text; NaN
   * and the infinities have none. An object's properties come in insertion order.
   */
  datatype Json =
    | Undefined
    | Null
    | Bool(b: bool)
    | Number(text: string)
    | NonFinite
    | Str(s: string)
    | Arr(items: seq<Json>)
    | Obj(props: seq<Property>)

  predicate NumberCharacter(c: char) {
    IsDigit(c) || c == '-' || c == '+' || c == '.' || c == 'e' || c == 'E'
  }

  predicate NumberText(text: string) {
    text != "" && (IsDigit(text[0]) || text[0] == '-') && forall i :: 0 <= i < |text| ==> NumberCharacter(text[i])
  }

  predicate DistinctKeys(props: seq<Property>) {
    forall i, j :: 0 <= i < j < |props| ==> props[i].0 != props[j].0
  }

  /** A value as the runtime can hold it. */
  predicate WellFormed(v: Json)
    decreases v
  {
    match v
    case Number(text) => NumberText(text)
    case Arr(items) => forall x :: x in items ==> WellFormed(x)
    case Obj(props) => DistinctKeys(props) && forall e :: e in props ==> WellFormed(e.1)
    case _ => true
  }

  // ----- printing --------------------------------------------------------------------

  function Kept(props: seq<Property>): (r: seq<Property>)
    ensures forall e :: e in r <==> e in props && !e.1.Undefined?
  {
    if props == [] then []
    else (if props[0].1.Undefined? then [] else [props[0]]) + Kept(props[1..])
  }

  function Insert(e: Property, sorted: seq<Property>): (r: seq<Property>)
    ensures forall x :: x in r <==> x == e || x in sorted
  {
    if sorted == [] || !Less(sorted[0].0, e.0) then [e] + sorted
    else [sorted[0]] + Insert(e, sorted[1..])
  }

  function SortByKey(props: seq<Property>): (r: seq<Property>)
    ensures forall x :: x in r <==> x in props
  {
    if props == [] then [] else Insert(props[0], SortByKey(props[1..]))
  }

  function StableStringify(v: Json): string
    decreases v, 1, 0
  {
    match v
    case Undefined => "null"
    case Null => "null"
    case Bool(b) => if b then "true" else "false"
    case Number(text) => text
    case NonFinite => "null"
    case Str(s) => Quote(s)
    case Arr(items) => "[" + ItemsText(v, items) + "]"
    case Obj(props) => "{" + EntriesText(v, SortByKey(Kept(props))) + "}"
  }

  function ItemsText(v: Json, items: seq<Json>): string
    requires v.Arr? && forall x :: x in items ==> x in v.items
    decreases v, 0, |items|
  {
    if items == [] then ""
    else
      assert items[0] in v.items;
      StableStringify(items[0]) + if |items| == 1 then "" else "," + ItemsText(v, items[1..])
  }

  function EntryText(v: Json, e: Property): string
    requires v.Obj? && e in v.props
    decreases v, 0, 0
  {
    Quote(e.0) + ":" + StableStringify(e.1)
  }

  function EntriesText(v: Json, entries: seq<Property>): string
    requires v.Obj? && forall e :: e in entries ==> e in v.props
    decreases v, 0, |entries| + 1
  {
    if entries == [] then ""
    else EntryText(v, entries[0]) + if |entries| == 1 then "" else "," + EntriesText(v, entries[1..])
  }

  function Commas(parts: seq<string>): string {
    if parts == [] then "" else if |parts| == 1 then parts[0] else parts[0] + "," + Commas(parts[1..])
  }

  lemma {:induction false} ItemsAreJoined(v: Json, items: seq<Json>, texts: seq<string>)
    requires v.Arr? && (forall x :: x in items ==> x in v.items)
    requires |texts| == |items| && forall n :: 0 <= n < |items| ==> texts[n] == StableStringify(items[n])
    ensures ItemsText(v, items) == Commas(texts)
    decreases |items|
  {
    hide StableStringify;
    if items != [] {
      ItemsAreJoined(v, items[1..], texts[1..]);
      assert texts[0] + "," + Commas(texts[1..]) == texts[0] + ("," + Commas(texts[1..]));
    }
  }

  lemma {:induction false} EntriesAreJoined(v: Json, entries: seq<Property>, texts: seq<string>)
    requires v.Obj? && (forall e :: e in entries ==> e in v.props)
    requires |texts| == |entries|
    requires forall n :: 0 <= n < |entries| ==> texts[n] == Quote(entries[n].0) + ":" + StableStringify(entries[n].1)
    ensures EntriesText(v, entries) == Commas(texts)
    decreases |entries|
  {
    hide StableStringify, Quote;
    if entries != [] {
      EntriesAreJoined(v, entries[1..], texts[1..]);
      assert texts[0] + "," + Commas(texts[1..]) == texts[0] + ("," + Commas(texts[1..]));
    }
  }

  /** The text is JSON: arrays in order, objects by their kept properties in key order, comma by comma. */
  lemma TextIsJson(v: Json, parts: seq<string>)
    requires v.Arr? ==> |parts| == |v.items| && forall n :: 0 <= n < |parts| ==> parts[n] == StableStringify(v.items[n])
    requires v.Obj? ==>
      var sorted := SortByKey(Kept(v.props));
      |parts| == |sorted| && forall n :: 0 <= n < |parts| ==> parts[n] == Quote(sorted[n].0) + ":" + StableStringify(sorted[n].1)
    ensures StableStringify(v) ==
      match v
      case Undefined => "null"
      case Null => "null"
      case Bool(b) => if b then "true" else "false"
      case Number(text) => text
      case NonFinite => "null"
      case Str(s) => Quote(s)
      case Arr(_) => "[" + Commas(parts) + "]"
      case Obj(_) => "{" + Commas(parts) + "}"
  {
    if v.Arr? { ItemsAreJoined(v, v.items, parts); }
    if v.Obj? { EntriesAreJoined(v, SortByKey(Kept(v.props)), parts); }
    hide Quote, ItemsText, EntriesText, Commas, SortByKey, Kept;
  }

  // ----- what a value means ----------------------------------------------------------

  /** JSON up to property order: an object is a map. */
  datatype Value =
    | VNull
    | VBool(b: bool)
    | VNumber(text: string)
    | VString(s: string)
    | VArray(items: seq<Value>)
    | VObject(members: map<string, Value>)

  function Meaning(v: Json): Value
    decreases v, 1
  {
    match v
    case Undefined => VNull
    case Null => VNull
    case Bool(b) => VBool(b)
    case Number(text) => VNumber(text)
    case NonFinite => VNull
    case Str(s) => VString(s)
    case Arr(items) => VArray(seq(|items|, n requires 0 <= n < |items| => Meaning(items[n])))
    case Obj(props) => VObject(Members(v, Kept(props)))
  }

  function Members(v: Json, entries: seq<Property>): (r: map<string, Value>)
    requires v.Obj? && forall e :: e in entries ==> e in v.props
    ensures forall k :: k in r <==> exists e :: e in entries && e.0 == k
    decreases v, 0, |entries|
  {
    if entries == [] then map[]
    else
      assert entries[0] in v.props;
      Members(v, entries[1..])[entries[0].0 := Meaning(entries[0].1)]
  }

  lemma {:induction false} MemberAt(v: Json, entries: seq<Property>, e: Property)
    requires v.Obj? && forall x :: x in entries ==> x in v.props
    requires DistinctKeys(entries) && e in entries
    ensures e.0 in Members(v, entries) && Members(v, entries)[e.0] == Meaning(e.1)
    decreases |entries|
  {
    if e != entries[0] {
      var i :| 0 <= i < |entries| && entries[i] == e;
      assert e in entries[1..] by { assert entries[1..][i - 1] == e; }
      MemberAt(v, entries[1..], e);
    }
  }

  // ----- sorting ---------------------------------------------------------------------

  predicate Sorted(entries: seq<Property>) {
    forall i, j :: 0 <= i < j < |entries| ==> Less(entries[i].0, entries[j].0)
  }

  lemma {:induction false} KeptDistinct(props: seq<Property>)
    requires DistinctKeys(props)
    ensures DistinctKeys(Kept(props))
  {
    if props != [] {
      var rest := Kept(props[1..]);
      KeptDistinct(props[1..]);
      forall j | 0 <= j < |rest| ensures rest[j].0 != props[0].0 {
        assert rest[j] in props[1..];
      }
    }
  }

  lemma {:induction false} InsertSorts(e: Property, entries: seq<Property>)
    requires Sorted(entries) && forall x :: x in entries ==> x.0 != e.0
    ensures Sorted(Insert(e, entries))
  {
    if entries != [] {
      var first, rest := entries[0], entries[1..];
      LessTotal(first.0, e.0);
      if Less(first.0, e.0) {
        InsertSorts(e, rest);
        forall x | x in Insert(e, rest) ensures Less(first.0, x.0) {
          if x in rest { var i :| 0 <= i < |rest| && rest[i] == x; assert entries[i + 1] == x; }
        }
      } else {
        forall i | 0 < i < |entries| ensures Less(e.0, entries[i].0) {
          LessTransitive(e.0, first.0, entries[i].0);
        }
      }
    }
  }

  lemma {:induction false} SortSorts(props: seq<Property>)
    requires DistinctKeys(props)
    ensures Sorted(SortByKey(props))
  {
    if props != [] {
      SortSorts(props[1..]);
      InsertSorts(props[0], SortByKey(props[1..]));
    }
  }

  predicate Has(entries: seq<Property>, key: string) {
    exists e :: e in entries && e.0 == key
  }

  /** Every key of `a` is at least the first one. */
  lemma FirstIsLeast(a: seq<Property>, key: string)
    requires Sorted(a) && Has(a, key)
    ensures a[0].0 == key || Less(a[0].0, key)
  {
  }

  /** One set of keys has one sorted list. */
  lemma {:induction false} SortingIsUnique(a: seq<Property>, b: seq<Property>)
    requires Sorted(a) && Sorted(b)
    requires forall key :: Has(a, key) <==> Has(b, key)
    ensures |a| == |b| && forall i :: 0 <= i < |a| ==> a[i].0 == b[i].0
  {
    if a == [] || b == [] {
      if a != [] { assert Has(a, a[0].0); }
      if b != [] { assert Has(b, b[0].0); }
    } else {
      assert Has(a, a[0].0) && Has(b, b[0].0);
      FirstIsLeast(a, b[0].0);
      FirstIsLeast(b, a[0].0);
      if Less(a[0].0, b[0].0) && Less(b[0].0, a[0].0) {
        LessTransitive(a[0].0, b[0].0, a[0].0);
        LessIrreflexive(a[0].0);
      }
      forall key ensures Has(a[1..], key) <==> Has(b[1..], key) {
        HasInRest(a, key);
        HasInRest(b, key);
      }
      SortingIsUnique(a[1..], b[1..]);
    }
  }

  lemma HasInRest(a: seq<Property>, key: string)
    requires Sorted(a) && a != []
    ensures Has(a[1..], key) <==> Has(a, key) && key != a[0].0
  {
    if Has(a[1..], key) {
      var e :| e in a[1..] && e.0 == key;
      assert e in a;
      LessIrreflexive(key);
    }
    if Has(a, key) && key != a[0].0 {
      var e :| e in a && e.0 == key;
      assert e in a[1..];
    }
  }

  /** The printed entries of an object: its kept properties, in strictly increasing key order. */
  function Printed(v: Json): seq<Property>
    requires v.Obj?
  {
    SortByKey(Kept(v.props))
  }

  lemma PrintedSorted(v: Json)
    requires v.Obj? && WellFormed(v)
    ensures Sorted(Printed(v))
    ensures forall e :: e in Printed(v) <==> e in Kept(v.props)
  {
    KeptDistinct(v.props);
    SortSorts(Kept(v.props));
  }

  lemma MeaningAt(v: Json, e: Property)
    requires v.Obj? && WellFormed(v) && e in Printed(v)
    ensures e.0 in Meaning(v).members && Meaning(v).members[e.0] == Meaning(e.1)
  {
    KeptDistinct(v.props);
    MemberAt(v, Kept(v.props), e);
  }

  lemma MeaningHas(v: Json, key: string)
    requires v.Obj? && WellFormed(v)
    ensures key in Meaning(v).members <==> Has(Printed(v), key)
  {
  }

  // ----- equal meaning, equal text ---------------------------------------------------

  lemma {:induction false} SameMeaningSameText(v: Json, w: Json)
    requires WellFormed(v) && WellFormed(w) && Meaning(v) == Meaning(w)
    ensures StableStringify(v) == StableStringify(w)
    decreases v, 1, 0
  {
    match v
    case Arr(items) =>
      assert w.Arr?;
      var a, b := Meaning(v).items, Meaning(w).items;
      forall i | 0 <= i < |items| ensures Meaning(items[i]) == Meaning(w.items[i]) {
        assert a[i] == b[i];
      }
      SameItems(v, items, w, w.items);
    case Obj(_) =>
      assert w.Obj?;
      var a, b := Printed(v), Printed(w);
      PrintedSorted(v);
      PrintedSorted(w);
      forall key ensures Has(a, key) <==> Has(b, key) {
        MeaningHas(v, key);
        MeaningHas(w, key);
      }
      SortingIsUnique(a, b);
      forall i | 0 <= i < |a| ensures Meaning(a[i].1) == Meaning(b[i].1) {
        MeaningAt(v, a[i]);
        MeaningAt(w, b[i]);
      }
      SameEntries(v, a, w, b);
    case _ =>
  }

  lemma {:induction false} SameItems(v: Json, xs: seq<Json>, w: Json, ys: seq<Json>)
    requires v.Arr? && WellFormed(v) && w.Arr? && WellFormed(w)
    requires (forall x :: x in xs ==> x in v.items) && (forall y :: y in ys ==> y in w.items)
    requires |xs| == |ys| && forall i :: 0 <= i < |xs| ==> Meaning(xs[i]) == Meaning(ys[i])
    ensures ItemsText(v, xs) == ItemsText(w, ys)
    decreases v, 0, |xs|
  {
    if xs != [] {
      assert xs[0] in v.items && ys[0] in w.items;
      SameMeaningSameText(xs[0], ys[0]);
      SameItems(v, xs[1..], w, ys[1..]);
    }
  }

  lemma {:induction false} SameEntries(v: Json, a: seq<Property>, w: Json, b: seq<Property>)
    requires v.Obj? && WellFormed(v) && w.Obj? && WellFormed(w)
    requires (forall e :: e in a ==> e in v.props) && (forall e :: e in b ==> e in w.props)
    requires |a| == |b|
    requires forall i :: 0 <= i < |a| ==> a[i].0 == b[i].0 && Meaning(a[i].1) == Meaning(b[i].1)
    ensures EntriesText(v, a) == EntriesText(w, b)
    decreases v, 0, |a|
  {
    if a != [] {
      assert a[0] in v.props && b[0] in w.props;
      SameMeaningSameText(a[0].1, b[0].1);
      SameEntries(v, a[1..], w, b[1..]);
    }
  }

  // ----- equal text, equal meaning ---------------------------------------------------

  /** What may follow a value inside a larger text. */
  predicate Delimited(r: string) {
    r == "" || r[0] == ',' || r[0] == ']' || r[0] == '}'
  }

  /** The kind of value a first character announces. */
  function Kind(c: char): nat {
    if c == 'n' then 0 else if c == 't' then 1 else if c == 'f' then 2
    else if c == '"' then 3 else if c == '[' then 4 else if c == '{' then 5
    else if IsDigit(c) || c == '-' then 6 else 7
  }

  function KindOf(v: Json): nat {
    match v
    case Undefined => 0
    case Null => 0
    case Bool(b) => if b then 1 else 2
    case Number(_) => 6
    case NonFinite => 0
    case Str(_) => 3
    case Arr(_) => 4
    case Obj(_) => 5
  }

  lemma FirstCharacter(v: Json)
    requires WellFormed(v)
    ensures var text := StableStringify(v); text != "" && Kind(text[0]) == KindOf(v)
  {
  }

  /** How many number characters a text begins with. */
  function Digits(text: string): (n: nat)
    ensures n <= |text|
  {
    if text == "" || !NumberCharacter(text[0]) then 0 else 1 + Digits(text[1..])
  }

  lemma {:induction false} DigitsOf(t: string, r: string)
    requires (forall i :: 0 <= i < |t| ==> NumberCharacter(t[i])) && Delimited(r)
    ensures Digits(t + r) == |t|
  {
    if t == "" {
      assert t + r == r;
    } else {
      assert (t + r)[1..] == t[1..] + r;
      DigitsOf(t[1..], r);
    }
  }

  lemma NumbersEnd(t: string, r: string, u: string, q: string)
    requires NumberText(t) && NumberText(u) && Delimited(r) && Delimited(q)
    requires t + r == u + q
    ensures t == u && r == q
  {
    DigitsOf(t, r);
    DigitsOf(u, q);
    CutPrefix(t, r, u, q);
  }

  /** A value's text, whatever follows it, tells the value and where it ends. */
  lemma {:induction false} TextIsUnambiguous(v: Json, r: string, w: Json, q: string)
    requires WellFormed(v) && WellFormed(w) && Delimited(r) && Delimited(q)
    requires StableStringify(v) + r == StableStringify(w) + q
    ensures Meaning(v) == Meaning(w) && r == q
    decreases v, 1, 0
  {
    FirstCharacter(v);
    FirstCharacter(w);
    assert (StableStringify(v) + r)[0] == StableStringify(v)[0];
    assert (StableStringify(w) + q)[0] == StableStringify(w)[0];
    assert KindOf(v) == KindOf(w);
    match v
    case Number(t) => NumbersEnd(t, r, w.text, q);
    case Str(s) => QuoteUnique(s, r, w.s, q);
    case Arr(items) =>
      Bracketed("[", ItemsText(v, items), "]", r);
      Bracketed("[", ItemsText(w, w.items), "]", q);
      CutPrefix("[", ItemsText(v, items) + ("]" + r), "[", ItemsText(w, w.items) + ("]" + q));
      ItemsAreUnambiguous(v, items, r, w, w.items, q);
    case Obj(_) =>
      var a, b := Printed(v), Printed(w);
      Bracketed("{", EntriesText(v, a), "}", r);
      Bracketed("{", EntriesText(w, b), "}", q);
      CutPrefix("{", EntriesText(v, a) + ("}" + r), "{", EntriesText(w, b) + ("}" + q));
      EntriesAreUnambiguous(v, a, r, w, b, q);
      SameMembers(v, w);
    case _ => CutPrefix(StableStringify(v), r, StableStringify(w), q);
  }

  lemma Bracketed(opening: string, inner: string, closing: string, r: string)
    ensures opening + inner + closing + r == opening + (inner + (closing + r))
  {
    Regroup(opening + inner, closing, r);
    Regroup(opening, inner, closing + r);
  }

  lemma SameMembers(v: Json, w: Json)
    requires v.Obj? && WellFormed(v) && w.Obj? && WellFormed(w)
    requires var a, b := Printed(v), Printed(w);
             |a| == |b| && forall i :: 0 <= i < |a| ==> a[i].0 == b[i].0 && Meaning(a[i].1) == Meaning(b[i].1)
    ensures Meaning(v) == Meaning(w)
  {
    var a, b := Printed(v), Printed(w);
    var m, n := Meaning(v).members, Meaning(w).members;
    forall key ensures key in m <==> key in n {
      MeaningHas(v, key);
      MeaningHas(w, key);
      if Has(a, key) { var i :| 0 <= i < |a| && a[i].0 == key; assert b[i] in b; }
      if Has(b, key) { var i :| 0 <= i < |b| && b[i].0 == key; assert a[i] in a; }
    }
    forall key | key in m ensures m[key] == n[key] {
      MeaningHas(v, key);
      var i :| 0 <= i < |a| && a[i].0 == key;
      MeaningAt(v, a[i]);
      MeaningAt(w, b[i]);
    }
    assert m == n;
  }

  /** What follows the first item of a list, up to and past its closing bracket. */
  function AfterItem(v: Json, xs: seq<Json>, r: string): string
    requires v.Arr? && xs != [] && forall x :: x in xs ==> x in v.items
  {
    if |xs| == 1 then "]" + r else "," + (ItemsText(v, xs[1..]) + ("]" + r))
  }

  lemma ItemsSplit(v: Json, xs: seq<Json>, r: string)
    requires v.Arr? && xs != [] && forall x :: x in xs ==> x in v.items
    ensures ItemsText(v, xs) + ("]" + r) == StableStringify(xs[0]) + AfterItem(v, xs, r)
  {
    var first := StableStringify(xs[0]);
    if |xs| == 1 {
      assert first + "" == first;
    } else {
      Regroup(first, "," + ItemsText(v, xs[1..]), "]" + r);
      Regroup(",", ItemsText(v, xs[1..]), "]" + r);
    }
  }

  lemma {:induction false} ItemsAreUnambiguous(v: Json, xs: seq<Json>, r: string, w: Json, ys: seq<Json>, q: string)
    requires v.Arr? && WellFormed(v) && w.Arr? && WellFormed(w)
    requires (forall x :: x in xs ==> x in v.items) && (forall y :: y in ys ==> y in w.items)
    requires ItemsText(v, xs) + ("]" + r) == ItemsText(w, ys) + ("]" + q)
    ensures r == q && |xs| == |ys| && forall i :: 0 <= i < |xs| ==> Meaning(xs[i]) == Meaning(ys[i])
    decreases v, 0, |xs|
  {
    if xs == [] || ys == [] {
      ItemsBegin(v, xs, r);
      ItemsBegin(w, ys, q);
      CutPrefix("]", r, "]", q);
    } else {
      ItemsSplit(v, xs, r);
      ItemsSplit(w, ys, q);
      assert xs[0] in v.items && ys[0] in w.items;
      TextIsUnambiguous(xs[0], AfterItem(v, xs, r), ys[0], AfterItem(w, ys, q));
      var t, u := AfterItem(v, xs, r), AfterItem(w, ys, q);
      assert t[0] == u[0];
      if |xs| == 1 {
        CutPrefix("]", r, "]", q);
      } else {
        CutPrefix(",", ItemsText(v, xs[1..]) + ("]" + r), ",", ItemsText(w, ys[1..]) + ("]" + q));
        ItemsAreUnambiguous(v, xs[1..], r, w, ys[1..], q);
      }
    }
  }

  lemma ItemsBegin(v: Json, xs: seq<Json>, r: string)
    requires v.Arr? && WellFormed(v) && forall x :: x in xs ==> x in v.items
    ensures var text := ItemsText(v, xs) + ("]" + r); text != "" && (text[0] == ']' <==> xs == [])
    ensures xs == [] ==> ItemsText(v, xs) + ("]" + r) == "]" + r
  {
    if xs != [] {
      ItemsSplit(v, xs, r);
      assert xs[0] in v.items;
      FirstCharacter(xs[0]);
    }
  }

  function AfterEntry(v: Json, a: seq<Property>, r: string): string
    requires v.Obj? && a != [] && forall e :: e in a ==> e in v.props
  {
    if |a| == 1 then "}" + r else "," + (EntriesText(v, a[1..]) + ("}" + r))
  }

  lemma EntriesSplit(v: Json, a: seq<Property>, r: string)
    requires v.Obj? && a != [] && forall e :: e in a ==> e in v.props
    ensures EntriesText(v, a) + ("}" + r) == Quote(a[0].0) + (":" + (StableStringify(a[0].1) + AfterEntry(v, a, r)))
  {
    var key, value := Quote(a[0].0), StableStringify(a[0].1);
    var entry := EntryText(v, a[0]);
    if |a| == 1 {
      assert entry + "" == entry;
    } else {
      Regroup(entry, "," + EntriesText(v, a[1..]), "}" + r);
      Regroup(",", EntriesText(v, a[1..]), "}" + r);
    }
    var after := AfterEntry(v, a, r);
    Regroup(key + ":", value, after);
    Regroup(key, ":", value + after);
  }

  lemma {:induction false} EntriesAreUnambiguous(v: Json, a: seq<Property>, r: string,
      w: Json, b: seq<Property>, q: string)
    requires v.Obj? && WellFormed(v) && w.Obj? && WellFormed(w)
    requires (forall e :: e in a ==> e in v.props) && (forall e :: e in b ==> e in w.props)
    requires EntriesText(v, a) + ("}" + r) == EntriesText(w, b) + ("}" + q)
    ensures r == q && |a| == |b|
    ensures forall i :: 0 <= i < |a| ==> a[i].0 == b[i].0 && Meaning(a[i].1) == Meaning(b[i].1)
    decreases v, 0, |a|
  {
    if a == [] || b == [] {
      EntriesBegin(v, a, r);
      EntriesBegin(w, b, q);
      CutPrefix("}", r, "}", q);
    } else {
      EntriesSplit(v, a, r);
      EntriesSplit(w, b, q);
      var t, u := AfterEntry(v, a, r), AfterEntry(w, b, q);
      QuoteUnique(a[0].0, ":" + (StableStringify(a[0].1) + t), b[0].0, ":" + (StableStringify(b[0].1) + u));
      CutPrefix(":", StableStringify(a[0].1) + t, ":", StableStringify(b[0].1) + u);
      assert a[0] in v.props && b[0] in w.props;
      TextIsUnambiguous(a[0].1, t, b[0].1, u);
      assert t[0] == u[0];
      if |a| == 1 {
        CutPrefix("}", r, "}", q);
      } else {
        CutPrefix(",", EntriesText(v, a[1..]) + ("}" + r), ",", EntriesText(w, b[1..]) + ("}" + q));
        EntriesAreUnambiguous(v, a[1..], r, w, b[1..], q);
      }
    }
  }

  lemma EntriesBegin(v: Json, a: seq<Property>, r: string)
    requires v.Obj? && forall e :: e in a ==> e in v.props
    ensures var text := EntriesText(v, a) + ("}" + r); text != "" && (text[0] == '}' <==> a == [])
    ensures a == [] ==> EntriesText(v, a) + ("}" + r) == "}" + r
  {
    if a != [] { EntriesSplit(v, a, r); }
  }

  // ----- the canonical form ----------------------------------------------------------

  /** Two values print alike exactly when they are equal up to property order at every depth. */
  lemma StableStringifyIsCanonical(v: Json, w: Json)
    requires WellFormed(v) && WellFormed(w)
    ensures StableStringify(v) == StableStringify(w) <==> Meaning(v) == Meaning(w)
  {
    if Meaning(v) == Meaning(w) { SameMeaningSameText(v, w); }
    if StableStringify(v) == StableStringify(w) {
      assert StableStringify(v) + "" == StableStringify(w) + "";
      TextIsUnambiguous(v, "", w, "");
    }
  }
}
