/** The canonical printer `stableStringify`, on JSON values as `JSON.parse` produces them. */
module CanonicalJson {
  import opened Prelude
  import opened JsonStrings

  /** A finite number stands as the text ECMAScript prints it as; a literal too large for one is parsed as an
      infinity, which prints as null. Object members are in the order the object was built in. */
  datatype Json =
    | Null
    | Bool(value: bool)
    | Number(printed: Text)
    | NonFinite
    | Str(text: Text)
    | Arr(items: seq<Json>)
    | Obj(members: seq<Member>)

  datatype Member = Member(key: Text, value: Json)

  predicate NumberUnit(u: Unit) {
    0x30 <= u <= 0x39 || u in {0x2B, 0x2D, 0x2E, 0x45, 0x65}
  }

  predicate Numeric(t: Text) {
    t != [] && (0x30 <= t[0] <= 0x39 || t[0] == 0x2D) && forall i :: 0 <= i < |t| ==> NumberUnit(t[i])
  }

  predicate DistinctKeys(ms: seq<Member>) {
    forall i, j :: 0 <= i < j < |ms| ==> ms[i].key != ms[j].key
  }

  /** Numbers print as numbers, and an object has each key once. */
  ghost predicate WellFormed(v: Json) {
    match v
    case Number(printed) => Numeric(printed)
    case Arr(items) => forall i :: 0 <= i < |items| ==> WellFormed(items[i])
    case Obj(members) => DistinctKeys(members) && forall i :: 0 <= i < |members| ==> WellFormed(members[i].value)
    case _ => true
  }

  function Size(v: Json): nat {
    match v
    case Arr(items) => 1 + ItemSizes(items)
    case Obj(members) => 1 + MemberSizes(members)
    case _ => 1
  }

  function ItemSizes(items: seq<Json>): nat {
    if items == [] then 0 else ItemSizes(items[..|items| - 1]) + 1 + Size(items[|items| - 1])
  }

  function MemberSizes(ms: seq<Member>): nat {
    if ms == [] then 0 else MemberSizes(ms[..|ms| - 1]) + 1 + Size(ms[|ms| - 1].value)
  }

  // Sorting keys by code units.

  predicate Less(a: Text, b: Text) {
    if b == [] then false
    else if a == [] then true
    else if a[0] == b[0] then Less(a[1..], b[1..])
    else a[0] < b[0]
  }

  function Insert(ms: seq<Member>, m: Member): (r: seq<Member>)
    ensures MemberSizes(r) == MemberSizes(ms) + 1 + Size(m.value)
    ensures |r| == |ms| + 1 && forall x :: x in r <==> x in ms || x == m
  {
    if ms == [] || !Less(m.key, ms[|ms| - 1].key) then
      assert (ms + [m])[..|ms|] == ms;
      ms + [m]
    else
      var init, last := ms[..|ms| - 1], ms[|ms| - 1];
      assert (Insert(init, m) + [last])[..|Insert(init, m)|] == Insert(init, m);
      assert ms == init + [last];
      Insert(init, m) + [last]
  }

  function SortMembers(ms: seq<Member>): (r: seq<Member>)
    ensures MemberSizes(r) == MemberSizes(ms)
    ensures |r| == |ms| && forall x :: x in r <==> x in ms
  {
    if ms == [] then []
    else
      assert ms == ms[..|ms| - 1] + [ms[|ms| - 1]];
      Insert(SortMembers(ms[..|ms| - 1]), ms[|ms| - 1])
  }

  // Printing.

  const COMMA: Unit := 0x2C
  const COLON: Unit := 0x3A

  lemma {:induction false} ItemSizesSplit(items: seq<Json>)
    requires items != []
    ensures ItemSizes(items) == 1 + Size(items[0]) + ItemSizes(items[1..])
  {
    if |items| > 1 {
      ItemSizesSplit(items[..|items| - 1]);
      assert items[1..][..|items| - 2] == items[..|items| - 1][1..];
    }
  }

  lemma {:induction false} MemberSizesSplit(ms: seq<Member>)
    requires ms != []
    ensures MemberSizes(ms) == 1 + Size(ms[0].value) + MemberSizes(ms[1..])
  {
    if |ms| > 1 {
      MemberSizesSplit(ms[..|ms| - 1]);
      assert ms[1..][..|ms| - 2] == ms[..|ms| - 1][1..];
    }
  }

  function Print(v: Json): Text
    decreases Size(v)
  {
    match v
    case Null => [0x6E, 0x75, 0x6C, 0x6C]
    case Bool(b) => if b then [0x74, 0x72, 0x75, 0x65] else [0x66, 0x61, 0x6C, 0x73, 0x65]
    case Number(printed) => printed
    case NonFinite => [0x6E, 0x75, 0x6C, 0x6C]
    case Str(text) => Literal(text)
    case Arr(items) => [0x5B] + PrintItems(items) + [0x5D]
    case Obj(members) => [0x7B] + PrintMembers(SortMembers(members)) + [0x7D]
  }

  /** The printed items, joined by commas. */
  function PrintItems(items: seq<Json>): Text
    decreases ItemSizes(items)
  {
    if items == [] then []
    else
      ItemSizesSplit(items);
      Print(items[0]) + if |items| == 1 then [] else [COMMA] + PrintItems(items[1..])
  }

  function PrintMembers(ms: seq<Member>): Text
    decreases MemberSizes(ms)
  {
    if ms == [] then []
    else
      MemberSizesSplit(ms);
      Literal(ms[0].key) + ([COLON] + Print(ms[0].value)) + if |ms| == 1 then [] else [COMMA] + PrintMembers(ms[1..])
  }


  // Equality up to the order of keys.

  /** The same value but for the order of object members, an infinity counting as null. */
  ghost predicate Same(v: Json, w: Json) {
    match v
    case Null => w.Null? || w.NonFinite?
    case NonFinite => w.Null? || w.NonFinite?
    case Arr(items) =>
      w.Arr? && |items| == |w.items| && forall i :: 0 <= i < |items| ==> Same(items[i], w.items[i])
    case Obj(ms) =>
      && w.Obj?
      && (forall i :: 0 <= i < |ms| ==>
            Lookup(w.members, ms[i].key).Some? && Same(ms[i].value, Lookup(w.members, ms[i].key).value))
      && (forall j :: 0 <= j < |w.members| ==> Lookup(ms, w.members[j].key).Some?)
    case _ => v == w
  }

  /** The value of a key. */
  function Lookup(ms: seq<Member>, key: Text): Option<Json> {
    if ms == [] then None
    else if ms[|ms| - 1].key == key then Some(ms[|ms| - 1].value)
    else Lookup(ms[..|ms| - 1], key)
  }

  ghost predicate SameMember(m: Member, n: Member) {
    m.key == n.key && Same(m.value, n.value)
  }

  lemma {:induction false} LookupFinds(ms: seq<Member>, key: Text)
    ensures Lookup(ms, key).Some? ==> Member(key, Lookup(ms, key).value) in ms
    ensures Lookup(ms, key).None? ==> forall m :: m in ms ==> m.key != key
  {
    if ms != [] {
      LookupFinds(ms[..|ms| - 1], key);
      assert ms == ms[..|ms| - 1] + [ms[|ms| - 1]];
    }
  }

  lemma {:induction false} LookupIsExact(ms: seq<Member>, i: nat)
    requires DistinctKeys(ms) && i < |ms|
    ensures Lookup(ms, ms[i].key) == Some(ms[i].value)
  {
    if i < |ms| - 1 {
      LookupIsExact(ms[..|ms| - 1], i);
    }
  }

  // The order of keys is a strict total order.

  lemma {:induction false} LessIsStrict(a: Text, b: Text)
    ensures !(Less(a, b) && Less(b, a))
    ensures a == b <==> !Less(a, b) && !Less(b, a)
  {
    if a != [] && b != [] && a[0] == b[0] {
      LessIsStrict(a[1..], b[1..]);
      assert a == [a[0]] + a[1..] && b == [b[0]] + b[1..];
    }
  }

  lemma {:induction false} LessIsTransitive(a: Text, b: Text, c: Text)
    requires Less(a, b) && Less(b, c)
    ensures Less(a, c)
  {
    if a != [] && b != [] && c != [] && a[0] == b[0] == c[0] {
      LessIsTransitive(a[1..], b[1..], c[1..]);
    }
  }

  ghost predicate Ascending(ms: seq<Member>) {
    forall i, j :: 0 <= i < j < |ms| ==> Less(ms[i].key, ms[j].key)
  }

  lemma {:induction false} InsertAscends(ms: seq<Member>, m: Member)
    requires Ascending(ms) && forall n :: n in ms ==> n.key != m.key
    ensures Ascending(Insert(ms, m))
  {
    if ms != [] {
      var init, last := ms[..|ms| - 1], ms[|ms| - 1];
      assert last in ms;
      LessIsStrict(m.key, last.key);
      if Less(m.key, last.key) {
        InsertAscends(init, m);
        forall n | n in Insert(init, m) ensures Less(n.key, last.key) {
          if n in init {
            var i :| 0 <= i < |init| && init[i] == n;
            assert Less(ms[i].key, ms[|ms| - 1].key);
          }
        }
      } else {
        forall i | 0 <= i < |ms| ensures Less(ms[i].key, m.key) {
          if i < |ms| - 1 {
            LessIsTransitive(ms[i].key, last.key, m.key);
          }
        }
      }
    }
  }

  lemma {:induction false} SortAscends(ms: seq<Member>)
    requires DistinctKeys(ms)
    ensures Ascending(SortMembers(ms))
  {
    if ms != [] {
      SortAscends(ms[..|ms| - 1]);
      InsertAscends(SortMembers(ms[..|ms| - 1]), ms[|ms| - 1]);
    }
  }

  // Equal values print alike.

  ghost predicate AscendingKeys(ks: seq<Text>) {
    forall i, j :: 0 <= i < j < |ks| ==> Less(ks[i], ks[j])
  }

  function Keys(ms: seq<Member>): (r: seq<Text>)
    ensures |r| == |ms| && forall i :: 0 <= i < |ms| ==> r[i] == ms[i].key
  {
    seq(|ms|, i requires 0 <= i < |ms| => ms[i].key)
  }

  lemma LastIsGreatest(ks: seq<Text>, k: Text)
    requires AscendingKeys(ks) && k in ks
    ensures !Less(ks[|ks| - 1], k)
  {
    LessIsStrict(ks[|ks| - 1], k);
  }

  lemma AscendingFront(ks: seq<Text>)
    requires AscendingKeys(ks) && ks != []
    ensures AscendingKeys(ks[..|ks| - 1])
    ensures forall k :: k in ks[..|ks| - 1] <==> k in ks && k != ks[|ks| - 1]
  {
    forall i | 0 <= i < |ks| - 1 ensures ks[i] != ks[|ks| - 1] {
      LessIsStrict(ks[i], ks[|ks| - 1]);
    }
    assert ks == ks[..|ks| - 1] + [ks[|ks| - 1]];
  }

  lemma EmptyTogether(ks: seq<Text>, ls: seq<Text>)
    requires forall k :: k in ks <==> k in ls
    ensures ks == [] <==> ls == []
  {
    if ks != [] {
      assert ks[0] in ks;
    }
    if ls != [] {
      assert ls[0] in ls;
    }
  }

  lemma {:induction false} AscendingUnique(ks: seq<Text>, ls: seq<Text>)
    requires AscendingKeys(ks) && AscendingKeys(ls) && forall k :: k in ks <==> k in ls
    ensures ks == ls
  {
    EmptyTogether(ks, ls);
    if ks != [] {
      var k, l := ks[|ks| - 1], ls[|ls| - 1];
      assert k in ls && l in ks;
      LastIsGreatest(ks, l);
      LastIsGreatest(ls, k);
      LessIsStrict(k, l);
      AscendingFront(ks);
      AscendingFront(ls);
      assert k == l;
      var ks', ls' := ks[..|ks| - 1], ls[..|ls| - 1];
      forall m ensures m in ks' <==> m in ls' {
        assert m in ks <==> m in ls;
      }
      AscendingUnique(ks', ls');
      assert ks == ks[..|ks| - 1] + [k] && ls == ls[..|ls| - 1] + [l];
    }
  }

  lemma KeysSorted(ms: seq<Member>, k: Text)
    requires DistinctKeys(ms)
    ensures AscendingKeys(Keys(SortMembers(ms)))
    ensures k in Keys(SortMembers(ms)) <==> Lookup(ms, k).Some?
  {
    SortAscends(ms);
    LookupFinds(ms, k);
    var sorted := SortMembers(ms);
    if k in Keys(sorted) {
      var i :| 0 <= i < |sorted| && sorted[i].key == k;
      assert sorted[i] in ms;
    }
    if Lookup(ms, k).Some? {
      assert Member(k, Lookup(ms, k).value) in sorted;
      var i :| 0 <= i < |sorted| && sorted[i] == Member(k, Lookup(ms, k).value);
      assert Keys(sorted)[i] == k;
    }
  }

  lemma SortedValue(ms: seq<Member>, i: nat)
    requires DistinctKeys(ms) && i < |ms|
    ensures Lookup(ms, SortMembers(ms)[i].key) == Some(SortMembers(ms)[i].value)
  {
    var m := SortMembers(ms)[i];
    assert m in ms;
    var k :| 0 <= k < |ms| && ms[k] == m;
    LookupIsExact(ms, k);
  }

  lemma SameKeys(v: Json, w: Json, k: Text)
    requires v.Obj? && w.Obj? && Same(v, w)
    ensures Lookup(v.members, k).Some? <==> Lookup(w.members, k).Some?
  {
    LookupFinds(v.members, k);
    LookupFinds(w.members, k);
    if Lookup(v.members, k).Some? {
      var i :| 0 <= i < |v.members| && v.members[i] == Member(k, Lookup(v.members, k).value);
    }
    if Lookup(w.members, k).Some? {
      var j :| 0 <= j < |w.members| && w.members[j] == Member(k, Lookup(w.members, k).value);
    }
  }

  lemma SameValue(v: Json, w: Json, k: Text)
    requires v.Obj? && w.Obj? && Same(v, w) && Lookup(v.members, k).Some? && DistinctKeys(v.members)
    ensures Lookup(w.members, k).Some? && Same(Lookup(v.members, k).value, Lookup(w.members, k).value)
  {
    LookupFinds(v.members, k);
    var i :| 0 <= i < |v.members| && v.members[i] == Member(k, Lookup(v.members, k).value);
  }

  /** Objects that are the same agree member by member once sorted. */
  lemma SortedAgree(v: Json, w: Json)
    requires v.Obj? && w.Obj? && Same(v, w) && DistinctKeys(v.members) && DistinctKeys(w.members)
    ensures var a, b := SortMembers(v.members), SortMembers(w.members);
            |a| == |b| && forall i :: 0 <= i < |a| ==> SameMember(a[i], b[i])
  {
    var a, b := SortMembers(v.members), SortMembers(w.members);
    forall k ensures k in Keys(a) <==> k in Keys(b) {
      KeysSorted(v.members, k);
      KeysSorted(w.members, k);
      SameKeys(v, w, k);
    }
    KeysSorted(v.members, []);
    KeysSorted(w.members, []);
    AscendingUnique(Keys(a), Keys(b));
    forall i | 0 <= i < |a| ensures SameMember(a[i], b[i]) {
      assert a[i].key == Keys(a)[i] == Keys(b)[i] == b[i].key;
      SortedValue(v.members, i);
      SortedValue(w.members, i);
      SameValue(v, w, a[i].key);
    }
  }

  lemma SortedWellFormed(v: Json)
    requires v.Obj? && WellFormed(v)
    ensures forall i :: 0 <= i < |v.members| ==> WellFormed(SortMembers(v.members)[i].value)
    ensures Ascending(SortMembers(v.members))
  {
    SortAscends(v.members);
    var a := SortMembers(v.members);
    forall i | 0 <= i < |a| ensures WellFormed(a[i].value) {
      assert a[i] in v.members;
      var k :| 0 <= k < |v.members| && v.members[k] == a[i];
    }
  }

  lemma {:induction false} SamePrintAlike(v: Json, w: Json)
    requires WellFormed(v) && WellFormed(w) && Same(v, w)
    ensures Print(v) == Print(w)
    decreases Size(v), 0
  {
    match v {
      case Arr(items) =>
        ItemsPrintAlike(items, w.items);
      case Obj(members) =>
        SortedWellFormed(v);
        SortedWellFormed(w);
        SortedAgree(v, w);
        MembersPrintAlike(SortMembers(members), SortMembers(w.members));
      case _ =>
    }
  }

  lemma {:induction false} ItemsPrintAlike(a: seq<Json>, b: seq<Json>)
    requires |a| == |b| && forall i :: 0 <= i < |a| ==> WellFormed(a[i]) && WellFormed(b[i]) && Same(a[i], b[i])
    ensures PrintItems(a) == PrintItems(b)
    decreases ItemSizes(a), 1
  {
    if a != [] {
      ItemSizesSplit(a);
      SamePrintAlike(a[0], b[0]);
      ItemsPrintAlike(a[1..], b[1..]);
    }
  }

  lemma {:induction false} MembersPrintAlike(a: seq<Member>, b: seq<Member>)
    requires |a| == |b|
    requires forall i :: 0 <= i < |a| ==> WellFormed(a[i].value) && WellFormed(b[i].value) && SameMember(a[i], b[i])
    ensures PrintMembers(a) == PrintMembers(b)
    decreases MemberSizes(a), 1
  {
    if a != [] {
      MemberSizesSplit(a);
      assert SameMember(a[0], b[0]);
      SamePrintAlike(a[0].value, b[0].value);
      MembersPrintAlike(a[1..], b[1..]);
    }
  }

  // Values that print alike are equal.

  /** What may follow a printed value. */
  predicate Ends(x: Text) {
    x == [] || x[0] == COMMA || x[0] == 0x5D || x[0] == 0x7D
  }

  lemma NoNumberFirst(rest: Text, x: Text, y: Text)
    requires x == rest + y && Ends(x) && forall i :: 0 <= i < |rest| ==> NumberUnit(rest[i])
    ensures rest == []
  {
  }

  lemma NotShorter(a: Text, b: Text, x: Text, y: Text)
    requires Numeric(b) && Ends(x) && a + x == b + y
    ensures |b| <= |a|
  {
    var rest := if |a| <= |b| then b[|a|..] else [];
    var tail := (b + y)[|a| + |rest|..];
    assert x == (a + x)[|a|..] == rest + tail;
    NoNumberFirst(rest, x, tail);
  }

  lemma NumberEnds(a: Text, b: Text, x: Text, y: Text)
    requires Numeric(a) && Numeric(b) && Ends(x) && Ends(y) && a + x == b + y
    ensures a == b && x == y
  {
    NotShorter(a, b, x, y);
    NotShorter(b, a, y, x);
    assert a == (a + x)[..|a|] && b == (b + y)[..|b|];
    assert x == (a + x)[|a|..] && y == (b + y)[|b|..];
  }

  /** The kind of a value shows in the first unit of its text. */
  function Kind(v: Json): int {
    match v
    case Null => 0
    case NonFinite => 0
    case Bool(b) => if b then 1 else 2
    case Number(_) => 3
    case Str(_) => 4
    case Arr(_) => 5
    case Obj(_) => 6
  }

  function KindOf(u: Unit): int {
    if u == 0x6E then 0 else if u == 0x74 then 1 else if u == 0x66 then 2 else if 0x30 <= u <= 0x39 || u == 0x2D then 3
    else if u == QUOTE then 4 else if u == 0x5B then 5 else if u == 0x7B then 6 else 7
  }

  lemma HeadShowsKind(v: Json)
    requires WellFormed(v)
    ensures Print(v) != [] && KindOf(Print(v)[0]) == Kind(v) < 7
  {
  }

  lemma KindsAgree(v: Json, w: Json, x: Text, y: Text)
    requires WellFormed(v) && WellFormed(w) && Print(v) + x == Print(w) + y
    ensures Kind(v) == Kind(w)
  {
    HeadShowsKind(v);
    HeadShowsKind(w);
    assert (Print(v) + x)[0] == Print(v)[0] && (Print(w) + y)[0] == Print(w)[0];
  }

  lemma StripFront(a: Text, x: Text, y: Text)
    requires a + x == a + y
    ensures x == y
  {
    assert x == (a + x)[|a|..] && y == (a + y)[|a|..];
  }

  /** What follows the first item of a list: a comma and the rest, or the closing bracket. */
  function ItemsAfter(items: seq<Json>, x: Text): Text
    requires items != []
  {
    if |items| == 1 then [0x5D] + x else [COMMA] + (PrintItems(items[1..]) + ([0x5D] + x))
  }

  function MembersAfter(ms: seq<Member>, x: Text): Text
    requires ms != []
  {
    if |ms| == 1 then [0x7D] + x else [COMMA] + (PrintMembers(ms[1..]) + ([0x7D] + x))
  }

  lemma ItemsOpen(items: seq<Json>, x: Text)
    requires items != []
    ensures PrintItems(items) + ([0x5D] + x) == Print(items[0]) + ItemsAfter(items, x)
  {
    if |items| == 1 {
      assert PrintItems(items) == Print(items[0]);
    }
  }

  lemma Regroup(l: Text, c: Text, p: Text, r: Text, t: Text)
    ensures ((l + (c + p)) + r) + t == l + (c + (p + (r + t)))
  {
  }

  lemma MembersOpen(ms: seq<Member>, x: Text)
    requires ms != []
    ensures PrintMembers(ms) + ([0x7D] + x) == Literal(ms[0].key) + ([COLON] + (Print(ms[0].value) + MembersAfter(ms, x)))
  {
    var rest := if |ms| == 1 then [] else [COMMA] + PrintMembers(ms[1..]);
    var closing := [0x7D] + x;
    assert rest + closing == MembersAfter(ms, x);
    Regroup(Literal(ms[0].key), [COLON], Print(ms[0].value), rest, closing);
  }

  /** Decoding: a printed value, and what follows it, are determined by the text. */
  lemma {:induction false} PrintDetermines(v: Json, w: Json, x: Text, y: Text)
    requires WellFormed(v) && WellFormed(w) && Ends(x) && Ends(y) && Print(v) + x == Print(w) + y
    ensures Same(v, w) && x == y
    decreases Size(v), 0
  {
    KindsAgree(v, w, x, y);
    match v {
      case Number(printed) =>
        NumberEnds(printed, w.printed, x, y);
      case Str(text) =>
        LiteralInjective(text, w.text, x, y);
      case Arr(items) =>
        ArraysDetermine(v, w, x, y);
      case Obj(members) =>
        ObjectsDetermine(v, w, x, y);
      case _ =>
        assert Print(v) == Print(w);
        StripFront(Print(v), x, y);
    }
  }

  lemma Bracketed(front: Unit, a: Text, back: Unit, x: Text)
    ensures [front] + a + [back] + x == [front] + (a + ([back] + x))
  {
  }

  lemma {:induction false} ArraysDetermine(v: Json, w: Json, x: Text, y: Text)
    requires v.Arr? && w.Arr? && WellFormed(v) && WellFormed(w) && Print(v) + x == Print(w) + y
    ensures Same(v, w) && x == y
    decreases ItemSizes(v.items), 2
  {
    Bracketed(0x5B, PrintItems(v.items), 0x5D, x);
    Bracketed(0x5B, PrintItems(w.items), 0x5D, y);
    StripFront([0x5B], PrintItems(v.items) + ([0x5D] + x), PrintItems(w.items) + ([0x5D] + y));
    ItemsDetermine(v.items, w.items, x, y);
  }

  lemma ItemsHead(items: seq<Json>, tail: Text)
    requires items != [] && WellFormed(items[0])
    ensures PrintItems(items) != [] && KindOf((PrintItems(items) + tail)[0]) < 7
  {
    HeadShowsKind(items[0]);
  }

  lemma EmptyItems(items: seq<Json>, x: Text, y: Text)
    requires items != [] ==> WellFormed(items[0])
    requires [0x5D] + x == PrintItems(items) + ([0x5D] + y)
    ensures items == [] && x == y
  {
    if items != [] {
      ItemsHead(items, [0x5D] + y);
    } else {
      assert PrintItems(items) + ([0x5D] + y) == [0x5D] + y;
      StripFront([0x5D], x, y);
    }
  }

  lemma ItemsGlue(a: seq<Json>, b: seq<Json>)
    requires |a| == |b| > 0 && Same(a[0], b[0]) && forall i :: 0 <= i < |a| - 1 ==> Same(a[1..][i], b[1..][i])
    ensures forall i :: 0 <= i < |a| ==> Same(a[i], b[i])
  {
    forall i | 0 < i < |a| ensures Same(a[i], b[i]) {
      assert a[i] == a[1..][i - 1] && b[i] == b[1..][i - 1];
    }
  }

  lemma MembersGlue(a: seq<Member>, b: seq<Member>)
    requires |a| == |b| > 0 && SameMember(a[0], b[0]) && forall i :: 0 <= i < |a| - 1 ==> SameMember(a[1..][i], b[1..][i])
    ensures forall i :: 0 <= i < |a| ==> SameMember(a[i], b[i])
  {
    forall i | 0 < i < |a| ensures SameMember(a[i], b[i]) {
      assert a[i] == a[1..][i - 1] && b[i] == b[1..][i - 1];
    }
  }

  lemma {:induction false} ItemsDetermine(a: seq<Json>, b: seq<Json>, x: Text, y: Text)
    requires forall i :: 0 <= i < |a| ==> WellFormed(a[i])
    requires forall i :: 0 <= i < |b| ==> WellFormed(b[i])
    requires PrintItems(a) + ([0x5D] + x) == PrintItems(b) + ([0x5D] + y)
    ensures |a| == |b| && x == y && forall i :: 0 <= i < |a| ==> Same(a[i], b[i])
    decreases ItemSizes(a), 1
  {
    if a == [] {
      assert PrintItems(a) + ([0x5D] + x) == [0x5D] + x;
      EmptyItems(b, x, y);
    } else if b == [] {
      assert PrintItems(b) + ([0x5D] + y) == [0x5D] + y;
      EmptyItems(a, y, x);
    } else {
      ItemsOpen(a, x);
      ItemsOpen(b, y);
      ItemSizesSplit(a);
      PrintDetermines(a[0], b[0], ItemsAfter(a, x), ItemsAfter(b, y));
      ItemsAfterAgree(a, b, x, y);
      if |a| > 1 {
        ItemsDetermine(a[1..], b[1..], x, y);
      }
      ItemsGlue(a, b);
    }
  }

  /** Both lists go on, or both end. */
  lemma ItemsAfterAgree(a: seq<Json>, b: seq<Json>, x: Text, y: Text)
    requires a != [] && b != [] && ItemsAfter(a, x) == ItemsAfter(b, y)
    ensures |a| == 1 <==> |b| == 1
    ensures |a| == 1 ==> x == y
    ensures |a| > 1 ==> PrintItems(a[1..]) + ([0x5D] + x) == PrintItems(b[1..]) + ([0x5D] + y)
  {
    assert ItemsAfter(a, x)[0] == ItemsAfter(b, y)[0];
    assert ItemsAfter(a, x)[1..] == ItemsAfter(b, y)[1..];
  }

  lemma MembersAfterAgree(a: seq<Member>, b: seq<Member>, x: Text, y: Text)
    requires a != [] && b != [] && MembersAfter(a, x) == MembersAfter(b, y)
    ensures |a| == 1 <==> |b| == 1
    ensures |a| == 1 ==> x == y
    ensures |a| > 1 ==> PrintMembers(a[1..]) + ([0x7D] + x) == PrintMembers(b[1..]) + ([0x7D] + y)
  {
    assert MembersAfter(a, x)[0] == MembersAfter(b, y)[0];
    assert MembersAfter(a, x)[1..] == MembersAfter(b, y)[1..];
  }

  lemma FirstKeysAgree(a: seq<Member>, b: seq<Member>, x: Text, y: Text)
    requires a != [] && b != [] && PrintMembers(a) + ([0x7D] + x) == PrintMembers(b) + ([0x7D] + y)
    ensures a[0].key == b[0].key
    ensures Print(a[0].value) + MembersAfter(a, x) == Print(b[0].value) + MembersAfter(b, y)
  {
    MembersOpen(a, x);
    MembersOpen(b, y);
    var va, vb := Print(a[0].value) + MembersAfter(a, x), Print(b[0].value) + MembersAfter(b, y);
    LiteralInjective(a[0].key, b[0].key, [COLON] + va, [COLON] + vb);
    StripFront([COLON], va, vb);
  }

  lemma MembersHead(ms: seq<Member>, x: Text)
    requires ms != []
    ensures (PrintMembers(ms) + ([0x7D] + x))[0] == QUOTE
  {
    MembersOpen(ms, x);
    assert Literal(ms[0].key)[0] == QUOTE;
  }

  lemma EmptyMembers(ms: seq<Member>, x: Text, y: Text)
    requires [0x7D] + x == PrintMembers(ms) + ([0x7D] + y)
    ensures ms == [] && x == y
  {
    if ms != [] {
      MembersHead(ms, y);
    } else {
      assert PrintMembers(ms) + ([0x7D] + y) == [0x7D] + y;
      StripFront([0x7D], x, y);
    }
  }

  lemma {:induction false} MembersDetermine(a: seq<Member>, b: seq<Member>, x: Text, y: Text)
    requires forall i :: 0 <= i < |a| ==> WellFormed(a[i].value)
    requires forall i :: 0 <= i < |b| ==> WellFormed(b[i].value)
    requires PrintMembers(a) + ([0x7D] + x) == PrintMembers(b) + ([0x7D] + y)
    ensures |a| == |b| && x == y && forall i :: 0 <= i < |a| ==> SameMember(a[i], b[i])
    decreases MemberSizes(a), 1
  {
    if a == [] {
      assert PrintMembers(a) + ([0x7D] + x) == [0x7D] + x;
      EmptyMembers(b, x, y);
    } else if b == [] {
      assert PrintMembers(b) + ([0x7D] + y) == [0x7D] + y;
      EmptyMembers(a, y, x);
    } else {
      FirstKeysAgree(a, b, x, y);
      MemberSizesSplit(a);
      PrintDetermines(a[0].value, b[0].value, MembersAfter(a, x), MembersAfter(b, y));
      MembersAfterAgree(a, b, x, y);
      if |a| > 1 {
        MembersDetermine(a[1..], b[1..], x, y);
      }
      MembersGlue(a, b);
    }
  }

  lemma {:induction false} ObjectsDetermine(v: Json, w: Json, x: Text, y: Text)
    requires v.Obj? && w.Obj? && WellFormed(v) && WellFormed(w) && Print(v) + x == Print(w) + y
    ensures Same(v, w) && x == y
    decreases MemberSizes(v.members), 2
  {
    var a, b := SortMembers(v.members), SortMembers(w.members);
    Bracketed(0x7B, PrintMembers(a), 0x7D, x);
    Bracketed(0x7B, PrintMembers(b), 0x7D, y);
    StripFront([0x7B], PrintMembers(a) + ([0x7D] + x), PrintMembers(b) + ([0x7D] + y));
    SortedWellFormed(v);
    SortedWellFormed(w);
    MembersDetermine(a, b, x, y);
    AgreeingObjects(v, w);
  }

  ghost predicate SortedAlike(ms: seq<Member>, ns: seq<Member>) {
    && |SortMembers(ms)| == |SortMembers(ns)|
    && forall i :: 0 <= i < |ms| ==> SameMember(SortMembers(ms)[i], SortMembers(ns)[i])
  }

  lemma PlaceInSorted(ms: seq<Member>, i: nat) returns (k: nat)
    requires i < |ms|
    ensures k < |ms| && SortMembers(ms)[k] == ms[i]
  {
    assert ms[i] in SortMembers(ms);
    k :| 0 <= k < |ms| && SortMembers(ms)[k] == ms[i];
  }

  lemma FirstInSecond(ms: seq<Member>, ns: seq<Member>, i: nat)
    requires DistinctKeys(ns) && SortedAlike(ms, ns) && i < |ms|
    ensures Lookup(ns, ms[i].key).Some? && Same(ms[i].value, Lookup(ns, ms[i].key).value)
  {
    var k := PlaceInSorted(ms, i);
    assert SameMember(SortMembers(ms)[k], SortMembers(ns)[k]);
    SortedValue(ns, k);
  }

  lemma SecondInFirst(ms: seq<Member>, ns: seq<Member>, j: nat)
    requires DistinctKeys(ms) && SortedAlike(ms, ns) && j < |ns|
    ensures Lookup(ms, ns[j].key).Some?
  {
    var k := PlaceInSorted(ns, j);
    assert SameMember(SortMembers(ms)[k], SortMembers(ns)[k]);
    SortedValue(ms, k);
  }

  lemma AgreeingObjects(v: Json, w: Json)
    requires v.Obj? && w.Obj? && DistinctKeys(v.members) && DistinctKeys(w.members) && SortedAlike(v.members, w.members)
    ensures Same(v, w)
  {
    forall i | 0 <= i < |v.members|
      ensures Lookup(w.members, v.members[i].key).Some?
              && Same(v.members[i].value, Lookup(w.members, v.members[i].key).value)
    {
      FirstInSecond(v.members, w.members, i);
    }
    forall j | 0 <= j < |w.members| ensures Lookup(v.members, w.members[j].key).Some? {
      SecondInFirst(v.members, w.members, j);
    }
  }

  /** The canonical text is the value up to key order: two JSON values print alike exactly when they are
      the same but for the order of their keys, at any depth. */
  lemma PrintsAlikeExactly(v: Json, w: Json)
    requires WellFormed(v) && WellFormed(w)
    ensures Print(v) == Print(w) <==> Same(v, w)
  {
    if Same(v, w) {
      SamePrintAlike(v, w);
    }
    if Print(v) == Print(w) {
      PrintDetermines(v, w, [], []);
    }
  }

  // What the text looks like.

  /** An array prints its items in order, between brackets and with commas. */
  lemma ArrayText(v: Json, w: Json)
    ensures Print(Arr([])) == [0x5B, 0x5D]
    ensures Print(Arr([v])) == [0x5B] + Print(v) + [0x5D]
    ensures Print(Arr([v, w])) == [0x5B] + (Print(v) + ([0x2C] + Print(w))) + [0x5D]
  {
    assert [v, w][1..] == [w];
    assert PrintItems([w]) == Print(w);
    assert PrintItems([v, w]) == Print(v) + ([0x2C] + PrintItems([w]));
  }

  lemma TwoSorted(m: Member, n: Member)
    requires Less(m.key, n.key)
    ensures SortMembers([m, n]) == [m, n] && SortMembers([n, m]) == [m, n]
  {
    LessIsStrict(m.key, n.key);
    assert [m, n][..1] == [m] && [n, m][..1] == [n] && [m][..0] == [] && [n][..0] == [];
    assert SortMembers([m]) == [m] && SortMembers([n]) == [n];
    assert Insert([m], n) == [m, n];
    assert Insert([n], m) == Insert([], m) + [n] == [m, n];
  }

  /** An object prints its members, the smaller key first whatever their order, between braces, with colons
      and commas. */
  lemma ObjectText(m: Member, n: Member)
    requires m.key != [] && n.key != [] && m.key[0] < n.key[0]
    ensures Print(Obj([])) == [0x7B, 0x7D]
    ensures Print(Obj([m, n])) == Print(Obj([n, m])) ==
              [0x7B] + (Literal(m.key) + ([0x3A] + Print(m.value)) + ([0x2C] + (Literal(n.key) + ([0x3A] + Print(n.value))))) + [0x7D]
  {
    assert Less(m.key, n.key);
    TwoSorted(m, n);
    assert [m, n][1..] == [n];
    assert PrintMembers([n]) == Literal(n.key) + ([0x3A] + Print(n.value));
    assert PrintMembers([m, n]) == Literal(m.key) + ([0x3A] + Print(m.value)) + ([0x2C] + PrintMembers([n]));
  }
}
