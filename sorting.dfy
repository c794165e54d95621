/** `sortData` (src/utils/helpers.jsx:1-16): order a copy of the list by the
    value `getNestedValue` finds under the sort key, with the comparator the
    source passes to the stable `Array.prototype.sort`. */
module Sorting {
  import opened Wrappers
  import opened JsText
  import opened UserModel
  import opened NestedValue

  /** `ToPrimitive` as `<` applies it: objects become "[object Object]". */
  function ToPrimitive(v: JsValue): (p: JsValue)
    ensures p.Undefined? || p.Num? || p.Str?
  {
    match v
    case UserObject(_) => Str("[object Object]")
    case CompanyObject(_) => Str("[object Object]")
    case _ => v
  }

  /** `ToNumber` of a primitive; `None` stands for NaN. A blank string is 0. */
  function ToNumber(v: JsValue): Option<int>
  {
    match v
    case Num(n) => Some(n)
    case Str(s) => if Trim(s) == "" then Some(0) else None
    case _ => None
  }

  /** The relational operator `a < b`: two strings compare by character
      codes, anything else numerically, and NaN compares false. */
  predicate JsLess(a: JsValue, b: JsValue)
    ensures JsLess(a, b) ==> a != b
  {
    var pa := ToPrimitive(a);
    var pb := ToPrimitive(b);
    if pa.Str? && pb.Str? then StrLessIrreflexive(pa.s); StrLess(pa.s, pb.s)
    else
      var na := ToNumber(pa);
      var nb := ToNumber(pb);
      na.Some? && nb.Some? && na.value < nb.value
  }

  /** The comparator of `sortData`: negative when `a` goes first. */
  function Compare(a: User, b: User, key: Column, direction: string): (r: int)
    ensures -1 <= r <= 1
  {
    var av := GetNestedValue(a, ColumnPath(key));
    var bv := GetNestedValue(b, ColumnPath(key));
    if JsLess(av, bv) then (if IsAscending(direction) then -1 else 1)
    else if JsLess(bv, av) then (if IsAscending(direction) then 1 else -1)
    else 0
  }

  /** Reference order: a column's value as a plain integer or string. */
  datatype SortKey = IntKey(i: int) | StrKey(s: string)

  function KeyOf(u: User, c: Column): SortKey
  {
    match c
    case IdColumn => IntKey(u.id)
    case NameColumn => StrKey(u.name)
    case EmailColumn => StrKey(u.email)
    case PhoneColumn => StrKey(u.phone)
    case CompanyNameColumn => StrKey(if u.company.Some? then u.company.value.name else "")
  }

  predicate KeyLess(a: SortKey, b: SortKey)
  {
    match (a, b)
    case (IntKey(x), IntKey(y)) => x < y
    case (StrKey(x), StrKey(y)) => StrLess(x, y)
    case (IntKey(_), StrKey(_)) => true
    case (StrKey(_), IntKey(_)) => false
  }

  lemma KeyLessStrictTotal(a: SortKey, b: SortKey)
    ensures !KeyLess(a, a)
    ensures a == b || KeyLess(a, b) || KeyLess(b, a)
    ensures !(KeyLess(a, b) && KeyLess(b, a))
  {
    if a.StrKey? {
      StrLessIrreflexive(a.s);
      if b.StrKey? {
        StrLessTrichotomy(a.s, b.s);
      }
    }
  }

  lemma KeyLessTransitive(a: SortKey, b: SortKey, c: SortKey)
    requires KeyLess(a, b) && KeyLess(b, c)
    ensures KeyLess(a, c)
  {
    if a.StrKey? && b.StrKey? && c.StrKey? {
      StrLessTransitive(a.s, b.s, c.s);
    }
  }

  /** On every sortable column, `<` on the resolved values (with '' standing
      for a missing or falsy value) is the reference order on keys: a zero
      id's '' compares like 0, and a missing company name like ''. */
  lemma JsLessIsKeyLess(a: User, b: User, c: Column)
    ensures JsLess(GetNestedValue(a, ColumnPath(c)), GetNestedValue(b, ColumnPath(c)))
        == KeyLess(KeyOf(a, c), KeyOf(b, c))
  {
    ColumnValue(a, c);
    ColumnValue(b, c);
    if c == IdColumn {
      IdValuesCompare(a.id, b.id);
    }
  }

  /** An id resolves to '' when it is 0 and to the number otherwise; `<`
      orders those values as the ids themselves. */
  lemma IdValuesCompare(x: int, y: int)
    ensures JsLess(if x == 0 then Str("") else Num(x), if y == 0 then Str("") else Num(y)) == (x < y)
  {
    assert Trim("") == "";
    StrLessIrreflexive("");
  }

  /** The comparator restated on keys: it has the shape of `Compare` with
      `KeyLess` in place of `<`. The sort below uses it; `CompareIsByKey`
      shows it is the source comparator at every input. */
  function ByKey(a: User, b: User, c: Column, d: string): int
  {
    var ka, kb := KeyOf(a, c), KeyOf(b, c);
    if KeyLess(ka, kb) then (if IsAscending(d) then -1 else 1)
    else if KeyLess(kb, ka) then (if IsAscending(d) then 1 else -1)
    else 0
  }

  lemma CompareIsByKey(a: User, b: User, c: Column, d: string)
    ensures Compare(a, b, c, d) == ByKey(a, b, c, d)
  {
    JsLessIsKeyLess(a, b, c);
    JsLessIsKeyLess(b, a, c);
  }

  lemma ByKeySign(a: User, b: User, c: Column, d: string)
    ensures ByKey(a, b, c, d) == 0 <==> KeyOf(a, c) == KeyOf(b, c)
    ensures ByKey(a, b, c, d) < 0 <==>
      if IsAscending(d) then KeyLess(KeyOf(a, c), KeyOf(b, c)) else KeyLess(KeyOf(b, c), KeyOf(a, c))
    ensures ByKey(a, b, c, d) == -ByKey(b, a, c, d)
  {
    KeyLessStrictTotal(KeyOf(a, c), KeyOf(b, c));
  }

  lemma ByKeyTransitive(a: User, b: User, e: User, c: Column, d: string)
    requires ByKey(a, b, c, d) <= 0 && ByKey(b, e, c, d) <= 0
    ensures ByKey(a, e, c, d) <= 0
  {
    ByKeySign(a, b, c, d);
    ByKeySign(b, e, c, d);
    ByKeySign(a, e, c, d);
    var ka, kb, ke := KeyOf(a, c), KeyOf(b, c), KeyOf(e, c);
    KeyLessStrictTotal(ka, ke);
    if ka != kb && kb != ke {
      if IsAscending(d) { KeyLessTransitive(ka, kb, ke); } else { KeyLessTransitive(ke, kb, ka); }
    }
  }

  /** The comparator's sign, stated on keys: 0 exactly for equal keys, and
      negative exactly when the key order (reversed unless the direction is
      'asc') puts `a` first. */
  lemma CompareByKey(a: User, b: User, c: Column, d: string)
    ensures Compare(a, b, c, d) == 0 <==> KeyOf(a, c) == KeyOf(b, c)
    ensures Compare(a, b, c, d) < 0 <==>
      if IsAscending(d) then KeyLess(KeyOf(a, c), KeyOf(b, c)) else KeyLess(KeyOf(b, c), KeyOf(a, c))
    ensures Compare(a, b, c, d) == -Compare(b, a, c, d)
  {
    CompareIsByKey(a, b, c, d);
    CompareIsByKey(b, a, c, d);
    ByKeySign(a, b, c, d);
  }

  /** The comparator is consistent: "at most equal" is transitive. */
  lemma CompareTransitive(a: User, b: User, e: User, c: Column, d: string)
    requires Compare(a, b, c, d) <= 0 && Compare(b, e, c, d) <= 0
    ensures Compare(a, e, c, d) <= 0
  {
    CompareIsByKey(a, b, c, d);
    CompareIsByKey(b, e, c, d);
    CompareIsByKey(a, e, c, d);
    ByKeyTransitive(a, b, e, c, d);
  }

  /** Every earlier element compares at most equal to every later one. */
  ghost predicate SortedBy(s: seq<User>, c: Column, d: string)
  {
    forall i, j :: 0 <= i < j < |s| ==> ByKey(s[i], s[j], c, d) <= 0
  }

  /** The elements of `s` whose key is `k`, in their order in `s`. */
  function SameKey(s: seq<User>, c: Column, k: SortKey): seq<User>
  {
    if s == [] then []
    else if KeyOf(s[0], c) == k then [s[0]] + SameKey(s[1..], c, k)
    else SameKey(s[1..], c, k)
  }

  /** Ordered by `ByKey` is ordered by the source comparator. */
  lemma SortedByIsComparatorOrder(s: seq<User>, c: Column, d: string)
    ensures SortedBy(s, c, d) <==> forall i, j :: 0 <= i < j < |s| ==> Compare(s[i], s[j], c, d) <= 0
  {
    forall i, j | 0 <= i < j < |s| ensures Compare(s[i], s[j], c, d) == ByKey(s[i], s[j], c, d) {
      CompareIsByKey(s[i], s[j], c, d);
    }
  }

  /** `s` is ordered by the comparator and records with equal keys keep their
      order from `orig`. */
  ghost predicate StablySorted(s: seq<User>, orig: seq<User>, c: Column, d: string)
  {
    SortedBy(s, c, d) && forall k :: SameKey(s, c, k) == SameKey(orig, c, k)
  }

  /** One insertion step: `x` goes after the elements that compare strictly
      before it and before all others, so it precedes later equal keys. */
  function Insert(x: User, t: seq<User>, c: Column, d: string): (r: seq<User>)
    ensures multiset(r) == multiset([x]) + multiset(t)
  {
    if t == [] then [x]
    else if ByKey(t[0], x, c, d) < 0 then
      assert t == [t[0]] + t[1..];
      [t[0]] + Insert(x, t[1..], c, d)
    else [x] + t
  }

  function StableSort(s: seq<User>, c: Column, d: string): (r: seq<User>)
    ensures multiset(r) == multiset(s)
    ensures SortedBy(r, c, d)
  {
    if s == [] then []
    else
      var rest := StableSort(s[1..], c, d);
      InsertSorted(s[0], rest, c, d);
      assert s == [s[0]] + s[1..];
      Insert(s[0], rest, c, d)
  }

  lemma SortedCons(x: User, t: seq<User>, c: Column, d: string)
    requires SortedBy(t, c, d)
    requires forall y :: y in t ==> ByKey(x, y, c, d) <= 0
    ensures SortedBy([x] + t, c, d)
  {
    var r := [x] + t;
    forall i, j | 0 <= i < j < |r| ensures ByKey(r[i], r[j], c, d) <= 0 {
      if i > 0 {
        assert r[i] == t[i - 1] && r[j] == t[j - 1];
      } else {
        assert r[j] == t[j - 1] && r[j] in t;
      }
    }
  }

  lemma {:induction false} InsertSorted(x: User, t: seq<User>, c: Column, d: string)
    requires SortedBy(t, c, d)
    ensures SortedBy(Insert(x, t, c, d), c, d)
  {
    if t == [] {
    } else if ByKey(t[0], x, c, d) < 0 {
      var tail := t[1..];
      assert SortedBy(tail, c, d) by {
        forall i, j | 0 <= i < j < |tail| ensures ByKey(tail[i], tail[j], c, d) <= 0 {
          assert tail[i] == t[i + 1] && tail[j] == t[j + 1];
        }
      }
      InsertSorted(x, tail, c, d);
      var ins := Insert(x, tail, c, d);
      forall y | y in ins ensures ByKey(t[0], y, c, d) <= 0 {
        assert y in multiset(ins);
        if y != x {
          assert y in multiset(tail);
          var j :| 0 <= j < |tail| && tail[j] == y;
          assert t[j + 1] == y;
        }
      }
      SortedCons(t[0], ins, c, d);
    } else {
      ByKeySign(t[0], x, c, d);
      forall y | y in t ensures ByKey(x, y, c, d) <= 0 {
        var j :| 0 <= j < |t| && t[j] == y;
        if j > 0 {
          ByKeyTransitive(x, t[0], y, c, d);
        }
      }
      SortedCons(x, t, c, d);
    }
  }

  lemma SameKeyCons(a: User, s: seq<User>, c: Column, k: SortKey)
    ensures SameKey([a] + s, c, k) == (if KeyOf(a, c) == k then [a] else []) + SameKey(s, c, k)
  {
    assert ([a] + s)[1..] == s;
  }

  lemma {:induction false} SameKeyConcat(s: seq<User>, t: seq<User>, c: Column, k: SortKey)
    ensures SameKey(s + t, c, k) == SameKey(s, c, k) + SameKey(t, c, k)
  {
    if s == [] {
      assert s + t == t;
    } else {
      var u := s[1..];
      SameKeyConcat(u, t, c, k);
      assert s == [s[0]] + u;
      assert s + t == [s[0]] + (u + t);
      SameKeyCons(s[0], u + t, c, k);
      SameKeyCons(s[0], u, c, k);
    }
  }

  lemma {:induction false} SameKeyMembers(s: seq<User>, c: Column, k: SortKey, x: User)
    ensures x in SameKey(s, c, k) <==> x in s && KeyOf(x, c) == k
  {
    if s != [] {
      SameKeyMembers(s[1..], c, k, x);
      assert s == [s[0]] + s[1..];
    }
  }

  /** Inserting `x` keeps, for every key, the records of that key in the
      order of `[x] + t`: everything `x` is moved past has a different key. */
  lemma {:induction false} InsertSameKey(x: User, t: seq<User>, c: Column, d: string, k: SortKey)
    ensures SameKey(Insert(x, t, c, d), c, k) == SameKey([x] + t, c, k)
  {
    if t != [] && ByKey(t[0], x, c, d) < 0 {
      ByKeySign(t[0], x, c, d);
      InsertSameKey(x, t[1..], c, d, k);
      SameKeyCons(t[0], Insert(x, t[1..], c, d), c, k);
      SameKeyCons(x, t[1..], c, k);
      SameKeyCons(x, t, c, k);
      SameKeyCons(t[0], t[1..], c, k);
      assert t == [t[0]] + t[1..];
    }
  }

  /** Stability: records with equal keys leave the sort in their input order. */
  lemma {:induction false} StableSortKeepsKeyOrder(s: seq<User>, c: Column, d: string, k: SortKey)
    ensures SameKey(StableSort(s, c, d), c, k) == SameKey(s, c, k)
  {
    if s != [] {
      var rest := StableSort(s[1..], c, d);
      assert StableSort(s, c, d) == Insert(s[0], rest, c, d);
      StableSortKeepsKeyOrder(s[1..], c, d, k);
      InsertSameKey(s[0], rest, c, d, k);
      SameKeyCons(s[0], rest, c, k);
      SameKeyCons(s[0], s[1..], c, k);
      assert s == [s[0]] + s[1..];
    }
  }

  lemma StableSortIsStablySorted(s: seq<User>, c: Column, d: string)
    ensures StablySorted(StableSort(s, c, d), s, c, d)
  {
    forall k ensures SameKey(StableSort(s, c, d), c, k) == SameKey(s, c, k) {
      StableSortKeepsKeyOrder(s, c, d, k);
    }
  }

  lemma SortedTail(s: seq<User>, c: Column, d: string)
    requires s != [] && SortedBy(s, c, d)
    ensures SortedBy(s[1..], c, d)
  {
    var tail := s[1..];
    forall i, j | 0 <= i < j < |tail| ensures ByKey(tail[i], tail[j], c, d) <= 0 {
      assert tail[i] == s[i + 1] && tail[j] == s[j + 1];
    }
  }

  /** A non-empty sequence has a record under the key of its first element. */
  lemma SameKeyOfFirst(r: seq<User>, c: Column)
    requires r != []
    ensures SameKey(r, c, KeyOf(r[0], c)) != []
  {
    SameKeyMembers(r, c, KeyOf(r[0], c), r[0]);
  }

  /** Two sorted sequences with the same records per key start with the same key. */
  lemma FirstKeysAgree(r1: seq<User>, r2: seq<User>, c: Column, d: string)
    requires r1 != [] && r2 != []
    requires SortedBy(r1, c, d) && SortedBy(r2, c, d)
    requires forall k :: SameKey(r1, c, k) == SameKey(r2, c, k)
    ensures KeyOf(r1[0], c) == KeyOf(r2[0], c)
  {
    var a, b := r1[0], r2[0];
    var ka, kb := KeyOf(a, c), KeyOf(b, c);
    if ka != kb {
      SameKeyMembers(r1, c, ka, a);
      SameKeyMembers(r2, c, ka, a);
      SameKeyMembers(r2, c, kb, b);
      SameKeyMembers(r1, c, kb, b);
      var i :| 0 <= i < |r2| && r2[i] == a;
      var j :| 0 <= j < |r1| && r1[j] == b;
      assert ByKey(b, a, c, d) <= 0 && ByKey(a, b, c, d) <= 0;
      ByKeySign(a, b, c, d);
      assert false;
    }
  }

  /** Two comparator-sorted sequences with the same records of every key, in
      the same order, are equal: a stable sort has exactly one result. */
  lemma {:induction false} StablySortedUnique(r1: seq<User>, r2: seq<User>, c: Column, d: string)
    requires SortedBy(r1, c, d) && SortedBy(r2, c, d)
    requires forall k :: SameKey(r1, c, k) == SameKey(r2, c, k)
    ensures r1 == r2
    decreases |r1| + |r2|
  {
    if r1 == [] {
      if r2 != [] {
        SameKeyOfFirst(r2, c);
      }
    } else if r2 == [] {
      SameKeyOfFirst(r1, c);
    } else {
      FirstKeysAgree(r1, r2, c, d);
      var a, b := r1[0], r2[0];
      var ka := KeyOf(a, c);
      var t1, t2 := r1[1..], r2[1..];
      assert r1 == [a] + t1 && r2 == [b] + t2;
      SameKeyCons(a, t1, c, ka);
      SameKeyCons(b, t2, c, ka);
      assert SameKey(r1, c, ka)[0] == a && SameKey(r2, c, ka)[0] == b;
      assert SameKey(r1, c, ka) == SameKey(r2, c, ka);
      assert a == b;
      forall k ensures SameKey(t1, c, k) == SameKey(t2, c, k) {
        SameKeyCons(a, t1, c, k);
        SameKeyCons(b, t2, c, k);
        var pre: seq<User> := if KeyOf(a, c) == k then [a] else [];
        assert SameKey(t1, c, k) == SameKey(r1, c, k)[|pre|..];
        assert SameKey(t2, c, k) == SameKey(r2, c, k)[|pre|..];
      }
      SortedTail(r1, c, d);
      SortedTail(r2, c, d);
      StablySortedUnique(t1, t2, c, d);
    }
  }

  /** `sortData` with a key returns exactly the sequences that are ordered by
      the comparator and keep the input order among equal keys; it is a
      permutation of its input. */
  lemma SortDataCharacterized(data: seq<User>, config: SortConfig, r: seq<User>)
    requires config.key.Some?
    ensures multiset(SortData(data, config)) == multiset(data)
    ensures StablySorted(r, data, config.key.value, config.direction) <==> r == SortData(data, config)
  {
    var c, d := config.key.value, config.direction;
    StableSortIsStablySorted(data, c, d);
    if StablySorted(r, data, c, d) {
      StablySortedUnique(r, StableSort(data, c, d), c, d);
    }
  }

  /** With the key unset, the input comes back unchanged. */
  lemma SortDataWithoutKey(data: seq<User>, config: SortConfig)
    requires config.key.None?
    ensures SortData(data, config) == data
  {
  }

  /** Sorting an already sorted list changes nothing ... */
  lemma SortedIsFixed(s: seq<User>, c: Column, d: string)
    requires SortedBy(s, c, d)
    ensures StableSort(s, c, d) == s
  {
    StableSortIsStablySorted(s, c, d);
    StablySortedUnique(StableSort(s, c, d), s, c, d);
  }

  /** ... so sorting twice with the same settings is sorting once. */
  lemma SortDataIdempotent(data: seq<User>, config: SortConfig)
    ensures SortData(SortData(data, config), config) == SortData(data, config)
  {
    if config.key.Some? {
      SortedIsFixed(SortData(data, config), config.key.value, config.direction);
    }
  }

  function Reverse<T>(s: seq<T>): (r: seq<T>)
    ensures |r| == |s|
    ensures forall i :: 0 <= i < |s| ==> r[i] == s[|s| - 1 - i]
  {
    if s == [] then [] else Reverse(s[1..]) + [s[0]]
  }

  lemma {:induction false} SameKeyReverse(s: seq<User>, c: Column, k: SortKey)
    ensures SameKey(Reverse(s), c, k) == Reverse(SameKey(s, c, k))
  {
    if s != [] {
      SameKeyReverse(s[1..], c, k);
      SameKeyConcat(Reverse(s[1..]), [s[0]], c, k);
      SameKeyCons(s[0], s[1..], c, k);
      assert s == [s[0]] + s[1..];
      SameKeyCons(s[0], [], c, k);
      var tail := SameKey(s[1..], c, k);
      if KeyOf(s[0], c) == k {
        assert Reverse([s[0]] + tail) == Reverse(tail) + [s[0]] by {
          assert ([s[0]] + tail)[1..] == tail;
        }
      }
    }
  }

  ghost predicate DistinctKeys(s: seq<User>, c: Column)
  {
    forall i, j :: 0 <= i < j < |s| ==> KeyOf(s[i], c) != KeyOf(s[j], c)
  }

  lemma {:induction false} DistinctKeysSameKeyShort(s: seq<User>, c: Column, k: SortKey)
    requires DistinctKeys(s, c)
    ensures |SameKey(s, c, k)| <= 1
  {
    if s != [] {
      var tail := s[1..];
      assert DistinctKeys(tail, c) by {
        forall i, j | 0 <= i < j < |tail| ensures KeyOf(tail[i], c) != KeyOf(tail[j], c) {
          assert tail[i] == s[i + 1] && tail[j] == s[j + 1];
        }
      }
      DistinctKeysSameKeyShort(tail, c, k);
      if KeyOf(s[0], c) == k && SameKey(tail, c, k) != [] {
        var x := SameKey(tail, c, k)[0];
        SameKeyMembers(tail, c, k, x);
        assert false;
      }
    }
  }

  lemma ByKeyFlipDirection(a: User, b: User, c: Column, d: string)
    requires !IsAscending(d)
    ensures ByKey(a, b, c, d) == ByKey(b, a, c, "asc")
  {
    KeyLessStrictTotal(KeyOf(a, c), KeyOf(b, c));
  }

  /** Reversing an ascending list orders it for every other direction. */
  lemma ReverseAscendingIsDescending(a: seq<User>, c: Column, d: string)
    requires !IsAscending(d)
    requires SortedBy(a, c, "asc")
    ensures SortedBy(Reverse(a), c, d)
  {
    var r := Reverse(a);
    forall i, j | 0 <= i < j < |r| ensures ByKey(r[i], r[j], c, d) <= 0 {
      ByKeyFlipDirection(r[i], r[j], c, d);
      assert r[i] == a[|a| - 1 - i] && r[j] == a[|a| - 1 - j];
    }
  }

  /** Without repeated keys, reversing keeps every key's (single) record. */
  lemma ReverseKeepsSingletonKeys(a: seq<User>, s: seq<User>, c: Column, k: SortKey)
    requires DistinctKeys(s, c)
    requires SameKey(a, c, k) == SameKey(s, c, k)
    ensures SameKey(Reverse(a), c, k) == SameKey(s, c, k)
  {
    SameKeyReverse(a, c, k);
    DistinctKeysSameKeyShort(s, c, k);
    var q := SameKey(a, c, k);
    assert Reverse(q) == q;
  }

  /** When no two records share a key, sorting in any direction other than
      'asc' gives the ascending result reversed. */
  lemma ReversedDirection(s: seq<User>, c: Column, d: string)
    requires !IsAscending(d)
    requires DistinctKeys(s, c)
    ensures StableSort(s, c, d) == Reverse(StableSort(s, c, "asc"))
  {
    var a := StableSort(s, c, "asc");
    var desc := StableSort(s, c, d);
    StableSortIsStablySorted(s, c, "asc");
    StableSortIsStablySorted(s, c, d);
    ReverseAscendingIsDescending(a, c, d);
    forall k ensures SameKey(Reverse(a), c, k) == SameKey(desc, c, k) {
      ReverseKeepsSingletonKeys(a, s, c, k);
    }
    StablySortedUnique(Reverse(a), desc, c, d);
  }

  /** `sortData`: without a key the input itself; with one, the stable sort
      by the comparator. */
  function SortData(data: seq<User>, config: SortConfig): (r: seq<User>)
    ensures multiset(r) == multiset(data) && |r| == |data|
  {
    match config.key
    case None => data
    case Some(c) =>
      var r := StableSort(data, c, config.direction);
      assert |multiset(r)| == |multiset(data)|;
      r
  }
}
