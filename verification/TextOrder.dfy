/** Byte-wise order of strings and of (kind, subject) keys, sorting by key, and searching a
    sorted list. */
module TextOrder {

  function Less(a: string, b: string): bool {
    if b == [] then false
    else if a == [] then true
    else a[0] < b[0] || (a[0] == b[0] && Less(a[1..], b[1..]))
  }

  lemma {:induction false} LessIsTotal(a: string, b: string)
    ensures Less(a, b) || a == b || Less(b, a)
    ensures !(Less(a, b) && Less(b, a))
    ensures !Less(a, a)
  {
    if a != [] {
      LessIsTotal(a[1..], a[1..]);
      if b != [] {
        LessIsTotal(a[1..], b[1..]);
        assert a == [a[0]] + a[1..] && b == [b[0]] + b[1..];
      }
    }
  }

  lemma {:induction false} LessIsTransitive(a: string, b: string, c: string)
    requires Less(a, b) && Less(b, c)
    ensures Less(a, c)
  {
    if a != [] && a[0] == b[0] && b[0] == c[0] { LessIsTransitive(a[1..], b[1..], c[1..]); }
  }

  /** Dictionary order: at the first place where they differ the lower character comes first, and
      a proper beginning comes before the whole. */
  lemma {:induction false} LessIsDictionary(a: string, b: string)
    ensures Less(a, b) <==>
      exists k :: 0 <= k <= |a| && k < |b| && a[..k] == b[..k] && (k == |a| || a[k] < b[k])
  {
    if b != [] && a != [] {
      LessIsDictionary(a[1..], b[1..]);
      if a[0] == b[0] && Less(a[1..], b[1..]) {
        var k :| 0 <= k <= |a[1..]| && k < |b[1..]| && a[1..][..k] == b[1..][..k] && (k == |a[1..]| || a[1..][k] < b[1..][k]);
        assert a[..k + 1] == [a[0]] + a[1..][..k] && b[..k + 1] == [b[0]] + b[1..][..k];
      }
      if k :| 0 <= k <= |a| && k < |b| && a[..k] == b[..k] && (k == |a| || a[k] < b[k]) {
        if k > 0 {
          assert a[0] == a[..k][0] == b[..k][0] == b[0];
          assert a[1..][..k - 1] == a[..k][1..] == b[..k][1..] == b[1..][..k - 1];
        }
      }
      if a[0] < b[0] { assert a[..0] == b[..0]; }
    } else if b != [] {
      assert a[..0] == b[..0];
    }
  }

  datatype Key = Key(kind: string, subject: string)

  predicate KeyLess(a: Key, b: Key) {
    Less(a.kind, b.kind) || (a.kind == b.kind && Less(a.subject, b.subject))
  }

  lemma KeyOrder(a: Key, b: Key, c: Key)
    ensures KeyLess(a, b) || a == b || KeyLess(b, a)
    ensures !(KeyLess(a, b) && KeyLess(b, a))
    ensures !KeyLess(a, a)
    ensures KeyLess(a, b) && KeyLess(b, c) ==> KeyLess(a, c)
  {
    LessIsTotal(a.kind, b.kind);
    LessIsTotal(a.subject, b.subject);
    LessIsTotal(a.kind, a.kind);
    LessIsTotal(a.subject, a.subject);
    if Less(a.kind, b.kind) && Less(b.kind, c.kind) { LessIsTransitive(a.kind, b.kind, c.kind); }
    if Less(a.subject, b.subject) && Less(b.subject, c.subject) { LessIsTransitive(a.subject, b.subject, c.subject); }
  }

  // ----- sorting by key ----------------------------------------------------------------------

  ghost predicate Sorted<T(!new)>(s: seq<T>, key: T -> Key) {
    forall i, j :: 0 <= i < j < |s| ==> !KeyLess(key(s[j]), key(s[i]))
  }

  /** Puts x behind every element that does not come after it. */
  function Insert<T>(s: seq<T>, key: T -> Key, x: T): (r: seq<T>)
    ensures |r| == |s| + 1
    ensures multiset(r) == multiset(s) + multiset{x}
  {
    if s == [] || !KeyLess(key(x), key(s[|s| - 1])) then s + [x]
    else
      var r := Insert(s[..|s| - 1], key, x) + [s[|s| - 1]];
      assert s == s[..|s| - 1] + [s[|s| - 1]];
      r
  }

  /** std::sort, with equal keys left in their order. */
  function Sort<T>(s: seq<T>, key: T -> Key): (r: seq<T>)
    ensures |r| == |s|
    ensures multiset(r) == multiset(s)
  {
    if s == [] then []
    else
      assert s == s[..|s| - 1] + [s[|s| - 1]];
      Insert(Sort(s[..|s| - 1], key), key, s[|s| - 1])
  }

  lemma {:induction false} InsertSorted<T(!new)>(s: seq<T>, key: T -> Key, x: T)
    requires Sorted(s, key)
    ensures Sorted(Insert(s, key, x), key)
  {
    if s == [] {
    } else if !KeyLess(key(x), key(s[|s| - 1])) {
      forall i | 0 <= i < |s| ensures !KeyLess(key(x), key(s[i])) {
        KeyOrder(key(x), key(s[i]), key(s[|s| - 1]));
        KeyOrder(key(s[i]), key(s[|s| - 1]), key(x));
      }
    } else {
      var front, last := s[..|s| - 1], s[|s| - 1];
      InsertSorted(front, key, x);
      var r := Insert(front, key, x);
      forall i | 0 <= i < |r| ensures !KeyLess(key(last), key(r[i])) {
        assert r[i] in multiset(r);
        if r[i] == x {
          KeyOrder(key(x), key(last), key(x));
        } else {
          assert r[i] in multiset(front);
          assert r[i] in front;
        }
      }
    }
  }

  lemma {:induction false} SortSorts<T(!new)>(s: seq<T>, key: T -> Key)
    ensures Sorted(Sort(s, key), key)
  {
    if s != [] {
      SortSorts(s[..|s| - 1], key);
      InsertSorted(Sort(s[..|s| - 1], key), key, s[|s| - 1]);
    }
  }

  function Filter<T>(s: seq<T>, key: T -> Key, k: Key): seq<T> {
    if s == [] then []
    else Filter(s[..|s| - 1], key, k) + if key(s[|s| - 1]) == k then [s[|s| - 1]] else []
  }

  lemma {:induction false} FilterConcat<T>(a: seq<T>, b: seq<T>, key: T -> Key, k: Key)
    ensures Filter(a + b, key, k) == Filter(a, key, k) + Filter(b, key, k)
  {
    if b == [] {
      assert a + b == a;
    } else {
      assert (a + b)[..|a + b| - 1] == a + b[..|b| - 1];
      FilterConcat(a, b[..|b| - 1], key, k);
    }
  }

  lemma {:induction false} InsertKeepsOrder<T(!new)>(s: seq<T>, key: T -> Key, x: T, k: Key)
    requires Sorted(s, key)
    ensures Filter(Insert(s, key, x), key, k) == Filter(s, key, k) + if key(x) == k then [x] else []
  {
    if s != [] && KeyLess(key(x), key(s[|s| - 1])) {
      var front, last := s[..|s| - 1], s[|s| - 1];
      InsertKeepsOrder(front, key, x, k);
      KeyOrder(key(x), key(last), key(x));
      assert s == front + [last];
      FilterSwap(front, Insert(front, key, x), key, x, last, k);
    } else {
      FilterLast(s, key, x, k);
    }
  }

  /** Two elements of different keys may pass each other. */
  lemma FilterSwap<T>(s: seq<T>, inserted: seq<T>, key: T -> Key, x: T, last: T, k: Key)
    requires Filter(inserted, key, k) == Filter(s, key, k) + if key(x) == k then [x] else []
    requires key(x) != key(last)
    ensures Filter(inserted + [last], key, k) == Filter(s + [last], key, k) + if key(x) == k then [x] else []
  {
    FilterLast(inserted, key, last, k);
    FilterLast(s, key, last, k);
    hide Filter;
    var kept := Filter(s, key, k);
    if key(x) == k { assert kept + [x] + [] == kept + [] + [x]; }
  }

  lemma FilterLast<T>(s: seq<T>, key: T -> Key, x: T, k: Key)
    ensures Filter(s + [x], key, k) == Filter(s, key, k) + if key(x) == k then [x] else []
  {
    assert (s + [x])[..|s|] == s;
  }

  /** Sorting leaves the elements of one key in their order. */
  lemma {:induction false} SortIsStable<T(!new)>(s: seq<T>, key: T -> Key, k: Key)
    ensures Filter(Sort(s, key), key, k) == Filter(s, key, k)
  {
    if s != [] {
      SortIsStable(s[..|s| - 1], key, k);
      SortSorts(s[..|s| - 1], key);
      InsertKeepsOrder(Sort(s[..|s| - 1], key), key, s[|s| - 1], k);
    }
  }

  // ----- searching ---------------------------------------------------------------------------

  ghost predicate SortedText(s: seq<string>) {
    forall i, j :: 0 <= i < j < |s| ==> !Less(s[j], s[i])
  }

  /** On a sorted list, halving finds exactly the members. */
  method BinarySearch(s: seq<string>, x: string) returns (found: bool)
    requires SortedText(s)
    ensures found <==> x in s
  {
    var lo, hi := 0, |s|;
    while lo < hi
      invariant 0 <= lo <= hi <= |s|
      invariant forall i :: 0 <= i < lo ==> Less(s[i], x)
      invariant forall i :: hi <= i < |s| ==> !Less(s[i], x)
    {
      var mid := lo + (hi - lo) / 2;
      if Less(s[mid], x) {
        forall i | 0 <= i <= mid ensures Less(s[i], x) {
          LessIsTotal(s[i], s[mid]);
          if Less(s[i], s[mid]) { LessIsTransitive(s[i], s[mid], x); }
        }
        lo := mid + 1;
      } else {
        forall i | mid <= i < |s| ensures !Less(s[i], x) {
          LessIsTotal(s[i], s[mid]);
          if Less(s[i], x) && Less(s[mid], s[i]) { LessIsTransitive(s[mid], s[i], x); }
        }
        hi := mid;
      }
    }
    found := lo < |s| && !Less(x, s[lo]);
    if found { LessIsTotal(x, s[lo]); }
    if x in s {
      var i :| 0 <= i < |s| && s[i] == x;
      LessIsTotal(x, x);
    }
  }
}
