/**
 * `Array.prototype.sort`, which is stable since ECMAScript 2019, as both services call it:
 * with a comparator that orders entries most-recent-first by the end token of their `years`
 * string. The comparator only ever looks at a `SortKey`, so the sort is a stable insertion
 * sort on that key; its result is ordered, a permutation of the input, and keeps the input
 * order among entries with equal keys.
 */
module StableSort {
  import opened Text

  /**
   * What a comparator sees of an entry: `Open` is the open-ended "Present" marker that the
   * positions comparator puts before everything; `Token` is any other end token.
   */
  datatype SortKey = Open | Token(text: string)

  /** Key `a` sorts strictly before key `b` (later end first; "Present" first of all). */
  predicate Before(a: SortKey, b: SortKey)
  {
    match a
    case Open => b.Token?
    case Token(x) => b.Token? && Less(b.text, x)
  }

  lemma BeforeIrreflexive(a: SortKey)
    ensures !Before(a, a)
  {
    if a.Token? {
      LessIrreflexive(a.text);
    }
  }

  lemma BeforeAsymmetric(a: SortKey, b: SortKey)
    requires Before(a, b)
    ensures !Before(b, a)
  {
    if a.Token? && b.Token? {
      LessAsymmetric(b.text, a.text);
    }
  }

  lemma BeforeTransitive(a: SortKey, b: SortKey, c: SortKey)
    requires Before(a, b) && Before(b, c)
    ensures Before(a, c)
  {
    if a.Token? {
      LessTransitive(c.text, b.text, a.text);
    }
  }

  lemma BeforeTotal(a: SortKey, b: SortKey)
    ensures a == b || Before(a, b) || Before(b, a)
  {
    if a.Token? && b.Token? {
      LessTotal(a.text, b.text);
    }
  }

  /** "Not strictly before" is transitive: the keys form a total preorder. */
  lemma NotBeforeTransitive(a: SortKey, b: SortKey, c: SortKey)
    requires !Before(b, a) && !Before(c, b)
    ensures !Before(c, a)
  {
    BeforeTotal(a, b);
    BeforeTotal(b, c);
    if a != b && b != c && Before(c, a) {
      BeforeTransitive(a, b, c);
      BeforeAsymmetric(a, c);
    }
  }

  /** No entry has a key strictly before the key of an entry placed ahead of it. */
  predicate Ordered<T>(s: seq<T>, key: T -> SortKey)
  {
    forall i, j :: 0 <= i < j < |s| ==> !Before(key(s[j]), key(s[i]))
  }

  /** Insert `x` ahead of the first entry of `t` whose key is not strictly before its own. */
  function Insert<T>(x: T, t: seq<T>, key: T -> SortKey): (r: seq<T>)
    ensures multiset(r) == multiset(t) + multiset{x}
    ensures |r| == |t| + 1
  {
    if t == [] || !Before(key(t[0]), key(x)) then [x] + t
    else
      assert t == [t[0]] + t[1..];
      [t[0]] + Insert(x, t[1..], key)
  }

  /** The stable sort of `s` by `key`, most recent first. */
  function Sort<T>(s: seq<T>, key: T -> SortKey): (r: seq<T>)
    ensures multiset(r) == multiset(s)
    ensures |r| == |s|
  {
    if s == [] then []
    else
      assert s == [s[0]] + s[1..];
      Insert(s[0], Sort(s[1..], key), key)
  }

  /** The entries of `s` whose key is `k`, in their order in `s`. */
  function WithKey<T>(s: seq<T>, key: T -> SortKey, k: SortKey): seq<T>
  {
    if s == [] then [] else (if key(s[0]) == k then [s[0]] else []) + WithKey(s[1..], key, k)
  }

  lemma {:induction false} InsertOrdered<T>(x: T, t: seq<T>, key: T -> SortKey)
    requires Ordered(t, key)
    ensures Ordered(Insert(x, t, key), key)
  {
    var r := Insert(x, t, key);
    if t == [] {
    } else if !Before(key(t[0]), key(x)) {
      forall i, j | 0 <= i < j < |r| ensures !Before(key(r[j]), key(r[i])) {
        if i == 0 {
          if j > 1 {
            NotBeforeTransitive(key(x), key(t[0]), key(t[j - 1]));
          }
        }
      }
    } else {
      var rest := Insert(x, t[1..], key);
      InsertOrdered(x, t[1..], key);
      assert r == [t[0]] + rest;
      forall j | 0 <= j < |rest| ensures !Before(key(rest[j]), key(t[0])) {
        assert rest[j] in multiset(rest);
        if rest[j] == x {
          BeforeAsymmetric(key(t[0]), key(x));
        } else {
          assert rest[j] in multiset(t[1..]);
          var m :| 0 <= m < |t[1..]| && t[1..][m] == rest[j];
          assert t[m + 1] == rest[j];
        }
      }
      forall i, j | 0 <= i < j < |r| ensures !Before(key(r[j]), key(r[i])) {
        if i == 0 {
          assert r[j] == rest[j - 1];
        } else {
          assert r[i] == rest[i - 1] && r[j] == rest[j - 1];
        }
      }
    }
  }

  /** The sort's result is ordered by key. */
  lemma {:induction false} SortOrdered<T>(s: seq<T>, key: T -> SortKey)
    ensures Ordered(Sort(s, key), key)
  {
    if s != [] {
      SortOrdered(s[1..], key);
      InsertOrdered(s[0], Sort(s[1..], key), key);
    }
  }

  /** Two prefixes commute when one of them is empty. */
  lemma SwapAroundEmpty<T>(a: seq<T>, b: seq<T>, w: seq<T>)
    requires a == [] || b == []
    ensures b + (a + w) == a + (b + w)
  {
    if a == [] {
      assert a + w == w && a + (b + w) == b + w;
    } else {
      assert b + (a + w) == a + w && b + w == w;
    }
  }

  /** Selecting from a sequence with one more element in front. */
  lemma WithKeyCons<T>(y: T, s: seq<T>, key: T -> SortKey, k: SortKey)
    ensures WithKey([y] + s, key, k) == (if key(y) == k then [y] else []) + WithKey(s, key, k)
  {
    assert ([y] + s)[1..] == s;
  }

  lemma {:induction false} InsertWithKey<T>(x: T, t: seq<T>, key: T -> SortKey, k: SortKey)
    ensures WithKey(Insert(x, t, key), key, k) == (if key(x) == k then [x] else []) + WithKey(t, key, k)
  {
    if t == [] || !Before(key(t[0]), key(x)) {
      WithKeyCons(x, t, key, k);
    } else {
      var rest := Insert(x, t[1..], key);
      assert Insert(x, t, key) == [t[0]] + rest;
      InsertWithKey(x, t[1..], key, k);
      WithKeyCons(t[0], rest, key, k);
      assert [t[0]] + t[1..] == t;
      WithKeyCons(t[0], t[1..], key, k);
      if key(t[0]) == k && key(x) == k {
        BeforeIrreflexive(k);
      }
      SwapAroundEmpty(if key(x) == k then [x] else [], if key(t[0]) == k then [t[0]] else [], WithKey(t[1..], key, k));
    }
  }

  /** Stability: for every key, the entries with that key keep their relative input order. */
  lemma {:induction false} SortStable<T>(s: seq<T>, key: T -> SortKey, k: SortKey)
    ensures WithKey(Sort(s, key), key, k) == WithKey(s, key, k)
  {
    if s != [] {
      SortStable(s[1..], key, k);
      InsertWithKey(s[0], Sort(s[1..], key), key, k);
    }
  }

  /** The one entry whose key is `Open` comes first once sorted. */
  lemma SortLeadsWithOpen<T>(s: seq<T>, key: T -> SortKey, m: nat)
    requires m < |s| && key(s[m]) == Open
    requires forall k :: 0 <= k < |s| && k != m ==> key(s[k]).Token?
    ensures Sort(s, key)[0] == s[m]
  {
    var r := Sort(s, key);
    SortOrdered(s, key);
    assert s[m] in multiset(r);
    var j :| 0 <= j < |r| && r[j] == s[m];
    assert key(r[0]) == Open by {
      if j > 0 {
        assert !Before(key(r[j]), key(r[0]));
      }
    }
    assert r[0] in multiset(s);
    var k :| 0 <= k < |s| && s[k] == r[0];
  }
}
