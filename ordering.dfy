/** Filtered, ordered reads of a table, the shape of every `findMany` with a
    `where` and an `orderBy` in the repositories. A table is a finite map from
    primary key to row; a query result lists exactly the rows that satisfy the
    filter, each once, ordered by the value of one column. Rows with equal
    values may come in any order, as the database leaves them. */
module Ordering {

  datatype Direction = Asc | Desc

  /** A column value as the database orders it: a number (timestamps and
      enum positions included), a text, or NULL. */
  datatype Key = Num(n: int) | Text(t: string) | Null

  /** Text order: character by character by code point, a prefix first. */
  predicate TextLe(a: string, b: string)
    decreases |a|
  {
    a == [] || (b != [] && (a[0] < b[0] || (a[0] == b[0] && TextLe(a[1..], b[1..]))))
  }

  /** Ascending order of column values. NULL comes after every value, as in
      PostgreSQL's default ascending order (so first when descending).
      Numbers come before texts; no column holds both. */
  predicate KeyLe(a: Key, b: Key) {
    match a
    case Null => b.Null?
    case Num(x) => !b.Num? || x <= b.n
    case Text(x) => b.Null? || (b.Text? && TextLe(x, b.t))
  }

  predicate InOrder(a: Key, b: Key, dir: Direction) {
    if dir == Asc then KeyLe(a, b) else KeyLe(b, a)
  }

  lemma {:induction false} TextLeTotal(a: string, b: string)
    ensures TextLe(a, b) || TextLe(b, a)
    decreases |a|
  {
    if a != [] && b != [] && a[0] == b[0] {
      TextLeTotal(a[1..], b[1..]);
    }
  }

  lemma {:induction false} TextLeTrans(a: string, b: string, c: string)
    requires TextLe(a, b) && TextLe(b, c)
    ensures TextLe(a, c)
    decreases |a|
  {
    if a != [] && a[0] == b[0] && b[0] == c[0] {
      TextLeTrans(a[1..], b[1..], c[1..]);
    }
  }

  /** Any two values of a column can be ordered. */
  lemma InOrderTotal(a: Key, b: Key, dir: Direction)
    ensures InOrder(a, b, dir) || InOrder(b, a, dir)
  {
    if a.Text? && b.Text? {
      TextLeTotal(a.t, b.t);
    }
  }

  lemma InOrderTrans(a: Key, b: Key, c: Key, dir: Direction)
    requires InOrder(a, b, dir) && InOrder(b, c, dir)
    ensures InOrder(a, c, dir)
  {
    if a.Text? && b.Text? && c.Text? {
      if dir == Asc {
        TextLeTrans(a.t, b.t, c.t);
      } else {
        TextLeTrans(c.t, b.t, a.t);
      }
    }
  }

  ghost predicate SortedBy<V>(s: seq<V>, key: V -> Key, dir: Direction) {
    forall i, j :: 0 <= i < j < |s| ==> InOrder(key(s[i]), key(s[j]), dir)
  }

  /** Every row is stored under its own primary key. */
  ghost predicate WellKeyed<K, V>(m: map<K, V>, idOf: V -> K) {
    forall k :: k in m ==> idOf(m[k]) == k
  }

  /** `r` lists exactly the rows of `m` that `keep` accepts, each once. */
  ghost predicate Enumerates<K, V>(r: seq<V>, m: map<K, V>, idOf: V -> K, keep: V -> bool) {
    && (forall i :: 0 <= i < |r| ==> idOf(r[i]) in m && m[idOf(r[i])] == r[i] && keep(r[i]))
    && (forall i, j :: 0 <= i < j < |r| ==> idOf(r[i]) != idOf(r[j]))
    && (forall k :: k in m && keep(m[k]) ==> exists i :: 0 <= i < |r| && idOf(r[i]) == k)
  }

  /** A value that may precede the head of a sorted list may precede all of
      it. */
  lemma {:induction false} PrecedesAll<V>(s: seq<V>, a: Key, key: V -> Key, dir: Direction)
    requires SortedBy(s, key, dir) && |s| > 0 && InOrder(a, key(s[0]), dir)
    ensures forall i :: 0 <= i < |s| ==> InOrder(a, key(s[i]), dir)
  {
    forall i | 0 < i < |s| ensures InOrder(a, key(s[i]), dir) {
      InOrderTrans(a, key(s[0]), key(s[i]), dir);
    }
  }

  /** Where a new row goes in a sorted list: after every row that may precede
      it, before every row it may precede. */
  function InsertPos<V>(s: seq<V>, x: V, key: V -> Key, dir: Direction): (p: nat)
    requires SortedBy(s, key, dir)
    ensures p <= |s|
    ensures forall i :: 0 <= i < p ==> InOrder(key(s[i]), key(x), dir)
    ensures forall i :: p <= i < |s| ==> InOrder(key(x), key(s[i]), dir)
  {
    if |s| == 0 then 0
    else if InOrder(key(s[0]), key(x), dir) then 1 + InsertPos(s[1..], x, key, dir)
    else
      InOrderTotal(key(s[0]), key(x), dir);
      PrecedesAll(s, key(x), key, dir);
      0
  }

  lemma InsertKeepsSorted<V>(s: seq<V>, x: V, key: V -> Key, dir: Direction)
    requires SortedBy(s, key, dir)
    ensures var p := InsertPos(s, x, key, dir); SortedBy(s[..p] + [x] + s[p..], key, dir)
  {
    var p := InsertPos(s, x, key, dir);
    var r := s[..p] + [x] + s[p..];
    forall i, j | 0 <= i < j < |r|
      ensures InOrder(key(r[i]), key(r[j]), dir)
    {
      if j < p {
        assert r[i] == s[i] && r[j] == s[j];
      } else if j == p {
        assert r[i] == s[i] && r[j] == x;
      } else if i < p {
        assert r[i] == s[i] && r[j] == s[j - 1];
      } else if i == p {
        assert r[i] == x && r[j] == s[j - 1];
      } else {
        assert r[i] == s[i - 1] && r[j] == s[j - 1];
      }
    }
  }

  /** The loop state of SelectSorted: `r` holds, in order, exactly the
      accepted rows whose keys are no longer pending. */
  ghost predicate Progress<K, V>(r: seq<V>, m: map<K, V>, idOf: V -> K, keep: V -> bool,
                                 key: V -> Key, dir: Direction, pending: set<K>)
  {
    && pending <= m.Keys
    && (forall i :: 0 <= i < |r| ==>
          idOf(r[i]) in m && idOf(r[i]) !in pending && m[idOf(r[i])] == r[i] && keep(r[i]))
    && (forall i, j :: 0 <= i < j < |r| ==> idOf(r[i]) != idOf(r[j]))
    && (forall k :: k in m && k !in pending && keep(m[k]) ==>
          exists i :: 0 <= i < |r| && idOf(r[i]) == k)
    && SortedBy(r, key, dir)
  }

  lemma InsertAt<V>(r: seq<V>, x: V, p: nat)
    requires p <= |r|
    ensures var r' := r[..p] + [x] + r[p..];
      && |r'| == |r| + 1
      && (forall i :: 0 <= i < p ==> r'[i] == r[i])
      && r'[p] == x
      && (forall i :: p < i < |r'| ==> r'[i] == r[i - 1])
  {
  }

  lemma InsertStep<K, V>(r: seq<V>, m: map<K, V>, idOf: V -> K, keep: V -> bool,
                         key: V -> Key, dir: Direction, pending: set<K>, k: K)
    requires WellKeyed(m, idOf)
    requires Progress(r, m, idOf, keep, key, dir, pending)
    requires k in pending && keep(m[k])
    ensures var p := InsertPos(r, m[k], key, dir);
      Progress(r[..p] + [m[k]] + r[p..], m, idOf, keep, key, dir, pending - {k})
  {
    var p := InsertPos(r, m[k], key, dir);
    InsertKeepsSorted(r, m[k], key, dir);
    var r' := r[..p] + [m[k]] + r[p..];
    InsertAt(r, m[k], p);
    assert idOf(m[k]) == k;
    forall i | 0 <= i < |r'|
      ensures idOf(r'[i]) in m && idOf(r'[i]) !in pending - {k} && m[idOf(r'[i])] == r'[i] && keep(r'[i])
    {
      if i < p { assert r'[i] == r[i]; } else if i > p { assert r'[i] == r[i - 1]; }
    }
    forall i, j | 0 <= i < j < |r'| ensures idOf(r'[i]) != idOf(r'[j]) {
      if i < p && j < p { assert r'[i] == r[i] && r'[j] == r[j]; }
      else if i < p && j > p { assert r'[i] == r[i] && r'[j] == r[j - 1]; }
      else if i > p { assert r'[i] == r[i - 1] && r'[j] == r[j - 1]; }
      else if i == p { assert r'[j] == r[j - 1]; assert idOf(r[j - 1]) !in pending; }
      else { assert r'[i] == r[i]; assert idOf(r[i]) !in pending; }
    }
    forall k' | k' in m && k' !in pending - {k} && keep(m[k'])
      ensures exists i :: 0 <= i < |r'| && idOf(r'[i]) == k'
    {
      if k' == k {
        assert idOf(r'[p]) == k';
      } else {
        var i :| 0 <= i < |r| && idOf(r[i]) == k';
        if i < p { assert r'[i] == r[i]; } else { assert r'[i + 1] == r[i]; }
      }
    }
  }

  lemma SkipStep<K, V>(r: seq<V>, m: map<K, V>, idOf: V -> K, keep: V -> bool,
                       key: V -> Key, dir: Direction, pending: set<K>, k: K)
    requires Progress(r, m, idOf, keep, key, dir, pending)
    requires k in pending && !keep(m[k])
    ensures Progress(r, m, idOf, keep, key, dir, pending - {k})
  {
  }

  /** Reads the rows of `m` that `keep` accepts, ordered by `key` in direction `dir`. */
  method SelectSorted<K, V>(m: map<K, V>, idOf: V -> K, keep: V -> bool, key: V -> Key, dir: Direction)
    returns (r: seq<V>)
    requires WellKeyed(m, idOf)
    ensures Enumerates(r, m, idOf, keep)
    ensures SortedBy(r, key, dir)
  {
    r := [];
    var pending := m.Keys;
    while pending != {}
      invariant Progress(r, m, idOf, keep, key, dir, pending)
      decreases pending
    {
      var k :| k in pending;
      if keep(m[k]) {
        var p := InsertPos(r, m[k], key, dir);
        InsertStep(r, m, idOf, keep, key, dir, pending, k);
        r := r[..p] + [m[k]] + r[p..];
      } else {
        SkipStep(r, m, idOf, keep, key, dir, pending, k);
      }
      pending := pending - {k};
    }
  }

  /** A row is in a query result exactly when it is stored in the table and
      passes the filter. */
  lemma EnumeratedRows<K, V>(r: seq<V>, m: map<K, V>, idOf: V -> K, keep: V -> bool, v: V)
    requires WellKeyed(m, idOf)
    requires Enumerates(r, m, idOf, keep)
    ensures v in r <==> v in m.Values && keep(v)
  {
    if v in m.Values && keep(v) {
      var k :| k in m && m[k] == v;
      var i :| 0 <= i < |r| && idOf(r[i]) == k;
      assert r[i] == v;
    }
  }

  /** Two results of the same query hold the same rows, possibly in another
      order among rows with equal sort keys. */
  lemma {:induction false} EnumerationsAgree<K, V>(r1: seq<V>, r2: seq<V>, m: map<K, V>, idOf: V -> K, keep: V -> bool)
    requires WellKeyed(m, idOf)
    requires Enumerates(r1, m, idOf, keep) && Enumerates(r2, m, idOf, keep)
    ensures |r1| == |r2|
    ensures forall v :: v in r1 <==> v in r2
  {
    forall v ensures v in r1 <==> v in r2 {
      EnumeratedRows(r1, m, idOf, keep, v);
      EnumeratedRows(r2, m, idOf, keep, v);
    }
    var s1 := set i | 0 <= i < |r1| :: idOf(r1[i]);
    var s2 := set i | 0 <= i < |r2| :: idOf(r2[i]);
    DistinctKeysCount(r1, idOf);
    DistinctKeysCount(r2, idOf);
    assert s1 == s2 by {
      forall k ensures k in s1 <==> k in s2 {
        if k in s1 {
          var i :| 0 <= i < |r1| && idOf(r1[i]) == k;
          assert k in m && keep(m[k]);
        }
        if k in s2 {
          var i :| 0 <= i < |r2| && idOf(r2[i]) == k;
          assert k in m && keep(m[k]);
        }
      }
    }
  }

  lemma {:induction false} DistinctKeysCount<K, V>(r: seq<V>, idOf: V -> K)
    requires forall i, j :: 0 <= i < j < |r| ==> idOf(r[i]) != idOf(r[j])
    ensures |set i | 0 <= i < |r| :: idOf(r[i])| == |r|
  {
    if |r| > 0 {
      var t := r[..|r| - 1];
      DistinctKeysCount(t, idOf);
      var st := set i | 0 <= i < |t| :: idOf(t[i]);
      var sr := set i | 0 <= i < |r| :: idOf(r[i]);
      assert sr == st + {idOf(r[|r| - 1])};
      assert idOf(r[|r| - 1]) !in st;
    }
  }
}
