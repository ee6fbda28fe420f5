/**
 * What the services ask of the store, over a table held as a sequence of
 * rows in insertion order: a filtered read (`where`), a first-match
 * lookup (`findUnique`), an ordered read (`orderBy`), a page of it
 * (`skip`/`take`), an update of the matching rows, and uniqueness of a
 * column.
 */
module Query {
  import opened Common

  datatype Direction = Asc | Desc

  /** The rows of `s` that `keep` admits, in table order. */
  function Where<T(!new)>(s: seq<T>, keep: T -> bool): (r: seq<T>)
    ensures |r| <= |s|
    ensures forall x :: x in r <==> x in s && keep(x)
    ensures forall x :: multiset(r)[x] == if keep(x) then multiset(s)[x] else 0
  {
    if s == [] then []
    else
      assert s == [s[0]] + s[1..];
      if keep(s[0]) then [s[0]] + Where(s[1..], keep)
      else Where(s[1..], keep)
  }

  /** Two filters that agree on every row select the same rows. */
  lemma {:induction false} WhereSame<T(!new)>(s: seq<T>, f: T -> bool, g: T -> bool)
    requires forall x :: x in s ==> f(x) == g(x)
    ensures Where(s, f) == Where(s, g)
  {
    if s != [] {
      WhereSame(s[1..], f, g);
    }
  }

  /** The first row that `hit` admits, if there is one. */
  function FindFirst<T(!new)>(s: seq<T>, hit: T -> bool): (r: Option<T>)
    ensures r.Some? ==> r.value in s && hit(r.value)
    ensures r.None? <==> forall x :: x in s ==> !hit(x)
    ensures r.Some? ==> exists i :: 0 <= i < |s| && s[i] == r.value && forall j :: 0 <= j < i ==> !hit(s[j])
  {
    if s == [] then None
    else if hit(s[0]) then Some(s[0])
    else FindFirst(s[1..], hit)
  }

  /** No two rows share a value of the column `key`. */
  ghost predicate Unique<T, K>(s: seq<T>, key: T -> K) {
    forall i, j :: 0 <= i < j < |s| ==> key(s[i]) != key(s[j])
  }

  /** In a column without duplicates, a value names at most one row. */
  lemma UniqueRow<T, K>(s: seq<T>, key: T -> K, x: T, y: T)
    requires Unique(s, key)
    requires x in s && y in s && key(x) == key(y)
    ensures x == y
  {
    var i :| 0 <= i < |s| && s[i] == x;
    var j :| 0 <= j < |s| && s[j] == y;
    if i < j {
      assert key(s[i]) != key(s[j]);
    } else if j < i {
      assert key(s[j]) != key(s[i]);
    }
  }

  /** Dropping rows keeps a column free of duplicates. */
  lemma {:induction false} WhereUnique<T(!new), K>(s: seq<T>, keep: T -> bool, key: T -> K)
    requires Unique(s, key)
    ensures Unique(Where(s, keep), key)
  {
    if s != [] {
      var tail := Where(s[1..], keep);
      assert Unique(s[1..], key) by {
        forall i, j | 0 <= i < j < |s[1..]| ensures key(s[1..][i]) != key(s[1..][j]) {
          assert s[1..][i] == s[i + 1] && s[1..][j] == s[j + 1];
        }
      }
      WhereUnique(s[1..], keep, key);
      if keep(s[0]) {
        var r := [s[0]] + tail;
        forall i, j | 0 <= i < j < |r| ensures key(r[i]) != key(r[j]) {
          if i == 0 {
            assert r[j] == tail[j - 1] && tail[j - 1] in s[1..];
            var m :| 0 <= m < |s[1..]| && s[1..][m] == r[j];
            assert s[m + 1] == r[j];
          } else {
            assert r[i] == tail[i - 1] && r[j] == tail[j - 1];
          }
        }
      }
    }
  }

  /** Where a row with key `a` stands relative to a row with key `b` in an ordering. */
  predicate InOrder<T>(key: T -> int, dir: Direction, a: T, b: T) {
    match dir
    case Asc => key(a) <= key(b)
    case Desc => key(a) >= key(b)
  }

  predicate SortedBy<T>(s: seq<T>, key: T -> int, dir: Direction) {
    forall i, j :: 0 <= i < j < |s| ==> InOrder(key, dir, s[i], s[j])
  }

  /** Puts `x` into a sequence, ahead of the first row it may precede. */
  function Insert<T>(x: T, s: seq<T>, key: T -> int, dir: Direction): (r: seq<T>)
    ensures multiset(r) == multiset(s) + multiset{x}
  {
    if s == [] || InOrder(key, dir, x, s[0]) then [x] + s
    else
      assert s == [s[0]] + s[1..];
      [s[0]] + Insert(x, s[1..], key, dir)
  }

  /** A row that may precede every row of `s` (a row no later than all of them). */
  predicate Leads<T>(a: T, s: seq<T>, key: T -> int, dir: Direction) {
    forall i :: 0 <= i < |s| ==> InOrder(key, dir, a, s[i])
  }

  lemma SortedTail<T>(s: seq<T>, key: T -> int, dir: Direction)
    requires |s| > 0 && SortedBy(s, key, dir)
    ensures SortedBy(s[1..], key, dir) && Leads(s[0], s[1..], key, dir)
  {
    forall i, j | 0 <= i < j < |s[1..]| ensures InOrder(key, dir, s[1..][i], s[1..][j]) {
      assert s[1..][i] == s[i + 1] && s[1..][j] == s[j + 1];
    }
    forall i | 0 <= i < |s[1..]| ensures InOrder(key, dir, s[0], s[1..][i]) {
      assert s[1..][i] == s[i + 1];
    }
  }

  lemma SortedCons<T>(a: T, s: seq<T>, key: T -> int, dir: Direction)
    requires SortedBy(s, key, dir) && Leads(a, s, key, dir)
    ensures SortedBy([a] + s, key, dir)
  {
    var r := [a] + s;
    forall i, j | 0 <= i < j < |r| ensures InOrder(key, dir, r[i], r[j]) {
      if i > 0 {
        assert r[i] == s[i - 1] && r[j] == s[j - 1];
      } else {
        assert r[j] == s[j - 1];
      }
    }
  }

  /** Inserting into a sorted sequence keeps it sorted. */
  lemma {:induction false} InsertSorted<T>(x: T, s: seq<T>, key: T -> int, dir: Direction)
    requires SortedBy(s, key, dir)
    ensures SortedBy(Insert(x, s, key, dir), key, dir)
  {
    if s == [] {
    } else if InOrder(key, dir, x, s[0]) {
      SortedTail(s, key, dir);
      assert Leads(x, s, key, dir) by {
        forall i | 0 <= i < |s| ensures InOrder(key, dir, x, s[i]) {
          if i > 0 {
            assert s[1..][i - 1] == s[i];
          }
        }
      }
      SortedCons(x, s, key, dir);
    } else {
      SortedTail(s, key, dir);
      var tail := Insert(x, s[1..], key, dir);
      InsertSorted(x, s[1..], key, dir);
      assert Leads(s[0], tail, key, dir) by {
        forall i | 0 <= i < |tail| ensures InOrder(key, dir, s[0], tail[i]) {
          var y := tail[i];
          assert y in multiset(tail);
          if y != x {
            assert y in multiset(s[1..]);
            var m :| 0 <= m < |s[1..]| && s[1..][m] == y;
          }
        }
      }
      SortedCons(s[0], tail, key, dir);
    }
  }

  /**
   * An `orderBy` on one integer column: the result holds the same rows,
   * each as often as before, and is ordered by the column.
   */
  function SortBy<T>(s: seq<T>, key: T -> int, dir: Direction): (r: seq<T>)
    ensures multiset(r) == multiset(s)
    ensures SortedBy(r, key, dir)
  {
    if s == [] then []
    else
      var tail := SortBy(s[1..], key, dir);
      assert s == [s[0]] + s[1..];
      InsertSorted(s[0], tail, key, dir);
      Insert(s[0], tail, key, dir)
  }

  function Min(a: int, b: int): int {
    if a <= b then a else b
  }

  /**
   * `skip`/`take`: the rows from position `skip` on, at most `take` of
   * them; nothing when `skip` is past the end.
   */
  function Window<T>(s: seq<T>, skip: nat, take: nat): (r: seq<T>)
    ensures |r| == (if skip < |s| then Min(take, |s| - skip) else 0)
    ensures forall i :: 0 <= i < |r| ==> r[i] == s[skip + i]
  {
    var from := if skip < |s| then skip else |s|;
    var to := if from + take < |s| then from + take else |s|;
    s[from..to]
  }

  /** A page holds rows of the table, no more of them than the table has. */
  lemma WindowWithin<T>(s: seq<T>, skip: nat, take: nat)
    ensures |Window(s, skip, take)| <= |s|
    ensures forall x :: x in Window(s, skip, take) ==> x in s
  {
    var r := Window(s, skip, take);
    forall x | x in r ensures x in s {
      var i :| 0 <= i < |r| && r[i] == x;
      assert r[i] == s[skip + i];
    }
  }

  /** A page of an ordered read is itself ordered. */
  lemma WindowSorted<T>(s: seq<T>, skip: nat, take: nat, key: T -> int, dir: Direction)
    requires SortedBy(s, key, dir)
    ensures SortedBy(Window(s, skip, take), key, dir)
  {
    var r := Window(s, skip, take);
    forall i, j | 0 <= i < j < |r| ensures InOrder(key, dir, r[i], r[j]) {
      assert r[i] == s[skip + i] && r[j] == s[skip + j];
    }
  }

  /** An update of every row `hit` admits: such a row `x` becomes `f(x)`. */
  function UpdateWhere<T>(s: seq<T>, hit: T -> bool, f: T -> T): seq<T> {
    seq(|s|, i requires 0 <= i < |s| => if hit(s[i]) then f(s[i]) else s[i])
  }
}
