/** Selecting and counting rows of a table, in insertion order. */
module Rows {

  datatype Option<+T> = None | Some(value: T)

  /** The rows that satisfy `p`, in their original order. */
  function Where<T(!new)>(rows: seq<T>, p: T -> bool): (r: seq<T>)
    ensures |r| <= |rows|
    ensures forall x :: x in r <==> x in rows && p(x)
  {
    if rows == [] then []
    else if p(rows[0]) then [rows[0]] + Where(rows[1..], p)
    else Where(rows[1..], p)
  }

  /** How many rows satisfy `p`. */
  function Count<T(!new)>(rows: seq<T>, p: T -> bool): nat {
    |Where(rows, p)|
  }

  lemma {:induction false} WhereAppend<T(!new)>(a: seq<T>, b: seq<T>, p: T -> bool)
    ensures Where(a + b, p) == Where(a, p) + Where(b, p)
  {
    if a == [] {
      assert a + b == b;
    } else {
      assert (a + b)[1..] == a[1..] + b;
      WhereAppend(a[1..], b, p);
    }
  }

  lemma CountPush<T(!new)>(rows: seq<T>, x: T, p: T -> bool)
    ensures Count(rows + [x], p) == Count(rows, p) + if p(x) then 1 else 0
  {
    WhereAppend(rows, [x], p);
  }

  /** Rows that all satisfy `p` are all kept. */
  lemma {:induction false} WhereAll<T(!new)>(rows: seq<T>, p: T -> bool)
    requires forall x :: x in rows ==> p(x)
    ensures Where(rows, p) == rows
  {
    if rows != [] {
      WhereAll(rows[1..], p);
    }
  }

  /** Selecting twice is selecting once with the conjunction. */
  lemma {:induction false} WhereTwice<T(!new)>(rows: seq<T>, p: T -> bool, q: T -> bool, both: T -> bool)
    requires forall x :: x in rows ==> (both(x) <==> p(x) && q(x))
    ensures Where(Where(rows, p), q) == Where(rows, both)
  {
    if rows != [] {
      WhereTwice(rows[1..], p, q, both);
      if p(rows[0]) {
        var rest := Where(rows[1..], p);
        assert ([rows[0]] + rest)[1..] == rest;
      }
    }
  }

  /** If every selected row of `a` faces a selected row of `b`, `a` has no more of them. */
  lemma {:induction false} CountFacing<A(!new), B(!new)>(a: seq<A>, b: seq<B>, p: A -> bool, q: B -> bool)
    requires |a| == |b|
    requires forall i :: 0 <= i < |a| && p(a[i]) ==> q(b[i])
    ensures Count(a, p) <= Count(b, q)
  {
    if a != [] {
      CountFacing(a[1..], b[1..], p, q);
    }
  }

  lemma CountMono<T(!new)>(rows: seq<T>, p: T -> bool, q: T -> bool)
    requires forall x :: x in rows && p(x) ==> q(x)
    ensures Count(rows, p) <= Count(rows, q)
  {
    CountFacing(rows, rows, p, q);
  }

  /** Dropping rows never raises a count. */
  lemma {:induction false} CountOfSelection<T(!new)>(rows: seq<T>, keep: T -> bool, p: T -> bool)
    ensures Count(Where(rows, keep), p) <= Count(rows, p)
  {
    if rows != [] {
      CountOfSelection(rows[1..], keep, p);
      if keep(rows[0]) {
        var rest := Where(rows[1..], keep);
        assert ([rows[0]] + rest)[1..] == rest;
      }
    }
  }

  /** A count over the union of two classes is at most the sum of their counts. */
  lemma {:induction false} CountCover<T(!new)>(rows: seq<T>, p: T -> bool, a: T -> bool, b: T -> bool)
    requires forall x :: x in rows && p(x) ==> a(x) || b(x)
    ensures Count(rows, p) <= Count(rows, a) + Count(rows, b)
  {
    if rows != [] {
      CountCover(rows[1..], p, a, b);
    }
  }

  /** No row satisfies `p`. */
  lemma {:induction false} CountNone<T(!new)>(rows: seq<T>, p: T -> bool)
    requires forall x :: x in rows ==> !p(x)
    ensures Count(rows, p) == 0
  {
    if rows != [] {
      CountNone(rows[1..], p);
    }
  }

  /** Positions of the rows that satisfy `p`. */
  ghost function Positions<T(!new)>(rows: seq<T>, p: T -> bool): set<int> {
    set i | 0 <= i < |rows| && p(rows[i])
  }

  lemma PositionsPush<T(!new)>(front: seq<T>, x: T, p: T -> bool)
    ensures |Positions(front + [x], p)| == |Positions(front, p)| + if p(x) then 1 else 0
  {
    var rows := front + [x];
    assert forall i :: 0 <= i < |front| ==> rows[i] == front[i];
    if p(x) {
      assert Positions(rows, p) == Positions(front, p) + {|front|};
    } else {
      assert Positions(rows, p) == Positions(front, p);
    }
  }

  /** Counting rows is counting positions. */
  lemma {:induction false} CountIsPositions<T(!new)>(rows: seq<T>, p: T -> bool)
    ensures Count(rows, p) == |Positions(rows, p)|
  {
    if rows == [] {
      assert Positions(rows, p) == {};
    } else {
      var n := |rows| - 1;
      CountIsPositions(rows[..n], p);
      CountPush(rows[..n], rows[n], p);
      PositionsPush(rows[..n], rows[n], p);
      assert rows == rows[..n] + [rows[n]];
    }
  }

  /** Selections by classes that agree are equal. */
  lemma {:induction false} WhereSame<T(!new)>(rows: seq<T>, p: T -> bool, q: T -> bool)
    requires forall x :: x in rows ==> (p(x) <==> q(x))
    ensures Where(rows, p) == Where(rows, q)
  {
    if rows != [] {
      WhereSame(rows[1..], p, q);
    }
  }

  /** The newest `n` elements. */
  function Last<T>(s: seq<T>, n: nat): (r: seq<T>)
    ensures |r| == if |s| < n then |s| else n
  {
    if |s| <= n then s else s[|s| - n..]
  }

  /** Trimming after every addition keeps what trimming once at the end keeps. */
  lemma LastOfLast<T>(s: seq<T>, more: seq<T>, n: nat)
    ensures Last(Last(s, n) + more, n) == Last(s + more, n)
  {
  }
}
