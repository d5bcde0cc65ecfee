/** SELECT ... WHERE ... ORDER BY over a table given as a sequence of rows. A query may return any ordering its
    ORDER BY allows; a unique index can make that ordering total, and then the answer is unique. */
module Queries {
  import opened Options

  function Filter<R>(p: R -> bool, rows: seq<R>): seq<R> {
    if rows == [] then [] else (if p(rows[0]) then [rows[0]] else []) + Filter(p, rows[1..])
  }

  lemma {:induction false} FilterMembers<R(!new)>(p: R -> bool, rows: seq<R>)
    ensures forall x :: x in Filter(p, rows) <==> x in rows && p(x)
  {
    if rows != [] {
      FilterMembers(p, rows[1..]);
    }
  }

  lemma {:induction false} FilterSnoc<R>(p: R -> bool, rows: seq<R>, x: R)
    ensures Filter(p, rows + [x]) == Filter(p, rows) + (if p(x) then [x] else [])
  {
    if rows == [] {
      assert rows + [x] == [x];
    } else {
      var first := if p(rows[0]) then [rows[0]] else [];
      assert (rows + [x])[1..] == rows[1..] + [x];
      FilterSnoc(p, rows[1..], x);
      assert Filter(p, rows + [x]) == first + Filter(p, rows[1..] + [x]);
    }
  }

  lemma {:induction false} FilterAll<R>(p: R -> bool, rows: seq<R>)
    requires forall x :: x in rows ==> p(x)
    ensures Filter(p, rows) == rows
  {
    if rows != [] {
      FilterAll(p, rows[1..]);
    }
  }

  ghost predicate Sorted<R(!new)>(less: (R, R) -> bool, rows: seq<R>) {
    forall i, j :: 0 <= i < j < |rows| ==> !less(rows[j], rows[i])
  }

  /** `result` is an answer to SELECT ... WHERE where ORDER BY less. */
  ghost predicate Answers<R(!new)>(table: seq<R>, where_: R -> bool, less: (R, R) -> bool, result: seq<R>) {
    multiset(result) == multiset(Filter(where_, table)) && Sorted(less, result)
  }

  /** The order never ties two different rows of interest. */
  ghost predicate Total<R(!new)>(less: (R, R) -> bool, p: R -> bool, q: R -> bool, table: seq<R>) {
    forall a, b :: a in table && b in table && p(a) && q(a) && p(b) && q(b) && a != b ==> less(a, b) != less(b, a)
  }

  lemma {:induction false} FilterCounts<R(!new)>(p: R -> bool, rows: seq<R>, x: R)
    ensures multiset(Filter(p, rows))[x] == if p(x) then multiset(rows)[x] else 0
  {
    if rows != [] {
      FilterCounts(p, rows[1..], x);
      assert rows == [rows[0]] + rows[1..];
      assert multiset(rows) == multiset{rows[0]} + multiset(rows[1..]);
      assert multiset(Filter(p, rows)) == multiset(if p(rows[0]) then [rows[0]] else []) + multiset(Filter(p, rows[1..]));
    }
  }

  lemma {:induction false} FilterIndex<R(!new)>(p: R -> bool, rows: seq<R>, i: nat) returns (k: nat)
    requires i < |Filter(p, rows)|
    ensures k < |rows| && rows[k] == Filter(p, rows)[i] && i == |Filter(p, rows[..k])| && p(rows[k])
  {
    if p(rows[0]) && i == 0 {
      k := 0;
    } else {
      var k' := FilterIndex(p, rows[1..], if p(rows[0]) then i - 1 else i);
      k := k' + 1;
      assert rows[..k][1..] == rows[1..][..k'];
    }
  }

  lemma {:induction false} FilterPrefix<R(!new)>(p: R -> bool, rows: seq<R>, j: nat, k: nat)
    requires j <= k <= |rows|
    ensures |Filter(p, rows[..j])| <= |Filter(p, rows[..k])|
  {
    if j > 0 {
      FilterPrefix(p, rows[1..], j - 1, k - 1);
      assert rows[..j][1..] == rows[1..][..j - 1] && rows[..k][1..] == rows[1..][..k - 1];
    }
  }

  lemma FilterSorted<R(!new)>(less: (R, R) -> bool, less': (R, R) -> bool, p: R -> bool, rows: seq<R>)
    requires Sorted(less, rows)
    requires forall a, b :: a in rows && b in rows && p(a) && p(b) && less'(a, b) ==> less(a, b)
    ensures Sorted(less', Filter(p, rows))
  {
    var f := Filter(p, rows);
    forall i, j | 0 <= i < j < |f| ensures !less'(f[j], f[i]) {
      var a := FilterIndex(p, rows, i);
      var b := FilterIndex(p, rows, j);
      if b <= a { FilterPrefix(p, rows, b, a); }
    }
  }

  /** A total order leaves one sorted answer. */
  lemma {:induction false} SortedUnique<R(!new)>(less: (R, R) -> bool, a: seq<R>, b: seq<R>)
    requires multiset(a) == multiset(b)
    requires Sorted(less, a) && Sorted(less, b)
    requires forall x, y :: x in a && y in a && x != y ==> less(x, y) != less(y, x)
    ensures a == b
  {
    if a != [] {
      assert a[0] in multiset(b);
      assert |b| == |a| by { assert |multiset(a)| == |a| && |multiset(b)| == |b|; }
      assert b[0] in multiset(a);
      assert a[0] == b[0];
      assert a == [a[0]] + a[1..] && b == [b[0]] + b[1..];
      assert multiset(a[1..]) == multiset(a) - multiset{a[0]};
      assert multiset(b[1..]) == multiset(b) - multiset{b[0]};
      SortedUnique(less, a[1..], b[1..]);
    }
  }

  lemma InTable<R(!new)>(table: seq<R>, where_: R -> bool, less: (R, R) -> bool, result: seq<R>)
    requires Answers(table, where_, less, result)
    ensures forall x :: x in result <==> x in table && where_(x)
  {
    FilterMembers(where_, table);
    forall x ensures x in result <==> x in Filter(where_, table) {
      assert x in result <==> x in multiset(result);
    }
  }

  lemma SameRows<R(!new)>(table: seq<R>, wide: R -> bool, batch: seq<R>, pick: R -> bool, other: R -> bool, answer: seq<R>, pick': R -> bool)
    requires multiset(batch) == multiset(Filter(wide, table)) && multiset(answer) == multiset(Filter(other, table))
    requires forall x :: wide(x) && pick(x) <==> other(x) && pick'(x)
    ensures multiset(Filter(pick, batch)) == multiset(Filter(pick', answer))
  {
    forall x ensures multiset(Filter(pick, batch))[x] == multiset(Filter(pick', answer))[x] {
      FilterCounts(pick, batch, x);
      FilterCounts(wide, table, x);
      FilterCounts(pick', answer, x);
      FilterCounts(other, table, x);
    }
  }

  /** The picked rows of an answer: where they are, and their order under any order that agrees with the query's. */
  lemma PickedRows<R(!new)>(table: seq<R>, wide: R -> bool, wideLess: (R, R) -> bool, batch: seq<R>, pick: R -> bool, less: (R, R) -> bool)
    requires Answers(table, wide, wideLess, batch)
    requires forall a, b :: pick(a) && pick(b) && wide(a) && wide(b) && less(a, b) ==> wideLess(a, b)
    ensures forall x :: x in Filter(pick, batch) <==> x in table && wide(x) && pick(x)
    ensures Sorted(less, Filter(pick, batch))
  {
    InTable(table, wide, wideLess, batch);
    FilterMembers(pick, batch);
    FilterSorted(wideLess, less, pick, batch);
  }

  /** Narrowing one query's answer gives the other query's narrowed answer, when both orders agree on those rows. */
  lemma NarrowedAnswer<R(!new)>(table: seq<R>, wide: R -> bool, wideLess: (R, R) -> bool, batch: seq<R>, pick: R -> bool,
                                other: R -> bool, otherLess: (R, R) -> bool, answer: seq<R>, pick': R -> bool)
    requires Answers(table, wide, wideLess, batch) && Answers(table, other, otherLess, answer)
    requires forall x :: wide(x) && pick(x) <==> other(x) && pick'(x)
    requires forall a, b :: pick(a) && pick(b) && wide(a) && wide(b) && otherLess(a, b) ==> wideLess(a, b)
    requires Total(otherLess, other, pick', table)
    ensures Filter(pick, batch) == Filter(pick', answer)
  {
    SameRows(table, wide, batch, pick, other, answer, pick');
    PickedRows(table, wide, wideLess, batch, pick, otherLess);
    PickedRows(table, other, otherLess, answer, pick', otherLess);
    SortedUnique(otherLess, Filter(pick, batch), Filter(pick', answer));
  }
}
