/** The orderings the queries sort by: binary text collation, and the
    lexicographic order on a (date, text) grouping key. */
module Ordering {

  /** Binary collation: strings compare character by character by code
      point, and a proper prefix sorts first. */
  predicate StringLt(a: string, b: string)
  {
    if |b| == 0 then false
    else if |a| == 0 then true
    else if a[0] != b[0] then a[0] < b[0]
    else StringLt(a[1..], b[1..])
  }

  lemma {:induction false} StringLtIrreflexive(a: string)
    ensures !StringLt(a, a)
  {
    if |a| > 0 {
      StringLtIrreflexive(a[1..]);
    }
  }

  lemma {:induction false} StringLtTransitive(a: string, b: string, c: string)
    requires StringLt(a, b) && StringLt(b, c)
    ensures StringLt(a, c)
  {
    if |a| > 0 && a[0] == b[0] && b[0] == c[0] {
      StringLtTransitive(a[1..], b[1..], c[1..]);
    }
  }

  /** Any two different strings are ordered one way or the other. */
  lemma {:induction false} StringLtTotal(a: string, b: string)
    requires a != b
    ensures StringLt(a, b) || StringLt(b, a)
  {
    if |a| > 0 && |b| > 0 && a[0] == b[0] {
      assert a == [a[0]] + a[1..] && b == [b[0]] + b[1..];
      StringLtTotal(a[1..], b[1..]);
    }
  }

  /** A grouping key made of a date (a day ordinal) and a text column:
      (date_of_disbursement, category) or (date_sold, type_of_property). */
  datatype GroupKey = GroupKey(date: int, text: string)

  /** ORDER BY date, text: dates first, ties broken by the text. */
  predicate KeyLt(a: GroupKey, b: GroupKey)
  {
    a.date < b.date || (a.date == b.date && StringLt(a.text, b.text))
  }

  lemma KeyLtIrreflexive(a: GroupKey)
    ensures !KeyLt(a, a)
  {
    StringLtIrreflexive(a.text);
  }

  lemma KeyLtTransitive(a: GroupKey, b: GroupKey, c: GroupKey)
    requires KeyLt(a, b) && KeyLt(b, c)
    ensures KeyLt(a, c)
  {
    if a.date == b.date == c.date {
      StringLtTransitive(a.text, b.text, c.text);
    }
  }

  lemma KeyLtTotal(a: GroupKey, b: GroupKey)
    requires a != b
    ensures KeyLt(a, b) || KeyLt(b, a)
  {
    if a.date == b.date {
      StringLtTotal(a.text, b.text);
    }
  }

  /** Every key comes strictly before every later one. */
  predicate StrictlyIncreasing(ks: seq<GroupKey>)
  {
    forall i, j :: 0 <= i < j < |ks| ==> KeyLt(ks[i], ks[j])
  }

  /** Adds a key to a strictly increasing sequence of keys, keeping it
      strictly increasing; a key already present is not added twice. */
  function InsertKey(ks: seq<GroupKey>, k: GroupKey): (r: seq<GroupKey>)
    requires StrictlyIncreasing(ks)
    ensures StrictlyIncreasing(r)
    ensures forall x :: x in r <==> x in ks || x == k
  {
    if |ks| == 0 then [k]
    else if k == ks[0] then ks
    else if KeyLt(k, ks[0]) then
      assert forall x | x in ks :: KeyLt(k, x) by {
        forall x | x in ks ensures KeyLt(k, x) {
          var j :| 0 <= j < |ks| && ks[j] == x;
          if j > 0 { KeyLtTransitive(k, ks[0], x); }
        }
      }
      [k] + ks
    else
      var rest := InsertKey(ks[1..], k);
      assert forall x | x in rest :: KeyLt(ks[0], x) by {
        forall x | x in rest ensures KeyLt(ks[0], x) {
          if x == k {
            KeyLtTotal(k, ks[0]);
          } else {
            var j :| 1 <= j < |ks| && ks[j] == x;
          }
        }
      }
      [ks[0]] + rest
  }

  /** A strictly increasing key sequence never repeats a key. */
  lemma IncreasingDistinct(ks: seq<GroupKey>, i: int, j: int)
    requires StrictlyIncreasing(ks)
    requires 0 <= i < j < |ks|
    ensures ks[i] != ks[j]
  {
    KeyLtIrreflexive(ks[i]);
  }
}
