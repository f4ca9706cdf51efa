/** The order on node ids: character by character, a prefix before its extensions. */
module Lexicographic {

  predicate LexLe(a: string, b: string) {
    a == [] || (b != [] && (a[0] < b[0] || (a[0] == b[0] && LexLe(a[1..], b[1..]))))
  }

  /** The order in so many words: a prefix, or smaller at the first position where the two differ. */
  ghost predicate Precedes(a: string, b: string) {
    a <= b || exists i | 0 <= i < |a| && i < |b| :: a[..i] == b[..i] && a[i] < b[i]
  }

  lemma {:induction false} PrecedesTail(a: string, b: string)
    requires a != [] && b != [] && a[0] == b[0]
    ensures Precedes(a, b) <==> Precedes(a[1..], b[1..])
  {
    var c, d := a[1..], b[1..];
    assert a == [a[0]] + c && b == [b[0]] + d;
    if i :| 0 <= i < |a| && i < |b| && a[..i] == b[..i] && a[i] < b[i] {
      assert c[..i - 1] == a[..i][1..] && d[..i - 1] == b[..i][1..] && c[i - 1] < d[i - 1];
    }
    if i :| 0 <= i < |c| && i < |d| && c[..i] == d[..i] && c[i] < d[i] {
      assert a[..i + 1] == [a[0]] + c[..i] && b[..i + 1] == [b[0]] + d[..i] && a[i + 1] < b[i + 1];
    }
  }

  lemma {:induction false} PrecedesHead(a: string, b: string)
    requires a != [] && b != [] && a[0] != b[0]
    ensures Precedes(a, b) <==> a[0] < b[0]
  {
    if a[0] < b[0] {
      assert a[..0] == b[..0];
    }
    if i :| 0 <= i < |a| && i < |b| && a[..i] == b[..i] && a[i] < b[i] {
      assert i > 0 ==> a[..i][0] == b[..i][0];
    }
  }

  /** That is the order computed character by character. */
  lemma {:induction false} LexLeIffPrecedes(a: string, b: string)
    ensures LexLe(a, b) <==> Precedes(a, b)
  {
    if a != [] && b != [] {
      if a[0] == b[0] {
        LexLeIffPrecedes(a[1..], b[1..]);
        PrecedesTail(a, b);
      } else {
        PrecedesHead(a, b);
      }
    }
  }

  lemma {:induction false} Total(a: string, b: string)
    ensures LexLe(a, b) || LexLe(b, a)
  {
    if a != [] && b != [] {
      Total(a[1..], b[1..]);
    }
  }

  lemma {:induction false} Antisymmetric(a: string, b: string)
    requires LexLe(a, b) && LexLe(b, a)
    ensures a == b
  {
    if a != [] {
      Antisymmetric(a[1..], b[1..]);
      assert a == [a[0]] + a[1..] && b == [b[0]] + b[1..];
    }
  }

  lemma {:induction false} Transitive(a: string, b: string, c: string)
    requires LexLe(a, b) && LexLe(b, c)
    ensures LexLe(a, c)
  {
    if a != [] && a[0] == b[0] && b[0] == c[0] {
      Transitive(a[1..], b[1..], c[1..]);
    }
  }

  lemma {:induction false} LeastExists(ids: set<string>) returns (least: string)
    requires ids != {}
    ensures least in ids && forall id | id in ids :: LexLe(least, id)
    decreases |ids|
  {
    var one :| one in ids;
    Total(one, one);
    if ids == {one} {
      least := one;
    } else {
      var rest := LeastExists(ids - {one});
      Total(one, rest);
      if LexLe(one, rest) {
        least := one;
        forall id | id in ids
          ensures LexLe(least, id)
        {
          if id != one {
            Transitive(one, rest, id);
          }
        }
      } else {
        least := rest;
      }
    }
  }
}
