/** Python 2's comparison of sequences, used for utterances (lists of
    tokens) and for the byte strings inside them: the first index at which
    the two sequences differ decides, by comparing the elements there; when
    one sequence is a prefix of the other, their lengths decide. */
module Lex {

  /** The ordering operators `<`, `<=`, `>` and `>=`. */
  datatype Op = Lt | Le | Gt | Ge

  /** `x op y` for elements ordered by the strict order `less`. */
  predicate Holds<T(==)>(op: Op, less: (T, T) -> bool, x: T, y: T)
  {
    match op
    case Lt => less(x, y)
    case Le => less(x, y) || x == y
    case Gt => less(y, x)
    case Ge => less(y, x) || x == y
  }

  /** `m op n` on lengths. */
  predicate HoldsOnLengths(op: Op, m: nat, n: nat)
  {
    match op
    case Lt => m < n
    case Le => m <= n
    case Gt => m > n
    case Ge => m >= n
  }

  /** `a op b` for Python sequences whose elements are ordered by `less`. */
  predicate Compare<T(==)>(op: Op, less: (T, T) -> bool, a: seq<T>, b: seq<T>)
  {
    if |a| == 0 || |b| == 0 then HoldsOnLengths(op, |a|, |b|)
    else if a[0] != b[0] then Holds(op, less, a[0], b[0])
    else Compare(op, less, a[1..], b[1..])
  }

  /** `less` is irreflexive, transitive and relates any two distinct
      elements one way or the other. */
  ghost predicate StrictTotalOrder<T(!new)>(less: (T, T) -> bool)
  {
    && (forall x :: !less(x, x))
    && (forall x, y, z :: less(x, y) && less(y, z) ==> less(x, z))
    && (forall x, y :: x != y ==> less(x, y) || less(y, x))
  }

  /** The byte order Python 2 compares strings by. */
  predicate CharLess(c: char, d: char)
  {
    c < d
  }

  /** `x < y` for Python 2 strings. */
  predicate StrLess(x: string, y: string)
  {
    Compare(Lt, CharLess, x, y)
  }

  // ---------------------------------------------------------------------
  // How the operators relate
  // ---------------------------------------------------------------------

  /** `a <= b` is `a < b or a == b`. */
  lemma {:induction false} LeIsLtOrEq<T>(less: (T, T) -> bool, a: seq<T>, b: seq<T>)
    ensures Compare(Le, less, a, b) <==> Compare(Lt, less, a, b) || a == b
  {
    if |a| > 0 && |b| > 0 && a[0] == b[0] {
      LeIsLtOrEq(less, a[1..], b[1..]);
      assert a == [a[0]] + a[1..] && b == [b[0]] + b[1..];
    }
  }

  /** `a > b` is `b < a`. */
  lemma {:induction false} GtIsConverse<T>(less: (T, T) -> bool, a: seq<T>, b: seq<T>)
    ensures Compare(Gt, less, a, b) <==> Compare(Lt, less, b, a)
  {
    if |a| > 0 && |b| > 0 && a[0] == b[0] {
      GtIsConverse(less, a[1..], b[1..]);
    }
  }

  /** `a >= b` is `b <= a`. */
  lemma {:induction false} GeIsConverse<T>(less: (T, T) -> bool, a: seq<T>, b: seq<T>)
    ensures Compare(Ge, less, a, b) <==> Compare(Le, less, b, a)
  {
    if |a| > 0 && |b| > 0 && a[0] == b[0] {
      GeIsConverse(less, a[1..], b[1..]);
    }
  }

  // ---------------------------------------------------------------------
  // `<` on sequences is a strict total order
  // ---------------------------------------------------------------------

  lemma {:induction false} LtIrreflexive<T>(less: (T, T) -> bool, a: seq<T>)
    ensures !Compare(Lt, less, a, a)
  {
    if |a| > 0 {
      LtIrreflexive(less, a[1..]);
    }
  }

  lemma {:induction false} LtTransitive<T(!new)>(less: (T, T) -> bool, a: seq<T>, b: seq<T>, c: seq<T>)
    requires StrictTotalOrder(less)
    requires Compare(Lt, less, a, b) && Compare(Lt, less, b, c)
    ensures Compare(Lt, less, a, c)
  {
    if |a| > 0 && |b| > 0 && |c| > 0 {
      if a[0] == b[0] && b[0] == c[0] {
        LtTransitive(less, a[1..], b[1..], c[1..]);
      }
    }
  }

  lemma {:induction false} LtTotal<T(!new)>(less: (T, T) -> bool, a: seq<T>, b: seq<T>)
    requires StrictTotalOrder(less)
    ensures Compare(Lt, less, a, b) || a == b || Compare(Lt, less, b, a)
  {
    if |a| > 0 && |b| > 0 && a[0] == b[0] {
      LtTotal(less, a[1..], b[1..]);
      assert a == [a[0]] + a[1..] && b == [b[0]] + b[1..];
    }
  }

  lemma {:induction false} LtAsymmetric<T(!new)>(less: (T, T) -> bool, a: seq<T>, b: seq<T>)
    requires StrictTotalOrder(less)
    ensures !(Compare(Lt, less, a, b) && Compare(Lt, less, b, a))
  {
    if Compare(Lt, less, a, b) && Compare(Lt, less, b, a) {
      LtTransitive(less, a, b, a);
      LtIrreflexive(less, a);
    }
  }

  /** Ordering sequences by a strict total order on their elements gives a
      strict total order on the sequences. */
  lemma LtStrictTotal<T(!new)>(less: (T, T) -> bool)
    requires StrictTotalOrder(less)
    ensures StrictTotalOrder((a: seq<T>, b: seq<T>) => Compare(Lt, less, a, b))
  {
    forall a: seq<T> {
      LtIrreflexive(less, a);
    }
    forall a: seq<T>, b: seq<T>, c: seq<T> | Compare(Lt, less, a, b) && Compare(Lt, less, b, c) {
      LtTransitive(less, a, b, c);
    }
    forall a: seq<T>, b: seq<T> {
      LtTotal(less, a, b);
    }
  }

  /** Python 2 strings are totally ordered by `<`. */
  lemma StrLessStrictTotal()
    ensures StrictTotalOrder(StrLess)
  {
    assert StrictTotalOrder(CharLess);
    forall a: string {
      LtIrreflexive(CharLess, a);
    }
    forall a: string, b: string, c: string | StrLess(a, b) && StrLess(b, c) {
      LtTransitive(CharLess, a, b, c);
    }
    forall a: string, b: string {
      LtTotal(CharLess, a, b);
    }
  }
}
