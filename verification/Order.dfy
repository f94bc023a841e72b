/** Strict total orders and their lexicographic extension to sequences. */
module Order {

  ghost predicate StrictTotal<T(!new)>(lt: (T, T) -> bool) {
    && (forall x :: !lt(x, x))
    && (forall x, y :: x == y || lt(x, y) || lt(y, x))
    && (forall x, y, z :: lt(x, y) && lt(y, z) ==> lt(x, z))
  }

  /** Sequence comparison as the source language compares lists and strings. */
  predicate Lex<T(==)>(lt: (T, T) -> bool, a: seq<T>, b: seq<T>) {
    if b == [] then false
    else if a == [] then true
    else if a[0] == b[0] then Lex(lt, a[1..], b[1..])
    else lt(a[0], b[0])
  }

  lemma {:induction false} LexIrreflexive<T(!new)>(lt: (T, T) -> bool, a: seq<T>)
    ensures !Lex(lt, a, a)
  {
    if a != [] {
      LexIrreflexive(lt, a[1..]);
    }
  }

  lemma {:induction false} LexTotal<T(!new)>(lt: (T, T) -> bool, a: seq<T>, b: seq<T>)
    requires StrictTotal(lt)
    ensures a == b || Lex(lt, a, b) || Lex(lt, b, a)
  {
    if a != [] && b != [] && a[0] == b[0] {
      LexTotal(lt, a[1..], b[1..]);
      if a[1..] == b[1..] {
        assert a == [a[0]] + a[1..] && b == [b[0]] + b[1..];
      }
    }
  }

  lemma {:induction false} LexTransitive<T(!new)>(lt: (T, T) -> bool, a: seq<T>, b: seq<T>, c: seq<T>)
    requires StrictTotal(lt) && Lex(lt, a, b) && Lex(lt, b, c)
    ensures Lex(lt, a, c)
  {
    if a != [] && a[0] == b[0] && b[0] == c[0] {
      LexTransitive(lt, a[1..], b[1..], c[1..]);
    }
  }

  lemma LexStrictTotal<T(!new)>(lt: (T, T) -> bool)
    requires StrictTotal(lt)
    ensures StrictTotal((a: seq<T>, b: seq<T>) => Lex(lt, a, b))
  {
    forall a: seq<T> ensures !Lex(lt, a, a) { LexIrreflexive(lt, a); }
    forall a: seq<T>, b: seq<T> ensures a == b || Lex(lt, a, b) || Lex(lt, b, a) { LexTotal(lt, a, b); }
    forall a: seq<T>, b: seq<T>, c: seq<T> | Lex(lt, a, b) && Lex(lt, b, c) ensures Lex(lt, a, c) {
      LexTransitive(lt, a, b, c);
    }
  }

  predicate CharLess(a: char, b: char) { a < b }

  predicate StringLess(a: string, b: string) { Lex(CharLess, a, b) }

  lemma StringLessStrictTotal()
    ensures StrictTotal(StringLess)
  {
    LexStrictTotal(CharLess);
    forall a: string, b: string ensures a == b || StringLess(a, b) || StringLess(b, a) { LexTotal(CharLess, a, b); }
    forall a: string ensures !StringLess(a, a) { LexIrreflexive(CharLess, a); }
    forall a: string, b: string, c: string | StringLess(a, b) && StringLess(b, c) ensures StringLess(a, c) {
      LexTransitive(CharLess, a, b, c);
    }
  }
}
