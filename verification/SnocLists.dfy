/** Lists that grow at the end: the shape of a log, a history or a trace. */
module SnocLists {
  datatype List<T> = Nil | Snoc(init: List<T>, last: T)

  function Length<T>(l: List<T>): nat {
    match l
    case Nil => 0
    case Snoc(init, _) => Length(init) + 1
  }

  function Concat<T>(a: List<T>, b: List<T>): List<T> {
    match b
    case Nil => a
    case Snoc(init, last) => Snoc(Concat(a, init), last)
  }

  /** a is what l was at some earlier time. */
  ghost predicate IsPrefix<T>(a: List<T>, l: List<T>) {
    a == l || (l.Snoc? && IsPrefix(a, l.init))
  }

  lemma {:induction false} PrefixTransitive<T>(a: List<T>, b: List<T>, c: List<T>)
    requires IsPrefix(a, b) && IsPrefix(b, c)
    ensures IsPrefix(a, c)
  {
    if b != c {
      PrefixTransitive(a, b, c.init);
    }
  }

  lemma {:induction false} ConcatNil<T>(l: List<T>)
    ensures Concat(Nil, l) == l
  {
    if l.Snoc? {
      ConcatNil(l.init);
    }
  }

  predicate Contains<T(==)>(l: List<T>, t: T) {
    l.Snoc? && (l.last == t || Contains(l.init, t))
  }
}
