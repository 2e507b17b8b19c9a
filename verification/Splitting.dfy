/** The result of cutting items off a buffered stream: the items, and what stays buffered. */
module Splitting {
  datatype Cut<T> = Cut(items: seq<seq<T>>, rest: seq<T>)

  function Prepend<T>(item: seq<T>, c: Cut<T>): Cut<T> {
    Cut([item] + c.items, c.rest)
  }

  // What c cut off, then what was cut off later.
  function Then<T>(c: Cut<T>, later: Cut<T>): Cut<T> {
    Cut(c.items + later.items, later.rest)
  }

  lemma ThenNothing<T>(c: Cut<T>)
    ensures Then(c, Cut([], c.rest)) == c
    ensures forall rest :: Then(Cut([], rest), c) == c
  {
  }

  lemma ThenPrepend<T>(item: seq<T>, c: Cut<T>, later: Cut<T>)
    ensures Then(Prepend(item, c), later) == Prepend(item, Then(c, later))
  {
  }

  lemma ThenPush<T>(items: seq<seq<T>>, item: seq<T>, later: Cut<T>)
    ensures Then(Cut(items + [item], []), later) == Then(Cut(items, []), Prepend(item, later))
  {
  }
}
