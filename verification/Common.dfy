/** What several modules share: an optional value, page limits and sequence algebra. */
module Common {

  datatype Option<+T> = None | Some(value: T)

  function Elements<T(==)>(s: seq<T>): set<T> {
    set x | x in s
  }

  /** A requested limit, kept between 1 and 500. */
  function Clamp(limit: int): (r: nat)
    ensures 1 <= r <= 500 && (r < limit ==> r == 500) && (limit < r ==> r == 1)
  {
    if limit > 500 then 500 else if limit < 1 then 1 else limit
  }

  lemma HeadAndRest<T>(s: seq<T>)
    requires s != []
    ensures s == [s[0]] + s[1..]
  {}

  lemma LeftUnit<T>(s: seq<T>)
    ensures [] + s == s
  {}

  lemma Assoc<T>(a: seq<T>, b: seq<T>, c: seq<T>)
    ensures a + (b + c) == (a + b) + c
  {}
}
