/** Types shared by the modules of the model. */
module Common {

  /** Unix milliseconds on the map clock. */
  type TimeMs = int

  const MINUTE: TimeMs := 60_000
  const HOUR: TimeMs := 60 * MINUTE

  /** A gone followed by a sample of its journey within this time is a handoff. */
  const HANDOFF_WINDOW: TimeMs := 10_000

  datatype Option<+T> = None | Some(value: T)

  function Min(a: int, b: int): int { if a <= b then a else b }

  function Max(a: int, b: int): int { if a >= b then a else b }

  lemma Nonempty(s: set<TimeMs>)
    ensures s == {} || exists x :: x in s
  {
    if forall x :: x !in s { assert s == {}; }
  }

  /** The least of a set of times. */
  method Least(s: set<TimeMs>) returns (m: TimeMs)
    requires s != {}
    ensures m in s && forall x <- s :: m <= x
  {
    Nonempty(s);
    m :| m in s;
    var rest := s;
    while rest != {}
      invariant rest <= s && m in s && forall x <- s :: x in rest || m <= x
      decreases rest
    {
      Nonempty(rest);
      var x :| x in rest;
      if x < m {
        m := x;
      }
      rest := rest - {x};
    }
  }
}
