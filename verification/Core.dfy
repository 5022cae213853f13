/** Shared vocabulary: identifiers, options and the error classes every service returns. */
module Core {
  type SellerId = nat
  type OrderId = nat
  type ShipmentId = nat

  /** Clock readings are integers (nanoseconds where the unit matters). */
  type Time = int

  datatype Option<+T> = None | Some(value: T)

  /** The sentinel errors of the core package that the services wrap, a database failure, and errors of no class. */
  datatype Error = NotFound | InvalidArgument | PermissionDenied | Database | Other

  /** Go's integer division: toward zero. */
  function TruncDiv(a: int, b: int): int
    requires b != 0
  {
    if a >= 0 then a / b else -((-a) / b)
  }

  lemma Regroup<T>(a: seq<T>, b: seq<T>, c: seq<T>)
    ensures a + (b + c) == (a + b) + c
  {
  }

  lemma CountedTwice<T>(s: seq<T>, i: nat, j: nat)
    requires i < j < |s| && s[i] == s[j]
    ensures multiset(s)[s[i]] >= 2
  {
    assert s == s[..j] + s[j..];
    assert s[..j][i] in multiset(s[..j]) && s[j..][0] in multiset(s[j..]);
  }

  datatype Outcome = Done | Refused(error: Error)
}
