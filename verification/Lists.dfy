/** Operations of `std::list` that several daemons use. */
module Lists {

  /** `list::remove`: every occurrence goes. */
  function Without<T(==, !new)>(s: seq<T>, x: T): (r: seq<T>)
    ensures forall y :: y in r <==> y in s && y != x
  {
    if s == [] then []
    else
      var init, y := s[..|s| - 1], s[|s| - 1];
      assert s == init + [y];
      if y == x then Without(init, x) else Without(init, x) + [y]
  }

  /** The list without its element at position `k`. */
  function RemoveAt<T>(s: seq<T>, k: nat): seq<T>
    requires k < |s|
  {
    s[..k] + s[k + 1..]
  }
}
