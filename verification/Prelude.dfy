/** Small vocabulary shared by the other modules: bytes, options and sequence facts. */
module Prelude {
  newtype byte = x: int | 0 <= x < 0x100

  datatype Option<+T> = None | Some(value: T)

  /** The NTSTATUS values the modelled code returns or completes requests with. */
  datatype NtStatus =
    | Success
    | InvalidParameter
    | InsufficientResources
    | DeviceNotConnected
    | SharingViolation
    | ObjectNameCollision
    | NotFound
    | BufferTooSmall
    | Cancelled
    | ForwardFailed   // whatever WdfRequestForwardToIoQueue returned when it fails
    | DeviceFailed    // whatever creating a device, a queue or a lock returned when it fails

  function Min(a: nat, b: nat): nat {
    if a < b then a else b
  }

  /** xs is a prefix of ys. */
  ghost predicate IsPrefix<T>(xs: seq<T>, ys: seq<T>) {
    |xs| <= |ys| && xs == ys[..|xs|]
  }

  lemma Assoc<T>(a: seq<T>, b: seq<T>, c: seq<T>)
    ensures a + b + c == a + (b + c)
  {
  }

  lemma Split<T>(s: seq<T>, n: nat)
    requires n <= |s|
    ensures s == s[..n] + s[n..]
  {
  }

  function Concat<T>(xss: seq<seq<T>>): seq<T> {
    if xss == [] then [] else xss[0] + Concat(xss[1..])
  }

  lemma {:induction false} ConcatSnoc<T>(xss: seq<seq<T>>, xs: seq<T>)
    ensures Concat(xss + [xs]) == Concat(xss) + xs
  {
    if xss == [] {
      assert xss + [xs] == [xs];
      assert Concat([xs]) == xs + Concat<T>([]);
    } else {
      assert (xss + [xs])[0] == xss[0];
      assert (xss + [xs])[1..] == xss[1..] + [xs];
      ConcatSnoc(xss[1..], xs);
    }
  }

  function Without<T>(xs: seq<T>, i: nat): (r: seq<T>)
    requires i < |xs|
    ensures |r| == |xs| - 1 && forall k | 0 <= k < |r| :: r[k] == if k < i then xs[k] else xs[k + 1]
  {
    xs[..i] + xs[i+1..]
  }

  lemma WithoutElements<T>(xs: seq<T>, i: nat)
    requires i < |xs|
    ensures multiset(xs) == multiset(Without(xs, i)) + multiset{xs[i]}
    ensures forall x | x in Without(xs, i) :: x in xs
  {
    assert xs == xs[..i] + [xs[i]] + xs[i+1..];
  }
}
