/** How many workgroups a launch is. */
module Launch {
  import opened Options

  datatype LaunchError = NotAWholeWorkgroup(count: nat, width: nat)

  /** Rounded up. */
  function DivCeil(n: nat, d: nat): (r: nat)
    requires d > 0
    ensures (n > 0 ==> (r - 1) * d < n) && n <= r * d && (n == 0 ==> r == 0)
  {
    Rounds(n, d);
    if n % d == 0 then n / d else n / d + 1
  }

  lemma Rounds(n: nat, d: nat)
    requires d > 0
    ensures n == n / d * d + n % d
    ensures n % d == 0 && n > 0 ==> (n / d - 1) * d < n
    ensures n % d != 0 ==> n / d * d < n < (n / d + 1) * d
  {
    assert (n / d - 1) * d == n / d * d - d;
    assert (n / d + 1) * d == n / d * d + d;
  }

  /** `launch_workgroups`: a launch with a barrier is refused unless it is a whole number of workgroups. */
  function Workgroups(count: nat, width: nat, stages: bool): Result<nat, LaunchError>
    requires width > 0
  {
    if stages && count % width != 0 then Failure(NotAWholeWorkgroup(count, width)) else Success(DivCeil(count, width))
  }

  function Padded(count: nat, width: nat): nat
    requires width > 0
  {
    DivCeil(count, width) * width
  }

  /** The padding is less than one workgroup, and nothing is launched exactly for nothing. */
  lemma PaddingIsShort(count: nat, width: nat)
    requires width > 0
    ensures count <= Padded(count, width) && (count > 0 ==> Padded(count, width) < count + width)
    ensures Padded(count, width) == 0 <==> count == 0
  {
    var groups := DivCeil(count, width);
    assert groups * width == (groups - 1) * width + width;
  }
}
