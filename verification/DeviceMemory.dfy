/** What the device's buffers hold. */
module DeviceMemory {
  type Memory = map<nat, seq<int>>

  function Content(m: Memory, h: nat): seq<int> {
    if h in m then m[h] else []
  }

  function Zeros(n: nat): (r: seq<int>)
    ensures |r| == n && forall i :: 0 <= i < n ==> r[i] == 0
  {
    seq(n, _ => 0)
  }
}
