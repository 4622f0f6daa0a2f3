/** int.from_bytes, in both byte orders, and its inverse. */
module Endian {
  type byte = x: int | 0 <= x < 256

  /** 256 to the k */
  function Range(k: nat): (r: nat)
    ensures r >= 1
  {
    if k == 0 then 1 else 256 * Range(k - 1)
  }

  function Little(bs: seq<byte>): (n: nat)
    ensures n < Range(|bs|)
  {
    if bs == [] then 0 else bs[0] + 256 * Little(bs[1..])
  }

  function Big(bs: seq<byte>): (n: nat)
    ensures n < Range(|bs|)
  {
    if bs == [] then 0 else 256 * Big(bs[..|bs| - 1]) + bs[|bs| - 1]
  }

  /** The lowest k bytes of n, least significant first. */
  function LittleBytes(n: nat, k: nat): (bs: seq<byte>)
    ensures |bs| == k
  {
    if k == 0 then [] else [n % 256] + LittleBytes(n / 256, k - 1)
  }

  function BigBytes(n: nat, k: nat): (bs: seq<byte>)
    ensures |bs| == k
  {
    if k == 0 then [] else BigBytes(n / 256, k - 1) + [n % 256]
  }

  lemma {:induction false} LittleRoundTrip(n: nat, k: nat)
    requires n < Range(k)
    ensures Little(LittleBytes(n, k)) == n
  {
    if k > 0 {
      LittleRoundTrip(n / 256, k - 1);
      assert LittleBytes(n, k)[1..] == LittleBytes(n / 256, k - 1);
    }
  }

  lemma {:induction false} LittleUnique(bs: seq<byte>)
    ensures LittleBytes(Little(bs), |bs|) == bs
  {
    if bs != [] {
      LittleUnique(bs[1..]);
      assert Little(bs) / 256 == Little(bs[1..]) && Little(bs) % 256 == bs[0];
      assert bs == [bs[0]] + bs[1..];
    }
  }

  lemma {:induction false} BigRoundTrip(n: nat, k: nat)
    requires n < Range(k)
    ensures Big(BigBytes(n, k)) == n
  {
    if k > 0 {
      BigRoundTrip(n / 256, k - 1);
      assert BigBytes(n, k)[..k - 1] == BigBytes(n / 256, k - 1);
    }
  }

  lemma {:induction false} BigUnique(bs: seq<byte>)
    ensures BigBytes(Big(bs), |bs|) == bs
  {
    if bs != [] {
      var init, last := bs[..|bs| - 1], bs[|bs| - 1];
      BigUnique(init);
      assert Big(bs) / 256 == Big(init) && Big(bs) % 256 == last;
      assert bs == init + [last];
    }
  }
}
