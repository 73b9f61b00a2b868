/** Fixed-width big-endian unsigned integers, as struct packs them. A byte is a character below 256. */
module BigEndian {
  import opened Percent

  type Bytes = seq<char>

  function Pow256(k: nat): (p: nat)
    ensures p >= 1
  {
    if k == 0 then 1 else 256 * Pow256(k - 1)
  }

  /** struct.pack of an unsigned integer of k bytes. */
  function Pack(n: nat, k: nat): (bs: Bytes)
    requires n < Pow256(k)
    ensures |bs| == k && IsBytes(bs)
  {
    if k == 0 then []
    else
      Shorter(n, k);
      Pack(n / 256, k - 1) + [(n % 256) as char]
  }

  lemma Shorter(n: nat, k: nat)
    requires k > 0 && n < Pow256(k)
    ensures n / 256 < Pow256(k - 1)
  {
  }

  function Unpack(bs: Bytes): nat {
    if bs == [] then 0 else Unpack(bs[..|bs| - 1]) * 256 + bs[|bs| - 1] as int
  }

  lemma PackLast(n: nat, k: nat)
    requires k > 0 && n < Pow256(k)
    ensures n / 256 < Pow256(k - 1) && Pack(n, k) == Pack(n / 256, k - 1) + [(n % 256) as char]
  {
    Shorter(n, k);
  }

  lemma PackZero(n: nat)
    requires n < Pow256(0)
    ensures n == 0 && Pack(n, 0) == []
  {
  }

  lemma {:induction false} UnpackPack(n: nat, k: nat)
    requires n < Pow256(k)
    ensures Unpack(Pack(n, k)) == n
  {
    hide Pow256, Pack;
    if k == 0 {
      PackZero(n);
    } else {
      PackLast(n, k);
      UnpackPack(n / 256, k - 1);
      var bs := Pack(n, k);
      assert bs[..|bs| - 1] == Pack(n / 256, k - 1);
    }
  }

  lemma {:induction false} PackUnpack(bs: Bytes)
    requires IsBytes(bs)
    ensures Unpack(bs) < Pow256(|bs|) && Pack(Unpack(bs), |bs|) == bs
  {
    if bs != [] {
      var init, b := bs[..|bs| - 1], bs[|bs| - 1] as int;
      PackUnpack(init);
      assert (Unpack(init) * 256 + b) / 256 == Unpack(init) && (Unpack(init) * 256 + b) % 256 == b;
    }
  }

  lemma Widths()
    ensures Pow256(1) == 0x100 && Pow256(4) == 0x1_0000_0000 && Pow256(8) == 0x1_0000_0000_0000_0000
  {
  }
}
