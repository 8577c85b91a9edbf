/** Big-endian byte strings: writing, reading, and cutting down to the low bytes. */
module BigEndian {
  type Byte = b: nat | b < 256

  function ToBeBytes(x: nat, n: nat): (bytes: seq<Byte>)
    ensures |bytes| == n
  {
    if n == 0 then [] else ToBeBytes(x / 256, n - 1) + [x % 256]
  }

  function FromBeSlice(bytes: seq<Byte>): nat {
    if bytes == [] then 0 else FromBeSlice(bytes[..|bytes| - 1]) * 256 + bytes[|bytes| - 1]
  }

  // A number of `width` bytes cut down to its last `kept` bytes.
  function Narrow(x: nat, width: nat, kept: nat): nat
    requires kept <= width
  {
    FromBeSlice(ToBeBytes(x, width)[width - kept..])
  }

  function Pow256(n: nat): nat {
    if n == 0 then 1 else 256 * Pow256(n - 1)
  }

  lemma ScaledQuotient(q: nat, p: nat, r: nat, b: nat)
    ensures 256 * (q * p + r) + b == q * (256 * p) + (r * 256 + b)
  {
    assert q * (256 * p) == 256 * (q * p);
  }

  /** Narrowing splits a number into the kept low bytes and a multiple of their range. */
  lemma {:induction false} NarrowKeepsLowBytes(x: nat, width: nat, kept: nat) returns (dropped: nat)
    requires kept <= width
    ensures x == dropped * Pow256(kept) + Narrow(x, width, kept) && Narrow(x, width, kept) < Pow256(kept)
    decreases kept
  {
    var bytes := ToBeBytes(x, width);
    if kept == 0 {
      assert bytes[width..] == [];
      dropped := x;
    } else {
      var head := ToBeBytes(x / 256, width - 1);
      var left := head[width - kept..];
      assert bytes[width - kept..] == left + [x % 256];
      assert (left + [x % 256])[..kept - 1] == left;
      dropped := NarrowKeepsLowBytes(x / 256, width - 1, kept - 1);
      assert Narrow(x, width, kept) == FromBeSlice(left) * 256 + x % 256;
      ScaledQuotient(dropped, Pow256(kept - 1), FromBeSlice(left), x % 256);
    }
  }

  /** Numbers of n bytes and byte strings of length n are in bijection. */
  lemma {:induction false} BytesOfNumber(x: nat, n: nat)
    requires x < Pow256(n)
    ensures FromBeSlice(ToBeBytes(x, n)) == x
    decreases n
  {
    if n > 0 {
      BytesOfNumber(x / 256, n - 1);
      assert ToBeBytes(x, n)[..n - 1] == ToBeBytes(x / 256, n - 1);
    }
  }

  lemma {:induction false} NumberOfBytes(bytes: seq<Byte>)
    ensures FromBeSlice(bytes) < Pow256(|bytes|)
    ensures ToBeBytes(FromBeSlice(bytes), |bytes|) == bytes
    decreases |bytes|
  {
    if bytes != [] {
      NumberOfBytes(bytes[..|bytes| - 1]);
      assert bytes == bytes[..|bytes| - 1] + [bytes[|bytes| - 1]];
    }
  }
}
