/** Bytes, and the fixed-width integers and slices of integers written with them. */
module Bytes {
  import opened Arithmetic
  import opened Common
  import opened Sums

  type Byte = x: int | 0 <= x < 256

  function Pow256(w: nat): (p: nat)
    ensures p >= 1
  {
    if w == 0 then 1 else 256 * Pow256(w - 1)
  }

  // ---------------------------------------------------------------- little endian

  /** The w lowest bytes of n, lowest first. */
  function LE(n: nat, w: nat): (bs: seq<Byte>)
    ensures |bs| == w
  {
    if w == 0 then [] else [n % 256] + LE(n / 256, w - 1)
  }

  function FromLE(bs: seq<Byte>): nat {
    if bs == [] then 0 else bs[0] + 256 * FromLE(bs[1..])
  }

  /** Writing and reading a number gives it back when it fits. */
  lemma {:induction false} LERoundTrip(n: nat, w: nat)
    requires n < Pow256(w)
    ensures FromLE(LE(n, w)) == n
  {
    if w > 0 {
      LERoundTrip(n / 256, w - 1);
      assert LE(n, w)[1..] == LE(n / 256, w - 1);
    }
  }

  lemma {:induction false} FromLEFits(bs: seq<Byte>)
    ensures FromLE(bs) < Pow256(|bs|)
  {
    if bs != [] {
      FromLEFits(bs[1..]);
    }
  }

  lemma DivideTwice(n: nat, a: nat, b: nat)
    requires a >= 1 && b >= 1
    ensures a * b >= 1 && n / a / b == n / (a * b)
  {
    MulAtLeast(b, a);
    var q, r := n / a, n % a;
    var q', r' := q / b, q % b;
    DivModDef(n, a);
    DivModDef(q, b);
    MulMonotone(r' + 1, b, a);
    MulDistributes(r' + 1, 1, a);
    assert q * a == (q' * b + r') * a == q' * (a * b) + r' * a;
    DivModUnique(n, a * b, q', r' * a + r);
  }

  /** Byte i has the weight 256 to the power i. */
  lemma {:induction false} LEByte(n: nat, w: nat, i: nat)
    requires i < w
    ensures LE(n, w)[i] == n / Pow256(i) % 256
  {
    if i > 0 {
      LEByte(n / 256, w - 1, i - 1);
      DivideTwice(n, 256, Pow256(i - 1));
    }
  }

  lemma {:induction false} FromLEAppend(bs: seq<Byte>, b: Byte)
    ensures FromLE(bs + [b]) == FromLE(bs) + b * Pow256(|bs|)
  {
    if bs == [] {
      assert bs + [b] == [b];
    } else {
      assert (bs + [b])[1..] == bs[1..] + [b];
      FromLEAppend(bs[1..], b);
      assert 256 * (b * Pow256(|bs| - 1)) == b * Pow256(|bs|);
    }
  }

  function Weighted(bs: seq<Byte>): (r: seq<int>)
    ensures |r| == |bs| && forall i :: 0 <= i < |bs| ==> r[i] == bs[i] * Pow256(i)
  {
    seq(|bs|, i requires 0 <= i < |bs| => bs[i] * Pow256(i))
  }

  /** Reading adds the bytes up with their weights. */
  lemma {:induction false} FromLEIsSum(bs: seq<Byte>)
    ensures FromLE(bs) == Sum(Weighted(bs))
  {
    if bs != [] {
      var n := |bs| - 1;
      FromLEIsSum(bs[..n]);
      FromLEAppend(bs[..n], bs[n]);
      assert bs == bs[..n] + [bs[n]];
      assert Weighted(bs)[..n] == Weighted(bs[..n]);
    }
  }

  /** A number that does not fit is never read back. */
  lemma LERoundTripIff(n: nat, w: nat)
    ensures FromLE(LE(n, w)) == n <==> n < Pow256(w)
  {
  }

  lemma Powers()
    ensures Pow256(1) == 256 && Pow256(2) == 0x1_0000 && Pow256(4) == 0x1_0000_0000 &&
            Pow256(8) == 0x1_0000_0000_0000_0000
  {
  }

  // ---------------------------------------------------------------- big endian

  function BE(n: nat, w: nat): (bs: seq<Byte>)
    ensures |bs| == w
  {
    if w == 0 then [] else BE(n / 256, w - 1) + [n % 256]
  }

  function FromBE(bs: seq<Byte>): nat {
    if bs == [] then 0 else 256 * FromBE(bs[..|bs| - 1]) + bs[|bs| - 1]
  }

  lemma {:induction false} BERoundTrip(n: nat, w: nat)
    requires n < Pow256(w)
    ensures FromBE(BE(n, w)) == n
  {
    if w > 0 {
      BERoundTrip(n / 256, w - 1);
      assert BE(n, w)[..w - 1] == BE(n / 256, w - 1);
    }
  }

  lemma {:induction false} BEByte(n: nat, w: nat, i: nat)
    requires i < w
    ensures BE(n, w)[i] == n / Pow256(w - 1 - i) % 256
  {
    if i < w - 1 {
      BEByte(n / 256, w - 1, i);
      DivideTwice(n, 256, Pow256(w - 2 - i));
    }
  }

  /** The bytes of a sequence number. */
  function EncodeSeq(seqNum: nat): seq<Byte> {
    BE(seqNum, 8)
  }

  lemma EncodeSeqRoundTrip(seqNum: nat)
    requires seqNum < 0x1_0000_0000_0000_0000
    ensures FromBE(EncodeSeq(seqNum)) == seqNum
  {
    Powers();
    BERoundTrip(seqNum, 8);
  }

  /** The highest byte comes first. */
  lemma EncodeSeqByte(seqNum: nat, i: nat)
    requires i < 8
    ensures |EncodeSeq(seqNum)| == 8 && EncodeSeq(seqNum)[i] == seqNum / Pow256(7 - i) % 256
  {
    BEByte(seqNum, 8, i);
  }

  // ---------------------------------------------------------------- slices of integers

  function Pack(values: seq<nat>, w: nat): (bs: seq<Byte>)
    ensures |bs| == |values| * w
  {
    if values == [] then []
    else
      assert (|values| - 1) * w + w == |values| * w;
      Pack(values[..|values| - 1], w) + LE(values[|values| - 1], w)
  }

  /** Reads n integers of width w. */
  function Unpack(bs: seq<Byte>, n: nat, w: nat): (values: seq<nat>)
    requires |bs| == n * w
    ensures |values| == n
  {
    if n == 0 then []
    else
      assert (n - 1) * w + w == n * w;
      Unpack(bs[..(n - 1) * w], n - 1, w) + [FromLE(bs[(n - 1) * w..])]
  }

  /** The integers follow one another, each with its lowest byte first. */
  lemma {:induction false} PackByte(values: seq<nat>, w: nat, i: nat, j: nat)
    requires i < |values| && j < w
    ensures i * w + j < |values| * w && Pack(values, w)[i * w + j] == values[i] / Pow256(j) % 256
  {
    WidthInside(i, |values|, w);
    var n := |values| - 1;
    if i < n {
      PackByte(values[..n], w, i, j);
    } else {
      LEByte(values[n], w, j);
    }
  }

  lemma UnpackNext(bs: seq<Byte>, n: nat, w: nat, m: nat)
    requires n >= 1 && |bs| == n * w && m == (n - 1) * w && m + w == |bs|
    ensures Unpack(bs, n, w) == Unpack(bs[..m], n - 1, w) + [FromLE(bs[m..m + w])]
  {
    SliceToEnd(bs, m, m + w);
  }

  /** Integer i is read from the i-th group of w bytes, which begins at o. */
  lemma {:induction false} UnpackAt(bs: seq<Byte>, n: nat, w: nat, i: nat, o: nat)
    requires |bs| == n * w && i < n && o == i * w && o + w <= |bs|
    ensures Unpack(bs, n, w)[i] == FromLE(bs[o..o + w])
    decreases n
  {
    MulDistributes(n, 1, w);
    var m := (n - 1) * w;
    UnpackNext(bs, n, w, m);
    if i < n - 1 {
      WidthInside(i, n - 1, w);
      UnpackAt(bs[..m], n - 1, w, i, o);
      SliceOfTake(bs, m, o, o + w);
    }
  }

  lemma SliceOfTake<T>(s: seq<T>, n: nat, i: nat, j: nat)
    requires i <= j <= n <= |s|
    ensures s[..n][i..j] == s[i..j]
  {
  }

  lemma SliceToEnd<T>(s: seq<T>, i: nat, j: nat)
    requires i <= j == |s|
    ensures s[i..] == s[i..j]
  {
  }

  /** The values stand in the bytes one after the other, each in w bytes with the lowest first. */
  ghost predicate IsUnpacked(bs: seq<Byte>, w: nat, values: seq<nat>) {
    && |bs| == |values| * w
    && forall i :: 0 <= i < |values| ==> GroupIs(bs, w, i, values[i])
  }

  predicate GroupIs(bs: seq<Byte>, w: nat, i: nat, value: nat) {
    i * w + w <= |bs| && value == FromLE(bs[i * w..i * w + w])
  }

  lemma UnpackIsUnpacked(bs: seq<Byte>, n: nat, w: nat)
    requires |bs| == n * w
    ensures IsUnpacked(bs, w, Unpack(bs, n, w))
  {
    forall i | 0 <= i < n ensures GroupIs(bs, w, i, Unpack(bs, n, w)[i]) {
      WidthInside(i, n, w);
      UnpackAt(bs, n, w, i, i * w);
    }
  }

  lemma UnpackLast(front: seq<Byte>, last: seq<Byte>, n: nat, w: nat)
    requires |front| == n * w && |last| == w
    ensures |front + last| == (n + 1) * w && Unpack(front + last, n + 1, w) == Unpack(front, n, w) + [FromLE(last)]
  {
  }

  /** A slice of integers that fit their width is read back as it was written. */
  lemma {:induction false} PackRoundTrip(values: seq<nat>, w: nat)
    requires forall i :: 0 <= i < |values| ==> values[i] < Pow256(w)
    ensures Unpack(Pack(values, w), |values|, w) == values
  {
    if values != [] {
      var n := |values| - 1;
      var front, last := Pack(values[..n], w), LE(values[n], w);
      PackRoundTrip(values[..n], w);
      LERoundTrip(values[n], w);
      TwoParts(front, last);
      UnpackLast(front, last, n, w);
      assert values == values[..n] + [values[n]];
    }
  }

  lemma {:induction false} UnpackFits(bs: seq<Byte>, n: nat, w: nat)
    requires |bs| == n * w
    ensures forall i :: 0 <= i < n ==> Unpack(bs, n, w)[i] < Pow256(w)
  {
    if n > 0 {
      assert (n - 1) * w + w == n * w;
      UnpackFits(bs[..(n - 1) * w], n - 1, w);
      FromLEFits(bs[(n - 1) * w..]);
    }
  }

  lemma TwoParts<T>(a: seq<T>, b: seq<T>)
    ensures (a + b)[..|a|] == a && (a + b)[|a|..] == b
  {
  }

  /** What follows a position, once a part that begins there has been read. */
  lemma ReadPart<T>(s: seq<T>, at: nat, part: seq<T>, rest: seq<T>)
    requires at <= |s| && s[at..] == part + rest
    ensures at + |part| <= |s| && s[at..at + |part|] == part && s[at + |part|..] == rest
  {
  }

  method PackSlice(values: seq<nat>, w: nat) returns (bs: seq<Byte>)
    ensures bs == Pack(values, w)
  {
    bs := [];
    TakeAll(values);
    for i := 0 to |values|
      invariant bs == Pack(values[..i], w)
    {
      TakeNext(values, i);
      bs := bs + LE(values[i], w);
    }
  }

  method UnpackSlice(bs: seq<Byte>, n: nat, w: nat) returns (values: seq<nat>)
    requires |bs| == n * w
    ensures values == Unpack(bs, n, w)
  {
    values := [];
    assert bs[..n * w] == bs;
    for i := 0 to n
      invariant i * w <= |bs| && values == Unpack(bs[..i * w], i, w)
    {
      assert i * w + w == (i + 1) * w;
      WidthInside(i, n, w);
      ghost var part := bs[..(i + 1) * w];
      assert part[..i * w] == bs[..i * w];
      assert part[i * w..] == bs[i * w..i * w + w];
      values := values + [FromLE(bs[i * w..i * w + w])];
    }
  }

  lemma WidthInside(i: nat, n: nat, w: nat)
    requires i < n
    ensures i * w + w <= n * w
  {
    MulMonotone(i + 1, n, w);
    MulDistributes(i + 1, 1, w);
  }
}
