/** Uniform random integers by rejection sampling. The key generator is a sequence of 32-byte blocks; running out of
    blocks stands for its failure. */
module RandomSampling {
  import opened Base

  datatype Error = InvalidBound | RngFailed
  datatype Result<+T> = Ok(value: T) | Err(error: Error)

  const BLOCK := 32
  const MAX_UINT64: int := 0xFFFF_FFFF_FFFF_FFFF
  const MAX_INT: int := 0x7FFF_FFFF_FFFF_FFFF

  // ---------- Big-endian decoding is a bijection ----------

  function Pow256(k: nat): (p: nat)
    ensures p >= 1
  {
    if k == 0 then 1 else 256 * Pow256(k - 1)
  }

  /** The shifts and ors: each byte enters below the ones before it. */
  function Decode(b: seq<byte>): nat {
    if b == [] then 0 else 256 * Decode(b[..|b| - 1]) + b[|b| - 1]
  }

  function Encode(r: nat, k: nat): (b: seq<byte>)
    ensures |b| == k
  {
    if k == 0 then [] else Encode(r / 256, k - 1) + [r % 256]
  }

  lemma {:induction false} DecodeEncode(r: nat, k: nat)
    requires r < Pow256(k)
    ensures Decode(Encode(r, k)) == r
  {
    if k > 0 {
      DecodeEncode(r / 256, k - 1);
      var b := Encode(r, k);
      assert b[..k - 1] == Encode(r / 256, k - 1);
    }
  }

  lemma {:induction false} EncodeDecode(b: seq<byte>)
    ensures Decode(b) < Pow256(|b|) && Encode(Decode(b), |b|) == b
  {
    if b != [] {
      var most, last := b[..|b| - 1], b[|b| - 1];
      EncodeDecode(most);
      assert Decode(b) / 256 == Decode(most) && Decode(b) % 256 == last;
      assert b == most + [last];
    }
  }

  lemma EightBytes()
    ensures Pow256(8) == MAX_UINT64 + 1
  {
    assert Pow256(2) == 0x1_0000;
    assert Pow256(4) == 0x1_0000_0000;
    assert Pow256(6) == 0x1_0000_0000_0000;
  }

  // ---------- Uniformity ----------

  /** Draws from here on are rejected. */
  function Limit(n: int): int
    requires n > 0
  {
    MAX_UINT64 - MAX_UINT64 % n
  }

  lemma LimitIsMultiple(n: int)
    requires 1 < n <= MAX_INT
    ensures Limit(n) == Limit(n) / n * n
    ensures 2 * Limit(n) > MAX_UINT64 + 1
    ensures 0 < Limit(n) / n && Limit(n) <= MAX_UINT64
  {
    var q := MAX_UINT64 / n;
    assert MAX_UINT64 == q * n + MAX_UINT64 % n;
    assert Limit(n) == q * n;
    DivModUnique(q, n, 0);
  }

  lemma NonnegativeProduct(x: int, y: int)
    requires x >= 0 && y >= 0
    ensures x * y >= 0
  {
  }

  lemma LargeMultiple(d: int, n: int)
    requires n > 0 && d != 0
    ensures d * n >= n || d * n <= -n
  {
    if d > 0 {
      NonnegativeProduct(d - 1, n);
      assert d * n == (d - 1) * n + n;
    } else {
      NonnegativeProduct(-d - 1, n);
      assert d * n == -((-d - 1) * n) - n;
    }
  }

  /** Quotient and remainder are determined. */
  lemma DivModUnique(k: int, n: int, v: int)
    requires 0 <= v < n
    ensures (k * n + v) / n == k && (k * n + v) % n == v
  {
    var r := k * n + v;
    var d := k - r / n;
    assert r == r / n * n + r % n;
    assert d * n == k * n - r / n * n;
    if d != 0 { LargeMultiple(d, n); }
  }

  /** The inputs k·n + v for k below m, as byte strings. */
  function Inputs(n: nat, v: nat, m: nat): set<seq<byte>> {
    if m == 0 then {} else Inputs(n, v, m - 1) + {Encode((m - 1) * n + v, 8)}
  }

  lemma {:induction false} InputsMembers(n: nat, v: nat, m: nat, b: seq<byte>)
    ensures b in Inputs(n, v, m) <==> exists k: nat :: k < m && b == Encode(k * n + v, 8)
  {
    if m > 0 { InputsMembers(n, v, m - 1, b); }
  }

  lemma ProductBound(k: nat, m: nat, n: nat, v: nat)
    requires k < m && v < n
    ensures k * n + v < m * n
  {
    NonnegativeProduct(m - k - 1, n);
    assert m * n == k * n + (m - k - 1) * n + n;
  }

  lemma EncodedInjective(k: nat, l: nat, m: nat, n: nat, v: nat)
    requires k < m && l < m && v < n && m * n <= Pow256(8) && Encode(k * n + v, 8) == Encode(l * n + v, 8)
    ensures k == l
  {
    hide Encode, Pow256;
    ProductBound(k, m, n, v);
    ProductBound(l, m, n, v);
    DecodeEncode(k * n + v, 8);
    DecodeEncode(l * n + v, 8);
    DivModUnique(k, n, v);
    DivModUnique(l, n, v);
  }

  lemma {:induction false} InputsCount(n: nat, v: nat, m: nat)
    requires v < n && m * n <= Pow256(8)
    ensures |Inputs(n, v, m)| == m
  {
    hide Encode, Pow256;
    if m > 0 {
      var b := Encode((m - 1) * n + v, 8);
      assert (m - 1) * n == m * n - n;
      InputsCount(n, v, m - 1);
      InputsMembers(n, v, m - 1, b);
      if b in Inputs(n, v, m - 1) {
        var k: nat :| k < m - 1 && b == Encode(k * n + v, 8);
        EncodedInjective(k, m - 1, m, n, v);
      }
    }
  }

  /** A draw is used, and gives `v`. */
  predicate Yields(n: int, b: seq<byte>, v: int)
    requires n > 0
  {
    |b| == 8 && Decode(b) < Limit(n) && Decode(b) % n == v
  }

  lemma QuotientBound(r: nat, q: nat, n: nat)
    requires n > 0 && r < q * n
    ensures r / n < q && r == r / n * n + r % n
  {
    var d := r / n - q;
    assert d * n == r / n * n - q * n;
    if d >= 0 { NonnegativeProduct(d, n); }
  }

  /** Exactly uniform: whatever the bound, each value is given by the same number of 8-byte draws. */
  lemma RejectionIsUniform(n: int, v: int)
    requires 1 < n <= MAX_INT && 0 <= v < n
    ensures var draws := Inputs(n, v, Limit(n) / n);
      && |draws| == Limit(n) / n
      && forall b :: b in draws <==> Yields(n, b, v)
  {
    hide Inputs, Encode, Decode, Limit;
    LimitIsMultiple(n);
    EightBytes();
    var q := Limit(n) / n;
    InputsCount(n, v, q);
    forall b ensures b in Inputs(n, v, q) <==> Yields(n, b, v) {
      InputsMembers(n, v, q, b);
      if b in Inputs(n, v, q) {
        var k: nat :| k < q && b == Encode(k * n + v, 8);
        ProductBound(k, q, n, v);
        DecodeEncode(k * n + v, 8);
        DivModUnique(k, n, v);
      }
      if Yields(n, b, v) {
        QuotientBound(Decode(b), q, n);
        EncodeDecode(b);
        assert b == Encode(Decode(b) / n * n + v, 8);
      }
    }
  }

  /** The 8-byte draws below m. */
  lemma DrawsBelow(m: nat)
    requires m <= Pow256(8)
    ensures |Inputs(1, 0, m)| == m && forall b :: b in Inputs(1, 0, m) <==> |b| == 8 && Decode(b) < m
  {
    hide Encode, Decode, Pow256, Inputs;
    InputsCount(1, 0, m);
    forall b ensures b in Inputs(1, 0, m) <==> |b| == 8 && Decode(b) < m {
      InputsMembers(1, 0, m, b);
      if b in Inputs(1, 0, m) {
        var k: nat :| k < m && b == Encode(k * 1 + 0, 8);
        DecodeEncode(k, 8);
      }
      if |b| == 8 && Decode(b) < m {
        EncodeDecode(b);
        assert b == Encode(Decode(b) * 1 + 0, 8);
      }
    }
  }

  /** More than half of all 8-byte draws are accepted. */
  lemma MostDrawsAccepted(n: int)
    requires 1 < n <= MAX_INT
    ensures var accepted, all := Inputs(1, 0, Limit(n)), Inputs(1, 0, Pow256(8));
      && (forall b :: b in accepted <==> exists v :: 0 <= v < n && Yields(n, b, v))
      && (forall b :: b in all <==> |b| == 8)
      && 2 * |accepted| > |all|
  {
    hide Inputs, Encode, Decode, Limit, Pow256;
    LimitIsMultiple(n);
    EightBytes();
    DrawsBelow(Limit(n));
    DrawsBelow(Pow256(8));
    forall b ensures b in Inputs(1, 0, Limit(n)) <==> exists v :: 0 <= v < n && Yields(n, b, v) {
      if |b| == 8 && Decode(b) < Limit(n) { assert Yields(n, b, Decode(b) % n); }
    }
    forall b ensures b in Inputs(1, 0, Pow256(8)) <==> |b| == 8 { if |b| == 8 { EncodeDecode(b); } }
  }

  // ---------- The sampling methods ----------

  ghost predicate BlocksOk(blocks: seq<seq<byte>>) {
    forall b | b in blocks :: |b| == BLOCK
  }

  /** How many blocks fill `length` bytes. */
  function Needed(length: nat): nat {
    (length + BLOCK - 1) / BLOCK
  }

  /** FillRandomBytes: copy whole blocks at growing offsets, the last one only as far as there is room. */
  method FillRandomBytes(dst: array<byte>, blocks: seq<seq<byte>>) returns (ok: bool)
    requires BlocksOk(blocks)
    modifies dst
    ensures ok <==> Needed(dst.Length) <= |blocks|
    ensures ok ==> forall i | 0 <= i < dst.Length :: i / BLOCK < |blocks| && dst[i] == blocks[i / BLOCK][i % BLOCK]
  {
    var offset, used := 0, 0;
    while offset < dst.Length
      invariant 0 <= offset <= dst.Length && used <= |blocks|
      invariant offset == dst.Length || offset == used * BLOCK
      invariant used == Needed(offset)
      invariant forall i | 0 <= i < offset :: i / BLOCK < used && dst[i] == blocks[i / BLOCK][i % BLOCK]
    {
      if used == |blocks| { return false; }
      var block := blocks[used];
      var n := if dst.Length - offset < BLOCK then dst.Length - offset else BLOCK;
      CopyBlock(dst, offset, block, n);
      offset, used := offset + n, used + 1;
    }
    ok := true;
  }

  /** The copy built-in. */
  method CopyBlock(dst: array<byte>, offset: nat, block: seq<byte>, n: nat)
    requires offset + n <= dst.Length && n <= |block|
    modifies dst
    ensures forall i | 0 <= i < offset || offset + n <= i < dst.Length :: dst[i] == old(dst[i])
    ensures forall i | offset <= i < offset + n :: dst[i] == block[i - offset]
  {
    for k := 0 to n
      invariant forall i | 0 <= i < offset || offset + k <= i < dst.Length :: dst[i] == old(dst[i])
      invariant forall i | offset <= i < offset + k :: dst[i] == block[i - offset]
    {
      dst[offset + k] := block[k];
    }
  }

  /** RandomBytes. */
  method RandomBytes(length: int, blocks: seq<seq<byte>>) returns (r: Result<seq<byte>>)
    requires BlocksOk(blocks)
    ensures length < 0 <==> r == Err(InvalidBound)
    ensures length >= 0 ==> (r.Ok? <==> Needed(length) <= |blocks|)
    ensures r.Ok? ==> |r.value| == length && forall i | 0 <= i < length ::
              i / BLOCK < |blocks| && r.value[i] == blocks[i / BLOCK][i % BLOCK]
  {
    if length < 0 { return Err(InvalidBound); }
    var out := new byte[length];
    var ok := FillRandomBytes(out, blocks);
    r := if ok then Ok(out[..]) else Err(RngFailed);
  }

  /** The value a block gives, unless it is rejected. */
  function Sample(n: int, block: seq<byte>): Option<int>
    requires n > 0 && |block| == BLOCK
  {
    var r := Decode(block[..8]);
    if r < Limit(n) then Some(r % n) else None
  }

  /** RandomIntN: the first block that is not rejected decides. */
  method RandomIntN(n: int, blocks: seq<seq<byte>>) returns (r: Result<int>)
    requires n <= MAX_INT && BlocksOk(blocks)
    ensures r == Err(InvalidBound) <==> n <= 0
    ensures r.Ok? ==> 0 <= r.value < n
    ensures n > 1 && r.Ok? ==> exists j :: 0 <= j < |blocks| && Sample(n, blocks[j]) == Some(r.value)
                                && forall i | 0 <= i < j :: Sample(n, blocks[i]).None?
    ensures n > 1 && r.Err? ==> forall i | 0 <= i < |blocks| :: Sample(n, blocks[i]).None?
  {
    hide Decode, Limit;
    if n <= 0 { return Err(InvalidBound); }
    if n == 1 { return Ok(0); }
    var j := 0;
    while j < |blocks|
      invariant 0 <= j <= |blocks| && forall i | 0 <= i < j :: Sample(n, blocks[i]).None?
    {
      var b := RandomBytes(8, blocks[j..j + 1]);
      assert forall i | 0 <= i < 8 :: i / BLOCK == 0 && i % BLOCK == i;
      assert b.value == blocks[j][..8];
      var v := Decode(b.value);
      if v < Limit(n) {
        assert Sample(n, blocks[j]) == Some(v % n);
        return Ok(v % n);
      }
      j := j + 1;
    }
    r := Err(RngFailed);
  }
}
