/**
 * The windowed cipher (process64): every byte of the output is the input
 * byte at the same absolute offset plus the key octet of that offset's
 * phase (offset mod 3), modulo 256; with a trailer, input bytes past the
 * end of the content read as zero.
 */
module Cipher {
  import opened Octets

  /** How many input bytes process64 reads for `olen` output bytes: all of
      them, or three fewer exactly when the trailer is active. */
  function InputLength(trailer: bool, olen: int): (n: int)
    ensures trailer ==> n == olen - 3
    ensures !trailer ==> n == olen
  {
    if trailer then olen - 3 else olen
  }

  /** The logical input stream: the first InputLength bytes of the input,
      then, with a trailer, three virtual zero bytes. */
  function Stream(inp: seq<Byte>, trailer: bool, olen: int): (s: seq<Byte>)
    requires olen >= 0 && 0 <= InputLength(trailer, olen) <= |inp|
    ensures |s| == olen
    ensures forall i :: 0 <= i < olen ==>
              s[i] == if i < InputLength(trailer, olen) then inp[i] else 0
  {
    inp[..InputLength(trailer, olen)] + (if trailer then [0, 0, 0] else [])
  }

  /** A table entry: octet `j` moved up by key octet `k`, modulo 256. */
  function Entry(j: Byte, k: Byte): (e: Byte)
    ensures (e as int - j as int - k as int) % 256 == 0
  {
    (j as int + k as int) % 256
  }

  /** Each table is a permutation of the octets: distinct octets have
      distinct entries, so the transform loses nothing. */
  lemma EntryInjective(j1: Byte, j2: Byte, k: Byte)
    ensures Entry(j1, k) == Entry(j2, k) <==> j1 == j2
  {
    if Entry(j1, k) == Entry(j2, k) {
      assert (j1 as int - j2 as int) % 256 == 0;
    }
  }

  /** The keyed transform of `s` laid at absolute offset `base`: byte `i`
      moves up by the key octet of phase `(base + i) mod 3`, modulo 256. */
  function Shift(s: seq<Byte>, kb: seq<Byte>, base: nat): (r: seq<Byte>)
    requires |kb| == 3
    ensures |r| == |s|
    ensures forall i :: 0 <= i < |s| ==> (r[i] as int - s[i] as int - kb[(base + i) % 3] as int) % 256 == 0
  {
    seq(|s|, i requires 0 <= i < |s| => Entry(s[i], kb[(base + i) % 3]))
  }

  /** The descrambling key: each non-zero octet `k` becomes `256 - k`. */
  function InvertKey(kb: seq<Byte>): (inv: seq<Byte>)
    requires |kb| == 3 && forall r :: 0 <= r < 3 ==> kb[r] != 0
    ensures |inv| == 3 && forall r :: 0 <= r < 3 ==> inv[r] != 0 && (kb[r] as int + inv[r] as int) % 256 == 0
  {
    [256 - kb[0], 256 - kb[1], 256 - kb[2]]
  }

  /** Splitting a stream anywhere and transforming the two parts at their own
      absolute offsets gives the transform of the whole; this is why the
      output does not depend on where the windows fall. */
  lemma ShiftSplit(a: seq<Byte>, b: seq<Byte>, kb: seq<Byte>, base: nat)
    requires |kb| == 3
    ensures Shift(a + b, kb, base) == Shift(a, kb, base) + Shift(b, kb, base + |a|)
  {
    var whole, left, right := Shift(a + b, kb, base), Shift(a, kb, base), Shift(b, kb, base + |a|);
    forall i | 0 <= i < |a| + |b|
      ensures whole[i] == (left + right)[i]
    {
      if i >= |a| {
        assert (a + b)[i] == b[i - |a|];
        assert base + i == (base + |a|) + (i - |a|);
      }
    }
  }

  /** Transforming with the inverted key undoes the transform at the same
      offsets. */
  lemma {:induction false} ShiftInverse(s: seq<Byte>, kb: seq<Byte>, base: nat)
    requires |kb| == 3 && forall r :: 0 <= r < 3 ==> kb[r] != 0
    ensures Shift(Shift(s, kb, base), InvertKey(kb), base) == s
  {
    var inv := InvertKey(kb);
    var t := Shift(Shift(s, kb, base), inv, base);
    forall i | 0 <= i < |s|
      ensures t[i] == s[i]
    {
      var r := (base + i) % 3;
      calc {
        t[i];
        Entry(Entry(s[i], kb[r]), inv[r]);
        { assert (kb[r] as int + inv[r] as int) % 256 == 0; }
        s[i] as int;
      }
    }
  }

  /** The three 256-entry lookup tables of process64: entry `j` of table `r`
      is `j` moved up by key octet `r`, modulo 256. */
  method Tables(kb: seq<Byte>) returns (pd: array2<Byte>)
    requires |kb| == 3
    ensures fresh(pd) && pd.Length0 == 3 && pd.Length1 == 256
    ensures forall r, j :: 0 <= r < 3 && 0 <= j < 256 ==> pd[r, j] == Entry(j, kb[r])
  {
    pd := new Byte[3, 256];
    for i := 0 to 3
      invariant forall r, j :: 0 <= r < i && 0 <= j < 256 ==> pd[r, j] == Entry(j, kb[r])
    {
      for j := 0 to 256
        invariant forall r, j' :: 0 <= r < i && 0 <= j' < 256 ==> pd[r, j'] == Entry(j', kb[r])
        invariant forall j' :: 0 <= j' < j ==> pd[i, j'] == Entry(j', kb[i])
      {
        pd[i, j] := (j + kb[i] as int) % 256;
      }
    }
  }

  /** One window of process64: `ws` output bytes from `base` on, the first
      `wsi` of them read from the input and the rest from the virtual
      zeros, each looked up in the table of its phase. */
  method Window(inp: seq<Byte>, out: array<Byte>, pd: array2<Byte>, ghost kb: seq<Byte>, ghost s: seq<Byte>,
                base: int, ws: int, wsi: int)
    requires |kb| == 3 && pd.Length0 == 3 && pd.Length1 == 256
    requires forall r, j :: 0 <= r < 3 && 0 <= j < 256 ==> pd[r, j] == Entry(j, kb[r])
    requires 0 <= base && 0 <= wsi <= ws && base + ws <= out.Length && base + ws <= |s|
    requires wsi == 0 || base + wsi <= |inp|
    requires forall p :: base <= p < base + ws ==> s[p] == if p < base + wsi then inp[p] else 0
    modifies out
    ensures forall p :: 0 <= p < out.Length && !(base <= p < base + ws) ==> out[p] == old(out[p])
    ensures forall p :: base <= p < base + ws ==> out[p] == Entry(s[p], kb[p % 3])
  {
    var k := base % 3;
    for i := 0 to ws
      invariant k == (base + i) % 3
      invariant forall p :: 0 <= p < out.Length && !(base <= p < base + i) ==> out[p] == old(out[p])
      invariant forall p :: base <= p < base + i ==> out[p] == Entry(s[p], kb[p % 3])
    {
      var j := 0;
      if i < wsi {
        j := inp[base + i];
      }
      assert j == s[base + i];
      j := pd[k, j];
      k := (k + 1) % 3;
      out[base + i] := j;
    }
  }

  /** process64: builds the three 256-entry tables `(j + kb[r]) mod 256`,
      then walks the output in windows of `winsize` bytes, restarting the
      phase at `base mod 3` at each window and reading a virtual zero for
      every byte past the input. Whatever the window size, the output is the
      transform of the logical stream at offset 0. */
  method Process64(inp: seq<Byte>, out: array<Byte>, key: int, trailer: bool, olen: int, winsize: int)
    requires olen >= 1 && (trailer ==> olen >= 3)
    requires out.Length == olen && InputLength(trailer, olen) <= |inp|
    requires -0x8000_0000 <= key < 0x8000_0000
    requires 0 < winsize < 0x8000_0000
    modifies out
    ensures out[..] == Shift(Stream(inp, trailer, olen), Unpack(key), 0)
  {
    var kb := Unpack(key);
    var pd := Tables(kb);

    ghost var s := Stream(inp, trailer, olen);
    ghost var ilen := InputLength(trailer, olen);
    var base := 0;
    var remc := olen;
    var remi := remc;
    if trailer {
      remi := remi - 3;
    }
    while remc > 0
      modifies out
      invariant 0 <= base <= olen && base + remc == olen
      invariant 0 <= remi && remi == if base <= ilen then ilen - base else 0
      invariant forall p :: 0 <= p < base ==> out[p] == Entry(s[p], kb[p % 3])
      decreases remc
    {
      var ws := winsize;
      if remc < ws {
        ws := remc;
      }
      var wsi := ws;
      if remi < wsi {
        wsi := remi;
      }
      Window(inp, out, pd, kb, s, base, ws, wsi);
      base := base + ws;
      remc := remc - ws;
      remi := remi - ws;
      if remi < 0 {
        remi := 0;
      }
    }
    assert out[..] == Shift(s, kb, 0);
  }
}
