/**
 * Key normalisation (deriveKey): a key string of base64 digits becomes three
 * non-zero octets packed into 24 bits.
 */
module KeyDerivation {
  import opened Octets
  import opened Base64

  /** True when every character of `s` is a base64 digit. */
  predicate AllDigits(s: string) {
    forall i :: 0 <= i < |s| ==> Decode64(s[i] as int) >= 0
  }

  /** A key deriveKey accepts: at least one character, all base64 digits. */
  predicate ValidKey(k: string) {
    |k| >= 1 && AllDigits(k)
  }

  /** A normalised key: a value of 24 bits whose three octets are non-zero. */
  predicate IsNormalized(key: int) {
    0 <= key < 0x100_0000 && forall r :: 0 <= r < 3 ==> Unpack(key)[r] != 0
  }

  /** The three extension characters `ext[]` that pad the last group: the
      key's own first characters, cycling when the key is shorter than 3. */
  function Ext(k: string): (ext: string)
    requires |k| >= 1
    ensures |ext| == 3
    ensures forall i :: 0 <= i < 3 ==> ext[i] == k[i % |k|]
  {
    if |k| == 1 then [k[0], k[0], k[0]]
    else if |k| == 2 then [k[0], k[1], k[0]]
    else k[..3]
  }

  /** The key extended with extension characters to a whole number of
      4-character groups: the `j`-th character added is character
      `j mod |k|` of the key. */
  function Padded(k: string): (p: string)
    requires |k| >= 1
    ensures |p| % 4 == 0 && |k| <= |p| < |k| + 4
    ensures p[..|k|] == k
    ensures forall j :: 0 <= j < |p| - |k| ==> p[|k| + j] == k[j % |k|]
  {
    k + Ext(k)[..(4 - |k| % 4) % 4]
  }

  /** Every character of the padded key is a character of the key. */
  lemma PaddedFromKey(k: string, i: int)
    requires |k| >= 1 && 0 <= i < |Padded(k)|
    ensures Padded(k)[i] in k
  {
    var p := Padded(k);
    if i < |k| {
      assert p[i] == p[..|k|][i] == k[i];
    } else {
      assert p[|k| + (i - |k|)] == k[(i - |k|) % |k|];
    }
  }

  /** The digit values of the characters of `s`. */
  function Digits(s: string): seq<int> {
    seq(|s|, i requires 0 <= i < |s| => Decode64(s[i] as int))
  }

  /** The 24 bits of one group of four base64 digits, first digit in the
      top six bits. */
  function GroupValue(g: string): (v: int)
    requires |g| == 4 && AllDigits(g)
    ensures 0 <= v < 0x100_0000
    ensures v == Decode64(g[0] as int) * 0x4_0000 + Decode64(g[1] as int) * 0x1000
               + Decode64(g[2] as int) * 0x40 + Decode64(g[3] as int)
  {
    var d := Digits(g);
    assert d[..3][..2] == d[..2] && d[..2][..1] == d[..1] && d[..1][..0] == [];
    assert BigEndian(d[..1], 64) == d[0];
    assert BigEndian(d[..2], 64) == d[0] * 64 + d[1];
    assert BigEndian(d[..3], 64) == (d[0] * 64 + d[1]) * 64 + d[2];
    BigEndian(d, 64)
  }

  /** Exclusive or of two 24-bit values. */
  function Xor24(a: int, b: int): (r: int)
    requires 0 <= a < 0x100_0000 && 0 <= b < 0x100_0000
    ensures 0 <= r < 0x100_0000
  {
    Pow2Of24();
    Xor(a, b)
  }

  /** The XOR of the values of the 4-character groups of `p`, folded from
      the left. */
  function Mix(p: string): (m: int)
    requires |p| % 4 == 0 && AllDigits(p)
    ensures 0 <= m < 0x100_0000
    decreases |p|
  {
    if p == [] then 0
    else Xor24(Mix(p[..|p| - 4]), GroupValue(p[|p| - 4..]))
  }

  /** Replaces a zero first, second or third octet by 1, 2 or 4. */
  function NonZero(cbc: seq<Byte>): (r: seq<Byte>)
    requires |cbc| == 3
    ensures |r| == 3
    ensures forall i :: 0 <= i < 3 ==> r[i] != 0 && (cbc[i] != 0 ==> r[i] == cbc[i])
  {
    [if cbc[0] == 0 then 1 else cbc[0],
     if cbc[1] == 0 then 2 else cbc[1],
     if cbc[2] == 0 then 4 else cbc[2]]
  }

  /** A group that lies inside the key is four of the key's own characters. */
  lemma InnerGroup(k: string, pos: int)
    requires 0 <= pos && pos % 4 == 0 && pos + 4 <= |k|
    ensures Padded(k)[pos..pos + 4] == k[pos..pos + 4]
    ensures pos + 4 == |k| ==> |Padded(k)| == |k|
  {
    var p := Padded(k);
    assert p[..|k|][pos..pos + 4] == p[pos..pos + 4];
  }

  /** The last group of a key whose length is not a multiple of 4: the key's
      remaining characters followed by extension characters. */
  lemma LastGroup(k: string, pos: int)
    requires 0 <= pos && pos % 4 == 0 && pos < |k| < pos + 4
    ensures |Padded(k)| == pos + 4
    ensures Padded(k)[pos..pos + 4] == k[pos..|k|] + Ext(k)[..4 - (|k| - pos)]
  {
    var r := |k| - pos;
    assert |k| == 4 * (pos / 4) + r;
    assert |k| % 4 == r;
    var e := Ext(k)[..4 - r];
    assert Padded(k) == k + e;
    assert (k + e)[pos..pos + 4] == k[pos..] + e;
  }

  lemma PaddedDigits(k: string)
    requires ValidKey(k)
    ensures AllDigits(Padded(k))
  {
    var p := Padded(k);
    forall i | 0 <= i < |p|
      ensures Decode64(p[i] as int) >= 0
    {
      PaddedFromKey(k, i);
    }
  }

  /** What deriveKey returns: -1 for a key that is empty or holds a
      character that is not a base64 digit, otherwise the normalised XOR
      fold of the padded key's groups. */
  function KeyNorm(k: string): (key: int)
    ensures key == -1 <==> !ValidKey(k)
    ensures key != -1 ==> IsNormalized(key)
  {
    if !ValidKey(k) then -1
    else
      PaddedDigits(k);
      Pack(NonZero(Unpack(Mix(Padded(k)))))
  }

  /** Folding one more group into the XOR of the groups before it. */
  lemma MixStep(p: string, n: int)
    requires 0 <= n && n % 4 == 0 && n + 4 <= |p|
    requires AllDigits(p[..n]) && AllDigits(p[n..n + 4])
    ensures AllDigits(p[..n + 4])
    ensures Mix(p[..n + 4]) == Xor24(Mix(p[..n]), GroupValue(p[n..n + 4]))
  {
    var q := p[..n + 4];
    assert q[..n] == p[..n] && q[n..] == p[n..n + 4];
    forall i | 0 <= i < n + 4
      ensures Decode64(q[i] as int) >= 0
    {
      if i < n {
        assert q[i] == p[..n][i];
      } else {
        assert q[i] == p[n..n + 4][i - n];
      }
    }
  }

  /** The inner loop of deriveKey: decodes four characters into 24 bits,
      `acc = (acc << 6) | d` per digit, and stops at the first character that
      is not a base64 digit. */
  method DecodeGroup(b64: string) returns (ok: bool, acc: int)
    requires |b64| == 4
    ensures ok <==> AllDigits(b64)
    ensures ok ==> acc == GroupValue(b64)
  {
    ok := true;
    acc := 0;
    for i := 0 to 4
      invariant forall j :: 0 <= j < i ==> Decode64(b64[j] as int) >= 0
      invariant acc == BigEndian(Digits(b64[..i]), 64)
    {
      var d := Decode64(b64[i] as int);
      if d < 0 {
        ok := false;
        break;
      }
      assert Digits(b64[..i + 1])[..i] == Digits(b64[..i]);
      acc := acc * 64 + d;
    }
    if ok {
      assert b64[..4] == b64;
    }
  }

  /** One step of the group loop: the next four characters from `pos`, the
      last group padded with `ext[]`, and how far `pos` advances. */
  method NextGroup(pKey: string, ext: string, pos: int, slen: int) returns (b64: string, adv: int)
    requires 0 <= pos < |pKey| && pos % 4 == 0 && slen == |pKey| - pos && ext == Ext(pKey)
    ensures pos + 4 <= |Padded(pKey)| && b64 == Padded(pKey)[pos..pos + 4]
    ensures adv == if slen < 4 then slen else 4
    ensures pos + adv == |pKey| ==> |Padded(pKey)| == pos + 4
  {
    if slen == 1 {
      b64 := pKey[pos..pos + 1] + ext[..3];
      LastGroup(pKey, pos);
      adv := 1;
    } else if slen == 2 {
      b64 := pKey[pos..pos + 2] + ext[..2];
      LastGroup(pKey, pos);
      adv := 2;
    } else if slen == 3 {
      b64 := pKey[pos..pos + 3] + ext[..1];
      LastGroup(pKey, pos);
      adv := 3;
    } else {
      b64 := pKey[pos..pos + 4];
      InnerGroup(pKey, pos);
      adv := 4;
    }
  }

  /** A group of the padded key with a character that is not a digit means
      the key itself has one. */
  lemma BadGroup(pKey: string, n: int)
    requires |pKey| >= 1 && 0 <= n && n + 4 <= |Padded(pKey)|
    requires !AllDigits(Padded(pKey)[n..n + 4])
    ensures !AllDigits(pKey)
  {
    var g := Padded(pKey)[n..n + 4];
    var i :| 0 <= i < 4 && Decode64(g[i] as int) < 0;
    assert g[i] == Padded(pKey)[n + i];
    PaddedFromKey(pKey, n + i);
  }

  /** The group loop of deriveKey: walks the key four characters at a time,
      padding the last group with `ext[]`, and XORs each decoded group into
      `mixed`; stops at the first character that is not a base64 digit. */
  method MixGroups(pKey: string, ext: string) returns (ok: bool, mixed: int)
    requires |pKey| >= 1 && ext == Ext(pKey)
    ensures ok <==> AllDigits(pKey)
    ensures ok ==> AllDigits(Padded(pKey)) && mixed == Mix(Padded(pKey))
  {
    ok := true;
    mixed := 0;
    var slen := |pKey|;
    ghost var p := Padded(pKey);
    ghost var done := 0;  // characters of p folded into mixed so far
    var pos := 0;         // how far pKey has been advanced
    while slen > 0
      invariant 0 <= pos <= |pKey| && slen == |pKey| - pos
      invariant 0 <= done <= |p| && done % 4 == 0
      invariant slen > 0 ==> done == pos
      invariant slen == 0 ==> done == |p|
      invariant ok && AllDigits(p[..done]) && mixed == Mix(p[..done])
      decreases slen
    {
      var b64, adv := NextGroup(pKey, ext, pos, slen);
      slen, pos := slen - adv, pos + adv;
      assert done + 4 <= |p| && (done + 4) % 4 == 0;

      var acc;
      ok, acc := DecodeGroup(b64);
      if !ok {
        BadGroup(pKey, done);
        break;
      }
      MixStep(p, done);
      mixed := Xor24(mixed, acc);
      done := done + 4;
    }
    if ok {
      assert p[..done] == p;
      assert AllDigits(pKey) by {
        forall i | 0 <= i < |pKey|
          ensures Decode64(pKey[i] as int) >= 0
        {
          assert pKey[i] == p[..|pKey|][i] == p[i];
        }
      }
    }
  }

  /** deriveKey: -1 for an empty key; otherwise the XOR fold of the key's
      groups (-1 if a character is not a base64 digit), unpacked into three
      octets whose zeros are replaced by 1, 2 and 4, and packed again. */
  method DeriveKey(pKey: string) returns (mixed: int)
    ensures mixed == KeyNorm(pKey)
  {
    var status := true;
    mixed := 0;
    if |pKey| < 1 {
      status := false;
    }
    if status {
      var ext := Ext(pKey);
      status, mixed := MixGroups(pKey, ext);
    }
    if status {
      var cbc := Unpack(mixed);
      if cbc[0] == 0 {
        cbc := cbc[0 := 1];
      }
      if cbc[1] == 0 {
        cbc := cbc[1 := 2];
      }
      if cbc[2] == 0 {
        cbc := cbc[2 := 4];
      }
      SameTriple(cbc, NonZero(Unpack(mixed)));
      mixed := Pack(cbc);
    }
    if !status {
      mixed := -1;
    }
  }

  /** The normalisation of a four-character key is its own group value with
      zero octets replaced. */
  lemma KeyNormOfGroup(g: string)
    requires |g| == 4 && AllDigits(g)
    ensures KeyNorm(g) == Pack(NonZero(Unpack(GroupValue(g))))
  {
    var ext := Ext(g)[..(4 - |g| % 4) % 4];
    assert ext == [];
    assert Padded(g) == g + ext == g;
    assert g[..0] == [] && g[0..] == g;
    assert Mix(g) == Xor24(Mix([]), GroupValue(g));
    assert Xor24(0, GroupValue(g)) == GroupValue(g);
  }

  /** The key "AAAA" is one group worth 0, so every octet is replaced: it
      normalises to the octets 1, 2 and 4. */
  lemma ExampleKeyAAAA(g: string)
    requires |g| == 4 && forall i :: 0 <= i < 4 ==> g[i] == 'A'
    ensures KeyNorm(g) == 0x01_02_04
  {
    assert AllDigits(g) by {
      assert forall i :: 0 <= i < |g| ==> Decode64(g[i] as int) == 0;
    }
    KeyNormOfGroup(g);
    assert GroupValue(g) == 0;
    var kb := NonZero(Unpack(0));
    assert kb[0] == 1 && kb[1] == 2 && kb[2] == 4;
    SameTriple(kb, [1, 2, 4]);
    ByteTriple([1, 2, 4]);
  }

  /** The key "C" and the key "CCCC" both normalise to 0x082082, the octets
      8, 32 and 130. */
  lemma ExampleKeyC()
    ensures KeyNorm("C") == 0x08_20_82 && KeyNorm("CCCC") == 0x08_20_82
    ensures Unpack(0x08_20_82) == [8, 32, 130]
  {
    ExampleKeyCCCC();
    PaddedC();
    assert ValidKey("C");
    assert KeyNorm("C") == Pack(NonZero(Unpack(Mix("CCCC"))));
  }

  /** "CCCC" is one group of four 'C's (digit value 2), worth 0x082082. */
  lemma ExampleKeyCCCC()
    ensures Padded("CCCC") == "CCCC" && KeyNorm("CCCC") == 0x08_20_82
    ensures Unpack(0x08_20_82) == [8, 32, 130]
  {
    var kb := Unpack(0x08_20_82);
    assert kb[0] == 8 && kb[1] == 32 && kb[2] == 130;
    SameTriple(kb, [8, 32, 130]);
    SameTriple(NonZero(kb), kb);
    PackUnpack(0x08_20_82);
    assert Decode64('C' as int) == 2;
    assert GroupValue("CCCC") == 0x08_20_82;
    KeyNormOfGroup("CCCC");
  }

  /** The one-character key "C" is padded with three more 'C's. */
  lemma PaddedC()
    ensures Padded("C") == "CCCC"
  {
    var e := Ext("C")[..3];
    assert e == ['C', 'C', 'C'];
    assert "C" + e == "CCCC";
  }

  /** The four base64 characters of a 24-bit value, most significant six
      bits first. */
  function EncodeKey(key: int): (s: string)
    requires 0 <= key < 0x100_0000
    ensures |s| == 4 && AllDigits(s) && GroupValue(s) == key
  {
    var q1 := key / 64;
    var q2 := q1 / 64;
    var d := [q2 / 64, q2 % 64, q1 % 64, key % 64];
    assert key == ((d[0] * 64 + d[1]) * 64 + d[2]) * 64 + d[3];
    var s := [Digit(d[0]), Digit(d[1]), Digit(d[2]), Digit(d[3])];
    DecodeDigit(d[0]);
    DecodeDigit(d[1]);
    DecodeDigit(d[2]);
    DecodeDigit(d[3]);
    s
  }

  /** Every normalised key is what deriveKey makes of its own four-character
      encoding, so a key rebuilt from a trailer can be handed back as a key
      string; in particular normalisation is idempotent on those strings. */
  lemma ReencodeKey(key: int)
    requires IsNormalized(key)
    ensures KeyNorm(EncodeKey(key)) == key
  {
    var g := EncodeKey(key);
    KeyNormOfGroup(g);
    SameTriple(NonZero(Unpack(key)), Unpack(key));
    PackUnpack(key);
  }
}
