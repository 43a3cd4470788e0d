/**
 * The transform as warp64 drives it: scrambling appends a three-octet zero
 * trailer under the forward transform; descrambling rebuilds the key from
 * the last three bytes of the file, rejects a key that differs, and runs the
 * inverse transform over everything before the trailer.
 */
module Warp {
  import opened Octets
  import opened KeyDerivation
  import opened Cipher

  /** The largest file length an `int64_t` holds. */
  const INT64_MAX: int := 0x7fff_ffff_ffff_ffff

  /** Why warp64 gives up before writing an output. */
  datatype Error =
    | BadKey          // deriveKey returned -1
    | MissingTrailer  // a file to descramble is shorter than 3 bytes
    | IncorrectKey    // the key rebuilt from the trailer is not the given key
    | LengthOverflow  // the scrambled length would not fit an int64_t

  datatype Outcome = Ok(data: seq<Byte>) | Fail(error: Error)

  /** C's `a % 3`: division truncates towards zero, so the remainder takes
      the sign of the dividend or is zero (`-3 % 3` is 0, `-2 % 3` is -2),
      and it differs from `a` by a multiple of 3. */
  function CRem3(a: int): (r: int)
    ensures a >= 0 ==> 0 <= r < 3
    ensures a < 0 ==> -3 < r <= 0
    ensures (a - r) % 3 == 0
  {
    if a >= 0 then a % 3 else -((-a) % 3)
  }

  /** The key warp64 rebuilds from the three trailer bytes when the content
      is `ctlen` bytes long: `z = 3 - ((ctlen - 3) % 3)` and octet `i` is
      `trailer[(z + i) % 3]`. */
  function TrailerKey(trailer: seq<Byte>, ctlen: int): (tk: int)
    requires |trailer| == 3 && ctlen >= 0
    ensures 0 <= tk < 0x100_0000
    ensures forall t :: 0 <= t < 3 ==> Unpack(tk)[(ctlen + t) % 3] == trailer[t]
  {
    Pack(Rotated(trailer, ctlen))
  }

  /** The rotation by z lines trailer byte `(z + i) % 3`, which sits at
      absolute offset `ctlen + (z + i) % 3`, up with phase `i`, and back:
      for every `ctlen`, also those below 3 where `ctlen - 3` is negative. */
  lemma TrailerPhase(ctlen: int, i: int)
    requires ctlen >= 0 && 0 <= i < 3
    ensures var z := 3 - CRem3(ctlen - 3);
            (ctlen + (z + i) % 3) % 3 == i && (z + (ctlen + i) % 3) % 3 == i
  {
    var r := CRem3(ctlen - 3);
    var d := (ctlen - 3 - r) / 3;
    assert ctlen - 3 - r == 3 * d;
    assert (3 - r) + ctlen == 3 * (d + 2);
    PhaseSum(ctlen, 3 - r, i);
  }

  /** When `z + c` is a multiple of 3, adding `z` to a phase measured from
      `c` and adding `c` to one measured from `z` both give the phase
      back. */
  lemma PhaseSum(c: int, z: int, i: int)
    requires 0 <= i < 3 && (z + c) % 3 == 0
    ensures (c + (z + i) % 3) % 3 == i && (z + (c + i) % 3) % 3 == i
  {
  }

  /** The bytes of the trailer in the order TrailerKey packs them: the
      trailer byte at absolute offset `ctlen + t` becomes octet
      `(ctlen + t) mod 3`, the phase it was scrambled under. */
  function Rotated(trailer: seq<Byte>, ctlen: int): (rot: seq<Byte>)
    requires |trailer| == 3 && ctlen >= 0
    ensures |rot| == 3 && forall t :: 0 <= t < 3 ==> rot[(ctlen + t) % 3] == trailer[t]
  {
    var z := 3 - CRem3(ctlen - 3);
    TrailerPhase(ctlen, 0);
    TrailerPhase(ctlen, 1);
    TrailerPhase(ctlen, 2);
    [trailer[z % 3], trailer[(z + 1) % 3], trailer[(z + 2) % 3]]
  }

  /** Scrambling: the forward transform of the content followed by three zero
      bytes, keyed by the normalised key. */
  function Scramble(content: seq<Byte>, pKey: string): (o: Outcome)
    ensures o.Ok? <==> ValidKey(pKey) && |content| <= INT64_MAX - 3
    ensures o == Fail(BadKey) <==> !ValidKey(pKey)
    ensures o == Fail(LengthOverflow) <==> ValidKey(pKey) && |content| > INT64_MAX - 3
    ensures o.Ok? ==> |o.data| == |content| + 3 && TrailerKey(o.data[|content|..], |content|) == KeyNorm(pKey)
  {
    var key := KeyNorm(pKey);
    if key < 0 then Fail(BadKey)
    else if |content| > INT64_MAX - 3 then Fail(LengthOverflow)
    else
      KeyRecovery(content, key);
      Ok(Shift(content + [0, 0, 0], Unpack(key), 0))
  }

  /** Descrambling: check the key against the one rebuilt from the trailer,
      then run the inverse transform over the bytes before the trailer. */
  function Descramble(file: seq<Byte>, pKey: string): (o: Outcome)
    ensures o.Ok? <==> ValidKey(pKey) && |file| >= 3 && TrailerDescramblesToZero(file, KeyNorm(pKey))
    ensures o == Fail(BadKey) <==> !ValidKey(pKey)
    ensures o == Fail(MissingTrailer) <==> ValidKey(pKey) && |file| < 3
    ensures o == Fail(IncorrectKey) <==> ValidKey(pKey) && |file| >= 3 && !TrailerDescramblesToZero(file, KeyNorm(pKey))
    ensures o.Ok? ==> |o.data| == |file| - 3
  {
    var key := KeyNorm(pKey);
    if key < 0 then Fail(BadKey)
    else if |file| < 3 then Fail(MissingTrailer)
    else
      KeyCheckIsTrailerCheck(file, key);
      if key != TrailerKey(file[|file| - 3..], |file| - 3) then Fail(IncorrectKey)
      else Ok(Shift(file[..|file| - 3], InvertKey(Unpack(key)), 0))
  }

  /** The check a descrambled file has to pass: inverse-transformed under
      the key, its last three bytes are zero. */
  predicate TrailerDescramblesToZero(file: seq<Byte>, key: int)
    requires IsNormalized(key) && |file| >= 3
  {
    Shift(file, InvertKey(Unpack(key)), 0)[|file| - 3..] == [0, 0, 0]
  }

  /** The scrambled trailer is the key's own octets, one per phase. */
  lemma ScrambledTrailer(content: seq<Byte>, kb: seq<Byte>, j: int)
    requires |kb| == 3 && 0 <= j < 3
    ensures Shift(content + [0, 0, 0], kb, 0)[|content| + j] == kb[(|content| + j) % 3]
  {
    assert (content + [0, 0, 0])[|content| + j] == 0;
  }

  /** Key recovery: for any content, whatever its length, the key rebuilt
      from the last three bytes of the scrambled file, taken at offset
      length - 3, is the normalised key that scrambled it. */
  lemma KeyRecovery(content: seq<Byte>, key: int)
    requires IsNormalized(key)
    ensures var file := Shift(content + [0, 0, 0], Unpack(key), 0);
            TrailerKey(file[|file| - 3..], |file| - 3) == key
  {
    var kb := Unpack(key);
    var file := Shift(content + [0, 0, 0], kb, 0);
    ScrambledTail(content, kb);
    RotationUndone(file[|content|..], kb, |content|);
    PackUnpack(key);
  }

  /** The last three bytes of a scrambled file are the key octets of their
      phases. */
  lemma ScrambledTail(content: seq<Byte>, kb: seq<Byte>)
    requires |kb| == 3
    ensures var file := Shift(content + [0, 0, 0], kb, 0);
            |file| == |content| + 3 &&
            forall j :: 0 <= j < 3 ==> file[|content|..][j] == kb[(|content| + j) % 3]
  {
    forall j | 0 <= j < 3
      ensures Shift(content + [0, 0, 0], kb, 0)[|content|..][j] == kb[(|content| + j) % 3]
    {
      ScrambledTrailer(content, kb, j);
    }
  }

  /** Three bytes holding the key octets of their phases, from offset `c`
      on, rotate back to the key octets. */
  lemma RotationUndone(t: seq<Byte>, kb: seq<Byte>, c: int)
    requires |t| == 3 && |kb| == 3 && c >= 0
    requires forall j :: 0 <= j < 3 ==> t[j] == kb[(c + j) % 3]
    ensures Rotated(t, c) == kb
  {
    var rot := Rotated(t, c);
    var z := 3 - CRem3(c - 3);
    forall i | 0 <= i < 3
      ensures rot[i] == kb[i]
    {
      TrailerPhase(c, i);
      assert rot[i] == t[(z + i) % 3];
    }
    SameTriple(rot, kb);
  }

  /** A trailer byte descrambles to zero exactly when it equals the key
      octet of its phase. */
  lemma DescrambledZero(t: Byte, k: Byte, inv: Byte)
    requires k != 0 && inv == 256 - k
    ensures Entry(t, inv) == 0 <==> t == k
  {
  }

  /** The key check warp64 makes (`key != tk`) rejects exactly the files
      whose trailer does not descramble to three zero bytes. */
  lemma KeyCheckIsTrailerCheck(file: seq<Byte>, key: int)
    requires IsNormalized(key) && |file| >= 3
    ensures TrailerKey(file[|file| - 3..], |file| - 3) == key <==> TrailerDescramblesToZero(file, key)
  {
    var a := |file| - 3;
    var kb := Unpack(key);
    ShiftTail(file, InvertKey(kb), a);
    TrailerCheck(file[a..], kb, a);
    KeyMatch(file[a..], a, key);
  }

  /** The transform of a file, from offset `a` on, is the transform of its
      tail laid at offset `a`. */
  lemma ShiftTail(file: seq<Byte>, kb: seq<Byte>, a: nat)
    requires |kb| == 3 && a <= |file|
    ensures Shift(file, kb, 0)[a..] == Shift(file[a..], kb, a)
  {
    var whole, tail := Shift(file, kb, 0)[a..], Shift(file[a..], kb, a);
    forall i | 0 <= i < |file| - a
      ensures whole[i] == tail[i]
    {
      assert file[a..][i] == file[a + i];
    }
  }

  /** The rebuilt key is a 24-bit key exactly when the rotated trailer
      is its octets. */
  lemma KeyMatch(t: seq<Byte>, a: int, key: int)
    requires |t| == 3 && a >= 0 && 0 <= key < 0x100_0000
    ensures TrailerKey(t, a) == key <==> Rotated(t, a) == Unpack(key)
  {
    PackUnpack(key);
    PackInjective(Rotated(t, a), Unpack(key));
  }

  /** Three trailer bytes at offset `a` rotate to the key octets exactly
      when the inverse transform turns them into zeros. */
  lemma TrailerCheck(t: seq<Byte>, kb: seq<Byte>, a: int)
    requires |t| == 3 && |kb| == 3 && a >= 0
    requires forall r :: 0 <= r < 3 ==> kb[r] != 0
    ensures Rotated(t, a) == kb <==> Shift(t, InvertKey(kb), a) == [0, 0, 0]
  {
    RotationMatches(t, kb, a);
    ZeroMatches(t, kb, a);
  }

  /** The trailer rotates to the key octets exactly when each trailer byte
      is the key octet of its phase. */
  lemma RotationMatches(t: seq<Byte>, kb: seq<Byte>, c: int)
    requires |t| == 3 && |kb| == 3 && c >= 0
    ensures Rotated(t, c) == kb <==> forall j :: 0 <= j < 3 ==> t[j] == kb[(c + j) % 3]
  {
    var rot := Rotated(t, c);
    var z := 3 - CRem3(c - 3);
    if rot == kb {
      forall j | 0 <= j < 3
        ensures t[j] == kb[(c + j) % 3]
      {
        TrailerPhase(c, j);
        assert rot[(c + j) % 3] == t[(z + (c + j) % 3) % 3];
      }
    }
    if forall j :: 0 <= j < 3 ==> t[j] == kb[(c + j) % 3] {
      RotationUndone(t, kb, c);
    }
  }

  /** The inverse transform at offset `a` turns the trailer into zeros
      exactly when each trailer byte is the key octet of its phase. */
  lemma ZeroMatches(t: seq<Byte>, kb: seq<Byte>, a: int)
    requires |t| == 3 && |kb| == 3 && a >= 0
    requires forall r :: 0 <= r < 3 ==> kb[r] != 0
    ensures Shift(t, InvertKey(kb), a) == [0, 0, 0] <==> forall j :: 0 <= j < 3 ==> t[j] == kb[(a + j) % 3]
  {
    var inv := InvertKey(kb);
    var d := Shift(t, inv, a);
    forall j | 0 <= j < 3
      ensures d[j] == 0 <==> t[j] == kb[(a + j) % 3]
    {
      DescrambledZero(t[j], kb[(a + j) % 3], inv[(a + j) % 3]);
    }
    if forall j :: 0 <= j < 3 ==> t[j] == kb[(a + j) % 3] {
      SameTriple(d, [0, 0, 0]);
    }
  }

  /** Round trip: scrambling makes a file three bytes longer than the
      content, and descrambling that file with the same key gives the
      content back byte for byte. */
  lemma RoundTrip(content: seq<Byte>, pKey: string)
    requires ValidKey(pKey) && |content| <= INT64_MAX - 3
    ensures Scramble(content, pKey).Ok?
    ensures |Scramble(content, pKey).data| == |content| + 3
    ensures Descramble(Scramble(content, pKey).data, pKey) == Ok(content)
  {
    var key := KeyNorm(pKey);
    var kb := Unpack(key);
    var file := Shift(content + [0, 0, 0], kb, 0);
    KeyRecovery(content, key);
    ShiftSplit(content, [0, 0, 0], kb, 0);
    assert file[..|content|] == Shift(content, kb, 0);
    ShiftInverse(content, kb, 0);
  }

  /** Scrambling empty content gives exactly the three key octets. */
  lemma ScrambleEmpty(pKey: string)
    requires ValidKey(pKey)
    ensures Scramble([], pKey) == Ok(Unpack(KeyNorm(pKey)))
  {
    assert [] + [0, 0, 0] == [0, 0, 0];
    ShiftZeros(Unpack(KeyNorm(pKey)));
  }

  /** The transform of three zero bytes at offset 0 is the key octets. */
  lemma ShiftZeros(kb: seq<Byte>)
    requires |kb| == 3
    ensures Shift([0, 0, 0], kb, 0) == kb
  {
    var s := Shift([0, 0, 0], kb, 0);
    assert s[0] == kb[0] && s[1] == kb[1] && s[2] == kb[2];
    SameTriple(s, kb);
  }

  /** A file shorter than three bytes is refused before anything else is
      looked at; a three-byte file that passes the key check gives an empty
      output. */
  lemma DescrambleShort(file: seq<Byte>, pKey: string)
    requires ValidKey(pKey) && |file| <= 3
    ensures |file| < 3 ==> Descramble(file, pKey) == Fail(MissingTrailer)
    ensures |file| == 3 ==> Descramble(file, pKey) != Fail(MissingTrailer)
    ensures |file| == 3 && Descramble(file, pKey).Ok? ==> Descramble(file, pKey).data == []
  {
    var key := KeyNorm(pKey);
    assert key >= 0;
    if |file| == 3 && key == TrailerKey(file[0..], 0) {
      assert Descramble(file, pKey) == Ok(Shift(file[..0], InvertKey(Unpack(key)), 0));
    }
  }

  /** The worked example: key "C" scrambles the one-byte file [0x41] into
      [73, 32, 130, 8]. */
  lemma ExampleScramble()
    ensures Scramble([0x41], "C") == Ok([73, 32, 130, 8])
  {
    ExampleKeyC();
    ExampleScrambleBy("C");
  }

  /** Any key that normalises to 0x082082 scrambles [0x41] into
      [73, 32, 130, 8]. */
  lemma ExampleScrambleBy(pKey: string)
    requires KeyNorm(pKey) == 0x08_20_82
    ensures Scramble([0x41], pKey) == Ok([73, 32, 130, 8])
  {
    ExampleKeyC();
    ScrambleBy([0x41], pKey, [8, 32, 130]);
    ExampleShift();
  }

  /** Scrambling with a valid key is the forward transform under its
      octets. */
  lemma ScrambleBy(content: seq<Byte>, pKey: string, kb: seq<Byte>)
    requires KeyNorm(pKey) >= 0 && Unpack(KeyNorm(pKey)) == kb && |content| <= INT64_MAX - 3
    ensures Scramble(content, pKey) == Ok(Shift(content + [0, 0, 0], kb, 0))
  {
  }

  /** The example's bytes moved up by the octets 8, 32, 130, 8 of their
      phases: 0x41 + 8 = 73 and the zeros become the key octets. */
  lemma ExampleShift()
    ensures Shift([0x41] + [0, 0, 0], [8, 32, 130], 0) == [73, 32, 130, 8]
  {
    assert [0x41] + [0, 0, 0] == [0x41, 0, 0, 0];
    var s := Shift([0x41, 0, 0, 0], [8, 32, 130], 0);
    assert s[0] == 73 && s[1] == 32 && s[2] == 130 && s[3] == 8;
  }

  /** The key rebuilt from the example's trailer [32, 130, 8] at offset 1,
      where `ctlen - 3` is negative, is 0x082082. */
  lemma ExampleTrailerKey()
    ensures TrailerKey([32, 130, 8], 1) == 0x08_20_82
  {
    assert CRem3(1 - 3) == -2;
    var t: seq<Byte> := [32, 130, 8];
    var rot := Rotated(t, 1);
    assert rot == [t[2], t[0], t[1]];
    assert Unpack(0x08_20_82) == [8, 32, 130];
    PackUnpack(0x08_20_82);
  }

  /** Descrambling the example file with key "C" gives [0x41] back. */
  lemma ExampleDescramble()
    ensures Descramble([73, 32, 130, 8], "C") == Ok([0x41])
  {
    ExampleKeyC();
    ExampleDescrambleBy("C");
  }

  /** Any key that normalises to 0x082082 descrambles [73, 32, 130, 8] into
      [0x41]. */
  lemma ExampleDescrambleBy(pKey: string)
    requires KeyNorm(pKey) == 0x08_20_82
    ensures Descramble([73, 32, 130, 8], pKey) == Ok([0x41])
  {
    ExampleScrambleBy(pKey);
    DescrambleScrambled([0x41], pKey, [73, 32, 130, 8]);
  }

  /** Round trip, stated for a given scrambled file. */
  lemma DescrambleScrambled(content: seq<Byte>, pKey: string, file: seq<Byte>)
    requires KeyNorm(pKey) >= 0 && |content| <= INT64_MAX - 3 && Scramble(content, pKey) == Ok(file)
    ensures Descramble(file, pKey) == Ok(content)
  {
    RoundTrip(content, pKey);
  }

  /** Any key whose normalisation is not 0x082082 is refused as incorrect on
      the example file. */
  lemma ExampleWrongKey(pKey: string)
    requires ValidKey(pKey) && KeyNorm(pKey) != 0x08_20_82
    ensures Descramble([73, 32, 130, 8], pKey) == Fail(IncorrectKey)
  {
    ExampleTrailerKey();
    assert [73, 32, 130, 8][1..] == [32, 130, 8];
  }

  /** The loop that rebuilds the key from the trailer, one octet at a time,
      most significant first. */
  method TrailerKeyOf(trailer: seq<Byte>, ctlen: int) returns (tk: int)
    requires |trailer| == 3 && ctlen >= 0
    ensures tk == TrailerKey(trailer, ctlen)
  {
    var z := 3 - CRem3(ctlen - 3);
    ghost var rot := Rotated(trailer, ctlen);
    tk := 0;
    for i := 0 to 3
      invariant tk == BigEndian(rot[..i], 256)
    {
      assert rot[..i + 1][..i] == rot[..i];
      tk := tk * 256 + trailer[(z + i) % 3];
    }
    assert rot[..3] == rot;
  }

  /** The loop that turns a normalised key into the descrambling key, octet
      by octet. */
  method InvertedKey(key: int) returns (ikey: int)
    requires IsNormalized(key)
    ensures ikey == Pack(InvertKey(Unpack(key)))
  {
    var kb := Unpack(key);
    ghost var orig := kb;
    for i := 0 to 3
      invariant |kb| == 3
      invariant forall r :: 0 <= r < i ==> kb[r] == 256 - orig[r]
      invariant forall r :: i <= r < 3 ==> kb[r] == orig[r]
    {
      assert kb[i] != 0;  // the source aborts on a zero octet
      kb := kb[i := 256 - kb[i]];
    }
    SameTriple(kb, InvertKey(orig));
    ikey := Pack(kb);
  }

  /** warp64: derives the key; when descrambling, refuses a file without a
      trailer, rebuilds the key from the trailer (`tk`) and refuses a
      different key; sizes the output; when descrambling, inverts each key
      octet; and runs process64 over the output unless it is empty. */
  method Warp64(input: seq<Byte>, descramble: bool, pKey: string, winsize: int) returns (result: Outcome)
    requires 0 < winsize < 0x8000_0000
    ensures result == if descramble then Descramble(input, pKey) else Scramble(input, pKey)
  {
    var key := DeriveKey(pKey);
    if key < 0 {
      return Fail(BadKey);
    }
    var ctlen := |input|;
    if descramble {
      if ctlen < 3 {
        return Fail(MissingTrailer);
      }
      ctlen := ctlen - 3;
      var trailer := input[|input| - 3..];
      var tk := TrailerKeyOf(trailer, ctlen);
      if key != tk {
        return Fail(IncorrectKey);
      }
    }

    var olen;
    if descramble {
      olen := ctlen;
    } else if ctlen <= INT64_MAX - 3 {
      olen := ctlen + 3;
    } else {
      return Fail(LengthOverflow);
    }

    var data := Transform(input, key, descramble, olen, winsize);
    return Ok(data);
  }

  /** The output stage of warp64: an output of `olen` bytes, a descrambling
      key when descrambling, and process64 over the output unless it is
      empty. */
  method Transform(input: seq<Byte>, key: int, descramble: bool, olen: int, winsize: int) returns (data: seq<Byte>)
    requires IsNormalized(key) && 0 < winsize < 0x8000_0000
    requires descramble ==> 0 <= olen <= |input|
    requires !descramble ==> olen == |input| + 3
    ensures data == if descramble then Shift(input[..olen], InvertKey(Unpack(key)), 0)
                    else Shift(input + [0, 0, 0], Unpack(key), 0)
  {
    var out := new Byte[olen];
    if olen > 0 {
      var k := key;
      if descramble {
        k := InvertedKey(key);
      }
      Process64(input, out, k, !descramble, olen, winsize);
      assert !descramble ==> input[..InputLength(true, olen)] == input;
    }
    data := out[..];
  }
}
