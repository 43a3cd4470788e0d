# warp64 transform engine in Dafny

warp64 scrambles a file under a base64 key string, and descrambles it again.
This project models the transform engine of `warp64.c`:

- **Key normalisation.** `decode64` and `deriveKey` turn a key string into
  three non-zero octets packed into 24 bits. The key is padded to a multiple
  of four characters with its own first characters. Each group of four
  base64 digits is decoded into 24 bits, and the groups are XOR-folded
  together. Finally a zero first, second or third octet is replaced by 1, 2
  or 4.
- **The windowed cipher.** `process64` builds three 256-entry lookup tables
  from the key octets. It then fills the output window by window. Every
  output byte is the input byte at the same absolute offset plus the key
  octet of that offset's phase (offset mod 3), modulo 256. When scrambling,
  the input is followed by three virtual zero bytes, the trailer.
- **The driver.** `warp64` derives the key. When descrambling, it refuses a
  file shorter than three bytes. It rebuilds a key from the last three bytes
  and refuses a key that differs from it. It inverts every key octet and
  runs the cipher over everything before the trailer. When scrambling, it
  refuses a length that would overflow `int64_t`.
- **The window size.** `main` computes `m_winsize`: the 4 MiB target
  rounded up to a whole number of pages.

The modules follow that structure:

- `Octets` (octets.dfy): octets, big-endian packing of a key, and XOR.
- `Base64` (base64.dfy): `decode64` against a reference digit table.
- `KeyDerivation` (key.dfy): the specification `KeyNorm` and the method
  `DeriveKey` with its loops.
- `Cipher` (cipher.dfy): the transform `Shift` of a logical stream and the
  method `Process64` over an output array.
- `Warp` (warp.dfy): the specifications `Scramble` and `Descramble`, the
  method `Warp64`, and the key-recovery and round-trip lemmas.
- `Window` (window.dfy): the `m_winsize` arithmetic.

The main results:

- `Process64` writes exactly the transform of the logical stream, whatever
  the window size.
- Descrambling a scrambled file gives the content back (`Warp.RoundTrip`).
- The key rebuilt from the trailer is the normalised key, for every content
  length, including lengths below 3 where C's `%` of the negative
  `ctlen - 3` is zero or negative (`Warp.KeyRecovery`).
- The key comparison that `warp64` makes is exactly the check that the
  trailer descrambles to three zero bytes (`Warp.KeyCheckIsTrailerCheck`).

Bit operations in the source act on non-negative values whose bits never
overlap. They are written as multiplications, additions, divisions and
remainders. C's `^` is `Octets.Xor`, defined bit by bit. C's `%` on the
possibly negative `ctlen - 3` truncates towards zero, and `Warp.CRem3` writes
that out, since Dafny's `%` is Euclidean.

Three points of the code that are easy to misread:

- **Descrambling.** The comment at warp64.c:852-853 says the descrambled
  trailer bytes are checked for zeros. The code never transforms the
  trailer. It compares the normalised `key` with `tk`, the key rebuilt from
  the raw trailer bytes (warp64.c:893-899), and then transforms only the
  content. `Warp.KeyCheckIsTrailerCheck` proves that the two checks accept
  the same files, and `Warp.Descramble` states its outcome in terms of the
  zero check.
- **Key errors.** `deriveKey` returns -1 both for an empty key
  (warp64.c:380-383) and for a key with a bad character (warp64.c:455-459).
  The model therefore has one error, `BadKey`.
- **Key recovery index.** The code picks the first trailer byte with
  `z = 3 - ((ctlen - 3) % 3)` (warp64.c:881), where C's `%` truncates: for
  `ctlen` 0, 1 and 2 the remainder is 0, -2 and -1. `Warp.TrailerPhase` proves that the
  rotation by `z` puts the trailer byte at absolute offset `ctlen + t` in
  octet `(ctlen + t) mod 3` for every `ctlen`, and `Warp.Rotated` and
  `Warp.TrailerKey` carry that as their contracts.

## Model

| member | source | states |
|---|---|---|
| Base64.Decode64 | warp64.c:155-178 | the result is -1 or a digit value in 0..63, and a digit value is one whose reference character (A-Z, a-z, 0-9, +, /) is the input code |
| Base64.DecodeDigit | warp64.c:155-178 | each of the 64 digit characters decodes to its own value, so decoding is onto 0..63 |
| Base64.DecodeRejects | warp64.c:155-178 | decoding gives -1 exactly for the codes that are no digit's character |
| Base64.DecodeInjective | warp64.c:155-178 | two codes that decode to the same digit value are the same code |
| Octets.BigEndian | warp64.c:450-461 | folding digits below the radix most significant first, as the `acc << 6` step of deriveKey and the `tk << 8` step of warp64 do, gives a value below radix to the power of the digit count |
| Octets.Unpack | warp64.c:472-476 | the three octets of a 24-bit key, read big-endian, are the key again |
| Octets.Pack | warp64.c:492-496 | packing three octets gives a 24-bit value whose unpacked octets are the three octets |
| Octets.PackUnpack | warp64.c:472-476 | every 24-bit key is the packing of its own three octets |
| Octets.PackInjective | warp64.c:893-899 | two octet triples pack to the same key exactly when they are equal, so comparing packed keys compares octets |
| Octets.Xor | warp64.c:467-468 | the XOR of two values below 2^n is below 2^n; `Octets.XorCancel` is its inverse property |
| Octets.XorSelf | warp64.c:467-468 | a value XORed with itself is zero |
| Octets.XorCancel | warp64.c:467-468 | XORing the same value in twice gives the original back, so the key fold can be unwound one group at a time |
| KeyDerivation.Ext | warp64.c:385-404 | the three extension characters are the key's characters cycled from the start: k[0..2], or k[0],k[1],k[0], or k[0] three times |
| KeyDerivation.Padded | warp64.c:411-445 | the padded key is a multiple of 4 long, less than 4 longer than the key, starts with the key, and continues with the key's characters cycled from the start |
| KeyDerivation.PaddedFromKey | warp64.c:411-445 | every character of the padded key is a character of the key |
| KeyDerivation.GroupValue | warp64.c:450-461 | a group of four digits is worth d0*2^18 + d1*2^12 + d2*2^6 + d3, a 24-bit value |
| KeyDerivation.Xor24 | warp64.c:467-468 | the XOR of two 24-bit values is a 24-bit value |
| KeyDerivation.Mix | warp64.c:407-470 | the XOR fold of the groups of a padded key is a 24-bit value |
| KeyDerivation.NonZero | warp64.c:479-490 | after replacement no octet is zero, and every non-zero octet is kept |
| KeyDerivation.KeyNorm | warp64.c:354-505 | the normalised key is -1 exactly when the key is empty or has a character that is not a base64 digit, and otherwise is below 2^24 with three non-zero octets |
| KeyDerivation.InnerGroup | warp64.c:441-444 | a group with four characters left takes them straight from the key |
| KeyDerivation.LastGroup | warp64.c:414-438 | the last group of a key whose length is not a multiple of 4 is the remaining characters followed by the first extension characters |
| KeyDerivation.PaddedDigits | warp64.c:411-445 | padding a valid key adds only digits |
| KeyDerivation.MixStep | warp64.c:467-468 | folding one more group XORs its value into the fold of the groups before it |
| KeyDerivation.DecodeGroup | warp64.c:450-464 | the inner loop succeeds exactly when all four characters are digits, and then its accumulator is the group's value |
| KeyDerivation.NextGroup | warp64.c:412-448 | each step takes the next group of the padded key and advances by the characters it consumed, and the step that reaches the end of the key takes the last group |
| KeyDerivation.BadGroup | warp64.c:451-458 | a bad character in a group of the padded key is a bad character of the key |
| KeyDerivation.MixGroups | warp64.c:407-470 | the group loop succeeds exactly when every key character is a digit, and then its result is the XOR fold of the padded key's groups |
| KeyDerivation.DeriveKey | warp64.c:354-506 | deriveKey returns the normalised key |
| KeyDerivation.KeyNormOfGroup | warp64.c:441-496 | a four-character key normalises to its own group value with zero octets replaced |
| KeyDerivation.ExampleKeyC | warp64.c:385-496 | "C" and "CCCC" both normalise to 0x082082, the octets 8, 32 and 130 |
| KeyDerivation.ExampleKeyCCCC | warp64.c:441-496 | "CCCC" is one group worth 0x082082 |
| KeyDerivation.ExampleKeyAAAA | warp64.c:479-496 | "AAAA" mixes to 0, so all three octets are replaced and it normalises to 0x010204, the octets 1, 2 and 4 |
| KeyDerivation.PaddedC | warp64.c:388-421 | "C" is padded to "CCCC" |
| KeyDerivation.EncodeKey | warp64.c:450-461 | every 24-bit value is the group value of four digit characters |
| KeyDerivation.ReencodeKey | warp64.c:354-505 | every normalised key, for example one rebuilt from a trailer, is what deriveKey makes of its own four-character encoding |
| Cipher.InputLength | warp64.c:609-615 | the `remi` count: as many input bytes as output bytes without the trailer, and exactly three fewer with it; `Cipher.Stream` and `Cipher.Process64` state that exactly these input bytes are read |
| Cipher.Stream | warp64.c:606-680 | the logical stream is olen bytes long, with the input byte at every offset below the input length and zero after it |
| Cipher.Entry | warp64.c:600 | a table entry is an octet that differs from j plus the key octet by a multiple of 256 |
| Cipher.EntryInjective | warp64.c:600 | every table maps distinct octets to distinct entries, so it is a permutation of the octets |
| Cipher.Shift | warp64.c:663-690 | the transform keeps the length, and byte i differs from the input byte by the key octet of phase (base + i) mod 3, modulo 256 |
| Cipher.InvertKey | warp64.c:962-975 | each inverted octet is non-zero and adds up with the original octet to 0 modulo 256 |
| Cipher.ShiftSplit | warp64.c:662-690 | transforming two parts at their own absolute offsets gives the transform of the whole, which is why each window restarts the phase at base mod 3 |
| Cipher.ShiftInverse | warp64.c:962-995 | the transform under the inverted key at the same offsets undoes the transform |
| Cipher.Tables | warp64.c:590-602 | entry j of table r is j plus key octet r, modulo 256 |
| Cipher.Window | warp64.c:662-690 | one window writes, for each of its bytes, the stream byte moved up by the key octet of its phase, and leaves every other output byte alone |
| Cipher.Process64 | warp64.c:545-753 | for every window size, the output holds the transform of the logical stream from offset 0 |
| Warp.CRem3 | warp64.c:881 | C's remainder by 3: within 0..2 for a non-negative dividend and within -2..0 for a negative one, and always differing from the dividend by a multiple of 3 |
| Warp.TrailerPhase | warp64.c:881-890 | the rotation by z maps each key phase to the trailer byte that holds it and back, also when ctlen - 3 is negative |
| Warp.TrailerKey | warp64.c:881-890 | tk is a 24-bit value whose octet (ctlen + t) mod 3 is trailer byte t, for each of the three trailer bytes |
| Warp.Scramble | warp64.c:806-998 | scrambling succeeds exactly for a valid key and a content length that leaves room for the trailer, fails with BadKey for an invalid key and LengthOverflow for too long a content, and its output is three bytes longer than the content with a trailer that rebuilds the normalised key |
| Warp.Descramble | warp64.c:806-998 | descrambling fails with BadKey exactly for an invalid key, with MissingTrailer exactly for a valid key and a file under three bytes, with IncorrectKey exactly when the inverse-transformed trailer is not three zeros, succeeds otherwise, and gives three bytes fewer than the file |
| Warp.Rotated | warp64.c:885-890 | the rotation puts the trailer byte at absolute offset ctlen + t in octet (ctlen + t) mod 3, the phase it was scrambled under |
| Warp.ScrambledTrailer | warp64.c:925-928 | the scrambled trailer byte at offset ctlen + j is the key octet of that offset's phase |
| Warp.ScrambledTail | warptrail3.c:144-152 | a scrambled file is three bytes longer than its content, and its last three bytes, from offset length - 3, are the key octets of their phases |
| Warp.RotationUndone | warp64.c:887-890 | trailer bytes holding the key octets of their phases rotate back to the key octets |
| Warp.KeyRecovery | warp64.c:878-890 | the key rebuilt from the trailer of any scrambled file is the normalised key that scrambled it |
| Warp.DescrambledZero | warp64.c:966-975 | a trailer byte descrambles to zero exactly when it is the key octet |
| Warp.KeyCheckIsTrailerCheck | warp64.c:893-899 | the rebuilt key equals the key exactly when the trailer descrambles to three zero bytes |
| Warp.ShiftTail | warp64.c:662-690 | the transform of a file from offset a on is the transform of its tail laid at offset a |
| Warp.KeyMatch | warp64.c:885-899 | the rebuilt key equals a 24-bit key exactly when the rotated trailer bytes are its octets |
| Warp.TrailerCheck | warp64.c:878-899 | trailer bytes rotate to the key octets exactly when they descramble to zeros |
| Warp.RotationMatches | warp64.c:887-890 | trailer bytes rotate to the key octets exactly when each is the key octet of its phase |
| Warp.ZeroMatches | warp64.c:962-975 | trailer bytes descramble to zeros exactly when each is the key octet of its phase |
| Warp.RoundTrip | warp64.c:922-995 | with a valid key, scrambling succeeds, adds three bytes, and descrambling the result with the same key gives the content back |
| Warp.ScrambleEmpty | warp64.c:925-928 | scrambling empty content gives exactly the three key octets |
| Warp.ShiftZeros | warp64.c:925-928 | the transform of three zero bytes at offset 0 is the key octets |
| Warp.DescrambleShort | warp64.c:841-850 | a file shorter than three bytes fails with a missing trailer, a three-byte file does not, and a three-byte file that passes gives empty output |
| Warp.ScrambleBy | warp64.c:922-993 | scrambling with a valid key is the forward transform of the content and three zeros |
| Warp.ExampleScramble | warp64.c:922-993 | key "C" scrambles [0x41] into [73, 32, 130, 8] |
| Warp.ExampleScrambleBy | warp64.c:922-993 | every key that normalises to 0x082082 scrambles [0x41] into [73, 32, 130, 8] |
| Warp.ExampleShift | warp64.c:662-690 | [0x41, 0, 0, 0] under the octets 8, 32, 130 is [73, 32, 130, 8] |
| Warp.ExampleTrailerKey | warp64.c:881-890 | the key rebuilt from the trailer [32, 130, 8] at offset 1 is 0x082082 |
| Warp.ExampleDescramble | warp64.c:878-995 | descrambling [73, 32, 130, 8] with key "C" gives [0x41] |
| Warp.ExampleDescrambleBy | warp64.c:878-995 | every key that normalises to 0x082082 descrambles [73, 32, 130, 8] into [0x41] |
| Warp.DescrambleScrambled | warp64.c:878-995 | a file that scrambling produced descrambles back to its content |
| Warp.ExampleWrongKey | warp64.c:893-899 | any valid key that does not normalise to 0x082082 is refused as incorrect on the example file |
| Warp.TrailerKeyOf | warp64.c:885-891 | the tk loop computes the key rebuilt from the trailer |
| Warp.InvertedKey | warp64.c:962-981 | the inversion loop gives the packing of the inverted octets |
| Warp.Transform | warp64.c:938-998 | the output stage gives, when descrambling, the inverse transform of the content before the trailer and, when scrambling, the forward transform of the content and three zeros |
| Warp.Warp64 | warp64.c:806-998 | warp64's outcome is the scrambling or descrambling of the input, with its errors: bad key, missing trailer, incorrect key, length overflow |
| Window.WindowPages | warp64.c:1077-1084 | the page count is at least 1, covers the target, and one page fewer would not |
| Window.WindowSize | warp64.c:1077-1087 | m_winsize is a whole number of pages, WindowPages(page) of them, so at least one page, at least the target, and less than a page above it |
| Window.WindowSizeLeast | warp64.c:1077-1087 | no whole number of pages that reaches the target is shorter than m_winsize |

## Left out

- File I/O is not modelled: `open`, `lseek`, `read`, the sizing `write`, `close`, `unlink`, `mmap`/`munmap`, and the `O_EXCL` create policy. Input and output are a sequence and an array, and every failure path of these calls is left out.
- Process64: does not model the status result, which is false only when a window cannot be mapped or unmapped. With I/O left out, the model always succeeds.
- The `abort()` checks of process64 (`olen < 1`, or `trailer` with `olen < 3`) and the `abort()` on a zero octet in the key inversion become preconditions and assertions: they are conditions on the callers, which warp64 meets.
- Process64 and Warp64: take the window size as a parameter. They require it to fit the `int32_t` the source casts it to. `Window.WindowSize` is how `main` computes it.
- `readKey` is not modelled. It is console input with echo handling, and its 255-character limit is not part of `deriveKey`. `deriveKey` accepts keys of any length, and so does the model.
- Argument parsing, help text, the `.warp64` suffix handling in `main`, and every `fprintf` diagnostic are left out. This includes the page-size message at warp64.c:1073, whose format string lacks its argument.
- Warp64: does not model the `abort()` on a NULL path or key. Dafny values cannot be NULL.
- `sysconf(_SC_PAGE_SIZE)` becomes the parameter `page` of `Window.WindowSize`; the source aborts when it is below 1, which is the precondition.
- `calloc`/`free` of the tables is left out. `Cipher.Tables` allocates a fresh array instead.
- warptrail3.c is not modelled beyond its two facts: a file needs at least three bytes, and the trailer starts at offset length - 3. Everything else in it is I/O and printing.
- Key strings are sequences of characters. A C string cannot contain NUL, and a NUL in the model is simply a non-digit.
