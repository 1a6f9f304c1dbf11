/**
 Field-level encryption: how a sealed value is packed into base64 text, how such
 text is told from legacy plaintext, and reading under one key or two.

 AES-256-GCM is a parameter: a pair of functions, ideal for the keys at hand. UTF-8
 is folded into it.
 */
module FieldEncryption {
  import opened Options

  type Byte = b: int | 0 <= b < 256
  type Bytes = seq<Byte>

  const IV_BYTES: nat := 12
  const TAG_BYTES: nat := 16
  const KEY_BYTES: nat := 32
  const SHORTEST_BLOB: nat := 40

  type Iv = b: Bytes | |b| == 12 witness seq(12, _ => 0)

  // ---------------------------------------------------------------- base64

  type Sextet = v: int | 0 <= v < 64

  function Letter(v: Sextet): char {
    if v < 26 then 'A' + v as char
    else if v < 52 then 'a' + (v - 26) as char
    else if v < 62 then '0' + (v - 52) as char
    else if v == 62 then '+'
    else '/'
  }

  predicate InAlphabet(c: char) {
    'A' <= c <= 'Z' || 'a' <= c <= 'z' || '0' <= c <= '9' || c == '+' || c == '/'
  }

  function Value(c: char): Sextet
    requires InAlphabet(c)
  {
    if 'A' <= c <= 'Z' then c as int - 'A' as int
    else if 'a' <= c <= 'z' then c as int - 'a' as int + 26
    else if '0' <= c <= '9' then c as int - '0' as int + 52
    else if c == '+' then 62
    else 63
  }

  lemma LetterHasValue(v: Sextet)
    ensures InAlphabet(Letter(v)) && Value(Letter(v)) == v
  {
  }

  /** The letters that spell a sequence of sextets. */
  function Spell(v: seq<Sextet>): (s: string)
    ensures |s| == |v| && AllInAlphabet(s)
  {
    if v == [] then ""
    else
      LetterHasValue(v[0]);
      [Letter(v[0])] + Spell(v[1..])
  }

  predicate AllInAlphabet(s: string) {
    forall i :: 0 <= i < |s| ==> InAlphabet(s[i])
  }

  function Unspell(s: string): (v: seq<Sextet>)
    requires AllInAlphabet(s)
    ensures |v| == |s|
  {
    if s == "" then [] else [Value(s[0])] + Unspell(s[1..])
  }

  // The four sextets of three bytes, and the bytes of four sextets.
  function Split0(x: Byte): Sextet { x / 4 }
  function Split1(x: Byte, y: Byte): Sextet { x % 4 * 16 + y / 16 }
  function Split2(y: Byte, z: Byte): Sextet { y % 16 * 4 + z / 64 }
  function Split3(z: Byte): Sextet { z % 64 }
  function Join0(a: Sextet, b: Sextet): Byte { a * 4 + b / 16 }
  function Join1(b: Sextet, c: Sextet): Byte { b % 16 * 16 + c / 4 }
  function Join2(c: Sextet, d: Sextet): Byte { c % 4 * 64 + d }

  lemma JoinSplit(x: Byte, y: Byte, z: Byte)
    ensures Join0(Split0(x), Split1(x, y)) == x
    ensures Join1(Split1(x, y), Split2(y, z)) == y
    ensures Join2(Split2(y, z), Split3(z)) == z
  {
  }

  /** Three bytes make four sextets; a last byte or two, with zeros behind them, two or three. */
  function Sextets(b: Bytes): seq<Sextet> {
    if |b| == 0 then []
    else if |b| == 1 then [Split0(b[0]), Split1(b[0], 0)]
    else if |b| == 2 then [Split0(b[0]), Split1(b[0], b[1]), Split2(b[1], 0)]
    else [Split0(b[0]), Split1(b[0], b[1]), Split2(b[1], b[2]), Split3(b[2])] + Sextets(b[3..])
  }

  /** What is left of an incomplete group of bits is dropped. */
  function FromSextets(v: seq<Sextet>): Bytes {
    if |v| < 2 then []
    else if |v| == 2 then [Join0(v[0], v[1])]
    else if |v| == 3 then [Join0(v[0], v[1]), Join1(v[1], v[2])]
    else [Join0(v[0], v[1]), Join1(v[1], v[2]), Join2(v[2], v[3])] + FromSextets(v[4..])
  }

  function Padding(n: nat): string {
    if n % 3 == 0 then "" else if n % 3 == 1 then "==" else "="
  }

  /** Buffer.toString('base64'). */
  function Encode(b: Bytes): string {
    Spell(Sextets(b)) + Padding(|b|)
  }

  /** The text without its trailing '=' characters. */
  function Unpadded(s: string): string {
    if s != "" && s[|s| - 1] == '=' then Unpadded(s[..|s| - 1]) else s
  }

  /** isEncrypted: letters, then only padding, and at least 40 characters. */
  predicate IsEncrypted(s: string) {
    AllInAlphabet(Unpadded(s)) && Unpadded(s) != "" && |s| >= SHORTEST_BLOB
  }

  /** The code of an ASCII capital, small letter, digit, plus or solidus: section 4 of RFC 4648. */
  predicate IsBase64Code(code: int) {
    65 <= code <= 90 || 97 <= code <= 122 || 48 <= code <= 57 || code == 43 || code == 47
  }

  /** n letters, at least one, and then only '='. */
  predicate LettersThenPadding(s: string, n: nat) {
    && 0 < n <= |s| && (forall i :: 0 <= i < n ==> IsBase64Code(s[i] as int))
    && (forall i :: n <= i < |s| ==> s[i] == '=')
  }

  lemma {:induction false} UnpaddedIs(s: string)
    ensures var n := |Unpadded(s)|;
            && n <= |s| && Unpadded(s) == s[..n] && (forall i :: n <= i < |s| ==> s[i] == '=')
            && (n > 0 ==> s[n - 1] != '=')
  {
    if s != "" && s[|s| - 1] == '=' {
      UnpaddedIs(s[..|s| - 1]);
    }
  }

  lemma AlphabetIsBase64(s: string)
    ensures AllInAlphabet(s) <==> forall i :: 0 <= i < |s| ==> IsBase64Code(s[i] as int)
  {
    assert forall i :: 0 <= i < |s| ==> (InAlphabet(s[i]) <==> IsBase64Code(s[i] as int));
  }

  lemma PaddingStartsOnce(s: string, m: nat, n: nat)
    requires LettersThenPadding(s, m) && n <= |s| && forall i :: n <= i < |s| ==> s[i] == '='
    requires n > 0 ==> s[n - 1] != '='
    ensures m == n
  {
    assert s[m - 1] != '=';
  }

  /** The shape of a blob: 40 characters or more, base64 letters and then only padding. */
  lemma BlobShapeIff(s: string)
    ensures IsEncrypted(s) <==> |s| >= 40 && exists n: nat :: LettersThenPadding(s, n)
  {
    UnpaddedIs(s);
    var n := |Unpadded(s)|;
    AlphabetIsBase64(Unpadded(s));
    hide Unpadded, AllInAlphabet, IsBase64Code;
    if IsEncrypted(s) {
      assert LettersThenPadding(s, n);
    }
    if exists m: nat :: LettersThenPadding(s, m) {
      var m: nat :| LettersThenPadding(s, m);
      PaddingStartsOnce(s, m, n);
    }
  }

  /** Buffer.from(s, 'base64'), of text that passes isEncrypted. */
  function Decode(s: string): Bytes
    requires IsEncrypted(s)
  {
    FromSextets(Unspell(Unpadded(s)))
  }

  lemma {:induction false} UnspellSpell(v: seq<Sextet>)
    ensures Unspell(Spell(v)) == v
  {
    if v != [] {
      LetterHasValue(v[0]);
      UnspellSpell(v[1..]);
      assert Spell(v)[1..] == Spell(v[1..]);
    }
  }

  lemma {:induction false} SextetsRoundTrip(b: Bytes)
    ensures FromSextets(Sextets(b)) == b
  {
    if |b| == 1 {
      LastByteRoundTrip(b[0]);
      assert b == [b[0]];
    } else if |b| == 2 {
      LastBytesRoundTrip(b[0], b[1]);
      assert b == [b[0], b[1]];
    } else if |b| >= 3 {
      SextetsUnfold(b);
      hide Sextets, FromSextets, Split0, Split1, Split2, Split3;
      SextetsRoundTrip(b[3..]);
      GroupRoundTrip(b[0], b[1], b[2], Sextets(b[3..]));
      assert b == [b[0], b[1], b[2]] + b[3..];
    }
  }

  lemma SextetsUnfold(b: Bytes)
    requires |b| >= 3
    ensures Sextets(b) ==
            [Split0(b[0]), Split1(b[0], b[1]), Split2(b[1], b[2]), Split3(b[2])] + Sextets(b[3..])
  {
  }

  lemma LastByteRoundTrip(x: Byte)
    ensures FromSextets([Split0(x), Split1(x, 0)]) == [x]
  {
    JoinSplit(x, 0, 0);
  }

  lemma LastBytesRoundTrip(x: Byte, y: Byte)
    ensures FromSextets([Split0(x), Split1(x, y), Split2(y, 0)]) == [x, y]
  {
    JoinSplit(x, y, 0);
  }

  lemma GroupRoundTrip(x: Byte, y: Byte, z: Byte, rest: seq<Sextet>)
    ensures FromSextets([Split0(x), Split1(x, y), Split2(y, z), Split3(z)] + rest) == [x, y, z] + FromSextets(rest)
  {
    var v := [Split0(x), Split1(x, y), Split2(y, z), Split3(z)] + rest;
    assert v[4..] == rest;
    JoinSplit(x, y, z);
  }

  lemma {:induction false} SextetsLength(b: Bytes)
    ensures |Sextets(b)| == (4 * |b| + 2) / 3
  {
    if |b| >= 3 {
      SextetsLength(b[3..]);
    }
  }

  lemma GroupLength(n: nat, left: nat)
    requires left < 3
    ensures (4 * (3 * n + left) + 2) / 3 + |Padding(3 * n + left)| == (3 * n + left + 2) / 3 * 4
  {
    assert (3 * n + left) % 3 == left;
  }

  /** Encoded text is four characters for every three bytes or part of them. */
  lemma EncodedLength(b: Bytes)
    ensures |Encode(b)| == (|b| + 2) / 3 * 4
  {
    SextetsLength(b);
    GroupLength(|b| / 3, |b| % 3);
    hide Sextets, Padding;
  }

  predicate PadBitsZero(b: Bytes, v: seq<Sextet>) {
    && (|b| % 3 == 1 ==> v != [] && v[|v| - 1] % 16 == 0)
    && (|b| % 3 == 2 ==> v != [] && v[|v| - 1] % 4 == 0)
  }

  lemma NothingBehind(x: Byte)
    ensures Split1(x, 0) % 16 == 0 && Split2(x, 0) % 4 == 0
  {
    var (p, q) := (x % 4, x % 16);
    assert Split1(x, 0) == p * 16 && Split2(x, 0) == q * 4;
    assert p * 16 % 16 == 0 && q * 4 % 4 == 0;
  }

  lemma ShortSextets(b: Bytes)
    requires |b| < 3
    ensures |b| == 1 ==> |Sextets(b)| == 2 && Sextets(b)[1] == Split1(b[0], 0)
    ensures |b| == 2 ==> |Sextets(b)| == 3 && Sextets(b)[2] == Split2(b[1], 0)
  {
    hide Split0, Split1, Split2, Split3;
  }

  lemma ShortPadBits(b: Bytes)
    requires |b| < 3
    ensures PadBitsZero(b, Sextets(b))
  {
    hide Sextets, Split1, Split2;
    ShortSextets(b);
    if |b| > 0 {
      NothingBehind(b[|b| - 1]);
    }
  }

  lemma LongerPadBits(b: Bytes, v: seq<Sextet>, more: seq<Sextet>)
    requires |b| >= 3 && PadBitsZero(b[3..], more) && |v| == 4 + |more| && v[4..] == more
    ensures PadBitsZero(b, v)
  {
    assert |b[3..]| % 3 == |b| % 3;
    assert more != [] ==> v[|v| - 1] == more[|more| - 1];
  }

  /** The bits of the last sextet that stand for nothing are zero, as section 3.5 of RFC 4648 has them. */
  lemma {:induction false} PadBitsAreZero(b: Bytes)
    ensures PadBitsZero(b, Sextets(b))
  {
    hide Sextets, PadBitsZero;
    if |b| < 3 {
      ShortPadBits(b);
    } else {
      PadBitsAreZero(b[3..]);
      SextetsTail(b);
      LongerPadBits(b, Sextets(b), Sextets(b[3..]));
    }
  }

  lemma SextetsTail(b: Bytes)
    requires |b| >= 3
    ensures |Sextets(b)| == 4 + |Sextets(b[3..])| && Sextets(b)[4..] == Sextets(b[3..])
  {
  }

  lemma UnpaddedLetters(s: string, n: nat)
    requires AllInAlphabet(s)
    ensures Unpadded(s + Padding(n)) == s
  {
    var p := Padding(n);
    assert Unpadded(s) == s by {
      assert s != "" ==> InAlphabet(s[|s| - 1]);
    }
    if p == "=" {
      assert (s + p)[..|s|] == s;
    } else if p == "==" {
      assert (s + p)[..|s| + 1] == s + "=";
      assert (s + "=")[..|s|] == s;
      assert Unpadded(s + "=") == s;
    } else {
      assert s + p == s;
    }
  }

  lemma PaddedDecodes(letters: string, n: nat)
    requires AllInAlphabet(letters) && letters != "" && |letters + Padding(n)| >= SHORTEST_BLOB
    ensures IsEncrypted(letters + Padding(n))
    ensures Decode(letters + Padding(n)) == FromSextets(Unspell(letters))
  {
    UnpaddedLetters(letters, n);
  }

  /** Base64 gives back what it was given, for every byte string long enough to be taken for a blob. */
  lemma Base64RoundTrip(b: Bytes)
    requires |b| >= IV_BYTES + TAG_BYTES
    ensures IsEncrypted(Encode(b)) && Decode(Encode(b)) == b
  {
    EncodedLength(b);
    SextetsLength(b);
    hide Sextets, FromSextets, Spell, Unspell, Padding, IsEncrypted, Decode;
    SpelledDecodes(Sextets(b), |b|);
    SextetsRoundTrip(b);
  }

  lemma SpelledDecodes(v: seq<Sextet>, n: nat)
    requires v != [] && |Spell(v) + Padding(n)| >= SHORTEST_BLOB
    ensures IsEncrypted(Spell(v) + Padding(n)) && Decode(Spell(v) + Padding(n)) == FromSextets(v)
  {
    PaddedDecodes(Spell(v), n);
    UnspellSpell(v);
  }

  // ---------------------------------------------------------------- the cipher

  datatype Sealed = Sealed(tag: Bytes, ciphertext: Bytes)

  type Key = Bytes

  datatype Cipher = Cipher(
    seal: (Key, Iv, string) -> Sealed,
    open: (Key, Bytes, Bytes, Bytes) -> Option<string>)

  predicate ValidKey(k: Key) {
    |k| == KEY_BYTES
  }

  /** What a key seals it opens. */
  ghost predicate Opens(c: Cipher, k: Key) {
    forall iv: Iv, p: string ::
      var x := c.seal(k, iv, p);
      |x.tag| == TAG_BYTES && c.open(k, iv, x.tag, x.ciphertext) == Some(p)
  }

  /** No blob passes the tag check of both keys. */
  ghost predicate Apart(c: Cipher, k: Key, k': Key) {
    forall iv: Bytes, tag: Bytes, ct: Bytes :: c.open(k, iv, tag, ct).None? || c.open(k', iv, tag, ct).None?
  }

  /** Only what a key has sealed passes its tag check. */
  ghost predicate Authentic(c: Cipher, k: Key) {
    forall iv: Bytes, tag: Bytes, ct: Bytes, p: string {:trigger c.open(k, iv, tag, ct), Some(p)} ::
      c.open(k, iv, tag, ct) == Some(p) ==> |iv| == IV_BYTES && c.seal(k, iv, p) == Sealed(tag, ct)
  }

  /** A ciphertext has at least a byte for every character. */
  ghost predicate Covers(c: Cipher, k: Key) {
    forall iv: Iv, p: string :: |c.seal(k, iv, p).ciphertext| >= |p|
  }

  /** What GCM promises of a key on its own: it opens what it sealed and nothing else. */
  ghost predicate Sound(c: Cipher, k: Key) {
    Opens(c, k) && Authentic(c, k) && Covers(c, k)
  }

  ghost predicate Ideal(c: Cipher, newKey: Key, oldKey: Key) {
    Opens(c, newKey) && Opens(c, oldKey) && Apart(c, newKey, oldKey)
  }

  // ---------------------------------------------------------------- the module's functions

  /** IV, tag and ciphertext, one after the other. */
  function Packed(c: Cipher, iv: Iv, plaintext: string, key: Key): Bytes {
    var x := c.seal(key, iv, plaintext);
    iv + x.tag + x.ciphertext
  }

  /** encryptWithKey; None is the error for a key of the wrong size. */
  function EncryptWithKey(c: Cipher, iv: Iv, plaintext: string, key: Key): Option<string> {
    if !ValidKey(key) then None else Some(Encode(Packed(c, iv, plaintext, key)))
  }

  /** Buffer.subarray, which clamps its bounds. */
  function Slice(b: Bytes, from: nat, to: nat): Bytes
    requires from <= to
  {
    if |b| < from then [] else if |b| < to then b[from..] else b[from..to]
  }

  function OpenBlob(c: Cipher, blob: Bytes, key: Key): Option<string> {
    var iv := Slice(blob, 0, IV_BYTES);
    var tag := Slice(blob, IV_BYTES, IV_BYTES + TAG_BYTES);
    var ct := if |blob| < IV_BYTES + TAG_BYTES then [] else blob[IV_BYTES + TAG_BYTES..];
    c.open(key, iv, tag, ct)
  }

  /** tryDecryptWith: text that is not a blob passes through. */
  function TryDecryptWith(c: Cipher, text: string, key: Key): Option<string> {
    if !IsEncrypted(text) then Some(text) else OpenBlob(c, Decode(text), key)
  }

  datatype KeyInfo = KeyInfo(plaintext: string, usedFallbackKey: bool)

  /** decryptWithKeyInfo: the primary key, then the previous one if there is one; None is the error. */
  function DecryptWithKeyInfo(c: Cipher, text: string, primary: Key, previous: Option<Key>): Option<KeyInfo> {
    if !IsEncrypted(text) then Some(KeyInfo(text, false))
    else
      var blob := Decode(text);
      match OpenBlob(c, blob, primary)
      case Some(p) => Some(KeyInfo(p, false))
      case None =>
        if previous.None? then None
        else
          match OpenBlob(c, blob, previous.value)
          case Some(p) => Some(KeyInfo(p, true))
          case None => None
  }

  /** decrypt, with the error as None. */
  function Read(c: Cipher, text: string, primary: Key, previous: Option<Key>): Option<string> {
    match DecryptWithKeyInfo(c, text, primary, previous)
    case Some(info) => Some(info.plaintext)
    case None => None
  }

  // ---------------------------------------------------------------- properties

  /** A packed blob comes apart into what it was made of. */
  lemma PackedOpens(c: Cipher, iv: Iv, plaintext: string, key: Key)
    requires Opens(c, key)
    ensures |Packed(c, iv, plaintext, key)| >= IV_BYTES + TAG_BYTES
    ensures OpenBlob(c, Packed(c, iv, plaintext, key), key) == Some(plaintext)
  {
    var x := c.seal(key, iv, plaintext);
    var blob := Packed(c, iv, plaintext, key);
    assert |x.tag| == TAG_BYTES && c.open(key, iv, x.tag, x.ciphertext) == Some(plaintext);
    assert blob[..IV_BYTES] == iv;
    assert blob[IV_BYTES..IV_BYTES + TAG_BYTES] == x.tag;
    assert blob[IV_BYTES + TAG_BYTES..] == x.ciphertext;
  }

  /**
   Encrypting and decrypting under one key gives back every plaintext, blob-shaped or
   empty ones included, and the result is always told to be encrypted.
   */
  lemma EncryptRoundTrip(c: Cipher, iv: Iv, plaintext: string, key: Key)
    requires ValidKey(key) && Opens(c, key)
    ensures var e := EncryptWithKey(c, iv, plaintext, key);
            e.Some? && IsEncrypted(e.value) && TryDecryptWith(c, e.value, key) == Some(plaintext)
  {
    PackedOpens(c, iv, plaintext, key);
    hide Packed, Opens, OpenBlob, Encode, Decode;
    Base64RoundTrip(Packed(c, iv, plaintext, key));
  }

  /** Only a key of 32 bytes encrypts. */
  lemma EncryptsIffKeyFits(c: Cipher, iv: Iv, plaintext: string, key: Key)
    ensures EncryptWithKey(c, iv, plaintext, key).Some? <==> |key| == 32
  {
    hide Packed, Encode;
  }

  /** Under the other key the tag check fails. */
  lemma OtherKeyFails(c: Cipher, iv: Iv, plaintext: string, key: Key, other: Key)
    requires ValidKey(key) && Opens(c, key) && Apart(c, key, other)
    ensures TryDecryptWith(c, EncryptWithKey(c, iv, plaintext, key).value, other) == None
  {
    EncryptRoundTrip(c, iv, plaintext, key);
  }

  /** During a rotation a value reads the same whichever of the two keys sealed it, and the flag tells which. */
  lemma DualKeyRead(c: Cipher, iv: Iv, plaintext: string, newKey: Key, oldKey: Key)
    requires ValidKey(newKey) && ValidKey(oldKey) && Ideal(c, newKey, oldKey)
    ensures var e := EncryptWithKey(c, iv, plaintext, newKey).value;
            DecryptWithKeyInfo(c, e, newKey, Some(oldKey)) == Some(KeyInfo(plaintext, false))
    ensures var e := EncryptWithKey(c, iv, plaintext, oldKey).value;
            DecryptWithKeyInfo(c, e, newKey, Some(oldKey)) == Some(KeyInfo(plaintext, true))
  {
    EncryptRoundTrip(c, iv, plaintext, newKey);
    EncryptRoundTrip(c, iv, plaintext, oldKey);
  }

  /** The bytes are what this key made of some plaintext. */
  ghost predicate SealedUnder(c: Cipher, blob: Bytes, key: Key) {
    exists iv: Iv, p: string :: blob == Packed(c, iv, p, key)
  }

  /** What opens was packed: the slices put together again. */
  lemma OpenedWasPacked(c: Cipher, blob: Bytes, key: Key)
    requires Opens(c, key) && Authentic(c, key) && OpenBlob(c, blob, key).Some?
    ensures |blob| >= IV_BYTES + TAG_BYTES
    ensures blob == Packed(c, blob[..IV_BYTES], OpenBlob(c, blob, key).value, key)
  {
    var p := OpenBlob(c, blob, key).value;
    var iv, tag := Slice(blob, 0, IV_BYTES), Slice(blob, IV_BYTES, IV_BYTES + TAG_BYTES);
    var ct := if |blob| < IV_BYTES + TAG_BYTES then [] else blob[IV_BYTES + TAG_BYTES..];
    assert c.open(key, iv, tag, ct) == Some(p);
    assert |iv| == IV_BYTES && c.seal(key, iv, p) == Sealed(tag, ct);
    assert |c.seal(key, iv, p).tag| == TAG_BYTES;
  }

  /** A blob opens exactly when the key sealed it. */
  lemma OpensIffSealed(c: Cipher, blob: Bytes, key: Key)
    requires Opens(c, key) && Authentic(c, key)
    ensures OpenBlob(c, blob, key).Some? <==> SealedUnder(c, blob, key)
  {
    if OpenBlob(c, blob, key).Some? {
      OpenedWasPacked(c, blob, key);
    }
    if SealedUnder(c, blob, key) {
      var iv: Iv, p: string :| blob == Packed(c, iv, p, key);
      PackedOpens(c, iv, p, key);
    }
  }

  /** A read fails exactly on a blob that no key at hand has sealed. */
  lemma ReadFailsIff(c: Cipher, text: string, primary: Key, previous: Option<Key>)
    requires Sound(c, primary) && (previous.Some? ==> Sound(c, previous.value))
    ensures Read(c, text, primary, previous) == None <==>
            && IsEncrypted(text)
            && !SealedUnder(c, Decode(text), primary)
            && (previous.Some? ==> !SealedUnder(c, Decode(text), previous.value))
  {
    if IsEncrypted(text) {
      OpensIffSealed(c, Decode(text), primary);
      if previous.Some? {
        OpensIffSealed(c, Decode(text), previous.value);
      }
    }
  }

  /**
   A read that succeeds says that it fell back exactly when the primary key alone does not read
   the text; then there is a previous key, and it does. Otherwise the primary key's reading is given.
   */
  lemma FallbackIffPrimaryFails(c: Cipher, text: string, primary: Key, previous: Option<Key>)
    requires DecryptWithKeyInfo(c, text, primary, previous).Some?
    ensures var info := DecryptWithKeyInfo(c, text, primary, previous).value;
            && (info.usedFallbackKey <==> TryDecryptWith(c, text, primary) == None)
            && (info.usedFallbackKey ==>
                  previous.Some? && TryDecryptWith(c, text, previous.value) == Some(info.plaintext))
            && (!info.usedFallbackKey ==> TryDecryptWith(c, text, primary) == Some(info.plaintext))
  {
    hide IsEncrypted, Decode, OpenBlob;
  }

  /** In terms of who sealed it: the flag is set exactly for a blob of the previous key alone. */
  lemma FallbackIffSealedByPrevious(c: Cipher, text: string, primary: Key, previous: Option<Key>)
    requires Sound(c, primary) && (previous.Some? ==> Sound(c, previous.value))
    requires DecryptWithKeyInfo(c, text, primary, previous).Some?
    ensures DecryptWithKeyInfo(c, text, primary, previous).value.usedFallbackKey <==>
            && IsEncrypted(text)
            && !SealedUnder(c, Decode(text), primary)
            && previous.Some? && SealedUnder(c, Decode(text), previous.value)
  {
    if IsEncrypted(text) {
      OpensIffSealed(c, Decode(text), primary);
      if previous.Some? {
        OpensIffSealed(c, Decode(text), previous.value);
      }
    }
    hide IsEncrypted, Decode, OpenBlob, SealedUnder, Sound;
  }

  /** What a read that fell back writes instead reads the same under the primary key, and never falls back again. */
  lemma RekeyingSettles(c: Cipher, iv: Iv, text: string, primary: Key, previous: Option<Key>, later: Option<Key>)
    requires ValidKey(primary) && Opens(c, primary)
    requires DecryptWithKeyInfo(c, text, primary, previous).Some?
    ensures var info := DecryptWithKeyInfo(c, text, primary, previous).value;
            DecryptWithKeyInfo(c, EncryptWithKey(c, iv, info.plaintext, primary).value, primary, later) ==
            Some(KeyInfo(info.plaintext, false))
  {
    var info := DecryptWithKeyInfo(c, text, primary, previous).value;
    EncryptRoundTrip(c, iv, info.plaintext, primary);
    hide IsEncrypted, Decode, OpenBlob, EncryptWithKey;
  }

  /** A text shorter than the blob of an empty plaintext is never told to be one. */
  lemma TooShortForABlob(text: string, empty: Bytes)
    requires |empty| == IV_BYTES + TAG_BYTES && |text| < |Encode(empty)|
    ensures !IsEncrypted(text)
  {
    EncodedLength(empty);
    hide Encode;
  }

  lemma {:induction false} FewerBytes(v: seq<Sextet>)
    ensures 4 * |FromSextets(v)| <= 3 * |v|
  {
    if |v| >= 4 {
      FewerBytes(v[4..]);
    }
  }

  lemma {:induction false} UnpaddedIsShorter(s: string)
    ensures |Unpadded(s)| <= |s|
  {
    if s != "" && s[|s| - 1] == '=' {
      UnpaddedIsShorter(s[..|s| - 1]);
    }
  }

  /** A text is too long to be inside the blob it decodes to. */
  lemma NeverReadsAsItself(c: Cipher, text: string, key: Key)
    requires Sound(c, key) && IsEncrypted(text)
    ensures OpenBlob(c, Decode(text), key) != Some(text)
  {
    var blob := Decode(text);
    UnpaddedIsShorter(text);
    FewerBytes(Unspell(Unpadded(text)));
    if OpenBlob(c, blob, key).Some? {
      OpenedWasPacked(c, blob, key);
      var p := OpenBlob(c, blob, key).value;
      assert |c.seal(key, blob[..IV_BYTES], p).ciphertext| >= |p|;
    }
  }

  /**
   A legacy plaintext reads as itself exactly when it does not have a blob's shape: 40 letters
   and digits stored before encryption was on are lost.
   */
  lemma LegacyPlaintextReadsIff(c: Cipher, text: string, primary: Key)
    requires Sound(c, primary)
    ensures Read(c, text, primary, None) == Some(text) <==> !IsEncrypted(text)
  {
    if IsEncrypted(text) {
      NeverReadsAsItself(c, text, primary);
    }
  }

  /** An e-mail address never has a blob's shape. */
  lemma AddressIsNotABlob(text: string)
    requires '@' in text
    ensures !IsEncrypted(text)
  {
    UnpaddedKeeps(text, '@');
  }

  lemma {:induction false} UnpaddedKeeps(s: string, ch: char)
    requires ch in s && ch != '='
    ensures ch in Unpadded(s)
  {
    if s[|s| - 1] == '=' {
      UnpaddedKeeps(s[..|s| - 1], ch);
    }
  }

  /** A hex secret does: the shape test cannot tell it from a blob. */
  lemma {:induction false} LettersAreABlob(text: string)
    requires AllInAlphabet(text) && |text| >= SHORTEST_BLOB
    ensures IsEncrypted(text)
  {
    assert Unpadded(text) == text by {
      assert InAlphabet(text[|text| - 1]);
    }
  }

  // ---------------------------------------------------------------- the assumption can be met

  function CharBytes(ch: char): Bytes {
    var n := ch as int;
    [n / 65536 % 256, n / 256 % 256, n % 256]
  }

  function Number(b: Bytes): int
    requires |b| >= 3
  {
    65536 * (b[0] as int) + 256 * (b[1] as int) + b[2] as int
  }

  lemma CharRoundTrip(ch: char)
    ensures |CharBytes(ch)| == 3 && Number(CharBytes(ch)) == ch as int
  {
  }

  function TextBytes(s: string): Bytes {
    if s == "" then [] else CharBytes(s[0]) + TextBytes(s[1..])
  }

  function BytesText(b: Bytes): Option<string> {
    if b == [] then Some("")
    else if |b| < 3 then None
    else
      var n := Number(b);
      var rest := BytesText(b[3..]);
      if rest.None? || 0xD800 <= n < 0xE000 || n >= 0x11_0000 then None else Some([n as char] + rest.value)
  }

  /** A toy cipher that writes the key in front of the text, with a tag of zeros. */
  const KEY_IN_FRONT := Cipher(
    (k: Key, iv: Iv, p: string) => Sealed(ZEROS, k + TextBytes(p)),
    (k: Key, iv: Bytes, tag: Bytes, ct: Bytes) =>
      if |iv| == IV_BYTES && tag == ZEROS && |k| <= |ct| && ct[..|k|] == k then BytesText(ct[|k|..]) else None)

  const ZEROS: Bytes := seq(16, _ => 0)

  lemma {:induction false} TextRoundTrip(s: string)
    ensures BytesText(TextBytes(s)) == Some(s)
    ensures |TextBytes(s)| == 3 * |s|
  {
    if s != "" {
      TextRoundTrip(s[1..]);
      CharRoundTrip(s[0]);
      assert TextBytes(s)[3..] == TextBytes(s[1..]);
      assert s == [s[0]] + s[1..];
    }
  }

  lemma Digits(x: Byte, y: Byte, z: Byte)
    ensures var n := 65536 * x + 256 * y + z; n / 65536 == x && n / 256 == 256 * x + y && n % 256 == z
  {
  }

  lemma NumberRoundTrip(x: Byte, y: Byte, z: Byte)
    requires var n := Number([x, y, z]); !(0xD800 <= n < 0xE000) && n < 0x11_0000
    ensures CharBytes(Number([x, y, z]) as char) == [x, y, z]
  {
    Digits(x, y, z);
  }

  lemma {:induction false} BytesRoundTrip(b: Bytes)
    requires BytesText(b).Some?
    ensures TextBytes(BytesText(b).value) == b
  {
    if b != [] {
      BytesRoundTrip(b[3..]);
      NumberRoundTrip(b[0], b[1], b[2]);
      assert b == [b[0], b[1], b[2]] + b[3..];
      assert BytesText(b).value[1..] == BytesText(b[3..]).value;
    }
  }

  lemma ToyOpens(k: Key)
    ensures Opens(KEY_IN_FRONT, k) && Covers(KEY_IN_FRONT, k)
  {
    forall iv: Iv, p: string
      ensures var x := KEY_IN_FRONT.seal(k, iv, p);
              && |x.tag| == TAG_BYTES && KEY_IN_FRONT.open(k, iv, x.tag, x.ciphertext) == Some(p)
              && |x.ciphertext| >= |p|
    {
      TextRoundTrip(p);
      assert (k + TextBytes(p))[..|k|] == k;
      assert (k + TextBytes(p))[|k|..] == TextBytes(p);
    }
  }

  lemma KeyInFront(k: Key, ct: Bytes, p: string)
    requires |k| <= |ct| && ct[..|k|] == k && BytesText(ct[|k|..]) == Some(p)
    ensures k + TextBytes(p) == ct
  {
    BytesRoundTrip(ct[|k|..]);
    assert ct == ct[..|k|] + ct[|k|..];
  }

  lemma ToyIsAuthentic(k: Key)
    ensures Authentic(KEY_IN_FRONT, k)
  {
    hide TextBytes, BytesText;
    forall iv: Bytes, tag: Bytes, ct: Bytes, p: string | KEY_IN_FRONT.open(k, iv, tag, ct) == Some(p)
      ensures |iv| == IV_BYTES && KEY_IN_FRONT.seal(k, iv, p) == Sealed(tag, ct)
    {
      KeyInFront(k, ct, p);
    }
  }

  /** Ideal ciphers, sound under each key, exist for every two different keys of one size. */
  lemma IdealCiphersExist(newKey: Key, oldKey: Key)
    requires newKey != oldKey && |newKey| == |oldKey|
    ensures Ideal(KEY_IN_FRONT, newKey, oldKey)
    ensures Sound(KEY_IN_FRONT, newKey) && Sound(KEY_IN_FRONT, oldKey)
  {
    ToyOpens(newKey);
    ToyOpens(oldKey);
    ToyIsAuthentic(newKey);
    ToyIsAuthentic(oldKey);
  }
}
