/** Decrypting a `{cipher}` password (`src/redis_password.ts`): hexadecimal text, block splitting, modular
    exponentiation and PKCS#1 v1.5 unpadding, with the key as a parameter. */
module RedisPassword {
  type Byte = x: int | 0 <= x < 256

  type Bytes = seq<Byte>

  datatype Failure = OddLength | LargerThanModulus | DecryptionError

  datatype Result<+T> = Ok(value: T) | Err(failure: Failure)

  const MIN_PADDING_LENGTH := 8

  // ----- modular exponentiation -----

  function Pow(b: nat, e: nat): nat {
    if e == 0 then 1 else b * Pow(b, e - 1)
  }

  lemma SameDivision(m: int, q: int, r: int, q': int, r': int)
    requires 0 <= r < m && 0 <= r' < m && m * q + r == m * q' + r'
    ensures q == q' && r == r'
  {
    AtLeastOnce(m, q - q');
    AtLeastOnce(m, q' - q);
    assert m * (q - q') == m * q - m * q' && m * (q' - q) == m * q' - m * q;
  }

  lemma AtLeastOnce(m: int, k: int)
    requires m > 0
    ensures k > 0 ==> m * k >= m
  {
    assert m * k == m * (k - 1) + m;
  }

  lemma QuotientIsUnique(a: int, m: int, q: int, r: int)
    requires m > 0 && a == m * q + r && 0 <= r < m
    ensures a % m == r
  {
    SameDivision(m, q, r, a / m, a % m);
  }

  lemma ModOfProduct(x: int, y: int, m: int)
    requires m > 0
    ensures ((x % m) * y) % m == (x * y) % m
  {
    var r, z := x % m, (x % m) * y;
    assert x == m * (x / m) + r;
    assert x * y == m * ((x / m) * y) + z by {
      assert (m * (x / m)) * y == m * ((x / m) * y);
    }
    assert z == m * (z / m) + z % m;
    assert x * y == m * ((x / m) * y + z / m) + z % m;
    QuotientIsUnique(x * y, m, (x / m) * y + z / m, z % m);
  }

  lemma {:induction false} PowOfMod(b: nat, e: nat, m: nat)
    requires m > 0
    ensures Pow(b % m, e) % m == Pow(b, e) % m
  {
    if e > 0 {
      PowOfMod(b, e - 1, m);
      var p, q := Pow(b % m, e - 1), Pow(b, e - 1);
      ModOfProduct(p, b % m, m);
      ModOfProduct(q, b % m, m);
      ModOfProduct(b, q, m);
      assert p * (b % m) == (b % m) * p && q * (b % m) == (b % m) * q;
    }
  }

  lemma {:induction false} PowOfSquare(b: nat, e: nat)
    ensures Pow(b * b, e) == Pow(b, 2 * e)
  {
    if e > 0 {
      PowOfSquare(b, e - 1);
      var p := Pow(b, 2 * e - 2);
      assert Pow(b, 2 * e) == b * Pow(b, 2 * e - 1) == b * (b * p);
      assert (b * b) * p == b * (b * p);
    }
  }

  /** What one turn of the loop keeps: an odd exponent moves one factor into the result, and the base is squared. */
  lemma TurnKeepsThePower(result: nat, b: nat, e: nat, m: nat)
    requires m > 0 && e > 0
    ensures var result' := if e % 2 == 1 then (result * b) % m else result;
            (result' * Pow((b * b) % m, e / 2)) % m == (result * Pow(b, e)) % m
  {
    var h := e / 2;
    var s, p := Pow((b * b) % m, h), Pow(b, 2 * h);
    PowOfMod(b * b, h, m);
    PowOfSquare(b, h);
    assert s % m == p % m;
    if e % 2 == 1 {
      assert Pow(b, e) == b * p;
      ModOfProduct(result * b, s, m);
      SameModSameProduct(result * b, s, p, m);
      assert (result * b) * p == result * (b * p);
    } else {
      SameModSameProduct(result, s, p, m);
    }
  }

  lemma SameModSameProduct(x: nat, s: nat, p: nat, m: nat)
    requires m > 0 && s % m == p % m
    ensures (x * s) % m == (x * p) % m
  {
    ModOfProduct(s, x, m);
    ModOfProduct(p, x, m);
    assert x * s == s * x && x * p == p * x;
  }

  /** Square and multiply; below a modulus of two the loop's starting value shows through. */
  method ModPow(base: nat, exponent: nat, modulus: nat) returns (result: nat)
    requires modulus > 0
    ensures modulus > 1 || exponent > 0 ==> result == Pow(base, exponent) % modulus
    ensures modulus == 1 && exponent == 0 ==> result == 1
  {
    result := 1;
    var b: nat := base % modulus;
    var e: nat := exponent;
    PowOfMod(base, exponent, modulus);
    SameModSameProduct(1, Pow(b, e), Pow(base, e), modulus);
    while e > 0
      invariant (result * Pow(b, e)) % modulus == Pow(base, exponent) % modulus
      invariant modulus > 1 || (e == 0 && exponent > 0) ==> result < modulus
      invariant exponent == 0 ==> result == 1
    {
      TurnKeepsThePower(result, b, e, modulus);
      if e % 2 == 1 {
        result := (result * b) % modulus;
      }
      b := (b * b) % modulus;
      e := e / 2;
    }
    assert result * Pow(b, 0) == result;
    if result < modulus {
      QuotientIsUnique(result, modulus, 0, result);
    }
  }

  // ----- hexadecimal text -----

  /** One character's value; a character that is no hexadecimal digit is not rejected. */
  function AscToBcd(asc: Byte): Byte {
    if 0x30 <= asc <= 0x39 then asc - 0x30
    else if 0x41 <= asc <= 0x46 then asc - 0x41 + 10
    else if 0x61 <= asc <= 0x66 then asc - 0x61 + 10
    else (asc - 48) % 256
  }

  /** `c` is a spelling of the digit `v`, in either case. */
  predicate IsHexDigit(c: Byte, v: int) {
    || (0 <= v < 10 && c == 0x30 + v)
    || (10 <= v < 16 && (c == 0x41 + v - 10 || c == 0x61 + v - 10))
  }

  /** `text` spells `data` in hexadecimal, each digit in whichever case. */
  ghost predicate Spells(text: Bytes, data: Bytes) {
    |text| == 2 * |data| &&
    forall i :: 0 <= i < |data| ==> IsHexDigit(text[2 * i], data[i] / 16) && IsHexDigit(text[2 * i + 1], data[i] % 16)
  }

  /** The byte each pair of characters is read as. */
  function Read(ascii: Bytes): Bytes {
    seq(|ascii| / 2, i requires 0 <= i < |ascii| / 2 => (AscToBcd(ascii[2 * i + 1]) +
                                                         16 * AscToBcd(ascii[2 * i])) % 256)
  }

  /** `asciiToBcd`: pairs of characters become bytes; an odd length is refused. */
  method AsciiToBcd(ascii: Bytes, length: nat) returns (r: Result<Bytes>)
    requires length <= |ascii|
    ensures r == if length % 2 == 1 then Err(OddLength) else Ok(Read(ascii[..length]))
  {
    var bcd := new Byte[length / 2];
    var j := 0;
    var i := 0;
    while i < (length + 1) / 2
      invariant 0 <= i <= bcd.Length && j == 2 * i
      invariant forall k :: 0 <= k < i ==> bcd[k] == (AscToBcd(ascii[2 * k + 1]) + 16 * AscToBcd(ascii[2 * k])) % 256
    {
      if i >= bcd.Length {
        return Err(OddLength);
      }
      var high: int := AscToBcd(ascii[j]);
      j := j + 1;
      var low: int := 0;
      if j < length {
        low := AscToBcd(ascii[j]);
        j := j + 1;
      }
      bcd[i] := (low + high * 16) % 256;
      i := i + 1;
    }
    assert length % 2 == 0 && bcd[..] == Read(ascii[..length]);
    return Ok(bcd[..]);
  }

  /** Reading back a spelling gives the bytes it spells, whatever the case of each digit. */
  lemma ReadingInvertsSpelling(text: Bytes, data: Bytes)
    requires Spells(text, data)
    ensures |text| % 2 == 0 && Read(text) == data
  {
    forall i | 0 <= i < |data| ensures Read(text)[i] == data[i] {
      assert AscToBcd(text[2 * i]) == data[i] / 16 && AscToBcd(text[2 * i + 1]) == data[i] % 16;
    }
  }

  /** A text made of hexadecimal digits spells what it is read as. */
  lemma DigitsSpellWhatIsRead(text: Bytes)
    requires |text| % 2 == 0 && forall c :: c in text ==> exists v :: IsHexDigit(c, v)
    ensures Spells(text, Read(text))
  {
    hide AscToBcd, IsHexDigit;
    forall i | 0 <= i < |text| / 2
      ensures IsHexDigit(text[2 * i], Read(text)[i] / 16) && IsHexDigit(text[2 * i + 1], Read(text)[i] % 16)
    {
      var high, low := text[2 * i], text[2 * i + 1];
      assert high in text && low in text;
      DigitIsRead(high);
      DigitIsRead(low);
      Nibbles(AscToBcd(high), AscToBcd(low));
      assert Read(text)[i] == (AscToBcd(low) + 16 * AscToBcd(high)) % 256;
    }
  }

  lemma Nibbles(high: int, low: int)
    requires 0 <= high < 16 && 0 <= low < 16
    ensures var b := (low + 16 * high) % 256;
            b / 16 == high && b % 16 == low
  {
  }

  lemma DigitIsRead(c: Byte)
    ensures (exists v :: IsHexDigit(c, v)) ==> IsHexDigit(c, AscToBcd(c)) && AscToBcd(c) < 16
  {
  }

  /** Not only hexadecimal digits are read: a colon counts as ten. */
  lemma OthersReadAsOffsets(c: Byte)
    requires forall v :: !IsHexDigit(c, v)
    ensures AscToBcd(c) == if c >= 48 then c - 48 else c + 208
  {
    assert !IsHexDigit(c, c - 0x30) && !IsHexDigit(c, c - 0x41 + 10) && !IsHexDigit(c, c - 0x61 + 10);
  }

  lemma ColonReadsAsTen()
    ensures AscToBcd(0x3A) == 10 && forall v :: !IsHexDigit(0x3A, v)
  {
  }

  // ----- blocks -----

  function Zeros(n: nat): Bytes {
    seq(n, _ => 0)
  }

  function Flatten(blocks: seq<Bytes>): Bytes {
    if blocks == [] then [] else blocks[0] + Flatten(blocks[1..])
  }

  /** The blocks of `data`, the last one padded with zeros on the right. */
  function Blocks(data: Bytes, length: nat): seq<Bytes>
    requires length > 0
    decreases |data|
  {
    if data == [] then []
    else if |data| <= length then [data + Zeros(length - |data|)]
    else [data[..length]] + Blocks(data[length..], length)
  }

  /** Blocks all have the same size and together hold the data, followed by fewer zeros than fill one block. */
  lemma {:induction false} BlocksHoldTheData(data: Bytes, length: nat)
    requires length > 0
    ensures forall i :: 0 <= i < |Blocks(data, length)| ==> |Blocks(data, length)[i]| == length
    ensures var joined := Flatten(Blocks(data, length));
            |data| <= |joined| < |data| + length && joined == data + Zeros(|joined| - |data|)
    decreases |data|
  {
    if data == [] {
      assert Zeros(0) == [];
    } else if |data| <= length {
      OneBlock(data + Zeros(length - |data|));
    } else {
      var first, rest := data[..length], data[length..];
      BlocksHoldTheData(rest, length);
      FlattenCons(first, Blocks(rest, length));
      assert data == first + rest;
      hide Zeros, Flatten;
      var n := |Flatten(Blocks(rest, length))| - |rest|;
      assert first + (rest + Zeros(n)) == (first + rest) + Zeros(n);
    }
  }

  lemma FlattenCons(first: Bytes, rest: seq<Bytes>)
    ensures Flatten([first] + rest) == first + Flatten(rest)
  {
    assert ([first] + rest)[1..] == rest;
  }

  lemma OneBlock(block: Bytes)
    ensures Flatten([block]) == block
  {
    assert [block][1..] == [];
  }

  /** Splitting undoes joining blocks of the right size. */
  lemma {:induction false} SplittingUndoesJoining(blocks: seq<Bytes>, length: nat)
    requires length > 0 && forall b :: b in blocks ==> |b| == length
    ensures Blocks(Flatten(blocks), length) == blocks
  {
    if blocks != [] {
      var joined := Flatten(blocks);
      SplittingUndoesJoining(blocks[1..], length);
      assert blocks[0] in blocks;
      assert joined[..length] == blocks[0] && joined[length..] == Flatten(blocks[1..]);
      if |joined| <= length {
        assert joined == blocks[0] && Flatten(blocks[1..]) == [];
        assert blocks[1..] == Blocks([], length);
        assert blocks == [blocks[0]] + blocks[1..];
        assert joined + Zeros(0) == joined;
      }
    }
  }

  /** The blocks from position `i` on. */
  function BlocksFrom(data: Bytes, i: nat, length: nat): seq<Bytes>
    requires length > 0
  {
    if i < |data| then Blocks(data[i..], length) else []
  }

  lemma NextBlock(data: Bytes, i: nat, length: nat)
    requires length > 0 && i < |data|
    ensures var end := if i + length < |data| then i + length else |data|;
            BlocksFrom(data, i, length) ==
            [data[i..end] + Zeros(length - (end - i))] + BlocksFrom(data, i + length, length)
  {
    if i + length < |data| {
      assert data[i..][length..] == data[i + length..] && data[i..][..length] == data[i..i + length];
      assert data[i..i + length] + Zeros(0) == data[i..i + length];
    } else {
      assert data[i..|data|] == data[i..];
    }
  }

  /** `splitArray`. */
  method SplitArray(data: Bytes, length: nat) returns (blocks: seq<Bytes>)
    requires length > 0
    ensures blocks == Blocks(data, length)
  {
    hide BlocksFrom, Blocks;
    blocks := [];
    var i := 0;
    FromTheStart(data, length);
    while i < |data|
      invariant 0 <= i
      invariant blocks + BlocksFrom(data, i, length) == Blocks(data, length)
    {
      var block := new Byte[length](_ => 0);
      var end := if i + length < |data| then i + length else |data|;
      forall k | 0 <= k < end - i {
        block[k] := data[i + k];
      }
      NextBlock(data, i, length);
      assert block[..] == data[i..end] + Zeros(length - (end - i));
      ghost var rest := BlocksFrom(data, i + length, length);
      assert blocks + ([block[..]] + rest) == (blocks + [block[..]]) + rest;
      blocks := blocks + [block[..]];
      i := i + length;
    }
    PastTheEnd(data, i, length);
  }

  lemma FromTheStart(data: Bytes, length: nat)
    requires length > 0
    ensures BlocksFrom(data, 0, length) == Blocks(data, length)
  {
    assert data[0..] == data;
  }

  lemma PastTheEnd(data: Bytes, i: nat, length: nat)
    requires length > 0 && i >= |data|
    ensures BlocksFrom(data, i, length) == []
  {
  }

  // ----- integers and octets -----

  /** The integer a big-endian octet string stands for. */
  function Value(octets: Bytes): nat {
    if octets == [] then 0 else Value(octets[..|octets| - 1]) * 256 + octets[|octets| - 1]
  }

  /** The big-endian octet string of the given length. */
  function Octets(x: nat, length: nat): (r: Bytes)
    ensures |r| == length
  {
    if length == 0 then [] else Octets(x / 256, length - 1) + [x % 256]
  }

  lemma {:induction false} OctetsOfValue(octets: Bytes)
    ensures Octets(Value(octets), |octets|) == octets
    ensures Value(octets) < Pow(256, |octets|)
  {
    if octets != [] {
      var front := octets[..|octets| - 1];
      OctetsOfValue(front);
      assert octets == front + [octets[|octets| - 1]];
    }
  }

  lemma {:induction false} ValueOfOctets(x: nat, length: nat)
    requires x < Pow(256, length)
    ensures Value(Octets(x, length)) == x
  {
    if length > 0 {
      assert x / 256 < Pow(256, length - 1);
      ValueOfOctets(x / 256, length - 1);
      assert Octets(x, length)[..length - 1] == Octets(x / 256, length - 1);
    }
  }

  lemma {:induction false} LeadingZero(octets: Bytes)
    requires octets != [] && octets[0] == 0
    ensures Value(octets) < Pow(256, |octets| - 1)
  {
    if |octets| == 1 {
      assert octets[..0] == [];
      assert Value(octets[..0]) == 0;
    } else {
      LeadingZero(octets[..|octets| - 1]);
    }
  }

  // ----- one block -----

  /** The position of the first zero at or after `from`, or none. */
  function IndexOfZero(em: Bytes, from: nat): (r: int)
    requires from <= |em|
    ensures r == -1 || (from <= r < |em| && em[r] == 0)
    ensures forall k :: from <= k < (if r == -1 then |em| else r) ==> em[k] != 0
    decreases |em| - from
  {
    if from == |em| then -1 else if em[from] == 0 then from else IndexOfZero(em, from + 1)
  }

  function Unpad(em: Bytes): Result<Bytes> {
    if |em| < 2 || em[0] != 0 || em[1] != 2 then Err(DecryptionError)
    else
      var separator := IndexOfZero(em, 2);
      if separator < 0 || separator - 2 < MIN_PADDING_LENGTH then Err(DecryptionError) else Ok(em[separator + 1..])
  }

  /** An encoded message of section 7.2.2 of RFC 8017: 0x00, 0x02, at least eight nonzero padding octets, 0x00, the
      message. */
  ghost predicate IsEncoding(em: Bytes, padding: Bytes, message: Bytes) {
    em == [0, 2] + padding + [0] + message && |padding| >= 8 && 0 !in padding
  }

  /** Unpadding accepts exactly the encodings of that section, and returns the message encoded. */
  lemma UnpadAcceptsExactlyEncodings(em: Bytes, message: Bytes)
    ensures Unpad(em) == Ok(message) <==> exists padding :: IsEncoding(em, padding, message)
  {
    if Unpad(em) == Ok(message) {
      var separator := IndexOfZero(em, 2);
      var padding := em[2..separator];
      assert em[..2] == [0, 2];
      assert em == em[..2] + padding + [em[separator]] + em[separator + 1..];
      assert IsEncoding(em, padding, message);
    }
    if padding :| IsEncoding(em, padding, message) {
      EncodingIsUnpadded(em, padding, message);
    }
  }

  lemma EncodingIsUnpadded(em: Bytes, padding: Bytes, message: Bytes)
    requires IsEncoding(em, padding, message)
    ensures Unpad(em) == Ok(message)
  {
    var at := 2 + |padding|;
    assert forall k :: 2 <= k < at ==> em[k] == padding[k - 2] && padding[k - 2] in padding;
    assert em[at] == 0 && em[at + 1..] == message;
    assert IndexOfZero(em, 2) == at;
  }

  /** The key; `length` is its modulus in whole octets. */
  datatype Key = Key(modulus: nat, privateExponent: nat, length: nat)

  /** A modulus of exactly `length` octets. */
  ghost predicate ProperKey(key: Key) {
    key.length > 0 && key.modulus > 1 && Pow(256, key.length - 1) <= key.modulus <= Pow(256, key.length)
  }

  function DecryptedBlock(key: Key, block: Bytes): Result<Bytes>
    requires key.modulus > 1
  {
    if Value(block) >= key.modulus then Err(LargerThanModulus)
    else Unpad(Octets(Pow(Value(block), key.privateExponent) % key.modulus, key.length))
  }

  method RsaDecryptBlock(key: Key, block: Bytes) returns (r: Result<Bytes>)
    requires ProperKey(key)
    ensures r == DecryptedBlock(key, block)
  {
    var c := Value(block);
    if c >= key.modulus {
      return Err(LargerThanModulus);
    }
    var m := ModPow(c, key.privateExponent, key.modulus);
    return Unpad(Octets(m, key.length));
  }

  /** The public operation that the private exponent inverts below the modulus. */
  ghost predicate Inverts(key: Key, encrypt: nat -> nat) {
    key.modulus > 1 &&
    forall x: nat :: x < key.modulus ==> encrypt(x) < key.modulus &&
                                         Pow(encrypt(x), key.privateExponent) % key.modulus == x
  }

  /** `block` is `message`, encoded and encrypted. */
  ghost predicate Encrypts(key: Key, encrypt: nat -> nat, block: Bytes, message: Bytes) {
    exists em, padding :: |em| == key.length && IsEncoding(em, padding, message) &&
                          block == Octets(encrypt(Value(em)), key.length)
  }

  lemma BlockIsRecovered(key: Key, encrypt: nat -> nat, block: Bytes, message: Bytes)
    requires ProperKey(key) && Inverts(key, encrypt) && Encrypts(key, encrypt, block, message)
    ensures DecryptedBlock(key, block) == Ok(message) && |block| == key.length
  {
    var em, padding :| |em| == key.length && IsEncoding(em, padding, message) &&
                       block == Octets(encrypt(Value(em)), key.length);
    LeadingZero(em);
    ValueOfOctets(encrypt(Value(em)), key.length);
    OctetsOfValue(em);
    EncodingIsUnpadded(em, padding, message);
  }

  /** A block decrypts to a message exactly if it is a number below the modulus whose power is an encoding of it. */
  lemma BlockDecryptsExactly(key: Key, block: Bytes, message: Bytes)
    requires ProperKey(key)
    ensures DecryptedBlock(key, block) == Ok(message) <==>
            && Value(block) < key.modulus
            && exists em, padding :: |em| == key.length && IsEncoding(em, padding, message) &&
                                     Value(em) == Pow(Value(block), key.privateExponent) % key.modulus
  {
    var power := Pow(Value(block), key.privateExponent) % key.modulus;
    var em := Octets(power, key.length);
    ValueOfOctets(power, key.length);
    UnpadAcceptsExactlyEncodings(em, message);
    hide Unpad, Pow, Octets, Value, IsEncoding;
    forall other, padding | |other| == key.length && IsEncoding(other, padding, message) && Value(other) == power
      ensures IsEncoding(em, padding, message)
    {
      OctetsOfValue(other);
    }
  }

  // ----- the whole text -----

  /** The decrypted blocks, or the first failure. */
  function DecryptedBlocks(key: Key, blocks: seq<Bytes>): Result<seq<Bytes>>
    requires key.modulus > 1
  {
    if blocks == [] then Ok([])
    else
      match DecryptedBlocks(key, blocks[..|blocks| - 1])
      case Err(e) => Err(e)
      case Ok(front) =>
        match DecryptedBlock(key, blocks[|blocks| - 1])
        case Err(e) => Err(e)
        case Ok(last) => Ok(front + [last])
  }

  function Texts(utf8: Bytes -> string, messages: seq<Bytes>): string {
    if messages == [] then "" else Texts(utf8, messages[..|messages| - 1]) + utf8(messages[|messages| - 1])
  }

  lemma {:induction false} AllBlocksAreRecovered(key: Key, encrypt: nat -> nat, blocks: seq<Bytes>,
                                                 messages: seq<Bytes>)
    requires ProperKey(key) && Inverts(key, encrypt) && |blocks| == |messages|
    requires forall i :: 0 <= i < |blocks| ==> Encrypts(key, encrypt, blocks[i], messages[i])
    ensures DecryptedBlocks(key, blocks) == Ok(messages)
    ensures forall b :: b in blocks ==> |b| == key.length
  {
    hide DecryptedBlock, Encrypts, Inverts, ProperKey;
    KeyIsUsable(key);
    if blocks != [] {
      var n := |blocks| - 1;
      AllBlocksAreRecovered(key, encrypt, blocks[..n], messages[..n]);
      BlockIsRecovered(key, encrypt, blocks[n], messages[n]);
      assert blocks == blocks[..n] + [blocks[n]] && messages == messages[..n] + [messages[n]];
    }
  }

  /** The blocks decrypt to these messages exactly if each of them does to its own. */
  lemma {:induction false} BlocksDecryptExactly(key: Key, blocks: seq<Bytes>, messages: seq<Bytes>)
    requires key.modulus > 1
    ensures DecryptedBlocks(key, blocks) == Ok(messages) <==>
            |messages| == |blocks| && forall i :: 0 <= i < |blocks| ==>
                DecryptedBlock(key, blocks[i]) == Ok(messages[i])
  {
    hide DecryptedBlock;
    if blocks != [] {
      var n := |blocks| - 1;
      if messages != [] {
        var m := |messages| - 1;
        BlocksDecryptExactly(key, blocks[..n], messages[..m]);
        assert messages == messages[..m] + [messages[m]];
        var front := DecryptedBlocks(key, blocks[..n]);
        if front.Ok? {
          assert forall last :: front.value + [last] == messages ==>
                 front.value == messages[..m] && last == messages[m];
        }
      }
    }
  }

  lemma KeyIsUsable(key: Key)
    requires ProperKey(key)
    ensures key.modulus > 1
  {
  }

  /** One failed block fails the prefix it ends, and so the whole. */
  lemma {:induction false} FailureSpreads(key: Key, blocks: seq<Bytes>, i: nat)
    requires key.modulus > 1 && i <= |blocks| && DecryptedBlocks(key, blocks[..i]).Err?
    ensures DecryptedBlocks(key, blocks).Err?
    decreases |blocks|
  {
    if i == |blocks| {
      assert blocks[..i] == blocks;
    } else {
      assert blocks[..|blocks| - 1][..i] == blocks[..i];
      FailureSpreads(key, blocks[..|blocks| - 1], i);
    }
  }

  method DecryptBlocks(key: Key, blocks: seq<Bytes>, utf8: Bytes -> string) returns (text: Result<string>)
    requires ProperKey(key)
    ensures var messages := DecryptedBlocks(key, blocks);
            if messages.Err? then text.Err? else text == Ok(Texts(utf8, messages.value))
  {
    hide DecryptedBlock, Pow;
    var plaintext := "";
    ghost var done: seq<Bytes> := [];
    for i := 0 to |blocks|
      invariant DecryptedBlocks(key, blocks[..i]) == Ok(done) && plaintext == Texts(utf8, done)
    {
      assert blocks[..i + 1][..i] == blocks[..i] && blocks[..i + 1][i] == blocks[i];
      var block := RsaDecryptBlock(key, blocks[i]);
      if block.Err? {
        FailureSpreads(key, blocks, i + 1);
        return Err(block.failure);
      }
      assert (done + [block.value])[..|done|] == done;
      done := done + [block.value];
      plaintext := plaintext + utf8(block.value);
    }
    assert blocks[..|blocks|] == blocks;
    return Ok(plaintext);
  }

  /** `text` spells the messages, encrypted block by block. */
  ghost predicate Sends(key: Key, encrypt: nat -> nat, text: Bytes, messages: seq<Bytes>) {
    exists blocks :: |blocks| == |messages| && Spells(text, Flatten(blocks)) &&
                     forall i :: 0 <= i < |blocks| ==> Encrypts(key, encrypt, blocks[i], messages[i])
  }

  lemma SentIsRecovered(key: Key, encrypt: nat -> nat, text: Bytes, messages: seq<Bytes>)
    requires ProperKey(key) && Inverts(key, encrypt) && Sends(key, encrypt, text, messages)
    ensures |text| % 2 == 0 && DecryptedBlocks(key, Blocks(Read(text), key.length)) == Ok(messages)
  {
    hide Spells, Encrypts, Inverts, Read;
    var blocks :| |blocks| == |messages| && Spells(text, Flatten(blocks)) &&
                  forall i :: 0 <= i < |blocks| ==> Encrypts(key, encrypt, blocks[i], messages[i]);
    AllBlocksAreRecovered(key, encrypt, blocks, messages);
    SplittingUndoesJoining(blocks, key.length);
    ReadingInvertsSpelling(text, Flatten(blocks));
  }

  /** `decrypt`: an odd length fails; so does any failing block; and whatever was encrypted block by block under the
      inverse of the private exponent, and written in hexadecimal, comes back, each block's bytes decoded on their own.
      `utf8` is the buffer's lossy decoding. */
  method Decrypt(key: Key, ascii: Bytes, length: nat, utf8: Bytes -> string) returns (text: Result<string>)
    requires ProperKey(key) && length <= |ascii|
    ensures var messages := DecryptedBlocks(key, Blocks(Read(ascii[..length]), key.length));
            if length % 2 == 1 || messages.Err? then text.Err? else text == Ok(Texts(utf8, messages.value))
    ensures forall encrypt, messages :: Inverts(key, encrypt) && Sends(key, encrypt, ascii[..length], messages) ==>
              text == Ok(Texts(utf8, messages))
  {
    hide DecryptedBlocks, Encrypts, Inverts, Spells, Blocks, Texts, Flatten, AscToBcd, Read, Sends;
    forall encrypt, messages | Inverts(key, encrypt) && Sends(key, encrypt, ascii[..length], messages)
      ensures length % 2 == 0 && DecryptedBlocks(key, Blocks(Read(ascii[..length]), key.length)) == Ok(messages)
    {
      SentIsRecovered(key, encrypt, ascii[..length], messages);
    }
    var bcd := AsciiToBcd(ascii, length);
    if bcd.Err? {
      return Err(bcd.failure);
    }
    var blocks := SplitArray(bcd.value, key.length);
    text := DecryptBlocks(key, blocks, utf8);
  }
}
