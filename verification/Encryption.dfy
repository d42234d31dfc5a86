/** Padded base64, section 4 of RFC 4648. */
module Base64 {
  import opened Basics

  type Sextet = v: int | 0 <= v < 64

  function Symbol(v: Sextet): char {
    if v < 26 then 'A' + v as char
    else if v < 52 then 'a' + (v - 26) as char
    else if v < 62 then '0' + (v - 52) as char
    else if v == 62 then '+' else '/'
  }

  function SymbolValue(c: char): Option<Sextet> {
    if 'A' <= c <= 'Z' then Some(c as int - 'A' as int)
    else if 'a' <= c <= 'z' then Some(c as int - 'a' as int + 26)
    else if '0' <= c <= '9' then Some(c as int - '0' as int + 52)
    else if c == '+' then Some(62)
    else if c == '/' then Some(63)
    else None
  }

  lemma SymbolIsInvertible(v: Sextet)
    ensures SymbolValue(Symbol(v)) == Some(v) && Symbol(v) != ':'
  {
  }

  /** The bits of the bytes, six at a time from the left, the last group filled up with zeros. */
  function Sextets(b: Bytes): seq<Sextet> {
    if b == [] then []
    else if |b| == 1 then [b[0] / 4, b[0] % 4 * 16]
    else if |b| == 2 then [b[0] / 4, b[0] % 4 * 16 + b[1] / 16, b[1] % 16 * 4]
    else [b[0] / 4, b[0] % 4 * 16 + b[1] / 16, b[1] % 16 * 4 + b[2] / 64, b[2] % 64] + Sextets(b[3..])
  }

  function BytesOf(v: seq<Sextet>): Bytes {
    if |v| < 2 then []
    else
      var i: int, j: int := v[0], v[1];
      if |v| == 2 then [i * 4 + j / 16]
      else
        var k: int := v[2];
        if |v| == 3 then [i * 4 + j / 16, j % 16 * 16 + k / 4]
        else
          var l: int := v[3];
          [i * 4 + j / 16, j % 16 * 16 + k / 4, k % 4 * 64 + l] + BytesOf(v[4..])
  }

  function Symbols(v: seq<Sextet>): string {
    if v == [] then "" else [Symbol(v[0])] + Symbols(v[1..])
  }

  /** Reads symbols until the first character that is none. */
  function Values(s: string): seq<Sextet> {
    if s == "" || SymbolValue(s[0]).None? then [] else [SymbolValue(s[0]).value] + Values(s[1..])
  }

  function Padding(n: nat): string {
    if n % 3 == 1 then "==" else if n % 3 == 2 then "=" else ""
  }

  function Encode(b: Bytes): string {
    Symbols(Sextets(b)) + Padding(|b|)
  }

  function Decode(s: string): Bytes {
    BytesOf(Values(s))
  }

  lemma Regroup(x: Byte, y: Byte, z: Byte)
    ensures x / 4 * 4 + (x % 4 * 16 + y / 16) / 16 == x
    ensures (x % 4 * 16 + y / 16) % 16 * 16 + (y % 16 * 4 + z / 64) / 4 == y
    ensures (y % 16 * 4 + z / 64) % 4 * 64 + z % 64 == z
  {
  }

  lemma {:induction false} BytesOfSextets(b: Bytes)
    ensures BytesOf(Sextets(b)) == b
  {
    if b == [] {
    } else if |b| == 1 {
      Regroup(b[0], 0, 0);
    } else if |b| == 2 {
      Regroup(b[0], b[1], 0);
    } else {
      Regroup(b[0], b[1], b[2]);
      BytesOfSextets(b[3..]);
      assert Sextets(b)[4..] == Sextets(b[3..]);
      assert b == [b[0], b[1], b[2]] + b[3..];
    }
  }

  lemma {:induction false} ValuesOfSymbols(v: seq<Sextet>, padding: string)
    requires padding != "" ==> SymbolValue(padding[0]).None?
    ensures Values(Symbols(v) + padding) == v
  {
    if v == [] {
      assert Symbols(v) + padding == padding;
    } else {
      var s := Symbols(v) + padding;
      SymbolIsInvertible(v[0]);
      assert s[1..] == Symbols(v[1..]) + padding;
      ValuesOfSymbols(v[1..], padding);
      assert v == [v[0]] + v[1..];
    }
  }

  /** Decoding undoes encoding, for every number of bytes. */
  lemma DecodeOfEncode(b: Bytes)
    ensures Decode(Encode(b)) == b
  {
    ValuesOfSymbols(Sextets(b), Padding(|b|));
    BytesOfSextets(b);
  }

  lemma EncodeIsInjective(a: Bytes, b: Bytes)
    requires Encode(a) == Encode(b)
    ensures a == b
  {
    DecodeOfEncode(a);
    DecodeOfEncode(b);
  }

  lemma {:induction false} SextetCount(b: Bytes)
    ensures |Sextets(b)| == (4 * |b| + 2) / 3
  {
    if |b| > 2 {
      SextetCount(b[3..]);
    }
  }

  lemma {:induction false} SymbolsShape(v: seq<Sextet>)
    ensures |Symbols(v)| == |v| && ':' !in Symbols(v)
  {
    if v != [] {
      SymbolsShape(v[1..]);
      SymbolIsInvertible(v[0]);
    }
  }

  /** Four characters for each three bytes begun, and never a colon. */
  lemma EncodeShape(b: Bytes)
    ensures |Encode(b)| == (|b| + 2) / 3 * 4 && ':' !in Encode(b)
  {
    SextetCount(b);
    SymbolsShape(Sextets(b));
  }

  // ---- What the symbols stand for -----------------------------------------------------------------------------

  /** The number that digits stand for, most significant first, behind the digits of `high`. */
  function Number(high: int, digits: seq<int>, base: int): int
    decreases |digits|
  {
    if digits == [] then high else Number(high * base + digits[0], digits[1..], base)
  }

  /** As digits in base 64 the sextets are the bytes' number, with two zero bits more for each padding character. */
  lemma {:induction false} SextetsKeepTheNumber(b: Bytes, high: int)
    ensures Number(high, Sextets(b), 64) ==
              Number(high, b, 256) * (if |b| % 3 == 1 then 16 else if |b| % 3 == 2 then 4 else 1)
    decreases |b|
  {
    if |b| > 2 {
      SextetsKeepTheNumber(b[3..], ((high * 256 + b[0]) * 256 + b[1]) * 256 + b[2]);
      FirstThreeBytes(b, high);
    } else if |b| == 2 {
      ThreeBytes(high, b[0], b[1], 0);
      NumberOfTwo(high, b, 256);
      NumberOfThree(high, Sextets(b), 64);
    } else if |b| == 1 {
      ThreeBytes(high, b[0], 0, 0);
      NumberOfOne(high, b, 256);
      NumberOfTwo(high, Sextets(b), 64);
    }
  }

  lemma FirstThreeBytes(b: Bytes, high: int)
    requires |b| > 2
    ensures var after := ((high * 256 + b[0]) * 256 + b[1]) * 256 + b[2];
            && Number(high, b, 256) == Number(after, b[3..], 256)
            && Number(high, Sextets(b), 64) == Number(after, Sextets(b[3..]), 64)
  {
    ThreeBytes(high, b[0], b[1], b[2]);
    NumberOfThree(high, b, 256);
    NumberOfFour(high, Sextets(b), 64);
    assert Sextets(b)[4..] == Sextets(b[3..]);
  }

  lemma NumberOfOne(high: int, d: seq<int>, base: int)
    requires |d| >= 1
    ensures Number(high, d, base) == Number(high * base + d[0], d[1..], base)
    ensures |d| == 1 ==> Number(high, d, base) == high * base + d[0]
  {
  }

  lemma NumberOfTwo(high: int, d: seq<int>, base: int)
    requires |d| >= 2
    ensures Number(high, d, base) == Number((high * base + d[0]) * base + d[1], d[2..], base)
    ensures |d| == 2 ==> Number(high, d, base) == (high * base + d[0]) * base + d[1]
  {
    var one := high * base + d[0];
    NumberOfOne(high, d, base);
    NumberOfOne(one, d[1..], base);
    assert d[1..][1..] == d[2..] && d[1..][0] == d[1];
  }

  lemma NumberOfThree(high: int, d: seq<int>, base: int)
    requires |d| >= 3
    ensures Number(high, d, base) == Number(((high * base + d[0]) * base + d[1]) * base + d[2], d[3..], base)
    ensures |d| == 3 ==> Number(high, d, base) == ((high * base + d[0]) * base + d[1]) * base + d[2]
  {
    var two := (high * base + d[0]) * base + d[1];
    NumberOfTwo(high, d, base);
    NumberOfOne(two, d[2..], base);
    assert d[2..][1..] == d[3..] && d[2..][0] == d[2];
  }

  lemma NumberOfFour(high: int, d: seq<int>, base: int)
    requires |d| >= 4
    ensures Number(high, d, base)
         == Number((((high * base + d[0]) * base + d[1]) * base + d[2]) * base + d[3], d[4..], base)
  {
    var two := (high * base + d[0]) * base + d[1];
    NumberOfTwo(high, d, base);
    NumberOfTwo(two, d[2..], base);
    assert d[2..][2..] == d[4..] && d[2..][0] == d[2] && d[2..][1] == d[3];
  }

  lemma ThreeBytes(high: int, x: Byte, y: Byte, z: Byte)
    ensures var i, j, k, l := x / 4, x % 4 * 16 + y / 16, y % 16 * 4 + z / 64, z % 64;
            && (((high * 64 + i) * 64 + j) * 64 + k) * 64 + l == ((high * 256 + x) * 256 + y) * 256 + z
            && (z == 0 ==> ((high * 64 + i) * 64 + j) * 64 + k == ((high * 256 + x) * 256 + y) * 4)
            && (y == 0 && z == 0 ==> (high * 64 + i) * 64 + j == (high * 256 + x) * 16)
  {
  }

  /** The alphabet in its order: capitals, small letters, digits, and the two signs. */
  lemma SymbolsInOrder(v: Sextet)
    ensures Symbol(0) == 'A' && Symbol(25) == 'Z' && Symbol(26) == 'a' && Symbol(51) == 'z'
    ensures Symbol(52) == '0' && Symbol(61) == '9' && Symbol(62) == '+' && Symbol(63) == '/'
    ensures v < 61 && v != 25 && v != 51 ==> Symbol(v + 1) as int == Symbol(v) as int + 1
  {
  }

  /** Each sextet becomes its symbol, and equals signs follow. */
  lemma EncodeReads(b: Bytes, j: nat)
    requires j < |Encode(b)|
    ensures Encode(b)[j] == if j < |Sextets(b)| then Symbol(Sextets(b)[j]) else '='
  {
    var v := Sextets(b);
    SymbolsRead(v);
    PadRead(Symbols(v), |b|, j);
  }

  lemma PadRead(symbols: string, n: nat, j: nat)
    requires j < |symbols + Padding(n)|
    ensures (symbols + Padding(n))[j] == if j < |symbols| then symbols[j] else '='
  {
  }

  lemma {:induction false} SymbolsRead(v: seq<Sextet>)
    ensures |Symbols(v)| == |v| && forall j :: 0 <= j < |v| ==> Symbols(v)[j] == Symbol(v[j])
  {
    if v != [] {
      SymbolsRead(v[1..]);
    }
  }
}

/** UTF-8, RFC 3629. Strings are sequences of Unicode scalar values, that is, well-formed ones. */
module Utf8 {
  import opened Basics

  /** A continuation byte holding the low six bits. */
  function Tail(v: nat): Byte {
    0x80 + v % 64
  }

  function EncodeChar(c: char): (b: Bytes)
    ensures b != []
  {
    var v := c as int;
    if v < 0x80 then [v]
    else if v < 0x800 then [0xC0 + v / 64, Tail(v)]
    else if v < 0x10000 then [0xE0 + v / 4096, Tail(v / 64), Tail(v)]
    else [0xF0 + v / 262144, Tail(v / 4096), Tail(v / 64), Tail(v)]
  }

  function Encode(s: string): Bytes {
    if s == "" then [] else EncodeChar(s[0]) + Encode(s[1..])
  }

  function Scalar(v: int): char {
    if 0 <= v < 0xD800 || 0xE000 <= v < 0x110000 then v as char else '\U{FFFD}'
  }

  /** How many bytes the character at the front takes, by its first byte. */
  function Width(b: Bytes): (n: nat)
    requires b != []
    ensures 1 <= n <= |b|
  {
    var lead := b[0];
    var n := if 0xC0 <= lead < 0xE0 then 2 else if 0xE0 <= lead < 0xF0 then 3 else if 0xF0 <= lead then 4 else 1;
    if n <= |b| then n else 1
  }

  /** What byte `i` carries beside its marker. */
  function Bits(b: Bytes, i: nat, marker: int): int
    requires i < |b|
  {
    b[i] as int - marker
  }

  function DecodeChar(b: Bytes): char
    requires b != []
  {
    match Width(b)
    case 1 => if b[0] < 0x80 then b[0] as char else '\U{FFFD}'
    case 2 => Scalar(Bits(b, 0, 0xC0) * 64 + Bits(b, 1, 0x80))
    case 3 => Scalar(Bits(b, 0, 0xE0) * 4096 + Bits(b, 1, 0x80) * 64 + Bits(b, 2, 0x80))
    case _ => Scalar(Bits(b, 0, 0xF0) * 262144 + Bits(b, 1, 0x80) * 4096 + Bits(b, 2, 0x80) * 64 + Bits(b, 3, 0x80))
  }

  function Decode(b: Bytes): string {
    if b == [] then "" else [DecodeChar(b)] + Decode(b[Width(b)..])
  }

  lemma CharRange(c: char)
    ensures 0 <= c as int < 0x110000 && Scalar(c as int) == c
  {
  }

  lemma WidthOfEncode(c: char, rest: Bytes)
    ensures var e := EncodeChar(c); Width(e + rest) == |e| && (e + rest)[|e|..] == rest
  {
    CharRange(c);
  }

  lemma Digits(v: nat)
    ensures v == v / 64 * 64 + v % 64
    ensures v / 64 == v / 4096 * 64 + v / 64 % 64
    ensures v / 4096 == v / 262144 * 64 + v / 4096 % 64
  {
  }

  lemma DecodeCharOfEncode(c: char, rest: Bytes)
    ensures var b := EncodeChar(c) + rest;
            DecodeChar(b) == c && b[Width(b)..] == rest
  {
    CharRange(c);
    WidthOfEncode(c, rest);
    Digits(c as int);
    var b := EncodeChar(c) + rest;
    assert forall i: nat :: i < Width(b) ==> b[i] == EncodeChar(c)[i];
  }

  /** Decoding undoes encoding, for every well-formed string. */
  lemma {:induction false} DecodeOfEncode(s: string)
    ensures Decode(Encode(s)) == s
  {
    if s != "" {
      DecodeOfEncode(s[1..]);
      DecodeCharOfEncode(s[0], Encode(s[1..]));
      assert Encode(s) != [];
    }
  }

  // ---- The form of the bytes ----------------------------------------------------------------------------------

  predicate IsTail(b: Byte) {
    0x80 <= b < 0xC0
  }

  /**
   * Section 3 of RFC 3629: a character takes as many bytes as its number needs, the first one tells how many follow,
   * and the bits behind the markers, read together, are the number.
   */
  lemma CharacterForm(c: char)
    ensures var b, v := EncodeChar(c), c as int;
            match |b|
            case 1 => v < 0x80 && b[0] == v
            case 2 =>
              && 0x80 <= v < 0x800 && 0xC0 <= b[0] < 0xE0 && IsTail(b[1])
              && v == (b[0] as int - 0xC0) * 64 + (b[1] as int - 0x80)
            case 3 =>
              && 0x800 <= v < 0x1_0000 && 0xE0 <= b[0] < 0xF0 && IsTail(b[1]) && IsTail(b[2])
              && v == (b[0] as int - 0xE0) * 4096 + (b[1] as int - 0x80) * 64 + (b[2] as int - 0x80)
            case _ =>
              && |b| == 4 && 0x1_0000 <= v && 0xF0 <= b[0] < 0xF8 && IsTail(b[1]) && IsTail(b[2]) && IsTail(b[3])
              && v == (b[0] as int - 0xF0) * 262144 + (b[1] as int - 0x80) * 4096
                    + (b[2] as int - 0x80) * 64 + (b[3] as int - 0x80)
  {
    CharRange(c);
    Digits(c as int);
  }

  /** Characters are encoded one after another; so ASCII text is its own codes. */
  lemma {:induction false} EncodeJoins(s: string, t: string)
    ensures Encode(s + t) == Encode(s) + Encode(t)
  {
    if s == "" {
      assert s + t == t;
    } else {
      assert (s + t)[1..] == s[1..] + t;
      EncodeJoins(s[1..], t);
    }
  }

  lemma {:induction false} AsciiIsItself(s: string)
    requires forall i :: 0 <= i < |s| ==> s[i] < 128 as char
    ensures |Encode(s)| == |s| && forall i :: 0 <= i < |s| ==> Encode(s)[i] == s[i] as int
  {
    if s != "" {
      AsciiIsItself(s[1..]);
      CharacterForm(s[0]);
    }
  }
}

/** Secrets at rest: `iv:authTag:ciphertext`, each field in base64. */
module Encryption {
  import opened Basics
  import opened Text
  import Base64
  import Utf8

  const IV_LENGTH := 12
  const TAG_LENGTH := 16

  /** AES-256-GCM under one key: `seal` gives the tag and the ciphertext. */
  datatype Cipher = Cipher(seal: (Bytes, Bytes) -> (Bytes, Bytes), unseal: (Bytes, Bytes, Bytes) -> Option<Bytes>)

  predicate SealsSoundly(cipher: Cipher, iv: Bytes, plain: Bytes) {
    var (tag, data) := cipher.seal(iv, plain);
    |tag| == TAG_LENGTH && |data| == |plain| && cipher.unseal(iv, tag, data) == Some(plain)
  }

  /** All that is assumed of the cipher: unsealing undoes sealing, and a ciphertext is as long as its plaintext. */
  ghost predicate Lawful(cipher: Cipher) {
    forall iv: Bytes, plain: Bytes :: |iv| == IV_LENGTH ==> SealsSoundly(cipher, iv, plain)
  }

  datatype Error = Malformed | Tampered

  function Encrypt(cipher: Cipher, iv: Bytes, plaintext: string): string {
    var (tag, data) := cipher.seal(iv, Utf8.Encode(plaintext));
    Join([Base64.Encode(iv), Base64.Encode(tag), Base64.Encode(data)], ":")
  }

  function Field(parts: seq<string>, i: nat): string {
    if i < |parts| then parts[i] else ""
  }

  /** Fields after the third are ignored. */
  function Decrypt(cipher: Cipher, payload: string): Result<string, Error> {
    var parts := Split(payload, ':');
    if Field(parts, 0) == "" || Field(parts, 1) == "" || Field(parts, 2) == "" then Err(Malformed)
    else
      var iv, tag, data := Base64.Decode(parts[0]), Base64.Decode(parts[1]), Base64.Decode(parts[2]);
      var plain := cipher.unseal(iv, tag, data);
      if plain.None? then Err(Tampered) else Ok(Utf8.Decode(plain.value))
  }

  /** Splitting a payload recovers the three fields that were joined, whatever bytes they hold. */
  lemma FieldsAreRecovered(iv: Bytes, tag: Bytes, data: Bytes)
    ensures var fields := [Base64.Encode(iv), Base64.Encode(tag), Base64.Encode(data)];
            Split(Join(fields, ":"), ':') == fields
  {
    Base64.EncodeShape(iv);
    Base64.EncodeShape(tag);
    Base64.EncodeShape(data);
    SplitJoin([Base64.Encode(iv), Base64.Encode(tag), Base64.Encode(data)], ':');
  }

  /** No two triples share a payload. */
  lemma FramingIsInjective(iv: Bytes, tag: Bytes, data: Bytes, iv': Bytes, tag': Bytes, data': Bytes)
    requires Join([Base64.Encode(iv), Base64.Encode(tag), Base64.Encode(data)], ":")
          == Join([Base64.Encode(iv'), Base64.Encode(tag'), Base64.Encode(data')], ":")
    ensures iv == iv' && tag == tag' && data == data'
  {
    FieldsAreRecovered(iv, tag, data);
    FieldsAreRecovered(iv', tag', data');
    var fields := [Base64.Encode(iv), Base64.Encode(tag), Base64.Encode(data)];
    var fields' := [Base64.Encode(iv'), Base64.Encode(tag'), Base64.Encode(data')];
    assert fields == fields';
    assert fields[0] == fields'[0] && fields[1] == fields'[1] && fields[2] == fields'[2];
    Base64.EncodeIsInjective(iv, iv');
    Base64.EncodeIsInjective(tag, tag');
    Base64.EncodeIsInjective(data, data');
  }

  /**
   * Decrypting gives back what was encrypted exactly when that was not empty: the empty string leaves an empty third
   * field, which reads as malformed.
   */
  lemma DecryptUndoesEncryptIff(cipher: Cipher, iv: Bytes, plaintext: string)
    requires Lawful(cipher) && |iv| == 12
    ensures Decrypt(cipher, Encrypt(cipher, iv, plaintext)) == Ok(plaintext) <==> plaintext != ""
    ensures plaintext == "" ==> Decrypt(cipher, Encrypt(cipher, iv, plaintext)) == Err(Malformed)
  {
    var plain := Utf8.Encode(plaintext);
    assert SealsSoundly(cipher, iv, plain);
    var (tag, data) := cipher.seal(iv, plain);
    FieldsAreRecovered(iv, tag, data);
    Base64.EncodeShape(iv);
    Base64.EncodeShape(tag);
    Base64.EncodeShape(data);
    Base64.DecodeOfEncode(iv);
    Base64.DecodeOfEncode(tag);
    Base64.DecodeOfEncode(data);
    Utf8.DecodeOfEncode(plaintext);
  }

  /** The payload's fields are the nonce, the tag and the ciphertext of the text's UTF-8, in that order. */
  lemma PayloadHoldsTheSealedText(cipher: Cipher, iv: Bytes, plaintext: string)
    ensures var parts := Split(Encrypt(cipher, iv, plaintext), ':');
            && |parts| == 3 && Base64.Decode(parts[0]) == iv
            && (Base64.Decode(parts[1]), Base64.Decode(parts[2])) == cipher.seal(iv, Utf8.Encode(plaintext))
  {
    var (tag, data) := cipher.seal(iv, Utf8.Encode(plaintext));
    FieldsAreRecovered(iv, tag, data);
    Base64.DecodeOfEncode(iv);
    Base64.DecodeOfEncode(tag);
    Base64.DecodeOfEncode(data);
  }

  /** Any three fields that are not empty are opened by the cipher under their own nonce and tag, or refused by it. */
  lemma PayloadIsOpened(cipher: Cipher, iv: Bytes, tag: Bytes, data: Bytes)
    requires iv != [] && tag != [] && data != []
    ensures Decrypt(cipher, Join([Base64.Encode(iv), Base64.Encode(tag), Base64.Encode(data)], ":")) ==
              match cipher.unseal(iv, tag, data)
              case None => Err(Tampered)
              case Some(plain) => Ok(Utf8.Decode(plain))
  {
    FieldsAreRecovered(iv, tag, data);
    Base64.EncodeShape(iv);
    Base64.EncodeShape(tag);
    Base64.EncodeShape(data);
    Base64.DecodeOfEncode(iv);
    Base64.DecodeOfEncode(tag);
    Base64.DecodeOfEncode(data);
  }

  /** A payload is malformed exactly when one of its first three fields is missing or empty. */
  lemma MalformedIff(cipher: Cipher, payload: string)
    ensures var parts := Split(payload, ':');
            Decrypt(cipher, payload) == Err(Malformed) <==>
              |parts| < 3 || parts[0] == "" || parts[1] == "" || parts[2] == ""
  {
  }
}
