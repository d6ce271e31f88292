/** Salting and hashing (SaltHasher.java). The digest of a text's UTF-8 bytes is an arbitrary function, and
    Math.random a given list of rolls. */
module SaltHasher {
  import opened Protocol

  type Digest = string -> seq<byte>

  function HexDigit(n: nat): char
    requires n < 16
  {
    if n < 10 then '0' + n as char else 'a' + (n - 10) as char
  }

  function High(b: byte): (n: nat)
    ensures n < 16
  {
    b as nat / 16
  }

  function Low(b: byte): (n: nat)
    ensures n < 16
  {
    b as nat % 16
  }

  /** Integer.toHexString of a byte's value, left-padded to two digits. */
  function Hex(bytes: seq<byte>): string {
    if bytes == [] then ""
    else
      var b := bytes[|bytes| - 1];
      Hex(bytes[..|bytes| - 1]) + [HexDigit(High(b)), HexDigit(Low(b))]
  }

  function HexValue(c: char): Option<nat> {
    if '0' <= c <= '9' then Some((c as int - '0' as int) as nat)
    else if 'a' <= c <= 'f' then Some((c as int - 'a' as int) as nat + 10)
    else None
  }

  function Unhex(s: string): Option<seq<byte>> {
    if s == "" then Some([])
    else if |s| == 1 then None
    else match (Unhex(s[..|s| - 2]), HexValue(s[|s| - 2]), HexValue(s[|s| - 1]))
      case (Some(front), Some(h), Some(l)) => if h < 16 && l < 16 then Some(front + [(16 * h + l) as byte]) else None
      case _ => None
  }

  lemma DigitRoundTrip(n: nat)
    requires n < 16
    ensures HexValue(HexDigit(n)) == Some(n)
  {
  }

  lemma UnhexSnoc(s: string, h: nat, l: nat, front: seq<byte>)
    requires h < 16 && l < 16 && Unhex(s) == Some(front)
    ensures Unhex(s + [HexDigit(h), HexDigit(l)]) == Some(front + [(16 * h + l) as byte])
  {
    var t := s + [HexDigit(h), HexDigit(l)];
    assert t[..|t| - 2] == s && t[|t| - 2] == HexDigit(h) && t[|t| - 1] == HexDigit(l);
    DigitRoundTrip(h);
    DigitRoundTrip(l);
    hide HexDigit, HexValue;
  }

  lemma HexSnoc(front: seq<byte>, b: byte)
    ensures Hex(front + [b]) == Hex(front) + [HexDigit(High(b)), HexDigit(Low(b))]
    ensures (16 * High(b) + Low(b)) as byte == b
  {
    hide HexDigit;
    assert (front + [b])[..|front|] == front;
  }

  /** The digits are the lower-case ones, high half first, and the bytes follow each other. */
  lemma HexWrittenOut(a: seq<byte>, b: byte)
    ensures Hex(a + [b]) == Hex(a) + ["0123456789abcdef"[b as nat / 16], "0123456789abcdef"[b as nat % 16]]
    ensures Hex([]) == ""
  {
    assert (a + [b])[..|a|] == a;
    DigitIs(High(b));
    DigitIs(Low(b));
  }

  lemma DigitIs(n: nat)
    requires n < 16
    ensures HexDigit(n) == "0123456789abcdef"[n]
  {
  }

  /** The hex text determines the bytes. */
  lemma {:induction false} HexRoundTrip(bytes: seq<byte>)
    ensures |Hex(bytes)| == 2 * |bytes| && Unhex(Hex(bytes)) == Some(bytes)
  {
    if bytes == [] {
      UnhexNothing();
    } else {
      hide HexDigit, HexValue, Unhex, Hex, High, Low;
      var front, b := bytes[..|bytes| - 1], bytes[|bytes| - 1];
      HexRoundTrip(front);
      assert bytes == front + [b];
      HexSnoc(front, b);
      UnhexSnoc(Hex(front), High(b), Low(b), front);
    }
  }

  lemma UnhexNothing()
    ensures Unhex("") == Some([])
  {
  }

  predicate Alphanumeric(c: char) {
    '0' <= c <= '9' || 'A' <= c <= 'Z' || 'a' <= c <= 'z'
  }

  predicate AllAlphanumeric(s: string) {
    forall i :: 0 <= i < |s| ==> Alphanumeric(s[i])
  }

  lemma {:induction false} HexIsPlain(bytes: seq<byte>)
    ensures AllAlphanumeric(Hex(bytes))
  {
    if bytes != [] { HexIsPlain(bytes[..|bytes| - 1]); }
  }

  method BytesToHex(hash: seq<byte>) returns (hex: string)
    ensures hex == Hex(hash)
  {
    hex := "";
    for i := 0 to |hash|
      invariant hex == Hex(hash[..i])
    {
      var b := hash[i];
      assert hash[..i + 1][..i] == hash[..i];
      if b < 16 {
        hex := hex + "0" + [HexDigit(b as nat)];
      } else {
        hex := hex + [HexDigit(High(b)), HexDigit(Low(b))];
      }
    }
    assert hash[..|hash|] == hash;
  }

  /** The character for a roll of 0 to 61. */
  function SaltChar(roll: nat): char
    requires roll < 62
  {
    if roll < 10 then '0' + roll as char else if roll < 36 then (roll + 55) as char else (roll + 61) as char
  }

  ghost predicate Rolls(rolls: seq<nat>) {
    |rolls| == 16 && forall i :: 0 <= i < 16 ==> rolls[i] < 62
  }

  /** Sixteen characters, and different rolls give different salts. */
  method SaltGenerator(rolls: seq<nat>) returns (salt: string)
    requires Rolls(rolls)
    ensures |salt| == 16 && AllAlphanumeric(salt)
    ensures forall i :: 0 <= i < 16 ==> salt[i] == SaltChar(rolls[i])
  {
    salt := "";
    for i := 0 to 16
      invariant |salt| == i && AllAlphanumeric(salt)
      invariant forall j :: 0 <= j < i ==> salt[j] == SaltChar(rolls[j])
    {
      var newChar := rolls[i];
      if newChar < 10 {
        salt := salt + ['0' + newChar as char];
      } else if newChar < 36 {
        salt := salt + [(newChar + 55) as char];
      } else {
        salt := salt + [(newChar + 61) as char];
      }
    }
  }

  /** The characters in the order of their rolls: digits, capitals, small letters. */
  lemma SaltCharIs(roll: nat)
    requires roll < 62
    ensures roll < 10 ==> SaltChar(roll) == "0123456789"[roll]
    ensures 10 <= roll < 36 ==> SaltChar(roll) == "ABCDEFGHIJKLMNOPQRSTUVWXYZ"[roll - 10]
    ensures 36 <= roll ==> SaltChar(roll) == "abcdefghijklmnopqrstuvwxyz"[roll - 36]
  {
  }

  /** Every alphanumeric character is the image of exactly one roll. */
  lemma SaltCharBijective(c: char)
    requires Alphanumeric(c)
    ensures exists r: nat :: r < 62 && SaltChar(r) == c && forall q: nat :: q < 62 && SaltChar(q) == c ==> q == r
  {
    var n := c as int;
    var r: nat := if c <= '9' then n - 48 else if c <= 'Z' then n - 55 else n - 61;
    assert r < 62 && SaltChar(r) == c;
  }

  /** hash(text, salt): the hex of the digest of the salt followed by the text. */
  function HashWith(digest: Digest, text: string, salt: string): string {
    Hex(digest(salt + text))
  }

  /** hash(text): a fresh salt, and the hash that the text has under it. Reading the hex back gives the digest of
      salt and text. */
  method Hash(digest: Digest, text: string, rolls: seq<nat>) returns (hash: string, salt: string)
    requires Rolls(rolls)
    ensures hash == HashWith(digest, text, salt) && Unhex(hash) == Some(digest(salt + text))
    ensures |salt| == 16 && AllAlphanumeric(salt) && AllAlphanumeric(hash)
    ensures forall i :: 0 <= i < 16 ==> salt[i] == SaltChar(rolls[i])
  {
    salt := SaltGenerator(rolls);
    hash := BytesToHex(digest(salt + text));
    HexIsPlain(digest(salt + text));
    HexRoundTrip(digest(salt + text));
  }

  /** hash(text, salt), the check of a text against a stored salt. */
  method Rehash(digest: Digest, text: string, salt: string) returns (hash: string)
    ensures hash == HashWith(digest, text, salt) && Unhex(hash) == Some(digest(salt + text))
  {
    hash := BytesToHex(digest(salt + text));
    HexRoundTrip(digest(salt + text));
  }

  ghost predicate Injective(digest: Digest) {
    forall a, b :: digest(a) == digest(b) ==> a == b
  }

  /** Two texts pass for each other under one salt exactly when the digest takes salt and text to the same bytes; if
      it is injective, never. */
  lemma SameHashIff(digest: Digest, a: string, b: string, salt: string)
    ensures HashWith(digest, a, salt) == HashWith(digest, b, salt) <==> digest(salt + a) == digest(salt + b)
    ensures Injective(digest) && HashWith(digest, a, salt) == HashWith(digest, b, salt) ==> a == b
  {
    HexRoundTrip(digest(salt + a));
    HexRoundTrip(digest(salt + b));
    assert (salt + a)[|salt|..] == a && (salt + b)[|salt|..] == b;
    hide Hex, Unhex;
  }
}
