/** encodeBase64Url and decodeBase64Url (packages/core/src/agent-auth.ts:114-128); section 5 of RFC 4648. */
module Base64Url {
  import opened Prelude

  type byte = x: int | 0 <= x < 256

  type sextet = x: int | 0 <= x < 64

  // ---------------------------------------------------------------------------
  // Bytes and sextets
  // ---------------------------------------------------------------------------

  function Sextets(bytes: seq<byte>): seq<sextet> {
    if bytes == [] then []
    else
      var a: int := bytes[0];
      if |bytes| == 1 then [a / 4, a % 4 * 16]
      else
        var b: int := bytes[1];
        if |bytes| == 2 then [a / 4, a % 4 * 16 + b / 16, b % 16 * 4]
        else
          var c: int := bytes[2];
          [a / 4, a % 4 * 16 + b / 16, b % 16 * 4 + c / 64, c % 64] + Sextets(bytes[3..])
  }

  /** What the bits of a last, incomplete group are worth beyond whole bytes is dropped. */
  function Bytes(sextets: seq<sextet>): seq<byte> {
    if |sextets| < 2 then []
    else
      var w: int, x: int := sextets[0], sextets[1];
      if |sextets| == 2 then [w * 4 + x / 16]
      else
        var y: int := sextets[2];
        if |sextets| == 3 then [w * 4 + x / 16, x % 16 * 16 + y / 4]
        else
          var z: int := sextets[3];
          [w * 4 + x / 16, x % 16 * 16 + y / 4, y % 4 * 64 + z] + Bytes(sextets[4..])
  }

  lemma BytesBack(a: byte, b: byte, c: byte)
    ensures (a as int) / 4 * 4 + ((a as int) % 4 * 16 + (b as int) / 16) / 16 == a
    ensures ((a as int) % 4 * 16 + (b as int) / 16) % 16 * 16 + ((b as int) % 16 * 4 + (c as int) / 64) / 4 == b
    ensures ((b as int) % 16 * 4 + (c as int) / 64) % 4 * 64 + (c as int) % 64 == c
  {
  }

  lemma TripleBack(a: byte, b: byte, c: byte, rest: seq<byte>)
    ensures Bytes(Sextets([a, b, c] + rest)) == [a, b, c] + Bytes(Sextets(rest))
    ensures |Sextets([a, b, c] + rest)| == 4 + |Sextets(rest)|
  {
    var all := [a, b, c] + rest;
    BytesBack(a, b, c);
    assert all[3..] == rest;
    var sextets := Sextets(all);
    assert sextets[4..] == Sextets(rest);
  }

  lemma LastBytes(a: byte, b: byte)
    ensures Bytes(Sextets([a])) == [a] && |Sextets([a])| == 2
    ensures Bytes(Sextets([a, b])) == [a, b] && |Sextets([a, b])| == 3
  {
    BytesBack(a, 0, 0);
    BytesBack(a, b, 0);
  }

  lemma TripleMore(a: byte, b: byte, c: byte, rest: seq<byte>)
    requires Bytes(Sextets(rest)) == rest && |Sextets(rest)| % 4 != 1
    ensures Bytes(Sextets([a, b, c] + rest)) == [a, b, c] + rest
    ensures |Sextets([a, b, c] + rest)| % 4 != 1
  {
    TripleBack(a, b, c, rest);
  }

  lemma {:induction false} BytesOfSextets(bytes: seq<byte>)
    ensures Bytes(Sextets(bytes)) == bytes
    ensures |Sextets(bytes)| % 4 != 1
    decreases |bytes|
  {
    if |bytes| >= 3 {
      var rest := bytes[3..];
      BytesOfSextets(rest);
      TripleMore(bytes[0], bytes[1], bytes[2], rest);
      assert bytes == [bytes[0], bytes[1], bytes[2]] + rest;
    } else if |bytes| == 2 {
      LastBytes(bytes[0], bytes[1]);
      assert bytes == [bytes[0], bytes[1]];
    } else if |bytes| == 1 {
      LastBytes(bytes[0], 0);
      assert bytes == [bytes[0]];
    } else {
      assert bytes == [];
    }
  }

  /** The unused bits of a last, incomplete group are zero. */
  predicate Canonical(sextets: seq<sextet>) {
    var n := |sextets|;
    && n % 4 != 1
    && (n % 4 == 2 ==> (sextets[n - 1] as int) % 16 == 0)
    && (n % 4 == 3 ==> (sextets[n - 1] as int) % 4 == 0)
  }

  lemma SextetsBack(w: sextet, x: sextet, y: sextet, z: sextet)
    ensures var a, b, c := w * 4 + x / 16, x % 16 * 16 + y / 4, y % 4 * 64 + z;
            && 0 <= a < 256 && 0 <= b < 256 && 0 <= c < 256
            && a / 4 == w && a % 4 * 16 + b / 16 == x && b % 16 * 4 + c / 64 == y && c % 64 == z
  {
  }

  lemma GroupBack(w: sextet, x: sextet, y: sextet, z: sextet, rest: seq<sextet>)
    ensures Sextets(Bytes([w, x, y, z] + rest)) == [w, x, y, z] + Sextets(Bytes(rest))
  {
    var all := [w, x, y, z] + rest;
    SextetsBack(w, x, y, z);
    assert all[4..] == rest;
    var bytes := Bytes(all);
    assert bytes[3..] == Bytes(rest);
  }

  lemma PrependOnce(group: seq<sextet>, a: seq<sextet>, b: seq<sextet>)
    ensures group + a == group + b <==> a == b
  {
    assert (group + a)[|group|..] == a && (group + b)[|group|..] == b;
  }

  lemma CanonicalTail(group: seq<sextet>, rest: seq<sextet>)
    requires |group| == 4
    ensures Canonical(group + rest) <==> Canonical(rest)
  {
    assert |group + rest| % 4 == |rest| % 4;
    if rest != [] { assert (group + rest)[|group + rest| - 1] == rest[|rest| - 1]; }
  }

  lemma LastThree(w: sextet, x: sextet, y: sextet)
    ensures Sextets(Bytes([w, x, y])) == [w, x, y / 4 * 4]
    ensures Sextets(Bytes([w, x, y])) == [w, x, y] <==> Canonical([w, x, y])
  {
    SextetsBack(w, x, y, 0);
    var bytes := Bytes([w, x, y]);
    assert |bytes| == 2;
    assert [w, x, y / 4 * 4][2] == y / 4 * 4;
  }

  lemma LastTwo(w: sextet, x: sextet)
    ensures Sextets(Bytes([w, x])) == [w, x / 16 * 16]
    ensures Sextets(Bytes([w, x])) == [w, x] <==> Canonical([w, x])
  {
    SextetsBack(w, x, 0, 0);
    var bytes := Bytes([w, x]);
    assert |bytes| == 1;
    assert [w, x / 16 * 16][1] == x / 16 * 16;
  }

  lemma GroupMore(w: sextet, x: sextet, y: sextet, z: sextet, rest: seq<sextet>)
    requires Sextets(Bytes(rest)) == rest <==> Canonical(rest)
    ensures Sextets(Bytes([w, x, y, z] + rest)) == [w, x, y, z] + rest <==> Canonical([w, x, y, z] + rest)
  {
    GroupBack(w, x, y, z, rest);
    PrependOnce([w, x, y, z], Sextets(Bytes(rest)), rest);
    CanonicalTail([w, x, y, z], rest);
  }

  lemma {:induction false} SextetsOfBytes(sextets: seq<sextet>)
    requires |sextets| % 4 != 1
    ensures Sextets(Bytes(sextets)) == sextets <==> Canonical(sextets)
    decreases |sextets|
  {
    if |sextets| >= 4 {
      var rest := sextets[4..];
      SextetsOfBytes(rest);
      GroupMore(sextets[0], sextets[1], sextets[2], sextets[3], rest);
      assert sextets == [sextets[0], sextets[1], sextets[2], sextets[3]] + rest;
    } else if |sextets| == 3 {
      LastThree(sextets[0], sextets[1], sextets[2]);
      assert sextets == [sextets[0], sextets[1], sextets[2]];
    } else if |sextets| == 2 {
      LastTwo(sextets[0], sextets[1]);
      assert sextets == [sextets[0], sextets[1]];
    } else {
      assert sextets == [];
    }
  }

  // ---------------------------------------------------------------------------
  // Characters
  // ---------------------------------------------------------------------------

  /** The standard alphabet, which btoa and atob use. */
  function Letter(v: sextet): char {
    if v < 26 then 'A' + v as char
    else if v < 52 then 'a' + (v - 26) as char
    else if v < 62 then '0' + (v - 52) as char
    else if v == 62 then '+' else '/'
  }

  function Value(c: char): sextet {
    if 'A' <= c <= 'Z' then (c - 'A') as int
    else if 'a' <= c <= 'z' then (c - 'a') as int + 26
    else if '0' <= c <= '9' then (c - '0') as int + 52
    else if c == '+' then 62 else 63
  }

  /** The alphabet of the encoded form. */
  predicate UrlChar(c: char) {
    'A' <= c <= 'Z' || 'a' <= c <= 'z' || '0' <= c <= '9' || c == '-' || c == '_'
  }

  function Letters(sextets: seq<sextet>): string {
    seq(|sextets|, i requires 0 <= i < |sextets| => Letter(sextets[i]))
  }

  function Values(s: string): seq<sextet> {
    seq(|s|, i requires 0 <= i < |s| => Value(s[i]))
  }

  function Pad(n: nat): string {
    seq(n, i => '=')
  }

  function StripPad(s: string): string {
    if s != "" && s[|s| - 1] == '=' then StripPad(s[..|s| - 1]) else s
  }

  function Replaced(s: string, from: char, to: char): string {
    seq(|s|, i requires 0 <= i < |s| => if s[i] == from then to else s[i])
  }

  function Btoa(bytes: seq<byte>): string {
    var s := Letters(Sextets(bytes));
    s + Pad((4 - |s| % 4) % 4)
  }

  /** atob of padded text: without its padding, four letters make three bytes. */
  function Atob(s: string): seq<byte> {
    Bytes(Values(StripPad(s)))
  }

  function Encode(bytes: seq<byte>): string {
    StripPad(Replaced(Replaced(Btoa(bytes), '+', '-'), '/', '_'))
  }

  predicate Decodable(s: string) {
    (forall i | 0 <= i < |s| :: UrlChar(s[i])) && |s| % 4 != 1
  }

  function Decode(s: string): Option<seq<byte>> {
    if !Decodable(s) then None
    else Some(Atob(Replaced(Replaced(s, '-', '+'), '_', '/') + Pad((4 - |s| % 4) % 4)))
  }

  predicate NoPad(s: string) {
    forall i | 0 <= i < |s| :: s[i] != '='
  }

  lemma {:induction false} StripPadded(s: string, n: nat)
    requires NoPad(s)
    ensures StripPad(s + Pad(n)) == s
  {
    if n == 0 {
      assert s + Pad(0) == s;
    } else {
      assert (s + Pad(n))[..|s| + n - 1] == s + Pad(n - 1);
      StripPadded(s, n - 1);
    }
  }

  /** The letters of the encoded form stand for the sextets. */
  function UrlLetters(sextets: seq<sextet>): string {
    Replaced(Replaced(Letters(sextets), '+', '-'), '/', '_')
  }

  lemma UrlPadded(sextets: seq<sextet>, n: nat)
    ensures Replaced(Replaced(Letters(sextets) + Pad(n), '+', '-'), '/', '_') == UrlLetters(sextets) + Pad(n)
    ensures forall i | 0 <= i < |sextets| :: UrlChar(UrlLetters(sextets)[i])
    ensures NoPad(UrlLetters(sextets))
  {
  }

  lemma EncodeLetters(bytes: seq<byte>)
    ensures Encode(bytes) == UrlLetters(Sextets(bytes))
    ensures forall i | 0 <= i < |Encode(bytes)| :: UrlChar(Encode(bytes)[i])
  {
    var sextets := Sextets(bytes);
    var n := (4 - |sextets| % 4) % 4;
    UrlPadded(sextets, n);
    StripPadded(UrlLetters(sextets), n);
  }

  /** Reading a decodable text is reading its letters one by one. */
  lemma DecodeLetters(s: string)
    requires Decodable(s)
    ensures Decode(s) == Some(Bytes(Values(Replaced(Replaced(s, '-', '+'), '_', '/'))))
  {
    StripPadded(Replaced(Replaced(s, '-', '+'), '_', '/'), (4 - |s| % 4) % 4);
  }

  lemma LettersBack(sextets: seq<sextet>)
    ensures Values(Replaced(Replaced(UrlLetters(sextets), '-', '+'), '_', '/')) == sextets
  {
  }

  lemma ValuesBack(s: string)
    requires forall i | 0 <= i < |s| :: UrlChar(s[i])
    ensures UrlLetters(Values(Replaced(Replaced(s, '-', '+'), '_', '/'))) == s
  {
  }

  /** The alphabet of section 5 of RFC 4648, in the order of the values. */
  const ALPHABET: string := From('A', 26) + From('a', 26) + From('0', 10) + "-_"

  /** `n` characters from `c` on. */
  function From(c: char, n: nat): (s: string)
    requires c as int + n <= 0x7F
    ensures |s| == n && forall i | 0 <= i < n :: s[i] == c + i as char
  {
    seq(n, i requires 0 <= i < n => c + i as char)
  }

  /** A byte of the string; beyond its end the bits are zero. */
  function ByteAt(bytes: seq<byte>, i: nat): int {
    if i < |bytes| then bytes[i] else 0
  }

  /** The `k`-th group of six bits: the high bits of a byte come first. */
  function SixBits(bytes: seq<byte>, k: nat): (v: int)
    ensures 0 <= v < 64
  {
    var i := k / 4 * 3;
    if k % 4 == 0 then ByteAt(bytes, i) / 4
    else if k % 4 == 1 then ByteAt(bytes, i) % 4 * 16 + ByteAt(bytes, i + 1) / 16
    else if k % 4 == 2 then ByteAt(bytes, i + 1) % 16 * 4 + ByteAt(bytes, i + 2) / 64
    else ByteAt(bytes, i + 2) % 64
  }

  lemma LaterGroup(bytes: seq<byte>, k: nat)
    requires |bytes| >= 3 && k >= 4
    ensures SixBits(bytes, k) == SixBits(bytes[3..], k - 4)
  {
    var i := (k - 4) / 4 * 3;
    assert i + 3 == k / 4 * 3 && (k - 4) % 4 == k % 4;
    assert ByteAt(bytes, i + 3) == ByteAt(bytes[3..], i) && ByteAt(bytes, i + 4) == ByteAt(bytes[3..], i + 1);
    assert ByteAt(bytes, i + 5) == ByteAt(bytes[3..], i + 2);
  }

  lemma {:induction false} SextetAt(bytes: seq<byte>, k: nat)
    ensures |Sextets(bytes)| == (4 * |bytes| + 2) / 3
    ensures k < |Sextets(bytes)| ==> Sextets(bytes)[k] == SixBits(bytes, k)
    decreases |bytes|
  {
    if |bytes| >= 3 {
      if k >= 4 {
        SextetAt(bytes[3..], k - 4);
        LaterGroup(bytes, k);
      } else {
        SextetAt(bytes[3..], 0);
      }
    }
  }

  lemma LetterIs(v: sextet)
    ensures |ALPHABET| == 64 && UrlLetters([v])[0] == ALPHABET[v]
  {
  }

  /** Each letter stands for six bits of the bytes, in order, and there are as many as it takes. */
  lemma LetterAt(bytes: seq<byte>, k: nat)
    ensures |ALPHABET| == 64 && |Encode(bytes)| == (4 * |bytes| + 2) / 3
    ensures k < |Encode(bytes)| ==> Encode(bytes)[k] == ALPHABET[SixBits(bytes, k)]
  {
    EncodeLetters(bytes);
    SextetAt(bytes, k);
    if k < |Encode(bytes)| { LetterIs(Sextets(bytes)[k]); }
    assert |ALPHABET| == 64;
  }

  /** decodeBase64Url undoes encodeBase64Url, for all byte strings. */
  lemma RoundTrip(bytes: seq<byte>)
    ensures Decode(Encode(bytes)) == Some(bytes)
  {
    EncodeLetters(bytes);
    BytesOfSextets(bytes);
    DecodeLetters(Encode(bytes));
    LettersBack(Sextets(bytes));
  }

  /**
   The other way round the text comes back exactly when the bits that no byte uses are zero: texts
   that differ in those bits alone decode to the same bytes.
   */
  lemma EncodeDecoded(s: string)
    requires Decodable(s)
    ensures Encode(Decode(s).value) == s <==> Canonical(Values(Replaced(Replaced(s, '-', '+'), '_', '/')))
  {
    var sextets := Values(Replaced(Replaced(s, '-', '+'), '_', '/'));
    DecodeLetters(s);
    EncodeLetters(Bytes(sextets));
    SextetsOfBytes(sextets);
    ValuesBack(s);
    LettersBack(Sextets(Bytes(sextets)));
    LettersBack(sextets);
  }

  /** The loop of encodeBase64Url: the slices put the bytes together again, whatever their size. */
  method EncodeBase64Url(bytes: seq<byte>, slice: nat) returns (encoded: string)
    requires slice > 0
    ensures encoded == Encode(bytes)
  {
    var binary: seq<byte> := [];
    var offset := 0;
    while offset < |bytes|
      invariant offset <= |bytes| ==> binary == bytes[..offset]
      invariant offset > |bytes| ==> binary == bytes
      decreases |bytes| - offset
    {
      var end := if offset + slice <= |bytes| then offset + slice else |bytes|;
      assert bytes[..offset] + bytes[offset..end] == bytes[..end];
      binary := binary + bytes[offset..end];
      assert bytes[..|bytes|] == bytes;
      offset := offset + slice;
    }
    assert binary == bytes;
    return StripPad(Replaced(Replaced(Btoa(binary), '+', '-'), '/', '_'));
  }
}
