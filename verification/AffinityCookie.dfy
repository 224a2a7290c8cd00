/** signAffinityCookie and verifyAffinityCookie (apps/gateway/src/gateway-routing.ts:116-134). */
module AffinityCookie {
  import opened Prelude
  import opened Base64Url

  /** HMAC-SHA-256 under the gateway's secret, and the lenient base64url reading of a text. */
  datatype Keyed = Keyed(mac: string -> seq<byte>, read: string -> seq<byte>)

  /** The lenient reader undoes the encoder; on other texts it may answer anything. */
  ghost predicate Reads(k: Keyed) {
    forall bytes :: k.read(Encode(bytes)) == bytes
  }

  function Sign(k: Keyed, key: string): string {
    key + "." + Encode(k.mac(key))
  }

  /** `value.lastIndexOf(".")` */
  function LastDot(s: string): (i: int)
    ensures -1 <= i < |s|
    ensures i >= 0 ==> s[i] == '.'
    ensures forall j | i < j < |s| :: s[j] != '.'
  {
    if s == "" then -1 else if s[|s| - 1] == '.' then |s| - 1 else LastDot(s[..|s| - 1])
  }

  function Verify(k: Keyed, value: string): Option<string> {
    var separator := LastDot(value);
    if separator <= 0 then None
    else
      var key, signature := value[..separator], value[separator + 1..];
      var actual := k.read(signature);
      if Encode(actual) != signature then None
      else if actual == k.mac(key) then Some(key) else None
  }

  lemma SignedParts(k: Keyed, key: string)
    ensures LastDot(Sign(k, key)) == |key|
    ensures Sign(k, key)[..|key|] == key && Sign(k, key)[|key| + 1..] == Encode(k.mac(key))
  {
    var s, signature := Sign(k, key), Encode(k.mac(key));
    EncodeLetters(k.mac(key));
    assert s[|key|] == '.';
    assert forall j | |key| < j < |s| :: s[j] == signature[j - |key| - 1];
  }

  /**
   A cookie is accepted for a key exactly if it is the one signed for that key, which is not empty.
   Keys may hold dots.
   */
  lemma VerifyIffSigned(k: Keyed, value: string, key: string)
    requires Reads(k)
    ensures Verify(k, value) == Some(key) <==> key != "" && value == Sign(k, key)
  {
    if value == Sign(k, key) { SignedParts(k, key); }
    if Verify(k, value) == Some(key) {
      assert value == key + "." + value[|key| + 1..];
    }
  }

  lemma CookieRoundTrip(k: Keyed, key: string)
    requires Reads(k)
    ensures Verify(k, Sign(k, key)) == if key == "" then None else Some(key)
  {
    VerifyIffSigned(k, Sign(k, key), key);
    SignedParts(k, key);
  }
}
