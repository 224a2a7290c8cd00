/** encodeAgentAuthEnvelope and decodeAgentAuthEnvelope (packages/core/src/agent-auth.ts:41-112). */
module AuthEnvelope {
  import opened Prelude
  import opened Base64Url

  datatype Authority = Loopback | Canonical

  datatype Header = Header(name: string, value: string)

  datatype Envelope = Envelope(version: nat, authority: Authority, headers: seq<Header>)

  /** Characters of a header name: the token characters of section 5.6.2 of RFC 9110. */
  predicate TokenChar(c: char) {
    || 'a' <= c <= 'z' || 'A' <= c <= 'Z' || '0' <= c <= '9'
    || c in {'!', '#', '$', '%', '&', '\'', '*', '+', '-', '.', '^', '_', '`', '|', '~'}
  }

  predicate ControlChar(c: char) {
    c <= '\U{0008}' || '\U{000A}' <= c <= '\U{001F}' || c == '\U{007F}'
  }

  const RESERVED: set<string> := {
    "connection", "content-length", "forwarded", "host", "keep-alive", "proxy-authenticate",
    "proxy-authorization", "te", "trailer", "transfer-encoding", "upgrade"
  }

  predicate HeaderAllowed(h: Header) {
    && 1 <= |h.name| <= 256 && |h.value| <= 16_384
    && (forall i | 0 <= i < |h.name| :: TokenChar(h.name[i]))
    && (forall i | 0 <= i < |h.value| :: !ControlChar(h.value[i]))
    && Lower(h.name) !in RESERVED
    && !StartsWith(Lower(h.name), "proxy-")
    && !StartsWith(Lower(h.name), "x-forwarded-")
    && !StartsWith(Lower(h.name), "x-eveland-")
  }

  /** No header is given twice, whatever the case of its name. */
  predicate NamedOnce(headers: seq<Header>) {
    forall i, j | 0 <= i < j < |headers| :: Lower(headers[i].name) != Lower(headers[j].name)
  }

  predicate Valid(e: Envelope) {
    && e.version == 1
    && |e.headers| <= 32
    && (forall i | 0 <= i < |e.headers| :: HeaderAllowed(e.headers[i]))
    && NamedOnce(e.headers)
  }

  /** The duplicate check, which remembers the names it has seen. */
  method CheckHeaders(headers: seq<Header>) returns (ok: bool)
    ensures ok <==> NamedOnce(headers)
  {
    ok := true;
    var seen: set<string> := {};
    for i := 0 to |headers|
      invariant seen == set k | 0 <= k < i :: Lower(headers[k].name)
      invariant ok <==> NamedOnce(headers[..i])
    {
      var normalized := Lower(headers[i].name);
      OneMore(headers, i);
      if normalized in seen { ok := false; }
      seen := seen + {normalized};
    }
    assert headers[..|headers|] == headers;
  }

  lemma OneMore(headers: seq<Header>, i: nat)
    requires i < |headers|
    ensures NamedOnce(headers[..i + 1])
       <==> NamedOnce(headers[..i]) && forall k | 0 <= k < i :: Lower(headers[k].name) != Lower(headers[i].name)
  {
    var a, b := headers[..i], headers[..i + 1];
    assert forall k | 0 <= k < i :: a[k] == b[k] == headers[k];
    assert b[i] == headers[i];
    if NamedOnce(b) {
      forall j, k | 0 <= j < k < i ensures Lower(a[j].name) != Lower(a[k].name) {
        assert Lower(b[j].name) != Lower(b[k].name);
      }
      forall k | 0 <= k < i ensures Lower(headers[k].name) != Lower(headers[i].name) {
        assert Lower(b[k].name) != Lower(b[i].name);
      }
    }
  }

  // ---------------------------------------------------------------------------
  // The encoded form
  // ---------------------------------------------------------------------------

  /** JSON text in UTF-8, written and read: what is written of a valid envelope is read back. */
  datatype Json = Json(write: Envelope -> seq<byte>, read: seq<byte> -> Option<Envelope>)

  ghost predicate Invertible(json: Json) {
    forall e | Valid(e) :: json.read(json.write(e)) == Some(e)
  }

  function EncodeEnvelope(json: Json, e: Envelope): Option<string> {
    if Valid(e) then Some(Encode(json.write(e))) else None
  }

  function DecodeEnvelope(json: Json, text: string): Option<Envelope> {
    match Decode(text)
    case None => None
    case Some(bytes) =>
      match json.read(bytes)
      case None => None
      case Some(e) => if Valid(e) then Some(e) else None
  }

  /** An envelope can be sent exactly if it is valid, and then it arrives as it was. */
  lemma EnvelopeRoundTrip(json: Json, e: Envelope)
    requires Invertible(json)
    ensures EncodeEnvelope(json, e).Some? <==> Valid(e)
    ensures Valid(e) ==> DecodeEnvelope(json, EncodeEnvelope(json, e).value) == Some(e)
  {
    RoundTrip(json.write(e));
  }

  /** What is accepted is valid: it could have been sent. */
  lemma AcceptedIsValid(json: Json, text: string)
    requires Invertible(json) && DecodeEnvelope(json, text).Some?
    ensures var e := DecodeEnvelope(json, text).value;
            Valid(e) && DecodeEnvelope(json, EncodeEnvelope(json, e).value) == Some(e)
  {
    EnvelopeRoundTrip(json, DecodeEnvelope(json, text).value);
  }
}
