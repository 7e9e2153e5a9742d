/**
 * The `/webhook/pix` handler of app.py: rate limit by IP, authenticate the raw
 * body against the `X-Signature` header, read the payment fields with their
 * defaults, and record the payment. HMAC-SHA256 and JSON parsing are foreign
 * code: the parameter `mac` stands for
 * `hmac.new(secret, body, hashlib.sha256).hexdigest()`, and `decode` for the
 * `request.json` Flask parses from that same body.
 */
module Webhook {
  import opened Wrappers
  import opened Clock
  import opened Ledger
  import opened Database
  import opened RateLimit

  newtype byte = x: int | 0 <= x < 256

  /** The fields read from `request.json or {}`; None where the key is absent. */
  datatype Payload = Payload(paymentId: Option<string>, amount: Option<real>, status: Option<string>)

  /** The payment `salvar_pix` is called with. */
  datatype Fields = Fields(paymentId: string, amount: real, status: string)

  /** The handler's outcomes: 200 `{"ok": true}`, `abort(429)`, `abort(401)`, or a TypeError (500). */
  datatype Response = Ok | TooManyRequests | Unauthorized | ServerError

  /** What `hmac.compare_digest` does with two strings. */
  datatype Verdict = Match | Mismatch | NotAscii

  predicate IsAscii(s: string)
  {
    forall i :: 0 <= i < |s| ==> s[i] as int < 128
  }

  predicate IsHexChar(c: char)
  {
    '0' <= c <= '9' || 'a' <= c <= 'f'
  }

  predicate IsHex(s: string)
  {
    forall i :: 0 <= i < |s| ==> IsHexChar(s[i])
  }

  function Zeros(n: nat): (s: string)
    ensures |s| == n && IsHex(s)
  {
    if n == 0 then "" else "0" + Zeros(n - 1)
  }

  /** What `hexdigest()` of SHA-256 returns: 64 lower-case hexadecimal characters. */
  type HexDigest = s: string | |s| == 64 && IsHex(s)
    witness Zeros(64)

  /** A hex digest is never empty and never holds a non-ASCII character. */
  lemma HexDigestIsAscii(h: HexDigest)
    ensures h != "" && IsAscii(h)
  {
  }

  /**
   * `hmac.compare_digest(calc, assinatura or "")`: a missing or empty header
   * is compared as ""; a header with a non-ASCII character raises TypeError
   * instead of comparing (the digest itself is always ASCII).
   */
  function CheckSignature(secret: seq<byte>, body: seq<byte>, header: Option<string>,
                          mac: (seq<byte>, seq<byte>) -> HexDigest): (v: Verdict)
    ensures v == Match <==> header.GetOr("") == mac(secret, body)
    ensures v == NotAscii <==> !IsAscii(header.GetOr(""))
  {
    var digest := mac(secret, body);
    var given := header.GetOr("");
    HexDigestIsAscii(digest);
    if !IsAscii(given) then NotAscii
    else if digest == given then Match
    else Mismatch
  }

  /** A request without `X-Signature`, or with an empty one, is never authenticated. */
  lemma MissingSignatureRejected(secret: seq<byte>, body: seq<byte>, mac: (seq<byte>, seq<byte>) -> HexDigest)
    ensures CheckSignature(secret, body, None, mac) == Mismatch
    ensures CheckSignature(secret, body, Some(""), mac) == Mismatch
  {
    HexDigestIsAscii(mac(secret, body));
  }

  /** A signature computed over other bytes authenticates this body only if the two digests coincide. */
  lemma TamperedBodyRejected(secret: seq<byte>, body: seq<byte>, tampered: seq<byte>,
                             mac: (seq<byte>, seq<byte>) -> HexDigest)
    requires mac(secret, tampered) != mac(secret, body)
    ensures CheckSignature(secret, tampered, Some(mac(secret, body)), mac) != Match
  {
  }

  /** `data.get("paymentId", "N/A")`, `data.get("amount", 0)`, `data.get("status", "CONFIRMADO")`. */
  function FieldsOf(p: Payload): (f: Fields)
    ensures p.paymentId.Some? ==> f.paymentId == p.paymentId.value
    ensures p.paymentId.None? ==> f.paymentId == "N/A"
    ensures p.amount.Some? ==> f.amount == p.amount.value
    ensures p.amount.None? ==> f.amount == 0.0
    ensures p.status.Some? ==> f.status == p.status.value
    ensures p.status.None? ==> f.status == "CONFIRMADO"
  {
    Fields(p.paymentId.GetOr("N/A"), p.amount.GetOr(0.0), p.status.GetOr("CONFIRMADO"))
  }

  /** The row `salvar_pix` would insert for this payload at `clock`. */
  function RowOf(p: Payload, clock: DateTime): PixRow
  {
    var f := FieldsOf(p);
    PixRow(f.paymentId, f.amount, f.status, clock.date, clock.time)
  }

  /**
   * Payloads without `paymentId` all share the dedup key "N/A": once one is
   * stored, every later one is ignored whatever its amount.
   */
  lemma MissingIdsShareOneRow(rows: seq<PixRow>, p: Payload, q: Payload, c1: DateTime, c2: DateTime)
    requires p.paymentId.None? && q.paymentId.None?
    ensures var once := InsertOrIgnore(rows, RowOf(p, c1));
      InsertOrIgnore(once, RowOf(q, c2)) == once
  {
  }

  /**
   * `webhook_pix`. The rate limit is checked first and counts every request,
   * authenticated or not; only a request it lets through whose signature
   * matches reaches `salvar_pix`, with the fields of the JSON decoded from the
   * same bytes the signature was checked over.
   */
  method WebhookPix(webhookHits: SlidingWindow, db: Database, ip: string, now: int, clock: DateTime,
                    secret: seq<byte>, body: seq<byte>, signature: Option<string>,
                    mac: (seq<byte>, seq<byte>) -> HexDigest, decode: seq<byte> -> Payload)
    returns (resp: Response)
    requires db.Valid()
    modifies webhookHits, db`pix
    ensures db.Valid()
    ensures webhookHits.hits ==
      old(webhookHits.hits)[ip := NextLog(old(webhookHits.Log(ip)), now, WebhookMaxHits, WebhookWindow)]
    ensures var allowed := Admits(old(webhookHits.Log(ip)), now, WebhookMaxHits, WebhookWindow);
      var verdict := CheckSignature(secret, body, signature, mac);
      && (resp == TooManyRequests <==> !allowed)
      && (resp == Unauthorized <==> allowed && verdict == Mismatch)
      && (resp == ServerError <==> allowed && verdict == NotAscii)
      && (resp == Ok <==> allowed && verdict == Match)
    ensures resp == Ok ==> db.pix == InsertOrIgnore(old(db.pix), RowOf(decode(body), clock))
    ensures resp != Ok ==> db.pix == old(db.pix)
  {
    var allowed := RateLimitWebhook(webhookHits, ip, now);
    if !allowed {
      return TooManyRequests;
    }
    var verdict := CheckSignature(secret, body, signature, mac);
    if verdict == NotAscii {
      return ServerError;
    }
    if verdict == Mismatch {
      return Unauthorized;
    }
    var f := FieldsOf(decode(body));
    db.SalvarPix(f.paymentId, f.amount, f.status, clock);
    resp := Ok;
  }
}
