/** generateSignature of src/outbound-webhooks/outbound-webhooks.processor.ts against the verifier
    documented in README.md. */
module Signature {
  import opened Prelude
  import opened JavaScriptText

  /** HMAC-SHA256 in hex, of a key and a message: uninterpreted. */
  type Mac = (string, string) -> string

  predicate LowerHex(s: string) {
    forall k :: 0 <= k < |s| ==> '0' <= s[k] <= '9' || 'a' <= s[k] <= 'f'
  }

  /** A digest is 64 lower-case hex characters. */
  ghost predicate HexDigests(mac: Mac) {
    forall key, message :: |mac(key, message)| == 64 && LowerHex(mac(key, message))
  }

  function SignedString(timestamp: Option<int>, payload: string): string {
    NumberText(timestamp) + "." + payload
  }

  function GenerateSignature(mac: Mac, payload: string, secret: string, timestamp: nat): string {
    "t=" + Decimal(timestamp) + ",v1=" + mac(secret, SignedString(Some(timestamp), payload))
  }

  // ----- The documented verifier ---------------------------------------------------

  /** parts.find((p) => p.startsWith(prefix)) */
  function FindPrefix(parts: seq<string>, prefix: string): (part: Option<string>)
    ensures part.Some? ==> part.value in parts && prefix <= part.value
    ensures part.None? ==> forall p :: p in parts ==> !(prefix <= p)
  {
    if parts == [] then None
    else if prefix <= parts[0] then Some(parts[0])
    else
      assert parts == [parts[0]] + parts[1..];
      FindPrefix(parts[1..], prefix)
  }

  /** It is the first of them. */
  lemma {:induction false} FindPrefixFirst(parts: seq<string>, prefix: string) returns (k: nat)
    requires FindPrefix(parts, prefix).Some?
    ensures k < |parts| && FindPrefix(parts, prefix).value == parts[k] && prefix <= parts[k]
    ensures forall j :: 0 <= j < k ==> !(prefix <= parts[j])
  {
    if prefix <= parts[0] {
      k := 0;
    } else {
      var i := FindPrefixFirst(parts[1..], prefix);
      k := i + 1;
      assert forall j :: 1 <= j < |parts| ==> parts[j] == parts[1..][j - 1];
    }
  }

  function HexValue(c: char): Option<nat> {
    var n := c as int;
    if 48 <= n <= 57 then Some(n - 48)
    else if 97 <= n <= 102 then Some(n - 87)
    else if 65 <= n <= 70 then Some(n - 55)
    else None
  }

  /** Buffer.from(s, 'hex'): whole byte pairs up to the first character that is not hex. */
  function HexBytes(s: string): seq<nat> {
    if |s| < 2 || HexValue(s[0]).None? || HexValue(s[1]).None? then []
    else [16 * HexValue(s[0]).value + HexValue(s[1]).value] + HexBytes(s[2..])
  }

  /** timingSafeEqual throws on buffers of different lengths. */
  datatype Verdict = Accepted | Rejected | Throws

  function Distance(a: int, b: int): nat {
    if a < b then b - a else a - b
  }

  /** A timestamp that is not a number passes the tolerance check and is signed as "NaN". */
  function VerifySignature(mac: Mac, rawPayload: string, header: string, secret: string, now: int, tolerance: int): Verdict {
    var parts := Split(header, ',');
    var timestampPart, signaturePart := FindPrefix(parts, "t="), FindPrefix(parts, "v1=");
    if timestampPart.None? || signaturePart.None? then Rejected else
    var timestamp := ParseInt(timestampPart.value[2..]);
    if timestamp.Some? && Distance(now, timestamp.value) > tolerance then Rejected else
    var actual := HexBytes(signaturePart.value[3..]);
    var expected := HexBytes(mac(secret, SignedString(timestamp, rawPayload)));
    if |actual| != |expected| then Throws else
    if actual == expected then Accepted else Rejected
  }

  // ----- Hex -----------------------------------------------------------------------

  const LOWER := "0123456789abcdef"
  const UPPER := "0123456789ABCDEF"

  /** Hex digits of either case have their value, and nothing else has one. */
  lemma HexDigitValue(c: char)
    ensures forall v :: 0 <= v < 16 ==> HexValue(LOWER[v]) == Some(v) == HexValue(UPPER[v])
    ensures HexValue(c).Some? ==> HexValue(c).value < 16 && (c == LOWER[HexValue(c).value] || c == UPPER[HexValue(c).value])
  {
    forall v | 0 <= v < 16 ensures LOWER[v] as int == (if v < 10 then v + 48 else v + 87) && UPPER[v] as int == if v < 10 then v + 48 else v + 55 {
    }
    if HexValue(c).Some? {
      var v := HexValue(c).value;
      assert c as int == LOWER[v] as int || c as int == UPPER[v] as int;
    }
  }

  /** Decoding takes pairs of digits up to the first pair that is not one. */
  lemma {:induction false} HexBytesMeaning(s: string)
    ensures 2 * |HexBytes(s)| <= |s|
    ensures forall k :: 0 <= k < |HexBytes(s)| ==>
              && HexValue(s[2 * k]).Some? && HexValue(s[2 * k + 1]).Some?
              && HexBytes(s)[k] == 16 * HexValue(s[2 * k]).value + HexValue(s[2 * k + 1]).value
    ensures var n := 2 * |HexBytes(s)|; n + 1 < |s| ==> HexValue(s[n]).None? || HexValue(s[n + 1]).None?
    decreases |s|
  {
    if HexBytes(s) != [] {
      var rest := s[2..];
      HexBytesMeaning(rest);
      forall k | 0 <= k < |HexBytes(s)|
        ensures HexValue(s[2 * k]).Some? && HexValue(s[2 * k + 1]).Some?
        ensures HexBytes(s)[k] == 16 * HexValue(s[2 * k]).value + HexValue(s[2 * k + 1]).value
      {
        if k > 0 {
          assert rest[2 * (k - 1)] == s[2 * k] && rest[2 * (k - 1) + 1] == s[2 * k + 1];
          assert HexBytes(s)[k] == HexBytes(rest)[k - 1];
        }
      }
      var n := 2 * |HexBytes(s)|;
      if n + 1 < |s| {
        assert rest[n - 2] == s[n] && rest[n - 1] == s[n + 1];
      }
    }
  }

  lemma {:induction false} HexBytesLength(s: string)
    requires LowerHex(s)
    ensures |HexBytes(s)| == |s| / 2
    decreases |s|
  {
    if |s| >= 2 {
      HexBytesLength(s[2..]);
    }
  }

  lemma {:induction false} HexBytesInjective(a: string, b: string)
    requires LowerHex(a) && LowerHex(b) && |a| == |b| && |a| % 2 == 0
    requires HexBytes(a) == HexBytes(b)
    ensures a == b
    decreases |a|
  {
    if a != "" {
      var x, y := HexBytes(a), HexBytes(b);
      assert x[0] == y[0] && x[1..] == y[1..];
      assert HexValue(a[0]).value < 16 && HexValue(a[1]).value < 16 && HexValue(b[0]).value < 16 && HexValue(b[1]).value < 16;
      assert a[0] == b[0] && a[1] == b[1];
      HexBytesInjective(a[2..], b[2..]);
      assert a == [a[0], a[1]] + a[2..] && b == [b[0], b[1]] + b[2..];
    }
  }

  // ----- Exactly when the documented verifier throws -------------------------------

  /** The timestamp is no number, or within the tolerance of now on either side. */
  predicate Timely(timestamp: Option<int>, now: int, tolerance: int) {
    timestamp.None? || -tolerance <= now - timestamp.value <= tolerance
  }

  /** The verdict on any header: rejected without both parts or with a numeric timestamp outside the
      tolerance; otherwise a signature that does not decode to 32 bytes makes the verifier throw, and
      one that does is accepted exactly when those bytes are the digest's. */
  lemma VerdictOnHeader(mac: Mac, rawPayload: string, header: string, secret: string, now: int, tolerance: int)
    requires HexDigests(mac)
    ensures var timestampPart, signaturePart := FindPrefix(Split(header, ','), "t="), FindPrefix(Split(header, ','), "v1=");
            var verdict := VerifySignature(mac, rawPayload, header, secret, now, tolerance);
            if timestampPart.None? || signaturePart.None? then verdict == Rejected else
            var timestamp, bytes := ParseInt(timestampPart.value[2..]), HexBytes(signaturePart.value[3..]);
            if timestamp.Some? && !(-tolerance <= now - timestamp.value <= tolerance) then verdict == Rejected
            else if |bytes| != 32 then verdict == Throws
            else verdict == if bytes == HexBytes(mac(secret, NumberText(timestamp) + "." + rawPayload)) then Accepted else Rejected
  {
    var timestampPart := FindPrefix(Split(header, ','), "t=");
    if timestampPart.Some? {
      HexBytesLength(mac(secret, SignedString(ParseInt(timestampPart.value[2..]), rawPayload)));
    }
  }

  /** It returns a boolean for every header, except one with both parts, a timestamp that is within
      tolerance or no number, and a signature that does not decode to 32 bytes: on that it throws,
      whatever the payload and the secret. */
  lemma ThrowsIff(mac: Mac, rawPayload: string, header: string, secret: string, now: int, tolerance: int)
    requires HexDigests(mac)
    ensures var timestampPart, signaturePart := FindPrefix(Split(header, ','), "t="), FindPrefix(Split(header, ','), "v1=");
            VerifySignature(mac, rawPayload, header, secret, now, tolerance) == Throws
            <==> && timestampPart.Some? && signaturePart.Some?
                 && Timely(ParseInt(timestampPart.value[2..]), now, tolerance)
                 && |HexBytes(signaturePart.value[3..])| != 32
  {
    VerdictOnHeader(mac, rawPayload, header, secret, now, tolerance);
  }

  /** A header that makes it throw: a fresh timestamp and a one-byte signature. */
  lemma ShortSignatureThrows(mac: Mac, rawPayload: string, secret: string, now: nat, tolerance: nat)
    requires HexDigests(mac)
    ensures VerifySignature(mac, rawPayload, "t=" + Decimal(now) + ",v1=ab", secret, now, tolerance) == Throws
  {
    var a, b := "t=" + Decimal(now), "v1=ab";
    assert "t=" + Decimal(now) + ",v1=ab" == a + [','] + b;
    SplitHeader(a, b);
    ParsePrinted(now);
    assert a[2..] == Decimal(now) && b[3..] == "ab";
    HexBytesMeaning("ab");
    ThrowsIff(mac, rawPayload, a + [','] + b, secret, now, tolerance);
  }

  /** A header of two parts gives each of them to its search. */
  lemma SplitHeader(a: string, b: string)
    requires ',' !in a && ',' !in b && "t=" <= a && "v1=" <= b
    ensures Split(a + [','] + b, ',') == [a, b]
    ensures FindPrefix([a, b], "t=") == Some(a) && FindPrefix([a, b], "v1=") == Some(b)
  {
    SplitFirst(a, b, ',');
    SplitFirst(b, "", ',');
    assert a[0] == 't' && b[0] == 'v';
    assert !("v1=" <= a) && [a, b][1..] == [b];
  }

  // ----- Printing and parsing ------------------------------------------------------

  /** The verifier finds the two parts of a printed header again. */
  lemma PartsOfPrinted(mac: Mac, payload: string, secret: string, timestamp: nat)
    requires HexDigests(mac)
    ensures var a, b := "t=" + Decimal(timestamp), "v1=" + mac(secret, Decimal(timestamp) + "." + payload);
            && Split(GenerateSignature(mac, payload, secret, timestamp), ',') == [a, b]
            && FindPrefix([a, b], "t=") == Some(a) && FindPrefix([a, b], "v1=") == Some(b)
  {
    var digest := mac(secret, SignedString(Some(timestamp), payload));
    var a, b := "t=" + Decimal(timestamp), "v1=" + digest;
    assert LowerHex(digest) && AllDigits(Decimal(timestamp));
    assert ',' !in Decimal(timestamp) && ',' !in digest;
    assert GenerateSignature(mac, payload, secret, timestamp) == a + [','] + b;
    SplitHeader(a, b);
  }

  /** On a printed header the verifier never throws, and accepts exactly when the timestamp is within
      the tolerance of now, before or after, and the digest it computes itself is the printed one. */
  lemma VerifyPrintedIff(mac: Mac, payload: string, secret: string, timestamp: nat,
                         received: string, key: string, now: int, tolerance: int)
    requires HexDigests(mac)
    ensures VerifySignature(mac, received, GenerateSignature(mac, payload, secret, timestamp), key, now, tolerance)
            == if -tolerance <= now - timestamp <= tolerance
                  && mac(key, Decimal(timestamp) + "." + received) == mac(secret, Decimal(timestamp) + "." + payload)
               then Accepted else Rejected
  {
    var digest := mac(secret, SignedString(Some(timestamp), payload));
    var own := mac(key, SignedString(Some(timestamp), received));
    var a, b := "t=" + Decimal(timestamp), "v1=" + digest;
    PartsOfPrinted(mac, payload, secret, timestamp);
    assert a[2..] == Decimal(timestamp) && b[3..] == digest;
    ParsePrinted(timestamp);
    assert |own| == |digest| == 64 && LowerHex(own) && LowerHex(digest);
    HexBytesLength(own);
    HexBytesLength(digest);
    if HexBytes(own) == HexBytes(digest) {
      HexBytesInjective(own, digest);
    }
  }

  /** Round trip: what the dispatcher prints, the documented verifier accepts, for every payload,
      secret and timestamp inside the tolerance. */
  lemma RoundTrip(mac: Mac, payload: string, secret: string, timestamp: nat, now: int, tolerance: int)
    requires HexDigests(mac) && -tolerance <= now - timestamp <= tolerance
    ensures VerifySignature(mac, payload, GenerateSignature(mac, payload, secret, timestamp), secret, now, tolerance) == Accepted
  {
    VerifyPrintedIff(mac, payload, secret, timestamp, payload, secret, now, tolerance);
  }

  /** The text before the first dot. */
  function BeforeDot(s: string): string {
    if s == "" || s[0] == '.' then "" else [s[0]] + BeforeDot(s[1..])
  }

  lemma {:induction false} BeforeDotOf(a: string, p: string)
    requires '.' !in a
    ensures BeforeDot(a + "." + p) == a
  {
    if a != "" {
      BeforeDotOf(a[1..], p);
      assert (a + "." + p)[1..] == a[1..] + "." + p;
    }
  }

  /** How a printed number starts, and that it holds no dot. */
  lemma NumberTextShape(t: Option<int>)
    ensures '.' !in NumberText(t)
    ensures NumberText(t) != ""
    ensures NumberText(t)[0] == 'N' <==> t.None?
    ensures NumberText(t)[0] == '-' <==> t.Some? && t.value < 0
  {
    if t.Some? {
      var d := Decimal(if t.value < 0 then -t.value else t.value);
      assert AllDigits(d) && IsDigit(d[0]);
      assert '.' !in d;
    }
  }

  /** Different timestamps, NaN included, print differently. */
  lemma NumberTextInjective(t: Option<int>, u: Option<int>)
    ensures NumberText(t) == NumberText(u) <==> t == u
  {
    NumberTextShape(t);
    NumberTextShape(u);
    if NumberText(t) == NumberText(u) && t.Some? {
      if t.value < 0 {
        assert Decimal(-t.value) == NumberText(t)[1..] == NumberText(u)[1..] == Decimal(-u.value);
        DecimalInjective(-t.value, -u.value);
      } else {
        DecimalInjective(t.value, u.value);
      }
    }
  }

  /** The signed string determines both the timestamp, even one that is no number, and the payload. */
  lemma SignedStringInjective(t: Option<int>, p: string, u: Option<int>, q: string)
    ensures SignedString(t, p) == SignedString(u, q) <==> t == u && p == q
  {
    if SignedString(t, p) == SignedString(u, q) {
      NumberTextShape(t);
      NumberTextShape(u);
      NumberTextInjective(t, u);
      BeforeDotOf(NumberText(t), p);
      BeforeDotOf(NumberText(u), q);
      assert p == SignedString(t, p)[|NumberText(t)| + 1..] && q == SignedString(u, q)[|NumberText(u)| + 1..];
    }
  }
}
