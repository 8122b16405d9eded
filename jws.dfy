/** Reading the user out of an access token. The tokens are JWS compact
    serialisations (section 7.1 of RFC 7515): three base64url segments joined
    by dots, the second one carrying the JSON payload. The session layer splits
    the token on '.', hands the second piece to the browser's `atob` and parses
    the result as JSON, without any signature check.

    `atob` is modelled up to its acceptance test (the forgiving-base64 decode
    of the WHATWG Infra Standard, which decodes the standard alphabet of
    section 4 of RFC 4648); turning the accepted text into bytes and parsing
    them as JSON is an abstract partial function supplied by the caller. */
module Jws {
  import opened Http

  /** The claims the layer reads from the payload. */
  datatype User = User(id: string, email: string, nickname: string, role: string)

  /** `s.split(sep)` for a one-character separator. */
  function Split(s: string, sep: char): (parts: seq<string>)
    ensures |parts| >= 1
    ensures forall i :: 0 <= i < |parts| ==> sep !in parts[i]
    decreases |s|
  {
    if |s| == 0 then [""]
    else
      var rest := Split(s[1..], sep);
      if s[0] == sep then [""] + rest
      else [[s[0]] + rest[0]] + rest[1..]
  }

  /** `parts.join(sep)`, the inverse of Split. */
  function Join(parts: seq<string>, sep: char): string
    requires |parts| >= 1
    decreases |parts|
  {
    if |parts| == 1 then parts[0] else parts[0] + [sep] + Join(parts[1..], sep)
  }

  lemma {:induction false} JoinSplit(s: string, sep: char)
    ensures Join(Split(s, sep), sep) == s
    decreases |s|
  {
    if |s| > 0 {
      var rest := Split(s[1..], sep);
      JoinSplit(s[1..], sep);
      if s[0] == sep {
        assert Split(s, sep)[1..] == rest;
      } else if |rest| > 1 {
        assert Split(s, sep)[1..] == rest[1..];
      }
      assert s == [s[0]] + s[1..];
    }
  }

  /** Splitting a piece that holds no separator gives the piece itself. */
  lemma {:induction false} SplitWithoutSeparator(s: string, sep: char)
    requires sep !in s
    ensures Split(s, sep) == [s]
    decreases |s|
  {
    if |s| > 0 {
      assert sep !in s[1..];
      SplitWithoutSeparator(s[1..], sep);
      assert s == [s[0]] + s[1..];
    }
  }

  /** Splitting at a first separator peels off the piece before it. */
  lemma {:induction false} SplitAtSeparator(a: string, sep: char, t: string)
    requires sep !in a
    ensures Split(a + [sep] + t, sep) == [a] + Split(t, sep)
    decreases |a|
  {
    if |a| > 0 {
      assert (a + [sep] + t)[1..] == a[1..] + [sep] + t;
      assert sep !in a[1..];
      SplitAtSeparator(a[1..], sep, t);
      assert [a[0]] + a[1..] == a;
    } else {
      assert (a + [sep] + t)[1..] == t;
    }
  }

  lemma {:induction false} SplitJoin(parts: seq<string>, sep: char)
    requires |parts| >= 1
    requires forall i :: 0 <= i < |parts| ==> sep !in parts[i]
    ensures Split(Join(parts, sep), sep) == parts
    decreases |parts|
  {
    if |parts| == 1 {
      SplitWithoutSeparator(parts[0], sep);
    } else {
      SplitJoin(parts[1..], sep);
      SplitAtSeparator(parts[0], sep, Join(parts[1..], sep));
      assert parts == [parts[0]] + parts[1..];
    }
  }

  /** What `atob` receives: `token.split('.')[1]`, which is `undefined` when
      the token holds no '.', and `atob` turns `undefined` into the text
      "undefined". */
  function PayloadSegment(token: string): (segment: string)
    ensures '.' !in segment
    ensures '.' !in token ==> segment == "undefined"
  {
    var parts := Split(token, '.');
    if |parts| > 1 then
      assert token[|parts[0]|] == '.' by { JoinSplit(token, '.'); }
      parts[1]
    else "undefined"
  }

  /** For a token `header.payload.signature` the segment is the payload. */
  lemma CompactPayloadSegment(header: string, payload: string, signature: string)
    requires '.' !in header && '.' !in payload && '.' !in signature
    ensures PayloadSegment(header + "." + payload + "." + signature) == payload
  {
    var parts := [header, payload, signature];
    assert Join(parts[2..], '.') == signature;
    assert Join(parts[1..], '.') == payload + "." + signature;
    assert Join(parts, '.') == header + "." + payload + "." + signature;
    SplitJoin(parts, '.');
  }

  // ---- the acceptance test of atob ----

  /** ASCII whitespace: tab, line feed, form feed, carriage return, space. */
  predicate IsAsciiWhitespace(c: char) {
    c == '\t' || c == '\n' || c as int == 12 || c == '\r' || c == ' '
  }

  function RemoveWhitespace(s: string): (r: string)
    ensures |r| <= |s|
    ensures forall i :: 0 <= i < |r| ==> !IsAsciiWhitespace(r[i])
    decreases |s|
  {
    if s == [] then []
    else (if IsAsciiWhitespace(s[0]) then [] else [s[0]]) + RemoveWhitespace(s[1..])
  }

  /** When the length is a multiple of four, one or two trailing '=' go. */
  function StripPadding(s: string): string {
    if |s| % 4 == 0 && |s| >= 2 && s[|s| - 2] == '=' && s[|s| - 1] == '=' then s[..|s| - 2]
    else if |s| % 4 == 0 && |s| >= 1 && s[|s| - 1] == '=' then s[..|s| - 1]
    else s
  }

  /** The standard base64 alphabet (section 4 of RFC 4648). */
  predicate IsBase64Char(c: char) {
    'A' <= c <= 'Z' || 'a' <= c <= 'z' || '0' <= c <= '9' || c == '+' || c == '/'
  }

  /** `atob(data)` does not throw. */
  predicate AtobAccepts(data: string) {
    var d := StripPadding(RemoveWhitespace(data));
    |d| % 4 != 1 && forall i :: 0 <= i < |d| ==> IsBase64Char(d[i])
  }

  /** The base64url alphabet (section 5 of RFC 4648). */
  predicate IsBase64UrlChar(c: char) {
    'A' <= c <= 'Z' || 'a' <= c <= 'z' || '0' <= c <= '9' || c == '-' || c == '_'
  }

  /** A JWS segment: base64url without padding, whose length is therefore
      never one more than a multiple of four. */
  predicate IsBase64UrlSegment(s: string) {
    |s| % 4 != 1 && forall i :: 0 <= i < |s| ==> IsBase64UrlChar(s[i])
  }

  lemma {:induction false} NoWhitespaceKept(s: string)
    requires forall i :: 0 <= i < |s| ==> !IsAsciiWhitespace(s[i])
    ensures RemoveWhitespace(s) == s
    decreases |s|
  {
    if s != [] {
      NoWhitespaceKept(s[1..]);
      assert s == [s[0]] + s[1..];
    }
  }

  /** A token with no '.' never yields a user: `atob("undefined")` throws,
      nine characters being one more than a multiple of four. */
  lemma UndefinedRejected()
    ensures !AtobAccepts("undefined")
  {
    NoWhitespaceKept("undefined");
  }

  // ---- the user in the token, as written and as intended ----

  /** `getUserFromToken` as the source writes it: the segment goes to `atob`
      unchanged. */
  function UserFromTokenAsWritten(token: Option<string>, decode: string -> Option<User>): (u: Option<User>)
    ensures token.None? || token == Some("") ==> u == None
    ensures u.Some? ==> AtobAccepts(PayloadSegment(token.value))
  {
    if token.None? || token.value == "" then None
    else
      var segment := PayloadSegment(token.value);
      if AtobAccepts(segment) then decode(segment) else None
  }

  /** Rewrites the base64url alphabet into the standard one. */
  function ToStandardAlphabet(s: string): (r: string)
    ensures |r| == |s|
    ensures forall i :: 0 <= i < |s| ==> r[i] == if s[i] == '-' then '+' else if s[i] == '_' then '/' else s[i]
  {
    seq(|s|, i requires 0 <= i < |s| => if s[i] == '-' then '+' else if s[i] == '_' then '/' else s[i])
  }

  /** `getUserFromToken` as evidently intended: the base64url segment is
      rewritten to the standard alphabet before `atob` sees it. */
  function UserFromToken(token: Option<string>, decode: string -> Option<User>): (u: Option<User>)
    ensures token.None? || token == Some("") ==> u == None
  {
    if token.None? || token.value == "" then None
    else
      var segment := ToStandardAlphabet(PayloadSegment(token.value));
      if AtobAccepts(segment) then decode(segment) else None
  }

  /** A token without any '.' yields no user, as written and as intended. */
  lemma TokenWithoutDotYieldsNoUser(token: string, decode: string -> Option<User>)
    requires '.' !in token
    ensures UserFromTokenAsWritten(Some(token), decode) == None
    ensures UserFromToken(Some(token), decode) == None
  {
    SplitWithoutSeparator(token, '.');
    UndefinedRejected();
    assert ToStandardAlphabet("undefined") == "undefined";
  }

  /** Every base64url segment passes `atob` once rewritten. */
  lemma UrlSegmentAcceptedOnceRewritten(s: string)
    requires IsBase64UrlSegment(s)
    ensures AtobAccepts(ToStandardAlphabet(s))
  {
    var t := ToStandardAlphabet(s);
    assert forall i :: 0 <= i < |t| ==> IsBase64Char(t[i]);
    NoWhitespaceKept(t);
    assert StripPadding(t) == t;
  }

  /** For a well-formed compact token the intended reading decodes exactly the
      payload segment and never fails before the decoder. */
  lemma CompactTokenDecoded(header: string, payload: string, signature: string, decode: string -> Option<User>)
    requires '.' !in header && '.' !in signature
    requires IsBase64UrlSegment(payload)
    ensures UserFromToken(Some(header + "." + payload + "." + signature), decode) == decode(ToStandardAlphabet(payload))
  {
    CompactPayloadSegment(header, payload, signature);
    UrlSegmentAcceptedOnceRewritten(payload);
  }

  /** As written, a compact token whose payload segment uses '-' or '_'
      yields no user, whatever the payload says. */
  lemma AsWrittenDropsUrlSafePayload(header: string, payload: string, signature: string, i: nat, decode: string -> Option<User>)
    requires '.' !in header && '.' !in signature
    requires IsBase64UrlSegment(payload)
    requires i < |payload| && (payload[i] == '-' || payload[i] == '_')
    ensures UserFromTokenAsWritten(Some(header + "." + payload + "." + signature), decode) == None
  {
    CompactPayloadSegment(header, payload, signature);
    NoWhitespaceKept(payload);
    assert StripPadding(payload) == payload;
    assert !IsBase64Char(payload[i]);
  }

  /** The header `{"alg":"HS256"}` and the payload `{"n":">>?"}` in base64url:
      the payload segment holds a '_' at index 11. */
  const SampleHeader := "eyJhbGciOiJIUzI1NiJ9"
  const SamplePayload := "eyJuIjoiPj4_In0"
  const SampleSignature := "sig"

  lemma SampleIsCompact()
    ensures '.' !in SampleHeader && '.' !in SampleSignature
    ensures IsBase64UrlSegment(SamplePayload) && SamplePayload[11] == '_'
  {
    assert forall i :: 0 <= i < |SampleHeader| ==> SampleHeader[i] != '.';
  }

  /** A concrete token the source fails to read while the intended reading
      hands its payload to the decoder. */
  lemma AsWrittenRejectsSampleToken(decode: string -> Option<User>)
    ensures UserFromTokenAsWritten(Some(SampleHeader + "." + SamplePayload + "." + SampleSignature), decode) == None
    ensures UserFromToken(Some(SampleHeader + "." + SamplePayload + "." + SampleSignature), decode)
         == decode(ToStandardAlphabet(SamplePayload))
  {
    SampleIsCompact();
    AsWrittenDropsUrlSafePayload(SampleHeader, SamplePayload, SampleSignature, 11, decode);
    CompactTokenDecoded(SampleHeader, SamplePayload, SampleSignature, decode);
  }
}
