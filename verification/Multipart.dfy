/** The streamed quilt request: a multipart body (section 5.1.1 of RFC 2046) whose
    parts are file fields (section 4.2 of RFC 7578), and the length announced for it
    before any of it is written. A char of a header stands for one byte. */
module Multipart {
  import opened Types
  import opened Packing

  function Text(s: string): (r: Bytes)
    ensures |r| == |s|
    ensures forall i :: 0 <= i < |s| && s[i] as int < 256 ==> r[i] as int == s[i] as int
  {
    seq(|s|, i requires 0 <= i < |s| => (s[i] as int % 256) as byte)
  }

  predicate BoundaryChar(c: char) {
    'a' <= c <= 'z' || 'A' <= c <= 'Z' || '0' <= c <= '9' || c in "'()+_,-./:=? "
  }

  predicate ValidBoundary(b: string) {
    1 <= |b| <= 70 && (forall i :: 0 <= i < |b| ==> BoundaryChar(b[i])) && b[|b| - 1] != ' '
  }

  /** A boundary as section 5.1.1 of RFC 2046 has it: 1 to 70 characters, letters, digits,
      some punctuation and spaces, the last of them no space. */
  predicate IsBoundary(b: string) {
    && 0 < |b| < 71 && b[|b| - 1] != ' '
    && forall c :: c in b ==>
         'A' <= c <= 'Z' || 'a' <= c <= 'z' || '0' <= c <= '9' || c == '\'' || c == '(' || c == ')' || c == '+'
         || c == '_' || c == ',' || c == '-' || c == '.' || c == '/' || c == ':' || c == '=' || c == '?' || c == ' '
  }

  predicate Special(c: char) { c == '\\' || c == '\"' }

  function Escape(s: string): string {
    if s == "" then "" else (if Special(s[0]) then ['\\', s[0]] else [s[0]]) + Escape(s[1..])
  }

  function SpecialCount(s: string): nat {
    if s == "" then 0 else (if Special(s[0]) then 1 else 0) + SpecialCount(s[1..])
  }

  predicate Plain(s: string) { forall i :: 0 <= i < |s| ==> !Special(s[i]) }

  // ---- The wire format ----

  function Delimiter(first: bool, boundary: string): string {
    (if first then "--" else "\r\n--") + boundary + "\r\n"
  }

  function Disposition(name: string): string {
    "Content-Disposition: form-data; name=\"" + name + "\"; filename=\"" + name + "\"\r\n"
  }

  const CONTENT_TYPE: string := "Content-Type: application/octet-stream\r\n"

  function PartHeader(first: bool, name: string, boundary: string): string {
    Delimiter(first, boundary) + Disposition(name) + CONTENT_TYPE + "\r\n"
  }

  function Closing(boundary: string): string { "\r\n--" + boundary + "--\r\n" }

  function WrittenParts(parts: seq<QuiltPart>, boundary: string): Bytes {
    if parts == [] then [] else
      var n := |parts| - 1;
      WrittenParts(parts[..n], boundary)
      + Text(PartHeader(n == 0, Escape(parts[n].identifier), boundary)) + parts[n].data
  }

  function Body(parts: seq<QuiltPart>, boundary: string): Bytes {
    WrittenParts(parts, boundary) + Text(Closing(boundary))
  }

  /** The bytes that escaping adds: each identifier is written twice. */
  function EscapeBytes(parts: seq<QuiltPart>): nat {
    if parts == [] then 0
    else EscapeBytes(parts[..|parts| - 1]) + 2 * SpecialCount(parts[|parts| - 1].identifier)
  }

  // ---- What escaping costs ----

  lemma {:induction false} EscapeLength(s: string)
    ensures |Escape(s)| == |s| + SpecialCount(s)
    ensures SpecialCount(s) == 0 <==> Plain(s)
  {
    if s != "" {
      EscapeLength(s[1..]);
      assert Plain(s) <==> !Special(s[0]) && Plain(s[1..]) by {
        if Plain(s[1..]) { forall i | 0 < i < |s| ensures !Special(s[i]) { assert s[i] == s[1..][i - 1]; } }
        if Plain(s) { forall i | 0 <= i < |s| - 1 ensures !Special(s[1..][i]) { assert s[1..][i] == s[i + 1]; } }
      }
    }
  }

  lemma {:induction false} NoEscapeBytes(parts: seq<QuiltPart>)
    ensures EscapeBytes(parts) == 0 <==> forall p :: p in parts ==> Plain(p.identifier)
  {
    if parts != [] {
      var n := |parts| - 1;
      assert parts == parts[..n] + [parts[n]];
      NoEscapeBytes(parts[..n]);
      EscapeLength(parts[n].identifier);
    }
  }

  lemma {:induction false} DecimalIsPlain(n: nat)
    ensures Plain(Itoa(n))
  {
    assert forall d :: 0 <= d < 10 ==> !Special(DIGITS[d]);
    if n >= 10 { DecimalIsPlain(n / 10); }
  }

  lemma QuiltPartsNeedNoEscaping(pack: seq<StageEntry>)
    ensures EscapeBytes(Parts(pack)) == 0
  {
    forall p | p in Parts(pack) ensures Plain(p.identifier) {
      var i :| 0 <= i < |Parts(pack)| && Parts(pack)[i] == p;
      DecimalIsPlain(i);
    }
    NoEscapeBytes(Parts(pack));
  }

  predicate HexChar(c: char) { '0' <= c <= '9' || 'a' <= c <= 'f' }

  /** Every boundary the client draws is one the writer accepts. */
  lemma HexBoundaryIsValid(b: string)
    requires |b| == 60 && forall i :: 0 <= i < |b| ==> HexChar(b[i])
    ensures IsBoundary(b)
  {
    assert HexChar(b[59]);
    forall i | 0 <= i < |b| ensures BoundaryChar(b[i]) { assert HexChar(b[i]); }
    BoundaryRules(b);
  }

  lemma BoundaryRules(b: string)
    ensures ValidBoundary(b) <==> IsBoundary(b)
  {
    forall i | 0 <= i < |b| ensures b[i] in b {}
  }

  // ---- Writing, and announcing ----

  method WriteMultipartBody(parts: seq<QuiltPart>, boundary: string) returns (r: Result<Bytes>)
    ensures r == if IsBoundary(boundary) then Ok(Body(parts, boundary)) else Err(BadBoundary)
  {
    BoundaryRules(boundary);
    if !ValidBoundary(boundary) { return Err(BadBoundary); }
    var body: Bytes := [];
    for i := 0 to |parts|
      invariant body == WrittenParts(parts[..i], boundary)
    {
      assert parts[..i + 1][..i] == parts[..i];
      body := body + Text(PartHeader(i == 0, Escape(parts[i].identifier), boundary));
      body := body + parts[i].data;
    }
    assert parts[..|parts|] == parts;
    return Ok(body + Text(Closing(boundary)));
  }

  lemma PartLength(parts: seq<QuiltPart>, boundary: string, i: nat)
    requires i < |parts|
    ensures |WrittenParts(parts[..i + 1], boundary)| - EscapeBytes(parts[..i + 1])
         == |WrittenParts(parts[..i], boundary)| - EscapeBytes(parts[..i])
            + |PartHeader(i == 0, parts[i].identifier, boundary)| + |parts[i].data|
  {
    assert parts[..i + 1][..i] == parts[..i];
    EscapeLength(parts[i].identifier);
  }

  /** The announced length is short by exactly what escaping adds, so it is the
      length of the body if and only if no identifier holds a quote or a backslash. */
  method MultipartBodyLength(parts: seq<QuiltPart>, boundary: string) returns (n: int)
    ensures n == |Body(parts, boundary)| - EscapeBytes(parts)
    ensures n == |Body(parts, boundary)| <==> forall p :: p in parts ==> Plain(p.identifier)
  {
    n := 0;
    for i := 0 to |parts|
      invariant n == |WrittenParts(parts[..i], boundary)| - EscapeBytes(parts[..i])
    {
      PartLength(parts, boundary, i);
      if i == 0 {
        n := n + |"--" + boundary + "\r\n"|;
      } else {
        n := n + |"\r\n--" + boundary + "\r\n"|;
      }
      n := n + |Disposition(parts[i].identifier)|;
      n := n + |CONTENT_TYPE|;
      n := n + |"\r\n"|;
      n := n + |parts[i].data|;
    }
    assert parts[..|parts|] == parts;
    n := n + |"\r\n--" + boundary + "--\r\n"|;
    NoEscapeBytes(parts);
  }

  /** For every pack, the Content-Length of its quilt request is exact. */
  method QuiltRequest(pack: seq<StageEntry>, boundary: string) returns (contentLength: int, body: Bytes)
    requires |boundary| == 60 && forall i :: 0 <= i < |boundary| ==> HexChar(boundary[i])
    ensures body == Body(Parts(pack), boundary) && contentLength == |body|
  {
    HexBoundaryIsValid(boundary);
    QuiltPartsNeedNoEscaping(pack);
    contentLength := MultipartBodyLength(Parts(pack), boundary);
    var r := WriteMultipartBody(Parts(pack), boundary);
    body := r.value;
  }
}
