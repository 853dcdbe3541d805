/** Reading a multipart body back: a reader of the layout of section 5.1.1 of RFC 2046 with
    the part headers of section 4.2 of RFC 7578, and that it finds what was written. */
module MultipartReader {
  import opened Types
  import opened Packing
  import opened Multipart

  // ---- The reader ----

  datatype Cut = Cut(found: Bytes, rest: Bytes)

  /** What follows this text at the start of b. */
  function Skip(b: Bytes, s: string): Option<Bytes> {
    if |s| <= |b| && b[..|s|] == Text(s) then Some(b[|s|..]) else None
  }

  /** The quoted text up to the closing quote, with each backslash taking the next byte as it is. */
  function ReadQuoted(b: Bytes): Option<Cut> {
    if b == [] then None
    else if b[0] == 34 then Some(Cut([], b))
    else if b[0] == 92 then
      if |b| < 2 then None
      else match ReadQuoted(b[2..]) case None => None case Some(c) => Some(Cut([b[1]] + c.found, c.rest))
    else match ReadQuoted(b[1..]) case None => None case Some(c) => Some(Cut([b[0]] + c.found, c.rest))
  }

  /** The bytes before the first occurrence of mark, and what follows it. */
  function ReadUpTo(b: Bytes, mark: Bytes): Option<Cut> {
    if mark <= b then Some(Cut([], b[|mark|..]))
    else if b == [] then None
    else match ReadUpTo(b[1..], mark) case None => None case Some(c) => Some(Cut([b[0]] + c.found, c.rest))
  }

  function Mark(boundary: string): string { "\r\n--" + boundary }

  /** A quoted name between two texts, again between two texts, and data up to a mark. */
  function ReadField(b: Bytes, s1: string, s2: string, s3: string, mark: Bytes): Option<(Bytes, Bytes, Bytes)> {
    match Skip(b, s1)
    case None => None
    case Some(atName) =>
      match ReadQuoted(atName)
      case None => None
      case Some(name) =>
        match Skip(name.rest, s2)
        case None => None
        case Some(atFile) =>
          match ReadQuoted(atFile)
          case None => None
          case Some(file) =>
            match Skip(file.rest, s3)
            case None => None
            case Some(atData) =>
              match ReadUpTo(atData, mark)
              case None => None
              case Some(data) => if file.found == name.found then Some((name.found, data.found, data.rest)) else None
  }

  const BEFORE_NAME: string := "\r\n" + "Content-Disposition: form-data; name=\""
  const BETWEEN: string := "\"; filename=\""
  const AFTER_FILE: string := "\"\r\n" + "Content-Type: application/octet-stream\r\n" + "\r\n"
  const END: string := "--\r\n"

  /** One part, from the end of its delimiter on: its name, its data, and what follows the
      next delimiter. */
  function ReadPart(b: Bytes, mark: Bytes): Option<(Bytes, Bytes, Bytes)> {
    ReadField(b, BEFORE_NAME, BETWEEN, AFTER_FILE, mark)
  }

  /** All parts from the end of a delimiter on; fuel bounds their number. */
  function ReadParts(b: Bytes, mark: Bytes, fuel: nat): Option<seq<(Bytes, Bytes)>>
    decreases fuel
  {
    if Skip(b, END) == Some([]) then Some([])
    else if fuel == 0 then None
    else match ReadPart(b, mark)
      case None => None
      case Some(p) =>
        match ReadParts(p.2, mark, fuel - 1)
        case None => None
        case Some(ps) => Some([(p.0, p.1)] + ps)
  }

  function ReadBody(b: Bytes, boundary: string): Option<seq<(Bytes, Bytes)>> {
    match Skip(b, "--" + boundary)
    case Some(rest) => ReadParts(rest, Text(Mark(boundary)), |b|)
    case None =>
      match Skip(b, Mark(boundary))
      case Some(rest) => ReadParts(rest, Text(Mark(boundary)), |b|)
      case None => None
  }

  // ---- What it finds ----

  /** Every char stands for one byte. */
  predicate Bytewise(s: string) { forall i :: 0 <= i < |s| ==> s[i] as int < 256 }

  /** mark does not begin inside data, nor in data run together with mark itself. */
  predicate FreeOf(data: Bytes, mark: Bytes) {
    forall i :: 0 <= i < |data| ==> !(mark <= (data + mark)[i..])
  }

  lemma TextJoins(a: string, b: string)
    ensures Text(a + b) == Text(a) + Text(b)
  {
  }

  lemma SkipText(s: string, rest: Bytes)
    ensures Skip(Text(s) + rest, s) == Some(rest)
  {
    assert (Text(s) + rest)[..|s|] == Text(s) && (Text(s) + rest)[|s|..] == rest;
  }

  lemma ReadQuotedChar(c: char, b: Bytes, name: Bytes, rest: Bytes)
    requires c as int < 256 && ReadQuoted(b) == Some(Cut(name, rest))
    ensures ReadQuoted(Text(Escape([c])) + b) == Some(Cut(Text([c]) + name, rest))
  {
    assert Escape([c]) == (if Special(c) then ['\\', c] else [c]) by { assert [c][1..] == "" && Escape("") == ""; }
    var all := Text(Escape([c])) + b;
    if Special(c) {
      assert all[0] == 92 && all[2..] == b && all[1] == Text([c])[0];
    } else {
      assert all[0] == Text([c])[0] && all[1..] == b;
    }
    assert Text([c]) == [Text([c])[0]];
  }

  lemma EscapeCons(s: string)
    requires s != ""
    ensures Escape(s) == Escape([s[0]]) + Escape(s[1..])
  {
    assert [s[0]][1..] == "" && Escape("") == "";
  }

  /** Escaping is undone by reading, whatever the name. */
  lemma {:induction false} ReadEscaped(s: string, rest: Bytes)
    requires Bytewise(s) && rest != [] && rest[0] == 34
    ensures ReadQuoted(Text(Escape(s)) + rest) == Some(Cut(Text(s), rest))
  {
    if s == "" {
      assert Text(Escape(s)) + rest == rest && Text(s) == [];
    } else {
      ReadEscaped(s[1..], rest);
      EscapeCons(s);
      TextJoins(Escape([s[0]]), Escape(s[1..]));
      ReadQuotedChar(s[0], Text(Escape(s[1..])) + rest, Text(s[1..]), rest);
      assert Text(Escape(s)) + rest == Text(Escape([s[0]])) + (Text(Escape(s[1..])) + rest);
      assert s == [s[0]] + s[1..];
      TextJoins([s[0]], s[1..]);
    }
  }

  lemma {:induction false} ReadMarked(data: Bytes, mark: Bytes, rest: Bytes)
    requires FreeOf(data, mark)
    ensures ReadUpTo(data + mark + rest, mark) == Some(Cut(data, rest))
  {
    var all := data + mark + rest;
    if data == [] {
      assert all == mark + rest && all[|mark|..] == rest;
    } else {
      assert !(mark <= (data + mark)[0..]);
      assert (data + mark)[0..] == data + mark;
      assert all[..|mark|] == (data + mark)[..|mark|];
      forall i | 0 <= i < |data[1..]| ensures !(mark <= (data[1..] + mark)[i..]) {
        assert (data[1..] + mark)[i..] == (data + mark)[i + 1..];
      }
      ReadMarked(data[1..], mark, rest);
      assert all[1..] == data[1..] + mark + rest;
      assert data == [data[0]] + data[1..];
    }
  }

  function FieldHeader(name: string): string { "\r\n" + Disposition(name) + CONTENT_TYPE + "\r\n" }

  /** What a part puts between its delimiter and the next one. */
  function PartBytes(p: QuiltPart): Bytes {
    Text(FieldHeader(Escape(p.identifier))) + p.data
  }

  lemma LiteralsBefore()
    ensures "\r\n" + "Content-Disposition: form-data; name=\"" == BEFORE_NAME
  {
  }

  lemma LiteralsAfter()
    ensures "\"\r\n" + CONTENT_TYPE + "\r\n" == AFTER_FILE
  {
  }

  lemma Regroup(x: string, d: string, n: string, s2: string, q: string, t: string, e: string)
    ensures x + (d + n + s2 + n + q) + t + e == (x + d) + n + s2 + n + (q + t + e)
  {
  }

  lemma FieldHeaderText(name: string)
    ensures FieldHeader(name) == BEFORE_NAME + name + BETWEEN + name + AFTER_FILE
  {
    LiteralsBefore();
    LiteralsAfter();
    Regroup("\r\n", "Content-Disposition: form-data; name=\"", name, BETWEEN, "\"\r\n", CONTENT_TYPE, "\r\n");
  }

  lemma JoinFive(s1: string, n: string, s2: string, s3: string, rest: Bytes)
    ensures Text(s1 + n + s2 + n + s3) + rest == Text(s1) + (Text(n) + (Text(s2) + (Text(n) + (Text(s3) + rest))))
  {
    TextJoins(s1 + n + s2 + n, s3);
    TextJoins(s1 + n + s2, n);
    TextJoins(s1 + n, s2);
    TextJoins(s1, n);
  }

  lemma ReadOneField(name: string, data: Bytes, s1: string, s2: string, s3: string, mark: Bytes, rest: Bytes)
    requires Bytewise(name) && FreeOf(data, mark) && s2 != "" && s2[0] == '\"' && s3 != "" && s3[0] == '\"'
    ensures ReadField(Text(s1 + Escape(name) + s2 + Escape(name) + s3) + (data + mark + rest), s1, s2, s3, mark)
         == Some((Text(name), data, rest))
  {
    var n := Text(Escape(name));
    var afterFile := Text(s3) + (data + mark + rest);
    var afterName := Text(s2) + (n + afterFile);
    JoinFive(s1, Escape(name), s2, s3, data + mark + rest);
    SkipText(s1, n + afterName);
    ReadEscaped(name, afterName);
    SkipText(s2, n + afterFile);
    ReadEscaped(name, afterFile);
    SkipText(s3, data + mark + rest);
    ReadMarked(data, mark, rest);
  }

  lemma ReadOnePart(p: QuiltPart, mark: Bytes, rest: Bytes)
    requires Bytewise(p.identifier) && FreeOf(p.data, mark)
    ensures ReadPart(PartBytes(p) + mark + rest, mark) == Some((Text(p.identifier), p.data, rest))
  {
    FieldHeaderText(Escape(p.identifier));
    ReadOneField(p.identifier, p.data, BEFORE_NAME, BETWEEN, AFTER_FILE, mark, rest);
    PartRegrouped(Text(FieldHeader(Escape(p.identifier))), p.data, mark, rest);
  }

  lemma PartRegrouped(header: Bytes, data: Bytes, mark: Bytes, rest: Bytes)
    ensures header + data + mark + rest == header + (data + mark + rest)
  {
  }

  /** The body from the end of its first delimiter on. */
  function AfterMark(parts: seq<QuiltPart>, mark: Bytes, end: Bytes): Bytes {
    if parts == [] then end else PartBytes(parts[0]) + mark + AfterMark(parts[1..], mark, end)
  }

  function Opening(first: bool, boundary: string): Bytes {
    Text(if first then "--" + boundary else Mark(boundary))
  }

  lemma DelimiterText(first: bool, name: string, boundary: string)
    ensures Text(PartHeader(first, name, boundary)) == Opening(first, boundary) + Text(FieldHeader(name))
  {
    var dashes := if first then "--" else "\r\n--";
    RegroupDelimiter(dashes, boundary, "\r\n", Disposition(name), CONTENT_TYPE);
    TextJoins(dashes + boundary, FieldHeader(name));
  }

  lemma RegroupDelimiter(dashes: string, boundary: string, e: string, d: string, t: string)
    ensures (dashes + boundary + e) + d + t + e == (dashes + boundary) + (e + d + t + e)
  {
  }

  /** Pieces, each led by mark, the first by first. */
  function Chain(pieces: seq<Bytes>, first: Bytes, mark: Bytes): Bytes {
    if pieces == [] then []
    else
      var n := |pieces| - 1;
      Chain(pieces[..n], first, mark) + (if n == 0 then first else mark) + pieces[n]
  }

  /** The same from the front: each piece is followed by mark. */
  function Tail(pieces: seq<Bytes>, mark: Bytes, end: Bytes): Bytes {
    if pieces == [] then end else pieces[0] + mark + Tail(pieces[1..], mark, end)
  }

  lemma {:induction false} TailSnoc(pieces: seq<Bytes>, p: Bytes, mark: Bytes, end: Bytes)
    ensures Tail(pieces + [p], mark, end) == Tail(pieces, mark, p + mark + end)
  {
    if pieces == [] {
      assert [] + [p] == [p] && [p][1..] == [];
    } else {
      TailSnoc(pieces[1..], p, mark, end);
      assert (pieces + [p])[1..] == pieces[1..] + [p];
    }
  }

  lemma {:induction false} ChainIsTail(pieces: seq<Bytes>, first: Bytes, mark: Bytes, end: Bytes)
    ensures Chain(pieces, first, mark) + (if pieces == [] then first else mark) + end == first + Tail(pieces, mark, end)
  {
    if pieces != [] {
      var n := |pieces| - 1;
      ChainIsTail(pieces[..n], first, mark, pieces[n] + mark + end);
      TailSnoc(pieces[..n], pieces[n], mark, end);
      assert pieces[..n] + [pieces[n]] == pieces;
    }
  }

  function Pieces(parts: seq<QuiltPart>): seq<Bytes> {
    seq(|parts|, i requires 0 <= i < |parts| => PartBytes(parts[i]))
  }

  lemma OnePieceMore(written: Bytes, opening: Bytes, header: Bytes, data: Bytes)
    ensures written + (opening + header) + data == written + opening + (header + data)
  {
  }

  lemma WrittenStep(front: seq<QuiltPart>, p: QuiltPart, boundary: string)
    ensures WrittenParts(front + [p], boundary)
         == WrittenParts(front, boundary) + Opening(front == [], boundary) + PartBytes(p)
  {
    var name := Escape(p.identifier);
    assert (front + [p])[..|front|] == front;
    DelimiterText(front == [], name, boundary);
    OnePieceMore(WrittenParts(front, boundary), Opening(front == [], boundary), Text(FieldHeader(name)), p.data);
  }

  lemma ChainStep(front: seq<Bytes>, p: Bytes, first: Bytes, mark: Bytes)
    ensures Chain(front + [p], first, mark) == Chain(front, first, mark) + (if front == [] then first else mark) + p
  {
    assert (front + [p])[..|front|] == front;
  }

  lemma PiecesStep(front: seq<QuiltPart>, p: QuiltPart)
    ensures Pieces(front + [p]) == Pieces(front) + [PartBytes(p)]
  {
  }

  lemma {:induction false} WrittenIsChain(parts: seq<QuiltPart>, boundary: string, first: Bytes, mark: Bytes)
    requires first == Opening(true, boundary) && mark == Opening(false, boundary)
    ensures WrittenParts(parts, boundary) == Chain(Pieces(parts), first, mark)
    decreases |parts|
  {
    if parts != [] {
      var front, p := parts[..|parts| - 1], parts[|parts| - 1];
      assert front + [p] == parts;
      WrittenIsChain(front, boundary, first, mark);
      WrittenStep(front, p, boundary);
      ChainStep(Pieces(front), PartBytes(p), first, mark);
      PiecesStep(front, p);
    }
  }

  lemma {:induction false} AfterMarkIsTail(parts: seq<QuiltPart>, mark: Bytes, end: Bytes)
    ensures AfterMark(parts, mark, end) == Tail(Pieces(parts), mark, end)
  {
    if parts != [] {
      AfterMarkIsTail(parts[1..], mark, end);
      assert Pieces(parts)[1..] == Pieces(parts[1..]);
    }
  }

  function Read(parts: seq<QuiltPart>): seq<(Bytes, Bytes)> {
    seq(|parts|, i requires 0 <= i < |parts| => (Text(parts[i].identifier), parts[i].data))
  }

  predicate Readable(parts: seq<QuiltPart>, boundary: string) {
    forall i :: 0 <= i < |parts| ==> Bytewise(parts[i].identifier) && FreeOf(parts[i].data, Text(Mark(boundary)))
  }

  /** From the end of a delimiter on, exactly these parts are read. */
  ghost predicate ReadsAs(parts: seq<QuiltPart>, mark: Bytes, fuel: nat) {
    ReadParts(AfterMark(parts, mark, Text(END)), mark, fuel) == Some(Read(parts))
  }

  lemma NoPartsRead(mark: Bytes, fuel: nat)
    ensures ReadsAs([], mark, fuel)
  {
    SkipText(END, []);
    assert Text(END) + [] == Text(END);
    assert ReadParts(Text(END), mark, fuel) == Some([]);
    assert Read([]) == [];
  }

  lemma MorePartsRead(p: QuiltPart, parts: seq<QuiltPart>, mark: Bytes, fuel: nat)
    requires Bytewise(p.identifier) && FreeOf(p.data, mark) && fuel > 0 && ReadsAs(parts, mark, fuel - 1)
    ensures ReadsAs([p] + parts, mark, fuel)
  {
    FirstPartRead(p, mark, fuel, AfterMark(parts, mark, Text(END)), Read(parts));
    FromTheFront(p, parts, mark, Text(END));
  }

  lemma FromTheFront(p: QuiltPart, parts: seq<QuiltPart>, mark: Bytes, end: Bytes)
    ensures AfterMark([p] + parts, mark, end) == PartBytes(p) + mark + AfterMark(parts, mark, end)
    ensures Read([p] + parts) == [(Text(p.identifier), p.data)] + Read(parts)
  {
    assert ([p] + parts)[1..] == parts;
  }

  lemma ReadableParts(parts: seq<QuiltPart>, boundary: string)
    requires Readable(parts, boundary) && parts != []
    ensures Bytewise(parts[0].identifier) && FreeOf(parts[0].data, Text(Mark(boundary)))
    ensures Readable(parts[1..], boundary)
  {
    assert forall i :: 0 <= i < |parts| - 1 ==> parts[1..][i] == parts[i + 1];
  }

  lemma {:induction false} ReadAllParts(parts: seq<QuiltPart>, boundary: string, mark: Bytes, fuel: nat)
    requires Readable(parts, boundary) && fuel >= |parts| && mark == Text(Mark(boundary))
    ensures ReadsAs(parts, mark, fuel)
  {
    if parts == [] {
      NoPartsRead(mark, fuel);
    } else {
      ReadableParts(parts, boundary);
      ReadAllParts(parts[1..], boundary, mark, fuel - 1);
      MorePartsRead(parts[0], parts[1..], mark, fuel);
      assert [parts[0]] + parts[1..] == parts;
    }
  }

  lemma FirstPartRead(p: QuiltPart, mark: Bytes, fuel: nat, rest: Bytes, ps: seq<(Bytes, Bytes)>)
    requires Bytewise(p.identifier) && FreeOf(p.data, mark)
    requires fuel > 0 && ReadParts(rest, mark, fuel - 1) == Some(ps)
    ensures ReadParts(PartBytes(p) + mark + rest, mark, fuel) == Some([(Text(p.identifier), p.data)] + ps)
  {
    ReadOnePart(p, mark, rest);
    PartIsNotTheEnd(p, mark + rest);
    Regrouped(PartBytes(p), mark, rest);
    OneMorePart(PartBytes(p) + mark + rest, mark, fuel, Text(p.identifier), p.data, rest, ps);
  }

  lemma Regrouped(a: Bytes, b: Bytes, c: Bytes)
    ensures a + b + c == a + (b + c)
  {
  }

  lemma OneMorePart(b: Bytes, mark: Bytes, fuel: nat, name: Bytes, data: Bytes, rest: Bytes, ps: seq<(Bytes, Bytes)>)
    requires fuel > 0 && Skip(b, END) == None && ReadPart(b, mark) == Some((name, data, rest))
    requires ReadParts(rest, mark, fuel - 1) == Some(ps)
    ensures ReadParts(b, mark, fuel) == Some([(name, data)] + ps)
  {
  }

  lemma SkipDiffers(b: Bytes, s: string)
    requires s != "" && b != [] && b[0] != Text(s)[0]
    ensures Skip(b, s) == None
  {
    if |s| <= |b| { assert b[..|s|][0] == b[0]; }
  }

  lemma PartIsNotTheEnd(p: QuiltPart, tail: Bytes)
    ensures Skip(PartBytes(p) + tail, END) == None
  {
    var header := FieldHeader(Escape(p.identifier));
    assert header[0] == '\r';
    assert (PartBytes(p) + tail)[0] == Text(header)[0];
    SkipDiffers(PartBytes(p) + tail, END);
  }

  /** A reader of the layout gets back every part, name and data, whatever the names, for
      every boundary that does not occur in the data. */
  lemma BodyReadsBack(parts: seq<QuiltPart>, boundary: string)
    requires Readable(parts, boundary)
    ensures ReadBody(Body(parts, boundary), boundary) == Some(Read(parts))
  {
    var mark, body := Text(Mark(boundary)), Body(parts, boundary);
    ClosingText(boundary);
    FewParts(parts, boundary);
    ReadAllParts(parts, boundary, mark, |body|);
    if parts == [] {
      assert body == mark + Text(END);
      SkipText(Mark(boundary), Text(END));
      NotFirst(body, boundary, Text(END));
    } else {
      BodyOpens(parts, boundary, Text(END));
      SkipText("--" + boundary, AfterMark(parts, mark, Text(END)));
    }
  }

  lemma BodyOpens(parts: seq<QuiltPart>, boundary: string, end: Bytes)
    requires parts != [] && Text(Closing(boundary)) == Text(Mark(boundary)) + end
    ensures Body(parts, boundary) == Text("--" + boundary) + AfterMark(parts, Text(Mark(boundary)), end)
  {
    WrittenIsChain(parts, boundary, Opening(true, boundary), Opening(false, boundary));
    ChainIsTail(Pieces(parts), Opening(true, boundary), Opening(false, boundary), end);
    AfterMarkIsTail(parts, Opening(false, boundary), end);
    EndOfBody(WrittenParts(parts, boundary), Text(Mark(boundary)), end, Text(Closing(boundary)));
  }

  lemma EndOfBody(written: Bytes, mark: Bytes, end: Bytes, closing: Bytes)
    requires closing == mark + end
    ensures written + closing == written + mark + end
  {
  }

  lemma ClosingText(boundary: string)
    ensures Text(Closing(boundary)) == Text(Mark(boundary)) + Text(END)
  {
    assert Closing(boundary) == Mark(boundary) + END;
    TextJoins(Mark(boundary), END);
  }

  lemma NotFirst(body: Bytes, boundary: string, end: Bytes)
    requires body == Text(Mark(boundary)) + end
    ensures Skip(body, "--" + boundary) == None
  {
    assert Mark(boundary)[0] == '\r' && ("--" + boundary)[0] == '-';
    assert body[0] == Text(Mark(boundary))[0];
    SkipDiffers(body, "--" + boundary);
  }

  lemma {:induction false} FewParts(parts: seq<QuiltPart>, boundary: string)
    ensures |parts| <= |Body(parts, boundary)|
  {
    if parts != [] { FewParts(parts[..|parts| - 1], boundary); }
  }

  lemma {:induction false} DecimalIsBytewise(n: nat)
    ensures Bytewise(Itoa(n))
  {
    if n >= 10 { DecimalIsBytewise(n / 10); }
  }

  /** So every quilt request carries each block under its decimal position. */
  lemma QuiltRequestReadsBack(pack: seq<StageEntry>, boundary: string)
    requires forall e :: e in pack ==> FreeOf(e.value, Text(Mark(boundary)))
    ensures ReadBody(Body(Parts(pack), boundary), boundary).Some?
    ensures var read := ReadBody(Body(Parts(pack), boundary), boundary).value;
      |read| == |pack| && forall i :: 0 <= i < |pack| ==> read[i] == (Text(Itoa(i)), pack[i].value)
  {
    forall i | 0 <= i < |pack| ensures Bytewise(Itoa(i)) && FreeOf(pack[i].value, Text(Mark(boundary))) {
      DecimalIsBytewise(i);
      assert pack[i] in pack;
    }
    BodyReadsBack(Parts(pack), boundary);
  }
}
