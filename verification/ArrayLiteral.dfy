/** PostgreSQL array literals (internal/memory/canonical.go): the escaping printer, the byte
    scanner that reads literals back, and the round trip between them.

    Strings are byte sequences. A list goes through the database, whose own output quotes only
    the elements that need it, so the round trip is proved for every mix of quoted and bare
    elements, the printer's all-quoted form among them. */
module ArrayLiteral {
  import opened Options

  type byte = b: int | 0 <= b < 256
  type bytes = seq<byte>

  const QUOTE: byte := 34
  const COMMA: byte := 44
  const BACKSLASH: byte := 92
  const OPEN: byte := 123
  const CLOSE: byte := 125

  // ---- Printing ----

  /** A backslash before every quote and every backslash. */
  function Escape(v: bytes): bytes {
    if v == [] then [] else EscapeByte(v[0]) + Escape(v[1..])
  }

  function EscapeByte(c: byte): bytes {
    if c == QUOTE || c == BACKSLASH then [BACKSLASH, c] else [c]
  }

  function Quoted(v: bytes): bytes {
    [QUOTE] + Escape(v) + [QUOTE]
  }

  /** Comma-separated elements. */
  function Join(items: seq<bytes>): bytes {
    if items == [] then [] else if |items| == 1 then items[0] else items[0] + [COMMA] + Join(items[1..])
  }

  function Print(vs: seq<bytes>): bytes {
    Render(vs, seq(|vs|, i => true))
  }

  /** The literal that quotes the elements marked in `quoted` and leaves the others bare. */
  function Render(vs: seq<bytes>, quoted: seq<bool>): bytes
    requires |quoted| == |vs|
  {
    [OPEN] + Join(Items(vs, quoted)) + [CLOSE]
  }

  function Items(vs: seq<bytes>, quoted: seq<bool>): (items: seq<bytes>)
    requires |quoted| == |vs|
    ensures |items| == |vs|
  {
    seq(|vs|, i requires 0 <= i < |vs| => Written(vs[i], quoted[i]))
  }

  function Written(v: bytes, quoted: bool): bytes {
    if quoted then Quoted(v) else v
  }

  /** An element PostgreSQL may print without quotes: not empty, nothing the syntax uses. */
  predicate Bare(v: bytes) {
    v != [] && forall i :: 0 <= i < |v| ==> v[i] !in {QUOTE, COMMA, BACKSLASH, OPEN, CLOSE}
  }

  predicate Renderable(vs: seq<bytes>, quoted: seq<bool>) {
    |quoted| == |vs| && forall i :: 0 <= i < |vs| && !quoted[i] ==> Bare(vs[i])
  }

  /** pqArray: quotes every element, in a loop, then joins them. */
  method PqArray(vs: seq<bytes>) returns (literal: bytes)
    ensures literal == Print(vs) && Read(literal, false) == Some(vs)
  {
    PrintIsTheQuotedLiteral(vs, Print(vs));
    if |vs| == 0 {
      assert [OPEN] + [] + [CLOSE] == [OPEN, CLOSE];
      return [OPEN, CLOSE];
    }
    var quoted: seq<bytes> := [];
    for i := 0 to |vs|
      invariant quoted == Items(vs, seq(|vs|, i => true))[..i]
    {
      quoted := quoted + [[QUOTE] + Escape(vs[i]) + [QUOTE]];
    }
    assert quoted == Items(vs, seq(|vs|, i => true));
    literal := [OPEN] + Join(quoted) + [CLOSE];
  }

  // ---- Parsing ----

  predicate Brace(b: byte) {
    b == OPEN || b == CLOSE
  }

  /** strings.Trim(raw, "{}"): every leading and trailing brace goes. */
  function TrimBraces(raw: bytes): bytes {
    if raw == [] then []
    else if Brace(raw[0]) then TrimBraces(raw[1..])
    else if Brace(raw[|raw| - 1]) then TrimBraces(raw[..|raw| - 1])
    else raw
  }

  datatype Scan = Scan(result: seq<bytes>, current: bytes, inQuotes: bool, escaped: bool)

  const START := Scan([], [], false, false)

  /** One byte of the scanner. */
  function Feed(s: Scan, c: byte): Scan {
    if s.escaped then s.(current := s.current + [c], escaped := false)
    else if c == BACKSLASH && s.inQuotes then s.(escaped := true)
    else if c == QUOTE then s.(inQuotes := !s.inQuotes)
    else if c == COMMA && !s.inQuotes then s.(result := s.result + [s.current], current := [])
    else s.(current := s.current + [c])
  }

  function FeedAll(s: Scan, raw: bytes): Scan {
    if raw == [] then s else Feed(FeedAll(s, raw[..|raw| - 1]), raw[|raw| - 1])
  }

  /** A last element still being read is kept only when it is not empty. */
  function Finish(s: Scan): seq<bytes> {
    if |s.current| > 0 then s.result + [s.current] else s.result
  }

  function Parse(raw: bytes): seq<bytes> {
    if TrimBraces(raw) == [] then [] else Finish(FeedAll(START, TrimBraces(raw)))
  }

  method TrimLoop(raw: bytes) returns (trimmed: bytes)
    ensures trimmed == TrimBraces(raw)
  {
    trimmed := raw;
    while trimmed != [] && (Brace(trimmed[0]) || Brace(trimmed[|trimmed| - 1]))
      invariant TrimBraces(trimmed) == TrimBraces(raw)
      decreases |trimmed|
    {
      trimmed := if Brace(trimmed[0]) then trimmed[1..] else trimmed[..|trimmed| - 1];
    }
  }

  /** parsePQArray: the byte loop with its two flags. */
  method ParsePQArray(raw: bytes) returns (result: seq<bytes>)
    ensures result == Parse(raw)
  {
    if raw == [] || raw == [OPEN, CLOSE] {
      TrimEmptyLiteral();
      return [];
    }
    var trimmed := TrimLoop(raw);
    if trimmed == [] {
      return [];
    }
    result := [];
    var current: bytes := [];
    var inQuotes, escaped := false, false;
    for i := 0 to |trimmed|
      invariant Scan(result, current, inQuotes, escaped) == FeedAll(START, trimmed[..i])
    {
      var c := trimmed[i];
      assert trimmed[..i + 1][..i] == trimmed[..i];
      if escaped {
        current := current + [c];
        escaped := false;
      } else if c == BACKSLASH && inQuotes {
        escaped := true;
      } else if c == QUOTE {
        inQuotes := !inQuotes;
      } else if c == COMMA && !inQuotes {
        result := result + [current];
        current := [];
      } else {
        current := current + [c];
      }
    }
    assert trimmed[..|trimmed|] == trimmed;
    if |current| > 0 {
      result := result + [current];
    }
  }

  // ---- The round trip ----

  lemma {:induction false} FeedAppend(s: Scan, a: bytes, b: bytes)
    ensures FeedAll(s, a + b) == FeedAll(FeedAll(s, a), b)
    decreases |b|
  {
    if b == [] {
      assert a + b == a;
    } else {
      var n := |b| - 1;
      assert (a + b)[..|a + b| - 1] == a + b[..n];
      FeedAppend(s, a, b[..n]);
    }
  }

  lemma FeedOne(s: Scan, c: byte)
    ensures FeedAll(s, [c]) == Feed(s, c)
  {
    assert [c][..0] == [];
  }

  lemma ByteReadsBack(result: seq<bytes>, current: bytes, c: byte)
    ensures FeedAll(Scan(result, current, true, false), EscapeByte(c)) == Scan(result, current + [c], true, false)
  {
    var s := Scan(result, current, true, false);
    if c == QUOTE || c == BACKSLASH {
      FeedAppend(s, [BACKSLASH], [c]);
      FeedOne(s, BACKSLASH);
      FeedOne(Feed(s, BACKSLASH), c);
      assert [BACKSLASH] + [c] == [BACKSLASH, c];
    } else {
      FeedOne(s, c);
    }
  }

  /** Inside quotes, an escaped element reads back as itself. */
  lemma {:induction false} EscapeReadsBack(result: seq<bytes>, current: bytes, v: bytes)
    ensures FeedAll(Scan(result, current, true, false), Escape(v)) == Scan(result, current + v, true, false)
    decreases |v|
  {
    var s := Scan(result, current, true, false);
    if v == [] {
      assert current + v == current;
    } else {
      var rest := v[1..];
      FeedAppend(s, EscapeByte(v[0]), Escape(rest));
      ByteReadsBack(result, current, v[0]);
      EscapeReadsBack(result, current + [v[0]], rest);
      assert current + v == current + [v[0]] + rest;
    }
  }

  lemma QuotedReadsBack(result: seq<bytes>, v: bytes)
    ensures FeedAll(Scan(result, [], false, false), Quoted(v)) == Scan(result, v, false, false)
  {
    var s := Scan(result, [], false, false);
    FeedAppend(s, [QUOTE] + Escape(v), [QUOTE]);
    FeedAppend(s, [QUOTE], Escape(v));
    FeedOne(s, QUOTE);
    EscapeReadsBack(result, [], v);
    assert [] + v == v;
    FeedOne(Scan(result, v, true, false), QUOTE);
  }

  /** Outside quotes, bytes without quotes and commas read back as themselves, backslashes and braces included. */
  lemma {:induction false} BareReadsBack(result: seq<bytes>, v: bytes)
    requires forall i :: 0 <= i < |v| ==> v[i] !in {QUOTE, COMMA}
    ensures FeedAll(Scan(result, [], false, false), v) == Scan(result, v, false, false)
  {
    if v != [] {
      BareReadsBack(result, v[..|v| - 1]);
    }
  }

  lemma ItemReadsBack(result: seq<bytes>, v: bytes, quoted: bool)
    requires quoted || Bare(v)
    ensures FeedAll(Scan(result, [], false, false), Written(v, quoted)) == Scan(result, v, false, false)
  {
    if quoted {
      QuotedReadsBack(result, v);
    } else {
      BareReadsBack(result, v);
    }
  }

  lemma AppendRest(result: seq<bytes>, vs: seq<bytes>)
    requires |vs| > 1
    ensures result + [vs[0]] + vs[1..][..|vs| - 2] == result + vs[..|vs| - 1]
  {
    assert [vs[0]] + vs[1..][..|vs| - 2] == vs[..|vs| - 1];
  }

  /** Joined elements are read back one by one; the last is still current at the end. */
  lemma {:induction false} JoinReadsBack(result: seq<bytes>, vs: seq<bytes>, quoted: seq<bool>)
    requires Renderable(vs, quoted) && vs != []
    ensures FeedAll(Scan(result, [], false, false), Join(Items(vs, quoted)))
            == Scan(result + vs[..|vs| - 1], vs[|vs| - 1], false, false)
    decreases |vs|
  {
    var s, items := Scan(result, [], false, false), Items(vs, quoted);
    ItemReadsBack(result, vs[0], quoted[0]);
    if |vs| == 1 {
      assert result + vs[..0] == result;
    } else {
      var rest := vs[1..];
      assert items[1..] == Items(rest, quoted[1..]);
      FeedAppend(s, items[0] + [COMMA], Join(items[1..]));
      FeedAppend(s, items[0], [COMMA]);
      FeedOne(Scan(result, vs[0], false, false), COMMA);
      JoinReadsBack(result + [vs[0]], rest, quoted[1..]);
      AppendRest(result, vs);
    }
  }

  /** A joined body neither starts nor ends with a brace, so trimming takes only the outer pair. */
  lemma {:induction false} JoinHasNoOuterBraces(vs: seq<bytes>, quoted: seq<bool>)
    requires Renderable(vs, quoted) && vs != []
    ensures var body := Join(Items(vs, quoted)); body != [] && !Brace(body[0]) && !Brace(body[|body| - 1])
    decreases |vs|
  {
    if |vs| > 1 {
      assert Items(vs, quoted)[1..] == Items(vs[1..], quoted[1..]);
      JoinHasNoOuterBraces(vs[1..], quoted[1..]);
    }
  }

  lemma TrimTakesOuterPair(body: bytes)
    requires body != [] && !Brace(body[0]) && !Brace(body[|body| - 1])
    ensures TrimBraces([OPEN] + body + [CLOSE]) == body
  {
    var raw := [OPEN] + body + [CLOSE];
    var rest := body + [CLOSE];
    assert raw[1..] == rest;
    assert rest[..|rest| - 1] == body && rest[0] == body[0] && rest[|rest| - 1] == CLOSE;
    assert TrimBraces(raw) == TrimBraces(rest) == TrimBraces(body);
  }

  lemma TrimEmptyLiteral()
    ensures TrimBraces([OPEN, CLOSE]) == []
  {
    assert [OPEN, CLOSE][1..] == [CLOSE] && [CLOSE][1..] == [];
    assert TrimBraces([CLOSE]) == TrimBraces([]);
  }

  /** From what the scanner makes of a body to what the literal around it parses to. */
  lemma ParseBody(body: bytes, vs: seq<bytes>)
    requires body != [] && !Brace(body[0]) && !Brace(body[|body| - 1])
    requires vs != [] && FeedAll(START, body) == Scan(vs[..|vs| - 1], vs[|vs| - 1], false, false)
    ensures Parse([OPEN] + body + [CLOSE]) == if vs[|vs| - 1] == [] then vs[..|vs| - 1] else vs
  {
    TrimTakesOuterPair(body);
    assert vs == vs[..|vs| - 1] + [vs[|vs| - 1]];
  }

  /** What comes back from any literal of a list: the list itself, less an empty last element. */
  lemma ParseRender(vs: seq<bytes>, quoted: seq<bool>)
    requires Renderable(vs, quoted)
    ensures Parse(Render(vs, quoted)) ==
            if vs != [] && vs[|vs| - 1] == [] then vs[..|vs| - 1] else vs
  {
    if vs == [] {
      assert Render(vs, quoted) == [OPEN, CLOSE];
      TrimEmptyLiteral();
    } else {
      JoinHasNoOuterBraces(vs, quoted);
      JoinReadsBack([], vs, quoted);
      assert [] + vs[..|vs| - 1] == vs[..|vs| - 1];
      ParseBody(Join(Items(vs, quoted)), vs);
    }
  }

  /** A list survives the trip out through the printer, through the database and back through the
      scanner exactly when it is empty or its last element is not. */
  lemma RoundTrip(vs: seq<bytes>, quoted: seq<bool>)
    requires Renderable(vs, quoted)
    ensures Parse(Print(vs)) == Parse(Render(vs, quoted))
    ensures Parse(Print(vs)) == vs <==> vs == [] || vs[|vs| - 1] != []
  {
    ParseRender(vs, seq(|vs|, i => true));
    ParseRender(vs, quoted);
  }

  // ---- The grammar of literals, read strictly ----

  /** What was read, and what follows it. */
  datatype Piece = Piece(value: bytes, rest: bytes)

  /** A byte that means nothing to the syntax. */
  predicate Plain(c: byte) {
    c !in {QUOTE, COMMA, BACKSLASH, OPEN, CLOSE}
  }

  /** A quoted element after its opening quote: a backslash stands before quotes and backslashes and
      before nothing else, and the first quote without one closes the element. */
  function ReadQuoted(raw: bytes): (piece: Option<Piece>)
    ensures piece.Some? ==> |piece.value.rest| < |raw|
  {
    if raw == [] then None
    else if raw[0] == QUOTE then Some(Piece([], raw[1..]))
    else if raw[0] == BACKSLASH then
      if |raw| >= 2 && raw[1] in {QUOTE, BACKSLASH} then After(raw[1], ReadQuoted(raw[2..])) else None
    else After(raw[0], ReadQuoted(raw[1..]))
  }

  function After(c: byte, piece: Option<Piece>): Option<Piece> {
    if piece.Some? then Some(Piece([c] + piece.value.value, piece.value.rest)) else None
  }

  /** A bare element: plain bytes, at least one, as many as there are. */
  function ReadBare(raw: bytes): (piece: Option<Piece>)
    ensures piece.Some? ==> |piece.value.rest| < |raw|
  {
    if raw == [] || !Plain(raw[0]) then None
    else if |raw| >= 2 && Plain(raw[1]) then After(raw[0], ReadBare(raw[1..]))
    else Some(Piece([raw[0]], raw[1..]))
  }

  function ReadElement(raw: bytes, bare: bool): (piece: Option<Piece>)
    ensures piece.Some? ==> |piece.value.rest| < |raw|
  {
    if raw != [] && raw[0] == QUOTE then ReadQuoted(raw[1..]) else if bare then ReadBare(raw) else None
  }

  /** Elements with one comma between them, then the closing brace and nothing more. */
  function ReadElements(raw: bytes, bare: bool): Option<seq<bytes>>
    decreases |raw|
  {
    var piece := ReadElement(raw, bare);
    if piece.None? then None
    else
      var v, rest := piece.value.value, piece.value.rest;
      if rest == [CLOSE] then Some([v])
      else if rest == [] || rest[0] != COMMA then None
      else
        var others := ReadElements(rest[1..], bare);
        if others.Some? then Some([v] + others.value) else None
  }

  /** The one-dimensional literals of section 8.15.6, with or without bare elements. */
  function Read(raw: bytes, bare: bool): Option<seq<bytes>> {
    if raw == [OPEN, CLOSE] then Some([])
    else if raw != [] && raw[0] == OPEN then ReadElements(raw[1..], bare)
    else None
  }

  lemma {:induction false} EscapedIsRead(v: bytes, rest: bytes)
    ensures ReadQuoted(Escape(v) + [QUOTE] + rest) == Some(Piece(v, rest))
  {
    var raw := Escape(v) + [QUOTE] + rest;
    if v == [] {
      assert raw == [QUOTE] + rest;
    } else {
      var tail := Escape(v[1..]) + [QUOTE] + rest;
      EscapedIsRead(v[1..], rest);
      assert raw == EscapeByte(v[0]) + tail;
      assert raw[|EscapeByte(v[0])|..] == tail;
      assert [v[0]] + v[1..] == v;
    }
  }

  lemma {:induction false} BareIsRead(v: bytes, rest: bytes)
    requires Bare(v) && rest != [] && !Plain(rest[0])
    ensures ReadBare(v + rest) == Some(Piece(v, rest))
  {
    assert (v + rest)[1..] == v[1..] + rest;
    if |v| == 1 {
      assert v == [v[0]] && v[1..] + rest == rest;
    } else {
      assert (v + rest)[1] == v[1];
      BareIsRead(v[1..], rest);
      assert [v[0]] + v[1..] == v;
    }
  }

  lemma ElementIsRead(v: bytes, quoted: bool, rest: bytes, bare: bool)
    requires quoted || (bare && Bare(v))
    requires rest != [] && !Plain(rest[0])
    ensures ReadElement(Written(v, quoted) + rest, bare) == Some(Piece(v, rest))
  {
    if quoted {
      QuotedIsRead(v, rest, bare);
    } else {
      BareIsRead(v, rest);
      assert (v + rest)[0] == v[0];
    }
  }

  lemma QuotedIsRead(v: bytes, rest: bytes, bare: bool)
    ensures ReadElement(Quoted(v) + rest, bare) == Some(Piece(v, rest))
  {
    var raw := Quoted(v) + rest;
    EscapedIsRead(v, rest);
    assert raw[0] == QUOTE && raw[1..] == Escape(v) + [QUOTE] + rest;
  }

  lemma JoinOne(v: bytes, quoted: bool)
    ensures Join(Items([v], [quoted])) == Written(v, quoted)
  {
  }

  lemma JoinFirst(v: bytes, quoted: bool, vs: seq<bytes>, others: seq<bool>)
    requires |others| == |vs| > 0
    ensures Join(Items([v] + vs, [quoted] + others)) == Written(v, quoted) + [COMMA] + Join(Items(vs, others))
  {
    assert Items([v] + vs, [quoted] + others)[1..] == Items(vs, others);
  }

  lemma {:induction false} JoinedAreRead(vs: seq<bytes>, quoted: seq<bool>, bare: bool)
    requires Renderable(vs, quoted) && vs != [] && (bare || forall i :: 0 <= i < |vs| ==> quoted[i])
    ensures ReadElements(Join(Items(vs, quoted)) + [CLOSE], bare) == Some(vs)
    decreases |vs|
  {
    if |vs| == 1 {
      ElementIsRead(vs[0], quoted[0], [CLOSE], bare);
      JoinOne(vs[0], quoted[0]);
      assert vs == [vs[0]] && quoted == [quoted[0]];
    } else {
      JoinedAreRead(vs[1..], quoted[1..], bare);
      JoinFirst(vs[0], quoted[0], vs[1..], quoted[1..]);
      assert [vs[0]] + vs[1..] == vs && [quoted[0]] + quoted[1..] == quoted;
      OneMoreIsRead(vs[0], quoted[0], vs[1..], Join(Items(vs[1..], quoted[1..])) + [CLOSE], bare);
      CommaThen(Written(vs[0], quoted[0]), Join(Items(vs[1..], quoted[1..])));
    }
  }

  lemma CommaThen(first: bytes, others: bytes)
    ensures first + [COMMA] + others + [CLOSE] == first + ([COMMA] + (others + [CLOSE]))
  {
  }

  lemma OneMoreIsRead(v: bytes, quoted: bool, vs: seq<bytes>, rest: bytes, bare: bool)
    requires quoted || (bare && Bare(v))
    requires ReadElements(rest, bare) == Some(vs)
    ensures ReadElements(Written(v, quoted) + ([COMMA] + rest), bare) == Some([v] + vs)
  {
    var tail := [COMMA] + rest;
    assert tail[0] == COMMA && tail[1..] == rest;
    ElementIsRead(v, quoted, tail, bare);
  }

  /** Every literal of a list is in the grammar and denotes that list, an empty last element included. */
  lemma RenderedIsRead(vs: seq<bytes>, quoted: seq<bool>, bare: bool)
    requires Renderable(vs, quoted) && (bare || forall i :: 0 <= i < |vs| ==> quoted[i])
    ensures Read(Render(vs, quoted), bare) == Some(vs)
  {
    var raw := Render(vs, quoted);
    if vs == [] {
      assert raw == [OPEN, CLOSE];
    } else {
      JoinedAreRead(vs, quoted, bare);
      JoinHasNoOuterBraces(vs, quoted);
      assert raw[1..] == Join(Items(vs, quoted)) + [CLOSE];
    }
  }

  lemma {:induction false} ReadIsEscaped(raw: bytes)
    requires ReadQuoted(raw).Some?
    ensures var p := ReadQuoted(raw).value; raw == Escape(p.value) + [QUOTE] + p.rest
    decreases |raw|
  {
    if raw[0] != QUOTE {
      var skip := if raw[0] == BACKSLASH then 2 else 1;
      ReadIsEscaped(raw[skip..]);
      var p := ReadQuoted(raw).value;
      assert p.value[1..] == ReadQuoted(raw[skip..]).value.value;
      assert raw == EscapeByte(p.value[0]) + raw[skip..];
    } else {
      assert raw == [QUOTE] + raw[1..];
    }
  }

  lemma {:induction false} ReadIsBare(raw: bytes)
    requires ReadBare(raw).Some?
    ensures var p := ReadBare(raw).value; raw == p.value + p.rest && Bare(p.value)
    decreases |raw|
  {
    if |raw| >= 2 && Plain(raw[1]) {
      ReadIsBare(raw[1..]);
    }
    assert raw == [raw[0]] + raw[1..];
  }

  lemma ReadIsWritten(raw: bytes, bare: bool)
    requires ReadElement(raw, bare).Some?
    ensures var p, quoted := ReadElement(raw, bare).value, raw[0] == QUOTE;
      raw == Written(p.value, quoted) + p.rest && (quoted || (bare && Bare(p.value)))
  {
    var p := ReadElement(raw, bare).value;
    if raw[0] == QUOTE {
      ReadIsEscaped(raw[1..]);
      QuoteFirst(raw, p.value, p.rest);
    } else {
      ReadIsBare(raw);
    }
  }

  lemma QuoteFirst(raw: bytes, v: bytes, rest: bytes)
    requires raw != [] && raw[0] == QUOTE && raw[1..] == Escape(v) + [QUOTE] + rest
    ensures raw == Quoted(v) + rest
  {
    assert raw == [QUOTE] + raw[1..];
  }

  lemma {:induction false} ReadAreJoined(raw: bytes, bare: bool) returns (quoted: seq<bool>)
    requires ReadElements(raw, bare).Some?
    ensures var vs := ReadElements(raw, bare).value;
      && vs != [] && Renderable(vs, quoted) && raw == Join(Items(vs, quoted)) + [CLOSE]
      && (bare || forall i :: 0 <= i < |vs| ==> quoted[i])
    decreases |raw|
  {
    var p := ReadElement(raw, bare).value;
    var first := raw[0] == QUOTE;
    ReadIsWritten(raw, bare);
    if p.rest == [CLOSE] {
      quoted := [first];
      JoinOne(p.value, first);
    } else {
      var tail := p.rest[1..];
      var others := ReadAreJoined(tail, bare);
      quoted := [first] + others;
      var vs := ReadElements(tail, bare).value;
      JoinFirst(p.value, first, vs, others);
      CommaThen(Written(p.value, first), Join(Items(vs, others)));
      assert p.rest == [COMMA] + tail;
    }
  }

  /** The literals of the grammar are exactly those the renderer can produce. */
  lemma ReadIsRendered(raw: bytes, bare: bool) returns (quoted: seq<bool>)
    requires Read(raw, bare).Some?
    ensures var vs := Read(raw, bare).value;
      && Renderable(vs, quoted) && raw == Render(vs, quoted)
      && (bare || forall i :: 0 <= i < |vs| ==> quoted[i])
  {
    if raw == [OPEN, CLOSE] {
      quoted := [];
    } else {
      quoted := ReadAreJoined(raw[1..], bare);
      assert raw == [OPEN] + raw[1..];
    }
  }

  /** The printer's output is the one literal of its list that quotes every element. */
  lemma PrintIsTheQuotedLiteral(vs: seq<bytes>, raw: bytes)
    ensures Read(raw, false) == Some(vs) <==> raw == Print(vs)
  {
    RenderedIsRead(vs, seq(|vs|, i => true), false);
    if Read(raw, false) == Some(vs) {
      var quoted := ReadIsRendered(raw, false);
      assert quoted == seq(|vs|, i => true);
    }
  }

  /** The scanner reads every literal of the grammar right, but for an empty last element. */
  lemma ScannerReadsTheGrammar(raw: bytes)
    requires Read(raw, true).Some?
    ensures var vs := Read(raw, true).value;
      Parse(raw) == if vs != [] && vs[|vs| - 1] == [] then vs[..|vs| - 1] else vs
  {
    var quoted := ReadIsRendered(raw, true);
    ParseRender(Read(raw, true).value, quoted);
  }
}
