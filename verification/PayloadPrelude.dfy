/** The prelude of a payload-bypass connection: bytes arrive in arbitrary segments, the gateway reads
    until it can tell TLS, a WebSocket handshake or an injected header apart, and forwards the rest. */
module PayloadPrelude {
  import opened Wrappers

  type Byte = b: int | 0 <= b < 256

  const MAX_HEADER := 65536
  const READ_SIZE := 4096
  const BLANK_LINE: seq<Byte> := [13, 10, 13, 10]

  /** "\r\nsec-websocket-key:" */
  const WEBSOCKET_KEY: seq<Byte> :=
    [13, 10, 115, 101, 99, 45, 119, 101, 98, 115, 111, 99, 107, 101, 116, 45, 107, 101, 121, 58]

  // ---------------------------------------------------------------- searching

  predicate At(s: seq<Byte>, pattern: seq<Byte>, i: nat) {
    i + |pattern| <= |s| && s[i..i + |pattern|] == pattern
  }

  function IndexFrom(s: seq<Byte>, pattern: seq<Byte>, i: nat): (r: Option<nat>)
    ensures r.Some? ==> r.value >= i && At(s, pattern, r.value) && forall j: nat :: i <= j < r.value ==> !At(s, pattern, j)
    ensures r.None? ==> forall j: nat :: i <= j ==> !At(s, pattern, j)
    decreases |s| - i
  {
    if i + |pattern| > |s| then None
    else if At(s, pattern, i) then Some(i)
    else if i == |s| then None
    else IndexFrom(s, pattern, i + 1)
  }

  function IndexOf(s: seq<Byte>, pattern: seq<Byte>): (r: Option<nat>)
    ensures r.Some? ==> At(s, pattern, r.value) && forall j: nat :: j < r.value ==> !At(s, pattern, j)
    ensures r.None? ==> forall j: nat :: !At(s, pattern, j)
  {
    IndexFrom(s, pattern, 0)
  }

  /** The first occurrence in a prefix is the first occurrence in the whole. */
  lemma IndexInPrefix(s: seq<Byte>, n: nat, pattern: seq<Byte>)
    requires n <= |s|
    ensures IndexOf(s[..n], pattern).Some? ==> IndexOf(s, pattern) == IndexOf(s[..n], pattern)
    ensures IndexOf(s, pattern).Some? && IndexOf(s, pattern).value + |pattern| <= n ==>
      IndexOf(s[..n], pattern) == IndexOf(s, pattern)
  {
    forall i: nat ensures At(s[..n], pattern, i) <==> At(s, pattern, i) && i + |pattern| <= n {
      AtInPrefix(s, n, pattern, i);
    }
  }

  lemma AtInPrefix(s: seq<Byte>, n: nat, pattern: seq<Byte>, i: nat)
    requires n <= |s|
    ensures At(s[..n], pattern, i) <==> At(s, pattern, i) && i + |pattern| <= n
  {
    if i + |pattern| <= n {
      assert s[..n][i..i + |pattern|] == s[i..i + |pattern|];
    }
  }

  predicate LooksLikeTls(s: seq<Byte>) {
    |s| >= 3 && s[0] == 0x16 && s[1] == 0x03
  }

  function LowerByte(b: Byte): Byte {
    if 65 <= b <= 90 then b + 32 else b
  }

  /** The Kelvin sign, whose lower case is a k. */
  predicate IsKelvin(s: seq<Byte>) {
    |s| >= 3 && s[0] == 0xE2 && s[1] == 0x84 && s[2] == 0xAA
  }

  /** `bytes.ToLower`, as far as it matters to a search for lower-case letters other than i. */
  function Lower(s: seq<Byte>): seq<Byte> {
    if s == [] then []
    else if IsKelvin(s) then [107] + Lower(s[3..])
    else [LowerByte(s[0])] + Lower(s[1..])
  }

  predicate IsWebSocketHandshake(header: seq<Byte>) {
    IndexOf(Lower(header), WEBSOCKET_KEY).Some?
  }

  // ---------------------------------------------------------------- reading

  /** One read: some bytes, possibly together with an error. When nothing is left a read fails. */
  datatype Chunk = Chunk(data: seq<Byte>, failed: bool)

  /** The bytes a reader gets before the first error. */
  function Bytes(chunks: seq<Chunk>): seq<Byte> {
    if chunks == [] then []
    else chunks[0].data + (if chunks[0].failed then [] else Bytes(chunks[1..]))
  }

  datatype Prelude =
    | Tls(buffer: seq<Byte>)
    | Header(buffer: seq<Byte>, headerEnd: nat)
    | TooLong
    | ReadFailed

  /** The outcome, and the reads that are left for forwarding. */
  function Read(buf: seq<Byte>, pending: seq<Chunk>): (r: (Prelude, seq<Chunk>))
    ensures r.0.Tls? || r.0.Header? ==> |r.0.buffer| <= MAX_HEADER
    ensures r.0.Header? ==> r.0.headerEnd <= |r.0.buffer|
    decreases |pending|
  {
    if |buf| > MAX_HEADER then (TooLong, pending)
    else if LooksLikeTls(buf) then (Tls(buf), pending)
    else if IndexOf(buf, BLANK_LINE).Some? then (Header(buf, IndexOf(buf, BLANK_LINE).value + 4), pending)
    else if pending == [] then (ReadFailed, [])
    else if pending[0].failed then (ReadFailed, pending[1..])
    else Read(buf + pending[0].data, pending[1..])
  }

  class Conn {
    var pending: seq<Chunk>

    method ReadSome() returns (data: seq<Byte>, failed: bool)
      modifies this
      ensures old(pending) == [] ==> data == [] && failed && pending == []
      ensures old(pending) != [] ==>
        data == old(pending)[0].data && failed == old(pending)[0].failed && pending == old(pending)[1..]
    {
      if pending == [] { return [], true; }
      data, failed := pending[0].data, pending[0].failed;
      pending := pending[1..];
    }
  }

  /** `readPayloadPrelude`. */
  method ReadPrelude(conn: Conn) returns (r: Prelude)
    modifies conn
    ensures (r, conn.pending) == Read([], old(conn.pending))
  {
    var buf := [];
    while true
      invariant Read(buf, conn.pending) == Read([], old(conn.pending))
      decreases |conn.pending|
    {
      if |buf| > MAX_HEADER { return TooLong; }
      if LooksLikeTls(buf) { return Tls(buf); }
      var idx := IndexOf(buf, BLANK_LINE);
      if idx.Some? { return Header(buf, idx.value + 4); }
      ghost var before := conn.pending;
      var data, failed := conn.ReadSome();
      if failed { return ReadFailed; }
      buf := buf + data;
      assert before != [];
    }
  }

  /** What the backend receives for a prelude and the reads that follow it. */
  function ToBackend(p: Prelude, rest: seq<Chunk>): seq<Byte>
    requires p.Tls? || (p.Header? && p.headerEnd <= |p.buffer|)
  {
    if p.Tls? || IsWebSocketHandshake(p.buffer[..p.headerEnd]) then p.buffer + Bytes(rest)
    else p.buffer[p.headerEnd..] + Bytes(rest)
  }

  /** None when the connection is given up, else the backend's bytes and whether the client got a 101
      reply. */
  function Handled(pending: seq<Chunk>): Option<(seq<Byte>, bool)> {
    var (p, rest) := Read([], pending);
    if p.Tls? || p.Header? then Some((ToBackend(p, rest), p.Header? && !IsWebSocketHandshake(p.buffer[..p.headerEnd])))
    else None
  }

  /** `handlePayloadBypassConnection` when the backend answers and every write succeeds. */
  method Handle(client: Conn) returns (r: Option<(seq<Byte>, bool)>)
    modifies client
    ensures r == Handled(old(client.pending))
  {
    var p := ReadPrelude(client);
    if p.TooLong? || p.ReadFailed? { return None; }
    var sent: seq<Byte> := [];
    var replied := false;
    if p.Tls? {
      sent := p.buffer;
    } else if IsWebSocketHandshake(p.buffer[..p.headerEnd]) {
      sent := p.buffer;
    } else {
      replied := true;
      if |p.buffer| > p.headerEnd { sent := p.buffer[p.headerEnd..]; }
      assert sent == p.buffer[p.headerEnd..];
    }
    sent := sent + Bytes(client.pending);
    r := Some((sent, replied));
  }

  // ---------------------------------------------------------------- independence of segmentation

  /** What the backend should receive for a client stream, without any notion of segments: all of it
      for TLS or a WebSocket handshake, else what follows the first blank line. */
  function Forwarded(stream: seq<Byte>): Option<(seq<Byte>, bool)> {
    if LooksLikeTls(stream) then Some((stream, false))
    else match IndexOf(stream, BLANK_LINE)
      case None => None
      case Some(i) => if IsWebSocketHandshake(stream[..i + 4]) then Some((stream, false)) else Some((stream[i + 4..], true))
  }

  lemma {:induction false} ReadSplitsStream(buf: seq<Byte>, pending: seq<Chunk>)
    ensures var (p, rest) := Read(buf, pending);
      && (p.Tls? ==> p.buffer + Bytes(rest) == buf + Bytes(pending) && LooksLikeTls(p.buffer))
      && (p.Header? ==>
            && p.buffer + Bytes(rest) == buf + Bytes(pending) && !LooksLikeTls(p.buffer)
            && IndexOf(p.buffer, BLANK_LINE) == Some(p.headerEnd - 4))
    decreases |pending|
  {
    if |buf| <= MAX_HEADER && !LooksLikeTls(buf) && IndexOf(buf, BLANK_LINE).None? && pending != [] && !pending[0].failed {
      ReadSplitsStream(buf + pending[0].data, pending[1..]);
      assert buf + pending[0].data + Bytes(pending[1..]) == buf + Bytes(pending);
    }
  }

  /** Whenever the prelude succeeds, what the backend gets depends on the client's stream alone. */
  lemma SegmentationIndependent(pending: seq<Chunk>)
    ensures Handled(pending).Some? ==> Forwarded(Bytes(pending)) == Handled(pending)
  {
    var (p, rest) := Read([], pending);
    ReadSplitsStream([], pending);
    assert [] + Bytes(pending) == Bytes(pending);
    if p.Tls? {
      assert Bytes(pending)[..|p.buffer|] == p.buffer;
    } else if p.Header? {
      ForwardedHeader(p.buffer, p.headerEnd, Bytes(rest));
    }
  }

  lemma ForwardedHeader(buffer: seq<Byte>, end: nat, tail: seq<Byte>)
    requires !LooksLikeTls(buffer) && end >= 4 && IndexOf(buffer, BLANK_LINE) == Some(end - 4)
    ensures end <= |buffer|
    ensures Forwarded(buffer + tail) ==
      if IsWebSocketHandshake(buffer[..end]) then Some((buffer + tail, false)) else Some((buffer[end..] + tail, true))
  {
    var stream := buffer + tail;
    assert stream[..|buffer|] == buffer;
    IndexInPrefix(stream, |buffer|, BLANK_LINE);
    HeaderHasFourBytes(buffer);
    assert stream[..end] == buffer[..end] && stream[end..] == buffer[end..] + tail;
  }

  lemma HeaderHasFourBytes(buf: seq<Byte>)
    requires IndexOf(buf, BLANK_LINE).Some? && !LooksLikeTls(buf)
    ensures |buf| >= 4 && forall tail :: !LooksLikeTls(buf + tail)
  {
  }

  // ---------------------------------------------------------------- by bytes

  const KEY_HEADER: string := "sec-websocket-key:"

  /** The byte is this character, or its capital if it is a letter. */
  predicate EitherCase(b: Byte, c: char) {
    b == c as int || ('a' <= c <= 'z' && b == c as int - 32)
  }

  /** The bytes begin with the text in any mixture of cases; a Kelvin sign passes for a k. */
  predicate Spells(s: seq<Byte>, text: string)
    decreases |text|
  {
    || text == ""
    || (s != [] && EitherCase(s[0], text[0]) && Spells(s[1..], text[1..]))
    || (text[0] == 'k' && |s| >= 3 && s[0] == 0xE2 && s[1] == 0x84 && s[2] == 0xAA && Spells(s[3..], text[1..]))
  }

  /** Somewhere in the header a line break is followed by the name of the key header. */
  ghost predicate NamesKey(header: seq<Byte>) {
    exists i :: NamesKeyAt(header, i)
  }

  predicate NamesKeyAt(header: seq<Byte>, i: int) {
    0 <= i && i + 2 <= |header| && header[i] == 13 && header[i + 1] == 10 && Spells(header[i + 2..], KEY_HEADER)
  }

  /** Lower-case ASCII. */
  predicate Plain(text: string) {
    forall i :: 0 <= i < |text| ==> text[i] as int < 128 && !('A' <= text[i] <= 'Z')
  }

  function Codes(text: string): (r: seq<Byte>)
    requires Plain(text)
    ensures |r| == |text| && forall i :: 0 <= i < |r| ==> r[i] == text[i] as int
  {
    seq(|text|, i requires 0 <= i < |text| => text[i] as int)
  }

  lemma AtFirst(s: seq<Byte>, pattern: seq<Byte>)
    requires pattern != []
    ensures At(s, pattern, 0) <==> s != [] && s[0] == pattern[0] && At(s[1..], pattern[1..], 0)
  {
    if s != [] && s[0] == pattern[0] && At(s[1..], pattern[1..], 0) {
      assert s[..|pattern|] == [s[0]] + s[1..][..|pattern| - 1];
      assert pattern == [pattern[0]] + pattern[1..];
    }
    if At(s, pattern, 0) {
      assert s[1..][..|pattern| - 1] == s[..|pattern|][1..];
    }
  }

  /** Spelling in any case is equality in lower case. */
  lemma {:induction false} SpellsIff(s: seq<Byte>, text: string)
    requires Plain(text)
    ensures Spells(s, text) <==> At(Lower(s), Codes(text), 0)
    decreases |text|
  {
    if text != "" {
      assert Codes(text)[1..] == Codes(text[1..]);
      AtFirst(Lower(s), Codes(text));
      if s != [] {
        SpellsIff(s[1..], text[1..]);
        if IsKelvin(s) {
          SpellsIff(s[3..], text[1..]);
          assert Lower(s)[1..] == Lower(s[3..]);
        } else {
          assert Lower(s)[1..] == Lower(s[1..]);
        }
      }
    }
  }

  ghost predicate Occurs(s: seq<Byte>, pattern: seq<Byte>) {
    exists j: nat :: At(s, pattern, j)
  }

  lemma AtNext(x: Byte, s: seq<Byte>, pattern: seq<Byte>, j: nat)
    ensures At([x] + s, pattern, j + 1) <==> At(s, pattern, j)
  {
    if j + |pattern| <= |s| { assert ([x] + s)[j + 1..j + 1 + |pattern|] == s[j..j + |pattern|]; }
  }

  lemma OccursNext(x: Byte, s: seq<Byte>, pattern: seq<Byte>)
    ensures Occurs([x] + s, pattern) <==> At([x] + s, pattern, 0) || Occurs(s, pattern)
  {
    if j: nat :| At([x] + s, pattern, j) && j > 0 { AtNext(x, s, pattern, j - 1); }
    if j: nat :| At(s, pattern, j) { AtNext(x, s, pattern, j); }
  }

  /** The pattern occurs in the lower-case text exactly where some end of the text begins with it. */
  ghost predicate StartsSomewhere(s: seq<Byte>, pattern: seq<Byte>) {
    exists i :: StartsAt(s, pattern, i)
  }

  predicate StartsAt(s: seq<Byte>, pattern: seq<Byte>, i: int) {
    0 <= i <= |s| && At(Lower(s[i..]), pattern, 0)
  }

  lemma StartsLater(s: seq<Byte>, n: nat, pattern: seq<Byte>, i: int)
    requires n <= |s|
    ensures 0 <= i <= |s| - n ==> (StartsAt(s[n..], pattern, i) <==> StartsAt(s, pattern, i + n))
  {
    if 0 <= i <= |s| - n { assert s[n..][i..] == s[i + n..]; }
  }

  lemma InsideKelvin(s: seq<Byte>, pattern: seq<Byte>, i: int)
    requires IsKelvin(s) && pattern != [] && pattern[0] < 128 && 0 < i < 3
    ensures !StartsAt(s, pattern, i)
  {
    assert s[i..][0] >= 128;
    AtFirst(Lower(s[i..]), pattern);
  }

  lemma {:induction false} OccursIff(s: seq<Byte>, pattern: seq<Byte>)
    requires pattern != [] && pattern[0] < 128
    ensures Occurs(Lower(s), pattern) <==> StartsSomewhere(s, pattern)
    decreases |s|
  {
    if s == [] {
      assert !Occurs([], pattern);
    } else {
      var n := if IsKelvin(s) then 3 else 1;
      OccursIff(s[n..], pattern);
      OccursNext(Lower(s)[0], Lower(s[n..]), pattern);
      assert s[0..] == s;
      if At(Lower(s), pattern, 0) { assert StartsAt(s, pattern, 0); }
      if StartsSomewhere(s[n..], pattern) {
        var i :| StartsAt(s[n..], pattern, i);
        StartsLater(s, n, pattern, i);
      }
      if StartsSomewhere(s, pattern) {
        var i :| StartsAt(s, pattern, i);
        if i >= n {
          StartsLater(s, n, pattern, i - n);
        } else if i > 0 {
          InsideKelvin(s, pattern, i);
        }
      }
    }
  }

  lemma SpellsLineBreak(s: seq<Byte>, text: string, rest: string)
    requires text == "\r\n" + rest
    ensures Spells(s, text) <==> |s| >= 2 && s[0] == 13 && s[1] == 10 && Spells(s[2..], rest)
  {
    assert text[1..][1..] == rest && text[1..][0] == '\n';
    assert |s| >= 2 ==> s[1..][1..] == s[2..];
  }

  lemma StartsIff(header: seq<Byte>, text: string, i: int)
    requires text == "\r\n" + KEY_HEADER && Plain(text)
    ensures StartsAt(header, Codes(text), i) <==> NamesKeyAt(header, i)
  {
    if 0 <= i <= |header| {
      var s := header[i..];
      SpellsIff(s, text);
      SpellsLineBreak(s, text, KEY_HEADER);
      assert i + 2 <= |header| ==> s[2..] == header[i + 2..];
    }
  }

  lemma HandshakeIff(header: seq<Byte>)
    ensures IsWebSocketHandshake(header) <==> NamesKey(header)
  {
    var text := "\r\n" + KEY_HEADER;
    assert WEBSOCKET_KEY == Codes(text);
    OccursIff(header, WEBSOCKET_KEY);
    forall i ensures StartsAt(header, WEBSOCKET_KEY, i) <==> NamesKeyAt(header, i) {
      StartsIff(header, text, i);
    }
  }

  /** A blank line, two line breaks in a row, ends here. */
  predicate BlankLineEnds(stream: seq<Byte>, end: int) {
    && 4 <= end <= |stream|
    && stream[end - 4] == 13 && stream[end - 3] == 10 && stream[end - 2] == 13 && stream[end - 1] == 10
  }

  ghost predicate HeaderEnds(stream: seq<Byte>, end: int) {
    BlankLineEnds(stream, end) && forall e :: 4 <= e < end ==> !BlankLineEnds(stream, e)
  }

  lemma AtBlankLine(stream: seq<Byte>, end: int)
    requires end >= 4
    ensures At(stream, BLANK_LINE, end - 4) <==> BlankLineEnds(stream, end)
  {
    if end <= |stream| {
      var t := stream[end - 4..end];
      assert t == [stream[end - 4], stream[end - 3], stream[end - 2], stream[end - 1]];
    }
  }

  lemma HeaderEndsThere(stream: seq<Byte>)
    requires IndexOf(stream, BLANK_LINE).Some?
    ensures HeaderEnds(stream, IndexOf(stream, BLANK_LINE).value + 4)
  {
    forall e | e >= 4 ensures At(stream, BLANK_LINE, e - 4) <==> BlankLineEnds(stream, e) {
      AtBlankLine(stream, e);
    }
    var i := IndexOf(stream, BLANK_LINE).value;
    assert At(stream, BLANK_LINE, i + 4 - 4);
  }

  /** What goes to the backend when the header is that long, and whether there is a 101 reply. */
  ghost function Split101(stream: seq<Byte>, end: int): (seq<Byte>, bool)
    requires 0 <= end <= |stream|
  {
    if NamesKey(stream[..end]) then (stream, false) else (stream[end..], true)
  }

  /** What a connection that is not given up does, by the bytes of the stream: they all go to the backend,
      without a reply, exactly when they begin as TLS or their header names the WebSocket key; else the
      client gets a 101, and the backend what follows the header. */
  lemma HandledByBytes(pending: seq<Chunk>)
    requires Handled(pending).Some?
    ensures var stream := Bytes(pending);
      var tls := |stream| >= 3 && stream[0] == 0x16 && stream[1] == 0x03;
      && (tls ==> Handled(pending) == Some((stream, false)))
      && (!tls ==> exists end :: HeaderEnds(stream, end) && Handled(pending) == Some(Split101(stream, end)))
  {
    var stream := Bytes(pending);
    SegmentationIndependent(pending);
    if !LooksLikeTls(stream) {
      var end := IndexOf(stream, BLANK_LINE).value + 4;
      HeaderEndsThere(stream);
      HandshakeIff(stream[..end]);
    }
  }

  // ---------------------------------------------------------------- when it succeeds

  /** Reads without errors, none larger than the read buffer. */
  ghost predicate Segments(chunks: seq<Chunk>, stream: seq<Byte>) {
    && (forall c :: c in chunks ==> |c.data| <= READ_SIZE && !c.failed)
    && Bytes(chunks) == stream
  }

  predicate Succeeds(chunks: seq<Chunk>) {
    !Read([], chunks).0.TooLong? && !Read([], chunks).0.ReadFailed?
  }

  predicate Stalled(buf: seq<Byte>) {
    |buf| <= MAX_HEADER && !LooksLikeTls(buf) && IndexOf(buf, BLANK_LINE).None?
  }

  lemma {:induction false} ShortHeaderSucceeds(buf: seq<Byte>, chunks: seq<Chunk>, stream: seq<Byte>)
    requires forall c :: c in chunks ==> |c.data| <= READ_SIZE && !c.failed
    requires buf + Bytes(chunks) == stream && |buf| <= MAX_HEADER
    requires IndexOf(stream, BLANK_LINE).Some?
    requires IndexOf(stream, BLANK_LINE).value + 4 <= 61441 || |stream| <= MAX_HEADER
    ensures !Read(buf, chunks).0.TooLong? && !Read(buf, chunks).0.ReadFailed?
    decreases |chunks|
  {
    if Stalled(buf) {
      var end := IndexOf(stream, BLANK_LINE).value + 4;
      assert stream[..|buf|] == buf;
      IndexInPrefix(stream, |buf|, BLANK_LINE);
      assert |buf| < end;
      assert chunks == [] ==> buf + Bytes(chunks) == buf;
      assert chunks[0] in chunks;
      assert buf + chunks[0].data + Bytes(chunks[1..]) == stream;
      ShortHeaderSucceeds(buf + chunks[0].data, chunks[1..], stream);
    }
  }

  lemma {:induction false} TlsSucceeds(buf: seq<Byte>, chunks: seq<Chunk>, stream: seq<Byte>)
    requires forall c :: c in chunks ==> |c.data| <= READ_SIZE && !c.failed
    requires buf + Bytes(chunks) == stream && LooksLikeTls(stream)
    requires |buf| < 3 || LooksLikeTls(buf)
    requires |buf| <= MAX_HEADER
    ensures Read(buf, chunks).0.Tls?
    decreases |chunks|
  {
    if !LooksLikeTls(buf) {
      assert IndexOf(buf, BLANK_LINE).None?;
      assert chunks == [] ==> buf + Bytes(chunks) == buf;
      assert chunks[0] in chunks;
      var next := buf + chunks[0].data;
      assert next + Bytes(chunks[1..]) == stream;
      assert |next| >= 3 ==> next[0] == stream[0] && next[1] == stream[1];
      TlsSucceeds(next, chunks[1..], stream);
    }
  }

  lemma StalledPrefix(whole: seq<Byte>, n: nat)
    requires Stalled(whole) && n <= |whole|
    ensures Stalled(whole[..n])
  {
    IndexInPrefix(whole, n, BLANK_LINE);
  }

  /** Reads that leave the prelude undecided only move it along. */
  lemma {:induction false} ReadPast(buf: seq<Byte>, front: seq<Chunk>, back: seq<Chunk>)
    requires forall c :: c in front ==> !c.failed
    requires Stalled(buf + Bytes(front))
    ensures Read(buf, front + back) == Read(buf + Bytes(front), back)
    decreases |front|
  {
    if front == [] {
      assert front + back == back && buf + Bytes(front) == buf;
    } else {
      var whole := buf + Bytes(front);
      var next := buf + front[0].data;
      StalledPrefix(whole, |buf|);
      assert whole[..|buf|] == buf && front[0] in front;
      assert next + Bytes(front[1..]) == whole;
      calc {
        Read(buf, front + back);
        { assert (front + back)[0] == front[0] && (front + back)[1..] == front[1..] + back; }
        Read(next, front[1..] + back);
        { ReadPast(next, front[1..], back); }
        Read(whole, back);
      }
    }
  }

  function Split(s: seq<Byte>): (r: seq<Chunk>)
    ensures forall c :: c in r ==> |c.data| <= READ_SIZE && !c.failed
    ensures Bytes(r) == s
  {
    if |s| <= READ_SIZE then
      assert Bytes([Chunk(s, false)][1..]) == [];
      [Chunk(s, false)]
    else
      var rest := Split(s[READ_SIZE..]);
      var r := [Chunk(s[..READ_SIZE], false)] + rest;
      assert r[1..] == rest;
      assert s == s[..READ_SIZE] + s[READ_SIZE..];
      r
  }

  lemma {:induction false} BytesAppend(a: seq<Chunk>, b: seq<Chunk>)
    requires forall c :: c in a ==> !c.failed
    ensures Bytes(a + b) == Bytes(a) + Bytes(b)
  {
    if a == [] {
      assert a + b == b;
    } else {
      assert a[0] in a && (a + b)[1..] == a[1..] + b;
      BytesAppend(a[1..], b);
    }
  }

  /** A segmentation whose next read jumps over the limit before the header is complete. */
  ghost function JumpingSegments(stream: seq<Byte>): seq<Chunk>
    requires |stream| > MAX_HEADER
  {
    Split(stream[..61441]) + ([Chunk(stream[61441..65537], false)] + Split(stream[65537..]))
  }

  lemma JumpingSegmentsFail(stream: seq<Byte>)
    requires |stream| > MAX_HEADER && !LooksLikeTls(stream)
    requires IndexOf(stream, BLANK_LINE).Some? ==> IndexOf(stream, BLANK_LINE).value + 4 > 61441
    ensures Segments(JumpingSegments(stream), stream)
    ensures !Succeeds(JumpingSegments(stream))
  {
    var front, jump, tail := Split(stream[..61441]), Chunk(stream[61441..65537], false), Split(stream[65537..]);
    var back := [jump] + tail;
    assert back[1..] == tail;
    BytesAppend(front, back);
    assert stream == stream[..61441] + (stream[61441..65537] + stream[65537..]);
    IndexInPrefix(stream, 61441, BLANK_LINE);
    assert Stalled(stream[..61441]);
    assert [] + Bytes(front) == stream[..61441];
    ReadPast([], front, back);
    assert Read(stream[..61441], back) == Read(stream[..61441] + jump.data, tail);
  }

  /** Exactly when a plain header always gets through: its blank line ends by byte 61441, or the
      whole stream fits the limit. Otherwise some segmentation of the same bytes fails. */
  lemma AlwaysSucceedsIff(stream: seq<Byte>)
    requires !LooksLikeTls(stream) && IndexOf(stream, BLANK_LINE).Some?
    ensures (forall chunks :: Segments(chunks, stream) ==> Succeeds(chunks))
       <==> IndexOf(stream, BLANK_LINE).value + 4 <= 61441 || |stream| <= MAX_HEADER
  {
    if IndexOf(stream, BLANK_LINE).value + 4 <= 61441 || |stream| <= MAX_HEADER {
      forall chunks | Segments(chunks, stream) ensures Succeeds(chunks) {
        assert [] + Bytes(chunks) == stream;
        ShortHeaderSucceeds([], chunks, stream);
      }
    } else {
      JumpingSegmentsFail(stream);
    }
  }

  /** A TLS stream gets through under every segmentation; a stream with neither a TLS prefix nor a
      blank line under none. */
  lemma TlsAlwaysPlainNever(stream: seq<Byte>, chunks: seq<Chunk>)
    requires Segments(chunks, stream)
    ensures LooksLikeTls(stream) ==> Succeeds(chunks)
    ensures !LooksLikeTls(stream) && IndexOf(stream, BLANK_LINE).None? ==> !Succeeds(chunks)
  {
    assert [] + Bytes(chunks) == stream;
    if LooksLikeTls(stream) {
      TlsSucceeds([], chunks, stream);
    }
    SegmentationIndependent(chunks);
  }
}
