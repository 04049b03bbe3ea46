/** Base-protocol framing shared by the language server (JSON-RPC) and the debug
    adapter: every message is a block of header lines ended by an empty line,
    followed by exactly `Content-Length` bytes of body.  The receiving side is the
    header pattern of `JsonRPCProtocolBase.MESSAGE_PATTERN` together with the
    buffering loop of `data_received`; the sending side is the header each
    `send_message` writes in front of the encoded body. */
module Framing {
  import opened Wrappers
  import opened Text

  newtype Byte = b: int | 0 <= b < 256

  const CR: Byte := 13
  const LF: Byte := 10

  /** The default charset, used when the header names none. */
  const DefaultCharset: string := "utf-8"
  const ContentType: string := "application/vscode-jsonrpc"

  predicate IsAscii(s: string) {
    forall i :: 0 <= i < |s| ==> s[i] as int < 128
  }

  /** Bytes as Latin-1 characters, so that header lines can be read as text. */
  function Chars(bs: seq<Byte>): (s: string)
    ensures |s| == |bs|
  {
    seq(|bs|, i requires 0 <= i < |bs| => bs[i] as int as char)
  }

  /** The ASCII encoding of a string. */
  function Ascii(s: string): (bs: seq<Byte>)
    requires IsAscii(s)
    ensures |bs| == |s|
  {
    seq(|s|, i requires 0 <= i < |s| => s[i] as int as Byte)
  }

  lemma CharsOfAscii(s: string)
    requires IsAscii(s)
    ensures Chars(Ascii(s)) == s
  {
  }

  lemma AsciiAppend(s: string, t: string)
    requires IsAscii(s) && IsAscii(t)
    ensures IsAscii(s + t) && Ascii(s + t) == Ascii(s) + Ascii(t)
  {
  }

  /** The first index of `c` in `s`, or `|s|`. */
  function FindChar(s: string, c: char): (j: nat)
    ensures j <= |s| && Free(s[..j], c)
    ensures j < |s| ==> s[j] == c
  {
    if s == [] || s[0] == c then 0 else 1 + FindChar(s[1..], c)
  }

  function DropSpaces(s: string): (t: string)
    ensures |t| <= |s| && t == s[|s| - |t|..]
    ensures t == [] || t[0] != ' '
  {
    if s != [] && s[0] == ' ' then DropSpaces(s[1..]) else s
  }

  /** The value of a `Content-Length: ?\d+` header line, if the line is one. */
  function ContentLengthValue(line: string): Option<nat> {
    if StartsWith(line, "Content-Length:") then
      var r := line[15..];
      var d := if r != [] && r[0] == ' ' then r[1..] else r;
      if d != [] && AllDigits(d) then Some(DigitsValue(d)) else None
    else None
  }

  /** The `charset` a `Content-Type` header line captures, if the line is one
      that carries a charset: `Content-Type: ?<type>; *charset=<charset>`, where
      `<type>` holds no `;` and both parts are non-empty. */
  function ContentTypeCharset(line: string): Option<string> {
    if StartsWith(line, "Content-Type:") then
      var r := line[13..];
      var j := FindChar(r, ';');
      if r == [] || r[0] == ';' || j == |r| then None
      else
        var u := DropSpaces(r[j + 1..]);
        if StartsWith(u, "charset=") && |u| > 8 then Some(u[8..]) else None
    else None
  }

  lemma {:induction false} FindCharAfter(a: string, c: char, b: string)
    requires Free(a, c)
    ensures FindChar(a + [c] + b, c) == |a|
  {
    if a != [] {
      assert (a + [c] + b)[1..] == a[1..] + [c] + b;
      FindCharAfter(a[1..], c, b);
    }
  }

  lemma DropSpacesBeforeCharset(cs: string)
    ensures DropSpaces(" charset=" + cs) == "charset=" + cs
  {
    assert (" charset=" + cs)[1..] == "charset=" + cs;
  }

  lemma CharsetAfterSemicolon(ct: string, cs: string)
    requires ct != [] && ct[0] != ';' && Free(ct, ';') && cs != []
    ensures var r := " " + ct + "; charset=" + cs;
      r != [] && r[0] != ';' && FindChar(r, ';') == |ct| + 1 &&
      r[|ct| + 2..] == " charset=" + cs
  {
    var r := " " + ct + "; charset=" + cs;
    assert "; charset=" == [';'] + " charset=";
    assert r == (" " + ct) + [';'] + (" charset=" + cs);
    assert Free(" " + ct, ';');
    FindCharAfter(" " + ct, ';', " charset=" + cs);
  }

  /** A header line that names a content type and a charset captures that charset. */
  lemma ContentTypeLineCharset(ct: string, cs: string)
    requires ct != [] && ct[0] != ';' && Free(ct, ';') && cs != []
    ensures ContentTypeCharset("Content-Type: " + ct + "; charset=" + cs) == Some(cs)
  {
    var r := " " + ct + "; charset=" + cs;
    ContentTypeLineSplit(ct, cs);
    StartsWithAppend("Content-Type:", r);
    CharsetAfterSemicolon(ct, cs);
    DropSpacesBeforeCharset(cs);
    StartsWithAppend("charset=", cs);
  }

  lemma ContentTypeLineSplit(ct: string, cs: string)
    ensures "Content-Type: " + ct + "; charset=" + cs == "Content-Type:" + (" " + ct + "; charset=" + cs)
  {
  }

  /** A `Content-Length` line made by the sender reads back as its number. */
  lemma ContentLengthLineValue(n: nat)
    ensures ContentLengthValue("Content-Length: " + NatToString(n)) == Some(n)
  {
    ContentLengthLineSplit(NatToString(n));
    StartsWithAppend("Content-Length:", " " + NatToString(n));
    StartsWithAppend(" ", NatToString(n));
    DigitsValueOfNatToString(n);
  }

  lemma ContentLengthLineSplit(d: string)
    ensures "Content-Length: " + d == "Content-Length:" + (" " + d)
  {
  }

  // ---------------------------------------------------------------------------
  // Receiving: the header pattern as a line scanner

  /** Index of the first CR or LF at or after `p`, or `|buf|`. */
  function LineBreak(buf: seq<Byte>, p: nat): (q: nat)
    requires p <= |buf|
    ensures p <= q <= |buf|
    decreases |buf| - p
  {
    if p == |buf| || buf[p] == CR || buf[p] == LF then p else LineBreak(buf, p + 1)
  }

  /** `Some(q)` when `buf[p..q]` is a complete line: free of CR and LF and
      terminated by CR LF at `q`. */
  function LineEnd(buf: seq<Byte>, p: nat): (r: Option<nat>)
    requires p <= |buf|
    ensures r.Some? ==> p <= r.value && r.value + 2 <= |buf|
  {
    var q := LineBreak(buf, p);
    if q + 1 < |buf| && buf[q] == CR && buf[q + 1] == LF then Some(q) else None
  }

  /** An offset just past a CR LF: at least 2. */
  type PastBreak = n: nat | 2 <= n witness 2

  /** A complete line: its bytes and the offset just past its CR LF. */
  datatype Line = Line(text: seq<Byte>, next: PastBreak)

  /** The complete lines from `p` on, up to the first incomplete one. */
  function SplitLines(buf: seq<Byte>, p: nat): seq<Line>
    requires p <= |buf|
    decreases |buf| - p
  {
    match LineEnd(buf, p)
    case None => []
    case Some(q) => [Line(buf[p..q], q + 2)] + SplitLines(buf, q + 2)
  }

  /** Every line split off ends inside the buffer. */
  lemma {:induction false} SplitLinesNext(buf: seq<Byte>, p: nat)
    requires p <= |buf|
    ensures forall i :: 0 <= i < |SplitLines(buf, p)| ==> 2 <= SplitLines(buf, p)[i].next <= |buf|
    decreases |buf| - p
  {
    var r := LineEnd(buf, p);
    if r.Some? {
      var q := r.value;
      assert q + 2 <= |buf|;
      SplitLinesNext(buf, q + 2);
      var rest := SplitLines(buf, q + 2);
      var ls := [Line(buf[p..q], q + 2)] + rest;
      assert SplitLines(buf, p) == ls;
      forall i | 0 <= i < |ls|
        ensures 2 <= ls[i].next <= |buf|
      {
        if i == 0 {
          assert ls[0].next == q + 2;
        } else {
          assert ls[i] == rest[i - 1];
        }
      }
    }
  }

  /** What the pattern captures: the `Content-Length` value, the `charset` (if
      any) and where the body starts. */
  datatype Header = Header(length: nat, charset: Option<string>, bodyStart: PastBreak)

  /** The most recent `Content-Length` line of the current block of lines and
      the charset captured since it. */
  datatype Candidate = Candidate(length: nat, charset: Option<string>)

  /** How the pattern reads one complete, non-empty line: a `Content-Length`
      line, or any other line together with the charset it names, if any. */
  datatype LineKind = LengthLine(length: nat) | OtherLine(charset: Option<string>)

  function Classify(line: seq<Byte>): LineKind {
    var text := Chars(line);
    match ContentLengthValue(text)
    case Some(n) => LengthLine(n)
    case None => OtherLine(ContentTypeCharset(text))
  }

  /** A `Content-Type` line that names a charset replaces the one captured so far. */
  function WithCharset(cand: Option<Candidate>, cs: Option<string>): Option<Candidate> {
    if cand.Some? && cs.Some? then Some(cand.value.(charset := cs)) else cand
  }

  /** The header pattern matches a prefix of arbitrary lines, then a
      `Content-Length` line, then non-empty lines, then an empty line; its leading
      `(?:[^\r\n]*\r\n)*` is greedy, so the match that wins is the one with the
      LAST `Content-Length` line that an empty line follows.  `Scan` walks the
      complete lines, remembering in `cand` the last `Content-Length` line of
      the current block and in `found` the last complete match.  It takes the
      reading of single lines as the parameter `kind` (always `Classify` in
      `MatchHeader`), so that the walk can be reasoned about apart from the
      syntax of each line. */
  function Scan(kind: seq<Byte> -> LineKind, ls: seq<Line>, cand: Option<Candidate>, found: Option<Header>): Option<Header> {
    if ls == [] then found
    else if ls[0].text == [] then
      var found' := if cand.Some? then Some(Header(cand.value.length, cand.value.charset, ls[0].next)) else found;
      Scan(kind, ls[1..], None, found')
    else
      match kind(ls[0].text)
      case LengthLine(n) => Scan(kind, ls[1..], Some(Candidate(n, None)), found)
      case OtherLine(cs) => Scan(kind, ls[1..], WithCharset(cand, cs), found)
  }

  /** A match ends inside the buffer: every body start is the end of some line. */
  lemma {:induction false} ScanBodyStart(kind: seq<Byte> -> LineKind, ls: seq<Line>, cand: Option<Candidate>, found: Option<Header>, bound: nat)
    requires forall i :: 0 <= i < |ls| ==> 2 <= ls[i].next <= bound
    requires found.Some? ==> 2 <= found.value.bodyStart <= bound
    ensures var r := Scan(kind, ls, cand, found); r.Some? ==> 2 <= r.value.bodyStart <= bound
    decreases |ls|
  {
    if ls == [] {
    } else if ls[0].text == [] {
      var found' := if cand.Some? then Some(Header(cand.value.length, cand.value.charset, ls[0].next)) else found;
      ScanBodyStart(kind, ls[1..], None, found', bound);
    } else {
      match kind(ls[0].text)
      case LengthLine(n) => ScanBodyStart(kind, ls[1..], Some(Candidate(n, None)), found, bound);
      case OtherLine(cs) => ScanBodyStart(kind, ls[1..], WithCharset(cand, cs), found, bound);
    }
  }

  /** `MESSAGE_PATTERN.match(buf)`, with `kind` reading single lines (the
      pattern's own reading is `Classify`). */
  function MatchHeader(kind: seq<Byte> -> LineKind, buf: seq<Byte>): Option<Header> {
    Scan(kind, SplitLines(buf, 0), None, None)
  }

  /** A match ends with a complete empty line inside the buffer. */
  lemma MatchHeaderInside(kind: seq<Byte> -> LineKind, buf: seq<Byte>)
    ensures var r := MatchHeader(kind, buf); r.Some? ==> 2 <= r.value.bodyStart <= |buf|
  {
    SplitLinesNext(buf, 0);
    ScanBodyStart(kind, SplitLines(buf, 0), None, None, |buf|);
  }

  /** `MESSAGE_PATTERN.match`: the pattern with its own reading of lines. */
  function Pattern(buf: seq<Byte>): Option<Header> {
    MatchHeader(Classify, buf)
  }

  /** One call of `_handle_body`: a body and the charset it is decoded with. */
  datatype Received = Received(body: seq<Byte>, charset: string)

  /** The buffer left behind, the bodies handed on in order, and whether the
      call raised (a `charset` that is not ASCII fails to decode). */
  datatype FeedOutcome = FeedOutcome(buf: seq<Byte>, received: seq<Received>, raised: bool)

  /** The charset a body is decoded with: the one the header names, else the default. */
  function Decoding(charset: Option<string>): string {
    if charset.Some? then charset.value else DefaultCharset
  }

  /** `data_received(data)` with message buffer `buf`: append the chunk, cut one
      message if its body is complete, and go on with the bytes past it. */
  function Feed(m: seq<Byte> -> Option<Header>, buf: seq<Byte>, data: seq<Byte>): (o: FeedOutcome)
    decreases |buf| + |data|
  {
    if data == [] then FeedOutcome(buf, [], false)
    else
      var b := buf + data;
      match m(b)
      case None => FeedOutcome(b, [], false)
      case Some(h) =>
        if h.charset.Some? && !IsAscii(h.charset.value) then FeedOutcome(b, [], true)
        else if |b| - h.bodyStart < h.length then FeedOutcome(b, [], false)
        else
          var rest := Feed(m, [], b[h.bodyStart + h.length..]);
          var charset := Decoding(h.charset);
          FeedOutcome(rest.buf, [Received(b[h.bodyStart..h.bodyStart + h.length], charset)] + rest.received, rest.raised)
  }

  /** The receiving half of `JsonRPCProtocolBase`: the message buffer and the
      bodies passed to `_handle_body`, in order. */
  class MessageReader {
    var messageBuf: seq<Byte>
    var handled: seq<Received>

    constructor ()
      ensures messageBuf == [] && handled == []
    {
      messageBuf := [];
      handled := [];
    }

    method DataReceived(data: seq<Byte>) returns (raised: bool)
      modifies this
      ensures var o := Feed(Pattern, old(messageBuf), data);
        messageBuf == o.buf && handled == old(handled) + o.received && raised == o.raised
    {
      var d := data;
      ghost var done: seq<Received> := [];
      raised := false;
      while |d| > 0
        invariant handled == old(handled) + done
        invariant Feed(Pattern, old(messageBuf), data) == After(done, Feed(Pattern, messageBuf, d))
        decreases |messageBuf| + |d|
      {
        ghost var now := Feed(Pattern, messageBuf, d);
        messageBuf := messageBuf + d;
        var found := Pattern(messageBuf);
        if found.None? {
          assert now == FeedOutcome(messageBuf, [], false);
          return;
        }
        var h := found.value;
        var charset := DefaultCharset;
        if h.charset.Some? {
          if !IsAscii(h.charset.value) {
            assert now == FeedOutcome(messageBuf, [], true);
            return true;
          }
          charset := h.charset.value;
        }
        if |messageBuf| - h.bodyStart < h.length {
          assert now == FeedOutcome(messageBuf, [], false);
          return;
        }
        var body := messageBuf[h.bodyStart..h.bodyStart + h.length];
        d := messageBuf[h.bodyStart + h.length..];
        messageBuf := [];
        ghost var rest := Feed(Pattern, [], d);
        assert now == FeedOutcome(rest.buf, [Received(body, charset)] + rest.received, rest.raised);
        assert done + ([Received(body, charset)] + rest.received) == (done + [Received(body, charset)]) + rest.received;
        handled := handled + [Received(body, charset)];
        done := done + [Received(body, charset)];
      }
    }
  }

  /** An outcome preceded by bodies already handed on. */
  function After(done: seq<Received>, o: FeedOutcome): FeedOutcome {
    FeedOutcome(o.buf, done + o.received, o.raised)
  }

  /** Several `data_received` calls, one per chunk. */
  function FeedAll(m: seq<Byte> -> Option<Header>, buf: seq<Byte>, chunks: seq<seq<Byte>>): (o: FeedOutcome)
    decreases |chunks|
  {
    if chunks == [] then FeedOutcome(buf, [], false)
    else
      var first := Feed(m, buf, chunks[0]);
      var rest := FeedAll(m, first.buf, chunks[1..]);
      FeedOutcome(rest.buf, first.received + rest.received, first.raised || rest.raised)
  }

  function Flatten(chunks: seq<seq<Byte>>): seq<Byte> {
    if chunks == [] then [] else chunks[0] + Flatten(chunks[1..])
  }

  // ---------------------------------------------------------------------------
  // Sending: the headers written by `send_message`

  /** Text that can stand on one header line: ASCII without CR or LF. */
  predicate LineText(l: string) {
    IsAscii(l) && Free(l, '\r') && Free(l, '\n')
  }

  /** The bytes of one header line: no CR, no LF. */
  predicate NoBreak(l: seq<Byte>) {
    forall i :: 0 <= i < |l| ==> l[i] != CR && l[i] != LF
  }

  predicate AllNoBreak(ls: seq<seq<Byte>>) {
    forall i :: 0 <= i < |ls| ==> NoBreak(ls[i])
  }

  lemma AsciiNoBreak(l: string)
    requires LineText(l)
    ensures NoBreak(Ascii(l))
  {
    forall i | 0 <= i < |l|
      ensures Ascii(l)[i] != CR && Ascii(l)[i] != LF
    {
      assert l[i] != '\r' && l[i] != '\n';
    }
  }

  /** Lines, each followed by CR LF. */
  function Lines(ls: seq<seq<Byte>>): seq<Byte> {
    if ls == [] then [] else ls[0] + [CR, LF] + Lines(ls[1..])
  }

  function ContentLengthLine(n: nat): (l: string)
    ensures l != [] && LineText(l)
  {
    "Content-Length: " + NatToString(n)
  }

  const ContentTypeLine: string := "Content-Type: " + ContentType + "; charset=" + DefaultCharset

  lemma LineTextAppend(s: string, t: string)
    requires LineText(s) && LineText(t)
    ensures LineText(s + t)
  {
    assert forall i :: 0 <= i < |s + t| ==> (s + t)[i] == if i < |s| then s[i] else t[i - |s|];
  }

  lemma ContentTypeLineText()
    ensures ContentTypeLine != [] && LineText(ContentTypeLine)
  {
    assert LineText("Content-Type: ");
    assert LineText(ContentType);
    assert LineText("; charset=");
    assert LineText(DefaultCharset);
    LineTextAppend("Content-Type: ", ContentType);
    LineTextAppend("Content-Type: " + ContentType, "; charset=");
    LineTextAppend("Content-Type: " + ContentType + "; charset=", DefaultCharset);
  }

  /** The JSON-RPC header lines for a body of `n` bytes, ASCII-encoded
      (`jsonrpc2/protocol.py`, `send_message`). */
  function JsonRpcHeaderLines(n: nat): (ls: seq<seq<Byte>>)
    ensures |ls| == 2
  {
    ContentTypeLineText();
    [Ascii(ContentLengthLine(n)), Ascii(ContentTypeLine)]
  }

  /** The debug adapter header lines: `Content-Length` only. */
  function DapHeaderLines(n: nat): (ls: seq<seq<Byte>>)
    ensures |ls| == 1
  {
    [Ascii(ContentLengthLine(n))]
  }

  /** What `send_message` writes: the header lines, an empty line, the body. */
  function Frame(ls: seq<seq<Byte>>, body: seq<Byte>): seq<Byte> {
    Lines(ls) + [CR, LF] + body
  }

  /** JSON never holds a raw carriage return, so an encoded body has no CR LF. */
  predicate NoCrLf(bs: seq<Byte>) {
    forall i :: 0 <= i < |bs| - 1 ==> !(bs[i] == CR && bs[i + 1] == LF)
  }

  // ---------------------------------------------------------------------------
  // Round trip: what `send_message` writes, `data_received` hands back

  lemma {:induction false} LineBreakProperties(buf: seq<Byte>, p: nat)
    requires p <= |buf|
    ensures var q := LineBreak(buf, p);
      (forall i :: p <= i < q ==> buf[i] != CR && buf[i] != LF) &&
      (q < |buf| ==> buf[q] == CR || buf[q] == LF)
    decreases |buf| - p
  {
    if !(p == |buf| || buf[p] == CR || buf[p] == LF) {
      LineBreakProperties(buf, p + 1);
    }
  }

  lemma {:induction false} LineBreakAt(buf: seq<Byte>, p: nat, q: nat)
    requires p <= q <= |buf|
    requires forall i :: p <= i < q ==> buf[i] != CR && buf[i] != LF
    requires q < |buf| ==> buf[q] == CR || buf[q] == LF
    ensures LineBreak(buf, p) == q
    decreases q - p
  {
    if p < q {
      LineBreakAt(buf, p + 1, q);
    }
  }

  /** A complete line `l` at `p` is split off as `l`. */
  lemma LineAt(buf: seq<Byte>, p: nat, l: seq<Byte>)
    requires NoBreak(l)
    requires p + |l| + 2 <= |buf| && buf[p..p + |l| + 2] == l + [CR, LF]
    ensures SplitLines(buf, p) == [Line(l, p + |l| + 2)] + SplitLines(buf, p + |l| + 2)
  {
    forall i | p <= i < p + |l|
      ensures buf[i] != CR && buf[i] != LF
    {
      assert buf[i] == l[i - p];
    }
    assert buf[p + |l|] == CR && buf[p + |l| + 1] == LF;
    LineBreakAt(buf, p, p + |l|);
    assert buf[p..p + |l|] == buf[p..p + |l| + 2][..|l|];
  }

  /** A line cut off before its CR LF is not a line yet. */
  lemma PartialLineAt(buf: seq<Byte>, p: nat, l: seq<Byte>)
    requires NoBreak(l)
    requires p <= |buf| < p + |l| + 2
    requires buf[p..] == (l + [CR, LF])[..|buf| - p]
    ensures SplitLines(buf, p) == []
  {
    LineBreakProperties(buf, p);
  }

  /** Bytes without a CR LF pair hold no line. */
  lemma NoLineAt(buf: seq<Byte>, p: nat)
    requires p <= |buf|
    requires forall i :: p <= i < |buf| - 1 ==> !(buf[i] == CR && buf[i + 1] == LF)
    ensures SplitLines(buf, p) == []
  {
    LineBreakProperties(buf, p);
  }

  /** The records `SplitLines` makes of lines `ls` written from offset `p` on. */
  function LineRecords(ls: seq<seq<Byte>>, p: nat): (rs: seq<Line>)
    ensures |rs| == |ls|
  {
    if ls == [] then [] else [Line(ls[0], p + |ls[0]| + 2)] + LineRecords(ls[1..], p + |ls[0]| + 2)
  }

  lemma {:induction false} LinesAppend(a: seq<seq<Byte>>, b: seq<seq<Byte>>)
    ensures Lines(a + b) == Lines(a) + Lines(b)
    decreases |a|
  {
    if a == [] {
      assert a + b == b;
    } else {
      assert (a + b)[1..] == a[1..] + b;
      LinesAppend(a[1..], b);
      assert Lines(a + b) == a[0] + [CR, LF] + Lines(a[1..] + b);
    }
  }

  lemma {:induction false} LineRecordsAppend(a: seq<seq<Byte>>, b: seq<seq<Byte>>, p: nat)
    ensures LineRecords(a + b, p) == LineRecords(a, p) + LineRecords(b, p + |Lines(a)|)
    decreases |a|
  {
    if a == [] {
      assert a + b == b;
    } else {
      assert (a + b)[1..] == a[1..] + b;
      LineRecordsAppend(a[1..], b, p + |a[0]| + 2);
    }
  }

  lemma ConcatAssoc<T>(a: seq<T>, b: seq<T>, c: seq<T>)
    ensures a + (b + c) == (a + b) + c
  {
  }

  /** A slice that holds `a + b` holds `a`, then `b`. */
  lemma SliceParts(buf: seq<Byte>, p: nat, a: seq<Byte>, b: seq<Byte>)
    requires p + |a| + |b| <= |buf| && buf[p..p + |a| + |b|] == a + b
    ensures buf[p..p + |a|] == a && buf[p + |a|..p + |a| + |b|] == b
  {
    assert buf[p..p + |a|] == buf[p..p + |a| + |b|][..|a|];
    assert buf[p + |a|..p + |a| + |b|] == buf[p..p + |a| + |b|][|a|..];
  }

  lemma AllNoBreakTail(ls: seq<seq<Byte>>)
    requires ls != [] && AllNoBreak(ls)
    ensures NoBreak(ls[0]) && AllNoBreak(ls[1..])
  {
    forall i | 0 <= i < |ls[1..]| ensures NoBreak(ls[1..][i]) {
      assert ls[1..][i] == ls[i + 1];
    }
  }

  lemma LinesCons(ls: seq<seq<Byte>>)
    requires ls != []
    ensures Lines(ls) == (ls[0] + [CR, LF]) + Lines(ls[1..])
    ensures |Lines(ls)| == |ls[0]| + 2 + |Lines(ls[1..])|
  {
  }

  /** The first of several complete lines is split off. */
  lemma FirstLineAt(buf: seq<Byte>, p: nat, ls: seq<seq<Byte>>, q: nat)
    requires ls != [] && AllNoBreak(ls) && q == p + |ls[0]| + 2
    requires p + |Lines(ls)| <= |buf| && buf[p..p + |Lines(ls)|] == Lines(ls)
    ensures q + |Lines(ls[1..])| == p + |Lines(ls)| && AllNoBreak(ls[1..]) &&
      buf[q..q + |Lines(ls[1..])|] == Lines(ls[1..]) &&
      SplitLines(buf, p) == [Line(ls[0], q)] + SplitLines(buf, q)
  {
    LinesCons(ls);
    SliceParts(buf, p, ls[0] + [CR, LF], Lines(ls[1..]));
    AllNoBreakTail(ls);
    LineAt(buf, p, ls[0]);
  }

  /** Complete lines are split off one by one. */
  lemma {:induction false} SplitOverLines(buf: seq<Byte>, p: nat, ls: seq<seq<Byte>>)
    requires AllNoBreak(ls)
    requires p + |Lines(ls)| <= |buf| && buf[p..p + |Lines(ls)|] == Lines(ls)
    ensures SplitLines(buf, p) == LineRecords(ls, p) + SplitLines(buf, p + |Lines(ls)|)
    decreases |ls|
  {
    if ls == [] {
      PrependNothing(SplitLines(buf, p));
    } else {
      var q := p + |ls[0]| + 2;
      FirstLineAt(buf, p, ls, q);
      SplitOverLines(buf, q, ls[1..]);
      RecordsStep(ls, p, q, SplitLines(buf, p), SplitLines(buf, q), SplitLines(buf, q + |Lines(ls[1..])|));
    }
  }

  lemma PrependNothing<T>(s: seq<T>)
    ensures [] + s == s
  {
  }

  /** One more line in front of the records split off. */
  lemma RecordsStep(ls: seq<seq<Byte>>, p: nat, q: nat, first: seq<Line>, second: seq<Line>, tail: seq<Line>)
    requires ls != [] && q == p + |ls[0]| + 2
    requires first == [Line(ls[0], q)] + second
    requires second == LineRecords(ls[1..], q) + tail
    ensures first == LineRecords(ls, p) + tail
  {
    assert LineRecords(ls, p) == [Line(ls[0], q)] + LineRecords(ls[1..], q);
    ConcatAssoc([Line(ls[0], q)], LineRecords(ls[1..], q), tail);
  }

  /** A prefix of `a + b` that reaches past `a` holds `a`, then a prefix of `b`. */
  lemma PrefixParts(buf: seq<Byte>, p: nat, a: seq<Byte>, b: seq<Byte>)
    requires p + |a| <= |buf| <= p + |a| + |b| && buf[p..] == (a + b)[..|buf| - p]
    ensures buf[p..p + |a|] == a && buf[p + |a|..] == b[..|buf| - p - |a|]
  {
    assert buf[p..p + |a|] == buf[p..][..|a|];
    assert buf[p + |a|..] == buf[p..][|a|..];
  }

  /** The first of several lines is split off once it is complete. */
  lemma FirstOfPartialLines(buf: seq<Byte>, p: nat, ls: seq<seq<Byte>>, q: nat)
    requires ls != [] && AllNoBreak(ls) && q == p + |ls[0]| + 2
    requires q <= |buf| < p + |Lines(ls)|
    requires buf[p..] == Lines(ls)[..|buf| - p]
    ensures AllNoBreak(ls[1..]) && |buf| < q + |Lines(ls[1..])| &&
      buf[q..] == Lines(ls[1..])[..|buf| - q] &&
      SplitLines(buf, p) == [Line(ls[0], q)] + SplitLines(buf, q)
  {
    LinesCons(ls);
    AllNoBreakTail(ls);
    PrefixParts(buf, p, ls[0] + [CR, LF], Lines(ls[1..]));
    LineAt(buf, p, ls[0]);
  }

  /** One more complete line in front of the records of a prefix. */
  lemma PrefixRecordsStep(ls: seq<seq<Byte>>, p: nat, q: nat, i: nat, first: seq<Line>, second: seq<Line>)
    requires i + 1 < |ls| && q == p + |ls[0]| + 2
    requires first == [Line(ls[0], q)] + second
    requires second == LineRecords(ls[1..][..i], q)
    ensures first == LineRecords(ls[..i + 1], p)
  {
    assert ls[..i + 1][1..] == ls[1..][..i];
  }

  /** Nothing is split off while the first line is incomplete. */
  lemma FirstLinePartial(buf: seq<Byte>, p: nat, ls: seq<seq<Byte>>)
    requires ls != [] && AllNoBreak(ls)
    requires p <= |buf| < p + |ls[0]| + 2 && |buf| < p + |Lines(ls)|
    requires buf[p..] == Lines(ls)[..|buf| - p]
    ensures SplitLines(buf, p) == []
  {
    LinesCons(ls);
    assert buf[p..] == (ls[0] + [CR, LF])[..|buf| - p];
    AllNoBreakTail(ls);
    PartialLineAt(buf, p, ls[0]);
  }

  /** While the lines are incomplete, only the complete ones are split off. */
  lemma {:induction false} SplitPartialLines(buf: seq<Byte>, p: nat, ls: seq<seq<Byte>>) returns (j: nat)
    requires AllNoBreak(ls)
    requires p <= |buf| < p + |Lines(ls)|
    requires buf[p..] == Lines(ls)[..|buf| - p]
    ensures j < |ls| && SplitLines(buf, p) == LineRecords(ls[..j], p)
    decreases |ls|
  {
    var q := p + |ls[0]| + 2;
    if |buf| < q {
      FirstLinePartial(buf, p, ls);
      j := 0;
      assert ls[..0] == [];
    } else {
      FirstOfPartialLines(buf, p, ls, q);
      var i := SplitPartialLines(buf, q, ls[1..]);
      PrefixRecordsStep(ls, p, q, i, SplitLines(buf, p), SplitLines(buf, q));
      j := i + 1;
    }
  }

  /** Scanning lines none of which is empty finds no new match. */
  lemma {:induction false} ScanWithoutEmptyLine(kind: seq<Byte> -> LineKind, ls: seq<seq<Byte>>, p: nat, cand: Option<Candidate>, found: Option<Header>)
    requires forall i :: 0 <= i < |ls| ==> ls[i] != []
    ensures Scan(kind, LineRecords(ls, p), cand, found) == found
    decreases |ls|
  {
    if ls != [] {
      var rs := LineRecords(ls, p);
      assert rs[1..] == LineRecords(ls[1..], p + |ls[0]| + 2);
      match kind(ls[0])
      case LengthLine(n) => ScanWithoutEmptyLine(kind, ls[1..], p + |ls[0]| + 2, Some(Candidate(n, None)), found);
      case OtherLine(cs) => ScanWithoutEmptyLine(kind, ls[1..], p + |ls[0]| + 2, WithCharset(cand, cs), found);
    }
  }

  /** The charset read from header lines: the last one that names one wins. */
  function CharsetAfter(kind: seq<Byte> -> LineKind, cs: Option<string>, ls: seq<seq<Byte>>): Option<string>
    decreases |ls|
  {
    if ls == [] then cs
    else
      match kind(ls[0])
      case OtherLine(Some(c)) => CharsetAfter(kind, Some(c), ls[1..])
      case _ => CharsetAfter(kind, cs, ls[1..])
  }

  /** Non-empty lines that the line reader takes for other lines than `Content-Length`. */
  predicate OtherLines(kind: seq<Byte> -> LineKind, ls: seq<seq<Byte>>) {
    forall i :: 0 <= i < |ls| ==> ls[i] != [] && kind(ls[i]).OtherLine?
  }

  lemma OtherLinesTail(kind: seq<Byte> -> LineKind, ls: seq<seq<Byte>>)
    requires ls != [] && OtherLines(kind, ls)
    ensures ls[0] != [] && kind(ls[0]).OtherLine? && OtherLines(kind, ls[1..])
  {
    forall i | 0 <= i < |ls[1..]| ensures ls[1..][i] != [] && kind(ls[1..][i]).OtherLine? {
      assert ls[1..][i] == ls[i + 1];
    }
  }

  /** One other line: the candidate picks up the charset it names. */
  lemma ScanOtherLine(kind: seq<Byte> -> LineKind, ls: seq<seq<Byte>>, p: nat, q: nat, rest: seq<Line>, c: Candidate, c': Candidate, found: Option<Header>)
    requires ls != [] && ls[0] != [] && kind(ls[0]).OtherLine? && q == p + |ls[0]| + 2
    requires c' == if kind(ls[0]).charset.Some? then c.(charset := kind(ls[0]).charset) else c
    ensures Scan(kind, LineRecords(ls, p) + rest, Some(c), found) == Scan(kind, LineRecords(ls[1..], q) + rest, Some(c'), found)
  {
    var all := LineRecords(ls, p) + rest;
    assert all[0] == Line(ls[0], q);
    assert all[1..] == LineRecords(ls[1..], q) + rest;
  }

  lemma CharsetAfterOther(kind: seq<Byte> -> LineKind, ls: seq<seq<Byte>>, c: Candidate, c': Candidate)
    requires ls != [] && kind(ls[0]).OtherLine?
    requires c' == if kind(ls[0]).charset.Some? then c.(charset := kind(ls[0]).charset) else c
    ensures CharsetAfter(kind, c.charset, ls) == CharsetAfter(kind, c'.charset, ls[1..])
  {
  }

  /** Scanning non-empty, non-`Content-Length` lines keeps the candidate and
      collects the charset they name. */
  lemma {:induction false} ScanOtherLines(kind: seq<Byte> -> LineKind, ls: seq<seq<Byte>>, p: nat, rest: seq<Line>, c: Candidate, found: Option<Header>)
    requires OtherLines(kind, ls)
    ensures Scan(kind, LineRecords(ls, p) + rest, Some(c), found)
         == Scan(kind, rest, Some(c.(charset := CharsetAfter(kind, c.charset, ls))), found)
    decreases |ls|
  {
    if ls == [] {
      PrependNothing(rest);
    } else {
      OtherLinesTail(kind, ls);
      var q := p + |ls[0]| + 2;
      var c' := if kind(ls[0]).charset.Some? then c.(charset := kind(ls[0]).charset) else c;
      ScanOtherLine(kind, ls, p, q, rest, c, c', found);
      CharsetAfterOther(kind, ls, c, c');
      ScanOtherLines(kind, ls[1..], q, rest, c', found);
    }
  }

  /** The header lines a sender writes: non-empty lines without CR or LF, a
      `Content-Length` line first and no other `Content-Length` line. */
  predicate SenderHeader(kind: seq<Byte> -> LineKind, ls: seq<seq<Byte>>, n: nat) {
    |ls| >= 1 && AllNoBreak(ls) && (forall i :: 0 <= i < |ls| ==> ls[i] != []) &&
    kind(ls[0]) == LengthLine(n) && OtherLines(kind, ls[1..])
  }

  /** A frame is its header lines and an empty line (`ms`), then the body. */
  lemma FrameLines(ls: seq<seq<Byte>>, ms: seq<seq<Byte>>, body: seq<Byte>)
    requires AllNoBreak(ls) && ms == ls + [[]]
    ensures AllNoBreak(ms)
    ensures Lines(ms) == Lines(ls) + [CR, LF]
    ensures Frame(ls, body) == Lines(ms) + body
  {
    forall i | 0 <= i < |ms| ensures NoBreak(ms[i]) {
      if i < |ls| { assert ms[i] == ls[i]; }
    }
    var e: seq<seq<Byte>> := [[]];
    LinesAppend(ls, e);
    assert Lines(e) == [CR, LF];
  }

  /** Before its empty line has arrived, a sent header matches nothing. */
  lemma MatchBeforeBody(kind: seq<Byte> -> LineKind, ls: seq<seq<Byte>>, body: seq<Byte>, k: nat)
    requires SenderHeader(kind, ls, |body|)
    requires k < |Lines(ls)| + 2
    ensures k <= |Frame(ls, body)|
    ensures Scan(kind, SplitLines(Frame(ls, body)[..k], 0), None, None) == None
  {
    var ms := ls + [[]];
    FrameLines(ls, ms, body);
    var buf := Frame(ls, body)[..k];
    assert buf[0..] == Lines(ms)[..k];
    var j := SplitPartialLines(buf, 0, ms);
    assert ms[..j] == ls[..j];
    assert forall i :: 0 <= i < j ==> ls[..j][i] == ls[i];
    ScanWithoutEmptyLine(kind, ls[..j], 0, None, None);
  }

  /** Bytes of a body that has no CR LF hold no complete line. */
  lemma NoLineInBody(buf: seq<Byte>, h: nat, body: seq<Byte>)
    requires h <= |buf| && NoCrLf(body) && |buf| - h <= |body| && buf[h..] == body[..|buf| - h]
    ensures SplitLines(buf, h) == []
  {
    forall i | h <= i < |buf| - 1
      ensures !(buf[i] == CR && buf[i + 1] == LF)
    {
      assert buf[i] == body[i - h] && buf[i + 1] == body[i + 1 - h];
    }
    NoLineAt(buf, h);
  }

  /** A prefix of a frame that reaches past the empty line: the header lines,
      the empty line and part of the body. */
  lemma FramePrefixParts(ls: seq<seq<Byte>>, ms: seq<seq<Byte>>, body: seq<Byte>, k: nat, buf: seq<Byte>, hl: nat)
    requires AllNoBreak(ls) && ms == ls + [[]]
    requires hl == |Lines(ls)| + 2 <= k <= |Frame(ls, body)| && buf == Frame(ls, body)[..k]
    ensures AllNoBreak(ms)
    ensures hl == |Lines(ms)| && buf[0..hl] == Lines(ms) && buf[hl..] == body[..k - hl]
  {
    FrameLines(ls, ms, body);
  }

  /** The records of the header lines followed by the empty line. */
  lemma RecordsOfFrameLines(ls: seq<seq<Byte>>, ms: seq<seq<Byte>>)
    requires ls != [] && ms == ls + [[]]
    ensures var q := |ls[0]| + 2;
      LineRecords(ms, 0) == ([Line(ls[0], q)] + LineRecords(ls[1..], q)) + [Line([], |Lines(ls)| + 2)]
  {
    var q := |ls[0]| + 2;
    var e: seq<seq<Byte>> := [[]];
    LineRecordsAppend(ls, e, 0);
    EmptyLineRecord(|Lines(ls)|);
    assert LineRecords(ls, 0) == [Line(ls[0], q)] + LineRecords(ls[1..], q);
  }

  lemma EmptyLineRecord(p: nat)
    ensures LineRecords([[]], p) == [Line([], p + 2)]
  {
    var e: seq<seq<Byte>> := [[]];
    assert e[1..] == [];
  }

  lemma AppendNothing<T>(s: seq<T>)
    ensures s + [] == s
  {
  }

  /** Once the empty line has arrived, the lines are the sender's header lines
      and the empty line: the body holds no complete line. */
  lemma SplitFrame(ls: seq<seq<Byte>>, body: seq<Byte>, k: nat)
    requires ls != [] && AllNoBreak(ls) && NoCrLf(body)
    requires |Lines(ls)| + 2 <= k <= |Frame(ls, body)|
    ensures var q := |ls[0]| + 2;
      SplitLines(Frame(ls, body)[..k], 0)
        == ([Line(ls[0], q)] + LineRecords(ls[1..], q)) + [Line([], |Lines(ls)| + 2)]
  {
    var ms := ls + [[]];
    var hl := |Lines(ls)| + 2;
    var buf := Frame(ls, body)[..k];
    FramePrefixParts(ls, ms, body, k, buf, hl);
    SplitOverLines(buf, 0, ms);
    NoLineInBody(buf, hl, body);
    RecordsOfFrameLines(ls, ms);
    AppendNothing(LineRecords(ms, 0));
    assert SplitLines(buf, 0) == LineRecords(ms, 0) + SplitLines(buf, hl);
  }

  /** Scanning a sent header's lines and the empty line finds the header. */
  lemma ScanSentHeader(kind: seq<Byte> -> LineKind, ls: seq<seq<Byte>>, n: nat, hl: PastBreak)
    requires SenderHeader(kind, ls, n)
    ensures var q := |ls[0]| + 2;
      Scan(kind, ([Line(ls[0], q)] + LineRecords(ls[1..], q)) + [Line([], hl)], None, None)
        == Some(Header(n, CharsetAfter(kind, None, ls[1..]), hl))
  {
    var q := |ls[0]| + 2;
    var rest := [Line([], hl)];
    var all := ([Line(ls[0], q)] + LineRecords(ls[1..], q)) + rest;
    assert all[0] == Line(ls[0], q);
    assert all[1..] == LineRecords(ls[1..], q) + rest;
    ScanOtherLines(kind, ls[1..], q, rest, Candidate(n, None), None);
  }

  /** On any prefix of a sent frame the pattern finds nothing until the empty
      line has arrived, and from then on the sender's header. */
  lemma MatchFramePrefix(kind: seq<Byte> -> LineKind, ls: seq<seq<Byte>>, body: seq<Byte>, k: nat)
    requires SenderHeader(kind, ls, |body|) && NoCrLf(body)
    requires k <= |Frame(ls, body)|
    ensures var hl := |Lines(ls)| + 2;
      MatchHeader(kind, Frame(ls, body)[..k])
        == if k < hl then None else Some(Header(|body|, CharsetAfter(kind, None, ls[1..]), hl))
  {
    var hl := |Lines(ls)| + 2;
    if k < hl {
      MatchBeforeBody(kind, ls, body, k);
    } else {
      SplitFrame(ls, body, k);
      ScanSentHeader(kind, ls, |body|, hl);
    }
  }

  /** `data_received` keeps waiting while the body is incomplete. */
  lemma FeedWaits(m: seq<Byte> -> Option<Header>, buf: seq<Byte>, data: seq<Byte>)
    requires data != []
    requires var r := m(buf + data);
      r.None? || ((r.value.charset.None? || IsAscii(r.value.charset.value)) &&
                  |buf + data| - r.value.bodyStart < r.value.length)
    ensures Feed(m, buf, data) == FeedOutcome(buf + data, [], false)
  {
  }

  /** `data_received` hands on a body that ends with the buffer and empties it. */
  lemma FeedHandsOn(m: seq<Byte> -> Option<Header>, buf: seq<Byte>, data: seq<Byte>, h: Header)
    requires data != [] && m(buf + data) == Some(h)
    requires h.charset.None? || IsAscii(h.charset.value)
    requires |buf + data| == h.bodyStart + h.length
    ensures Feed(m, buf, data)
         == FeedOutcome([], [Received((buf + data)[h.bodyStart..], Decoding(h.charset))], false)
  {
    var b := buf + data;
    var body := b[h.bodyStart..h.bodyStart + h.length];
    assert b[h.bodyStart + h.length..] == [];
    assert body == b[h.bodyStart..];
    FeedNothing(m, []);
    assert Feed(m, buf, data) == FeedOutcome([], [Received(body, Decoding(h.charset))] + [], false);
  }

  lemma FeedNothing(m: seq<Byte> -> Option<Header>, buf: seq<Byte>)
    ensures Feed(m, buf, []) == FeedOutcome(buf, [], false)
  {
  }


  /** `f` is one whole message as `data_received` sees it: every prefix up to
      `h.bodyStart` matches nothing, every longer prefix matches `h`, the body
      ends where `f` ends and its charset can be decoded. */
  predicate Framed(m: seq<Byte> -> Option<Header>, f: seq<Byte>, h: Header) {
    2 <= h.bodyStart && h.bodyStart + h.length == |f| &&
    (h.charset.None? || IsAscii(h.charset.value)) &&
    forall j :: 0 <= j <= |f| ==> m(f[..j]) == if j < h.bodyStart then None else Some(h)
  }

  lemma PrefixExtend<T>(f: seq<T>, k: nat, c: seq<T>)
    requires k + |c| <= |f| && f[k..k + |c|] == c
    ensures f[..k] + c == f[..k + |c|]
  {
  }

  /** One chunk of a whole message: before the last byte the chunk only grows
      the buffer; with the last byte the body is handed on and the buffer empties. */
  lemma FeedFramedChunk(m: seq<Byte> -> Option<Header>, f: seq<Byte>, h: Header, k: nat, c: seq<Byte>)
    requires Framed(m, f, h)
    requires c != [] && k + |c| <= |f| && f[k..k + |c|] == c
    ensures Feed(m, f[..k], c) == if k + |c| < |f| then FeedOutcome(f[..k + |c|], [], false)
                                      else FeedOutcome([], [Received(f[h.bodyStart..], Decoding(h.charset))], false)
  {
    PrefixExtend(f, k, c);
    assert m(f[..k + |c|]) == if k + |c| < h.bodyStart then None else Some(h);
    if k + |c| < |f| {
      FeedWaits(m, f[..k], c);
    } else {
      assert f[..k + |c|] == f;
      FeedHandsOn(m, f[..k], c, h);
    }
  }

  /** Feeding several chunks: the first chunk's bodies come first. */
  lemma FeedAllCons(m: seq<Byte> -> Option<Header>, buf: seq<Byte>, chunks: seq<seq<Byte>>)
    requires chunks != [] && !Feed(m, buf, chunks[0]).raised
    ensures var first := Feed(m, buf, chunks[0]);
      FeedAll(m, buf, chunks) == After(first.received, FeedAll(m, first.buf, chunks[1..]))
  {
  }

  lemma {:induction false} FeedAllEmptyChunks(m: seq<Byte> -> Option<Header>, chunks: seq<seq<Byte>>)
    requires Flatten(chunks) == []
    ensures FeedAll(m, [], chunks) == FeedOutcome([], [], false)
    decreases |chunks|
  {
    if chunks != [] {
      FeedAllEmptyChunks(m, chunks[1..]);
    }
  }

  lemma FlattenCons(chunks: seq<seq<Byte>>)
    requires chunks != []
    ensures Flatten(chunks) == chunks[0] + Flatten(chunks[1..])
  {
  }

  /** The chunks of a whole message from offset `k` on. */
  lemma {:induction false} FeedFramedChunks(m: seq<Byte> -> Option<Header>, f: seq<Byte>, h: Header, k: nat, chunks: seq<seq<Byte>>)
    requires Framed(m, f, h)
    requires k < |f| && f[k..] == Flatten(chunks)
    ensures FeedAll(m, f[..k], chunks) == FeedOutcome([], [Received(f[h.bodyStart..], Decoding(h.charset))], false)
    decreases |chunks|
  {
    var c := chunks[0];
    FlattenCons(chunks);
    assert f[k..k + |c|] == c && f[k + |c|..] == Flatten(chunks[1..]) by {
      assert f[k..] == c + Flatten(chunks[1..]);
    }
    if c == [] {
      assert f[..k] + c == f[..k];
      FeedAllCons(m, f[..k], chunks);
      FeedFramedChunks(m, f, h, k, chunks[1..]);
    } else {
      FeedFramedChunk(m, f, h, k, c);
      FeedAllCons(m, f[..k], chunks);
      if k + |c| < |f| {
        FeedFramedChunks(m, f, h, k + |c|, chunks[1..]);
      } else {
        FeedAllEmptyChunks(m, chunks[1..]);
      }
    }
  }

  /** A frame the sender writes is one whole message to the receiver. */
  lemma FrameFramed(m: seq<Byte> -> Option<Header>, kind: seq<Byte> -> LineKind, ls: seq<seq<Byte>>, body: seq<Byte>, h: Header)
    requires forall b :: m(b) == MatchHeader(kind, b)
    requires SenderHeader(kind, ls, |body|) && NoCrLf(body)
    requires h == Header(|body|, CharsetAfter(kind, None, ls[1..]), |Lines(ls)| + 2)
    requires h.charset.None? || IsAscii(h.charset.value)
    ensures Framed(m, Frame(ls, body), h) && Frame(ls, body)[h.bodyStart..] == body
  {
    var f := Frame(ls, body);
    forall j | 0 <= j <= |f|
      ensures m(f[..j]) == if j < h.bodyStart then None else Some(h)
    {
      MatchFramePrefix(kind, ls, body, j);
    }
    FrameBody(ls, body);
  }

  /** The body of a frame sits right after the header and the empty line. */
  lemma WholeSlices<T>(f: seq<T>)
    ensures f[..0] == [] && f[0..] == f
  {
  }

  lemma FrameBody(ls: seq<seq<Byte>>, body: seq<Byte>)
    ensures var f := Frame(ls, body); var hl := |Lines(ls)| + 2;
      |f| == hl + |body| && f[hl..] == body
  {
  }

  /** A sent frame, in any chunks, is handed on whole: its body, with the
      charset its header names. */
  lemma FeedFrame(m: seq<Byte> -> Option<Header>, kind: seq<Byte> -> LineKind, ls: seq<seq<Byte>>, body: seq<Byte>, chunks: seq<seq<Byte>>)
    requires forall b :: m(b) == MatchHeader(kind, b)
    requires SenderHeader(kind, ls, |body|) && NoCrLf(body)
    requires var cs := CharsetAfter(kind, None, ls[1..]); cs.None? || IsAscii(cs.value)
    requires Flatten(chunks) == Frame(ls, body)
    ensures FeedAll(m, [], chunks)
         == FeedOutcome([], [Received(body, Decoding(CharsetAfter(kind, None, ls[1..])))], false)
  {
    var f := Frame(ls, body);
    var h := Header(|body|, CharsetAfter(kind, None, ls[1..]), |Lines(ls)| + 2);
    FrameFramed(m, kind, ls, body, h);
    WholeSlices(f);
    FeedFramedChunks(m, f, h, 0, chunks);
  }

  lemma ContentLengthLineKind(n: nat)
    ensures NoBreak(Ascii(ContentLengthLine(n)))
    ensures Classify(Ascii(ContentLengthLine(n))) == LengthLine(n)
  {
    AsciiNoBreak(ContentLengthLine(n));
    CharsOfAscii(ContentLengthLine(n));
    ContentLengthLineValue(n);
  }

  lemma ContentTypeLineNotLength()
    ensures ContentLengthValue(ContentTypeLine) == None
  {
    assert ContentTypeLine[8] == 'T';
    assert "Content-Length:"[8] == 'L';
  }

  lemma ContentTypeLineKind()
    ensures IsAscii(ContentTypeLine) && Ascii(ContentTypeLine) != [] && NoBreak(Ascii(ContentTypeLine))
    ensures Classify(Ascii(ContentTypeLine)) == OtherLine(Some(DefaultCharset))
  {
    ContentTypeLineText();
    AsciiNoBreak(ContentTypeLine);
    CharsOfAscii(ContentTypeLine);
    ContentTypeLineNotLength();
    ContentTypeLineCharset(ContentType, DefaultCharset);
  }

  lemma DefaultCharsetAscii()
    ensures IsAscii(DefaultCharset)
  {
  }

  /** Two header lines, a `Content-Length` line and another line, make a
      sender's header; the charset read from it is the one the second names. */
  lemma TwoLineHeader(kind: seq<Byte> -> LineKind, ls: seq<seq<Byte>>, n: nat)
    requires |ls| == 2 && ls[0] != [] && ls[1] != [] && NoBreak(ls[0]) && NoBreak(ls[1])
    requires kind(ls[0]) == LengthLine(n) && kind(ls[1]).OtherLine?
    ensures SenderHeader(kind, ls, n)
    ensures CharsetAfter(kind, None, ls[1..]) == kind(ls[1]).charset
  {
    assert ls[1..] == [ls[1]];
    assert ls[1..][1..] == [];
  }

  /** A lone `Content-Length` line makes a sender's header that names no charset. */
  lemma OneLineHeader(kind: seq<Byte> -> LineKind, ls: seq<seq<Byte>>, n: nat)
    requires |ls| == 1 && ls[0] != [] && NoBreak(ls[0]) && kind(ls[0]) == LengthLine(n)
    ensures SenderHeader(kind, ls, n)
    ensures CharsetAfter(kind, None, ls[1..]) == None
  {
    assert ls[1..] == [];
  }

  /** Whatever the chunks a frame written by the language server arrives in,
      the receiver hands on exactly its body, decoded as UTF-8, and keeps no
      bytes buffered. */
  lemma JsonRpcRoundTrip(body: seq<Byte>, chunks: seq<seq<Byte>>)
    requires NoCrLf(body)
    requires Flatten(chunks) == Frame(JsonRpcHeaderLines(|body|), body)
    ensures FeedAll(Pattern, [], chunks) == FeedOutcome([], [Received(body, DefaultCharset)], false)
  {
    var ls := JsonRpcHeaderLines(|body|);
    ContentLengthLineKind(|body|);
    ContentTypeLineKind();
    TwoLineHeader(Classify, ls, |body|);
    DefaultCharsetAscii();
    FeedFrame(Pattern, Classify, ls, body, chunks);
  }

  /** The same for a frame written by the debug adapter, whose header names no
      charset, so the default applies. */
  lemma DapRoundTrip(body: seq<Byte>, chunks: seq<seq<Byte>>)
    requires NoCrLf(body)
    requires Flatten(chunks) == Frame(DapHeaderLines(|body|), body)
    ensures FeedAll(Pattern, [], chunks) == FeedOutcome([], [Received(body, DefaultCharset)], false)
  {
    var ls := DapHeaderLines(|body|);
    ContentLengthLineKind(|body|);
    OneLineHeader(Classify, ls, |body|);
    FeedFrame(Pattern, Classify, ls, body, chunks);
  }
}
