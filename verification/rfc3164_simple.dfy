/**
 * The relaxed RFC 3164 tokenizer: a parser state over one message's bytes,
 * the steps `Parse` runs on it, and the record `Dump` reads out of it.
 *
 * Each step takes the state and returns the next one; the cursor (and the
 * text builder that accumulates content) are threaded explicitly instead of
 * being mutated in place.
 */
module Rfc3164Simple {

  import opened Bytes
  import opened Syslog
  import opened Scan

  datatype Header = Header(timestamp: Time, hostname: seq<byte>)

  datatype Message = Message(tag: seq<byte>, content: seq<byte>)

  /**
   * The parser state. `sb` is the text builder: the timestamp skip writes
   * into it and content extraction appends to it, so it is part of the
   * observable result. The time zone setting is not modelled (never read).
   */
  datatype Parser = Parser(
    buff: seq<byte>,
    cursor: int,
    l: int,
    priority: Priority,
    version: Version,
    header: Header,
    message: Message,
    cutCursor: int,
    sb: seq<byte>)

  /** A step that yields a value and an error besides the next state. */
  datatype Step<T> = Step(value: T, err: Err, parser: Parser)

  /** The state invariant `Parse` keeps: `l` is the buffer length and both cursors lie within it. */
  predicate Valid(p: Parser) {
    p.l == |p.buff| && 0 <= p.cursor <= p.l && 0 <= p.cutCursor <= p.l
  }

  /**
   * What the priority decoder may do to the cursor: move it forward, never
   * past the end of the buffer.
   */
  predicate DecoderContract(p: Parser, d: PriorityDecode) {
    p.cursor <= d.cursor <= p.l
  }

  /** `after` is `before` followed by the bytes `buff[from..to]`. */
  predicate Appended(before: seq<byte>, after: seq<byte>, buff: seq<byte>, from: int, to: int) {
    0 <= from <= to <= |buff| && after == before + buff[from..to]
  }

  function NewParser(buff: seq<byte>): (p: Parser)
    ensures Valid(p)
    ensures p.buff == buff && p.l == |buff| && p.cursor == 0 && p.cutCursor == 0
    ensures p.sb == []
    ensures p.message == Message([], []) && p.header == Header(ZeroTime, [])
    ensures p.priority == ZeroPriority && p.version == VersionNumber(0)
  {
    Parser(buff, 0, |buff|, ZeroPriority, VersionNumber(0), Header(ZeroTime, []), Message([], []), 0, [])
  }

  /**
   * Skips the timestamp: moves the cursor past the first space at or after
   * it, writing every skipped byte (the space included) into the builder.
   */
  function ParseTimestamp(p: Parser): (q: Parser)
    requires p.l == |p.buff| && 0 <= p.cursor
    ensures q == p.(cursor := q.cursor, sb := q.sb)
    ensures p.cursor >= p.l ==> q == p
    ensures p.cursor < p.l ==> FieldEnd(p.buff, p.cursor, q.cursor, p.l)
    ensures p.cursor < p.l ==> Appended(p.sb, q.sb, p.buff, p.cursor, q.cursor)
  {
    if p.cursor >= p.l then p
    else
      var stop := EndOfField(p.buff, p.cursor, p.l);
      p.(cursor := stop, sb := p.sb + p.buff[p.cursor..stop])
  }

  /** Skips the hostname: moves the cursor past the next space; nothing is recorded. */
  function ParseHostname(p: Parser): (q: Parser)
    requires p.l == |p.buff| && 0 <= p.cursor
    ensures q == p.(cursor := q.cursor)
    ensures p.cursor >= p.l ==> q == p
    ensures p.cursor < p.l ==> FieldEnd(p.buff, p.cursor, q.cursor, p.l)
  {
    p.(cursor := EndOfField(p.buff, p.cursor, p.l))
  }

  /**
   * Reads the tag (section 4.1.3 of RFC 3164). Without a tag end before the
   * end of the buffer there is no tag and the cursor is put back where it
   * was, whatever brackets were seen. Otherwise the tag is cut at the last `[`
   * before the first `:` or space, or at that byte, and the cursor moves past
   * it and past one more space if one follows. The error is always nil.
   */
  function ParseTag(p: Parser): (r: Step<seq<byte>>)
    requires p.l == |p.buff| && 0 <= p.cursor <= p.l
    ensures r.err == Nil
    ensures r.parser == p.(cursor := r.parser.cursor)
    ensures p.cursor <= r.parser.cursor <= p.l
    ensures (forall k :: p.cursor <= k < p.l ==> !IsTagEnd(p.buff[k])) ==>
              r.value == [] && r.parser.cursor == p.cursor
    ensures FirstTagEnd(p.buff, p.cursor, p.l).Some? ==>
              var d := FirstTagEnd(p.buff, p.cursor, p.l).value;
              && r.value == p.buff[p.cursor..NameEnd(p.buff, p.cursor, d)]
              && r.parser.cursor == (if d + 1 < p.l && p.buff[d + 1] == SPACE then d + 2 else d + 1)
  {
    match TagLoop(p.buff, p.cursor, p.cursor, p.l, [], false)
    case NoTag => Step([], Nil, p)
    case TagAt(name, after) =>
      var cursor := if after < p.l && p.buff[after] == SPACE then after + 1 else after;
      Step(name, Nil, p.(cursor := cursor))
  }

  /**
   * The tag step against its reference: it answers the tag `TagReference`
   * finds and resumes where `CursorAfterTag` says, leaving the rest alone.
   */
  lemma ParseTagMatchesReference(p: Parser)
    requires p.l == |p.buff| && 0 <= p.cursor <= p.l
    ensures ParseTag(p) == Step(TagOf(p.buff, p.cursor, p.l), Nil,
                                p.(cursor := CursorAfterTag(p.buff, p.cursor, p.l)))
  {
  }

  /**
   * Extracts the content: appends the bytes from the cut cursor to the end
   * onto the builder and answers the builder's text, always with the
   * end-of-line sentinel. A cursor past the end leaves the builder as it is.
   */
  function ParseContent(p: Parser): (r: Step<seq<byte>>)
    requires p.l == |p.buff|
    requires p.cursor <= p.l ==> 0 <= p.cutCursor <= p.l
    ensures r.err == ErrEOL
    ensures r.parser == p.(sb := r.value)
    ensures p.cursor > p.l ==> r.value == p.sb
    ensures p.cursor <= p.l ==> r.value == p.sb + p.buff[p.cutCursor..]
  {
    if p.cursor > p.l then Step(p.sb, ErrEOL, p)
    else
      var sb := p.sb + p.buff[p.cutCursor..p.l];
      Step(sb, ErrEOL, p.(sb := sb))
  }

  /**
   * Parses the message. `decoded` is the priority decoder's answer at the
   * current cursor and `now` the wall-clock reading the fallback uses.
   *
   * Without a priority the default one is taken and the content is
   * everything from the starting cursor (the whole message for a fresh
   * parser). With one, the timestamp and hostname fields are skipped, the tag
   * is read from the cut cursor set after them, and the content is the
   * skipped timestamp text followed by everything from the cut cursor on.
   * Parsing never reports an error.
   */
  function Parse(p: Parser, decoded: PriorityDecode, now: Time): (r: (Err, Parser))
    requires Valid(p) && DecoderContract(p, decoded)
    ensures r.0 == Nil
    ensures Valid(r.1) && r.1.buff == p.buff
    ensures decoded.DecodeFailed? ==>
              && r.1.priority == DefaultPriority
              && r.1.message == Message([], p.sb + p.buff[p.cursor..])
              && r.1.header == p.header.(timestamp := now)
              && r.1.version == p.version
              && r.1.cutCursor == p.cursor
    ensures decoded.Decoded? ==>
              var c := decoded.cursor;
              var t := EndOfField(p.buff, c, p.l);
              var h := EndOfField(p.buff, t, p.l);
              && c <= t <= h <= r.1.cursor
              && r.1.priority == decoded.pri
              && r.1.version == NoVersion
              && r.1.header == Header(ZeroTime, [])
              && r.1.cutCursor == h
              && r.1.message == Message(TagOf(p.buff, h, p.l), p.buff[c..t] + p.buff[h..])
  {
    var p1 := p.(cutCursor := p.cursor);
    match decoded
    case DecodeFailed(c) =>
      var p2 := p1.(cursor := c, priority := DefaultPriority);
      var content := ParseContent(p2);
      var p3 := content.parser.(header := content.parser.header.(timestamp := now));
      if content.err != ErrEOL then (content.err, p3)
      else (Nil, p3.(message := Message([], content.value)))
    case Decoded(pri, c) =>
      var p2 := p1.(cursor := c, sb := []);
      var p3 := ParseHostname(ParseTimestamp(p2));
      var p4 := p3.(cutCursor := p3.cursor);
      var tag := ParseTag(p4);
      var content := ParseContent(tag.parser);
      (Nil, content.parser.(priority := pri, version := NoVersion,
                            header := Header(ZeroTime, []),
                            message := Message(tag.value, content.value)))
  }

  /**
   * Where a parse leaves the rest of the state: the cursor at the decoder's
   * answer without a priority and where the tag step stopped with one, and
   * the builder holding exactly the content in both branches.
   */
  lemma ParseLeavesCursorAndBuilder(p: Parser, decoded: PriorityDecode, now: Time)
    requires Valid(p) && DecoderContract(p, decoded)
    ensures
      var q := Parse(p, decoded, now).1;
      && q.sb == q.message.content
      && (decoded.DecodeFailed? ==> q.cursor == decoded.cursor)
      && (decoded.Decoded? ==>
            var t := EndOfField(p.buff, decoded.cursor, p.l);
            q.cursor == CursorAfterTag(p.buff, EndOfField(p.buff, t, p.l), p.l))
  {
  }

  /** Reads the fields out of the state; the state itself is not touched. */
  function Dump(p: Parser): (parts: LogParts)
    ensures parts.timestamp == p.header.timestamp && parts.hostname == p.header.hostname
    ensures parts.tag == p.message.tag && parts.content == p.message.content
    ensures parts.priority == p.priority.p
    ensures parts.facility == p.priority.f.value && parts.severity == p.priority.s.value
  {
    LogParts(p.header.timestamp, p.header.hostname, p.message.tag, p.message.content,
             p.priority.p, p.priority.f.value, p.priority.s.value)
  }

  /**
   * One message from bytes to record: a fresh parser, one `Parse`, one
   * `Dump`, as the caller-facing wrapper drives it.
   */
  function ParseMessage(buff: seq<byte>, decoded: PriorityDecode, now: Time): (parts: LogParts)
    requires 0 <= decoded.cursor <= |buff|
    ensures decoded.DecodeFailed? ==> parts == LogParts(now, [], [], buff, 13, 1, 5)
    ensures decoded.Decoded? ==>
              var c := decoded.cursor;
              var t := EndOfField(buff, c, |buff|);
              var h := EndOfField(buff, t, |buff|);
              parts == LogParts(ZeroTime, [], TagOf(buff, h, |buff|), buff[c..t] + buff[h..],
                                decoded.pri.p, decoded.pri.f.value, decoded.pri.s.value)
  {
    Dump(Parse(NewParser(buff), decoded, now).1)
  }

  /** The timestamp skip as the source's byte loop writes it. */
  method SkipTimestamp(p: Parser) returns (q: Parser)
    requires p.l == |p.buff| && 0 <= p.cursor
    ensures q == ParseTimestamp(p)
  {
    q := p;
    while q.cursor < q.l
      invariant q == p.(cursor := q.cursor, sb := q.sb)
      invariant p.cursor <= q.cursor
      invariant q.cursor > p.l ==> q == p
      invariant q.cursor <= p.l ==> q.sb == p.sb + p.buff[p.cursor..q.cursor]
      invariant q.cursor <= p.l ==> EndOfField(p.buff, q.cursor, p.l) == EndOfField(p.buff, p.cursor, p.l)
      decreases q.l - q.cursor
    {
      assert p.buff[p.cursor..q.cursor + 1] == p.buff[p.cursor..q.cursor] + [p.buff[q.cursor]];
      q := q.(sb := q.sb + [q.buff[q.cursor]]);
      if q.buff[q.cursor] == SPACE {
        q := q.(cursor := q.cursor + 1);
        break;
      }
      q := q.(cursor := q.cursor + 1);
    }
  }

  /** The hostname skip as the source's byte loop writes it. */
  method SkipHostname(p: Parser) returns (q: Parser)
    requires p.l == |p.buff| && 0 <= p.cursor
    ensures q == ParseHostname(p)
  {
    q := p;
    while q.cursor < q.l
      invariant q == p.(cursor := q.cursor)
      invariant p.cursor <= q.cursor
      invariant EndOfField(p.buff, q.cursor, p.l) == EndOfField(p.buff, p.cursor, p.l)
      decreases q.l - q.cursor
    {
      if q.buff[q.cursor] == SPACE {
        q := q.(cursor := q.cursor + 1);
        break;
      }
      q := q.(cursor := q.cursor + 1);
    }
  }

  /** The tag scan as the source's loop writes it, rewind included. */
  method ScanTag(p: Parser) returns (tag: seq<byte>, err: Err, q: Parser)
    requires p.l == |p.buff| && 0 <= p.cursor <= p.l
    ensures Step(tag, err, q) == ParseTag(p)
  {
    var from := p.cursor;
    var cursor := p.cursor;
    var found := false;
    tag := [];
    err := Nil;
    while true
      invariant from <= cursor <= p.l
      invariant forall k :: from <= k < cursor ==> !IsTagEnd(p.buff[k])
      invariant found <==> LastBracketIn(p.buff, from, cursor).Some?
      invariant found ==> tag == p.buff[from..LastBracketIn(p.buff, from, cursor).value]
      decreases p.l - cursor
    {
      if cursor == p.l {
        // no tag: the cursor goes back to where the scan started
        assert TagLoop(p.buff, from, cursor, p.l, tag, found) == NoTag;
        q := p;
        tag := [];
        return;
      }
      ghost var scan := TagLoop(p.buff, from, cursor, p.l, tag, found);
      var b := p.buff[cursor];
      if b == LBRACKET {
        tag := p.buff[from..cursor];
        found := true;
      }
      if IsTagEnd(b) {
        if !found {
          tag := p.buff[from..cursor];
          found := true;
        }
        assert scan == TagAt(tag, cursor + 1);
        cursor := cursor + 1;
        break;
      }
      cursor := cursor + 1;
    }
    if cursor < p.l && p.buff[cursor] == SPACE {
      cursor := cursor + 1;
    }
    q := p.(cursor := cursor);
  }
}
