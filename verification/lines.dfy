/**
 * What the tokenizer makes of conventionally shaped lines
 * `<PRI>TIMESTAMP HOST NAME[PID]: MSG`, for every choice of the fields.
 */
module Rfc3164SimpleLines {

  import opened Bytes
  import opened Syslog
  import opened Scan
  import opened Rfc3164Simple

  /** The optional `[PID]` suffix of a tag. */
  function PidText(pid: Option<seq<byte>>): seq<byte> {
    match pid
    case None => []
    case Some(digits) => [LBRACKET] + digits + [RBRACKET]
  }

  /** The tag part of a line: the name, the optional `[PID]`, then the byte that ends the tag. */
  function TagText(name: seq<byte>, pid: Option<seq<byte>>, end: byte): seq<byte> {
    name + PidText(pid) + [end]
  }

  /** The shape of a line the tag scan is meant for. */
  predicate WellFormedTag(name: seq<byte>, pid: Option<seq<byte>>) {
    PlainTagText(name) && (pid.Some? ==> PlainTagText(pid.value))
  }

  /** A field of non-space bytes closed by one space is skipped in full. */
  lemma SkipsWholeField(buff: seq<byte>, i: int, field: seq<byte>)
    requires 0 <= i && i + |field| + 1 <= |buff|
    requires buff[i..i + |field| + 1] == field + [SPACE]
    requires NoSpace(field)
    ensures EndOfField(buff, i, |buff|) == i + |field| + 1
  {
    var l := |buff|;
    forall k | i <= k < i + |field|
      ensures buff[k] != SPACE
    {
      assert buff[k] == buff[i..i + |field| + 1][k - i] == field[k - i];
    }
    assert buff[i + |field|] == buff[i..i + |field| + 1][|field|] == SPACE;
    assert FieldEnd(buff, i, i + |field| + 1, l);
    FieldEndUnique(buff, i, EndOfField(buff, i, l), i + |field| + 1, l);
  }

  /** The first tag end is the one no other tag end precedes. */
  lemma FirstTagEndAt(buff: seq<byte>, i: int, d: int)
    requires 0 <= i <= d < |buff| && IsTagEnd(buff[d])
    requires forall k :: i <= k < d ==> !IsTagEnd(buff[k])
    ensures FirstTagEnd(buff, i, |buff|) == Some(d)
  {
  }

  /** The last bracket is the one no other bracket follows. */
  lemma LastBracketAt(buff: seq<byte>, from: int, e: int, i: int)
    requires 0 <= from <= e < i <= |buff| && buff[e] == LBRACKET
    requires forall k :: e < k < i ==> buff[k] != LBRACKET
    ensures LastBracketIn(buff, from, i) == Some(e)
  {
  }

  /** The byte classes along the tag text of a well-formed tag. */
  lemma TagTextBytes(name: seq<byte>, pid: Option<seq<byte>>, end: byte)
    requires WellFormedTag(name, pid) && IsTagEnd(end)
    ensures var text := TagText(name, pid, end);
      && text[|text| - 1] == end
      && (forall k :: 0 <= k < |text| - 1 ==> !IsTagEnd(text[k]))
      && (forall k :: 0 <= k < |name| ==> text[k] == name[k])
      && (pid.None? ==> |text| - 1 == |name|)
      && (pid.Some? ==> text[|name|] == LBRACKET)
      && (forall k :: |name| < k < |text| ==> text[k] != LBRACKET)
  {
  }

  /**
   * The tag of `NAME[PID]:` or `NAME:` (or the same closed by a space) is
   * `NAME`, and the scan resumes just past the byte that closed it.
   */
  lemma ScansConventionalTag(buff: seq<byte>, h: int, name: seq<byte>, pid: Option<seq<byte>>, end: byte)
    requires 0 <= h && h + |TagText(name, pid, end)| <= |buff|
    requires buff[h..h + |TagText(name, pid, end)|] == TagText(name, pid, end)
    requires WellFormedTag(name, pid) && IsTagEnd(end)
    ensures TagReference(buff, h, |buff|) == TagAt(name, h + |TagText(name, pid, end)|)
  {
    var text := TagText(name, pid, end);
    var d := h + |text| - 1;
    var e := h + |name|;
    TagTextBytes(name, pid, end);
    forall k | h <= k < h + |text|
      ensures buff[k] == text[k - h]
    {
      assert buff[k] == buff[h..h + |text|][k - h];
    }
    FirstTagEndAt(buff, h, d);
    if pid.None? {
      assert LastBracketIn(buff, h, d).None?;
    } else {
      LastBracketAt(buff, h, e, d);
    }
    assert buff[h..e] == name;
  }

  /**
   * In `MARKER TS' ' HOST' ' REST` the timestamp skip from the end of the
   * marker stops after TS's space and the hostname skip after HOST's.
   */
  lemma SkipsHeader(marker: seq<byte>, ts: seq<byte>, host: seq<byte>, rest: seq<byte>)
    requires NoSpace(ts) && NoSpace(host)
    ensures
      var buff := marker + (ts + [SPACE]) + (host + [SPACE]) + rest;
      var t := |marker| + |ts| + 1;
      var h := t + |host| + 1;
      && EndOfField(buff, |marker|, |buff|) == t
      && EndOfField(buff, t, |buff|) == h
      && buff[|marker|..t] == ts + [SPACE]
      && buff[h..] == rest
  {
    var buff := marker + (ts + [SPACE]) + (host + [SPACE]) + rest;
    var c := |marker|;
    var t := c + |ts| + 1;
    var h := t + |host| + 1;
    assert buff[c..t] == ts + [SPACE];
    assert buff[t..h] == host + [SPACE];
    assert buff[h..] == rest;
    SkipsWholeField(buff, c, ts);
    SkipsWholeField(buff, t, host);
  }

  /**
   * Composing a line from its fields and parsing it gives the fields back:
   * the tag is the name without its PID, the hostname is dropped, and the
   * content is the timestamp and its space followed by everything from the
   * tag on.
   */
  lemma {:induction false} ParsesConventionalLine(
    marker: seq<byte>, ts: seq<byte>, host: seq<byte>, name: seq<byte>,
    pid: Option<seq<byte>>, end: byte, msg: seq<byte>, pri: Priority, now: Time)
    requires NoSpace(ts) && NoSpace(host) && WellFormedTag(name, pid) && IsTagEnd(end)
    ensures
      var buff := marker + (ts + [SPACE]) + (host + [SPACE]) + (TagText(name, pid, end) + msg);
      ParseMessage(buff, Decoded(pri, |marker|), now)
        == LogParts(ZeroTime, [], name, (ts + [SPACE]) + (TagText(name, pid, end) + msg),
                    pri.p, pri.f.value, pri.s.value)
  {
    var text := TagText(name, pid, end);
    var rest := text + msg;
    var buff := marker + (ts + [SPACE]) + (host + [SPACE]) + rest;
    var t := |marker| + |ts| + 1;
    var h := t + |host| + 1;
    SkipsHeader(marker, ts, host, rest);
    assert buff[h..h + |text|] == rest[..|text|] == text;
    ScansConventionalTag(buff, h, name, pid, end);
    ParsesSkippedLine(buff, |marker|, t, h, name, ts + [SPACE], rest, pri, now);
  }

  /**
   * A line whose last word carries no tag end has no tag: the tag is empty
   * and the content is the timestamp, its space and that word.
   */
  lemma {:induction false} ParsesLineWithoutTag(
    marker: seq<byte>, ts: seq<byte>, host: seq<byte>, word: seq<byte>, pri: Priority, now: Time)
    requires NoSpace(ts) && NoSpace(host) && COLON !in word && SPACE !in word
    ensures
      var buff := marker + (ts + [SPACE]) + (host + [SPACE]) + word;
      ParseMessage(buff, Decoded(pri, |marker|), now)
        == LogParts(ZeroTime, [], [], ts + [SPACE] + word, pri.p, pri.f.value, pri.s.value)
  {
    var buff := marker + (ts + [SPACE]) + (host + [SPACE]) + word;
    var l := |buff|;
    var t := |marker| + |ts| + 1;
    var h := t + |host| + 1;
    SkipsHeader(marker, ts, host, word);
    forall k | h <= k < l
      ensures !IsTagEnd(buff[k])
    {
      assert buff[k] == buff[h..][k - h] == word[k - h];
    }
    assert TagOf(buff, h, l) == [];
    ParsesSkippedLine(buff, |marker|, t, h, [], ts + [SPACE], word, pri, now);
  }

  /**
   * The tag step on a buffer that starts with a tag: the tag is the name, and
   * the cursor ends past the closing byte and past one space after it.
   */
  lemma ParseTagReadsConventionalTag(name: seq<byte>, pid: Option<seq<byte>>, end: byte, msg: seq<byte>)
    requires WellFormedTag(name, pid) && IsTagEnd(end)
    ensures
      var text := TagText(name, pid, end);
      var r := ParseTag(NewParser(text + msg));
      && r.value == name && r.err == Nil
      && r.parser.cursor == |text| + (if 0 < |msg| && msg[0] == SPACE then 1 else 0)
  {
    var text := TagText(name, pid, end);
    var buff := text + msg;
    assert buff[0..|text|] == text;
    ScansConventionalTag(buff, 0, name, pid, end);
    ParseTagMatchesReference(NewParser(buff));
    if 0 < |msg| {
      assert buff[|text|] == msg[0];
    }
  }

  /**
   * With a priority, the content keeps the tag: it is the skipped timestamp
   * text, then the tag, then the rest of the line after the tag.
   */
  lemma ContentKeepsTag(buff: seq<byte>, pri: Priority, c: int, now: Time)
    requires 0 <= c <= |buff|
    ensures
      var parts := ParseMessage(buff, Decoded(pri, c), now);
      var t := EndOfField(buff, c, |buff|);
      var h := EndOfField(buff, t, |buff|);
      parts.content == buff[c..t] + parts.tag + buff[h + |parts.tag|..]
  {
  }

  /** `ParseMessage` once the two field ends and the tag are known. */
  lemma ParsesSkippedLine(buff: seq<byte>, c: int, t: int, h: int, name: seq<byte>,
                          stamp: seq<byte>, rest: seq<byte>, pri: Priority, now: Time)
    requires 0 <= c <= t <= h <= |buff|
    requires EndOfField(buff, c, |buff|) == t && EndOfField(buff, t, |buff|) == h
    requires TagOf(buff, h, |buff|) == name
    requires buff[c..t] == stamp && buff[h..] == rest
    ensures ParseMessage(buff, Decoded(pri, c), now)
              == LogParts(ZeroTime, [], name, stamp + rest, pri.p, pri.f.value, pri.s.value)
  {
  }
}
