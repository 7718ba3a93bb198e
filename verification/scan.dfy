/**
 * The byte scans the tokenizer performs over the immutable buffer, as pure
 * functions of `(buff, position)`. `l` is the buffer length the parser keeps
 * beside its buffer; it always equals `|buff|`.
 */
module Scan {

  import opened Bytes
  import opened Syslog

  /**
   * `end` closes the space-terminated field that starts at `from`: every byte
   * before the last one skipped is not a space, and the last one skipped is a
   * space unless the field runs to the end of the buffer.
   */
  predicate FieldEnd(buff: seq<byte>, from: int, end: int, l: int)
    requires l == |buff| && 0 <= from
  {
    from < end <= l
    && (forall k :: from <= k < end - 1 ==> buff[k] != SPACE)
    && (buff[end - 1] == SPACE || end == l)
  }

  /**
   * The cursor after skipping a field: one past the first space at or after
   * `i`, or `l` when there is none. A cursor already at or past `l` stays put.
   */
  function EndOfField(buff: seq<byte>, i: int, l: int): (end: int)
    requires l == |buff| && 0 <= i
    ensures i >= l ==> end == i
    ensures i < l ==> FieldEnd(buff, i, end, l)
    decreases l - i
  {
    if i >= l then i
    else if buff[i] == SPACE then i + 1
    else EndOfField(buff, i + 1, l)
  }

  /** A field has only one end. */
  lemma FieldEndUnique(buff: seq<byte>, from: int, e1: int, e2: int, l: int)
    requires l == |buff| && 0 <= from
    requires FieldEnd(buff, from, e1, l) && FieldEnd(buff, from, e2, l)
    ensures e1 == e2
  {
  }

  /** The first byte at or after `i` that ends a tag, if any. */
  function FirstTagEnd(buff: seq<byte>, i: int, l: int): (r: Option<int>)
    requires l == |buff| && 0 <= i <= l
    ensures r.None? <==> forall k :: i <= k < l ==> !IsTagEnd(buff[k])
    ensures r.Some? ==> i <= r.value < l && IsTagEnd(buff[r.value])
    ensures r.Some? ==> forall k :: i <= k < r.value ==> !IsTagEnd(buff[k])
    decreases l - i
  {
    if i == l then None
    else if IsTagEnd(buff[i]) then Some(i)
    else FirstTagEnd(buff, i + 1, l)
  }

  /** The last `[` in `buff[from..i]`, if any. */
  function LastBracketIn(buff: seq<byte>, from: int, i: int): (r: Option<int>)
    requires 0 <= from <= i <= |buff|
    ensures r.None? <==> forall k :: from <= k < i ==> buff[k] != LBRACKET
    ensures r.Some? ==> from <= r.value < i && buff[r.value] == LBRACKET
    ensures r.Some? ==> forall k :: r.value < k < i ==> buff[k] != LBRACKET
    decreases i - from
  {
    if i == from then None
    else if buff[i - 1] == LBRACKET then Some(i - 1)
    else LastBracketIn(buff, from, i - 1)
  }

  /**
   * Where the tag name stops when the tag ends at `d`: at the last `[` before
   * `d` (the name of `name[pid]:`), or at `d` itself.
   */
  function NameEnd(buff: seq<byte>, from: int, d: int): (e: int)
    requires 0 <= from <= d <= |buff|
    ensures from <= e <= d
    ensures e < d ==> buff[e] == LBRACKET
    ensures forall k :: e < k < d ==> buff[k] != LBRACKET
  {
    match LastBracketIn(buff, from, d)
    case None => d
    case Some(e) => e
  }

  /** The name runs all the way to the tag end exactly when no `[` precedes it. */
  lemma NameEndWithoutBracket(buff: seq<byte>, from: int, d: int)
    requires 0 <= from <= d <= |buff|
    ensures NameEnd(buff, from, d) == d <==> forall k :: from <= k < d ==> buff[k] != LBRACKET
  {
  }

  /**
   * The outcome of looking for a tag: none, or its name and the position just
   * past the byte that ended it.
   */
  datatype TagScan = NoTag | TagAt(name: seq<byte>, after: int)

  /** The tag that starts at `from`, stated through the first tag end and the last bracket. */
  function TagReference(buff: seq<byte>, from: int, l: int): TagScan
    requires l == |buff| && 0 <= from <= l
  {
    match FirstTagEnd(buff, from, l)
    case None => NoTag
    case Some(d) => TagAt(buff[from..NameEnd(buff, from, d)], d + 1)
  }

  /** The tag name found from `from`, empty when there is no tag. */
  function TagOf(buff: seq<byte>, from: int, l: int): seq<byte>
    requires l == |buff| && 0 <= from <= l
  {
    match TagReference(buff, from, l)
    case NoTag => []
    case TagAt(name, _) => name
  }

  /**
   * Where reading resumes after the tag found from `from`: `from` itself when
   * there is no tag, otherwise past the byte that ended it and one space
   * after that.
   */
  function CursorAfterTag(buff: seq<byte>, from: int, l: int): int
    requires l == |buff| && 0 <= from <= l
  {
    match TagReference(buff, from, l)
    case NoTag => from
    case TagAt(_, after) => if after < l && buff[after] == SPACE then after + 1 else after
  }

  /**
   * The tag scan as the parser performs it: one byte at a time from `i`, with
   * `tag`/`found` recording the name cut at the latest `[`; a tag end closes
   * the scan, and reaching `l` means there is no tag at all.
   */
  function TagLoop(buff: seq<byte>, from: int, i: int, l: int, tag: seq<byte>, found: bool): (r: TagScan)
    requires l == |buff| && 0 <= from <= i <= l
    requires forall k :: from <= k < i ==> !IsTagEnd(buff[k])
    requires found <==> LastBracketIn(buff, from, i).Some?
    requires found ==> tag == buff[from..LastBracketIn(buff, from, i).value]
    ensures r == TagReference(buff, from, l)
    decreases l - i
  {
    if i == l then NoTag
    else
      var b := buff[i];
      var tag' := if b == LBRACKET then buff[from..i] else tag;
      var found' := found || b == LBRACKET;
      if IsTagEnd(b) then
        TagAt(if found' then tag' else buff[from..i], i + 1)
      else
        TagLoop(buff, from, i + 1, l, tag', found')
  }
}
