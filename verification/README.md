# Relaxed RFC 3164 tokenizer, modelled in Dafny

This project models the single-message tokenizer of the `rfc3164_simple`
syslog parser. The tokenizer walks one message's bytes with a cursor and fills
a record of fields: timestamp, hostname, tag, content, priority, facility and
severity.

- **Priority present.** The priority decoder moves the cursor past `<N>`.
  The timestamp field and the hostname field are skipped up to their closing
  spaces. The cut cursor is set after them. The tag is read from the cut
  cursor, and the content is the text builder's contents plus everything from
  the cut cursor on.
- **Priority absent.** The default priority 13 (facility 1, severity 5) of
  section 4.3.3 of RFC 3164 is used. The content is the whole message and the
  timestamp is the wall-clock reading.

The text builder is not dead state. The timestamp skip writes the skipped
bytes, closing space included, into it. Content extraction then appends to
it. So in the priority-present branch the content is the timestamp text and
its space, followed by the text from the cut cursor on. The code and its
unit tests show that the builder shapes the content, so the model keeps it.

Layout:

- `bytes.dfy` (`Bytes`): the byte type, the separator bytes and the byte classes.
- `syslog.dfy` (`Syslog`): the shared package types. These are the priority,
  the `ErrEOL` sentinel, the time and version fields, the output record, and
  the priority decoder's answer.
- `scan.dfy` (`Scan`): the byte scans as pure functions of `(buffer, position)`.
  Each has a declarative contract. `TagLoop` mirrors the source's tag loop with
  its `found` flag and is proved equal to the reference `TagReference`. That
  reference is built from the first tag end and the last `[`.
- `rfc3164_simple.dfy` (`Rfc3164Simple`): the parser state and every step as a
  function from state to state. It also has the imperative byte loops of the
  source, proved equal to the functions.
- `lines.dfy` (`Rfc3164SimpleLines`): what parsing does to lines of the
  conventional shape `<PRI>TIMESTAMP HOST NAME[PID]: MSG`.
- `test_vectors.dfy` (`Rfc3164SimpleTestVectors`): inputs from the unit tests.

The priority decoder is not part of this model. Its answer at the parser's
cursor is a parameter of `Parse` (`PriorityDecode`). It is either a priority
with the cursor just past the marker, or a failure with wherever the decoder
left the cursor. In both cases the cursor may only move forward, and never
past the end of the buffer (`DecoderContract`). The wall-clock reading taken
in the fallback branch is the parameter `now`.

## Model

| member | source | states |
|---|---|---|
| Rfc3164Simple.NewParser | internal/syslogparser/rfc3164_simple/rfc3164_simple.go:33-40 | a new parser has the buffer, cursor 0, `l` equal to the buffer length, an empty builder, and an empty tag, content and hostname with zero timestamp, priority and version; the state invariant holds |
| Rfc3164Simple.ParseTimestamp | internal/syslogparser/rfc3164_simple/rfc3164_simple.go:99-110 | the cursor moves one past the first space at or after it, or to `l` if there is none; exactly the skipped bytes, that space included, are appended to the builder; nothing else changes; a cursor at or past `l` leaves the state unchanged |
| Rfc3164Simple.ParseHostname | internal/syslogparser/rfc3164_simple/rfc3164_simple.go:112-121 | the cursor moves one past the next space, or to `l`; the builder and every other field stay unchanged |
| Rfc3164Simple.ParseTag | internal/syslogparser/rfc3164_simple/rfc3164_simple.go:123-169 | the error is always nil and only the cursor changes, staying within `[from, l]`; with no `:` or space before `l`, the tag is empty and the cursor is back at its start, even if a `[` was seen; otherwise the tag runs from the start to the last `[` before the first `:`/space, or to that delimiter, and the cursor ends one past the delimiter, plus one if a space follows |
| Rfc3164Simple.ParseTagMatchesReference | internal/syslogparser/rfc3164_simple/rfc3164_simple.go:123-169 | for every starting state, the tag step answers the tag found by the reference scan (first `:`/space, last `[` before it) and moves only the cursor, to the starting point when there is no tag and otherwise past the delimiter and one following space |
| Rfc3164Simple.ParseContent | internal/syslogparser/rfc3164_simple/rfc3164_simple.go:171-180 | the error is always `ErrEOL`; with the cursor within the buffer, the result and the new builder are the old builder followed by the bytes from the cut cursor to the end; past the end, the builder's text is returned unchanged |
| Rfc3164Simple.Parse | internal/syslogparser/rfc3164_simple/rfc3164_simple.go:46-81 | the result is always nil and the state invariant is kept; if the decoder fails, the priority is 13/1/5, the tag is empty, the content is the builder plus the buffer from the starting cursor, the timestamp is `now` and the rest of the header is unchanged; if it succeeds, the priority is the decoded one, the version is "no version", the header is zero time and empty hostname, the cut cursor is after the hostname, the tag is the tag read there, and the content is the timestamp text with its space followed by everything from the cut cursor |
| Rfc3164Simple.ParseLeavesCursorAndBuilder | internal/syslogparser/rfc3164_simple/rfc3164_simple.go:46-81 | the rest of the state `Parse` leaves: without a priority, the cursor stays where the decoder left it; with one, the cursor is where the tag step stopped after the hostname (the starting point when no tag was found, otherwise past the tag delimiter and one space after it); in both branches the builder holds exactly the content |
| Rfc3164Simple.Dump | internal/syslogparser/rfc3164_simple/rfc3164_simple.go:83-93 | each key of the record carries the matching field of the state; the state is an input only, so repeated dumps are identical |
| Rfc3164Simple.ParseMessage | internal/syslogparser/rfc3164_simple/rfc3164_simple.go:33-93 | fresh parser, `Parse`, `Dump`: without a priority the record is (now, "", "", whole message, 13, 1, 5); with one it is (zero time, "", tag after the hostname, timestamp text and space plus the text from the tag on, decoded priority) |
| Rfc3164Simple.SkipTimestamp | internal/syslogparser/rfc3164_simple/rfc3164_simple.go:100-110 | the source's byte-by-byte loop, appending to the builder and breaking after the space, computes exactly `ParseTimestamp` |
| Rfc3164Simple.SkipHostname | internal/syslogparser/rfc3164_simple/rfc3164_simple.go:112-121 | the source's byte loop computes exactly `ParseHostname` |
| Rfc3164Simple.ScanTag | internal/syslogparser/rfc3164_simple/rfc3164_simple.go:124-169 | the source's tag loop, with its `found` flag, overwrite at every `[`, rewind at the end of the buffer and extra space skip, computes exactly `ParseTag` |
| Scan.EndOfField | internal/syslogparser/rfc3164_simple/rfc3164_simple.go:103-109 | the field skip stops one past the first space, with no space before it, or at `l` when there is none |
| Scan.FirstTagEnd | internal/syslogparser/rfc3164_simple/rfc3164_simple.go:141-158 | the first `:` or space at or after a position, or none exactly when no such byte exists before `l` |
| Scan.LastBracketIn | internal/syslogparser/rfc3164_simple/rfc3164_simple.go:146-149 | the last `[` in a range, or none exactly when the range holds none |
| Scan.NameEndWithoutBracket | internal/syslogparser/rfc3164_simple/rfc3164_simple.go:146-155 | the tag name runs up to the delimiter itself exactly when no `[` lies between the tag start and the delimiter; otherwise it stops at a `[` |
| Scan.TagLoop | internal/syslogparser/rfc3164_simple/rfc3164_simple.go:132-162 | from any intermediate loop state, the tag loop yields the reference answer: no tag when no delimiter is left, else the name cut at the last `[` or at the delimiter, with the position past the delimiter |
| Rfc3164SimpleLines.ParsesConventionalLine | internal/syslogparser/rfc3164_simple/rfc3164_simple_test.go:21-79 | for any line `<PRI>TS HOST NAME[PID]:MSG` or `... NAME MSG` whose fields hold no separators, the record has the name as tag (the PID cut off), an empty hostname and zero time, and the content `TS NAME[PID]:MSG` |
| Rfc3164SimpleLines.ParsesLineWithoutTag | internal/syslogparser/rfc3164_simple/rfc3164_simple_test.go:111-139 | for `<PRI>TS HOST WORD` where WORD holds no `:` or space, the tag is empty and the content is `TS WORD` |
| Rfc3164SimpleLines.ContentKeepsTag | internal/syslogparser/rfc3164_simple/rfc3164_simple.go:68-73 | with a priority, the content is the timestamp text, then the tag, then the rest of the line after the tag: the cut cursor is set before the tag is read |
| Rfc3164SimpleLines.ParseTagReadsConventionalTag | internal/syslogparser/rfc3164_simple/rfc3164_simple.go:124-169 | on `NAME[PID]:` or `NAME:` followed by anything, the tag is NAME and the cursor ends after the delimiter and after one following space |
| Rfc3164SimpleTestVectors.LineWithoutPriority | internal/syslogparser/rfc3164_simple/rfc3164_simple_test.go:173-205 | a line without a priority gives priority 13, facility 1, severity 5, empty tag and hostname, the whole line as content and `now` as timestamp, wherever the failed decoder left the cursor |
| Rfc3164SimpleTestVectors.TagWithPid | internal/syslogparser/rfc3164_simple/rfc3164_simple_test.go:207-212 | `apache2[10]:` gives the tag `apache2` and cursor 12 |
| Rfc3164SimpleTestVectors.TagWithoutPid | internal/syslogparser/rfc3164_simple/rfc3164_simple_test.go:214-219 | `apache2:` gives the tag `apache2` and cursor 8 |
| Rfc3164SimpleTestVectors.TagWithTrailingSpace | internal/syslogparser/rfc3164_simple/rfc3164_simple_test.go:221-226 | `apache2: ` gives the tag `apache2` and cursor 9 |
| Rfc3164SimpleTestVectors.NoTagRewinds | internal/syslogparser/rfc3164_simple/rfc3164_simple_test.go:228-233 | `apache2` gives no tag and leaves the cursor at 0 |
| Rfc3164SimpleTestVectors.ContentOfFreshParser | internal/syslogparser/rfc3164_simple/rfc3164_simple_test.go:235-243 | content extraction on a fresh parser answers the whole buffer with `ErrEOL` |

## Left out

- `syslogparser.ParsePriority` (rfc3164_simple.go:95-97): its code is not part of this model. Its answer is a parameter bounded by `DecoderContract`. The facility and severity values for a given code come from it.
- `time.Now().Round(time.Second)` (rfc3164_simple.go:53): it reads the wall clock, so the rounded reading is the parameter `now`.
- `Location` and the `location` field (rfc3164_simple.go:17, 42-44): the value is stored but never read while parsing.
- `syslogparser.NO_VERSION`: its value is defined outside this file, so the version field is a datatype with a `NoVersion` case.
- Panics: Go panics if `parseTag` is called with the cursor past `l`, or if `parseContent` is called with the cut cursor outside the buffer. These calls never happen in `Parse`, so they are preconditions of `ParseTag` and `ParseContent`.
- `format/rfc3164_simple.go`: the format-dispatch wrapper constructs a parser and has no logic of its own.
- The `TestParser_TrimTimestamp` expectation (rfc3164_simple_test.go:81-109): it expects a `time="..."` fragment to be removed from the content. Nothing in the tokenizer does that, so the model does not claim it.
- The priority-bearing test lines as literal strings (rfc3164_simple_test.go:21-171): they are covered through the general lemmas `ParsesConventionalLine` and `ParsesLineWithoutTag`, not as concrete instances. The `<14>INFO    leaving ...` line is the instance with an empty hostname and an empty name closed by a space.
