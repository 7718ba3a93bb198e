/**
 * Inputs of the repository's unit tests and what the tokenizer makes of
 * them. (The full priority-bearing test lines are covered by the general
 * lemmas of `Rfc3164SimpleLines`.)
 */
module Rfc3164SimpleTestVectors {

  import opened Bytes
  import opened Syslog
  import opened Scan
  import opened Rfc3164Simple
  import opened Rfc3164SimpleLines

  const Stamp: seq<byte> := "2018-01-12T22:14:15+00:00"

  /** A line without a priority marker is all content, with the default priority. */
  lemma LineWithoutPriority(failedAt: int, now: Time)
    requires 0 <= failedAt <= |Stamp + " Testing no priority"|
    ensures
      var line := Stamp + " Testing no priority";
      ParseMessage(line, DecodeFailed(failedAt), now) == LogParts(now, [], [], line, 13, 1, 5)
  {
  }

  /** `apache2[10]:`: the tag is `apache2` and the cursor ends at the end of the buffer. */
  lemma TagWithPid()
    ensures ParseTag(NewParser("apache2" + "[10]:")) == Step("apache2", Nil, NewParser("apache2" + "[10]:").(cursor := 12))
  {
    assert TagText("apache2", Some("10"), COLON) == "apache2" + "[10]:";
    ParseTagReadsConventionalTag("apache2", Some("10"), COLON, []);
    assert "apache2" + "[10]:" + [] == "apache2" + "[10]:";
  }

  /** `apache2:` gives the tag `apache2`, cursor at the end. */
  lemma TagWithoutPid()
    ensures ParseTag(NewParser("apache2:")) == Step("apache2", Nil, NewParser("apache2:").(cursor := 8))
  {
    assert TagText("apache2", None, COLON) == "apache2:";
    ParseTagReadsConventionalTag("apache2", None, COLON, []);
    assert "apache2:" + [] == "apache2:";
  }

  /** `apache2: `: the space after the colon is consumed too. */
  lemma TagWithTrailingSpace()
    ensures ParseTag(NewParser("apache2: ")) == Step("apache2", Nil, NewParser("apache2: ").(cursor := 9))
  {
    assert TagText("apache2", None, COLON) + " " == "apache2: ";
    ParseTagReadsConventionalTag("apache2", None, COLON, " ");
  }

  /** `apache2`: no tag end, so no tag, and the cursor is put back to 0. */
  lemma NoTagRewinds()
    ensures ParseTag(NewParser("apache2")) == Step([], Nil, NewParser("apache2"))
  {
  }

  /** Content extraction on a fresh parser answers the whole buffer with the end-of-line sentinel. */
  lemma ContentOfFreshParser()
    ensures
      var r := ParseContent(NewParser(" foo bar baz quux "));
      r.value == " foo bar baz quux " && r.err == ErrEOL
  {
  }
}
