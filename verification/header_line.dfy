/** One header line as `ovf2_readLine` leaves it, and the value of a `key: value` line as
    `hdrVal` finds it. */
module HeaderLine {
  import opened CStrings

  /** The outcome of `ovf2_readLine` on one line that `fgets` returned: whether the line lacked
      the leading `#` (which sets the record's error), and the normalised text. */
  datatype Normalised = Normalised(bad: bool, line: string)

  predicate NotCommentOrEnd(c: char)
  {
    c != '#' && c != '\n'
  }

  /** The shape of every normalised line: no comment character and no line feed, nothing to trim
      at either end, and lower case throughout. */
  predicate NormalForm(s: string)
  {
    && (forall i :: 0 <= i < |s| ==> NotCommentOrEnd(s[i]))
    && NoUpper(s)
    && (|s| > 0 ==> !IsBlank(s[0]) && !IsSpace(s[|s| - 1]))
  }

  /** The length `s` keeps once trailing `isspace` characters are cut off. */
  function TrimmedLength(s: string): (n: nat)
    ensures n <= |s|
    ensures forall i :: n <= i < |s| ==> IsSpace(s[i])
    ensures n > 0 ==> !IsSpace(s[n - 1])
    decreases |s|
  {
    if |s| == 0 || !IsSpace(s[|s| - 1]) then |s| else TrimmedLength(s[..|s| - 1])
  }

  /** The text of a line whose `#` has been blanked: leading blanks stripped, cut at the first
      `#` or line feed, trailing `isspace` characters stripped. The scan for `#` or a line feed
      also stops at the end of the text, where the code as written does not (see
      `LineBuffer.ScanOverrun`). */
  function Text(s0: string): (t: string)
    ensures forall i :: 0 <= i < |t| ==> NotCommentOrEnd(t[i])
    ensures |t| > 0 ==> !IsBlank(t[0]) && !IsSpace(t[|t| - 1])
    ensures |t| <= |s0|
  {
    var s1 := s0[LeadingRun(s0, IsBlank)..];
    var s2 := s1[..LeadingRun(s1, NotCommentOrEnd)];
    var s3 := s2[..TrimmedLength(s2)];
    assert forall i :: 0 <= i < |s3| ==> NotCommentOrEnd(s3[i]) by {
      assert forall i :: 0 <= i < |s3| ==> s3[i] == s1[i];
    }
    s3
  }

  /** `ovf2_readLine`: flag a line that does not start with `#` and blank its first character
      either way, take the text of the rest (`Text`) and lower-case it. */
  function ReadLine(raw: string): (r: Normalised)
    ensures r.bad <==> |raw| == 0 || raw[0] != '#'
    ensures NormalForm(r.line)
    ensures |r.line| <= |raw|
  {
    var s0 := if |raw| == 0 then raw else [' '] + raw[1..];
    Normalised(|raw| == 0 || raw[0] != '#', ToLower(Text(s0)))
  }

  /** A line led by `#` reads without error as the text of the rest behind a blank. */
  lemma {:induction false} ReadLineHash(x: string)
    ensures ReadLine("#" + x) == Normalised(false, ToLower(Text(" " + x)))
  {
    assert [' '] + ("#" + x)[1..] == " " + x;
  }

  lemma {:induction false} TrimmedLengthAppend(s: string, w: string)
    requires forall i :: 0 <= i < |w| ==> IsSpace(w[i])
    ensures TrimmedLength(s + w) == TrimmedLength(s)
    decreases |w|
  {
    if |w| == 0 {
      assert s + w == s;
    } else {
      var w' := w[..|w| - 1];
      assert (s + w)[..|s + w| - 1] == s + w';
      TrimmedLengthAppend(s, w');
    }
  }

  /** Blanking the `#` and stripping leading blanks leaves the text after the blanks. */
  lemma {:induction false} StripBlanks(b: string, rest: string)
    requires forall i :: 0 <= i < |b| ==> IsBlank(b[i])
    requires |rest| > 0 && !IsBlank(rest[0])
    ensures var s0 := " " + b + rest; s0[LeadingRun(s0, IsBlank)..] == rest
  {
    LeadingRunAppend(" " + b, rest, IsBlank);
    assert (" " + b + rest)[|" " + b|..] == rest;
  }

  /** Cutting at the first `#` or line feed drops exactly the comment or line end. */
  lemma {:induction false} CutComment(x: string, tail: string)
    requires forall i :: 0 <= i < |x| ==> NotCommentOrEnd(x[i])
    requires |tail| == 0 || !NotCommentOrEnd(tail[0])
    ensures (x + tail)[..LeadingRun(x + tail, NotCommentOrEnd)] == x
  {
    LeadingRunAppend(x, tail, NotCommentOrEnd);
    assert (x + tail)[..|x|] == x;
  }

  /** Trimming drops exactly the trailing white space after text that does not end in it. */
  lemma {:induction false} TrimSpaces(s: string, w: string)
    requires |s| > 0 && !IsSpace(s[|s| - 1])
    requires forall i :: 0 <= i < |w| ==> IsSpace(w[i])
    ensures (s + w)[..TrimmedLength(s + w)] == s
  {
    TrimmedLengthAppend(s, w);
    assert (s + w)[..|s|] == s;
  }

  /** Blanks, text, trailing white space, then a comment or the line end: the text is exactly the
      middle part. */
  lemma {:induction false} TextParts(b: string, s: string, w: string, tail: string)
    requires forall i :: 0 <= i < |b| ==> IsBlank(b[i])
    requires |s| > 0 && !IsBlank(s[0]) && !IsSpace(s[|s| - 1])
    requires forall i :: 0 <= i < |s| ==> NotCommentOrEnd(s[i])
    requires forall i :: 0 <= i < |w| ==> IsSpace(w[i]) && w[i] != '\n'
    requires |tail| == 0 || !NotCommentOrEnd(tail[0])
    ensures Text(" " + b + s + w + tail) == s
  {
    var rest := s + w + tail;
    assert " " + b + s + w + tail == " " + b + rest;
    assert rest[0] == s[0];
    StripBlanks(b, rest);
    assert forall i :: 0 <= i < |s + w| ==> NotCommentOrEnd((s + w)[i]);
    CutComment(s + w, tail);
    TrimSpaces(s, w);
  }

  /** A header line `#`, blanks, text, trailing white space, then a comment or the line end,
      normalises to the lower-cased text. */
  lemma {:induction false} ReadLineParts(b: string, s: string, w: string, tail: string)
    requires forall i :: 0 <= i < |b| ==> IsBlank(b[i])
    requires |s| > 0 && !IsBlank(s[0]) && !IsSpace(s[|s| - 1])
    requires forall i :: 0 <= i < |s| ==> NotCommentOrEnd(s[i])
    requires forall i :: 0 <= i < |w| ==> IsSpace(w[i]) && w[i] != '\n'
    requires |tail| == 0 || !NotCommentOrEnd(tail[0])
    ensures ReadLine("#" + b + s + w + tail) == Normalised(false, ToLower(s))
  {
    var x := b + s + w + tail;
    assert "#" + b + s + w + tail == "#" + x && " " + b + s + w + tail == " " + x;
    ReadLineHash(x);
    TextParts(b, s, w, tail);
  }

  /** Normalised text is a fixed point: behind a `#` it normalises to itself without error. */
  lemma {:induction false} ReadLineFixpoint(s: string)
    requires NormalForm(s)
    ensures ReadLine("#" + s) == Normalised(false, s)
  {
    if |s| > 0 {
      ReadLineParts("", s, "", "");
      assert "#" + "" + s + "" + "" == "#" + s;
      ToLowerFixpoint(s);
    } else {
      assert "#" + s == "#";
    }
  }

  /** The first character only decides the error: it is blanked either way, so the text comes
      from the rest of the line as if a `#` stood there. */
  lemma {:induction false} ReadLineFirstChar(raw: string)
    requires |raw| > 0
    ensures ReadLine(raw).line == ReadLine("#" + raw[1..]).line
  {
    assert ("#" + raw[1..])[1..] == raw[1..];
  }

  /** White space up to a `#`, a line feed or the end leaves nothing but white space once the
      leading blanks are stripped and the line is cut. */
  lemma {:induction false} SpaceUpToStop(s0: string, m: nat)
    requires m <= |s0|
    requires forall i :: 0 <= i < m ==> IsSpace(s0[i])
    requires m == |s0| || !NotCommentOrEnd(s0[m])
    ensures var s1 := s0[LeadingRun(s0, IsBlank)..];
            var s2 := s1[..LeadingRun(s1, NotCommentOrEnd)];
            forall i :: 0 <= i < |s2| ==> IsSpace(s2[i])
  {
    var k := LeadingRun(s0, IsBlank);
    if m < |s0| {
      assert !IsBlank(s0[m]);
    }
    assert k <= m;
    var s1 := s0[k..];
    var n := LeadingRun(s1, NotCommentOrEnd);
    if m < |s0| {
      assert s1[m - k] == s0[m];
    }
    assert n <= m - k;
    var s2 := s1[..n];
    forall i | 0 <= i < |s2| ensures IsSpace(s2[i]) {
      assert s2[i] == s0[k + i];
    }
  }

  /** Trimming white space leaves nothing. */
  lemma {:induction false} TrimAllSpace(w: string)
    requires forall i :: 0 <= i < |w| ==> IsSpace(w[i])
    ensures TrimmedLength(w) == 0
  {
    TrimmedLengthAppend("", w);
    assert "" + w == w;
  }

  /** Blanks and white space other than a line feed, before a comment or the line end. */
  lemma {:induction false} BlankStop(b: string, w: string, tail: string)
    requires forall i :: 0 <= i < |b| ==> IsBlank(b[i])
    requires forall i :: 0 <= i < |w| ==> IsSpace(w[i]) && w[i] != '\n'
    requires |tail| == 0 || !NotCommentOrEnd(tail[0])
    ensures var s0 := " " + b + w + tail; var m := 1 + |b| + |w|;
            && (forall i :: 0 <= i < m ==> IsSpace(s0[i]))
            && (m == |s0| || !NotCommentOrEnd(s0[m]))
  {
    var s0 := " " + b + w + tail;
    var m := 1 + |b| + |w|;
    forall i | 0 <= i < m ensures IsSpace(s0[i]) {
      if 1 <= i <= |b| {
        assert s0[i] == b[i - 1];
      } else if i > |b| {
        assert s0[i] == w[i - 1 - |b|];
      }
    }
    if m < |s0| {
      assert s0[m] == tail[0];
    }
  }

  /** The text of blanks and white space other than a line feed, before a comment or the line
      end, is empty. */
  lemma {:induction false} TextBlank(b: string, w: string, tail: string)
    requires forall i :: 0 <= i < |b| ==> IsBlank(b[i])
    requires forall i :: 0 <= i < |w| ==> IsSpace(w[i]) && w[i] != '\n'
    requires |tail| == 0 || !NotCommentOrEnd(tail[0])
    ensures Text(" " + b + w + tail) == ""
  {
    var s0 := " " + b + w + tail;
    var s1 := s0[LeadingRun(s0, IsBlank)..];
    BlankStop(b, w, tail);
    SpaceUpToStop(s0, 1 + |b| + |w|);
    TrimAllSpace(s1[..LeadingRun(s1, NotCommentOrEnd)]);
  }

  /** A header line `#`, blanks, white space other than a line feed, then a comment or the line
      end, has empty text. */
  lemma {:induction false} ReadLineBlank(b: string, w: string, tail: string)
    requires forall i :: 0 <= i < |b| ==> IsBlank(b[i])
    requires forall i :: 0 <= i < |w| ==> IsSpace(w[i]) && w[i] != '\n'
    requires |tail| == 0 || !NotCommentOrEnd(tail[0])
    ensures ReadLine("#" + b + w + tail) == Normalised(false, "")
  {
    var x := b + w + tail;
    assert "#" + b + w + tail == "#" + x && " " + b + w + tail == " " + x;
    ReadLineHash(x);
    TextBlank(b, w, tail);
  }

  // As in the other example lemmas, the literal is a parameter pinned by a `requires`, which keeps
  // the verifier from evaluating functions of it wherever it appears.
  lemma {:induction false} LowerExample(s: string)
    requires s == "XNodes:  7"
    ensures ToLower(s) == "xnodes:  7"
  {
  }

  /** The example of the `ovf2_readLine` comment, `# XNodes:  7 ## comment` and a line feed, written
      as its parts. Inner blanks are kept: the result has the two blanks the input has after the
      colon. */
  lemma {:induction false} ReadLineExample(raw: string)
    requires raw == "#" + " " + "XNodes:  7" + " " + "## comment\n"
    ensures ReadLine(raw) == Normalised(false, "xnodes:  7")
  {
    var s := "XNodes:  7";
    assert forall i :: 0 <= i < |s| ==> NotCommentOrEnd(s[i]);
    ReadLineParts(" ", s, " ", "## comment\n");
    LowerExample(s);
  }

  /** `hdrVal` skips the blanks after the colon of the normalised example line. */
  lemma {:induction false} HdrValExample(line: string)
    requires line == "xnodes:  7"
    ensures ':' in line && HdrVal(line) == "7"
  {
    HdrValOf("xnodes", "  ", "7");
    assert "xnodes" + ":" + "  " + "7" == line;
  }

  predicate NotColon(c: char)
  {
    c != ':'
  }

  /** The position of the first `:`. */
  function ColonIndex(line: string): (i: nat)
    requires ':' in line
    ensures i < |line| && line[i] == ':'
    ensures forall j :: 0 <= j < i ==> line[j] != ':'
  {
    LeadingRun(line, NotColon)
  }

  /** `hdrVal`: what follows the first `:`, with leading blanks skipped. The source scans for the
      colon without a bound, so a line without one is outside its domain. */
  function HdrVal(line: string): (v: string)
    requires ':' in line
    ensures |v| < |line| - ColonIndex(line)
    ensures v == line[|line| - |v|..]
    ensures forall i :: ColonIndex(line) < i < |line| - |v| ==> IsBlank(line[i])
    ensures |v| > 0 ==> !IsBlank(v[0])
  {
    var rest := line[ColonIndex(line) + 1..];
    rest[LeadingRun(rest, IsBlank)..]
  }

  /** For a key without a colon, blanks and a value that does not start with a blank, `hdrVal`
      returns exactly the value. */
  lemma {:induction false} HdrValOf(key: string, b: string, v: string)
    requires ':' !in key
    requires forall i :: 0 <= i < |b| ==> IsBlank(b[i])
    requires |v| == 0 || !IsBlank(v[0])
    ensures ':' in key + ":" + b + v
    ensures HdrVal(key + ":" + b + v) == v
  {
    var line := key + ":" + b + v;
    assert line[|key|] == ':';
    LeadingRunAppend(key, ":" + b + v, NotColon);
    assert ColonIndex(line) == |key|;
    assert line[|key| + 1..] == b + v;
    LeadingRunAppend(b, v, IsBlank);
  }
}
