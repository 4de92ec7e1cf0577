/** The character array `ovf2_readLine` works in, to show where its comment scan ends. The scan
    looks for `#` or a line feed and does not stop at the string's terminator, so a first header
    line with neither runs it off the end of the array; the rest of the model cuts at the end of
    the text instead (`HeaderLine.ReadLine`). */
module LineBuffer {
  import opened CStrings
  import opened HeaderLine
  import opened Record

  /** `char line[BUFLEN+1] = {}` once `fgets` has stored the first line `raw` and its
      terminator in it. */
  function Fresh(raw: string): (b: seq<char>)
    requires |raw| <= BufLen - 1
    ensures |b| == BufLen + 1
    ensures forall i :: 0 <= i < |raw| ==> b[i] == raw[i]
    ensures forall i :: |raw| <= i < |b| ==> b[i] == '\0'
  {
    raw + seq(BufLen + 1 - |raw|, _ => '\0')
  }

  /** `line[0] = ' '`, then `memmove(line, &line[start], BUFLEN - start)` with `start` past the
      leading blanks: the first `BUFLEN - start` characters move to the front, the rest of the
      array keeps what it held. */
  function Shift(b: seq<char>): (s: seq<char>)
    requires |b| == BufLen + 1 && b[BufLen] == '\0'
    ensures |s| == |b|
    ensures forall i :: 0 <= i < |s| ==> s[i] in [' '] + b[1..]
  {
    var b0 := [' '] + b[1..];
    var start := LeadingRun(b0, IsBlank);
    assert start <= BufLen by {
      assert !IsBlank(b0[BufLen]);
    }
    b0[start..BufLen] + b0[BufLen - start..]
  }

  /** The scan of libovf2.c as written: from `i`, the first `#` or line feed; `|buf|` when the
      array holds neither, where the source goes on reading past the array. */
  function ScanEnd(buf: seq<char>, i: nat): (end: nat)
    requires i <= |buf|
    ensures i <= end <= |buf|
    ensures forall j :: i <= j < end ==> NotCommentOrEnd(buf[j])
    ensures end < |buf| ==> !NotCommentOrEnd(buf[end])
    decreases |buf| - i
  {
    if i == |buf| || !NotCommentOrEnd(buf[i]) then i else ScanEnd(buf, i + 1)
  }

  /** A first line without a line feed and without a `#` after its first character leaves no
      `#` and no line feed anywhere in the array, so the scan leaves it and the store
      `line[end] = 0` after it lands outside. */
  lemma {:induction false} ScanOverrun(raw: string)
    requires 0 < |raw| <= BufLen - 1
    requires '\n' !in raw && '#' !in raw[1..]
    ensures ScanEnd(Shift(Fresh(raw)), 0) == BufLen + 1
  {
    var b := Fresh(raw);
    var b0 := [' '] + b[1..];
    forall i | 0 <= i < |b0|
      ensures NotCommentOrEnd(b0[i])
    {
      if 1 <= i < |raw| {
        assert b0[i] == raw[1..][i - 1];
      }
    }
    var s := Shift(b);
    forall i | 0 <= i < |s|
      ensures NotCommentOrEnd(s[i])
    {
      assert s[i] in b0;
    }
  }

  predicate NotCutChar(c: char)
  {
    NotCommentOrEnd(c) && c != '\0'
  }

  /** The scan as intended: it also stops at the terminator, so it never passes the text. */
  function CutEnd(buf: seq<char>): (end: nat)
    ensures end <= |buf|
    ensures forall j :: 0 <= j < end ==> NotCutChar(buf[j])
    ensures end < |buf| ==> !NotCutChar(buf[end])
  {
    LeadingRun(buf, NotCutChar)
  }

  /** A run that stops inside `x` stops at the same place in `x + y`, and so does one that stops
      at the first character of `y`. */
  lemma {:induction false} RunBeforeStop(x: string, y: string, p: char -> bool)
    requires |y| > 0 && !p(y[0])
    ensures LeadingRun(x + y, p) == LeadingRun(x, p)
  {
    var n' := LeadingRun(x, p);
    assert forall i :: 0 <= i < n' ==> (x + y)[i] == x[i];
    if n' < |x| {
      assert (x + y)[n'] == x[n'];
    } else {
      assert (x + y)[n'] == y[0];
    }
    assert !p((x + y)[n']);
  }

  /** Stopping at the terminator, the scan of any first line ends within the text that was moved
      to the front: the line without its blanked first character and its leading blanks. That is
      strictly inside the array. */
  lemma {:induction false} CutInsideText(raw: string)
    requires 0 < |raw| <= BufLen - 1
    ensures CutEnd(Shift(Fresh(raw))) <= |raw| - LeadingRun([' '] + raw[1..], IsBlank)
    ensures CutEnd(Shift(Fresh(raw))) < |raw| < BufLen + 1
  {
    var b := Fresh(raw);
    var b0 := [' '] + b[1..];
    var start := LeadingRun(b0, IsBlank);
    assert start == LeadingRun([' '] + raw[1..], IsBlank) by {
      assert b0 == ([' '] + raw[1..]) + b[|raw|..];
      assert b[|raw|..][0] == '\0';
      RunBeforeStop([' '] + raw[1..], b[|raw|..], IsBlank);
    }
    assert 1 <= start <= |raw| by {
      assert b0[|raw|] == '\0';
    }
    var s := Shift(b);
    assert s == b0[start..BufLen] + b0[BufLen - start..];
    assert s[|raw| - start] == b0[start..BufLen][|raw| - start] == b0[|raw|] == '\0';
  }
}
