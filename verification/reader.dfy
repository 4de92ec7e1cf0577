/** `ovf2_read`: the header loop over the lines of a stream and the checks after it. The data
    section that would follow the header is not read by the source (its code is commented out),
    so a record read here never carries samples. */
module Reader {
  import opened Wrappers
  import opened CStrings
  import opened Decimal
  import opened HeaderLine
  import opened Record
  import opened HeaderLoop

  /** What the stream offers: the lines `fgets` returns, in order, and the `errno` it leaves when
      it then fails. */
  datatype Input = Input(lines: seq<string>, errno: int)

  const ValueDimKey := "valuedim:"
  const XNodesKey := "xnodes:"
  const YNodesKey := "ynodes:"
  const ZNodesKey := "znodes:"
  const BeginKey := "begin:"

  /** The keys whose lines the loop body assigns. */
  const FieldKeys: set<string> := {ValueDimKey, XNodesKey, YNodesKey, ZNodesKey}

  /** A key is a prefix ending in the colon that `hdrVal` looks for. */
  lemma {:induction false} KeyHasColon(line: string, key: string)
    requires |key| > 0 && key[|key| - 1] == ':'
    requires HasPrefix(line, key)
    ensures ':' in line
  {
    assert line[|key| - 1] == ':';
  }

  /** The integer after the colon of a `key: value` line, as `atoi(hdrVal(line))` reads it. */
  function ValueOf(line: string): int
    requires ':' in line
  {
    Atoi(HdrVal(line))
  }

  /** The loop's stop test: a `begin:` line whose value starts with `data`. */
  predicate IsDataMarker(line: string)
  {
    HasPrefix(line, BeginKey) && (KeyHasColon(line, BeginKey); HasPrefix(HdrVal(line), "data"))
  }

  /** One pass of the loop body on a normalised line that is not the data marker. It sets at
      most a header field: the error and the samples stay as they were. */
  function Apply(d: Ovf2Data, line: string): (r: Ovf2Data)
    ensures r.err == d.err && r.data == d.data
  {
    if HasPrefix(line, ValueDimKey) then
      KeyHasColon(line, ValueDimKey);
      d.(valuedim := ValueOf(line))
    else if HasPrefix(line, XNodesKey) then
      KeyHasColon(line, XNodesKey);
      d.(xnodes := ValueOf(line))
    else if HasPrefix(line, YNodesKey) then
      KeyHasColon(line, YNodesKey);
      d.(ynodes := ValueOf(line))
    else if HasPrefix(line, ZNodesKey) then
      KeyHasColon(line, ZNodesKey);
      d.(znodes := ValueOf(line))
    else
      d
  }

  /** A line whose key is `valuedim`, `xnodes`, `ynodes` or `znodes` sets that field to the value
      after the colon and changes nothing else; any other line leaves the record as it was. */
  lemma {:induction false} ApplyEffect(d: Ovf2Data, line: string)
    ensures HasPrefix(line, ValueDimKey) ==> ':' in line && Apply(d, line) == d.(valuedim := ValueOf(line))
    ensures HasPrefix(line, XNodesKey) ==> ':' in line && Apply(d, line) == d.(xnodes := ValueOf(line))
    ensures HasPrefix(line, YNodesKey) ==> ':' in line && Apply(d, line) == d.(ynodes := ValueOf(line))
    ensures HasPrefix(line, ZNodesKey) ==> ':' in line && Apply(d, line) == d.(znodes := ValueOf(line))
    ensures !HasPrefix(line, ValueDimKey) && !HasPrefix(line, XNodesKey)
            && !HasPrefix(line, YNodesKey) && !HasPrefix(line, ZNodesKey)
            ==> Apply(d, line) == d
  {
    if HasPrefix(line, ValueDimKey) {
      KeyHasColon(line, ValueDimKey);
    } else if HasPrefix(line, XNodesKey) {
      KeyHasColon(line, XNodesKey);
    } else if HasPrefix(line, YNodesKey) {
      KeyHasColon(line, YNodesKey);
    } else if HasPrefix(line, ZNodesKey) {
      KeyHasColon(line, ZNodesKey);
    }
  }

  /** The four keys start with different letters, so a line carries at most one of them. */
  lemma {:induction false} KeyFirstLetter(line: string, key: string)
    requires key in FieldKeys && HasPrefix(line, key)
    ensures |line| > 0 && line[0] == key[0]
    ensures forall k :: k in FieldKeys && HasPrefix(line, k) ==> k == key
  {
    assert ValueDimKey[0] == 'v' && XNodesKey[0] == 'x' && YNodesKey[0] == 'y' && ZNodesKey[0] == 'z';
    forall k | k in FieldKeys && HasPrefix(line, k)
      ensures k == key
    {
      assert line[0] == k[0];
    }
  }

  /** A later line under the same key overrides an earlier one: only the later value is kept. */
  lemma {:induction false} ApplySameKey(d: Ovf2Data, key: string, l1: string, l2: string)
    requires key in FieldKeys && HasPrefix(l1, key) && HasPrefix(l2, key)
    ensures Apply(Apply(d, l1), l2) == Apply(d, l2)
  {
    KeyFirstLetter(l1, key);
    KeyFirstLetter(l2, key);
    ApplyEffect(d, l1);
    ApplyEffect(Apply(d, l1), l2);
    ApplyEffect(d, l2);
  }

  /** Lines under different keys set different fields, so their order does not matter. */
  lemma {:induction false} ApplyOtherKeys(d: Ovf2Data, k1: string, k2: string, l1: string, l2: string)
    requires k1 in FieldKeys && k2 in FieldKeys && k1 != k2
    requires HasPrefix(l1, k1) && HasPrefix(l2, k2)
    ensures Apply(Apply(d, l1), l2) == Apply(Apply(d, l2), l1)
  {
    KeyFirstLetter(l1, k1);
    KeyFirstLetter(l2, k2);
    ApplyEffect(d, l1);
    ApplyEffect(d, l2);
    ApplyEffect(Apply(d, l1), l2);
    ApplyEffect(Apply(d, l2), l1);
  }

  /** A line under none of the keys commutes with every line, since it changes nothing. */
  lemma {:induction false} ApplyInert(d: Ovf2Data, l1: string, l2: string)
    requires forall k :: k in FieldKeys ==> !HasPrefix(l1, k)
    ensures Apply(d, l1) == d
    ensures Apply(Apply(d, l1), l2) == Apply(Apply(d, l2), l1)
  {
    ApplyEffect(d, l1);
    ApplyEffect(Apply(d, l2), l1);
  }

  /** Every raw line through `ovf2_readLine`. The header loop reads and normalises one line per
      pass; normalising is a pure function of the raw line, so the loop below runs over the raw
      lines and their normalised forms side by side. */
  function ReadAll(lines: seq<string>): (ns: seq<Normalised>)
    ensures |ns| == |lines|
  {
    Normalise(ReadLine, lines)
  }

  lemma {:induction false} ReadAllIndex(lines: seq<string>, i: nat)
    requires i < |lines|
    ensures ReadAll(lines)[i] == ReadLine(lines[i])
  {
  }

  /** The checks after the loop: a non-positive `valuedim` sets one error, a non-positive node
      count then sets another, replacing the first. Neither clears an error already there. */
  function Validate(d: Ovf2Data): (r: Ovf2Data)
    ensures r.valuedim == d.valuedim && r.xnodes == d.xnodes && r.ynodes == d.ynodes
    ensures r.znodes == d.znodes && r.data == d.data
    ensures r.err.None? <==> d.err.None? && AllPositive(d)
    ensures d.xnodes <= 0 || d.ynodes <= 0 || d.znodes <= 0 ==>
              r.err == Some(InvalidGridSize(d.xnodes, d.ynodes, d.znodes))
    ensures d.xnodes > 0 && d.ynodes > 0 && d.znodes > 0 && d.valuedim <= 0 ==>
              r.err == Some(InvalidValueDim(d.valuedim))
    ensures AllPositive(d) ==> r == d
  {
    var d1 := if d.valuedim <= 0 then d.(err := Some(InvalidValueDim(d.valuedim))) else d;
    if d.xnodes <= 0 || d.ynodes <= 0 || d.znodes <= 0 then
      d1.(err := Some(InvalidGridSize(d.xnodes, d.ynodes, d.znodes)))
    else
      d1
  }

  /** The header loop of `ovf2_read` from the zero record: it stops at the data marker, and its
      body sets the header fields. */
  function Loop(input: Input): Ovf2Data
  {
    Scan(IsDataMarker, Apply, input.lines, Normalise(ReadLine, input.lines), input.errno, Zero)
  }

  /** The number of lines the loop applies before it stops. */
  function LoopEnd(input: Input): nat
  {
    StopAt(IsDataMarker, Normalise(ReadLine, input.lines))
  }

  /** `ovf2_read`: the header loop, then the checks. A record without error has a positive
      `valuedim` and positive node counts; no record read carries samples. */
  function Read(input: Input): (r: Ovf2Data)
    ensures r.data.None?
    ensures r.err.None? ==> AllPositive(r)
  {
    var ns := ReadAll(input.lines);
    ScanStopsAt(IsDataMarker, Apply, input.lines, ns, input.errno, Zero);
    LastLineWins(Zero, Texts(ns[..StopAt(IsDataMarker, ns)]));
    Validate(Loop(input))
  }

  /** The value of the last line with prefix `key`, found by searching from the end; `init` when
      no line has it. */
  function LastValue(ts: seq<string>, key: string, init: int): int
    requires |key| > 0 && key[|key| - 1] == ':'
    decreases |ts|
  {
    if |ts| == 0 then init
    else
      var l := ts[|ts| - 1];
      if HasPrefix(l, key) then KeyHasColon(l, key); ValueOf(l)
      else LastValue(ts[..|ts| - 1], key, init)
  }

  /** Every field the loop sets holds the value of the last line with its key, or what it held
      before when no line has the key; nothing else changes. */
  lemma {:induction false} LastLineWins(d: Ovf2Data, ts: seq<string>)
    ensures ApplyAll(Apply, d, ts) == d.(
              valuedim := LastValue(ts, ValueDimKey, d.valuedim),
              xnodes := LastValue(ts, XNodesKey, d.xnodes),
              ynodes := LastValue(ts, YNodesKey, d.ynodes),
              znodes := LastValue(ts, ZNodesKey, d.znodes))
    decreases |ts|
  {
    if |ts| > 0 {
      var init := ts[..|ts| - 1];
      var l := ts[|ts| - 1];
      assert ts == init + [l];
      ApplyAllSnoc(Apply, d, init, l);
      LastLineWins(d, init);
      ApplyEffect(ApplyAll(Apply, d, init), l);
    }
  }

  /** `LastValue` picks the line at `j` when no later line has the key. */
  lemma {:induction false} LastValueAt(ts: seq<string>, key: string, init: int, j: nat)
    requires |key| > 0 && key[|key| - 1] == ':'
    requires j < |ts| && HasPrefix(ts[j], key)
    requires forall i :: j < i < |ts| ==> !HasPrefix(ts[i], key)
    ensures ':' in ts[j]
    ensures LastValue(ts, key, init) == ValueOf(ts[j])
    decreases |ts|
  {
    KeyHasColon(ts[j], key);
    if j < |ts| - 1 {
      LastValueAt(ts[..|ts| - 1], key, init, j);
    }
  }

  /** The loop in closed form: the lines before `LoopEnd` applied to the zero record, then the
      error that ended the loop, if one did. */
  lemma {:induction false} LoopResult(input: Input)
    ensures var lines, ns, k := input.lines, ReadAll(input.lines), LoopEnd(input);
            var f := ApplyAll(Apply, Zero, Texts(ns[..k]));
            Loop(input) ==
              if k == |lines| then f.(err := Some(InputError(input.errno)))
              else if ns[k].bad then f.(err := Some(InvalidHeaderLine(lines[k])))
              else f
  {
    ScanStopsAt(IsDataMarker, Apply, input.lines, ReadAll(input.lines), input.errno, Zero);
  }

  /** The fields `ovf2_read` returns are those of the last `valuedim`, `xnodes`, `ynodes` and
      `znodes` lines before the loop stopped, 0 for a key no such line has. */
  lemma {:induction false} ReadFields(input: Input)
    ensures var ts := Texts(ReadAll(input.lines)[..LoopEnd(input)]);
            var r := Read(input);
            && r.valuedim == LastValue(ts, ValueDimKey, 0)
            && r.xnodes == LastValue(ts, XNodesKey, 0)
            && r.ynodes == LastValue(ts, YNodesKey, 0)
            && r.znodes == LastValue(ts, ZNodesKey, 0)
  {
    LoopResult(input);
    LastLineWins(Zero, Texts(ReadAll(input.lines)[..LoopEnd(input)]));
  }

  /** The error `ovf2_read` returns: the grid-size message wins over the valuedim message, which
      wins over the loop's own error; there is none exactly when the loop reached the data
      marker and all four numbers are positive. */
  lemma {:induction false} ReadError(input: Input)
    ensures var lines, ns, r, k := input.lines, ReadAll(input.lines), Read(input), LoopEnd(input);
            r.err ==
              if r.xnodes <= 0 || r.ynodes <= 0 || r.znodes <= 0 then
                Some(InvalidGridSize(r.xnodes, r.ynodes, r.znodes))
              else if r.valuedim <= 0 then Some(InvalidValueDim(r.valuedim))
              else if k == |lines| then Some(InputError(input.errno))
              else if ns[k].bad then Some(InvalidHeaderLine(lines[k]))
              else None
  {
    var ns := ReadAll(input.lines);
    var k := LoopEnd(input);
    LoopResult(input);
    LastLineWins(Zero, Texts(ns[..k]));
    assert ApplyAll(Apply, Zero, Texts(ns[..k])).err.None?;
  }

  lemma {:induction false} ReadOkStop(input: Input)
    ensures Read(input).err.None? ==>
              LoopEnd(input) < |input.lines| && !ReadAll(input.lines)[LoopEnd(input)].bad
  {
    ReadError(input);
  }

  /** A record read without error came from a stream that reached the data marker, no line up to
      it lacking the `#`: running out of lines or a line without `#` is always an error. */
  lemma {:induction false} ReadNeedsMarker(input: Input)
    requires Read(input).err.None?
    ensures var ns, k := ReadAll(input.lines), LoopEnd(input);
            && k < |input.lines|
            && (forall i :: 0 <= i <= k ==> !ns[i].bad)
            && IsDataMarker(ns[k].line)
  {
    ReadOkStop(input);
    StopLine(IsDataMarker, ReadAll(input.lines));
  }

  /** A line that normalised without error starts with `#`. */
  lemma {:induction false} MarkedLine(lines: seq<string>, i: nat)
    requires i < |lines| && !ReadAll(lines)[i].bad
    ensures lines[i] != [] && lines[i][0] == '#'
  {
    ReadAllIndex(lines, i);
  }

  /** `begin: segment` and `begin: header` do not stop the loop; `begin: data binary 4` and
      `begin: data text` do. */
  // The example values come in as parameters pinned by a `requires`, which keeps the verifier
  // from evaluating the functions of the contract on the literals, and the proof cheap.
  lemma {:induction false} MarkerExamples(seg: string, hdr: string, bin: string, text: string)
    requires seg == "segment" && hdr == "header" && bin == "data binary 4" && text == "data text"
    ensures !IsDataMarker("begin: " + seg) && !IsDataMarker("begin: " + hdr)
    ensures IsDataMarker("begin: " + bin) && IsDataMarker("begin: " + text)
  {
    MarkerValue(seg);
    MarkerValue(hdr);
    MarkerValue(bin);
    MarkerValue(text);
  }

  /** A `begin:` line is the data marker exactly when its value starts with `data`. */
  lemma {:induction false} MarkerValue(v: string)
    requires |v| == 0 || !IsBlank(v[0])
    ensures IsDataMarker("begin: " + v) <==> "data" <= v
  {
    HdrValOf("begin", " ", v);
    assert "begin" + ":" + " " + v == "begin: " + v;
    assert "begin:" <= "begin: " + v;
  }
}
