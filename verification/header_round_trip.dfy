/** The header `ovf2_write` prints, read back by `ovf2_read`: followed by a data marker line, it
    gives back the grid size it was printed from. */
module HeaderRoundTrip {
  import opened Wrappers
  import opened CStrings
  import opened Seqs
  import opened Decimal
  import opened HeaderLine
  import opened Record
  import opened HeaderLoop
  import opened Reader
  import opened Writer

  /** Text that `ovf2_readLine` keeps whole once it sits behind `# `: nothing to trim at either
      end and no `#` or line feed. */
  predicate Keepable(t: string)
  {
    && |t| > 0 && !IsBlank(t[0]) && !IsSpace(t[|t| - 1])
    && '#' !in t && '\n' !in t
  }

  lemma {:induction false} HeaderTextNormalises(t: string)
    requires Keepable(t)
    ensures ReadLine(HeaderText(t)) == Normalised(false, ToLower(t))
  {
    assert forall i :: 0 <= i < |t| ==> NotCommentOrEnd(t[i]) by {
      forall i | 0 <= i < |t| ensures NotCommentOrEnd(t[i]) {
        assert t[i] in t;
      }
    }
    var x := " " + t + "\n";
    assert HeaderText(t) == "#" + x;
    assert " " + " " + t + "" + "\n" == " " + x;
    ReadLineHash(x);
    TextParts(" ", t, "", "\n");
  }

  /** `%d` prints a minus sign and digits, and ends in a digit. */
  lemma {:induction false} DecimalChars(n: int)
    ensures forall i :: 0 <= i < |IntToDecimal(n)| ==> IntToDecimal(n)[i] == '-' || IsDigit(IntToDecimal(n)[i])
    ensures IsDigit(IntToDecimal(n)[|IntToDecimal(n)| - 1])
  {
    var dec := IntToDecimal(n);
    if n < 0 {
      forall i | 0 <= i < |dec| ensures dec[i] == '-' || IsDigit(dec[i]) {
        if i > 0 { assert dec[i] == dec[1..][i - 1]; }
      }
      assert dec[|dec| - 1] == dec[1..][|dec| - 2];
    }
  }

  /** Text of minus signs and digits that ends in a digit, as `%d` prints it. */
  predicate DecimalText(dec: string)
  {
    && |dec| > 0 && IsDigit(dec[|dec| - 1])
    && forall i :: 0 <= i < |dec| ==> dec[i] == '-' || IsDigit(dec[i])
  }

  /** `key: ` followed by decimal text survives normalising unchanged, carries `key:`, and is no
      data marker. */
  lemma {:induction false} KeyDecimalText(key: string, dec: string)
    requires |key| > 0 && key[0] != 'b' && !IsBlank(key[0]) && NoUpper(key)
    requires forall i :: 0 <= i < |key| ==> NotCommentOrEnd(key[i])
    requires DecimalText(dec)
    ensures Keepable(key + ": " + dec)
    ensures ToLower(key + ": " + dec) == key + ": " + dec
    ensures HasPrefix(key + ": " + dec, key + ":")
    ensures !IsDataMarker(key + ": " + dec)
  {
    var t := key + ": " + dec;
    assert forall i :: 0 <= i < |t| ==> NotCommentOrEnd(t[i]) && !IsUpper(t[i]) by {
      forall i | 0 <= i < |t| ensures NotCommentOrEnd(t[i]) && !IsUpper(t[i]) {
        if i >= |key| + 2 { assert t[i] == dec[i - |key| - 2]; }
      }
    }
    assert '#' !in t && '\n' !in t;
    assert t[|t| - 1] == dec[|dec| - 1];
    assert !IsSpace(t[|t| - 1]);
    assert t[0] == key[0];
    ToLowerFixpoint(t);
    assert t[..|key| + 1] == key + ":";
    assert !HasPrefix(t, BeginKey) by {
      assert t[0] != BeginKey[0];
    }
  }

  /** A `key: n` line as the writer prints it survives normalising unchanged, carries `key:`, and
      is no data marker. */
  lemma {:induction false} NumberLineText(key: string, n: int)
    requires |key| > 0 && key[0] != 'b' && !IsBlank(key[0]) && NoUpper(key)
    requires forall i :: 0 <= i < |key| ==> NotCommentOrEnd(key[i])
    ensures Keepable(key + ": " + IntToDecimal(n))
    ensures ToLower(key + ": " + IntToDecimal(n)) == key + ": " + IntToDecimal(n)
    ensures HasPrefix(key + ": " + IntToDecimal(n), key + ":")
    ensures !IsDataMarker(key + ": " + IntToDecimal(n))
  {
    DecimalChars(n);
    KeyDecimalText(key, IntToDecimal(n));
  }

  /** ... and reads back as `n`. */
  lemma {:induction false} NumberLineValue(key: string, n: int)
    requires ':' !in key
    ensures ':' in key + ": " + IntToDecimal(n)
    ensures ValueOf(key + ": " + IntToDecimal(n)) == n
  {
    var dec := IntToDecimal(n);
    DecimalChars(n);
    assert key + ": " + dec == key + ":" + " " + dec;
    HdrValOf(key, " ", dec);
    AtoiOfDecimal(n);
  }

  /** A normalised line the loop passes over without changing the record. */
  predicate Inert(line: string)
  {
    && !IsDataMarker(line)
    && !HasPrefix(line, ValueDimKey) && !HasPrefix(line, XNodesKey)
    && !HasPrefix(line, YNodesKey) && !HasPrefix(line, ZNodesKey)
  }

  // The lemmas about the fixed header lines take each literal as a parameter pinned by a
  // `requires`, rather than naming it in the contract: that keeps the verifier from evaluating
  // functions of every literal in sight, which made the proofs that use them slow.
  lemma {:induction false} SignatureLower(sig: string)
    requires sig == Signature
    ensures ToLower(sig) == "oommf ovf 2.0"
  {
  }

  lemma {:induction false} SegmentCountLower(cnt: string)
    requires cnt == SegmentCount
    ensures ToLower(cnt) == "segment count: 1"
  {
  }

  lemma {:induction false} BeginSegmentLower(seg: string)
    requires seg == BeginSegment
    ensures ToLower(seg) == "begin: " + "segment"
  {
  }

  lemma {:induction false} BeginHeaderLower(hdr: string)
    requires hdr == BeginHeader
    ensures ToLower(hdr) == "begin: " + "header"
  {
  }

  lemma {:induction false} FixedLower(sig: string, cnt: string, seg: string, hdr: string)
    requires sig == Signature && cnt == SegmentCount && seg == BeginSegment && hdr == BeginHeader
    ensures ToLower(sig) == "oommf ovf 2.0" && ToLower(cnt) == "segment count: 1"
    ensures ToLower(seg) == "begin: " + "segment" && ToLower(hdr) == "begin: " + "header"
  {
    SignatureLower(sig);
    SegmentCountLower(cnt);
    BeginSegmentLower(seg);
    BeginHeaderLower(hdr);
  }

  /** A line whose first character starts none of the keys the loop knows passes it by. */
  lemma {:induction false} InertByFirst(line: string)
    requires |line| > 0 && line[0] !in {'b', 'v', 'x', 'y', 'z'}
    ensures Inert(line)
  {
    assert BeginKey[0] == 'b' && ValueDimKey[0] == 'v';
    assert XNodesKey[0] == 'x' && YNodesKey[0] == 'y' && ZNodesKey[0] == 'z';
  }

  /** `begin: v` with a value `v` that does not start with `data` passes the loop by. */
  lemma {:induction false} InertBegin(v: string)
    requires |v| > 0 && !IsBlank(v[0]) && !("data" <= v)
    ensures Inert("begin: " + v)
  {
    MarkerValue(v);
    var line := "begin: " + v;
    assert line[0] == 'b';
    assert ValueDimKey[0] == 'v' && XNodesKey[0] == 'x' && YNodesKey[0] == 'y' && ZNodesKey[0] == 'z';
  }

  /** The four fixed lines the writer starts with survive normalising and pass the loop by. */
  lemma {:induction false} FixedKeepable(sig: string, cnt: string, seg: string, hdr: string)
    requires sig == Signature && cnt == SegmentCount && seg == BeginSegment && hdr == BeginHeader
    ensures Keepable(sig) && Keepable(cnt) && Keepable(seg) && Keepable(hdr)
  {
  }

  lemma {:induction false} FixedInert(sig: string, cnt: string, seg: string, hdr: string)
    requires sig == Signature && cnt == SegmentCount && seg == BeginSegment && hdr == BeginHeader
    ensures Inert(ToLower(sig)) && Inert(ToLower(cnt)) && Inert(ToLower(seg)) && Inert(ToLower(hdr))
  {
    FixedLower(sig, cnt, seg, hdr);
    InertByFirst(ToLower(sig));
    InertByFirst(ToLower(cnt));
    InertBegin("segment");
    InertBegin("header");
  }

  /** The marker line of the binary format, `# Begin: Data Binary 4`. */
  const DataBinary := "Begin: Data Binary 4"

  lemma {:induction false} MarkerKeepable(m: string)
    requires m == DataBinary
    ensures Keepable(m)
  {
  }

  lemma {:induction false} MarkerLower(m: string)
    requires m == DataBinary
    ensures ToLower(m) == "begin: " + "data binary 4"
  {
  }

  /** A printed `begin:` line whose value starts with `data` stops the loop. */
  lemma {:induction false} DataMarkerLine(m: string, v: string)
    requires Keepable(m) && ToLower(m) == "begin: " + v
    requires |v| > 0 && !IsBlank(v[0]) && "data" <= v
    ensures ReadLine(HeaderText(m)) == Normalised(false, ToLower(m))
    ensures Stops(IsDataMarker, ReadLine(HeaderText(m))) && IsDataMarker(ToLower(m))
  {
    HeaderTextNormalises(m);
    MarkerValue(v);
  }

  /** The marker line stops the loop, and it is not a line without `#`. */
  lemma {:induction false} MarkerLine(m: string)
    requires m == DataBinary
    ensures ReadLine(HeaderText(m)) == Normalised(false, ToLower(m))
    ensures Stops(IsDataMarker, ReadLine(HeaderText(m))) && IsDataMarker(ToLower(m))
  {
    MarkerKeepable(m);
    MarkerLower(m);
    DataMarkerLine(m, "data binary 4");
  }

  /** What the loop sees of the header lines the writer prints. */
  function NormalisedHeader(d: Ovf2Data): seq<string>
  {
    [ ToLower(Signature), ToLower(SegmentCount), ToLower(BeginSegment), ToLower(BeginHeader),
      "valuedim" + ": " + IntToDecimal(d.valuedim), "xnodes" + ": " + IntToDecimal(d.xnodes),
      "ynodes" + ": " + IntToDecimal(d.ynodes), "znodes" + ": " + IntToDecimal(d.znodes) ]
  }

  lemma {:induction false} FixedNormalises(t: string)
    requires Keepable(t) && Inert(ToLower(t))
    ensures ReadLine(HeaderText(t)) == Normalised(false, ToLower(t))
    ensures !Stops(IsDataMarker, Normalised(false, ToLower(t)))
  {
    HeaderTextNormalises(t);
  }

  /** A name the writer prints a number under. */
  predicate NumberName(name: string)
  {
    && |name| > 0 && name[0] != 'b' && !IsBlank(name[0]) && ToLower(name) == name
    && '#' !in name && '\n' !in name
  }

  lemma {:induction false} NumberNames(v: string, x: string, y: string, z: string)
    requires v == "valuedim" && x == "xnodes" && y == "ynodes" && z == "znodes"
    ensures NumberName(v) && NumberName(x) && NumberName(y) && NumberName(z)
  {
  }

  lemma {:induction false} NumberNormalises(name: string, n: int)
    requires NumberName(name)
    ensures ReadLine(NumberLine(name, n)) == Normalised(false, name + ": " + IntToDecimal(n))
    ensures !Stops(IsDataMarker, Normalised(false, name + ": " + IntToDecimal(n)))
  {
    ToLowerFixpoint(name);
    assert forall i :: 0 <= i < |name| ==> NotCommentOrEnd(name[i]) by {
      forall i | 0 <= i < |name| ensures NotCommentOrEnd(name[i]) {
        assert name[i] in name;
      }
    }
    NumberLineText(name, n);
    HeaderTextNormalises(name + ": " + IntToDecimal(n));
  }

  lemma {:induction false} HeaderNormalises(d: Ovf2Data, i: nat)
    requires i < 8
    ensures ReadLine(HeaderLines(d)[i]) == Normalised(false, NormalisedHeader(d)[i])
    ensures !Stops(IsDataMarker, Normalised(false, NormalisedHeader(d)[i]))
  {
    if i < 4 {
      FixedHeaderNormalises(d, i);
    } else {
      NumberHeaderNormalises(d, i);
    }
  }

  /** The four fixed lines. */
  lemma {:induction false} FixedHeaderNormalises(d: Ovf2Data, i: nat)
    requires i < 4
    ensures ReadLine(HeaderLines(d)[i]) == Normalised(false, NormalisedHeader(d)[i])
    ensures !Stops(IsDataMarker, Normalised(false, NormalisedHeader(d)[i]))
  {
    var t := [Signature, SegmentCount, BeginSegment, BeginHeader][i];
    FixedKeepable(Signature, SegmentCount, BeginSegment, BeginHeader);
    FixedInert(Signature, SegmentCount, BeginSegment, BeginHeader);
    FixedNormalises(t);
    assert NormalisedHeader(d)[i] == ToLower(t) && HeaderLines(d)[i] == HeaderText(t);
  }

  /** The four number lines, one lemma per line. */
  lemma {:induction false} NumberHeaderNormalises(d: Ovf2Data, i: nat)
    requires 4 <= i < 8
    ensures ReadLine(HeaderLines(d)[i]) == Normalised(false, NormalisedHeader(d)[i])
    ensures !Stops(IsDataMarker, Normalised(false, NormalisedHeader(d)[i]))
  {
    if i == 4 {
      ValueDimLine(d, i);
    } else if i == 5 {
      XNodesLine(d, i);
    } else if i == 6 {
      YNodesLine(d, i);
    } else {
      ZNodesLine(d, i);
    }
  }

  // One lemma per number line. The index is a parameter pinned by a `requires`, not the literal
  // `4`, so that the verifier does not evaluate the whole header display at a constant index.
  lemma {:induction false} ValueDimLine(d: Ovf2Data, i: nat)
    requires i == 4
    ensures ReadLine(HeaderLines(d)[i]) == Normalised(false, NormalisedHeader(d)[i])
    ensures !Stops(IsDataMarker, Normalised(false, NormalisedHeader(d)[i]))
  {
    var v, x, y, z := "valuedim", "xnodes", "ynodes", "znodes";
    NumberNames(v, x, y, z);
    NumberHeaderAt(d, i, v, d.valuedim);
  }

  lemma {:induction false} XNodesLine(d: Ovf2Data, i: nat)
    requires i == 5
    ensures ReadLine(HeaderLines(d)[i]) == Normalised(false, NormalisedHeader(d)[i])
    ensures !Stops(IsDataMarker, Normalised(false, NormalisedHeader(d)[i]))
  {
    var v, x, y, z := "valuedim", "xnodes", "ynodes", "znodes";
    NumberNames(v, x, y, z);
    NumberHeaderAt(d, i, x, d.xnodes);
  }

  lemma {:induction false} YNodesLine(d: Ovf2Data, i: nat)
    requires i == 6
    ensures ReadLine(HeaderLines(d)[i]) == Normalised(false, NormalisedHeader(d)[i])
    ensures !Stops(IsDataMarker, Normalised(false, NormalisedHeader(d)[i]))
  {
    var v, x, y, z := "valuedim", "xnodes", "ynodes", "znodes";
    NumberNames(v, x, y, z);
    NumberHeaderAt(d, i, y, d.ynodes);
  }

  lemma {:induction false} ZNodesLine(d: Ovf2Data, i: nat)
    requires i == 7
    ensures ReadLine(HeaderLines(d)[i]) == Normalised(false, NormalisedHeader(d)[i])
    ensures !Stops(IsDataMarker, Normalised(false, NormalisedHeader(d)[i]))
  {
    var v, x, y, z := "valuedim", "xnodes", "ynodes", "znodes";
    NumberNames(v, x, y, z);
    NumberHeaderAt(d, i, z, d.znodes);
  }

  /** A number line at index `i` of the header normalises to its text and does not stop the
      loop. */
  lemma {:induction false} NumberHeaderAt(d: Ovf2Data, i: nat, name: string, n: int)
    requires i < 8 && NumberName(name)
    requires HeaderLines(d)[i] == NumberLine(name, n)
    requires NormalisedHeader(d)[i] == name + ": " + IntToDecimal(n)
    ensures ReadLine(HeaderLines(d)[i]) == Normalised(false, NormalisedHeader(d)[i])
    ensures !Stops(IsDataMarker, Normalised(false, NormalisedHeader(d)[i]))
  {
    NumberNormalises(name, n);
  }

  /** The number under `name` reads back under the key `name:`; a line under another name with
      another first letter does not carry that key. */
  lemma {:induction false} NumberKey(name: string, key: string, n: int)
    requires NumberName(name) && ':' !in name && key == name + ":"
    ensures HasPrefix(name + ": " + IntToDecimal(n), key)
    ensures ValueOf(name + ": " + IntToDecimal(n)) == n
  {
    ToLowerFixpoint(name);
    assert forall i :: 0 <= i < |name| ==> NotCommentOrEnd(name[i]) by {
      forall i | 0 <= i < |name| ensures NotCommentOrEnd(name[i]) {
        assert name[i] in name;
      }
    }
    NumberLineText(name, n);
    NumberLineValue(name, n);
  }

  lemma {:induction false} KeyFacts(v: string, x: string, y: string, z: string)
    requires v == "valuedim" && x == "xnodes" && y == "ynodes" && z == "znodes"
    ensures ':' !in v && ':' !in x && ':' !in y && ':' !in z
    ensures ValueDimKey == v + ":" && XNodesKey == x + ":" && YNodesKey == y + ":" && ZNodesKey == z + ":"
  {
  }

  /** A number line at `j` that no later line shares a first letter with gives the value under
      its key. */
  lemma {:induction false} LastNumber(ts: seq<string>, j: nat, name: string, key: string, n: int)
    requires NumberName(name) && ':' !in name && key == name + ":"
    requires j < |ts| && ts[j] == name + ": " + IntToDecimal(n)
    requires forall i :: j < i < |ts| ==> |ts[i]| > 0 && ts[i][0] != name[0]
    ensures LastValue(ts, key, 0) == n
  {
    NumberKey(name, key, n);
    forall i | j < i < |ts|
      ensures !HasPrefix(ts[i], key)
    {
      assert key[0] == name[0];
    }
    LastValueAt(ts, key, 0, j);
  }

  lemma {:induction false} NumberLinesStart(d: Ovf2Data)
    ensures var ts := NormalisedHeader(d);
            && |ts[4]| > 0 && |ts[5]| > 0 && |ts[6]| > 0 && |ts[7]| > 0
            && ts[5][0] == 'x' && ts[6][0] == 'y' && ts[7][0] == 'z'
  {
  }

  /** Each of the four numbers is the last line under its key. */
  lemma {:induction false} HeaderValues(d: Ovf2Data)
    ensures LastValue(NormalisedHeader(d), ValueDimKey, 0) == d.valuedim
    ensures LastValue(NormalisedHeader(d), XNodesKey, 0) == d.xnodes
    ensures LastValue(NormalisedHeader(d), YNodesKey, 0) == d.ynodes
    ensures LastValue(NormalisedHeader(d), ZNodesKey, 0) == d.znodes
  {
    var ts := NormalisedHeader(d);
    var v, x, y, z := "valuedim", "xnodes", "ynodes", "znodes";
    KeyFacts(v, x, y, z);
    NumberNames(v, x, y, z);
    NumberLinesStart(d);
    assert LastValue(ts, ValueDimKey, 0) == d.valuedim by {
      LastNumber(ts, 4, v, ValueDimKey, d.valuedim);
    }
    assert LastValue(ts, XNodesKey, 0) == d.xnodes by {
      LastNumber(ts, 5, x, XNodesKey, d.xnodes);
    }
    assert LastValue(ts, YNodesKey, 0) == d.ynodes by {
      LastNumber(ts, 6, y, YNodesKey, d.ynodes);
    }
    assert LastValue(ts, ZNodesKey, 0) == d.znodes by {
      LastNumber(ts, 7, z, ZNodesKey, d.znodes);
    }
  }

  /** The loop passes the eight header lines by and stops at the marker line. */
  lemma {:induction false} WrittenStream(d: Ovf2Data, lines: seq<string>)
    requires |lines| > 8 && lines[..8] == HeaderLines(d) && lines[8] == HeaderText(DataBinary)
    ensures var ns := ReadAll(lines);
            && StopAt(IsDataMarker, ns) == 8 && !ns[8].bad
            && Texts(ns[..8]) == NormalisedHeader(d)
  {
    var ns := ReadAll(lines);
    var ts := NormalisedHeader(d);
    assert forall i :: 0 <= i < 8 ==> ns[i] == Normalised(false, ts[i]) && !Stops(IsDataMarker, ns[i]) by {
      forall i | 0 <= i < 8
        ensures ns[i] == Normalised(false, ts[i]) && !Stops(IsDataMarker, ns[i])
      {
        ReadAllIndex(lines, i);
        assert lines[i] == lines[..8][i];
        HeaderNormalises(d, i);
      }
    }
    assert !ns[8].bad && Stops(IsDataMarker, ns[8]) by {
      ReadAllIndex(lines, 8);
      MarkerLine(DataBinary);
    }
    assert StopAt(IsDataMarker, ns) == 8;
    assert Texts(ns[..8]) == ts;
  }

  /** Reading back a stream that starts with what `ovf2_write` prints for a record without
      error, followed by the marker line of the binary format, gives the grid size the record
      had. The result has an error exactly when that grid size is not all positive, so the grid
      size of a record the reader accepted comes back unchanged. */
  lemma {:induction false} ReadWrittenHeader(d: Ovf2Data, lines: seq<string>, errno: int)
    requires |lines| > 8 && lines[..8] == HeaderLines(d) && lines[8] == HeaderText(DataBinary)
    ensures var r := Read(Input(lines, errno));
            && r.valuedim == d.valuedim && r.xnodes == d.xnodes
            && r.ynodes == d.ynodes && r.znodes == d.znodes
            && (r.err.None? <==> AllPositive(d))
  {
    var input := Input(lines, errno);
    WrittenStream(d, lines);
    ReadFields(input);
    ReadError(input);
    HeaderValues(d);
  }

  /** No record `ovf2_read` accepts can be written: its grid size is positive, so the sample loop
      of `ovf2_write` runs, but it holds no samples for `ovf2_get` to read. */
  lemma {:induction false} ReadNotWritable(input: Input)
    ensures Read(input).err.None? ==> !CanWrite(Read(input))
  {
  }

  /** A concrete case: the header of any record with a positive grid size, then the marker line,
      reads back without error, and the record read cannot be written. */
  lemma {:induction false} WrittenHeaderNotWritable(d: Ovf2Data, lines: seq<string>, errno: int)
    requires |lines| > 8 && lines[..8] == HeaderLines(d) && lines[8] == HeaderText(DataBinary)
    requires AllPositive(d)
    ensures Read(Input(lines, errno)).err.None? && !CanWrite(Read(Input(lines, errno)))
  {
    ReadWrittenHeader(d, lines, errno);
  }

  /** What the data section of `ovf2_read` is there to do: attach the `datalen` samples that
      follow the marker line to the record the header gave. */
  function WithSamples(r: Ovf2Data, samples: seq<Float32>): (f: Ovf2Data)
    requires r.err.None? && |samples| == DataLen(r)
    ensures HasData(f) && f.data == Some(samples)
    ensures f.err == r.err && f.valuedim == r.valuedim
    ensures f.xnodes == r.xnodes && f.ynodes == r.ynodes && f.znodes == r.znodes
  {
    r.(data := Some(samples))
  }

  /** With its samples attached, a record `ovf2_read` accepts can be written, and the output
      carries each of them. */
  lemma {:induction false} ReadWithSamplesWritable(input: Input, samples: seq<Float32>)
    requires Read(input).err.None? && |samples| == DataLen(Read(input))
    ensures CanWrite(WithSamples(Read(input), samples))
    ensures CountIf(Write(WithSamples(Read(input), samples)), IsSample) == |samples|
  {
    WriteSampleCount(WithSamples(Read(input), samples));
  }
}
