/** The header loop of `ovf2_read`, for any stop test and any loop body: read a line, stop with an
    error when the stream ends or the line lacks its `#`, stop without one when the line passes
    the stop test, and otherwise let the body update the record and go on. `Reader` instantiates
    it with the data-marker test and the header-key assignments. */
module HeaderLoop {
  import opened Wrappers
  import opened HeaderLine
  import opened Record

  /** A normalised line ends the loop: it lacked the `#`, or the stop test holds of its text. */
  predicate Stops(stop: string -> bool, n: Normalised)
  {
    n.bad || stop(n.line)
  }

  /** Each raw line through the normalisation `norm`. */
  function Normalise(norm: string -> Normalised, lines: seq<string>): (ns: seq<Normalised>)
    ensures |ns| == |lines|
  {
    seq(|lines|, i requires 0 <= i < |lines| => norm(lines[i]))
  }

  /** The loop over raw lines `lines`, normalised to `ns`, from record `d`. */
  function Scan(stop: string -> bool, step: (Ovf2Data, string) -> Ovf2Data,
                lines: seq<string>, ns: seq<Normalised>, errno: int, d: Ovf2Data): Ovf2Data
    requires |ns| == |lines|
    decreases |lines|
  {
    if |lines| == 0 then d.(err := Some(InputError(errno)))
    else if ns[0].bad then d.(err := Some(InvalidHeaderLine(lines[0])))
    else if stop(ns[0].line) then d
    else Scan(stop, step, lines[1..], ns[1..], errno, step(d, ns[0].line))
  }

  /** The index of the first line that ends the loop, or the number of lines if none does. */
  function StopAt(stop: string -> bool, ns: seq<Normalised>): (k: nat)
    ensures k <= |ns|
    ensures forall i :: 0 <= i < k ==> !Stops(stop, ns[i])
    ensures k < |ns| ==> Stops(stop, ns[k])
    decreases |ns|
  {
    if |ns| == 0 || Stops(stop, ns[0]) then 0 else 1 + StopAt(stop, ns[1..])
  }

  /** The text of each normalised line. */
  function Texts(ns: seq<Normalised>): (ts: seq<string>)
    ensures |ts| == |ns|
    ensures forall i :: 0 <= i < |ns| ==> ts[i] == ns[i].line
  {
    seq(|ns|, i requires 0 <= i < |ns| => ns[i].line)
  }

  /** The loop body applied to the lines `ts` in order. */
  function ApplyAll(step: (Ovf2Data, string) -> Ovf2Data, d: Ovf2Data, ts: seq<string>): Ovf2Data
    decreases |ts|
  {
    if |ts| == 0 then d else ApplyAll(step, step(d, ts[0]), ts[1..])
  }

  /** The loop stops at the first line without `#` or passing the stop test, whichever comes
      first, having applied its body to exactly the lines before it; it ends with an input error
      when neither comes and with an invalid-line error on a line without `#`. */
  lemma {:induction false} ScanStopsAt(stop: string -> bool, step: (Ovf2Data, string) -> Ovf2Data,
                                       lines: seq<string>, ns: seq<Normalised>, errno: int, d: Ovf2Data)
    requires |ns| == |lines|
    ensures var k := StopAt(stop, ns);
            var f := ApplyAll(step, d, Texts(ns[..k]));
            Scan(stop, step, lines, ns, errno, d) ==
              if k == |lines| then f.(err := Some(InputError(errno)))
              else if ns[k].bad then f.(err := Some(InvalidHeaderLine(lines[k])))
              else f
    decreases |lines|
  {
    var k := StopAt(stop, ns);
    if |lines| > 0 && !Stops(stop, ns[0]) {
      var d1 := step(d, ns[0].line);
      ScanStopsAt(stop, step, lines[1..], ns[1..], errno, d1);
      assert StopAt(stop, ns[1..]) == k - 1;
      var ts := Texts(ns[..k]);
      assert ts[1..] == Texts(ns[1..][..k - 1]);
    } else {
      assert Texts(ns[..0]) == [];
    }
  }

  lemma {:induction false} ApplyAllSnoc(step: (Ovf2Data, string) -> Ovf2Data, d: Ovf2Data,
                                        ts: seq<string>, l: string)
    ensures ApplyAll(step, d, ts + [l]) == step(ApplyAll(step, d, ts), l)
    decreases |ts|
  {
    if |ts| == 0 {
      assert ts + [l] == [l];
    } else {
      assert (ts + [l])[1..] == ts[1..] + [l];
      ApplyAllSnoc(step, step(d, ts[0]), ts[1..], l);
    }
  }

  /** The loop reads nothing after the line it stops at: cutting the stream after that line, or
      changing the `errno` a later failure would leave, gives the same record. */
  lemma {:induction false} ScanCut(stop: string -> bool, step: (Ovf2Data, string) -> Ovf2Data,
                                   lines: seq<string>, ns: seq<Normalised>, errno: int,
                                   errno': int, d: Ovf2Data)
    requires |ns| == |lines| && StopAt(stop, ns) < |lines|
    ensures var k := StopAt(stop, ns);
            Scan(stop, step, lines, ns, errno, d)
              == Scan(stop, step, lines[..k + 1], ns[..k + 1], errno', d)
    decreases |lines|
  {
    var k := StopAt(stop, ns);
    var cut, ncut := lines[..k + 1], ns[..k + 1];
    assert cut[0] == lines[0] && ncut[0] == ns[0];
    if !Stops(stop, ns[0]) {
      assert StopAt(stop, ns[1..]) == k - 1;
      ScanCut(stop, step, lines[1..], ns[1..], errno, errno', step(d, ns[0].line));
      assert cut[1..] == lines[1..][..k] && ncut[1..] == ns[1..][..k];
    }
  }

  /** Cutting the lines after the stopping line does not move the stop. */
  lemma {:induction false} StopAtPrefix(stop: string -> bool, ns: seq<Normalised>, m: nat)
    requires StopAt(stop, ns) < m <= |ns|
    ensures StopAt(stop, ns[..m]) == StopAt(stop, ns)
    decreases |ns|
  {
    if |ns| > 0 && !Stops(stop, ns[0]) {
      assert ns[..m][1..] == ns[1..][..m - 1];
      StopAtPrefix(stop, ns[1..], m - 1);
    }
  }

  /** A loop that stopped on a line with `#` stopped because the test held of it, every line
      before it having its `#` too. */
  lemma {:induction false} StopLine(stop: string -> bool, ns: seq<Normalised>)
    requires StopAt(stop, ns) < |ns| && !ns[StopAt(stop, ns)].bad
    ensures forall i :: 0 <= i <= StopAt(stop, ns) ==> !ns[i].bad
    ensures stop(ns[StopAt(stop, ns)].line)
  {
    var k := StopAt(stop, ns);
    assert Stops(stop, ns[k]);
    forall i | 0 <= i < k
      ensures !ns[i].bad
    {
      assert !Stops(stop, ns[i]);
    }
  }

  /** The loop over a stream cut after its stopping line gives the same record, whatever `errno`
      the cut stream ends with. */
  lemma {:induction false} RunCut(stop: string -> bool, step: (Ovf2Data, string) -> Ovf2Data,
                                  norm: string -> Normalised, lines: seq<string>, errno: int,
                                  errno': int, d: Ovf2Data)
    requires StopAt(stop, Normalise(norm, lines)) < |lines|
    ensures var k := StopAt(stop, Normalise(norm, lines));
            Scan(stop, step, lines, Normalise(norm, lines), errno, d)
              == Scan(stop, step, lines[..k + 1], Normalise(norm, lines[..k + 1]), errno', d)
  {
    var ns := Normalise(norm, lines);
    var k := StopAt(stop, ns);
    assert Normalise(norm, lines[..k + 1]) == ns[..k + 1];
    ScanCut(stop, step, lines, ns, errno, errno', d);
  }
}
