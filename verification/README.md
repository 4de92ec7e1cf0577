# libovf2 in Dafny

libovf2 reads and writes the header of an OOMMF OVF 2.0 file. An OVF 2.0 file holds a vector
field on a regular grid: `valuedim` components per node on an `xnodes` x `ynodes` x `znodes`
grid. This project models the library's record and its operations as pure functions, and proves
what they guarantee.

The record is `ovf2_data`: an optional error, the four numbers, and an optional sample array.
The model covers:

- Header-line normalisation (`ovf2_readLine`) and its helpers:
  - `ovfIsSpace` is `CStrings.IsBlank`.
  - `isspace` is `CStrings.IsSpace`.
  - `tolower` and `strToLower` are `CStrings.LowerChar` and `CStrings.ToLower`.
  - `strstr` and `hasPrefix` are `CStrings.StrStr` and `CStrings.HasPrefix`.
  - `strcmp` and `strEq` are `CStrings.CompareFrom` and `CStrings.StrEq`.
- `hdrVal` (`HeaderLine.HdrVal`).
- `atoi` and `%d` (`Decimal.Atoi`, `Decimal.IntToDecimal`).
- The header loop of `ovf2_read` and the checks after it (`Reader`).
- `ovf2_get`, `ovf2_datalen` and `ovf2_free` (`Record`).
- `ovf2_write` (`Writer`): the output is a sequence of tokens, one per piece of text or per
  sample.

The stream `ovf2_read` consumes is given as an `Input`. It lists the lines `fgets` returns, in
order, and the `errno` left by the failing `fgets` that comes after the last of them. Samples
are `bv32` bit patterns and are never interpreted.

Module layout:

- `Wrappers`: `Option`.
- `Arith`: mixed-radix arithmetic.
- `Seqs`: flattening, chunking and counting.
- `CStrings`, `Decimal`, `HeaderLine`: the line-level operations.
- `Record`: the record and the operations on it.
- `HeaderLoop`: the header loop of `ovf2_read`, generic over its stop test and its body.
- `Reader`: `ovf2_read`.
- `Layout`: the writer's loop nest, generic over what one cell prints.
- `Writer`: `ovf2_write`.
- `HeaderRoundTrip`: the written header read back.
- `LineBuffer`: the character array of `ovf2_readLine`, for the first finding below.

Notes on the model:

- The comment above `ovf2_readLine` (libovf2.c:86-92) gives `# XNodes:  7 ## comment` ->
  `xnodes: 7`. The code only trims the ends, so inner blanks survive and the result is
  `xnodes:  7`, with two blanks. The model follows the code (`HeaderLine.ReadLineExample`).
  `hdrVal` then skips those blanks (`HeaderLine.HdrValExample`).
- `ovf2_read` never fills the sample array: the data-section code is commented out. A record it
  returns therefore has no samples (`Reader.Read`), and one it accepts cannot be written (see
  Findings).
- On a record with a positive grid and no error, `ovf2_write` calls `ovf2_get`, which needs the
  samples. `Writer.Write` therefore requires `Writer.CanWrite`: the record has an error, has a
  grid size that is not positive, or has exactly `ovf2_datalen` samples.
- `ovf2_write` writes no `# Begin: Data ...` line, so its output does not read back as is. The
  round trip `HeaderRoundTrip.ReadWrittenHeader` reads the eight written header lines followed
  by the line `# Begin: Data Binary 4`.

## Model

| member | source | states |
|---|---|---|
| CStrings.LeadingRun | libovf2.c:109-112 | the length of the longest prefix whose characters all pass the test: every character before it passes, the one at it fails |
| CStrings.LeadingRunAppend | libovf2.c:109-112 | a scan that passes all of one string and stops at the start of the next ends exactly at the join |
| CStrings.ToLower | libovf2.c:60-64 | keeps the length, leaves no upper-case letter, and maps each character by itself: letters `A`..`Z` to their lower case, every other character to itself |
| CStrings.ToLowerFixpoint | libovf2.c:60-64 | lower-casing leaves a string unchanged exactly when it holds no upper-case letter |
| CStrings.ToLowerAppend | libovf2.c:60-64 | lower-casing works character by character, so it distributes over concatenation |
| CStrings.FindFrom | libovf2.c:57 | the first position at or after `from` where the pattern occurs, and none is reported only when no position from there on has it |
| CStrings.StrStr | libovf2.c:57 | `strstr`: the first occurrence of the pattern, and none is reported only when the pattern occurs nowhere |
| CStrings.HasPrefixByStrStr | libovf2.c:53-58 | `strstr(s, prefix) == s` holds exactly when `prefix` is a prefix of `s` |
| CStrings.CompareFromZero | libovf2.c:46-51 | for NUL-free strings that agree before `i`, `strcmp` from `i` is 0 exactly when the strings are equal |
| CStrings.StrEq | libovf2.c:46-51 | `strEq` of two NUL-free strings is true exactly when they are equal |
| Decimal.Atoi | libovf2.c:163 | `atoi` reads 0 when no digit follows the white space and the optional sign |
| Decimal.NatToDecimal | libovf2.c:259-262 | `%d` of a natural number: a nonempty run of digits with no leading zero, spelling that number |
| Decimal.IntToDecimal | libovf2.c:259-262 | `%d`: for a non-negative number, digits spelling it with no leading zero; for a negative one, a minus sign followed by digits spelling its magnitude, again with no leading zero |
| Decimal.AtoiOfDecimal | libovf2.c:163 | `atoi` reads back exactly the number `%d` wrote, for every integer |
| HeaderLine.TrimmedLength | libovf2.c:123-128 | what remains after trailing `isspace` characters are cut: everything cut is white space, and the last character kept is not |
| HeaderLine.TrimmedLengthAppend | libovf2.c:123-128 | trailing white space appended to a string is cut away again |
| HeaderLine.ReadLine | libovf2.c:93-132 | the error flag is set exactly when the line does not start with `#`. The text has no `#`, no line feed, no leading blank, no trailing white space and no upper case, and is no longer than the raw line |
| HeaderLine.Text | libovf2.c:108-128 | the text left once leading blanks, the comment or line end, and trailing white space are cut: no `#`, no line feed, no leading blank, no trailing white space, and no longer than the line |
| HeaderLine.ReadLineFirstChar | libovf2.c:101-106 | the first character only decides the error. It is overwritten with a blank either way, so the text is what the line would give with `#` in its place |
| HeaderLine.ReadLineParts | libovf2.c:101-131 | `#`, blanks, text, trailing white space and then a comment or the line end normalise to the lower-cased text, without error |
| HeaderLine.ReadLineBlank | libovf2.c:101-128 | `#`, blanks, white space other than a line feed, then a comment or the line end give empty text, without error |
| HeaderLine.ReadLineFixpoint | libovf2.c:93-132 | text already in normal form, behind a `#`, comes back unchanged and without error |
| HeaderLine.ReadLineExample | libovf2.c:86-92 | `# XNodes:  7 ## comment` and a line feed normalise to `xnodes:  7`; the blanks inside the text are kept |
| HeaderLine.HdrValExample | libovf2.c:134-148 | the value of `xnodes:  7` is `7` |
| HeaderLine.ColonIndex | libovf2.c:138-141 | the position of the first colon: there is a colon there and none before it |
| HeaderLine.HdrVal | libovf2.c:137-148 | a suffix of the line that starts after the first colon. Only blanks lie between the colon and the value, and the value does not start with a blank |
| HeaderLine.HdrValOf | libovf2.c:137-148 | for a key without a colon, then a colon, blanks and a value not starting with a blank, `hdrVal` returns exactly the value |
| Record.ErrorText | libovf2.c:180-188 | the stored message is a prefix of the full message of at most `BUFLEN - 1` characters. It is the whole message when that fits and exactly `BUFLEN - 1` characters when it does not, and it always starts with `ovf2_read: ` |
| Record.DataLen | libovf2.c:305-307 | for a positive grid, the length is at least each of the four numbers; it is 0 when one of them is 0 |
| Record.OffsetInRange | libovf2.h:33-38 | every in-bounds coordinate addresses an index inside an array of `ovf2_datalen` samples |
| Record.CoordOfOffset | libovf2.c:245 | decoding the index of an in-bounds coordinate gives the coordinate back |
| Record.OffsetOfCoord | libovf2.h:33-38 | every index of the array belongs to an in-bounds coordinate |
| Record.OffsetInjective | libovf2.c:245 | distinct in-bounds coordinates address distinct samples |
| Record.Grid | libovf2.h:36-37 | the nested view `data[c][z][y][x]` has `valuedim` components |
| Record.GridShape | libovf2.h:36-37 | each component of the nested view holds `znodes` planes, each of `ynodes` rows of `xnodes` samples |
| Seqs.ChunkFlatten | libovf2.h:36-37 | one level of `Chunk`, the cut into equal blocks that each level of the nested view is built from, is undone by `Flatten`: joining the blocks gives the flat array back |
| Record.GridIndex | libovf2.c:234-246 | cell `[c][z][y][x]` of the nested view is the sample at the flat index `ovf2_get` reads, and that index is inside the array |
| Record.Get | libovf2.c:234-246 | `ovf2_get` is defined only inside the bounds it asserts, and returns element `data[c][z][y][x]` |
| Record.Free | libovf2.c:289-302 | after `ovf2_free` there is no error and no samples, the four numbers are 0, the data length is 0 and no coordinate is in bounds |
| Record.FreeIdempotent | libovf2.h:29-31 | freeing a freed record changes nothing |
| Reader.Apply | libovf2.c:162-177 | one pass of the loop body never touches the error or the samples |
| Reader.KeyFirstLetter | libovf2.c:162-177 | a line carries at most one of the four keys, so at most one branch of the body applies |
| Reader.ApplySameKey | libovf2.c:162-177 | a later line under a key overrides an earlier one under the same key: applying both is applying the later alone |
| Reader.ApplyOtherKeys | libovf2.c:162-177 | lines under two different keys give the same record in either order |
| Reader.ApplyInert | libovf2.c:162-177 | a line under none of the four keys leaves the record unchanged and so commutes with every line |
| Reader.Validate | libovf2.c:180-192 | no error exactly when there was none and all four numbers are positive. A non-positive node count gives the grid-size error, which replaces the valuedim error |
| Reader.Read | libovf2.c:151-216 | `ovf2_read` never returns samples, and a record it returns without error has all four numbers positive |
| HeaderLoop.StopAt | libovf2.c:155-160 | the loop's last line: no line before it stops the loop, and it lacks `#` or is the data marker, unless the lines ran out |
| HeaderLoop.ScanStopsAt | libovf2.c:155-178 | the loop applies exactly the lines before the first one lacking `#` or the first data marker. It ends with an input error when neither comes, and with an invalid-line error on a line lacking `#` |
| Reader.LastLineWins | libovf2.c:162-177 | each field holds the value of the last line with its key, or its old value when no line has that key; nothing else changes |
| Reader.LastValueAt | libovf2.c:162-177 | a line with the key that no later line repeats decides the value |
| Reader.ReadFields | libovf2.c:151-178 | the four numbers `ovf2_read` returns come from the last line with each key before the loop stopped, and are 0 for a key no such line has |
| Reader.ReadError | libovf2.c:151-192 | the error `ovf2_read` returns. The grid-size error comes first, then the valuedim error, then the error that ended the loop. There is none exactly when the loop reached the data marker and all four numbers are positive |
| Reader.ReadNeedsMarker | libovf2.c:155-160 | a read without error reached a data marker, and every line up to it started with `#` |
| Reader.MarkedLine | libovf2.c:102-105 | a line read without error starts with `#` |
| HeaderLoop.RunCut | libovf2.c:155-160 | nothing after the stopping line is read: for any stop test and body, the loop over the stream cut after that line gives the same record, whatever `errno` the cut stream ends with |
| HeaderLoop.StopAtPrefix | libovf2.c:155-160 | cutting the lines after the stopping line does not move the stop |
| Reader.MarkerValue | libovf2.c:158 | a `begin:` line is the data marker exactly when its value starts with `data` |
| Reader.MarkerExamples | libovf2.c:158 | `begin: segment` and `begin: header` do not stop the loop; `begin: data binary 4` and `begin: data text` do |
| Layout.ItemsLength | libovf2.c:264-275 | the loop nest prints `nz` planes of `ny` rows, each row `nx * nc` cells and a line feed, each plane one more line feed |
| Layout.ItemAt | libovf2.c:264-270 | cell `(c, x, y, z)` is printed at `z * p + y * r + x * nc + c`, where `r` is the length of a row with its line feed and `p` that of a plane |
| Layout.ItemPosOrder | libovf2.c:264-267 | cells visited earlier by the loops (`z` outermost, then `y`, then `x`, the component innermost) are printed at smaller positions |
| Layout.RowEndAt | libovf2.c:272 | each row ends in a line feed |
| Layout.PlaneEndAt | libovf2.c:274 | each plane ends in one more line feed |
| Layout.ItemsCount | libovf2.c:264-275 | the loop nest prints exactly `nz * ny * nx * nc` cells, when no line feed counts as a cell |
| Writer.HeaderLines | libovf2.c:255-262 | the header has eight lines |
| Writer.Write | libovf2.c:249-262 | with an error, the output is only the error text; without one, it starts with the eight header lines |
| Writer.WriteLength | libovf2.c:264-275 | without an error, the output is the header, then `znodes` planes of `ynodes` rows. Each row is `xnodes * valuedim` samples and a line feed, and each plane ends in one more line feed. A count that is not positive runs its loop zero times |
| Writer.WriteSampleAt | libovf2.c:264-270 | sample `(c, x, y, z)` is written at `8 + z * PlaneLen + y * RowLen + x * valuedim + c`, inside the output, and it is `ovf2_get` of that coordinate |
| Writer.WriteSampleOrder | libovf2.c:264-267 | samples are written in loop order: `z` outermost, then `y`, then `x`, the component innermost |
| Writer.WriteRowEnd | libovf2.c:272 | a line feed follows the last sample of every row |
| Writer.WritePlaneEnd | libovf2.c:274 | one more line feed follows every plane |
| Writer.WriteSampleCount | libovf2.c:264-275 | without an error, exactly `ovf2_datalen` samples are written when the grid is positive, and none otherwise |
| HeaderRoundTrip.HeaderTextNormalises | libovf2.c:93-132 | a line `# t` and a line feed, with `t` keepable, normalises to `t` lower-cased |
| HeaderRoundTrip.NumberLineValue | libovf2.c:259-262 | `hdrVal` and `atoi` read back the number a written `name: %d` line carries |
| HeaderRoundTrip.DataMarkerLine | libovf2.c:155-160 | a written `begin:` line whose value starts with `data` normalises without error to a line that stops the loop |
| HeaderRoundTrip.MarkerLine | libovf2.c:158 | `# Begin: Data Binary 4` normalises without error to a line that stops the loop |
| HeaderRoundTrip.WrittenStream | libovf2.c:155-178 | on the written header plus that marker line, the loop stops at the marker after eight lines read without error, and those lines are the written header lower-cased |
| HeaderRoundTrip.HeaderValues | libovf2.c:162-177 | the normalised written header carries the record's four numbers, one line each |
| HeaderRoundTrip.ReadWrittenHeader | libovf2.c:255-262 | reading back what `ovf2_write` wrote, plus the marker line, gives the record's four numbers. The result has no error exactly when all four are positive |
| HeaderRoundTrip.ReadNotWritable | libovf2.c:151-216 | a record `ovf2_read` returns without error has a positive grid and no samples, so `ovf2_write` cannot print it |
| HeaderRoundTrip.WrittenHeaderNotWritable | libovf2.c:151-216 | the written header of any record with a positive grid, then the marker line, reads back without error into a record that cannot be written |
| HeaderRoundTrip.WithSamples | libovf2.c:205-208 | attaching `ovf2_datalen` samples to a record read without error gives a record with samples and the same header fields |
| HeaderRoundTrip.ReadWithSamplesWritable | libovf2.c:264-275 | with its samples attached, a record `ovf2_read` accepts can be written, and exactly those samples are printed |
| LineBuffer.ScanOverrun | libovf2.c:117-121 | in the code as written, a first line without a line feed and without a second `#` runs the comment scan past the end of the array |
| LineBuffer.CutInsideText | libovf2.c:117-121 | a scan that also stops at the terminator ends within the text moved to the front: at most the line's length less the leading blanks after the blanked first character, and so strictly inside the array |

## Left out

- `ovf2_readfile` and `ovf2_writeffile` (libovf2.c:219-231, 278-287) open and close files.
  When `fopen` fails, `ovf2_readfile` returns a record whose only content is an
  `ovf2_readfile: failed to open` error (libovf2.c:221-226). `panic`, `efputs` and `efread`
  abort the process on failure. Files and process exit are not modelled.
- `fgets` returns at most `BUFLEN - 1` characters per call and splits longer lines. The model
  takes the lines as `fgets` returned them.
- The code after the checks in `ovf2_read` is commented out (libovf2.c:194-213), so it is not
  modelled. That code compares the current line with `# begin: data binary 4`, reads and checks
  the control number `OVF2_CONTROL_NUMBER`, reads `ovf2_datalen` samples and checks for an
  `# end: data` line. `HeaderRoundTrip.WithSamples` models only the effect of the sample read.
- `%f` output of a sample is opaque: one `Sample` token stands for it. Floating point is not
  modelled.
- Memory allocation and release (`newLineBuf`, `malloc`, `free`) is not modelled. `Record.Free`
  models only the state the record is left in.
- `int` is unbounded in the model. Overflow in `atoi`, in `ovf2_datalen` and in the index
  `ovf2_get` computes is not modelled.
- Strings are taken to be NUL-free, as C strings are. `StrEq` promises equality only for
  NUL-free strings.
- `tolower` is modelled for the "C" locale: only `A`..`Z` change.
- `hdrVal` on a line without a colon: the source scans past the string. `HeaderLine.HdrVal`
  requires a colon, and the reader calls it only on lines that start with a key ending in one.
- `HeaderLine.ReadLine` stops the comment scan at the end of the text; the code as written does
  not (see Findings). It also flags an empty raw line, which `fgets` never returns.
- Decimal.Atoi: its contract states only the cases that read 0. `Decimal.AtoiOfDecimal` states
  what it reads from a written number.
- Lines are taken to be ASCII text. `BUFLEN` counts bytes, both where `fgets` splits a long line
  and where `snprintf` truncates an error message; the model counts characters, which is the same
  only for ASCII.
- Nothing after the stopping line is read: this is proved for the generic loop
  (`HeaderLoop.RunCut`), and not restated for `Reader.Read`.
- `main.c` and `test.c` are drivers and are not part of this model.

## Findings

| source | as written | input that shows it | evidently intended | confidence | as-written member | corrected member |
|---|---|---|---|---|---|---|
| libovf2.c:117-121 | The scan for `#` or a line feed does not stop at the terminator. A line with neither is read, and then written with `line[end] = 0`, past the end of `line[BUFLEN+1]` | a stream whose first line is `# OOMMF OVF 2.0` with no line feed at the end | the scan stops at the end of the text | high, not executed | LineBuffer.ScanOverrun | LineBuffer.CutInsideText |
| libovf2.c:151-216 | `ovf2_read` starts from `ovf2_data d = {}` and never sets `data`, because its data section is commented out. A record it accepts has a positive grid, so `ovf2_write` calls `ovf2_get` (libovf2.c:268), which reads `data->data[...]` through NULL (libovf2.c:245). `main.c` passes every record it reads to `ovf2_write`, and `test.c` calls `ovf2_get` on one | the eight header lines `ovf2_write` prints for any record with a positive grid, then `# Begin: Data Binary 4` | `ovf2_read` fills `data` with the `ovf2_datalen` samples that follow the marker line | high, not executed | HeaderRoundTrip.WrittenHeaderNotWritable | HeaderRoundTrip.ReadWithSamplesWritable |
