/**
 The length-framed output of `git cat-file --batch`, against its printer.

 A frame is a header line, as many payload bytes as the header says, and a newline; the payload may
 hold anything.
 */
module CatFile {
  import opened Basics
  import opened Splitting
  import opened Numerals

  const NEWLINE: byte := 10
  const SPACE: byte := 32
  const UNDERSCORE: byte := 95
  const PLUS: byte := 43
  const MINUS: byte := 45

  const BLOB: Bytes := [98, 108, 111, 98]

  /** `_validate_oid`. */
  predicate ValidOid(oid: Bytes) {
    && (|oid| == 40 || |oid| == 64)
    && forall b | b in oid :: ZERO <= b < ZERO + 10 || 97 <= b <= 102
  }

  // ---- Python's `int(bytes)` ----

  predicate IsDigit(b: byte) {
    ZERO <= b < ZERO + 10
  }

  predicate IsBlank(b: byte) {
    b == SPACE || 9 <= b <= 13
  }

  /** Digits, with single underscores between them. */
  function DigitsValue(s: Bytes): Option<nat> {
    if s == [] || !IsDigit(s[|s| - 1]) then None
    else
      var d := s[|s| - 1] - ZERO;
      if |s| == 1 then Some(d)
      else
        var front := if s[|s| - 2] == UNDERSCORE then DigitsValue(s[..|s| - 2]) else DigitsValue(s[..|s| - 1]);
        if front.None? then None else Some(10 * front.value + d)
  }

  function TrimLeft(s: Bytes): Bytes {
    if s != [] && IsBlank(s[0]) then TrimLeft(s[1..]) else s
  }

  function TrimRight(s: Bytes): Bytes {
    if s != [] && IsBlank(s[|s| - 1]) then TrimRight(s[..|s| - 1]) else s
  }

  function ParseInt(s: Bytes): Option<int> {
    var t := TrimRight(TrimLeft(s));
    if t != [] && t[0] == PLUS then DigitsValue(t[1..])
    else if t != [] && t[0] == MINUS then Negated(DigitsValue(t[1..]))
    else DigitsValue(t)
  }

  function Negated(v: Option<nat>): Option<int> {
    match v
    case None => None
    case Some(n) => var i: int := n; Some(-i)
  }

  lemma {:induction false} NumeralIsDigits(n: nat)
    ensures forall b | b in Numeral(Decimal, n) :: IsDigit(b)
    ensures DigitsValue(Numeral(Decimal, n)) == Some(n)
    decreases n
  {
    var s := Numeral(Decimal, n);
    if n >= 10 {
      NumeralIsDigits(n / 10);
      var init := Numeral(Decimal, n / 10);
      assert s == init + [ZERO + n % 10] && s[..|s| - 1] == init;
      assert s[|s| - 2] == init[|init| - 1] && init[|init| - 1] in init;
    }
  }

  /** The numeral that Git prints is read as the number it stands for. */
  lemma {:induction false} ParseIntReadsNumeral(n: nat)
    ensures ParseInt(Numeral(Decimal, n)) == Some(n)
  {
    NumeralIsDigits(n);
    var s := Numeral(Decimal, n);
    assert s[0] in s && s[|s| - 1] in s;
  }

  // ---- Frames ----

  /** One object of the batch as it stands in the stream, with the digits Git used for its size. */
  datatype Frame = Frame(oid: Bytes, numeral: Bytes, payload: Bytes) {
    function Header(): Bytes { oid + [SPACE] + BLOB + [SPACE] + numeral }

    function Render(): Bytes { Header() + [NEWLINE] + payload + [NEWLINE] }

    predicate Fits(maxFileBytes: nat) {
      && ValidOid(oid) && NEWLINE !in numeral && SPACE !in numeral
      && ParseInt(numeral) == Some(|payload|) && |payload| <= maxFileBytes && |Header()| <= 256
    }
  }

  function RenderAll(frames: seq<Frame>): Bytes {
    if frames == [] then [] else frames[0].Render() + RenderAll(frames[1..])
  }

  /** The frame that Git prints for an object. */
  function Printed(oid: Bytes, payload: Bytes): Frame {
    Frame(oid, Numeral(Decimal, |payload|), payload)
  }

  // ---- The parser ----

  /** Read the frame expected for `id` off the front of the data. */
  function ParseFrame(data: Bytes, id: Bytes, maxFileBytes: nat): Option<(Frame, Bytes)> {
    var newline := Find(NEWLINE, data);
    if newline == |data| || newline > 256 then None
    else
      var fields := SplitOn(SPACE, data[..newline]);
      if |fields| != 3 || !ValidOid(fields[0]) || fields[0] != id || fields[1] != BLOB then None
      else
        var size := ParseInt(fields[2]);
        if size.None? || size.value < 0 || size.value > maxFileBytes then None
        else
          var start := newline + 1;
          var end := start + size.value;
          if end >= |data| || data[end] != NEWLINE then None
          else Some((Frame(id, fields[2], data[start..end]), data[end + 1..]))
  }

  function ParseAll(data: Bytes, ids: seq<Bytes>, maxFileBytes: nat): Option<seq<Frame>> {
    if ids == [] then (if data == [] then Some([]) else None)
    else
      var first := ParseFrame(data, ids[0], maxFileBytes);
      if first.None? then None
      else
        var rest := ParseAll(first.value.1, ids[1..], maxFileBytes);
        if rest.None? then None else Some([first.value.0] + rest.value)
  }

  type Blobs = map<Bytes, Bytes>

  function Table(frames: seq<Frame>): Blobs {
    if frames == [] then map[] else Table(frames[..|frames| - 1])[frames[|frames| - 1].oid := frames[|frames| - 1].payload]
  }

  /** One turn of the loop: the payload at `position` and the position after its frame. */
  method ReadFrame(data: Bytes, position: nat, id: Bytes, maxFileBytes: nat)
    returns (ok: bool, start: nat, end: nat, ghost numeral: Bytes)
    requires position <= |data|
    ensures ok <==> ParseFrame(data[position..], id, maxFileBytes).Some?
    ensures ok ==> position <= start <= end < |data|
                   && ParseFrame(data[position..], id, maxFileBytes)
                      == Some((Frame(id, numeral, data[start..end]), data[end + 1..]))
  {
    ok, start, end, numeral := false, 0, 0, [];
    var newline := Find(NEWLINE, data[position..]);
    if newline == |data| - position || newline > 256 {
      return;
    }
    var fields := SplitOn(SPACE, data[position..][..newline]);
    if |fields| != 3 || !ValidOid(fields[0]) {
      return;
    }
    if fields[0] != id || fields[1] != BLOB {
      return;
    }
    var size := ParseInt(fields[2]);
    if size.None? || size.value < 0 || size.value > maxFileBytes {
      return;
    }
    start := position + newline + 1;
    end := start + size.value;
    if end >= |data| || data[end] != NEWLINE {
      return;
    }
    ok, numeral := true, fields[2];
    assert data[position..][newline + 1..newline + 1 + size.value] == data[start..end];
    assert data[position..][newline + 1 + size.value + 1..] == data[end + 1..];
  }

  /** What is still to be read at `position` completes what has been read to `all`. */
  ghost predicate OnTrack(all: Option<seq<Frame>>, done: seq<Frame>, data: Bytes, position: nat, ids: seq<Bytes>, i: nat,
                          maxFileBytes: nat)
  {
    && position <= |data| && i <= |ids|
    && all == Prepend(done, ParseAll(data[position..], ids[i..], maxFileBytes))
  }

  lemma OneFrameOn(all: Option<seq<Frame>>, done: seq<Frame>, data: Bytes, position: nat, ids: seq<Bytes>, i: nat,
                   maxFileBytes: nat)
    requires i < |ids| && OnTrack(all, done, data, position, ids, i, maxFileBytes)
    ensures var first := ParseFrame(data[position..], ids[i], maxFileBytes);
      if first.None? then all.None?
      else forall next | position <= next <= |data| && data[next..] == first.value.1 ::
             OnTrack(all, done + [first.value.0], data, next, ids, i + 1, maxFileBytes)
  {
    assert ids[i..][0] == ids[i] && ids[i..][1..] == ids[i + 1..];
    var first := ParseFrame(data[position..], ids[i], maxFileBytes);
    if first.Some? {
      PrependOne(done, first.value.0, ParseAll(first.value.1, ids[i + 1..], maxFileBytes));
    }
  }

  lemma AllRead(all: Option<seq<Frame>>, done: seq<Frame>, data: Bytes, position: nat, ids: seq<Bytes>, maxFileBytes: nat)
    requires OnTrack(all, done, data, position, ids, |ids|, maxFileBytes)
    ensures all == if position == |data| then Some(done) else None
  {
    assert ids[|ids|..] == [] && done + [] == done;
  }

  /** `_parse_cat_file_batch`: a position moves over the data, and each frame fills the dictionary. */
  method ParseCatFileBatch(data: Bytes, ids: seq<Bytes>, maxFileBytes: nat) returns (blobs: Option<Blobs>)
    ensures blobs == Tabled(ParseAll(data, ids, maxFileBytes))
  {
    var position: nat := 0;
    var table: Blobs := map[];
    ghost var done: seq<Frame> := [];
    ghost var all := ParseAll(data, ids, maxFileBytes);
    assert data[0..] == data && ids[0..] == ids;
    PrependNothing(all);
    for i := 0 to |ids|
      invariant table == Table(done) && OnTrack(all, done, data, position, ids, i, maxFileBytes)
    {
      OneFrameOn(all, done, data, position, ids, i, maxFileBytes);
      var ok, start, end, numeral := ReadFrame(data, position, ids[i], maxFileBytes);
      if !ok {
        return None;
      }
      table := table[ids[i] := data[start..end]];
      ghost var frame := Frame(ids[i], numeral, data[start..end]);
      PrependOne(done, frame, None);
      done := done + [frame];
      position := end + 1;
    }
    AllRead(all, done, data, position, ids, maxFileBytes);
    if position != |data| {
      return None;
    }
    return Some(table);
  }

  function Tabled(frames: Option<seq<Frame>>): Option<Blobs> {
    if frames.None? then None else Some(Table(frames.value))
  }

  function Prepend(done: seq<Frame>, rest: Option<seq<Frame>>): Option<seq<Frame>> {
    if rest.None? then None else Some(done + rest.value)
  }

  lemma PrependNothing(rest: Option<seq<Frame>>)
    ensures Prepend([], rest) == rest
  {
    if rest.Some? { assert [] + rest.value == rest.value; }
  }

  lemma PrependOne(done: seq<Frame>, frame: Frame, rest: Option<seq<Frame>>)
    ensures Prepend(done, Prepend([frame], rest)) == Prepend(done + [frame], rest)
    ensures Table(done + [frame]) == Table(done)[frame.oid := frame.payload]
  {
    assert (done + [frame])[..|done|] == done;
    if rest.Some? { assert done + ([frame] + rest.value) == done + [frame] + rest.value; }
  }

  // ---- The parser against the printer ----

  lemma JoinThree(sep: byte, a: Bytes, b: Bytes, c: Bytes)
    ensures JoinWith(sep, [a, b, c]) == a + [sep] + b + [sep] + c
  {
    var parts := [a, b, c];
    assert parts[1..] == [b, c] && [b, c][1..] == [c];
    assert JoinWith(sep, [b, c]) == b + [sep] + c;
    assert a + [sep] + (b + [sep] + c) == a + [sep] + b + [sep] + c;
  }

  lemma HeaderFields(f: Frame)
    requires SPACE !in f.oid && SPACE !in f.numeral
    ensures SplitOn(SPACE, f.Header()) == [f.oid, BLOB, f.numeral]
  {
    var parts := [f.oid, BLOB, f.numeral];
    JoinThree(SPACE, f.oid, BLOB, f.numeral);
    SplitJoin(SPACE, parts);
  }

  /** A rendered frame is read back, whatever bytes its payload holds and whatever follows. */
  lemma FrameReadsBack(f: Frame, rest: Bytes, maxFileBytes: nat)
    requires f.Fits(maxFileBytes)
    ensures ParseFrame(f.Render() + rest, f.oid, maxFileBytes) == Some((f, rest))
  {
    var data := f.Render() + rest;
    var h := f.Header();
    assert SPACE !in f.oid && NEWLINE !in f.oid;
    assert NEWLINE !in h;
    FindAfter(NEWLINE, h, f.payload + [NEWLINE] + rest);
    assert data == h + [NEWLINE] + (f.payload + [NEWLINE] + rest);
    assert data[..|h|] == h;
    HeaderFields(f);
    var start := |h| + 1;
    assert data[start..] == f.payload + ([NEWLINE] + rest);
    assert data[start..start + |f.payload|] == f.payload;
    assert data[start + |f.payload|] == NEWLINE && data[start + |f.payload| + 1..] == rest;
  }

  /** Whatever is read is a frame that fits, rendered, and the rest of the data. */
  lemma ReadIsFrame(data: Bytes, id: Bytes, maxFileBytes: nat)
    requires ParseFrame(data, id, maxFileBytes).Some?
    ensures var (f, rest) := ParseFrame(data, id, maxFileBytes).value;
      f.oid == id && f.Fits(maxFileBytes) && data == f.Render() + rest
  {
    var (f, rest) := ParseFrame(data, id, maxFileBytes).value;
    var newline := Find(NEWLINE, data);
    var fields := SplitOn(SPACE, data[..newline]);
    JoinSplit(SPACE, data[..newline]);
    assert fields == [fields[0], fields[1], fields[2]];
    JoinThree(SPACE, fields[0], fields[1], fields[2]);
    assert data[..newline] == f.Header();
    assert fields[2] in fields;
    forall b | b in fields[2] ensures b != NEWLINE {
      assert b in f.Header();
    }
    var start := newline + 1;
    assert data == data[..newline] + [NEWLINE] + data[start..start + |f.payload|] + [NEWLINE] + data[start + |f.payload| + 1..];
  }

  predicate Answers(frames: seq<Frame>, ids: seq<Bytes>, maxFileBytes: nat) {
    |frames| == |ids| && forall i | 0 <= i < |ids| :: frames[i].oid == ids[i] && frames[i].Fits(maxFileBytes)
  }

  lemma AnswersRest(frames: seq<Frame>, ids: seq<Bytes>, maxFileBytes: nat)
    requires ids != [] && frames != []
    ensures Answers(frames, ids, maxFileBytes) <==>
            frames[0].oid == ids[0] && frames[0].Fits(maxFileBytes) && Answers(frames[1..], ids[1..], maxFileBytes)
  {
    assert frames == [frames[0]] + frames[1..] && ids == [ids[0]] + ids[1..];
  }

  lemma {:induction false} AcceptedIsRendered(data: Bytes, ids: seq<Bytes>, maxFileBytes: nat, frames: seq<Frame>)
    requires ParseAll(data, ids, maxFileBytes) == Some(frames)
    ensures Answers(frames, ids, maxFileBytes) && data == RenderAll(frames)
    decreases |ids|
  {
    if ids != [] {
      ReadIsFrame(data, ids[0], maxFileBytes);
      var (f, rest) := ParseFrame(data, ids[0], maxFileBytes).value;
      assert frames[0] == f && frames[1..] == ParseAll(rest, ids[1..], maxFileBytes).value;
      AcceptedIsRendered(rest, ids[1..], maxFileBytes, frames[1..]);
      AnswersRest(frames, ids, maxFileBytes);
    }
  }

  lemma ParseAllStep(data: Bytes, ids: seq<Bytes>, maxFileBytes: nat, frames: seq<Frame>, rest: Bytes)
    requires ids != [] && frames != [] && ParseFrame(data, ids[0], maxFileBytes) == Some((frames[0], rest))
    requires ParseAll(rest, ids[1..], maxFileBytes) == Some(frames[1..])
    ensures ParseAll(data, ids, maxFileBytes) == Some(frames)
  {
    assert [frames[0]] + frames[1..] == frames;
  }

  lemma {:induction false} RenderedIsAccepted(ids: seq<Bytes>, maxFileBytes: nat, frames: seq<Frame>)
    requires Answers(frames, ids, maxFileBytes)
    ensures ParseAll(RenderAll(frames), ids, maxFileBytes) == Some(frames)
    decreases |ids|
  {
    if ids != [] {
      AnswersRest(frames, ids, maxFileBytes);
      FrameReadsBack(frames[0], RenderAll(frames[1..]), maxFileBytes);
      RenderedIsAccepted(ids[1..], maxFileBytes, frames[1..]);
      ParseAllStep(RenderAll(frames), ids, maxFileBytes, frames, RenderAll(frames[1..]));
    }
  }

  /** The batch is accepted exactly when it is the rendering of frames that answer the request. */
  lemma {:induction false} AcceptedIffRendered(data: Bytes, ids: seq<Bytes>, maxFileBytes: nat, frames: seq<Frame>)
    ensures ParseAll(data, ids, maxFileBytes) == Some(frames) <==>
            Answers(frames, ids, maxFileBytes) && data == RenderAll(frames)
  {
    if ParseAll(data, ids, maxFileBytes) == Some(frames) {
      AcceptedIsRendered(data, ids, maxFileBytes, frames);
    }
    if Answers(frames, ids, maxFileBytes) {
      RenderedIsAccepted(ids, maxFileBytes, frames);
    }
  }

  function PrintedAll(ids: seq<Bytes>, payloads: seq<Bytes>): (frames: seq<Frame>)
    requires |ids| == |payloads|
    ensures |frames| == |ids| && forall i | 0 <= i < |ids| :: frames[i] == Printed(ids[i], payloads[i])
  {
    seq(|ids|, i requires 0 <= i < |ids| => Printed(ids[i], payloads[i]))
  }

  /** Printing blobs and parsing the stream returns exactly those blobs and consumes every byte. */
  lemma PrintedReadsBack(ids: seq<Bytes>, payloads: seq<Bytes>, maxFileBytes: nat)
    requires |ids| == |payloads|
    requires forall i | 0 <= i < |ids| ::
               ValidOid(ids[i]) && |payloads[i]| <= maxFileBytes && |Printed(ids[i], payloads[i]).Header()| <= 256
    ensures ParseAll(RenderAll(PrintedAll(ids, payloads)), ids, maxFileBytes) == Some(PrintedAll(ids, payloads))
  {
    var frames := PrintedAll(ids, payloads);
    forall i | 0 <= i < |ids| ensures frames[i].oid == ids[i] && frames[i].Fits(maxFileBytes) {
      NumeralIsDigits(|payloads[i]|);
      ParseIntReadsNumeral(|payloads[i]|);
    }
    AcceptedIffRendered(RenderAll(frames), ids, maxFileBytes, frames);
  }
}
