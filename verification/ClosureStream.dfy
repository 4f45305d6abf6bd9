/**
 The byte stream that a closure digest hashes, and what equal digests mean.

 Records are sorted before they are hashed, so the order of the walk does not matter.
 */
module ClosureStream {
  import opened Basics
  import opened Paths
  import opened Sorting
  import opened Numerals
  import opened ClosureWalk

  const DIRECTORY_KIND: byte := 68
  const FILE_KIND: byte := 70

  /** Field widths in bytes: modes and lengths. */
  datatype Widths = Widths(mode: nat, length: nat)

  const WIDTHS := Widths(4, 8)

  /** What follows the path: the kind says whether a 32-byte digest ends it. */
  function Tail(line: Line, w: Widths): Bytes {
    match line
    case Directory(_, mode) => BigEndian(mode, w.mode) + BigEndian(0, w.length)
    case Content(_, mode, size, digest) => BigEndian(mode, w.mode) + (BigEndian(size, w.length) + digest)
  }

  function Kind(line: Line): Bytes {
    [if line.Directory? then DIRECTORY_KIND else FILE_KIND]
  }

  function Render(line: Line, w: Widths): Bytes {
    Kind(line) + (BigEndian(|line.path|, w.length) + (line.path + Tail(line, w)))
  }

  predicate FitsIn(line: Line, w: Widths) {
    && |line.path| < Capacity(w.length) && line.mode < Capacity(w.mode)
    && (line.Content? ==> line.size < Capacity(w.length) && |line.digest| == 32)
  }

  predicate AllFitIn(lines: seq<Line>, w: Widths) {
    forall line | line in lines :: FitsIn(line, w)
  }

  predicate AllFit(lines: seq<Line>) {
    AllFitIn(lines, WIDTHS)
  }

  function StreamIn(lines: seq<Line>, w: Widths): Bytes {
    if lines == [] then [] else Render(lines[0], w) + StreamIn(lines[1..], w)
  }

  function Stream(lines: seq<Line>): Bytes {
    StreamIn(lines, WIDTHS)
  }

  /** Two streams that start with fields of one width start with the same field. */
  lemma SameField(a: Bytes, x: Bytes, b: Bytes, y: Bytes)
    requires |a| == |b| && a + x == b + y
    ensures a == b && x == y
  {
    assert (a + x)[..|a|] == a && (b + y)[..|b|] == b;
    assert (a + x)[|a|..] == x && (b + y)[|b|..] == y;
  }

  lemma SameNumber(m: nat, x: Bytes, n: nat, y: Bytes, width: nat)
    requires m < Capacity(width) && n < Capacity(width) && BigEndian(m, width) + x == BigEndian(n, width) + y
    ensures m == n && x == y
  {
    SameField(BigEndian(m, width), x, BigEndian(n, width), y);
    BigEndianInjective(m, n, width);
  }

  lemma {:induction false} SamePath(a: Bytes, x: Bytes, b: Bytes, y: Bytes, width: nat)
    requires |a| < Capacity(width) && |b| < Capacity(width)
    requires BigEndian(|a|, width) + (a + x) == BigEndian(|b|, width) + (b + y)
    ensures a == b && x == y
  {
    SameNumber(|a|, a + x, |b|, b + y, width);
    SameField(a, x, b, y);
  }

  lemma Regroup(a: Bytes, b: Bytes, c: Bytes, x: Bytes)
    ensures a + (b + c) + x == a + (b + (c + x))
  {
  }

  lemma SameTail(a: Line, x: Bytes, b: Line, y: Bytes, w: Widths)
    requires FitsIn(a, w) && FitsIn(b, w) && (a.Directory? <==> b.Directory?) && a.path == b.path
    requires Tail(a, w) + x == Tail(b, w) + y
    ensures a == b && x == y
  {
    if a.Directory? {
      var zero := BigEndian(0, w.length);
      Regroup(BigEndian(a.mode, w.mode), zero, [], x);
      Regroup(BigEndian(b.mode, w.mode), zero, [], y);
      assert zero + [] == zero && [] + x == x && [] + y == y;
      SameNumber(a.mode, zero + x, b.mode, zero + y, w.mode);
      SameField(zero, x, zero, y);
    } else {
      Regroup(BigEndian(a.mode, w.mode), BigEndian(a.size, w.length), a.digest, x);
      Regroup(BigEndian(b.mode, w.mode), BigEndian(b.size, w.length), b.digest, y);
      SameNumber(a.mode, BigEndian(a.size, w.length) + (a.digest + x),
                 b.mode, BigEndian(b.size, w.length) + (b.digest + y), w.mode);
      SameNumber(a.size, a.digest + x, b.size, b.digest + y, w.length);
      SameField(a.digest, x, b.digest, y);
    }
  }

  lemma RenderParts(line: Line, w: Widths, x: Bytes)
    ensures Render(line, w) + x == Kind(line) + (BigEndian(|line.path|, w.length) + (line.path + (Tail(line, w) + x)))
  {
    var size, tail := BigEndian(|line.path|, w.length), Tail(line, w);
    Regroup(Kind(line), size, line.path + tail, x);
    assert line.path + tail + x == line.path + (tail + x);
  }

  lemma SameLine(a: Line, x: Bytes, b: Line, y: Bytes, w: Widths)
    requires FitsIn(a, w) && FitsIn(b, w) && Render(a, w) + x == Render(b, w) + y
    ensures a == b && x == y
  {
    RenderParts(a, w, x);
    RenderParts(b, w, y);
    var s, t := Tail(a, w) + x, Tail(b, w) + y;
    SameField(Kind(a), BigEndian(|a.path|, w.length) + (a.path + s),
              Kind(b), BigEndian(|b.path|, w.length) + (b.path + t));
    assert Kind(a)[0] == Kind(b)[0];
    SamePath(a.path, s, b.path, t, w.length);
    SameTail(a, x, b, y, w);
  }

  lemma StreamStep(a: seq<Line>, b: seq<Line>, w: Widths)
    requires AllFitIn(a, w) && AllFitIn(b, w) && StreamIn(a, w) == StreamIn(b, w) && a != []
    ensures b != [] && a[0] == b[0] && StreamIn(a[1..], w) == StreamIn(b[1..], w)
  {
    assert |Render(a[0], w)| > 0;
    assert b != [];
    SameLine(a[0], StreamIn(a[1..], w), b[0], StreamIn(b[1..], w), w);
  }

  /** Equal streams mean equal lists of lines. */
  lemma {:induction false} StreamIsInjective(a: seq<Line>, b: seq<Line>, w: Widths)
    requires AllFitIn(a, w) && AllFitIn(b, w) && StreamIn(a, w) == StreamIn(b, w)
    ensures a == b
  {
    if a != [] {
      StreamStep(a, b, w);
      StreamIsInjective(a[1..], b[1..], w);
      assert a == [a[0]] + a[1..] && b == [b[0]] + b[1..];
    } else if b != [] {
      StreamStep(b, a, w);
    }
  }

  // ---- The order of Python's tuples ----

  predicate LineBefore(a: Line, b: Line) {
    if a.Directory? != b.Directory? then a.Directory?
    else if a.path != b.path then Before(a.path, b.path)
    else if a.mode != b.mode then a.mode < b.mode
    else a.Content? && (if a.size != b.size then a.size < b.size else Before(a.digest, b.digest))
  }

  lemma LineOrderIsTotal()
    ensures IsTotal(LineBefore)
  {
    forall a, b ensures a == b || LineBefore(a, b) || LineBefore(b, a) {
      Trichotomy(a.path, b.path);
      if a.Content? && b.Content? { Trichotomy(a.digest, b.digest); }
    }
    forall a, b ensures !(LineBefore(a, b) && LineBefore(b, a)) {
      Trichotomy(a.path, b.path);
      if a.Content? && b.Content? { Trichotomy(a.digest, b.digest); }
    }
    forall a, b, c | LineBefore(a, b) && LineBefore(b, c) ensures LineBefore(a, c) {
      LinesChain(a, b, c);
    }
  }

  lemma LinesChain(a: Line, b: Line, c: Line)
    requires LineBefore(a, b) && LineBefore(b, c)
    ensures LineBefore(a, c)
  {
    if a.path != b.path && b.path != c.path && Before(a.path, b.path) && Before(b.path, c.path) {
      Transitive(a.path, b.path, c.path);
      Trichotomy(a.path, c.path);
    }
    if a.Content? && b.Content? && c.Content? && Before(a.digest, b.digest) && Before(b.digest, c.digest) {
      Transitive(a.digest, b.digest, c.digest);
    }
  }

  // ---- The digest ----

  datatype Domain = PythonSources | ReviewedInstall

  /** The two domain strings and the NUL that ends them. */
  function DomainBytes(d: Domain): Bytes {
    (if d == PythonSources then Text("agent-loop/python-source-closure/v1")
     else Text("agent-loop/reviewed-install-closure/v1")) + [0]
  }

  function Text(s: string): (r: Bytes)
    requires forall i | 0 <= i < |s| :: s[i] < 128 as char
    ensures |r| == |s| && forall i | 0 <= i < |s| :: r[i] == s[i] as int
  {
    seq(|s|, i requires 0 <= i < |s| => (s[i] as int) as byte)
  }

  function Preimage(d: Domain, lines: seq<Line>): Bytes {
    DomainBytes(d) + Stream(Sort(LineBefore, lines))
  }

  lemma DomainsDiffer(x: Bytes, y: Bytes)
    ensures DomainBytes(PythonSources) + x != DomainBytes(ReviewedInstall) + y
  {
    var a, b := DomainBytes(PythonSources) + x, DomainBytes(ReviewedInstall) + y;
    assert a[11] == 'p' as int && b[11] == 'r' as int;
  }

  /** Two closures are hashed alike exactly when they are of one kind and hold the same lines. */
  lemma {:induction false} PreimageIdentifies(d: Domain, a: seq<Line>, e: Domain, b: seq<Line>)
    requires AllFit(a) && AllFit(b)
    ensures Preimage(d, a) == Preimage(e, b) <==> d == e && multiset(a) == multiset(b)
  {
    LineOrderIsTotal();
    if multiset(a) == multiset(b) {
      SortIsCanonical(LineBefore, a, b);
    }
    if Preimage(d, a) == Preimage(e, b) {
      var x, y := Sort(LineBefore, a), Sort(LineBefore, b);
      if d != e {
        DomainsDiffer(Stream(x), Stream(y));
        DomainsDiffer(Stream(y), Stream(x));
        assert false;
      }
      SameField(DomainBytes(d), Stream(x), DomainBytes(e), Stream(y));
      SortFits(a);
      SortFits(b);
      StreamIsInjective(x, y, WIDTHS);
    }
  }

  lemma SortFits(a: seq<Line>)
    requires AllFit(a)
    ensures AllFit(Sort(LineBefore, a))
  {
    forall line | line in Sort(LineBefore, a) ensures FitsIn(line, WIDTHS) {
      SortMembers(LineBefore, a, line);
    }
  }
}
