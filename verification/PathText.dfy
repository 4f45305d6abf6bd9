/** Raw paths as text: canonical base64 and display form. */
module PathText {
  import opened Basics

  // ---- Base64 (section 4 of RFC 4648) ----

  function Symbol(v: nat): (c: char)
    requires v < 64
    ensures Value(c) == Some(v)
  {
    if v < 26 then 'A' + v as char
    else if v < 52 then 'a' + (v - 26) as char
    else if v < 62 then '0' + (v - 52) as char
    else if v == 62 then '+' else '/'
  }

  function Value(c: char): (v: Option<nat>)
    ensures v.Some? ==> v.value < 64
  {
    if 'A' <= c <= 'Z' then Some(c as int - 'A' as int)
    else if 'a' <= c <= 'z' then Some(c as int - 'a' as int + 26)
    else if '0' <= c <= '9' then Some(c as int - '0' as int + 52)
    else if c == '+' then Some(62)
    else if c == '/' then Some(63)
    else None
  }

  const PAD: char := '='

  /** Three bytes make four symbols; a shorter last group is padded. */
  function Encode(d: Bytes): string {
    if d == [] then []
    else if |d| == 1 then [Symbol(d[0] / 4), Symbol(d[0] % 4 * 16), PAD, PAD]
    else if |d| == 2 then [Symbol(d[0] / 4), Symbol(d[0] % 4 * 16 + d[1] / 16), Symbol(d[1] % 16 * 4), PAD]
    else Group(d[0], d[1], d[2]) + Encode(d[3..])
  }

  function Group(a: byte, b: byte, c: byte): string {
    [Symbol(a / 4), Symbol(a % 4 * 16 + b / 16), Symbol(b % 16 * 4 + c / 64), Symbol(c % 64)]
  }

  /** A strict alphabet and padding check; spare bits before the padding are ignored. */
  function Decode(s: string): Option<Bytes> {
    if s == [] then Some([])
    else if |s| < 4 then None
    else
      var a, b, c, d := Value(s[0]), Value(s[1]), Value(s[2]), Value(s[3]);
      if a.None? || b.None? then None
      else if |s| == 4 && s[3] == PAD && s[2] == PAD then Some([a.value * 4 + b.value / 16])
      else if |s| == 4 && s[3] == PAD && c.Some? then Some([a.value * 4 + b.value / 16, b.value % 16 * 16 + c.value / 4])
      else if c.None? || d.None? then None
      else
        var rest := Decode(s[4..]);
        if rest.None? then None
        else Some([a.value * 4 + b.value / 16, b.value % 16 * 16 + c.value / 4, c.value % 4 * 64 + d.value] + rest.value)
  }

  lemma DecodeFour(s: string, v: nat, w: nat, x: nat, y: nat)
    requires |s| >= 4 && s[3] != PAD && v < 64 && w < 64 && x < 64 && y < 64
    requires Value(s[0]) == Some(v) && Value(s[1]) == Some(w) && Value(s[2]) == Some(x) && Value(s[3]) == Some(y)
    requires Decode(s[4..]).Some?
    ensures Decode(s) == Some([v * 4 + w / 16, w % 16 * 16 + x / 4, x % 4 * 64 + y] + Decode(s[4..]).value)
  {
  }

  lemma SymbolIsNotPad(v: nat)
    requires v < 64
    ensures Symbol(v) != PAD
  {
    assert Value(PAD) == None;
  }

  lemma Reads(c: char, v: nat)
    requires v < 64 && c == Symbol(v)
    ensures Value(c) == Some(v) && c != PAD
  {
    SymbolIsNotPad(v);
  }

  /** The first four symbols of an encoding, and how they make up its first three bytes again. */
  lemma FirstFour(d: Bytes) returns (v: nat, w: nat, x: nat, y: nat)
    requires |d| > 2
    ensures var s := Encode(d);
      && |s| >= 4 && s[4..] == Encode(d[3..]) && s[3] != PAD
      && Value(s[0]) == Some(v) && Value(s[1]) == Some(w) && Value(s[2]) == Some(x) && Value(s[3]) == Some(y)
    ensures v < 64 && w < 64 && x < 64 && y < 64
    ensures v * 4 + w / 16 == d[0] && w % 16 * 16 + x / 4 == d[1] && x % 4 * 64 + y == d[2]
  {
    var a, b, c := d[0], d[1], d[2];
    v, w, x, y := a / 4, a % 4 * 16 + b / 16, b % 16 * 4 + c / 64, c % 64;
    SplitBits(a, b, c);
    var s := Encode(d);
    assert s == Group(a, b, c) + Encode(d[3..]);
    Reads(s[0], v);
    Reads(s[1], w);
    Reads(s[2], x);
    Reads(s[3], y);
  }

  lemma {:induction false} DecodeLong(d: Bytes)
    requires |d| > 2 && Decode(Encode(d[3..])) == Some(d[3..])
    ensures Decode(Encode(d)) == Some(d)
  {
    var v, w, x, y := FirstFour(d);
    Assemble(Encode(d), d, v, w, x, y);
  }

  lemma Assemble(s: string, d: Bytes, v: nat, w: nat, x: nat, y: nat)
    requires |s| >= 4 && s[3] != PAD && v < 64 && w < 64 && x < 64 && y < 64 && |d| > 2
    requires Value(s[0]) == Some(v) && Value(s[1]) == Some(w) && Value(s[2]) == Some(x) && Value(s[3]) == Some(y)
    requires v * 4 + w / 16 == d[0] && w % 16 * 16 + x / 4 == d[1] && x % 4 * 64 + y == d[2]
    requires Decode(s[4..]) == Some(d[3..])
    ensures Decode(s) == Some(d)
  {
    DecodeFour(s, v, w, x, y);
    assert d == [d[0], d[1], d[2]] + d[3..];
  }

  lemma DecodeOne(a: byte)
    ensures Decode(Encode([a])) == Some([a])
  {
    SplitBits(a, 0, 0);
  }

  lemma DecodeTwo(a: byte, b: byte)
    ensures Decode(Encode([a, b])) == Some([a, b])
  {
    SplitBits(a, b, 0);
    var s := Encode([a, b]);
    Reads(s[0], a / 4);
    Reads(s[1], a % 4 * 16 + b / 16);
    Reads(s[2], b % 16 * 4);
  }

  lemma {:induction false} DecodeEncode(d: Bytes)
    ensures Decode(Encode(d)) == Some(d)
    decreases |d|
  {
    if |d| == 1 {
      DecodeOne(d[0]);
      assert d == [d[0]];
    } else if |d| == 2 {
      DecodeTwo(d[0], d[1]);
      assert d == [d[0], d[1]];
    } else if |d| > 2 {
      DecodeEncode(d[3..]);
      DecodeLong(d);
    }
  }

  /** Regrouping 24 bits into sixes and back. */
  lemma SplitBits(a: byte, b: byte, c: byte)
    ensures a / 4 * 4 + (a % 4 * 16 + b / 16) / 16 == a
    ensures (a % 4 * 16 + b / 16) % 16 * 16 + (b % 16 * 4 + c / 64) / 4 == b
    ensures (b % 16 * 4 + c / 64) % 4 * 64 + c % 64 == c
  {
  }

  /** `path_from_b64`: decode, and refuse any spelling that is not the one `path_to_b64` writes. */
  function PathFromB64(s: string): Option<Bytes> {
    var d := Decode(s);
    if d.None? || Encode(d.value) != s then None else d
  }

  /** Each path has one spelling, and nothing else is accepted for it. */
  lemma {:induction false} SpelledOneWay(s: string, d: Bytes)
    ensures PathFromB64(s) == Some(d) <==> s == Encode(d)
  {
    DecodeEncode(d);
  }

  // ---- The display form ----

  function HexDigit(v: nat): (c: char)
    requires v < 16
    ensures c != '\\'
  {
    if v < 10 then '0' + v as char else 'a' + (v - 10) as char
  }

  function Piece(b: byte): (p: string)
    ensures p != []
  {
    if b == 92 then ['\\', '\\']
    else if b == 10 then ['\\', 'n']
    else if b == 13 then ['\\', 'r']
    else if b == 9 then ['\\', 't']
    else if 32 <= b <= 126 then [b as char]
    else ['\\', 'x', HexDigit(b / 16), HexDigit(b % 16)]
  }

  function Display(path: Bytes): string {
    if path == [] then [] else Display(path[..|path| - 1]) + Piece(path[|path| - 1])
  }

  method DisplayPath(path: Bytes) returns (text: string)
    ensures text == Display(path)
  {
    text := [];
    for i := 0 to |path|
      invariant text == Display(path[..i])
    {
      assert path[..i + 1][..i] == path[..i];
      text := text + Piece(path[i]);
    }
    assert path[..|path|] == path;
  }

  lemma {:induction false} DisplayLast(path: Bytes, last: byte)
    ensures Display(path + [last]) == Display(path) + Piece(last)
  {
    assert (path + [last])[..|path|] == path;
  }

  lemma Regroup(a: string, b: string, c: string)
    ensures (a + b) + c == a + (b + c)
  {
  }

  lemma {:induction false} DisplayConcat(a: Bytes, b: Bytes)
    ensures Display(a + b) == Display(a) + Display(b)
    decreases |b|
  {
    if b == [] {
      assert a + b == a;
    } else {
      var init, last := b[..|b| - 1], b[|b| - 1];
      assert b == init + [last] && a + b == (a + init) + [last];
      DisplayConcat(a, init);
      DisplayLast(a + init, last);
      DisplayLast(init, last);
      Regroup(Display(a), Display(init), Piece(last));
    }
  }

  lemma {:induction false} DisplayFirst(path: Bytes)
    requires path != []
    ensures Display(path) == Piece(path[0]) + Display(path[1..])
  {
    assert path == [path[0]] + path[1..] && [path[0]] == [] + [path[0]];
    DisplayLast([], path[0]);
    DisplayConcat([path[0]], path[1..]);
  }

  lemma SameHexDigit(v: nat, w: nat)
    requires v < 16 && w < 16 && HexDigit(v) == HexDigit(w)
    ensures v == w
  {
    assert v < 10 ==> HexDigit(v) as int == '0' as int + v;
    assert v >= 10 ==> HexDigit(v) as int == 'a' as int + v - 10;
    assert w < 10 ==> HexDigit(w) as int == '0' as int + w;
    assert w >= 10 ==> HexDigit(w) as int == 'a' as int + w - 10;
  }

  /** Two texts that start with the pieces of two bytes start with the same byte. */
  lemma SamePiece(a: byte, x: string, b: byte, y: string)
    requires Piece(a) + x == Piece(b) + y
    ensures a == b && x == y
  {
    var s, t := Piece(a) + x, Piece(b) + y;
    assert s[0] == Piece(a)[0] && t[0] == Piece(b)[0];
    if s[0] != '\\' {
      assert Piece(a) == [a as char] && Piece(b) == [b as char];
    } else {
      assert s[1] == Piece(a)[1] && t[1] == Piece(b)[1];
      if s[1] == 'x' {
        assert s[2] == HexDigit(a / 16) && t[2] == HexDigit(b / 16);
        assert s[3] == HexDigit(a % 16) && t[3] == HexDigit(b % 16);
        SameHexDigit(a / 16, b / 16);
        SameHexDigit(a % 16, b % 16);
      }
    }
    assert s[|Piece(a)|..] == x && t[|Piece(b)|..] == y;
  }

  /** The display form is unambiguous. */
  lemma {:induction false} DisplayIsInjective(a: Bytes, b: Bytes)
    requires Display(a) == Display(b)
    ensures a == b
    decreases |a|
  {
    if a != [] { DisplayFirst(a); }
    if b != [] { DisplayFirst(b); }
    if a != [] && b != [] {
      SamePiece(a[0], Display(a[1..]), b[0], Display(b[1..]));
      DisplayIsInjective(a[1..], b[1..]);
      assert a == [a[0]] + a[1..] && b == [b[0]] + b[1..];
    }
  }
}
