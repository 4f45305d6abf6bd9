/**
 `bytes.split`, `bytes.join` and `bytes.find` for a one-byte separator.

 Splitting and joining are inverse to each other on parts without the separator, and both are
 compatible with concatenation at a separator.
 */
module Splitting {
  import opened Basics

  function SplitOn(sep: byte, data: Bytes): (parts: seq<Bytes>)
    ensures parts != []
    decreases |data|
  {
    if data == [] then [[]]
    else
      var rest := SplitOn(sep, data[1..]);
      if data[0] == sep then [[]] + rest else [[data[0]] + rest[0]] + rest[1..]
  }

  function JoinWith(sep: byte, parts: seq<Bytes>): Bytes
    requires parts != []
    decreases |parts|
  {
    if |parts| == 1 then parts[0] else parts[0] + [sep] + JoinWith(sep, parts[1..])
  }

  lemma {:induction false} JoinSplit(sep: byte, data: Bytes)
    ensures JoinWith(sep, SplitOn(sep, data)) == data
    ensures forall part | part in SplitOn(sep, data) :: sep !in part
    decreases |data|
  {
    if data != [] {
      var rest := SplitOn(sep, data[1..]);
      JoinSplit(sep, data[1..]);
      if data[0] == sep {
        assert ([[]] + rest)[1..] == rest;
      } else {
        assert ([[data[0]] + rest[0]] + rest[1..])[1..] == rest[1..];
      }
    }
  }

  lemma {:induction false} SplitJoin(sep: byte, parts: seq<Bytes>)
    requires parts != [] && forall part | part in parts :: sep !in part
    ensures SplitOn(sep, JoinWith(sep, parts)) == parts
    decreases |parts|, |parts[0]|
  {
    var data := JoinWith(sep, parts);
    if parts[0] == [] {
      if |parts| > 1 {
        assert data[1..] == JoinWith(sep, parts[1..]);
        SplitJoin(sep, parts[1..]);
        assert [[]] + parts[1..] == parts;
      }
    } else {
      var shorter := [parts[0][1..]] + parts[1..];
      assert shorter[1..] == parts[1..];
      assert data[0] == parts[0][0] && data[1..] == JoinWith(sep, shorter);
      forall part | part in shorter ensures sep !in part {
        if part == shorter[0] {
          assert sep !in parts[0];
        } else {
          assert part in parts[1..];
        }
      }
      SplitJoin(sep, shorter);
      assert data[0] != sep by {
        assert data[0] in parts[0] && sep !in parts[0];
      }
      assert parts[0] == [parts[0][0]] + shorter[0];
      assert parts == [parts[0]] + parts[1..];
    }
  }

  lemma {:induction false} JoinConcat(sep: byte, a: seq<Bytes>, b: seq<Bytes>)
    requires a != [] && b != []
    ensures JoinWith(sep, a + b) == JoinWith(sep, a) + [sep] + JoinWith(sep, b)
    decreases |a|
  {
    if |a| == 1 {
      assert (a + b)[1..] == b;
    } else {
      assert (a + b)[1..] == a[1..] + b;
      JoinConcat(sep, a[1..], b);
    }
  }

  lemma {:induction false} SplitConcat(sep: byte, a: Bytes, b: Bytes)
    ensures SplitOn(sep, a + [sep] + b) == SplitOn(sep, a) + SplitOn(sep, b)
  {
    JoinSplit(sep, a);
    JoinSplit(sep, b);
    JoinConcat(sep, SplitOn(sep, a), SplitOn(sep, b));
    SplitJoin(sep, SplitOn(sep, a) + SplitOn(sep, b));
  }

  /** `data.find`: the first separator, or the length when there is none. */
  function Find(sep: byte, data: Bytes): (i: nat)
    ensures i <= |data| && sep !in data[..i] && (i < |data| ==> data[i] == sep)
  {
    if data == [] || data[0] == sep then 0
    else
      var i := Find(sep, data[1..]);
      assert data[..i + 1] == [data[0]] + data[1..][..i];
      i + 1
  }

  lemma {:induction false} FindAfter(sep: byte, front: Bytes, rest: Bytes)
    requires sep !in front
    ensures Find(sep, front + [sep] + rest) == |front|
    decreases |front|
  {
    if front != [] {
      assert (front + [sep] + rest)[1..] == front[1..] + [sep] + rest;
      FindAfter(sep, front[1..], rest);
    }
  }
}
