/** Bytes and the sequence operations the parser relies on: splitting a key
    on a separator byte (as Rust's `str::split` does) and flattening. */
module Bytes {

  /** One byte of the UTF-8 text of the shape key. */
  newtype byte = x: int | 0 <= x < 256

  /** Number of occurrences of `x` in `s`. */
  function Count(s: seq<byte>, x: byte): (n: nat)
    ensures n <= |s|
  {
    if s == [] then 0 else (if s[0] == x then 1 else 0) + Count(s[1..], x)
  }

  /** The pieces of `s` between occurrences of `sep`, in order. Like Rust's
      `split`, it never returns an empty list: the empty input gives one empty
      piece, and leading, trailing or doubled separators give empty pieces. */
  function Split(s: seq<byte>, sep: byte): (r: seq<seq<byte>>)
    ensures |r| == Count(s, sep) + 1
    ensures forall i :: 0 <= i < |r| ==> sep !in r[i]
  {
    if s == [] then [[]]
    else
      var rest := Split(s[1..], sep);
      if s[0] == sep then [[]] + rest
      else [[s[0]] + rest[0]] + rest[1..]
  }

  /** The pieces glued back together with `sep` between them. */
  function Join(pieces: seq<seq<byte>>, sep: byte): seq<byte>
    requires |pieces| >= 1
  {
    if |pieces| == 1 then pieces[0] else pieces[0] + [sep] + Join(pieces[1..], sep)
  }

  /** Splitting loses nothing: joining the pieces gives back the input. */
  lemma {:induction false} JoinSplit(s: seq<byte>, sep: byte)
    ensures Join(Split(s, sep), sep) == s
  {
    if s != [] {
      var rest := Split(s[1..], sep);
      JoinSplit(s[1..], sep);
      if s[0] == sep {
        assert Split(s, sep) == [[]] + rest;
        assert ([[]] + rest)[1..] == rest;
      } else if |rest| == 1 {
        assert Split(s, sep) == [[s[0]] + rest[0]];
      } else {
        assert Split(s, sep) == [[s[0]] + rest[0]] + rest[1..];
        assert ([[s[0]] + rest[0]] + rest[1..])[1..] == rest[1..];
        assert Join(rest, sep) == rest[0] + [sep] + Join(rest[1..], sep);
      }
    }
  }

  /** Without a separator there is a single piece: the whole input. */
  lemma {:induction false} SplitWithoutSeparator(s: seq<byte>, sep: byte)
    requires sep !in s
    ensures Split(s, sep) == [s]
  {
    if s != [] {
      SplitWithoutSeparator(s[1..], sep);
      assert [s[0]] + s[1..] == s;
    }
  }

  /** Splitting `a + t` where `a` holds no separator extends the first piece of `t`. */
  lemma {:induction false} SplitPrefix(a: seq<byte>, t: seq<byte>, sep: byte)
    requires sep !in a
    ensures Split(a + t, sep) == [a + Split(t, sep)[0]] + Split(t, sep)[1..]
  {
    if a != [] {
      var r := Split(t, sep);
      SplitPrefix(a[1..], t, sep);
      assert (a + t)[1..] == a[1..] + t;
      var rest := Split(a[1..] + t, sep);
      assert rest[0] == a[1..] + r[0] && rest[1..] == r[1..];
      assert [a[0]] + (a[1..] + r[0]) == a + r[0];
    } else {
      var r := Split(t, sep);
      assert a + t == t;
      assert a + r[0] == r[0];
      assert [r[0]] + r[1..] == r;
    }
  }

  /** Joining pieces free of the separator and splitting again gives back the pieces. */
  lemma {:induction false} SplitJoin(pieces: seq<seq<byte>>, sep: byte)
    requires |pieces| >= 1
    requires forall i :: 0 <= i < |pieces| ==> sep !in pieces[i]
    ensures Split(Join(pieces, sep), sep) == pieces
  {
    if |pieces| == 1 {
      SplitPrefix(pieces[0], [], sep);
      assert pieces[0] + [] == pieces[0];
    } else {
      var tail := Join(pieces[1..], sep);
      SplitJoin(pieces[1..], sep);
      assert Split([sep] + tail, sep) == [[]] + pieces[1..];
      assert pieces[0] + [sep] + tail == pieces[0] + ([sep] + tail);
      SplitPrefix(pieces[0], [sep] + tail, sep);
      assert pieces[0] + [] == pieces[0];
      assert pieces == [pieces[0]] + pieces[1..];
    }
  }

  /** All the sequences of `ss`, one after the other. */
  function Concat<T>(ss: seq<seq<T>>): (r: seq<T>)
    ensures |r| == 0 <==> forall i :: 0 <= i < |ss| ==> |ss[i]| == 0
  {
    if ss == [] then [] else ss[0] + Concat(ss[1..])
  }

  /** Flattening four sequences. */
  lemma ConcatFour<T>(ss: seq<seq<T>>)
    requires |ss| == 4
    ensures Concat(ss) == ss[0] + ss[1] + ss[2] + ss[3]
  {
    var s1, s2, s3 := ss[1..], ss[2..], ss[3..];
    assert s3[1..] == [];
    assert Concat(s3) == ss[3];
    assert s2[1..] == s3;
    assert Concat(s2) == ss[2] + ss[3];
    assert s1[1..] == s2;
    assert Concat(s1) == ss[1] + ss[2] + ss[3];
  }

  /** Nothing in any of the sequences is dropped. */
  lemma {:induction false} ConcatKeeps<T>(ss: seq<seq<T>>, i: nat, x: T)
    requires i < |ss| && x in ss[i]
    ensures x in Concat(ss)
  {
    if i > 0 {
      ConcatKeeps(ss[1..], i - 1, x);
    }
  }

  /** Nothing is added: every element comes from one of the sequences. */
  lemma {:induction false} ConcatOrigin<T>(ss: seq<seq<T>>, x: T)
    requires x in Concat(ss)
    ensures exists i :: 0 <= i < |ss| && x in ss[i]
  {
    if x !in ss[0] {
      ConcatOrigin(ss[1..], x);
      var i :| 0 <= i < |ss[1..]| && x in ss[1..][i];
      assert x in ss[i + 1];
    }
  }
}
