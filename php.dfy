/**
 * The parts of PHP's value semantics that the two sync engines branch on:
 * truthiness of strings, byte strings with `explode`, and integer-keyed
 * arrays that keep insertion order.
 */
module Php {

  /** `if ($s)` on a PHP string: only "" and "0" are falsy. */
  predicate Truthy(s: string)
  {
    s != "" && s != "0"
  }

  /** One byte of a PHP string. */
  newtype byte = x: int | 0 <= x < 256

  type Bytes = seq<byte>

  /** The bytes of a text whose characters are all below 256 (each taken modulo 256). */
  function Ascii(s: string): Bytes
  {
    seq(|s|, i requires 0 <= i < |s| => (s[i] as int % 256) as byte)
  }

  /** `if ($s)` on a byte string: only the empty string and "0" are falsy. */
  predicate TruthyBytes(b: Bytes)
  {
    b != [] && b != [48]
  }

  /**
   * `explode($sep, $s)` for a one-byte separator: the pieces between
   * separators, in order, always at least one.
   */
  function Explode(sep: byte, s: Bytes): (parts: seq<Bytes>)
    ensures |parts| >= 1
    ensures forall i :: 0 <= i < |parts| ==> sep !in parts[i]
    decreases |s|
  {
    if s == [] then [[]]
    else
      var rest := Explode(sep, s[1..]);
      if s[0] == sep then [[]] + rest
      else [[s[0]] + rest[0]] + rest[1..]
  }

  /** `implode($sep, $parts)`: the pieces joined by the separator. */
  function Implode(sep: byte, parts: seq<Bytes>): Bytes
    requires |parts| >= 1
    decreases |parts|
  {
    if |parts| == 1 then parts[0] else parts[0] + [sep] + Implode(sep, parts[1..])
  }

  /** Joining the pieces of `explode` gives back the original string. */
  lemma {:induction false} ImplodeExplode(sep: byte, s: Bytes)
    ensures Implode(sep, Explode(sep, s)) == s
    decreases |s|
  {
    if s != [] {
      var rest := Explode(sep, s[1..]);
      ImplodeExplode(sep, s[1..]);
      if s[0] == sep {
        assert Explode(sep, s) == [[]] + rest;
        assert ([[]] + rest)[1..] == rest;
        assert s == [sep] + s[1..];
      } else {
        var parts := Explode(sep, s);
        assert parts == [[s[0]] + rest[0]] + rest[1..];
        if |rest| == 1 {
          assert s == [s[0]] + s[1..];
        } else {
          assert parts[1..] == rest[1..];
          assert Implode(sep, rest) == rest[0] + [sep] + Implode(sep, rest[1..]);
          assert s == [s[0]] + s[1..];
        }
      }
    }
  }

  /** A piece without the separator is one whole piece of whatever follows it. */
  lemma {:induction false} ExplodePiece(sep: byte, p: Bytes, t: Bytes)
    requires sep !in p
    ensures Explode(sep, p + t) == [p + Explode(sep, t)[0]] + Explode(sep, t)[1..]
    decreases |p|
  {
    if p != [] {
      assert (p + t)[0] == p[0];
      assert (p + t)[1..] == p[1..] + t;
      ExplodePiece(sep, p[1..], t);
      assert [p[0]] + (p[1..] + Explode(sep, t)[0]) == p + Explode(sep, t)[0];
    } else {
      var e := Explode(sep, t);
      assert p + t == t && p + e[0] == e[0];
      assert [e[0]] + e[1..] == e;
    }
  }

  /** Splitting pieces that hold no separator after joining them gives the pieces back. */
  lemma {:induction false} ExplodeImplode(sep: byte, parts: seq<Bytes>)
    requires |parts| >= 1
    requires forall i :: 0 <= i < |parts| ==> sep !in parts[i]
    ensures Explode(sep, Implode(sep, parts)) == parts
    decreases |parts|
  {
    if |parts| == 1 {
      ExplodePiece(sep, parts[0], []);
      assert parts[0] + [] == parts[0];
    } else {
      var tail := Implode(sep, parts[1..]);
      ExplodeImplode(sep, parts[1..]);
      assert parts[0] + [sep] + tail == parts[0] + ([sep] + tail);
      ExplodePiece(sep, parts[0], [sep] + tail);
      assert ([sep] + tail)[1..] == tail;
      var rest := Explode(sep, [sep] + tail);
      assert rest == [[]] + parts[1..];
      assert rest[0] == [] && rest[1..] == parts[1..];
      assert parts[0] + [] == parts[0];
      assert [parts[0]] + parts[1..] == parts;
    }
  }

  /**
   * A PHP array with integer keys and integer values, as key/value pairs in
   * insertion order.
   */
  type IntArray = seq<(int, int)>

  /** `array_keys($a)`. */
  function Keys(a: IntArray): seq<int>
    decreases |a|
  {
    if a == [] then [] else [a[0].0] + Keys(a[1..])
  }

  /** `array_values($a)`. */
  function Values(a: IntArray): seq<int>
    decreases |a|
  {
    if a == [] then [] else [a[0].1] + Values(a[1..])
  }

  /**
   * `$a[$k] = $v`: an existing key keeps its position and takes the new
   * value, a new key is appended.
   */
  function Put(a: IntArray, k: int, v: int): (r: IntArray)
    ensures k in Keys(r)
    ensures forall j :: j in Keys(r) <==> j in Keys(a) || j == k
    ensures k !in Keys(a) ==> r == a + [(k, v)]
    ensures k in Keys(a) ==> |r| == |a|
    ensures k in Keys(a) ==> exists i :: 0 <= i < |a| && a[i].0 == k && r == a[i := (k, v)]
    decreases |a|
  {
    if a == [] then [(k, v)]
    else if a[0].0 == k then
      assert [(k, v)] + a[1..] == a[0 := (k, v)];
      [(k, v)] + a[1..]
    else
      var rest := Put(a[1..], k, v);
      assert k in Keys(a) ==> k in Keys(a[1..]);
      assert k in Keys(a) ==>
        var i :| 0 <= i < |a[1..]| && a[1..][i].0 == k && rest == a[1..][i := (k, v)];
        a[i + 1].0 == k && [a[0]] + rest == a[i + 1 := (k, v)];
      [a[0]] + rest
  }

  lemma {:induction false} KeysAppend(a: IntArray, b: IntArray)
    ensures Keys(a + b) == Keys(a) + Keys(b)
    ensures Values(a + b) == Values(a) + Values(b)
    decreases |a|
  {
    if a == [] {
      assert a + b == b;
    } else {
      var ab := a + b;
      assert ab[0] == a[0] && ab[1..] == a[1..] + b;
      KeysAppend(a[1..], b);
      assert Keys(ab) == [a[0].0] + (Keys(a[1..]) + Keys(b));
      assert Values(ab) == [a[0].1] + (Values(a[1..]) + Values(b));
    }
  }
}
