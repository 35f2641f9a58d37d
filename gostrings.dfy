/** Go strings as byte sequences, and the parts of Go's `strings` and
    `unicode` packages that the configuration validation relies on:
    `strings.Split` with a one-byte separator (and its inverse
    `strings.Join`), and `unicode.IsUpper` applied to a single byte. */
module GoStrings {

  /** A Go byte. It is written as the char with the same code, so that ASCII
      literals read as they do in Go; a UTF-8 encoded character takes one
      char per byte of its encoding. */
  type Byte = c: char | c as int < 0x100

  /** A Go `string`: an immutable sequence of bytes. */
  type GoString = seq<Byte>

  const DOT: Byte := '.'

  /** Number of occurrences of `b` in `s`, as `strings.Count(s, string(b))`. */
  function Count(s: GoString, b: Byte): nat
  {
    if |s| == 0 then 0 else (if s[0] == b then 1 else 0) + Count(s[1..], b)
  }

  /** Counting distributes over concatenation. */
  lemma {:induction false} CountAppend(a: GoString, b: GoString, c: Byte)
    ensures Count(a + b, c) == Count(a, c) + Count(b, c)
  {
    if |a| > 0 {
      assert (a + b)[1..] == a[1..] + b;
      CountAppend(a[1..], b, c);
    } else {
      assert a + b == b;
    }
  }

  /** `strings.Split(s, string(sep))`: the pieces of `s` between the
      occurrences of `sep`. There is always at least one piece, because
      splitting the empty string gives `[""]`. The first piece is the longest
      prefix of `s` without `sep`. */
  function Split(s: GoString, sep: Byte): (parts: seq<GoString>)
    ensures |parts| == Count(s, sep) + 1
    ensures forall i | 0 <= i < |parts| :: sep !in parts[i]
    ensures parts[0] <= s
    ensures |parts[0]| == |s| || s[|parts[0]|] == sep
  {
    if |s| == 0 then [[]]
    else
      var rest := Split(s[1..], sep);
      if s[0] == sep then [[]] + rest else [[s[0]] + rest[0]] + rest[1..]
  }

  /** `strings.Join(parts, string(sep))` for a non-empty list of parts. */
  function Join(parts: seq<GoString>, sep: Byte): (s: GoString)
    requires |parts| >= 1
  {
    if |parts| == 1 then parts[0] else parts[0] + [sep] + Join(parts[1..], sep)
  }

  /** Splitting `a + t`, where `a` has no separator, glues `a` onto the first
      piece of `t`. */
  lemma {:induction false} SplitAfterPrefix(a: GoString, t: GoString, sep: Byte)
    requires sep !in a
    ensures Split(a + t, sep) == [a + Split(t, sep)[0]] + Split(t, sep)[1..]
  {
    var ps := Split(t, sep);
    if |a| > 0 {
      var s := a + t;
      assert s[0] == a[0] && s[0] != sep;
      assert s[1..] == a[1..] + t;
      SplitAfterPrefix(a[1..], t, sep);
      var rest := Split(s[1..], sep);
      assert rest[0] == a[1..] + ps[0] && rest[1..] == ps[1..];
      assert Split(s, sep) == [[s[0]] + rest[0]] + rest[1..];
      assert [a[0]] + (a[1..] + ps[0]) == a + ps[0];
    } else {
      assert a + t == t && a + ps[0] == ps[0];
      assert ps == [ps[0]] + ps[1..];
    }
  }

  /** Joining the pieces of a split gives back the original string. */
  lemma {:induction false} JoinSplit(s: GoString, sep: Byte)
    ensures Join(Split(s, sep), sep) == s
  {
    if |s| > 0 {
      var rest := Split(s[1..], sep);
      JoinSplit(s[1..], sep);
      if s[0] == sep {
        assert Split(s, sep) == [[]] + rest;
        assert ([[]] + rest)[1..] == rest;
      } else if |rest| == 1 {
        assert Split(s, sep) == [[s[0]] + rest[0]];
      } else {
        assert Split(s, sep)[1..] == rest[1..];
      }
    }
  }

  /** Splitting a join of separator-free pieces gives back the pieces. */
  lemma {:induction false} SplitJoin(parts: seq<GoString>, sep: Byte)
    requires |parts| >= 1
    requires forall i | 0 <= i < |parts| :: sep !in parts[i]
    ensures Split(Join(parts, sep), sep) == parts
  {
    if |parts| == 1 {
      SplitAfterPrefix(parts[0], [], sep);
      assert parts[0] + [] == parts[0];
    } else {
      var tail := Join(parts[1..], sep);
      SplitJoin(parts[1..], sep);
      SplitAfterPrefix(parts[0], [sep] + tail, sep);
      assert parts[0] + [sep] + tail == parts[0] + ([sep] + tail);
      assert ([sep] + tail)[1..] == tail;
      assert Split([sep] + tail, sep) == [[]] + parts[1..];
      assert parts[0] + [] == parts[0];
    }
  }

  /** `unicode.IsUpper(rune(b))`. A byte converted to a rune is a code point
      in U+0000..U+00FF, and in that range the upper-case letters (general
      category Lu of the Unicode Character Database) are 'A'..'Z',
      U+00C0..U+00D6 and U+00D8..U+00DE. */
  function IsUpperByte(b: Byte): (up: bool)
    ensures b as int < 0x80 ==> (up <==> 'A' <= b <= 'Z')
    ensures up ==> b != DOT
    ensures b as int >= 0x80 ==> (up <==> 0xC0 <= b as int <= 0xDE && b as int != 0xD7)
  {
    ('A' <= b <= 'Z') || ('\U{C0}' <= b <= '\U{D6}') || ('\U{D8}' <= b <= '\U{DE}')
  }

  /** The Latin-1 bytes at or near the edges of the upper-case ranges that
      are not upper-case letters: '×' (U+00D7, a symbol between the two
      ranges), 'ß' (U+00DF) and 'µ' (U+00B5), which are lower case, and 'ª'
      (U+00AA), which is a letter without case. */
  lemma LatinEdgeBytesNotUpper()
    ensures !IsUpperByte('\U{D7}') && !IsUpperByte('\U{DF}')
    ensures !IsUpperByte('\U{B5}') && !IsUpperByte('\U{AA}')
    ensures IsUpperByte('\U{D6}') && IsUpperByte('\U{D8}') && IsUpperByte('\U{DE}')
  {
  }
}
