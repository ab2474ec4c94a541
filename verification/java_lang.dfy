/**
 * The few pieces of Java's language and library semantics the controllers
 * rely on: 32-bit `int` arithmetic, nullable `String` references, string
 * concatenation with `null`, `String.equals` and `String.split` on a single
 * literal character.
 */
module JavaLang {
  import opened Wrappers

  const MIN_INT: int := -0x8000_0000
  const MAX_INT: int := 0x7fff_ffff
  const INT_RANGE: int := 0x1_0000_0000

  /** A value of Java's `int` type. */
  type Int32 = x: int | -0x8000_0000 <= x <= 0x7fff_ffff

  /** Java `int` arithmetic keeps the low 32 bits of the exact result (two's complement wrap-around). */
  function ToInt32(x: int): (r: Int32)
    ensures MIN_INT <= x <= MAX_INT ==> r == x
    ensures (x - r) % INT_RANGE == 0
  {
    (x - MIN_INT) % INT_RANGE + MIN_INT
  }

  /** `a - b` on Java `int` operands. */
  function Sub(a: Int32, b: Int32): (r: Int32)
    ensures MIN_INT <= a - b <= MAX_INT ==> r == a - b
    ensures a - b < MIN_INT ==> r == a - b + INT_RANGE
    ensures a - b > MAX_INT ==> r == a - b - INT_RANGE
  {
    ToInt32(a - b)
  }

  /** A Java `String` reference; `None` is `null`. */
  type JString = Option<string>

  /** The text string conversion produces for a reference: `null` becomes "null". */
  function Text(s: JString): string
  {
    match s
    case None => "null"
    case Some(t) => t
  }

  /** `prefix + s` in Java, where `s` may be `null`. */
  function Concat(prefix: string, s: JString): (r: string)
    ensures |r| == |prefix| + |Text(s)|
    ensures r[..|prefix|] == prefix
    ensures r[|prefix|..] == Text(s)
  {
    prefix + Text(s)
  }

  /** `a.equals(b)` for a non-null `a`: false for `null`, otherwise character-wise equality. */
  predicate Equals(a: string, b: JString)
  {
    b.Some? && b.value == a
  }

  /** `s.indexOf(c)`, with "not found" reported as |s| instead of -1. */
  function IndexOf(s: string, c: char): (i: nat)
    ensures i <= |s|
    ensures i < |s| ==> s[i] == c
    ensures forall j :: 0 <= j < i ==> s[j] != c
  {
    if |s| == 0 then 0
    else if s[0] == c then 0
    else 1 + IndexOf(s[1..], c)
  }

  /** The parts joined with one `sep` between neighbours (`String.join`). */
  function Join(parts: seq<string>, sep: char): string
  {
    if |parts| == 0 then ""
    else if |parts| == 1 then parts[0]
    else parts[0] + [sep] + Join(parts[1..], sep)
  }

  /** Joining five parts spelled out. */
  lemma JoinFive(parts: seq<string>, sep: char)
    requires |parts| == 5
    ensures Join(parts, sep) == parts[0] + [sep] + parts[1] + [sep] + parts[2] + [sep] + parts[3] + [sep] + parts[4]
  {
    var j3 := parts[3] + [sep] + parts[4];
    assert Join(parts[3..], sep) == j3 by {
      assert parts[3..][1..] == parts[4..];
    }
    var j2 := parts[2] + [sep] + j3;
    assert Join(parts[2..], sep) == j2 by {
      assert parts[2..][1..] == parts[3..];
    }
    var j1 := parts[1] + [sep] + j2;
    assert Join(parts[1..], sep) == j1 by {
      assert parts[1..][1..] == parts[2..];
    }
    assert Join(parts, sep) == parts[0] + [sep] + j1;
  }

  /** Every piece of `s` between occurrences of `sep`, empty pieces included. */
  function Pieces(s: string, sep: char): (parts: seq<string>)
    ensures |parts| >= 1
    ensures forall i :: 0 <= i < |parts| ==> sep !in parts[i]
    ensures Join(parts, sep) == s
    decreases |s|
  {
    var i := IndexOf(s, sep);
    if i == |s| then [s]
    else
      var rest := Pieces(s[i + 1..], sep);
      assert ([s[..i]] + rest)[1..] == rest;
      assert s == s[..i] + [sep] + s[i + 1..];
      [s[..i]] + rest
  }

  /** The longest prefix of `parts` that does not end in an empty string. */
  function DropTrailingEmpty(parts: seq<string>): (r: seq<string>)
    ensures r <= parts
    ensures |r| == 0 || r[|r| - 1] != ""
    ensures forall i :: |r| <= i < |parts| ==> parts[i] == ""
  {
    if |parts| == 0 then []
    else if parts[|parts| - 1] != "" then parts
    else DropTrailingEmpty(parts[..|parts| - 1])
  }

  /**
   * `s.split(String.valueOf(sep))` with the default limit 0, for a separator
   * that is not a regular-expression metacharacter: when `sep` does not occur
   * the result is `[s]`, otherwise the pieces with trailing empty ones removed.
   */
  function Split(s: string, sep: char): (parts: seq<string>)
    ensures sep !in s ==> parts == [s]
    ensures parts <= Pieces(s, sep)
    ensures forall i :: 0 <= i < |parts| ==> sep !in parts[i]
    ensures sep in s ==> |parts| == 0 || parts[|parts| - 1] != ""
    ensures sep in s ==> forall i :: |parts| <= i < |Pieces(s, sep)| ==> Pieces(s, sep)[i] == ""
  {
    if sep !in s then [s] else DropTrailingEmpty(Pieces(s, sep))
  }

  /** Splitting the text joined from sep-free pieces gives the pieces back, empty ones included. */
  lemma {:induction false} PiecesOfJoin(parts: seq<string>, sep: char)
    requires |parts| >= 1
    requires forall i :: 0 <= i < |parts| ==> sep !in parts[i]
    ensures Pieces(Join(parts, sep), sep) == parts
    decreases |parts|
  {
    var s := Join(parts, sep);
    if |parts| == 1 {
      assert s == parts[0];
    } else {
      var p := parts[0];
      var tail := Join(parts[1..], sep);
      assert s == p + [sep] + tail;
      var i := IndexOf(s, sep);
      assert s[|p|] == sep;
      assert i == |p|;
      assert s[..i] == p;
      assert s[i + 1..] == tail;
      PiecesOfJoin(parts[1..], sep);
      assert parts == [p] + parts[1..];
    }
  }

  /** `Split` inverts `Join` on non-empty, sep-free pieces. */
  lemma SplitOfJoin(parts: seq<string>, sep: char)
    requires |parts| >= 1
    requires forall i :: 0 <= i < |parts| ==> sep !in parts[i] && parts[i] != ""
    ensures Split(Join(parts, sep), sep) == parts
  {
    var s := Join(parts, sep);
    PiecesOfJoin(parts, sep);
    if sep !in s {
      assert |parts| == 1;
    }
  }
}
