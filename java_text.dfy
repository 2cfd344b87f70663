/**
 * The few java.lang.String and java.lang.Integer operations the parsers rely
 * on, with the exact behaviour of the Java library: String.split with the
 * regular expressions the parsers use, String.split with a limit of 2,
 * trim() used as a blank test, Integer.parseInt, and the ordering used by
 * String.compareTo after toLowerCase().
 */
module JavaText {
  import opened Results

  /** The regular expressions the parsers hand to String.split. */
  datatype Delimiter =
    | Char(c: char)      // "\t" and ","
    | DigitRun           // "\\d+"
    | CigarOperation     // "[MIDNSHP]"
    | SpacedSemicolon    // " *; *"
    | SpaceQuote         // " \""

  predicate IsDigit(c: char) { '0' <= c <= '9' }

  /** Number of consecutive characters equal to c from position i on. */
  function RunOf(s: string, i: nat, c: char): (n: nat)
    requires i <= |s|
    ensures i + n <= |s|
    ensures forall k :: i <= k < i + n ==> s[k] == c
    ensures i + n == |s| || s[i + n] != c
    decreases |s| - i
  {
    if i < |s| && s[i] == c then 1 + RunOf(s, i + 1, c) else 0
  }

  /** Number of consecutive decimal digits from position i on. */
  function DigitsFrom(s: string, i: nat): (n: nat)
    requires i <= |s|
    ensures i + n <= |s|
    ensures forall k :: i <= k < i + n ==> IsDigit(s[k])
    ensures i + n == |s| || !IsDigit(s[i + n])
    decreases |s| - i
  {
    if i < |s| && IsDigit(s[i]) then 1 + DigitsFrom(s, i + 1) else 0
  }

  /**
   * Length of the match of d that java.util.regex finds when it tries
   * position i (0 when no match starts there).  Each expression is greedy,
   * and none of them matches the empty string.
   */
  function MatchLength(s: string, i: nat, d: Delimiter): (n: nat)
    requires i < |s|
    ensures i + n <= |s|
  {
    match d
    case Char(c) => if s[i] == c then 1 else 0
    case DigitRun => DigitsFrom(s, i)
    case CigarOperation => if s[i] in "MIDNSHP" then 1 else 0
    case SpacedSemicolon =>
      var j := i + RunOf(s, i, ' ');
      if j < |s| && s[j] == ';' then j + 1 + RunOf(s, j + 1, ' ') - i else 0
    case SpaceQuote => if i + 1 < |s| && s[i] == ' ' && s[i + 1] == '"' then 2 else 0
  }

  /**
   * The pieces between successive leftmost matches, scanning from i, the
   * current piece having started at position start.
   */
  function Pieces(s: string, d: Delimiter, i: nat, start: nat): (r: seq<string>)
    requires start <= i <= |s|
    ensures |r| >= 1
    decreases |s| - i
  {
    if i == |s| then [s[start..]]
    else
      var n := MatchLength(s, i, d);
      if n > 0 then [s[start..i]] + Pieces(s, d, i + n, i + n)
      else Pieces(s, d, i + 1, start)
  }

  /** Removes the empty strings at the end of a split result. */
  function DropTrailingEmpty(p: seq<string>): (r: seq<string>)
    ensures |r| <= |p| && r == p[..|r|]
    ensures r == [] || r[|r| - 1] != ""
    ensures forall k :: |r| <= k < |p| ==> p[k] == ""
  {
    if p == [] then []
    else if p[|p| - 1] == "" then DropTrailingEmpty(p[..|p| - 1])
    else p
  }

  /**
   * s.split(regex) with limit 0: when the expression never matches the
   * result is the whole string; otherwise the pieces between matches (an
   * empty leading piece is kept when a match starts at position 0) with the
   * trailing empty pieces removed.
   */
  function Split(s: string, d: Delimiter): seq<string>
  {
    var p := Pieces(s, d, 0, 0);
    if |p| == 1 then [s] else DropTrailingEmpty(p)
  }

  /** When a split gives several pieces, the last one is not empty. */
  lemma SplitLastNotEmpty(s: string, d: Delimiter)
    ensures |Split(s, d)| > 1 ==> Split(s, d)[|Split(s, d)| - 1] != ""
  {
  }

  /** Positions where d does not match are passed over without starting a piece. */
  lemma {:induction false} PiecesSkip(s: string, d: Delimiter, i: nat, j: nat, start: nat)
    requires start <= i <= j <= |s|
    requires forall k :: i <= k < j ==> MatchLength(s, k, d) == 0
    ensures Pieces(s, d, i, start) == Pieces(s, d, j, start)
    decreases j - i
  {
    if i < j {
      PiecesSkip(s, d, i + 1, j, start);
    }
  }

  /** Where d matches nowhere from i on, the current piece runs to the end. */
  lemma PiecesNoMatch(s: string, d: Delimiter, i: nat, start: nat)
    requires start <= i <= |s|
    requires forall k :: i <= k < |s| ==> MatchLength(s, k, d) == 0
    ensures Pieces(s, d, i, start) == [s[start..]]
  {
    PiecesSkip(s, d, i, |s|, start);
  }

  /** The pieces of a text made by joining cols with c are cols again. */
  lemma {:induction false} PiecesOfJoin(s: string, c: char, cols: seq<string>, start: nat)
    requires start <= |s| && s[start..] == JoinWith(cols, c) && cols != []
    requires forall k :: 0 <= k < |cols| ==> c !in cols[k]
    ensures Pieces(s, Char(c), start, start) == cols
    decreases |cols|
  {
    var i := start + |cols[0]|;
    if |cols| == 1 {
      forall k | start <= k < |s|
        ensures MatchLength(s, k, Char(c)) == 0
      {
        assert s[k] == cols[0][k - start];
      }
      PiecesNoMatch(s, Char(c), start, start);
    } else {
      assert s[start..] == cols[0] + [c] + JoinWith(cols[1..], c);
      forall k | start <= k < i
        ensures MatchLength(s, k, Char(c)) == 0
      {
        assert s[k] == cols[0][k - start];
      }
      PiecesSkip(s, Char(c), start, i, start);
      assert s[i] == c && s[start..i] == cols[0];
      assert s[i + 1..] == JoinWith(cols[1..], c);
      PiecesOfJoin(s, c, cols[1..], i + 1);
      assert cols == [cols[0]] + cols[1..];
    }
  }

  /**
   * Splitting on c undoes joining with c, when no column holds c and the
   * last column is not empty (split drops trailing empty pieces).
   */
  lemma SplitJoin(cols: seq<string>, c: char)
    requires cols != [] && cols[|cols| - 1] != ""
    requires forall k :: 0 <= k < |cols| ==> c !in cols[k]
    ensures Split(JoinWith(cols, c), Char(c)) == cols
  {
    var s := JoinWith(cols, c);
    PiecesOfJoin(s, c, cols, 0);
    assert s[0..] == s;
  }

  /** Position of the first occurrence of c in s. */
  function IndexOf(s: string, c: char): (k: nat)
    requires c in s
    ensures k < |s| && s[k] == c && c !in s[..k]
  {
    if s[0] == c then 0
    else
      assert c in s[1..] by { var j :| 0 <= j < |s| && s[j] == c; assert s[1..][j - 1] == c; }
      1 + IndexOf(s[1..], c)
  }

  /**
   * s.split(c, 2): the text before the first c and everything after it, or
   * [s] when c does not occur.  Empty pieces are kept.
   */
  function SplitOnce(s: string, c: char): (r: seq<string>)
    ensures |r| == 1 <==> c !in s
    ensures |r| == 1 ==> r[0] == s
    ensures |r| != 1 ==> |r| == 2 && c !in r[0] && s == r[0] + [c] + r[1]
  {
    if c !in s then [s]
    else
      var k := IndexOf(s, c);
      assert s == s[..k] + [c] + s[k + 1..];
      [s[..k], s[k + 1..]]
  }

  /** s.trim().length() == 0: trim() removes every character up to ' '. */
  predicate IsBlank(s: string)
  {
    forall k :: 0 <= k < |s| ==> s[k] <= ' '
  }

  predicate StartsWith(s: string, prefix: string)
  {
    |prefix| <= |s| && s[..|prefix|] == prefix
  }

  /** The value of a string of decimal digits. */
  function DigitsValue(s: string): (v: nat)
    requires forall k :: 0 <= k < |s| ==> IsDigit(s[k])
  {
    if s == [] then 0
    else
      assert IsDigit(s[|s| - 1]);
      10 * DigitsValue(s[..|s| - 1]) + (s[|s| - 1] as int - '0' as int)
  }

  const IntMin: int := -0x8000_0000
  const IntMax: int := 0x7fff_ffff

  /**
   * Integer.parseInt(s): an optional '+' or '-' followed by at least one
   * ASCII decimal digit (the other Unicode digits Java also accepts are not
   * modelled), the value within the range of a Java int; None stands for
   * the NumberFormatException.
   */
  function ParseInt(s: string): (r: Option<int>)
    ensures r.Some? ==> IntMin <= r.value <= IntMax
    ensures r.Some? ==> |s| > 0
  {
    if |s| == 0 then None
    else
      var signed := s[0] == '-' || s[0] == '+';
      var body := if signed then s[1..] else s;
      if |body| == 0 || exists k :: 0 <= k < |body| && !IsDigit(body[k]) then None
      else
        var v: int := if s[0] == '-' then -(DigitsValue(body) as int) else DigitsValue(body);
        if IntMin <= v <= IntMax then Some(v) else None
  }

  /** The decimal digits of n, without leading zeros. */
  function NatToString(n: nat): (s: string)
    ensures |s| > 0 && forall k :: 0 <= k < |s| ==> IsDigit(s[k])
    ensures DigitsValue(s) == n
    decreases n
  {
    var last := ['0' + (n % 10) as char];
    if n < 10 then last
    else
      var front := NatToString(n / 10);
      var s := front + last;
      assert s[..|s| - 1] == front;
      s
  }

  /** Character.toLowerCase restricted to the ASCII letters. */
  function LowerChar(c: char): char
  {
    if 'A' <= c <= 'Z' then (c - 'A' + 'a') as char else c
  }

  /** String.toLowerCase() on ASCII text. */
  function ToLower(s: string): (r: string)
    ensures |r| == |s|
    ensures forall k :: 0 <= k < |s| ==> r[k] == LowerChar(s[k])
  {
    if s == [] then [] else [LowerChar(s[0])] + ToLower(s[1..])
  }

  /**
   * String.compareTo: the difference of the first differing characters, or
   * the difference of the lengths when one string is a prefix of the other.
   * Characters are Unicode scalar values here, not Java's UTF-16 units.
   */
  function CompareTo(a: string, b: string): int
  {
    if a == [] || b == [] then |a| - |b|
    else if a[0] != b[0] then a[0] as int - b[0] as int
    else CompareTo(a[1..], b[1..])
  }

  /** Joins pieces back together, putting c between neighbours. */
  function JoinWith(p: seq<string>, c: char): string
  {
    if p == [] then [] else if |p| == 1 then p[0] else p[0] + [c] + JoinWith(p[1..], c)
  }

  /** Splitting on a single character loses nothing: the pieces joined by it give the text back. */
  lemma {:induction false} PiecesJoin(s: string, c: char, i: nat, start: nat)
    requires start <= i <= |s|
    requires c !in s[start..i]
    ensures JoinWith(Pieces(s, Char(c), i, start), c) == s[start..]
    decreases |s| - i
  {
    if i < |s| {
      if s[i] == c {
        PiecesJoin(s, c, i + 1, i + 1);
        assert s[start..] == s[start..i] + [c] + s[i + 1..];
      } else {
        assert s[start..i + 1] == s[start..i] + [s[i]];
        PiecesJoin(s, c, i + 1, start);
      }
    }
  }

  /** No piece of a split on a single character contains that character. */
  lemma {:induction false} PiecesAvoid(s: string, c: char, i: nat, start: nat)
    requires start <= i <= |s|
    requires c !in s[start..i]
    ensures forall k :: 0 <= k < |Pieces(s, Char(c), i, start)| ==> c !in Pieces(s, Char(c), i, start)[k]
    decreases |s| - i
  {
    if i < |s| {
      if s[i] == c {
        PiecesAvoid(s, c, i + 1, i + 1);
      } else {
        assert s[start..i + 1] == s[start..i] + [s[i]];
        PiecesAvoid(s, c, i + 1, start);
      }
    } else {
      assert s[start..] == s[start..i];
    }
  }

  /** Parsing the decimal text of an int-sized natural number gives it back. */
  lemma ParseNatToString(n: nat)
    requires n <= IntMax
    ensures ParseInt(NatToString(n)) == Some(n)
  {
    var s := NatToString(n);
    assert !(s[0] == '-' || s[0] == '+') by { assert IsDigit(s[0]); }
  }

  /** compareTo is antisymmetric. */
  lemma {:induction false} CompareToAntisymmetric(a: string, b: string)
    ensures CompareTo(a, b) == -CompareTo(b, a)
  {
    if a != [] && b != [] && a[0] == b[0] {
      CompareToAntisymmetric(a[1..], b[1..]);
    }
  }

  /** compareTo is zero exactly for equal strings. */
  lemma {:induction false} CompareToZero(a: string, b: string)
    ensures CompareTo(a, b) == 0 <==> a == b
  {
    if a != [] && b != [] && a[0] == b[0] {
      CompareToZero(a[1..], b[1..]);
      assert a == [a[0]] + a[1..] && b == [b[0]] + b[1..];
    }
  }
}
