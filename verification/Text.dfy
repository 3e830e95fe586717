/** Option, Result and the string operations that several components share. */
module Text {
  datatype Option<+T> = None | Some(value: T)

  datatype Result<+T, +E> = Ok(value: T) | Err(error: E)

  /** p occurs in s at offset i. */
  predicate OccursAt(s: string, p: string, i: nat) {
    i + |p| <= |s| && s[i..i + |p|] == p
  }

  predicate Contains(s: string, p: string) {
    exists i: nat | i <= |s| :: OccursAt(s, p, i)
  }

  predicate EndsWith(s: string, suffix: string) {
    |suffix| <= |s| && s[|s| - |suffix|..] == suffix
  }

  /** The leftmost occurrence of p in s at or after from. */
  function FindFrom(s: string, p: string, from: nat): (found: Option<nat>)
    requires from <= |s|
    ensures found.None? ==> forall i: nat :: from <= i ==> !OccursAt(s, p, i)
    ensures found.Some? ==> from <= found.value && OccursAt(s, p, found.value)
    ensures found.Some? ==> forall i: nat :: from <= i < found.value ==> !OccursAt(s, p, i)
    decreases |s| - from
  {
    if OccursAt(s, p, from) then Some(from)
    else if from == |s| then None
    else FindFrom(s, p, from + 1)
  }

  /** Every occurrence of one character replaced by another. */
  function ReplaceChar(s: string, old_: char, new_: char): (r: string)
    ensures |r| == |s|
    ensures forall i :: 0 <= i < |s| ==> r[i] == if s[i] == old_ then new_ else s[i]
  {
    seq(|s|, i requires 0 <= i < |s| => if s[i] == old_ then new_ else s[i])
  }

  /** A path with every backslash turned into a slash. */
  function Slashed(s: string): string {
    ReplaceChar(s, '\\', '/')
  }

  /** The pieces of s between the occurrences of c. */
  function Split(s: string, c: char): (parts: seq<string>)
    ensures |parts| >= 1
    ensures |parts| == 1 <==> c !in s
    ensures forall k :: 0 <= k < |parts| ==> c !in parts[k]
  {
    if s == "" then [""]
    else
      var rest := Split(s[1..], c);
      if s[0] == c then [""] + rest
      else [[s[0]] + rest[0]] + rest[1..]
  }

  function Join(parts: seq<string>, separator: string): string {
    if parts == [] then ""
    else if |parts| == 1 then parts[0]
    else parts[0] + separator + Join(parts[1..], separator)
  }

  /** Joining the pieces gives the string back. */
  lemma {:induction false} JoinUndoesSplit(s: string, c: char)
    ensures Join(Split(s, c), [c]) == s
  {
    if s != "" {
      var rest := Split(s[1..], c);
      JoinUndoesSplit(s[1..], c);
      if s[0] == c {
        assert ([""] + rest)[1..] == rest;
        assert "" + [c] + Join(rest, [c]) == s;
      } else {
        assert ([[s[0]] + rest[0]] + rest[1..])[1..] == rest[1..];
        assert s == [s[0]] + s[1..];
      }
    }
  }

  lemma {:induction false} SplitOfPiece(piece: string, c: char)
    requires c !in piece
    ensures Split(piece, c) == [piece]
  {
    if piece != "" {
      SplitOfPiece(piece[1..], c);
      assert piece == [piece[0]] + piece[1..];
    }
  }

  lemma {:induction false} SplitOfFirst(piece: string, rest: string, c: char)
    requires c !in piece
    ensures Split(piece + [c] + rest, c) == [piece] + Split(rest, c)
  {
    var s := piece + [c] + rest;
    if piece == "" {
      assert s[0] == c && s[1..] == rest;
    } else {
      SplitOfFirst(piece[1..], rest, c);
      assert s[0] == piece[0] && s[1..] == piece[1..] + [c] + rest;
      var tail := Split(s[1..], c);
      assert tail[0] == piece[1..] && tail[1..] == Split(rest, c);
      assert [s[0]] + tail[0] == piece;
    }
  }

  /** Splitting a joined string gives the pieces back, when they do not contain the separator. */
  lemma {:induction false} SplitUndoesJoin(parts: seq<string>, c: char)
    requires parts != [] && forall k :: 0 <= k < |parts| ==> c !in parts[k]
    ensures Split(Join(parts, [c]), c) == parts
  {
    hide Split;
    if |parts| == 1 {
      SplitOfPiece(parts[0], c);
    } else {
      SplitUndoesJoin(parts[1..], c);
      SplitOfFirst(parts[0], Join(parts[1..], [c]), c);
    }
  }

  /** The Unicode White_Space property, which Rust's str::trim uses. */
  predicate IsWhitespace(c: char) {
    var n := c as int;
    || 9 <= n <= 13
    || n == 0x20 || n == 0x85 || n == 0xA0 || n == 0x1680
    || n == 0x2028 || n == 0x2029 || n == 0x202F || n == 0x205F || n == 0x3000
    || 0x2000 <= n <= 0x200A
  }

  function TrimStart(s: string): (r: string)
    ensures r == "" || !IsWhitespace(r[0])
    ensures |r| <= |s| && r == s[|s| - |r|..]
    ensures forall k :: 0 <= k < |s| - |r| ==> IsWhitespace(s[k])
  {
    if s != "" && IsWhitespace(s[0]) then TrimStart(s[1..]) else s
  }

  function TrimEnd(s: string): (r: string)
    ensures r == "" || !IsWhitespace(r[|r| - 1])
    ensures |r| <= |s| && r == s[..|r|]
    ensures forall k :: |r| <= k < |s| ==> IsWhitespace(s[k])
  {
    if s != "" && IsWhitespace(s[|s| - 1]) then TrimEnd(s[..|s| - 1]) else s
  }

  function Trim(s: string): (r: string)
    ensures r == "" || (!IsWhitespace(r[0]) && !IsWhitespace(r[|r| - 1]))
  {
    TrimEnd(TrimStart(s))
  }

  /** Only whitespace is lost, at both ends, and none is left there. */
  lemma TrimMeaning(s: string) returns (before: string, after: string)
    ensures s == before + Trim(s) + after && IsBlank(before) && IsBlank(after)
    ensures Trim(s) == "" || (!IsWhitespace(Trim(s)[0]) && !IsWhitespace(Trim(s)[|Trim(s)| - 1]))
  {
    hide Trim, IsBlank;
    before := LeadingBlank(s);
    after := TrailingBlank(TrimStart(s));
    TrimIsBoth(s);
    Regroup(before, Trim(s), after);
  }

  lemma Regroup(a: string, b: string, c: string)
    ensures a + (b + c) == a + b + c
  {
  }

  lemma LeadingBlank(s: string) returns (before: string)
    ensures s == before + TrimStart(s) && IsBlank(before)
  {
    hide IsWhitespace;
    before := s[..|s| - |TrimStart(s)|];
  }

  lemma TrailingBlank(s: string) returns (after: string)
    ensures s == TrimEnd(s) + after && IsBlank(after)
  {
    hide IsWhitespace;
    after := s[|TrimEnd(s)|..];
  }

  lemma TrimIsBoth(s: string)
    ensures Trim(s) == TrimEnd(TrimStart(s))
  {
  }

  lemma TrimIdempotent(s: string)
    ensures Trim(Trim(s)) == Trim(s)
  {
  }

  /** A string without whitespace is left as it is. */
  lemma TrimOfSolid(s: string)
    requires forall k :: 0 <= k < |s| ==> !IsWhitespace(s[k])
    ensures Trim(s) == s
  {
  }

  /** s.trim().is_empty() */
  predicate IsBlank(s: string) {
    forall k :: 0 <= k < |s| ==> IsWhitespace(s[k])
  }

  /** ASCII lower case, as to_ascii_lowercase computes it. */
  function ToLower(s: string): (r: string)
    ensures |r| == |s| && forall k :: 0 <= k < |r| ==> !('A' <= r[k] <= 'Z')
    ensures forall k :: 0 <= k < |r| && r[k] != s[k] ==> 'A' <= s[k] <= 'Z' && r[k] as int == s[k] as int + 32
  {
    seq(|s|, i requires 0 <= i < |s| => if 'A' <= s[i] <= 'Z' then ((s[i] as int) + 32) as char else s[i])
  }

  predicate NoDup<T(==)>(xs: seq<T>) {
    forall i, j :: 0 <= i < j < |xs| ==> xs[i] != xs[j]
  }

  lemma NoDupAppend<T>(xs: seq<T>, x: T)
    ensures NoDup(xs + [x]) <==> NoDup(xs) && x !in xs
  {
    var longer := xs + [x];
    assert longer[|xs|] == x && forall i :: 0 <= i < |xs| ==> longer[i] == xs[i];
    if NoDup(longer) {
      assert forall i :: 0 <= i < |xs| ==> longer[i] != longer[|xs|];
      forall i, j | 0 <= i < j < |xs|
        ensures xs[i] != xs[j]
      {
        assert longer[i] != longer[j];
      }
    }
  }

  /** Decimal rendering of a natural number. */
  function Decimal(n: nat): (r: string)
    ensures r != ""
    ensures forall k :: 0 <= k < |r| ==> '0' <= r[k] <= '9'
  {
    if n < 10 then [Digit(n)] else Decimal(n / 10) + [Digit(n % 10)]
  }

  function Digit(d: nat): (c: char)
    requires d < 10
    ensures '0' <= c <= '9' && (c as int) == 48 + d
  {
    (48 + d) as char
  }

  /** The number that a string of digits stands for. */
  function Value(digits: string): nat
    requires forall k :: 0 <= k < |digits| ==> '0' <= digits[k] <= '9'
  {
    if digits == "" then 0 else 10 * Value(digits[..|digits| - 1]) + (digits[|digits| - 1] as int - '0' as int)
  }

  /** The rendering stands for the number and has no leading zero. */
  lemma {:induction false} DecimalMeaning(n: nat)
    ensures Value(Decimal(n)) == n && (n > 0 ==> Decimal(n)[0] != '0') && (n == 0 ==> Decimal(n) == "0")
  {
    if n < 10 {
      assert Decimal(n)[..0] == "";
    } else {
      DecimalMeaning(n / 10);
      assert Decimal(n)[..|Decimal(n)| - 1] == Decimal(n / 10);
    }
  }

  lemma {:induction false} DecimalInjective(m: nat, n: nat)
    requires Decimal(m) == Decimal(n)
    ensures m == n
  {
    if m >= 10 && n >= 10 {
      var a, b := Decimal(m), Decimal(n);
      assert a[..|a| - 1] == Decimal(m / 10) && b[..|b| - 1] == Decimal(n / 10);
      assert a[|a| - 1] == Digit(m % 10) && b[|b| - 1] == Digit(n % 10);
      DecimalInjective(m / 10, n / 10);
    }
  }
}
