/** String helpers shared by the model: whitespace stripping as Python's
    str.strip() and JavaScript's String.prototype.trim() do it, splitting on a
    separator character, joining, ASCII lower-casing and Python's
    str.isupper() over ASCII letters. */
module Text {

  /** Which language's whitespace set a strip uses. */
  datatype Flavor = Py | Js

  /** Python's str.isspace() (also what `\s` matches in a str regex). */
  predicate IsPySpace(c: char) {
    var n := c as int;
    (9 <= n <= 13) || (28 <= n <= 32) || n == 0x85 || n == 0xA0 || n == 0x1680 ||
    (0x2000 <= n <= 0x200A) || n == 0x2028 || n == 0x2029 || n == 0x202F ||
    n == 0x205F || n == 0x3000
  }

  /** JavaScript's WhiteSpace and LineTerminator characters, as trim() removes them. */
  predicate IsJsSpace(c: char) {
    var n := c as int;
    (9 <= n <= 13) || n == 32 || n == 0xA0 || n == 0x1680 ||
    (0x2000 <= n <= 0x200A) || n == 0x2028 || n == 0x2029 || n == 0x202F ||
    n == 0x205F || n == 0x3000 || n == 0xFEFF
  }

  predicate IsSpace(f: Flavor, c: char) {
    match f
    case Py => IsPySpace(c)
    case Js => IsJsSpace(c)
  }

  predicate IsAsciiUpper(c: char) { 'A' <= c <= 'Z' }

  predicate IsAsciiLower(c: char) { 'a' <= c <= 'z' }

  predicate IsAsciiDigit(c: char) { '0' <= c <= '9' }

  /** Number of whitespace characters at the front of s. */
  function LeadingSpaces(f: Flavor, s: string): (n: nat)
    ensures n <= |s|
    ensures forall k :: 0 <= k < n ==> IsSpace(f, s[k])
    ensures n < |s| ==> !IsSpace(f, s[n])
  {
    if |s| > 0 && IsSpace(f, s[0]) then 1 + LeadingSpaces(f, s[1..]) else 0
  }

  /** Number of whitespace characters at the back of s. */
  function TrailingSpaces(f: Flavor, s: string): (n: nat)
    ensures n <= |s|
    ensures forall k :: |s| - n <= k < |s| ==> IsSpace(f, s[k])
    ensures n < |s| ==> !IsSpace(f, s[|s| - 1 - n])
  {
    if |s| > 0 && IsSpace(f, s[|s| - 1]) then 1 + TrailingSpaces(f, s[..|s| - 1]) else 0
  }

  /** s without its leading and trailing whitespace. */
  function Strip(f: Flavor, s: string): string {
    var i := LeadingSpaces(f, s);
    var t := s[i..];
    t[..|t| - TrailingSpaces(f, t)]
  }

  predicate IsStripped(f: Flavor, s: string) {
    |s| == 0 || (!IsSpace(f, s[0]) && !IsSpace(f, s[|s| - 1]))
  }

  /** Stripping keeps one contiguous piece of s, cuts only whitespace around it,
      and leaves nothing to strip. */
  lemma StripSpec(f: Flavor, s: string)
    ensures exists i, j ::
              && 0 <= i <= j <= |s| && Strip(f, s) == s[i..j]
              && (forall k :: 0 <= k < i ==> IsSpace(f, s[k]))
              && (forall k :: j <= k < |s| ==> IsSpace(f, s[k]))
    ensures IsStripped(f, Strip(f, s))
  {
    var i := LeadingSpaces(f, s);
    var t := s[i..];
    var n := TrailingSpaces(f, t);
    assert Strip(f, s) == s[i..i + |t| - n];
    if |t| - n > 0 {
      assert !IsSpace(f, t[0]);
      assert !IsSpace(f, t[|t| - 1 - n]);
    }
    forall k | i + |t| - n <= k < |s| ensures IsSpace(f, s[k]) {
      assert s[k] == t[k - i];
    }
  }

  /** Stripping adds no character. */
  lemma StripKeepsOut(f: Flavor, s: string, c: char)
    requires c !in s
    ensures c !in Strip(f, s)
  {
    var i := LeadingSpaces(f, s);
    var t := s[i..];
    assert forall k :: 0 <= k < |t| ==> t[k] == s[i + k];
  }

  /** A string with no whitespace at either end is its own strip. */
  lemma StripStripped(f: Flavor, s: string)
    requires IsStripped(f, s)
    ensures Strip(f, s) == s
  {
    assert LeadingSpaces(f, s) == 0;
    assert s[0..] == s;
    assert TrailingSpaces(f, s) == 0;
  }

  /** Python's and JavaScript's split with a one-character separator: the
      pieces between consecutive separators, always at least one. */
  function Split(s: string, sep: char): (r: seq<string>)
    ensures |r| >= 1
    ensures forall k :: 0 <= k < |r| ==> sep !in r[k]
  {
    if |s| == 0 then [""]
    else
      var rest := Split(s[1..], sep);
      if s[0] == sep then [""] + rest else [[s[0]] + rest[0]] + rest[1..]
  }

  /** A piece without the separator splits to itself. */
  lemma {:induction false} SplitPiece(a: string, sep: char)
    requires sep !in a
    ensures Split(a, sep) == [a]
  {
    if |a| > 0 {
      SplitPiece(a[1..], sep);
      assert [a[0]] + a[1..] == a;
    }
  }

  /** A piece followed by the separator splits off as the first piece. */
  lemma {:induction false} SplitFirstPiece(a: string, b: string, sep: char)
    requires sep !in a
    ensures Split(a + [sep] + b, sep) == [a] + Split(b, sep)
  {
    var s := a + [sep] + b;
    if |a| == 0 {
      assert s[1..] == b;
    } else {
      assert s[1..] == a[1..] + [sep] + b;
      SplitFirstPiece(a[1..], b, sep);
      assert [a[0]] + a[1..] == a;
    }
  }

  /** sep.join(parts): the pieces with one sep between neighbours. */
  function Join(parts: seq<string>, sep: char): string {
    if |parts| == 0 then ""
    else if |parts| == 1 then parts[0]
    else parts[0] + [sep] + Join(parts[1..], sep)
  }

  /** Splitting yields one piece exactly when the separator does not occur. */
  lemma {:induction false} SplitSingle(s: string, sep: char)
    ensures |Split(s, sep)| == 1 <==> sep !in s
  {
    if |s| > 0 {
      SplitSingle(s[1..], sep);
      assert sep in s <==> s[0] == sep || sep in s[1..];
    }
  }

  /** Joining the pieces of a split with the same separator gives back the input. */
  lemma {:induction false} JoinSplit(s: string, sep: char)
    ensures Join(Split(s, sep), sep) == s
  {
    if |s| > 0 {
      var rest := Split(s[1..], sep);
      JoinSplit(s[1..], sep);
      if s[0] == sep {
        assert Split(s, sep) == [""] + rest;
        assert Join([""] + rest, sep) == "" + [sep] + Join(rest, sep);
      } else {
        var r := [[s[0]] + rest[0]] + rest[1..];
        if |rest| == 1 {
          assert r == [[s[0]] + rest[0]];
        } else {
          assert r[1..] == rest[1..];
          assert Join(rest, sep) == rest[0] + [sep] + Join(rest[1..], sep);
        }
      }
    }
  }

  /** s with every c replaced by d, as s.replace(c, d). */
  function ReplaceChar(s: string, c: char, d: char): (r: string)
    ensures |r| == |s|
    ensures forall k :: 0 <= k < |s| ==> r[k] == (if s[k] == c then d else s[k])
  {
    seq(|s|, k requires 0 <= k < |s| => if s[k] == c then d else s[k])
  }

  /** Replacing works character by character from the front. */
  lemma ReplaceCharFirst(s: string, c: char, d: char)
    requires |s| > 0
    ensures ReplaceChar(s, c, d) == [if s[0] == c then d else s[0]] + ReplaceChar(s[1..], c, d)
  {
  }

  /** Joining the pieces of a split with another character replaces every
      separator by that character. */
  lemma {:induction false} JoinSplitReplace(s: string, sep: char, d: char)
    ensures Join(Split(s, sep), d) == ReplaceChar(s, sep, d)
  {
    if |s| > 0 {
      var rest := Split(s[1..], sep);
      JoinSplitReplace(s[1..], sep, d);
      ReplaceCharFirst(s, sep, d);
      if s[0] == sep {
        assert Split(s, sep) == [""] + rest;
        assert Join([""] + rest, d) == "" + [d] + Join(rest, d);
      } else {
        var r := [[s[0]] + rest[0]] + rest[1..];
        if |rest| == 1 {
          assert r == [[s[0]] + rest[0]];
        } else {
          assert r[1..] == rest[1..];
          assert Join(rest, d) == rest[0] + [d] + Join(rest[1..], d);
        }
      }
    }
  }

  /** Python's str.lower() on ASCII letters; other characters are kept. */
  function Lower(s: string): (r: string)
    ensures |r| == |s|
    ensures forall k :: 0 <= k < |s| ==> !IsAsciiUpper(r[k])
    ensures forall k :: 0 <= k < |s| && !IsAsciiUpper(s[k]) ==> r[k] == s[k]
  {
    if |s| == 0 then ""
    else
      var c := if IsAsciiUpper(s[0]) then (s[0] as int + 32) as char else s[0];
      [c] + Lower(s[1..])
  }

  /** Python's str.isupper() with ASCII letters as the only cased characters:
      at least one upper-case letter and no lower-case one. */
  predicate IsUpper(s: string) {
    (exists k :: 0 <= k < |s| && IsAsciiUpper(s[k])) &&
    (forall k :: 0 <= k < |s| ==> !IsAsciiLower(s[k]))
  }

  /** s with every occurrence of c removed, as s.replace(c, ''). */
  function Remove(s: string, c: char): (r: string)
    ensures c !in r
    ensures |r| <= |s|
  {
    if |s| == 0 then ""
    else if s[0] == c then Remove(s[1..], c)
    else [s[0]] + Remove(s[1..], c)
  }

  /** Removing one character keeps every other character and adds none. */
  lemma {:induction false} RemoveKeeps(s: string, c: char, d: char)
    requires c != d
    ensures d in Remove(s, c) <==> d in s
  {
    if |s| > 0 {
      RemoveKeeps(s[1..], c, d);
      assert d in s <==> s[0] == d || d in s[1..];
    }
  }

  /** Removing a character from a concatenation removes it from both parts. */
  lemma {:induction false} RemoveConcat(a: string, b: string, c: char)
    ensures Remove(a + b, c) == Remove(a, c) + Remove(b, c)
  {
    if |a| > 0 {
      assert (a + b)[1..] == a[1..] + b;
      RemoveConcat(a[1..], b, c);
    } else {
      assert a + b == b;
    }
  }

  /** Removing a character drops its occurrence between two parts. */
  lemma RemoveAround(x: string, y: string, c: char)
    ensures Remove(x + [c] + y, c) == Remove(x, c) + Remove(y, c)
  {
    RemoveConcat(x + [c], y, c);
    RemoveConcat(x, [c], c);
    assert Remove([c], c) == [];
    assert Remove(x, c) + [] == Remove(x, c);
  }

  /** Removing a character that does not occur changes nothing. */
  lemma {:induction false} RemoveAbsent(s: string, c: char)
    requires c !in s
    ensures Remove(s, c) == s
  {
    if |s| > 0 {
      assert c !in s[1..];
      RemoveAbsent(s[1..], c);
    }
  }

  /** Decimal digits of n, as Python's str() of a non-negative int. */
  function Decimal(n: nat): (r: string)
    ensures |r| >= 1
    ensures forall k :: 0 <= k < |r| ==> IsAsciiDigit(r[k])
  {
    var d := ['0' + (n % 10) as char];
    if n < 10 then d else Decimal(n / 10) + d
  }
}
