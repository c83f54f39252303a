/**
 * The few Python `str` operations the core relies on, on `seq<char>`:
 * `split` and `join` with a one-character separator, `strip`, `lower`,
 * `replace(c, '')`, `sub in s` and `split(c, 1)[1]`.
 */
module Text {

  predicate StartsWith(s: string, prefix: string) {
    |prefix| <= |s| && s[..|prefix|] == prefix
  }

  /** Python's `sub in s`. */
  predicate Contains(s: string, sub: string)
    decreases |s|
  {
    StartsWith(s, sub) || (|s| > 0 && Contains(s[1..], sub))
  }

  /** Index of the first `c` in `s`, or `|s|` when `s` has none. */
  function IndexOf(s: string, c: char): (k: nat)
    ensures k <= |s|
    ensures forall i :: 0 <= i < k ==> s[i] != c
    ensures k < |s| <==> c in s
    ensures k < |s| ==> s[k] == c
  {
    if s == [] then 0
    else if s[0] == c then 0
    else 1 + IndexOf(s[1..], c)
  }

  /** The first `c` of `a + b` lies in `b` when `a` has none. */
  lemma {:induction false} IndexOfAfter(a: string, b: string, c: char)
    requires c !in a
    ensures IndexOf(a + b, c) == |a| + IndexOf(b, c)
  {
    if a == [] {
      assert a + b == b;
    } else {
      IndexOfAfter(a[1..], b, c);
      assert (a + b)[0] == a[0];
      assert (a + b)[1..] == a[1..] + b;
    }
  }

  // ---------------------------------------------------------------------
  // split and join

  /**
   * Python's `s.split(sep)` for a one-character separator: there is always
   * at least one piece, and no piece holds the separator.
   */
  function Split(s: string, sep: char): (r: seq<string>)
    ensures |r| >= 1
    ensures forall i :: 0 <= i < |r| ==> sep !in r[i]
    decreases |s|
  {
    if s == [] then [""]
    else
      var rest := Split(s[1..], sep);
      if s[0] == sep then [""] + rest
      else [[s[0]] + rest[0]] + rest[1..]
  }

  /** Python's `sep.join(parts)`. */
  function Join(parts: seq<string>, sep: char): string {
    if |parts| == 0 then ""
    else if |parts| == 1 then parts[0]
    else parts[0] + [sep] + Join(parts[1..], sep)
  }

  /** Joining the pieces of a split gives back the text. */
  lemma {:induction false} JoinSplit(s: string, sep: char)
    ensures Join(Split(s, sep), sep) == s
  {
    if s != [] {
      JoinSplit(s[1..], sep);
      var rest := Split(s[1..], sep);
      if s[0] == sep {
        assert Split(s, sep) == [""] + rest;
        assert ([""] + rest)[1..] == rest;
        assert s == [sep] + s[1..];
      } else if |rest| == 1 {
        assert s == [s[0]] + s[1..];
      } else {
        assert Join(rest, sep) == rest[0] + [sep] + Join(rest[1..], sep);
        assert ([[s[0]] + rest[0]] + rest[1..])[1..] == rest[1..];
        assert s == [s[0]] + s[1..];
      }
    }
  }

  lemma {:induction false} SplitWithoutSeparator(a: string, sep: char)
    requires sep !in a
    ensures Split(a, sep) == [a]
  {
    if a != [] {
      SplitWithoutSeparator(a[1..], sep);
      assert [a[0]] + a[1..] == a;
    }
  }

  lemma {:induction false} SplitAtSeparator(a: string, b: string, sep: char)
    requires sep !in a
    ensures Split(a + [sep] + b, sep) == [a] + Split(b, sep)
  {
    if a == [] {
      assert (a + [sep] + b)[1..] == b;
    } else {
      SplitAtSeparator(a[1..], b, sep);
      assert (a + [sep] + b)[1..] == a[1..] + [sep] + b;
      assert [a[0]] + a[1..] == a;
    }
  }

  /** Splitting a join of separator-free pieces gives back the pieces. */
  lemma {:induction false} SplitJoin(parts: seq<string>, sep: char)
    requires |parts| >= 1
    requires forall i :: 0 <= i < |parts| ==> sep !in parts[i]
    ensures Split(Join(parts, sep), sep) == parts
  {
    if |parts| == 1 {
      SplitWithoutSeparator(parts[0], sep);
    } else {
      SplitJoin(parts[1..], sep);
      SplitAtSeparator(parts[0], Join(parts[1..], sep), sep);
      assert [parts[0]] + parts[1..] == parts;
    }
  }

  /** A trailing separator adds one empty piece. */
  lemma {:induction false} SplitTrailingSeparator(s: string, sep: char)
    ensures Split(s + [sep], sep) == Split(s, sep) + [""]
  {
    if s == [] {
      assert Split([sep], sep) == [""] + Split([], sep);
    } else {
      SplitTrailingSeparator(s[1..], sep);
      assert (s + [sep])[1..] == s[1..] + [sep];
    }
  }

  /** A separator and a separator-free text after it add that text as one more piece. */
  lemma {:induction false} SplitAppendPiece(s: string, piece: string, sep: char)
    requires sep !in piece
    ensures Split(s + [sep] + piece, sep) == Split(s, sep) + [piece]
    decreases |s|
  {
    if s == [] {
      SplitAtSeparator(s, piece, sep);
      SplitWithoutSeparator(piece, sep);
    } else {
      SplitAppendPiece(s[1..], piece, sep);
      assert (s + [sep] + piece)[1..] == s[1..] + [sep] + piece;
    }
  }

  /**
   * Appending a separator-free line and a separator to text that is empty
   * or ends with the separator replaces its final empty piece by that line
   * and a new empty piece.
   */
  lemma SplitAppendLine(prefix: string, body: string, sep: char)
    requires sep !in body
    requires prefix == [] || prefix[|prefix| - 1] == sep
    ensures var earlier := Split(prefix, sep);
      earlier[|earlier| - 1] == "" && Split(prefix + body + [sep], sep) == earlier[..|earlier| - 1] + [body, ""]
  {
    SplitTrailingSeparator(prefix + body, sep);
    if prefix == [] {
      assert prefix + body == body;
      SplitWithoutSeparator(body, sep);
    } else {
      var before := prefix[..|prefix| - 1];
      assert prefix == before + [sep];
      SplitTrailingSeparator(before, sep);
      SplitAppendPiece(before, body, sep);
    }
  }

  /** Python's `s.split(c, 1)[1]`: the text after the first `c`. */
  function AfterFirst(s: string, c: char): string
    requires c in s
  {
    s[IndexOf(s, c) + 1..]
  }

  // ---------------------------------------------------------------------
  // strip, lower, replace

  /** The characters for which Python's `str.isspace()` holds. */
  predicate IsSpace(c: char) {
    ('\t' <= c <= '\r') || ('\U{1C}' <= c <= ' ') || c == '\U{85}' || c == '\U{A0}'
    || c == '\U{1680}' || ('\U{2000}' <= c <= '\U{200A}') || c == '\U{2028}' || c == '\U{2029}'
    || c == '\U{202F}' || c == '\U{205F}' || c == '\U{3000}'
  }

  /** Index of the first character at or after `i` that is not white space, or `|s|`. */
  function SkipSpaces(s: string, i: nat): (k: nat)
    requires i <= |s|
    ensures i <= k <= |s|
    ensures forall m :: i <= m < k ==> IsSpace(s[m])
    ensures k == |s| || !IsSpace(s[k])
    decreases |s| - i
  {
    if i < |s| && IsSpace(s[i]) then SkipSpaces(s, i + 1) else i
  }

  /** End of `s[lo..j]` once trailing white space is dropped. */
  function SkipSpacesBack(s: string, lo: nat, j: nat): (k: nat)
    requires lo <= j <= |s|
    ensures lo <= k <= j
    ensures forall m :: k <= m < j ==> IsSpace(s[m])
    ensures k == lo || !IsSpace(s[k - 1])
    decreases j
  {
    if j > lo && IsSpace(s[j - 1]) then SkipSpacesBack(s, lo, j - 1) else j
  }

  /**
   * Python's `s.strip()`: white space removed from both ends. The result is
   * the piece of `s` between its first and its last non-space character.
   */
  function Strip(s: string): (r: string)
    ensures |r| <= |s|
    ensures r == [] || (!IsSpace(r[0]) && !IsSpace(r[|r| - 1]))
  {
    var lo := SkipSpaces(s, 0);
    s[lo..SkipSpacesBack(s, lo, |s|)]
  }

  /**
   * The result of `strip` is a piece of `s`, and everything cut off around
   * it is white space.
   */
  lemma StripPiece(s: string)
    ensures exists i, j :: (0 <= i <= j <= |s| && Strip(s) == s[i..j]
      && (forall k :: 0 <= k < i ==> IsSpace(s[k]))
      && (forall k :: j <= k < |s| ==> IsSpace(s[k])))
  {
    var lo := SkipSpaces(s, 0);
    var hi := SkipSpacesBack(s, lo, |s|);
    assert Strip(s) == s[lo..hi];
  }

  lemma StripUnchanged(s: string)
    requires s == [] || (!IsSpace(s[0]) && !IsSpace(s[|s| - 1]))
    ensures Strip(s) == s
  {
    assert s[0..|s|] == s;
  }

  lemma StripIdempotent(s: string)
    ensures Strip(Strip(s)) == Strip(s)
  {
    StripUnchanged(Strip(s));
  }

  function LowerChar(c: char): char {
    if 'A' <= c <= 'Z' then (c as int + 32) as char else c
  }

  /** Python's `s.lower()` restricted to ASCII letters. */
  function Lower(s: string): (r: string)
    ensures |r| == |s|
    ensures forall i :: 0 <= i < |s| ==> r[i] == LowerChar(s[i])
  {
    seq(|s|, i requires 0 <= i < |s| => LowerChar(s[i]))
  }

  /** Python's `s.replace(c, '')`. */
  function RemoveChar(s: string, c: char): (r: string)
    ensures c !in r
    ensures forall x :: x in r ==> x in s
  {
    if s == [] then ""
    else if s[0] == c then RemoveChar(s[1..], c)
    else [s[0]] + RemoveChar(s[1..], c)
  }

  lemma {:induction false} RemoveAbsentChar(s: string, c: char)
    requires c !in s
    ensures RemoveChar(s, c) == s
  {
    if s != [] {
      RemoveAbsentChar(s[1..], c);
      assert [s[0]] + s[1..] == s;
    }
  }

  lemma {:induction false} RemoveCharAppend(a: string, b: string, c: char)
    ensures RemoveChar(a + b, c) == RemoveChar(a, c) + RemoveChar(b, c)
  {
    if a == [] {
      assert a + b == b;
    } else {
      var ab := a + b;
      assert ab[0] == a[0];
      assert ab[1..] == a[1..] + b;
      RemoveCharAppend(a[1..], b, c);
      if a[0] != c {
        assert RemoveChar(ab, c) == [a[0]] + RemoveChar(a[1..] + b, c);
        assert RemoveChar(a, c) == [a[0]] + RemoveChar(a[1..], c);
      }
    }
  }
}
