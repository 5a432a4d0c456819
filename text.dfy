/**
 * String utilities behind the command line and every name lookup of the
 * game: JavaScript's `trim`, an ASCII approximation of `toLowerCase`,
 * `split`/`join` on a one-character separator, and the lodash-style
 * "first element whose name matches, ignoring case" search.
 */
module Text {

  /** The characters JavaScript's `String.prototype.trim` strips: white
      space and line terminators. */
  predicate IsWhitespace(c: char) {
    c == ' ' || c == '\t' || c == '\n' || c == '\r' || c == '\U{000B}' || c == '\U{000C}'
    || c == '\U{00A0}' || c == '\U{1680}' || ('\U{2000}' <= c <= '\U{200A}')
    || c == '\U{2028}' || c == '\U{2029}' || c == '\U{202F}' || c == '\U{205F}'
    || c == '\U{3000}' || c == '\U{FEFF}'
  }

  predicate AllWhitespace(s: string) {
    forall k :: 0 <= k < |s| ==> IsWhitespace(s[k])
  }

  /** Drops leading white space: the result is the longest suffix of `s`
      that does not start with white space. */
  function TrimStart(s: string): (r: string)
    ensures |r| <= |s| && r == s[|s| - |r|..]
    ensures AllWhitespace(s[..|s| - |r|])
    ensures r != [] ==> !IsWhitespace(r[0])
  {
    if |s| > 0 && IsWhitespace(s[0]) then TrimStart(s[1..]) else s
  }

  /** Drops trailing white space: the result is the longest prefix of `s`
      that does not end with white space. */
  function TrimEnd(s: string): (r: string)
    ensures |r| <= |s| && r == s[..|r|]
    ensures AllWhitespace(s[|r|..])
    ensures r != [] ==> !IsWhitespace(r[|r| - 1])
  {
    if |s| > 0 && IsWhitespace(s[|s| - 1]) then TrimEnd(s[..|s| - 1]) else s
  }

  /** `r` is the slice of `s` starting at `i`, with only white space
      before and after it in `s`. */
  ghost predicate SliceAmidWhitespace(s: string, r: string, i: int) {
    0 <= i <= i + |r| <= |s| && r == s[i..i + |r|]
    && AllWhitespace(s[..i]) && AllWhitespace(s[i + |r|..])
  }

  /** `s.trim()`: a contiguous slice of `s` with only white space around
      it and none at either of its own ends. */
  function Trim(s: string): (r: string)
    ensures exists i :: SliceAmidWhitespace(s, r, i)
    ensures r != [] ==> !IsWhitespace(r[0]) && !IsWhitespace(r[|r| - 1])
  {
    var t := TrimStart(s);
    var r := TrimEnd(t);
    var i := |s| - |t|;
    SuffixSlices(s, i, |r|);
    assert SliceAmidWhitespace(s, r, i);
    r
  }

  /** Slicing a suffix of `s` is slicing `s` further along. */
  lemma SuffixSlices(s: string, i: nat, n: nat)
    requires i + n <= |s|
    ensures s[i..][..n] == s[i..i + n] && s[i..][n..] == s[i + n..]
  {
  }

  /** The trimmed input is empty exactly when the input is all white space. */
  lemma TrimEmpty(s: string)
    ensures Trim(s) == [] <==> AllWhitespace(s)
  {
    var r := Trim(s);
    var i :| SliceAmidWhitespace(s, r, i);
    if r == [] {
      forall k | 0 <= k < |s| ensures IsWhitespace(s[k]) {
        if k < i { assert s[k] == s[..i][k]; } else { assert s[k] == s[i..][k - i]; }
      }
    }
  }

  /** ASCII approximation of `toLowerCase`: 'A'..'Z' become 'a'..'z',
      every other character is left as it is. */
  function LowerChar(c: char): (d: char)
    ensures 'A' <= c <= 'Z' ==> d as int == c as int + 32
    ensures !('A' <= c <= 'Z') ==> d == c
    ensures !('A' <= d <= 'Z')
  {
    if 'A' <= c <= 'Z' then (c as int + 32) as char else c
  }

  /** `s.toLowerCase()`, character by character. */
  function Lower(s: string): (r: string)
    ensures |r| == |s|
    ensures forall k :: 0 <= k < |s| ==> r[k] == LowerChar(s[k])
  {
    seq(|s|, k requires 0 <= k < |s| => LowerChar(s[k]))
  }

  /** The comparison every lookup in the game uses:
      `a.toLowerCase() === b.toLowerCase()`. */
  predicate SameName(a: string, b: string) {
    Lower(a) == Lower(b)
  }

  /** Two characters that are the same letter up to ASCII case, or simply
      the same character. */
  predicate CaseMatch(x: char, y: char) {
    x == y
    || ('A' <= x <= 'Z' && y as int == x as int + 32)
    || ('A' <= y <= 'Z' && x as int == y as int + 32)
  }

  /** Two names are the same name exactly when they have the same length
      and agree position by position up to ASCII case. */
  lemma SameNameIgnoresCase(a: string, b: string)
    ensures SameName(a, b) <==> |a| == |b| && forall k :: 0 <= k < |a| ==> CaseMatch(a[k], b[k])
  {
    if |a| == |b| && forall k :: 0 <= k < |a| ==> CaseMatch(a[k], b[k]) {
      forall k | 0 <= k < |a| ensures Lower(a)[k] == Lower(b)[k] {
        assert CaseMatch(a[k], b[k]);
      }
    }
    if SameName(a, b) {
      forall k | 0 <= k < |a| ensures CaseMatch(a[k], b[k]) {
        assert Lower(a)[k] == Lower(b)[k];
      }
    }
  }

  /** lodash `_.findIndex(names, n => SameName(n, key))`: the index of the
      first name that matches `key` ignoring case, or -1 if none does. */
  function FindName(names: seq<string>, key: string): (r: int)
    ensures -1 <= r < |names|
    ensures r == -1 <==> forall k :: 0 <= k < |names| ==> !SameName(names[k], key)
    ensures 0 <= r ==> SameName(names[r], key)
                       && forall k :: 0 <= k < r ==> !SameName(names[k], key)
  {
    if |names| == 0 then -1
    else if SameName(names[0], key) then 0
    else
      var r := FindName(names[1..], key);
      if r == -1 then -1 else r + 1
  }

  /** `s.split(sep)` for a one-character separator: the pieces between
      separators, empty pieces included; the empty string gives [""]. */
  function Split(s: string, sep: char): (parts: seq<string>)
    ensures |parts| >= 1
    ensures forall k :: 0 <= k < |parts| ==> sep !in parts[k]
  {
    if |s| == 0 then [""]
    else
      var rest := Split(s[1..], sep);
      if s[0] == sep then [""] + rest
      else [[s[0]] + rest[0]] + rest[1..]
  }

  /** `parts.join(sep)`. */
  function Join(parts: seq<string>, sep: char): string {
    if |parts| == 0 then ""
    else if |parts| == 1 then parts[0]
    else parts[0] + [sep] + Join(parts[1..], sep)
  }

  /** Joining the pieces of a split with the same separator gives back the
      original string. */
  lemma {:induction false} JoinSplit(s: string, sep: char)
    ensures Join(Split(s, sep), sep) == s
  {
    if |s| > 0 {
      var rest := Split(s[1..], sep);
      JoinSplit(s[1..], sep);
      if s[0] == sep {
        assert Split(s, sep) == [""] + rest;
        assert ([""] + rest)[1..] == rest;
        assert Join(Split(s, sep), sep) == "" + [sep] + Join(rest, sep);
        assert s == [s[0]] + s[1..];
      } else {
        var parts := [[s[0]] + rest[0]] + rest[1..];
        assert Split(s, sep) == parts;
        if |rest| == 1 {
          assert Join(rest, sep) == rest[0];
          assert s == [s[0]] + s[1..];
        } else {
          assert parts[1..] == rest[1..];
          assert Join(parts, sep) == ([s[0]] + rest[0]) + [sep] + Join(rest[1..], sep);
          assert Join(rest, sep) == rest[0] + [sep] + Join(rest[1..], sep);
          assert s == [s[0]] + s[1..];
        }
      }
    }
  }

  /** Splitting at a separator that follows a separator-free prefix cuts
      exactly there. */
  lemma {:induction false} SplitAfter(a: string, sep: char, b: string)
    requires sep !in a
    ensures Split(a + [sep] + b, sep) == [a] + Split(b, sep)
  {
    if |a| == 0 {
      assert [sep] + b == a + [sep] + b;
      assert ([sep] + b)[1..] == b;
    } else {
      var s := a + [sep] + b;
      assert s[1..] == a[1..] + [sep] + b;
      SplitAfter(a[1..], sep, b);
      assert [a[0]] + a[1..] == a;
    }
  }

  /** Splitting a join of separator-free pieces gives the pieces back. */
  lemma {:induction false} SplitJoin(parts: seq<string>, sep: char)
    requires |parts| > 0 && forall k :: 0 <= k < |parts| ==> sep !in parts[k]
    ensures Split(Join(parts, sep), sep) == parts
  {
    if |parts| == 1 {
      SplitNoSep(parts[0], sep);
    } else {
      SplitJoin(parts[1..], sep);
      SplitAfter(parts[0], sep, Join(parts[1..], sep));
      assert [parts[0]] + parts[1..] == parts;
    }
  }

  /** A string without the separator splits into itself alone. */
  lemma {:induction false} SplitNoSep(s: string, sep: char)
    requires sep !in s
    ensures Split(s, sep) == [s]
  {
    if |s| > 0 {
      SplitNoSep(s[1..], sep);
      assert [s[0]] + s[1..] == s;
    }
  }

  /** Where the first piece of a split ends: with no separator the single
      piece is the whole string; otherwise the first piece is the text before
      the first separator and the rest joins back to the text after it. */
  lemma {:induction false} SplitAtFirst(s: string, sep: char)
    ensures var parts := Split(s, sep);
            (|parts| == 1 <==> sep !in s)
            && (|parts| == 1 ==> parts[0] == s)
            && (|parts| > 1 ==> |parts[0]| < |s| && s[..|parts[0]|] == parts[0]
                                && s[|parts[0]|] == sep && s[|parts[0]| + 1..] == Join(parts[1..], sep))
  {
    var parts := Split(s, sep);
    JoinSplit(s, sep);
    if |parts| == 1 {
      assert s == parts[0];
    } else {
      var head := parts[0];
      assert s == head + [sep] + Join(parts[1..], sep);
      assert s[..|head|] == head;
      assert s[|head|] == sep;
      assert s[|head| + 1..] == Join(parts[1..], sep);
    }
  }
}
