/**
 * The little C string vocabulary the importers rely on: a character buffer
 * holds a string up to its first NUL, and a line read by fgets is cut at its
 * first newline.
 */
module CText {

  /** The character that terminates a C string. */
  const NUL: char := '\0'

  /** The position of the first `c` in `s`, or `|s|` when `s` has none. */
  function IndexOf(s: string, c: char): (k: nat)
    ensures k <= |s|
    ensures k < |s| ==> s[k] == c
    ensures forall j :: 0 <= j < k ==> s[j] != c
  {
    if s == [] then 0
    else if s[0] == c then 0
    else 1 + IndexOf(s[1..], c)
  }

  /** The part of `s` strictly before its first `c`; all of `s` when there is none. */
  function UpTo(s: string, c: char): (r: string)
    ensures r <= s
    ensures c !in r
    ensures |r| < |s| ==> s[|r|] == c
  {
    s[..IndexOf(s, c)]
  }

  /** The three properties of UpTo's contract pin the result down. */
  lemma UpToUnique(s: string, c: char, r: string)
    requires r <= s && c !in r
    requires |r| < |s| ==> s[|r|] == c
    ensures r == UpTo(s, c)
  {
  }

  /** A string without `c` is its own prefix before `c`. */
  lemma UpToAbsent(s: string, c: char)
    requires c !in s
    ensures UpTo(s, c) == s
  {
    UpToUnique(s, c, s);
  }

  /** Cutting a concatenation: the cut falls in `s` when `s` holds a `c`, else in `t`. */
  lemma UpToAppend(s: string, t: string, c: char)
    ensures UpTo(s + t, c) == if c in s then UpTo(s, c) else s + UpTo(t, c)
  {
    var st := s + t;
    if c in s {
      var r := UpTo(s, c);
      UpToUnique(st, c, r);
    } else {
      var r := s + UpTo(t, c);
      var u := UpTo(t, c);
      assert r <= st by {
        assert st[..|r|] == s + t[..|u|];
      }
      assert c !in r by {
        forall j | 0 <= j < |r| ensures r[j] != c {
          if j < |s| { assert r[j] == s[j]; } else { assert r[j] == u[j - |s|]; }
        }
      }
      if |r| < |st| {
        assert st[|r|] == t[|u|];
      }
      UpToUnique(st, c, r);
    }
  }

  /**
   * Overwriting the first newline of a buffer with NUL, then reading the
   * buffer as a C string, gives the C string the buffer held before, cut at
   * its first newline. This holds whatever the buffer holds past its
   * terminator, so a newline there does no harm.
   */
  lemma {:induction false} TerminateAtNewline(s: string)
    ensures var q := IndexOf(s, '\n');
            UpTo(if q < |s| then s[q := NUL] else s, NUL) == UpTo(UpTo(s, NUL), '\n')
  {
    var q := IndexOf(s, '\n');
    var p := IndexOf(s, NUL);
    var t := if q < |s| then s[q := NUL] else s;
    if q < p {
      // The newline comes first: the new terminator sits where it was.
      var r := s[..q];
      assert t[..q] == r;
      UpToUnique(t, NUL, r);
      UpToUnique(s[..p], '\n', r);
    } else {
      // The old terminator comes first (q == p would put NUL == '\n').
      var r := s[..p];
      assert p < |s| ==> p < q;
      assert t[..p] == r;
      UpToUnique(t, NUL, r);
      UpToAbsent(r, '\n');
    }
  }
}
