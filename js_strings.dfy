/**
 * The JavaScript string operations the two calendar components use on their
 * form fields: `split` on one character, `substring(0, n)`, capitalisation by
 * `charAt(0).toUpperCase() + slice(1)`, and the `<`/`>` comparison of strings.
 * Strings here are sequences of Dafny `char`, that is of Unicode scalar
 * values. JavaScript strings are sequences of UTF-16 code units; the two
 * agree on every character of the Basic Multilingual Plane.
 */
module JsStrings {

  // ---------------------------------------------------------------------------
  // s.split(c)
  // ---------------------------------------------------------------------------

  /** `s.split(c)` for a one-character separator `c`: the pieces between the occurrences of `c`. */
  function Split(s: string, c: char): (pieces: seq<string>)
    ensures |pieces| >= 1
    ensures forall i :: 0 <= i < |pieces| ==> c !in pieces[i]
  {
    if s == [] then [""]
    else
      var rest := Split(s[1..], c);
      if s[0] == c then [""] + rest
      else [[s[0]] + rest[0]] + rest[1..]
  }

  /** `pieces.join(c)`: the pieces with one `c` between neighbours. */
  function Join(pieces: seq<string>, c: char): string
    requires |pieces| >= 1
  {
    if |pieces| == 1 then pieces[0] else pieces[0] + [c] + Join(pieces[1..], c)
  }

  /** Joining the pieces of a split gives back the original string. */
  lemma {:induction false} JoinSplit(s: string, c: char)
    ensures Join(Split(s, c), c) == s
  {
    if s != [] {
      var rest := Split(s[1..], c);
      JoinSplit(s[1..], c);
      if s[0] == c {
        assert ([""] + rest)[1..] == rest;
      } else if |rest| > 1 {
        var pieces := [[s[0]] + rest[0]] + rest[1..];
        assert pieces[1..] == rest[1..];
        assert Join(rest, c) == rest[0] + [c] + Join(rest[1..], c);
        assert Join(pieces, c) == [s[0]] + Join(rest, c);
        assert s == [s[0]] + s[1..];
      } else {
        assert s == [s[0]] + s[1..];
      }
    }
  }

  /** Splitting after a run of non-separators extends the first piece only. */
  lemma {:induction false} SplitAfterPlain(p: string, t: string, c: char)
    requires c !in p
    ensures Split(p + t, c) == [p + Split(t, c)[0]] + Split(t, c)[1..]
  {
    if p != [] {
      var S := Split(t, c);
      SplitAfterPlain(p[1..], t, c);
      assert (p + t)[1..] == p[1..] + t;
      var R := Split(p[1..] + t, c);
      assert R[0] == p[1..] + S[0] && R[1..] == S[1..];
      assert (p + t)[0] == p[0] && p[0] != c;
      assert Split(p + t, c) == [[p[0]] + R[0]] + R[1..];
      assert [p[0]] + (p[1..] + S[0]) == p + S[0];
    } else {
      assert p + t == t;
      assert p + Split(t, c)[0] == Split(t, c)[0];
      assert Split(t, c) == [Split(t, c)[0]] + Split(t, c)[1..];
    }
  }

  /** Splitting the join of separator-free pieces gives back the pieces. */
  lemma {:induction false} SplitJoin(pieces: seq<string>, c: char)
    requires |pieces| >= 1
    requires forall i :: 0 <= i < |pieces| ==> c !in pieces[i]
    ensures Split(Join(pieces, c), c) == pieces
  {
    if |pieces| == 1 {
      SplitAfterPlain(pieces[0], [], c);
      assert pieces[0] + [] == pieces[0];
    } else {
      var tail := Join(pieces[1..], c);
      SplitJoin(pieces[1..], c);
      assert ([c] + tail)[1..] == tail;
      assert Split([c] + tail, c) == [""] + pieces[1..];
      SplitAfterPlain(pieces[0], [c] + tail, c);
      assert pieces[0] + [c] + tail == pieces[0] + ([c] + tail);
      assert pieces[0] + "" == pieces[0];
      assert pieces == [pieces[0]] + pieces[1..];
    }
  }

  /**
   * `s.split(c)[0]` is the longest prefix of `s` without `c`: it is a prefix,
   * and it stops at the first `c` or at the end of `s`. There is a second
   * piece exactly when `c` occurs in `s`.
   */
  lemma {:induction false} FirstPiece(s: string, c: char)
    ensures Split(s, c)[0] <= s
    ensures |Split(s, c)[0]| < |s| ==> s[|Split(s, c)[0]|] == c
    ensures |Split(s, c)| >= 2 <==> c in s
    ensures c in s <==> |Split(s, c)[0]| < |s|
  {
    if s != [] {
      FirstPiece(s[1..], c);
      assert s == [s[0]] + s[1..];
    }
  }

  // ---------------------------------------------------------------------------
  // s.substring(0, n)
  // ---------------------------------------------------------------------------

  /** `s.substring(0, n)`: the first `n` characters, or all of `s` when it is shorter. */
  function Truncate(s: string, n: nat): (r: string)
    ensures r <= s
    ensures |r| == if n <= |s| then n else |s|
  {
    if n <= |s| then s[..n] else s
  }

  // ---------------------------------------------------------------------------
  // s.charAt(0).toUpperCase() + s.slice(1)
  // ---------------------------------------------------------------------------

  /** Upper-case mapping of one character (ASCII letters only). */
  function ToUpper(ch: char): char
  {
    if 'a' <= ch <= 'z' then (ch as int - 32) as char else ch
  }

  /** `s.toUpperCase()`, character by character. */
  function UpperCase(s: string): string
  {
    seq(|s|, i requires 0 <= i < |s| => ToUpper(s[i]))
  }

  /** `s.charAt(i)`: the character at `i` as a string, or `""` past the end. */
  function CharAt(s: string, i: nat): string
  {
    if i < |s| then [s[i]] else ""
  }

  /** `s.slice(i)`: everything from `i` on, or `""` past the end. */
  function Slice(s: string, i: nat): string
  {
    if i <= |s| then s[i..] else ""
  }

  /**
   * `s.charAt(0).toUpperCase() + s.slice(1)`: same length, first character
   * upper-cased, the rest unchanged; the empty string stays empty.
   */
  function Capitalize(s: string): (r: string)
    ensures |r| == |s|
    ensures s == "" ==> r == ""
    ensures s != "" ==> r[0] == ToUpper(s[0]) && r[1..] == s[1..]
  {
    UpperCase(CharAt(s, 0)) + Slice(s, 1)
  }

  /** Capitalising twice is capitalising once. */
  lemma CapitalizeIdempotent(s: string)
    ensures Capitalize(Capitalize(s)) == Capitalize(s)
  {
    if s != "" {
      var r := Capitalize(s);
      var rr := Capitalize(r);
      assert ToUpper(ToUpper(s[0])) == ToUpper(s[0]);
      assert rr == [rr[0]] + rr[1..];
      assert r == [r[0]] + r[1..];
    }
  }

  // ---------------------------------------------------------------------------
  // a < b on strings
  // ---------------------------------------------------------------------------

  /**
   * JavaScript's `a < b` on strings: lexicographic order of the characters.
   * A proper prefix is below the string it starts, and no string is below
   * itself.
   */
  predicate StringLess(a: string, b: string): (less: bool)
    ensures a <= b && a != b ==> less
    ensures less ==> a != b
  {
    if a == [] then b != []
    else if b == [] then false
    else if a[0] != b[0] then a[0] < b[0]
    else StringLess(a[1..], b[1..])
  }

  /** String order is a strict total order: exactly one of `a < b`, `a == b`, `b < a` holds. */
  lemma {:induction false} StringLessTrichotomy(a: string, b: string)
    ensures !(StringLess(a, b) && StringLess(b, a))
    ensures a != b ==> StringLess(a, b) || StringLess(b, a)
    ensures !StringLess(a, a)
  {
    if a != [] {
      StringLessTrichotomy(a[1..], a[1..]);
    }
    if a != [] && b != [] {
      StringLessTrichotomy(a[1..], b[1..]);
      if a[0] == b[0] && a != b {
        assert a == [a[0]] + a[1..] && b == [b[0]] + b[1..];
      }
    }
  }

  /** Strings that agree up to `k` and differ at `k` are ordered by their characters at `k`. */
  lemma {:induction false} StringLessAt(a: string, b: string, k: nat)
    requires k < |a| && k < |b| && a[..k] == b[..k] && a[k] != b[k]
    ensures StringLess(a, b) <==> a[k] < b[k]
  {
    if k > 0 {
      assert a[0] == a[..k][0] && b[0] == b[..k][0];
      assert a[1..][..k - 1] == a[..k][1..] && b[1..][..k - 1] == b[..k][1..];
      StringLessAt(a[1..], b[1..], k - 1);
    }
  }

  /** String order is transitive. */
  lemma {:induction false} StringLessTransitive(a: string, b: string, c: string)
    requires StringLess(a, b) && StringLess(b, c)
    ensures StringLess(a, c)
  {
    if a != [] && a[0] == b[0] && b[0] == c[0] {
      StringLessTransitive(a[1..], b[1..], c[1..]);
    }
  }
}
