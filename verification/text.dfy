/**
 * The JavaScript string operations the control plane relies on:
 * `String.prototype.trim`, `split` on a one-character separator and
 * `startsWith`. A `char` is a Unicode scalar value, so a character outside
 * the Basic Multilingual Plane is one `char` here and two UTF-16 code units
 * in JavaScript; every character `trim` removes and every separator `split`
 * uses lies inside that plane, so neither operation is affected.
 */
module Text {

  /** A character `trim` removes: ECMAScript white space or a line terminator. */
  predicate IsSpace(c: char)
  {
    || ('\U{0009}' <= c <= '\U{000D}')
    || c == ' ' || c == '\U{00A0}' || c == '\U{1680}'
    || ('\U{2000}' <= c <= '\U{200A}')
    || c == '\U{2028}' || c == '\U{2029}' || c == '\U{202F}' || c == '\U{205F}'
    || c == '\U{3000}' || c == '\U{FEFF}'
  }

  predicate AllSpace(s: string)
  {
    forall i :: 0 <= i < |s| ==> IsSpace(s[i])
  }

  /** How many white-space characters `s` starts with. */
  function LeadingSpace(s: string): (n: nat)
    ensures n <= |s|
    ensures forall i :: 0 <= i < n ==> IsSpace(s[i])
    ensures n < |s| ==> !IsSpace(s[n])
  {
    if s != [] && IsSpace(s[0]) then 1 + LeadingSpace(s[1..]) else 0
  }

  /** How many white-space characters `s` ends with. */
  function TrailingSpace(s: string): (n: nat)
    ensures n <= |s|
    ensures forall i :: |s| - n <= i < |s| ==> IsSpace(s[i])
    ensures n < |s| ==> !IsSpace(s[|s| - 1 - n])
  {
    if s != [] && IsSpace(s[|s| - 1]) then 1 + TrailingSpace(s[..|s| - 1]) else 0
  }

  /** `s.trim()`: neither end of the result is white space. */
  function Trim(s: string): (r: string)
    ensures |r| <= |s|
    ensures r == [] || (!IsSpace(r[0]) && !IsSpace(r[|r| - 1]))
  {
    var t := s[..|s| - TrailingSpace(s)];
    var r := t[LeadingSpace(t)..];
    assert r != [] ==> r[|r| - 1] == s[|s| - 1 - TrailingSpace(s)];
    r
  }

  /** What `trim` removed is white space on both sides of its result. */
  lemma TrimShape(s: string) returns (lead: string, trail: string)
    ensures s == lead + Trim(s) + trail
    ensures AllSpace(lead) && AllSpace(trail)
  {
    var t := s[..|s| - TrailingSpace(s)];
    lead := t[..LeadingSpace(t)];
    trail := s[|t|..];
    assert t == lead + Trim(s);
    assert s == t + trail;
  }

  /** White space put in front of `x` adds to the white space `x` starts with. */
  lemma {:induction false} LeadingSpaceAfter(w: string, x: string)
    requires AllSpace(w)
    ensures LeadingSpace(w + x) == |w| + LeadingSpace(x)
  {
    if w == [] {
      assert w + x == x;
    } else {
      assert (w + x)[1..] == w[1..] + x;
      LeadingSpaceAfter(w[1..], x);
    }
  }

  /** White space put after `x` adds to the white space `x` ends with. */
  lemma {:induction false} TrailingSpaceBefore(x: string, w: string)
    requires AllSpace(w)
    ensures TrailingSpace(x + w) == TrailingSpace(x) + |w|
  {
    if w == [] {
      assert x + w == x;
    } else {
      assert (x + w)[..|x + w| - 1] == x + w[..|w| - 1];
      TrailingSpaceBefore(x, w[..|w| - 1]);
    }
  }

  /**
   * The converse of TrimShape: white space around a text with no white
   * space at its ends is exactly what `trim` removes.
   */
  lemma TrimPadded(lead: string, x: string, trail: string)
    requires AllSpace(lead) && AllSpace(trail)
    requires x == [] || (!IsSpace(x[0]) && !IsSpace(x[|x| - 1]))
    ensures Trim(lead + x + trail) == x
  {
    var s := lead + x + trail;
    if x == [] {
      assert s == [] + (lead + trail);
      TrailingSpaceBefore([], lead + trail);
      assert s[..|s| - TrailingSpace(s)] == [];
    } else {
      assert TrailingSpace(lead + x) == 0;
      TrailingSpaceBefore(lead + x, trail);
      assert s[..|s| - TrailingSpace(s)] == lead + x;
      LeadingSpaceAfter(lead, x);
      assert (lead + x)[|lead|..] == x;
    }
  }

  /** JavaScript truthiness of `s.trim()`. */
  predicate IsBlank(s: string)
  {
    Trim(s) == []
  }

  lemma BlankIffAllSpace(s: string)
    ensures IsBlank(s) <==> AllSpace(s)
  {
    var lead, trail := TrimShape(s);
    if AllSpace(s) {
      TrimPadded([], [], s);
      assert [] + [] + s == s;
    }
  }

  predicate StartsWith(s: string, prefix: string)
  {
    |prefix| <= |s| && s[..|prefix|] == prefix
  }

  /**
   * `s.split(sep)` for a one-character separator: the pieces between
   * separators, an empty piece where two separators meet or at an end.
   */
  function Split(s: string, sep: char): (parts: seq<string>)
    ensures |parts| >= 1
    ensures forall i :: 0 <= i < |parts| ==> sep !in parts[i]
  {
    if s == [] then [[]]
    else
      var rest := Split(s[1..], sep);
      if s[0] == sep then [[]] + rest
      else [[s[0]] + rest[0]] + rest[1..]
  }

  /** `parts.join(sep)` */
  function Join(parts: seq<string>, sep: char): string
    requires |parts| >= 1
  {
    if |parts| == 1 then parts[0] else parts[0] + [sep] + Join(parts[1..], sep)
  }

  /** A character other than the separator occurs in the joined text only if it occurs in a part. */
  lemma {:induction false} JoinAvoids(parts: seq<string>, sep: char, c: char)
    requires |parts| >= 1 && c != sep
    requires forall i :: 0 <= i < |parts| ==> c !in parts[i]
    ensures c !in Join(parts, sep)
  {
    if |parts| > 1 {
      JoinAvoids(parts[1..], sep, c);
    }
  }

  /** Splitting loses nothing: joining the pieces again gives back the text. */
  lemma {:induction false} JoinSplit(s: string, sep: char)
    ensures Join(Split(s, sep), sep) == s
  {
    if s != [] {
      var rest := Split(s[1..], sep);
      JoinSplit(s[1..], sep);
      if s[0] == sep {
        assert ([[]] + rest)[1..] == rest;
      } else {
        var parts := [[s[0]] + rest[0]] + rest[1..];
        if |rest| == 1 {
          assert Join(parts, sep) == [s[0]] + rest[0];
        } else {
          assert parts[1..] == rest[1..];
          assert Join(rest, sep) == rest[0] + [sep] + Join(rest[1..], sep);
        }
        assert s == [s[0]] + s[1..];
      }
    }
  }

  /** A separator-free prefix is glued to the first piece of what follows it. */
  lemma {:induction false} SplitPrefix(a: string, tail: string, sep: char)
    requires sep !in a
    ensures Split(a + tail, sep) == [a + Split(tail, sep)[0]] + Split(tail, sep)[1..]
  {
    if a == [] {
      var t := Split(tail, sep);
      assert a + tail == tail && a + t[0] == t[0];
      assert t == [t[0]] + t[1..];
    } else {
      var t := Split(tail, sep);
      var s := a + tail;
      assert s[0] == a[0] && s[1..] == a[1..] + tail;
      SplitPrefix(a[1..], tail, sep);
      var rest := Split(s[1..], sep);
      assert rest == [a[1..] + t[0]] + t[1..];
      assert Split(s, sep) == [[a[0]] + rest[0]] + rest[1..];
      assert [a[0]] + (a[1..] + t[0]) == a + t[0];
    }
  }

  /** Joining pieces that hold no separator and splitting again gives back the pieces. */
  lemma {:induction false} SplitJoin(parts: seq<string>, sep: char)
    requires |parts| >= 1
    requires forall i :: 0 <= i < |parts| ==> sep !in parts[i]
    ensures Split(Join(parts, sep), sep) == parts
  {
    if |parts| == 1 {
      SplitPrefix(parts[0], [], sep);
      assert parts[0] + [] == parts[0];
    } else {
      var rest := Join(parts[1..], sep);
      SplitJoin(parts[1..], sep);
      assert parts[0] + [sep] + rest == parts[0] + ([sep] + rest);
      SplitPrefix(parts[0], [sep] + rest, sep);
      var t := [sep] + rest;
      assert t[0] == sep && t[1..] == rest;
      assert Split(t, sep) == [[]] + parts[1..];
      assert Join(parts, sep) == parts[0] + t;
      assert parts[0] + [] == parts[0];
      assert parts == [parts[0]] + parts[1..];
    }
  }
}
