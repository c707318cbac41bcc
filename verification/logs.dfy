/** The tail of the filtering program's log that `/api/logs` returns. */
module Logs {
  import opened Text

  const MaxLines: nat := 100

  /** `lines.filter(line => line.trim())`: the lines that are not blank, untrimmed and in order. */
  function NonBlankLines(lines: seq<string>): (r: seq<string>)
    ensures |r| <= |lines|
    ensures forall l :: l in r ==> l in lines && !IsBlank(l)
  {
    if lines == [] then []
    else if IsBlank(lines[0]) then NonBlankLines(lines[1..])
    else [lines[0]] + NonBlankLines(lines[1..])
  }

  /** Filtering works line by line: it distributes over concatenation. */
  lemma {:induction false} NonBlankAppend(a: seq<string>, b: seq<string>)
    ensures NonBlankLines(a + b) == NonBlankLines(a) + NonBlankLines(b)
  {
    if a == [] {
      assert a + b == b;
    } else {
      var ab := a + b;
      assert ab[0] == a[0] && ab[1..] == a[1..] + b;
      NonBlankAppend(a[1..], b);
      if IsBlank(a[0]) {
        calc {
          NonBlankLines(ab);
          NonBlankLines(a[1..] + b);
          NonBlankLines(a[1..]) + NonBlankLines(b);
        }
      } else {
        calc {
          NonBlankLines(ab);
          [a[0]] + NonBlankLines(a[1..] + b);
          [a[0]] + NonBlankLines(a[1..]) + NonBlankLines(b);
        }
      }
    }
  }

  /** Every line that is not blank is kept. */
  lemma {:induction false} NonBlankKeeps(lines: seq<string>, l: string)
    requires l in lines && !IsBlank(l)
    ensures l in NonBlankLines(lines)
  {
    if lines[0] != l {
      NonBlankKeeps(lines[1..], l);
    }
  }

  /** `.slice(-MaxLines)`: the last MaxLines elements, or all of them when there are fewer. */
  function LastLines(kept: seq<string>): (r: seq<string>)
    ensures |r| == if |kept| < MaxLines then |kept| else MaxLines
    ensures kept == kept[..|kept| - |r|] + r
  {
    if |kept| <= MaxLines then kept else kept[|kept| - MaxLines..]
  }

  /** Once `b` alone fills the window, whatever comes before it is cut off. */
  lemma LastLinesAppend(a: seq<string>, b: seq<string>)
    requires |b| >= MaxLines
    ensures LastLines(a + b) == LastLines(b)
  {
    assert (a + b)[|a + b| - MaxLines..] == b[|b| - MaxLines..];
  }

  /** The last MaxLines non-blank lines, or all of them when there are fewer. */
  function Tail(lines: seq<string>): (r: seq<string>)
    ensures |r| == if |NonBlankLines(lines)| < MaxLines then |NonBlankLines(lines)| else MaxLines
    ensures NonBlankLines(lines) == NonBlankLines(lines)[..|NonBlankLines(lines)| - |r|] + r
  {
    LastLines(NonBlankLines(lines))
  }

  /** With MaxLines non-blank lines at the end, nothing earlier in the log shows. */
  lemma TailIgnoresOlder(older: seq<string>, recent: seq<string>)
    requires |NonBlankLines(recent)| >= MaxLines
    ensures Tail(older + recent) == Tail(recent)
  {
    NonBlankAppend(older, recent);
    LastLinesAppend(NonBlankLines(older), NonBlankLines(recent));
  }

  /** A log with at most MaxLines non-blank lines is returned whole, without its blank lines. */
  lemma TailOfShortLog(lines: seq<string>)
    requires |NonBlankLines(lines)| <= MaxLines
    ensures Tail(lines) == NonBlankLines(lines)
  {
  }
}
