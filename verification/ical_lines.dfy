/** Line unfolding as `tzical._parse_rfc` performs it (section 3.1 of
    RFC 5545, restricted to continuation lines that begin with a space):
    blank lines are dropped and a later line starting with a space is
    appended, minus that space, to the line before it. */
module IcalLines {

  import opened Text

  /** One step of the unfolding pass over the next input line. The test is
      made on the right-stripped line, and it is the stripped line (minus
      its first space) that is appended; a kept line is kept as given. */
  function UnfoldStep(acc: seq<string>, line: string): seq<string> {
    var l := RStrip(line);
    if l == [] then acc
    else if |acc| > 0 && l[0] == ' ' then acc[..|acc| - 1] + [acc[|acc| - 1] + l[1..]]
    else acc + [line]
  }

  /** The unfolded lines, as a left-to-right fold of `UnfoldStep`. */
  function Unfolded(lines: seq<string>): seq<string> {
    if |lines| == 0 then [] else UnfoldStep(Unfolded(lines[..|lines| - 1]), lines[|lines| - 1])
  }

  /** The shape unfolding leaves: no blank line, and no line after the
      first that starts with a space. */
  predicate WellUnfolded(lines: seq<string>) {
    forall k :: 0 <= k < |lines| ==> RStrip(lines[k]) != [] && (k > 0 ==> lines[k][0] != ' ')
  }

  /** The in-place loop of `_parse_rfc`: `i` walks the list, deleting
      blank lines and merging continuation lines into line `i - 1`. */
  method Unfold(lines: seq<string>) returns (out: seq<string>)
    ensures out == Unfolded(lines)
  {
    var ls := lines;
    var i := 0;
    ghost var j := 0;
    while i < |ls|
      invariant 0 <= i <= |ls| && 0 <= j <= |lines|
      invariant ls[..i] == Unfolded(lines[..j])
      invariant ls[i..] == lines[j..]
      decreases |ls| - i
    {
      NextLine(ls, i, lines, j);
      UnfoldedSnoc(lines, j);
      var line := RStrip(ls[i]);
      if line == [] {
        DeleteAt(ls, i);
        ls := ls[..i] + ls[i + 1..];
      } else if i > 0 && line[0] == ' ' {
        MergeAt(ls, i, line[1..]);
        ls := ls[i - 1 := ls[i - 1] + line[1..]];
        ls := ls[..i] + ls[i + 1..];
      } else {
        assert ls[..i + 1] == ls[..i] + [ls[i]];
        i := i + 1;
      }
      j := j + 1;
    }
    assert lines[..j] == lines;
    out := ls;
  }

  /** The line under the cursor is the next input line. */
  lemma NextLine(ls: seq<string>, i: nat, lines: seq<string>, j: nat)
    requires i < |ls| && j <= |lines| && ls[i..] == lines[j..]
    ensures j < |lines| && ls[i] == lines[j] && ls[i + 1..] == lines[j + 1..]
  {
    assert ls[i..][0] == ls[i];
    assert ls[i + 1..] == ls[i..][1..];
  }

  /** Unfolding one more line is one more step. */
  lemma UnfoldedSnoc(lines: seq<string>, j: nat)
    requires j < |lines|
    ensures Unfolded(lines[..j + 1]) == UnfoldStep(Unfolded(lines[..j]), lines[j])
  {
    assert lines[..j + 1][..j] == lines[..j];
  }

  /** Deleting the line under the cursor. */
  lemma DeleteAt(ls: seq<string>, i: nat)
    requires i < |ls|
    ensures (ls[..i] + ls[i + 1..])[..i] == ls[..i]
    ensures (ls[..i] + ls[i + 1..])[i..] == ls[i + 1..]
  {
  }

  /** Appending `x` to the line before the cursor, then deleting the
      line under it. */
  lemma MergeAt(ls: seq<string>, i: nat, x: string)
    requires 0 < i < |ls|
    ensures var m := ls[i - 1 := ls[i - 1] + x];
      && (m[..i] + m[i + 1..])[..i] == ls[..i][..i - 1] + [ls[..i][i - 1] + x]
      && (m[..i] + m[i + 1..])[i..] == ls[i + 1..]
  {
    var m := ls[i - 1 := ls[i - 1] + x];
    assert m[..i] == ls[..i - 1] + [ls[i - 1] + x];
    assert m[i + 1..] == ls[i + 1..];
  }

  /** Appending text to a line that is not blank keeps it not blank. */
  lemma RStripAppend(a: string, b: string)
    requires RStrip(a) != []
    ensures RStrip(a + b) != []
  {
    var idx := |RStrip(a)| - 1;
    assert a[idx] == RStrip(a)[idx];
    assert (a + b)[idx] == a[idx];
    assert !IsSpace((a + b)[idx]);
  }

  /** Every unfolded list is well unfolded. */
  lemma {:induction false} UnfoldedIsWellUnfolded(lines: seq<string>)
    ensures WellUnfolded(Unfolded(lines))
    decreases |lines|
  {
    if |lines| > 0 {
      var acc := Unfolded(lines[..|lines| - 1]);
      UnfoldedIsWellUnfolded(lines[..|lines| - 1]);
      var line := lines[|lines| - 1];
      var l := RStrip(line);
      if l == [] {
      } else if |acc| > 0 && l[0] == ' ' {
        var n := |acc| - 1;
        RStripAppend(acc[n], l[1..]);
        var r := acc[..n] + [acc[n] + l[1..]];
        forall k | 0 <= k < |r|
          ensures RStrip(r[k]) != [] && (k > 0 ==> r[k][0] != ' ')
        {
          if k < n {
            assert r[k] == acc[k];
          } else {
            assert r[k] == acc[n] + l[1..];
            if k > 0 {
              assert r[k][0] == acc[n][0];
            }
          }
        }
      } else {
        assert line[0] == l[0];
      }
    }
  }

  /** Unfolding leaves an already well-unfolded list unchanged. */
  lemma {:induction false} UnfoldedKeepsWellUnfolded(lines: seq<string>)
    requires WellUnfolded(lines)
    ensures Unfolded(lines) == lines
    decreases |lines|
  {
    if |lines| > 0 {
      var n := |lines| - 1;
      assert WellUnfolded(lines[..n]);
      UnfoldedKeepsWellUnfolded(lines[..n]);
      var l := RStrip(lines[n]);
      assert l != [];
      if n > 0 {
        assert l[0] == lines[n][0];
      }
      assert lines[..n] + [lines[n]] == lines;
    }
  }

  /** Unfolding is idempotent. */
  lemma UnfoldedIdempotent(lines: seq<string>)
    ensures Unfolded(Unfolded(lines)) == Unfolded(lines)
  {
    UnfoldedIsWellUnfolded(lines);
    UnfoldedKeepsWellUnfolded(Unfolded(lines));
  }
}
