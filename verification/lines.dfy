/**
 * Sequences of text lines as the backlog file holds them: Python's
 * `readlines()` (each line keeps its terminator), the wholesale rewrite that
 * writes the lines back one after another, `list.remove` (first equal
 * occurrence), and the order and parity facts the backlog loop relies on.
 *
 * Text is the decoded contents of the file, after the universal-newline
 * translation of Python's text mode, so the only line terminator is '\n'.
 */
module Lines {

  /** Index just past the first line of a non-empty text: past its first
      '\n', or the whole text when there is none. */
  function LineEnd(text: string): (k: nat)
    requires text != []
    ensures 0 < k <= |text|
    ensures forall i :: 0 <= i < k - 1 ==> text[i] != '\n'
    ensures k < |text| ==> text[k - 1] == '\n'
  {
    if text[0] == '\n' || |text| == 1 then 1 else 1 + LineEnd(text[1..])
  }

  /** `readlines()`: the text cut after every '\n', terminators kept. */
  function ReadLines(text: string): (lines: seq<string>)
    decreases |text|
  {
    if text == [] then [] else
    var k := LineEnd(text);
    [text[..k]] + ReadLines(text[k..])
  }

  /** The text written by writing every line in turn with no separator. */
  function Concat(lines: seq<string>): (text: string)
  {
    if lines == [] then [] else lines[0] + Concat(lines[1..])
  }

  /** A line as `readlines()` produces it: non-empty, with '\n' at most at its end. */
  predicate IsLine(line: string)
  {
    line != [] && forall i :: 0 <= i < |line| - 1 ==> line[i] != '\n'
  }

  predicate Terminated(line: string)
  {
    line != [] && line[|line| - 1] == '\n'
  }

  /** What `readlines()` can return: proper lines, all but the last terminated. */
  predicate WellFormed(lines: seq<string>)
  {
    && (forall i :: 0 <= i < |lines| ==> IsLine(lines[i]))
    && (forall i :: 0 <= i < |lines| - 1 ==> Terminated(lines[i]))
  }

  /** Rewriting what was read reproduces the text exactly. */
  lemma {:induction false} ConcatReadLines(text: string)
    ensures Concat(ReadLines(text)) == text
    decreases |text|
  {
    if text != [] {
      var k := LineEnd(text);
      ConcatReadLines(text[k..]);
      assert text[..k] + text[k..] == text;
    }
  }

  /** Every result of `readlines()` is well formed. */
  lemma {:induction false} ReadLinesWellFormed(text: string)
    ensures WellFormed(ReadLines(text))
    decreases |text|
  {
    if text != [] {
      var k := LineEnd(text);
      var rest := ReadLines(text[k..]);
      ReadLinesWellFormed(text[k..]);
      assert ReadLines(text) == [text[..k]] + rest;
      assert IsLine(text[..k]);
      if rest != [] {
        assert text[k..] != [];
        assert Terminated(text[..k]);
      }
      forall i | 0 <= i < |rest| + 1
        ensures IsLine(ReadLines(text)[i])
      {
        if i > 0 { assert ReadLines(text)[i] == rest[i - 1]; }
      }
      forall i | 0 <= i < |rest|
        ensures Terminated(ReadLines(text)[i])
      {
        if i > 0 { assert ReadLines(text)[i] == rest[i - 1]; }
      }
    }
  }

  /** The first line of `line + rest` is `line` when nothing can run on past it. */
  lemma {:induction false} LineEndOfLine(line: string, rest: string)
    requires IsLine(line)
    requires Terminated(line) || rest == []
    ensures LineEnd(line + rest) == |line|
    decreases |line|
  {
    if |line| > 1 {
      assert (line + rest)[1..] == line[1..] + rest;
      LineEndOfLine(line[1..], rest);
    }
  }

  /** Reading back what was written from well-formed lines gives the same lines. */
  lemma {:induction false} ReadLinesConcat(lines: seq<string>)
    requires WellFormed(lines)
    ensures ReadLines(Concat(lines)) == lines
  {
    if lines != [] {
      var line, rest := lines[0], Concat(lines[1..]);
      assert Concat(lines) == line + rest;
      assert IsLine(line);
      if !Terminated(line) {
        assert |lines| == 1;
        assert lines[1..] == [];
      }
      LineEndOfLine(line, rest);
      assert (line + rest)[..|line|] == line;
      assert (line + rest)[|line|..] == rest;
      assert WellFormed(lines[1..]) by {
        forall i | 0 <= i < |lines| - 1 ensures IsLine(lines[1..][i]) {
          assert lines[1..][i] == lines[i + 1];
        }
      }
      ReadLinesConcat(lines[1..]);
      assert lines == [line] + lines[1..];
    }
  }

  /** Writing one more line appends it to the text written so far. */
  lemma {:induction false} ConcatSnoc(lines: seq<string>, line: string)
    ensures Concat(lines + [line]) == Concat(lines) + line
  {
    if lines == [] {
      assert [] + [line] == [line];
    } else {
      assert (lines + [line])[1..] == lines[1..] + [line];
      ConcatSnoc(lines[1..], line);
    }
  }

  /** Position of the first occurrence of `x`, the element `list.remove` deletes. */
  function FirstIndex<T(==)>(s: seq<T>, x: T): (j: nat)
    requires x in s
    ensures j < |s| && s[j] == x
    ensures x !in s[..j]
  {
    if s[0] == x then 0 else
    assert s == [s[0]] + s[1..];
    var j := 1 + FirstIndex(s[1..], x);
    assert s[..j] == [s[0]] + s[1..][..j - 1];
    j
  }

  /** `list.remove(x)`: delete the first element equal to `x`. */
  function RemoveFirst<T(==)>(s: seq<T>, x: T): (r: seq<T>)
    requires x in s
    ensures |r| == |s| - 1
    ensures multiset(r) == multiset(s) - multiset{x}
  {
    var j := FirstIndex(s, x);
    assert s == s[..j] + [s[j]] + s[j + 1..];
    s[..j] + s[j + 1..]
  }

  /** `a` is `b` with some elements deleted, the rest in their original order. */
  predicate Sub<T(==)>(a: seq<T>, b: seq<T>)
    decreases |b|
  {
    a == [] || (b != [] && ((a[0] == b[0] && Sub(a[1..], b[1..])) || Sub(a, b[1..])))
  }

  lemma {:induction false} SubRefl<T>(a: seq<T>)
    ensures Sub(a, a)
  {
    if a != [] { SubRefl(a[1..]); }
  }

  lemma {:induction false} SubLength<T>(a: seq<T>, b: seq<T>)
    requires Sub(a, b)
    ensures |a| <= |b|
    decreases |b|
  {
    if a != [] {
      if a[0] == b[0] && Sub(a[1..], b[1..]) { SubLength(a[1..], b[1..]); }
      else { SubLength(a, b[1..]); }
    }
  }

  /** Deleting one more element keeps a subsequence a subsequence. */
  lemma {:induction false} SubDelete<T>(a: seq<T>, b: seq<T>, j: nat)
    requires Sub(a, b) && j < |a|
    ensures Sub(a[..j] + a[j + 1..], b)
    decreases |b|
  {
    var d := a[..j] + a[j + 1..];
    if a[0] == b[0] && Sub(a[1..], b[1..]) {
      if j == 0 {
        assert d == a[1..];
        assert Sub(d, b[1..]);
      } else if d != [] {
        SubDelete(a[1..], b[1..], j - 1);
        assert d[0] == b[0];
        assert d[1..] == a[1..][..j - 1] + a[1..][j..];
      }
    } else {
      SubDelete(a, b[1..], j);
    }
  }

  /** `list.remove` keeps the surviving elements in their order. */
  lemma RemoveFirstSub<T>(s: seq<T>, x: T, b: seq<T>)
    requires x in s && Sub(s, b)
    ensures Sub(RemoveFirst(s, x), b)
  {
    SubDelete(s, b, FirstIndex(s, x));
  }

  /** A subsequence of well-formed lines is well formed: dropping lines from
      a backlog never makes the rewritten file read back differently. */
  lemma {:induction false} SubWellFormed(a: seq<string>, b: seq<string>)
    requires Sub(a, b) && WellFormed(b)
    ensures WellFormed(a)
    decreases |b|
  {
    if a != [] {
      assert WellFormed(b[1..]) by {
        forall i | 0 <= i < |b| - 1 ensures IsLine(b[1..][i]) {
          assert b[1..][i] == b[i + 1];
        }
      }
      if a[0] == b[0] && Sub(a[1..], b[1..]) {
        SubWellFormed(a[1..], b[1..]);
        if |a| > 1 {
          SubLength(a[1..], b[1..]);
          assert Terminated(b[0]);
        }
        forall i | 0 <= i < |a| ensures IsLine(a[i]) {
          if i > 0 { assert a[i] == a[1..][i - 1]; }
        }
        forall i | 0 <= i < |a| - 1 ensures Terminated(a[i]) {
          if i > 0 { assert a[i] == a[1..][i - 1]; }
        }
      } else {
        SubWellFormed(a, b[1..]);
      }
    }
  }

  /** The elements at odd positions 1, 3, 5, ... */
  function OddPositions<T>(s: seq<T>): seq<T>
  {
    seq(|s| / 2, i requires 0 <= i < |s| / 2 => s[2 * i + 1])
  }

  /** The elements at even positions 0, 2, 4, ... */
  function EvenPositions<T>(s: seq<T>): seq<T>
  {
    seq((|s| + 1) / 2, i requires 0 <= i < (|s| + 1) / 2 => s[2 * i])
  }

  /** Extending a prefix by one element extends exactly one of its two halves. */
  lemma ParityPrefix<T>(s: seq<T>, k: nat)
    requires k < |s|
    ensures k % 2 == 0 ==> EvenPositions(s[..k + 1]) == EvenPositions(s[..k]) + [s[k]]
    ensures k % 2 == 0 ==> OddPositions(s[..k + 1]) == OddPositions(s[..k])
    ensures k % 2 == 1 ==> OddPositions(s[..k + 1]) == OddPositions(s[..k]) + [s[k]]
    ensures k % 2 == 1 ==> EvenPositions(s[..k + 1]) == EvenPositions(s[..k])
  {
  }

  /** Two more elements extend each half by one. */
  lemma ParityPairStep<T>(s: seq<T>, m: nat)
    requires m % 2 == 0 && m + 2 <= |s|
    ensures EvenPositions(s[..m + 2]) == EvenPositions(s[..m]) + [s[m]]
    ensures OddPositions(s[..m + 2]) == OddPositions(s[..m]) + [s[m + 1]]
  {
    ParityPrefix(s, m);
    ParityPrefix(s, m + 1);
  }

  /** Equal suffixes start with equal elements and stay equal past them. */
  lemma SuffixHead<T>(a: seq<T>, i: nat, b: seq<T>, k: nat)
    requires i < |a| && k <= |b| && a[i..] == b[k..]
    ensures k < |b| && a[i] == b[k] && a[i + 1..] == b[k + 1..]
  {
    assert a[i..][0] == b[k..][0];
    assert a[i + 1..] == a[i..][1..];
    assert b[k + 1..] == b[k..][1..];
  }

  /** Appending the same element keeps two sequences' multisets equal. */
  lemma MultisetSnoc<T>(a: seq<T>, b: seq<T>, x: T)
    requires multiset(a) == multiset(b)
    ensures multiset(a + [x]) == multiset(b + [x])
  {
    assert multiset(a + [x]) == multiset(a) + multiset{x};
    assert multiset(b + [x]) == multiset(b) + multiset{x};
  }
}
