/**
 * The backlog loop of the manual run: the links file is read with
 * `readlines()`, the resulting list is iterated by a `for` loop, and after
 * every link that was fetched and imported without raising, the link is
 * removed from the list with `list.remove` and the whole file is rewritten
 * from the list.
 *
 * In the source the list that is iterated and the list that is shrunk and
 * written back are one and the same object (`unimported_links = links`).
 * A Python `for` loop over a list walks it by position, so each removal
 * shifts the next link into the slot just visited and that link is stepped
 * over. `ProcessBacklog` reproduces this; `ProcessBacklogSnapshot` is the
 * evidently intended loop over an unchanging copy.
 */
module Backlog {
  import opened Lines
  import opened Startup
  import opened Pipeline

  /** A Python list of lines: one object, possibly named by several variables. */
  class LineList {
    var items: seq<string>

    constructor (items: seq<string>)
      ensures this.items == items
    {
      this.items := items;
    }

    /** `list.remove(x)`: deletes the first element equal to `x`. */
    method Remove(x: string)
      requires x in items
      modifies this
      ensures items == RemoveFirst(old(items), x)
    {
      items := RemoveFirst(items, x);
    }
  }

  /** The links file on disk. */
  class BacklogFile {
    var text: string

    constructor (text: string)
      ensures this.text == text
    {
      this.text := text;
    }

    /** Truncate the file, then write the lines one after another, with no
        separator added: the file then holds exactly their concatenation. */
    method Rewrite(lines: seq<string>)
      modifies this
      ensures text == Concat(lines)
    {
      text := [];
      for i := 0 to |lines|
        invariant text == Concat(lines[..i])
      {
        ConcatSnoc(lines[..i], lines[i]);
        assert lines[..i + 1] == lines[..i] + [lines[i]];
        text := text + lines[i];
      }
      assert lines[..|lines|] == lines;
    }
  }

  /** How a run over the backlog ended: every link visited, or an attempt raised. */
  datatype RunResult = Completed | Aborted(link: string)

  /** The state of the aliased loop after `position` links were processed:
      the list's tail from `position` on is still the file's tail from
      `2 * position` on; the processed links are those at even positions of
      the file, and the links before the iterator are (as a multiset) those
      at odd positions, stepped over and still in the list. */
  ghost predicate AliasedState(original: seq<string>, links: seq<string>, processed: seq<string>, position: nat)
  {
    var n := |original|;
    && |links| + position == n
    && 2 * position <= n + 1
    && (2 * position <= n ==>
          && links[position..] == original[2 * position..]
          && multiset(links[..position]) == multiset(OddPositions(original[..2 * position]))
          && processed == EvenPositions(original[..2 * position]))
    && (2 * position == n + 1 ==>
          && multiset(links) == multiset(OddPositions(original))
          && processed == EvenPositions(original))
  }

  /** Deleting an earlier copy of the element at `p` leaves, from `p` on,
      what follows `p`, and before `p` the same elements as before. */
  lemma RemoveEarlierCopy(s: seq<string>, j: nat, p: nat)
    requires j <= p < |s| && s[j] == s[p]
    ensures (s[..j] + s[j + 1..])[p..] == s[p + 1..]
    ensures multiset((s[..j] + s[j + 1..])[..p]) == multiset(s[..p])
  {
    var t := s[..j] + s[j + 1..];
    assert t[..p] == s[..j] + s[j + 1..p + 1];
    assert s[..p + 1] == s[..j] + [s[j]] + s[j + 1..p + 1];
    assert s[..p + 1] == s[..p] + [s[p]];
    var whole := multiset(s[..p + 1]);
    assert whole == multiset(t[..p]) + multiset{s[p]};
    assert whole == multiset(s[..p]) + multiset{s[p]};
    assert multiset(t[..p]) == whole - multiset{s[p]};
  }

  /** One successful turn of the aliased loop: the link at the iterator's
      position is the file's link at twice that position, and removing its
      first copy and advancing the iterator keeps AliasedState. */
  lemma AliasedStep(original: seq<string>, links: seq<string>, processed: seq<string>, position: nat)
    requires AliasedState(original, links, processed, position)
    requires position < |links|
    ensures links[position] == original[2 * position]
    ensures AliasedState(original, RemoveFirst(links, links[position]), processed + [links[position]], position + 1)
  {
    var n, p := |original|, position;
    assert links[p] == original[2 * p] by {
      assert links[p..][0] == original[2 * p..][0];
    }
    var x := links[p];
    var j := FirstIndex(links, x);
    assert j <= p;
    var after := links[..j] + links[j + 1..];
    assert RemoveFirst(links, x) == after;
    RemoveEarlierCopy(links, j, p);
    if 2 * p + 2 <= n {
      StepBeforeEnd(original, links, after, processed, p);
    } else {
      StepAtEnd(original, links, after, processed, p);
    }
  }

  /** A turn that leaves at least one more link to visit; `after` is the
      list once an earlier-or-same copy of its element `p` is deleted. */
  lemma StepBeforeEnd(original: seq<string>, links: seq<string>, after: seq<string>, processed: seq<string>, p: nat)
    requires |links| + p == |original| && 2 * p + 2 <= |original|
    requires links[p..] == original[2 * p..]
    requires multiset(links[..p]) == multiset(OddPositions(original[..2 * p]))
    requires processed == EvenPositions(original[..2 * p])
    requires |after| + 1 == |links| && after[p..] == links[p + 1..] && multiset(after[..p]) == multiset(links[..p])
    ensures AliasedState(original, after, processed + [links[p]], p + 1)
  {
    StepSuffix(original, links, after, p);
    StepOdd(original, after, p);
    StepEven(original, links, processed, p);
  }

  /** The list's tail after the turn is still the file's tail. */
  lemma StepSuffix(original: seq<string>, links: seq<string>, after: seq<string>, p: nat)
    requires |links| + p == |original| && 2 * p + 2 <= |original|
    requires links[p..] == original[2 * p..]
    requires |after| + 1 == |links| && after[p..] == links[p + 1..]
    ensures after[p] == original[2 * p + 1]
    ensures after[p + 1..] == original[2 * (p + 1)..]
  {
    SuffixHead(after, p, links, p + 1);
    SuffixHead(links, p, original, 2 * p);
    SuffixHead(links, p + 1, original, 2 * p + 1);
  }

  /** The link stepped over joins the odd-position links before the iterator. */
  lemma StepOdd(original: seq<string>, after: seq<string>, p: nat)
    requires 2 * p + 2 <= |original| && p < |after|
    requires after[p] == original[2 * p + 1]
    requires multiset(after[..p]) == multiset(OddPositions(original[..2 * p]))
    ensures multiset(after[..p + 1]) == multiset(OddPositions(original[..2 * (p + 1)]))
  {
    ParityPairStep(original, 2 * p);
    assert after[..p + 1] == after[..p] + [after[p]];
    MultisetSnoc(after[..p], OddPositions(original[..2 * p]), after[p]);
  }

  /** The link processed joins the even-position links. */
  lemma StepEven(original: seq<string>, links: seq<string>, processed: seq<string>, p: nat)
    requires |links| + p == |original| && 2 * p + 2 <= |original|
    requires links[p..] == original[2 * p..]
    requires processed == EvenPositions(original[..2 * p])
    ensures processed + [links[p]] == EvenPositions(original[..2 * (p + 1)])
  {
    SuffixHead(links, p, original, 2 * p);
    ParityPairStep(original, 2 * p);
  }

  /** The turn after which the iterator has passed the end of the list. */
  lemma StepAtEnd(original: seq<string>, links: seq<string>, after: seq<string>, processed: seq<string>, p: nat)
    requires |links| + p == |original| && 2 * p + 1 == |original|
    requires links[p..] == original[2 * p..]
    requires multiset(links[..p]) == multiset(OddPositions(original[..2 * p]))
    requires processed == EvenPositions(original[..2 * p])
    requires |after| + 1 == |links| && multiset(after[..p]) == multiset(links[..p])
    ensures AliasedState(original, after, processed + [links[p]], p + 1)
  {
    SuffixHead(links, p, original, 2 * p);
    ParityPrefix(original, 2 * p);
    assert original[..2 * p + 1] == original;
    assert after == after[..p];
  }

  /** Everything the aliased loop keeps: AliasedState, the list is the file's
      lines with some deleted and the rest in order, and the list together
      with the processed links is exactly the file's lines. */
  ghost predicate AliasedLoop(original: seq<string>, links: seq<string>, processed: seq<string>, position: nat)
  {
    && AliasedState(original, links, processed, position)
    && Sub(links, original)
    && multiset(links) + multiset(processed) == multiset(original)
  }

  /** Before the first turn: nothing processed, the list is the whole file. */
  lemma AliasedStart(original: seq<string>)
    ensures AliasedLoop(original, original, [], 0)
  {
    SubRefl(original);
    assert original[..0] == [];
  }

  /** Moving a link from the list to the processed links keeps their union. */
  lemma RemoveFirstMoves(links: seq<string>, processed: seq<string>, x: string)
    requires x in links
    ensures multiset(RemoveFirst(links, x)) + multiset(processed + [x]) == multiset(links) + multiset(processed)
  {
    assert multiset(processed + [x]) == multiset(processed) + multiset{x};
  }

  /** A successful turn of the aliased loop keeps AliasedLoop. */
  lemma AliasedTurn(original: seq<string>, links: seq<string>, processed: seq<string>, position: nat)
    requires AliasedLoop(original, links, processed, position)
    requires position < |links|
    ensures links[position] == original[2 * position]
    ensures AliasedLoop(original, RemoveFirst(links, links[position]), processed + [links[position]], position + 1)
  {
    var x := links[position];
    AliasedStep(original, links, processed, position);
    RemoveFirstSub(links, x, original);
    RemoveFirstMoves(links, processed, x);
  }

  /** When an attempt raises, the list (and so the file) still holds the
      failing link at the iterator's position, followed by all the file's
      links after it, and reads back as itself. */
  lemma AliasedAbort(original: seq<string>, links: seq<string>, processed: seq<string>)
    requires AliasedLoop(original, links, processed, |processed|) && WellFormed(original)
    requires |processed| < |links|
    ensures var k := |processed|;
              && 2 * k < |original| && |links| + k == |original|
              && links[k] == original[2 * k]
              && links[k..] == original[2 * k..]
              && processed == EvenPositions(original[..2 * k])
    ensures ReadLines(Concat(links)) == links
  {
    var k := |processed|;
    assert links[k] == original[2 * k] by {
      assert links[k..][0] == original[2 * k..][0];
    }
    SubWellFormed(links, original);
    ReadLinesConcat(links);
  }

  /** When the iterator has run off the end of the list, the file's links at
      even positions were processed and (as a multiset) those at odd positions
      are what is left. */
  lemma AliasedDone(original: seq<string>, links: seq<string>, processed: seq<string>, position: nat)
    requires AliasedLoop(original, links, processed, position) && WellFormed(original)
    requires position >= |links|
    ensures processed == EvenPositions(original)
    ensures multiset(links) == multiset(OddPositions(original))
    ensures ReadLines(Concat(links)) == links
  {
    var n := |original|;
    if 2 * position == n {
      assert original[..n] == original;
      assert links[..position] == links;
    }
    SubWellFormed(links, original);
    ReadLinesConcat(links);
  }

  /** What a run over the backlog produced: how it ended, the collaborator
      calls it made, the lines left in the list (and so in the file), and the
      links whose attempt returned, in the order they were attempted. */
  datatype BacklogRun = BacklogRun(result: RunResult, calls: seq<Call>, remaining: seq<string>, processed: seq<string>)

  /** The aliased loop from its state after `position` turns: the next link is
      the list's element at the iterator's position; on success the link's
      first copy is removed from the same list and the iterator advances. */
  function AliasedFrom(cfg: Config, outcomes: nat -> LinkOutcome, links: seq<string>, position: nat,
                       processed: seq<string>, calls: seq<Call>): BacklogRun
    decreases |links| - position
  {
    if position >= |links| then BacklogRun(Completed, calls, links, processed)
    else
      var link := links[position];
      var attempt := Attempt(cfg, link, outcomes(position));
      if !attempt.succeeded then BacklogRun(Aborted(link), calls + attempt.calls, links, processed)
      else AliasedFrom(cfg, outcomes, RemoveFirst(links, link), position + 1, processed + [link], calls + attempt.calls)
  }

  /** The aliased loop over the lines read from the file. */
  function AliasedRun(cfg: Config, outcomes: nat -> LinkOutcome, original: seq<string>): BacklogRun
  {
    AliasedFrom(cfg, outcomes, original, 0, [], [])
  }

  /** What every run leaves behind, for either loop: the remaining lines are
      the file's lines with some deleted and the rest in order, together with
      the processed links they are exactly the file's lines, they read back as
      themselves, nothing is removed unless an attempt returned, and every
      processed link's attempt returned. */
  ghost predicate Leaves(cfg: Config, outcomes: nat -> LinkOutcome, original: seq<string>, run: BacklogRun)
  {
    && Sub(run.remaining, original)
    && multiset(run.remaining) + multiset(run.processed) == multiset(original)
    && ReadLines(Concat(run.remaining)) == run.remaining
    && (run.processed == [] ==> run.remaining == original)
    && AllSucceeded(cfg, run.processed, outcomes)
  }

  /** How the aliased loop ends: on completion the links at even positions
      were processed and those at odd positions remain; on an abort the failing
      link is the file's link at twice the number processed, and it and every
      link after it are still in the list. Either way the calls are those of
      the attempts made, in order. */
  ghost predicate AliasedEnds(cfg: Config, outcomes: nat -> LinkOutcome, original: seq<string>, run: BacklogRun)
  {
    && Leaves(cfg, outcomes, original, run)
    && (run.result.Completed? ==>
          && run.processed == EvenPositions(original)
          && multiset(run.remaining) == multiset(OddPositions(original))
          && run.calls == Trace(cfg, run.processed, outcomes))
    && (run.result.Aborted? ==>
          var k := |run.processed|;
          && 2 * k < |original| && |run.remaining| + k == |original|
          && run.result.link == original[2 * k] == run.remaining[k]
          && run.remaining[k..] == original[2 * k..]
          && run.processed == EvenPositions(original[..2 * k])
          && !Attempt(cfg, run.result.link, outcomes(k)).succeeded
          && run.calls == Trace(cfg, run.processed + [run.result.link], outcomes))
  }

  lemma {:induction false} AliasedFromEnds(cfg: Config, outcomes: nat -> LinkOutcome, original: seq<string>,
                                           links: seq<string>, position: nat, processed: seq<string>, calls: seq<Call>)
    requires WellFormed(original)
    requires AliasedLoop(original, links, processed, position) && |processed| == position
    requires AllSucceeded(cfg, processed, outcomes) && calls == Trace(cfg, processed, outcomes)
    ensures AliasedEnds(cfg, outcomes, original, AliasedFrom(cfg, outcomes, links, position, processed, calls))
    decreases |links| - position
  {
    var run := AliasedFrom(cfg, outcomes, links, position, processed, calls);
    if position == 0 && position < |links| {
      assert links == links[0..] == original[0..] == original;
    }
    if position >= |links| {
      AliasedDone(original, links, processed, position);
      if processed == [] {
        assert links == links[0..] == original[0..] == original;
      }
    } else {
      var link := links[position];
      var attempt := Attempt(cfg, link, outcomes(position));
      TraceSnoc(cfg, processed, link, outcomes);
      if !attempt.succeeded {
        AliasedAbort(original, links, processed);
      } else {
        AliasedTurn(original, links, processed, position);
        AllSucceededSnoc(cfg, processed, link, outcomes);
        AliasedFromEnds(cfg, outcomes, original, RemoveFirst(links, link), position + 1,
                        processed + [link], calls + attempt.calls);
      }
    }
  }

  /** The properties of the loop as written, over lines as `readlines()` gives them. */
  lemma AliasedRunProperties(cfg: Config, outcomes: nat -> LinkOutcome, original: seq<string>)
    requires WellFormed(original)
    ensures var run := AliasedRun(cfg, outcomes, original);
      && Sub(run.remaining, original)
      && multiset(run.remaining) + multiset(run.processed) == multiset(original)
      && ReadLines(Concat(run.remaining)) == run.remaining
      && (run.processed == [] ==> run.remaining == original)
      && AllSucceeded(cfg, run.processed, outcomes)
      && (run.result.Completed? ==>
            && run.processed == EvenPositions(original)
            && multiset(run.remaining) == multiset(OddPositions(original))
            && run.calls == Trace(cfg, run.processed, outcomes))
      && (run.result.Aborted? ==>
            var k := |run.processed|;
            && 2 * k < |original| && |run.remaining| + k == |original|
            && run.result.link == original[2 * k] == run.remaining[k]
            && run.remaining[k..] == original[2 * k..]
            && run.processed == EvenPositions(original[..2 * k])
            && !Attempt(cfg, run.result.link, outcomes(k)).succeeded
            && run.calls == Trace(cfg, run.processed + [run.result.link], outcomes))
  {
    AliasedStart(original);
    AliasedFromEnds(cfg, outcomes, original, original, 0, [], []);
  }

  /** The backlog loop as written: the iterated list and the list that is
      shrunk and written back are the same object. After every link whose
      attempt returned, the link is removed and the file is rewritten from the
      shrunken list, so the file always holds the list as of the last success.
      The run is exactly `AliasedRun` over the lines read from the file. */
  method ProcessBacklog(cfg: Config, file: BacklogFile, outcomes: nat -> LinkOutcome)
    returns (r: RunResult, calls: seq<Call>, ghost remaining: seq<string>, ghost processed: seq<string>)
    modifies file
    ensures BacklogRun(r, calls, remaining, processed) == AliasedRun(cfg, outcomes, ReadLines(old(file.text)))
    ensures file.text == Concat(remaining)
  {
    var lines := ReadLines(file.text);
    ConcatReadLines(file.text);
    ghost var run := AliasedRun(cfg, outcomes, lines);
    var links := new LineList(lines);
    var unimportedLinks := links;
    var position := 0;
    calls, processed := [], [];

    while position < |links.items|
      invariant unimportedLinks == links
      invariant AliasedFrom(cfg, outcomes, links.items, position, processed, calls) == run
      invariant file.text == Concat(links.items)
      decreases |links.items| - position
    {
      var link := links.items[position];
      position := position + 1;
      var attempt := Attempt(cfg, link, outcomes(position - 1));
      calls := calls + attempt.calls;
      if !attempt.succeeded {
        r, remaining := Aborted(link), links.items;
        return;
      }
      unimportedLinks.Remove(link);
      processed := processed + [link];
      file.Rewrite(unimportedLinks.items);
    }
    r, remaining := Completed, links.items;
  }

  /** The intended loop from its state after `i` turns: the next link is the
      snapshot's element `i`. The links before it were processed, and it and
      every later link are still in the separate list that is written back. */
  function SnapshotFrom(cfg: Config, outcomes: nat -> LinkOutcome, snapshot: seq<string>, i: nat,
                        calls: seq<Call>): BacklogRun
    decreases |snapshot| - i
  {
    if i >= |snapshot| then BacklogRun(Completed, calls, [], snapshot)
    else
      var link := snapshot[i];
      var attempt := Attempt(cfg, link, outcomes(i));
      if !attempt.succeeded then BacklogRun(Aborted(link), calls + attempt.calls, snapshot[i..], snapshot[..i])
      else SnapshotFrom(cfg, outcomes, snapshot, i + 1, calls + attempt.calls)
  }

  /** The intended loop over the lines read from the file. */
  function SnapshotRun(cfg: Config, outcomes: nat -> LinkOutcome, original: seq<string>): BacklogRun
  {
    SnapshotFrom(cfg, outcomes, original, 0, [])
  }

  /** How the intended loop ends: on completion every link was processed, in
      file order, and nothing remains; on an abort the links before the failing
      one were processed and it and every link after it remain. Either way the
      calls are those of the attempts made, in order. */
  ghost predicate SnapshotEnds(cfg: Config, outcomes: nat -> LinkOutcome, original: seq<string>, run: BacklogRun)
  {
    && Leaves(cfg, outcomes, original, run)
    && (run.result.Completed? ==>
          && run.processed == original
          && run.remaining == []
          && run.calls == Trace(cfg, run.processed, outcomes))
    && (run.result.Aborted? ==>
          var k := |run.processed|;
          && k < |original|
          && run.result.link == original[k]
          && run.processed == original[..k]
          && run.remaining == original[k..]
          && !Attempt(cfg, run.result.link, outcomes(k)).succeeded
          && run.calls == Trace(cfg, run.processed + [run.result.link], outcomes))
  }

  /** A run of the intended loop that stops after the first `i` links of
      well-formed lines were processed, having reached the end or an attempt
      that raised. */
  lemma SnapshotStops(cfg: Config, outcomes: nat -> LinkOutcome, original: seq<string>, i: nat,
                      run: BacklogRun)
    requires WellFormed(original) && i <= |original|
    requires run.remaining == original[i..] && run.processed == original[..i]
    requires AllSucceeded(cfg, run.processed, outcomes)
    requires run.result.Completed? ==> i == |original| && run.calls == Trace(cfg, run.processed, outcomes)
    requires run.result.Aborted? ==>
               && i < |original| && run.result.link == original[i]
               && !Attempt(cfg, run.result.link, outcomes(i)).succeeded
               && run.calls == Trace(cfg, run.processed + [run.result.link], outcomes)
    ensures SnapshotEnds(cfg, outcomes, original, run)
  {
    SuffixLeft(original, i);
  }

  /** Cutting well-formed lines at `i`: the suffix is a subsequence that
      reads back as itself, and prefix and suffix together are all the lines. */
  lemma SuffixLeft(original: seq<string>, i: nat)
    requires WellFormed(original) && i <= |original|
    ensures Sub(original[i..], original)
    ensures ReadLines(Concat(original[i..])) == original[i..]
    ensures multiset(original[i..]) + multiset(original[..i]) == multiset(original)
    ensures i == 0 ==> original[i..] == original
    ensures i == |original| ==> original[..i] == original
  {
    assert Sub(original[i..], original) by {
      SuffixIsSub(original, i);
    }
    assert ReadLines(Concat(original[i..])) == original[i..] by {
      SuffixIsSub(original, i);
      SubWellFormed(original[i..], original);
      ReadLinesConcat(original[i..]);
    }
    assert original == original[..i] + original[i..];
  }

  /** Processing the snapshot's element `i` removes the head of the remaining
      list and extends the processed prefix by it. */
  lemma SnapshotAdvance(original: seq<string>, i: nat)
    requires i < |original|
    ensures RemoveFirst(original[i..], original[i]) == original[i + 1..]
    ensures original[..i] + [original[i]] == original[..i + 1]
  {
    assert original[i..][0] == original[i];
    assert FirstIndex(original[i..], original[i]) == 0;
  }

  lemma {:induction false} SnapshotFromEnds(cfg: Config, outcomes: nat -> LinkOutcome, original: seq<string>,
                                            i: nat, calls: seq<Call>)
    requires WellFormed(original) && i <= |original|
    requires AllSucceeded(cfg, original[..i], outcomes) && calls == Trace(cfg, original[..i], outcomes)
    ensures SnapshotEnds(cfg, outcomes, original, SnapshotFrom(cfg, outcomes, original, i, calls))
    decreases |original| - i
  {
    var run := SnapshotFrom(cfg, outcomes, original, i, calls);
    if i == |original| {
      assert original[..i] == original;
      SnapshotStops(cfg, outcomes, original, i, run);
    } else {
      var link := original[i];
      var attempt := Attempt(cfg, link, outcomes(i));
      TraceSnoc(cfg, original[..i], link, outcomes);
      if !attempt.succeeded {
        SnapshotStops(cfg, outcomes, original, i, run);
      } else {
        SnapshotAdvance(original, i);
        AllSucceededSnoc(cfg, original[..i], link, outcomes);
        SnapshotFromEnds(cfg, outcomes, original, i + 1, calls + attempt.calls);
      }
    }
  }

  /** The properties of the intended loop, over lines as `readlines()` gives them. */
  lemma SnapshotRunProperties(cfg: Config, outcomes: nat -> LinkOutcome, original: seq<string>)
    requires WellFormed(original)
    ensures var run := SnapshotRun(cfg, outcomes, original);
      && Leaves(cfg, outcomes, original, run)
      && (run.result.Completed? ==>
            && run.processed == original
            && run.remaining == []
            && run.calls == Trace(cfg, run.processed, outcomes))
      && (run.result.Aborted? ==>
            var k := |run.processed|;
            && k < |original|
            && run.result.link == original[k]
            && run.processed == original[..k]
            && run.remaining == original[k..]
            && !Attempt(cfg, run.result.link, outcomes(k)).succeeded
            && run.calls == Trace(cfg, run.processed + [run.result.link], outcomes))
  {
    assert original[..0] == [];
    SnapshotFromEnds(cfg, outcomes, original, 0, []);
  }

  /** The evidently intended loop: iterate an unchanging snapshot of the
      lines and remove each processed link from a separate list, the one that
      is written back. The run is exactly `SnapshotRun` over the lines read
      from the file. */
  method ProcessBacklogSnapshot(cfg: Config, file: BacklogFile, outcomes: nat -> LinkOutcome)
    returns (r: RunResult, calls: seq<Call>, ghost remaining: seq<string>, ghost processed: seq<string>)
    modifies file
    ensures BacklogRun(r, calls, remaining, processed) == SnapshotRun(cfg, outcomes, ReadLines(old(file.text)))
    ensures file.text == Concat(remaining)
  {
    var snapshot := ReadLines(file.text);
    ConcatReadLines(file.text);
    ghost var run := SnapshotRun(cfg, outcomes, snapshot);
    var unimportedLinks := new LineList(snapshot);
    calls, processed := [], [];

    for i := 0 to |snapshot|
      invariant unimportedLinks.items == snapshot[i..]
      invariant processed == snapshot[..i]
      invariant SnapshotFrom(cfg, outcomes, snapshot, i, calls) == run
      invariant file.text == Concat(unimportedLinks.items)
    {
      var link := snapshot[i];
      var attempt := Attempt(cfg, link, outcomes(i));
      calls := calls + attempt.calls;
      if !attempt.succeeded {
        r, remaining := Aborted(link), unimportedLinks.items;
        return;
      }
      SnapshotAdvance(snapshot, i);
      unimportedLinks.Remove(link);
      processed := processed + [link];
      file.Rewrite(unimportedLinks.items);
    }
    assert snapshot[..|snapshot|] == snapshot;
    r, remaining := Completed, unimportedLinks.items;
  }

  /** A suffix is a subsequence. */
  lemma {:induction false} SuffixIsSub(s: seq<string>, i: nat)
    requires i <= |s|
    ensures Sub(s[i..], s)
    decreases i
  {
    if i == 0 {
      SubRefl(s);
    } else {
      SuffixIsSub(s[1..], i - 1);
      assert s[1..][i - 1..] == s[i..];
      if s[i..] != [] {
        assert s != [];
      }
    }
  }

  /** The collaborators' outcome when every call returns. */
  function AllReturn(k: nat): LinkOutcome
  {
    LinkOutcome(Some("name"), true, true)
  }

  /** Any settings; the runs below do not depend on them. */
  const SomeConfig := Config("id", "secret", "uri", "user", "jelly", "pw", "server", "lib", "links", "failed")

  /** The two-line backlog used below, read back. */
  lemma TwoLines()
    ensures ReadLines("a\nb\n") == ["a\n", "b\n"]
  {
    var lines := ["a\n", "b\n"];
    assert Concat(lines) == "a\nb\n" by {
      assert Concat(lines[1..]) == "b\n";
    }
    assert WellFormed(lines);
    ReadLinesConcat(lines);
  }

  /** A link that is not a playlist, with every call returning: fetched, then
      imported without a name. */
  lemma AttemptAllReturn(cfg: Config, uri: string, k: nat)
    requires !IsPlaylist(uri)
    ensures Attempt(cfg, uri, AllReturn(k)) == Attempted([FetchCall(cfg, uri), ImportCall(cfg, None)], true)
  {
  }

  /** Two links that are not playlists, every call returning: the loop as
      written attempts only the first and leaves the second in the list. */
  lemma AliasedRunTwoLines(cfg: Config, a: string, b: string)
    requires !IsPlaylist(a) && !IsPlaylist(b)
    ensures AliasedRun(cfg, AllReturn, [a, b])
         == BacklogRun(Completed, [FetchCall(cfg, a), ImportCall(cfg, None)], [b], [a])
  {
    var calls := [FetchCall(cfg, a), ImportCall(cfg, None)];
    AttemptAllReturn(cfg, a, 0);
    assert [a, b][0] == a;
    assert RemoveFirst([a, b], a) == [b] by {
      assert FirstIndex([a, b], a) == 0;
    }
    assert [] + calls == calls && [] + [a] == [a];
    assert AliasedRun(cfg, AllReturn, [a, b]) == AliasedFrom(cfg, AllReturn, [b], 1, [a], calls);
    assert AliasedFrom(cfg, AllReturn, [b], 1, [a], calls) == BacklogRun(Completed, calls, [b], [a]);
  }

  /** The same two lines with the intended loop: both are attempted, in
      order, and nothing is left. */
  lemma SnapshotRunTwoLines(cfg: Config, a: string, b: string)
    requires !IsPlaylist(a) && !IsPlaylist(b)
    ensures SnapshotRun(cfg, AllReturn, [a, b])
         == BacklogRun(Completed, [FetchCall(cfg, a), ImportCall(cfg, None), FetchCall(cfg, b), ImportCall(cfg, None)],
                       [], [a, b])
  {
    var first := [FetchCall(cfg, a), ImportCall(cfg, None)];
    var both := first + [FetchCall(cfg, b), ImportCall(cfg, None)];
    AttemptAllReturn(cfg, a, 0);
    AttemptAllReturn(cfg, b, 1);
    assert [a, b][0] == a && [a, b][1] == b;
    assert [] + first == first;
    assert SnapshotRun(cfg, AllReturn, [a, b]) == SnapshotFrom(cfg, AllReturn, [a, b], 1, first);
    assert SnapshotFrom(cfg, AllReturn, [a, b], 1, first) == SnapshotFrom(cfg, AllReturn, [a, b], 2, both);
  }

  /** A two-line backlog where every fetch and import succeeds: the loop as
      written fetches and imports the first line only; the second is never
      fetched and is left in the file. */
  method AliasedRunLeavesSecondLine() returns (r: RunResult, finalText: string, calls: seq<Call>)
    ensures r == Completed
    ensures finalText == "b\n"
    ensures calls == [FetchCall(SomeConfig, "a\n"), ImportCall(SomeConfig, None)]
  {
    var file := new BacklogFile("a\nb\n");
    TwoLines();
    AliasedRunTwoLines(SomeConfig, "a\n", "b\n");
    ghost var remaining, processed;
    r, calls, remaining, processed := ProcessBacklog(SomeConfig, file, AllReturn);
    assert Concat(["b\n"]) == "b\n";
    finalText := file.text;
  }

  /** The same backlog and outcomes with the intended loop: both lines are
      fetched and imported, in order, and the file is left empty. */
  method SnapshotRunEmptiesFile() returns (r: RunResult, finalText: string, calls: seq<Call>)
    ensures r == Completed
    ensures finalText == ""
    ensures calls == [FetchCall(SomeConfig, "a\n"), ImportCall(SomeConfig, None),
                      FetchCall(SomeConfig, "b\n"), ImportCall(SomeConfig, None)]
  {
    var file := new BacklogFile("a\nb\n");
    TwoLines();
    SnapshotRunTwoLines(SomeConfig, "a\n", "b\n");
    ghost var remaining, processed;
    r, calls, remaining, processed := ProcessBacklogSnapshot(SomeConfig, file, AllReturn);
    finalText := file.text;
  }
}
