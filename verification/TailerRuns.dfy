/** Three runs of the tailer: bytes lost, bytes skipped, and a line that pins the offset for good. */
module TailerRuns {
  import opened Prelude
  import opened WindowLog
  import opened Tailer
  import Utf8

  /** A JSON library that finds an object with a writer in every line. */
  const ECHO := Library(_ => Loaded(JObj(map["writer" := JNull])), _ => "", _ => "")

  /** A line of one letter. */
  function Letter(c: Byte): Raw { [c, NEWLINE] }

  lemma FirstLineOfLetter(c: Byte)
    requires c != NEWLINE
    ensures LineEnd(Letter(c)) == 2
  {
    assert Letter(c)[1..] == [NEWLINE];
  }

  lemma LetterRenders(c: Byte)
    requires c < 0x80 && c != NEWLINE
    ensures Rendered(ECHO, Letter(c)) == [[c as char]] && Newlines(Letter(c)) == 1
  {
    var line := Letter(c);
    FirstLineOfLetter(c);
    hide LineEnd, Newlines, Rendered;
    assert line[..2] == line && line[2..] == [] && line[..1] == [c] && [c][1..] == [];
    Utf8.DecodeBytes([c as char]);
    assert Utf8.Bytes([c as char]) == [c];
    NothingRendered(ECHO);
    RenderedHead(ECHO, line);
    NothingConsumed(ECHO);
    NewlinesLine([], line);
    assert [] + line == line;
  }

  lemma NeverStuck(consumed: Raw, pending: Raw, stale: bool)
    ensures !StuckIn(ECHO, consumed, pending, stale)
  {
  }

  /** A poll over one letter, with nothing appended in the steps it reads in, consumes exactly the letter. */
  lemma OneLetter(c: Byte, consumed: Raw, reach: Raw, more: Raw, late: Raw, rest: Raw)
    requires c < 0x80 && c != NEWLINE && |more| <= 2 && (Newlines(consumed) <= 4 ==> reach == [])
    requires consumed == [] || |consumed| <= |Letter(c) + reach|
    requires Letter(c) + more == consumed + late + rest && QuietFrom(Letter(c), |consumed|)
    ensures consumed == Letter(c) && Newlines(consumed) == 1 && more == late + rest
  {
    hide Newlines;
    LetterRenders(c);
    assert Letter(c)[1] == NEWLINE;
    Reassociate(consumed, late, rest);
    assert |Letter(c) + more| <= 4;
    assert consumed == (consumed + (late + rest))[..2] == (Letter(c) + more)[..2] == Letter(c);
    Cancel(Letter(c), more, late + rest);
  }

  /** Panes append one line just before step six, or nothing. */
  ghost predicate OnlySixth(t: WindowLogTailer, late: Raw) { forall n :: t.others(n) == if n == 6 then late else [] }

  lemma {:induction false} AppendsSixth(t: WindowLogTailer, late: Raw, n: nat)
    requires OnlySixth(t, late)
    ensures t.Appends(0, n) == if n > 6 then late else []
    decreases n
  {
    if n > 0 { AppendsSixth(t, late, n - 1); }
  }

  /** The length of what an unsaved poll read. */
  lemma SegmentFits(consumed: Raw, pending: Raw, stale: bool)
    requires Segment(consumed, pending, stale)
    ensures |consumed| <= |pending|
  {
  }

  /** The start of both runs: one line in the file, nothing published yet, and a file of one byte is already too large. */
  ghost predicate Begins(t: WindowLogTailer, late: Raw, life: nat)
    reads t
  {
    && t.Valid() && t.lib == ECHO && t.maxBytes == 1 && OnlySixth(t, late) && t.life == life && t.issued == 0
    && t.file == Letter(65) && t.saved == 0 && !t.stale && t.published == []
  }

  /** Such a tailer can be had. */
  method Begin(late: Raw, life: nat) returns (t: WindowLogTailer)
    ensures fresh(t) && Begins(t, late, life)
  {
    t := new WindowLogTailer(ECHO, 1, n => if n == 6 then late else []);
    t.file, t.life := Letter(65), life;
  }

  lemma BeginsWith(t: WindowLogTailer, late: Raw, life: nat)
    requires Begins(t, late, life)
    ensures t.Valid() && t.Pending() == Letter(65) && t.lib == ECHO && t.maxBytes == 1 && OnlySixth(t, late)
    ensures t.life == life && t.issued == 0 && t.saved == 0 && !t.stale && t.published == []
  {
  }

  /** Bytes appended between the size check and the emptying of the file are gone. */
  method BytesAreLost(t: WindowLogTailer) returns (ghost ending: Ending)
    requires Begins(t, Letter(66), 100)
    modifies t
    ensures t.Valid() && ending == Finished
    ensures t.Appends(0, t.issued) == Letter(66) && t.Pending() == [] && t.published == Rendered(ECHO, Letter(65))
  {
    hide Rendered, Newlines, WindowLogTailer.Appends, OnlySixth, ECHO, Timing, QuietFrom, Segment, StuckIn, Harmless,
      Aligned, WindowLogTailer.Late, WindowLogTailer.Ran, WindowLogTailer.Pending, Letter, Begins, Keeps,
      WindowLogTailer.Valid;
    BeginsWith(t, Letter(66), 100);
    ghost var skipped, consumed, emptied;
    ending, skipped, consumed, emptied := t.Poll();
    NeverStuck(consumed, t.Pending(), t.stale);
    LostPoll(t, ending, skipped, consumed, emptied);
  }

  lemma LostPoll(t: WindowLogTailer, ending: Ending, skipped: Raw, consumed: Raw, emptied: Option<nat>)
    requires t.Valid() && OnlySixth(t, Letter(66)) && t.maxBytes == 1 && !ending.Poisoned? && skipped == []
    requires Timing(ending, emptied, 0, t.issued, Newlines(consumed)) && t.Ran(ending.Finished? || ending.Poisoned?, 100, 0)
    requires ending.Unsaved? ==> Segment(consumed, t.Pending(), t.stale)
    requires !Keeps(ending) ==> t.Pending() == Letter(65) + t.Appends(0, t.issued)
    requires Keeps(ending) ==> Letter(65) + t.Appends(0, t.issued) == skipped + consumed + t.Late(emptied) + t.Pending()
    requires consumed == [] || |skipped| + |consumed| <= |Letter(65) + t.Appends(0, Newlines(consumed) + 2)| || !Keeps(ending)
    requires ending.Finished? && emptied.None? ==> |t.file| <= 1 || t.Pending() != []
    requires Keeps(ending) && !(ending.Finished? && emptied.Some?) ==> t.saved == |consumed|
    requires t.stale <==> ending.Truncated?
    requires Keeps(ending) ==> QuietFrom(Letter(65), |skipped| + |consumed|)
    ensures ending == Finished && consumed == Letter(65) && t.Appends(0, t.issued) == Letter(66) && t.Pending() == []
  {
    hide WindowLogTailer.Appends, WindowLogTailer.Pending, Segment, QuietFrom, Newlines;
    AppendsSixth(t, Letter(66), t.issued);
    AppendsSixth(t, Letter(66), Newlines(consumed) + 2);
    assert [] + consumed == consumed;
    if Keeps(ending) {
      OneLetter(65, consumed, t.Appends(0, Newlines(consumed) + 2), t.Appends(0, t.issued), t.Late(emptied), t.Pending());
    } else {
      SegmentFits(consumed, t.Pending(), t.stale);
    }
    assert t.others(6) == Letter(66);
  }

  /** Stopped between the emptying and the reset of the offset, the tailer later skips as many bytes as the old offset says. */
  method BytesAreSkipped(t: WindowLogTailer) returns (ghost skipped: Raw)
    requires Begins(t, [], 7)
    modifies t
    ensures t.Valid() && !t.stale && t.Pending() == [] && skipped == Letter(66)
    ensures t.published == Rendered(ECHO, Letter(65)) + Rendered(ECHO, Letter(67))
  {
    hide Rendered, Newlines, WindowLogTailer.Appends, ECHO, Timing, QuietFrom, Segment, StuckIn, Harmless, Aligned,
      WindowLogTailer.Late, WindowLogTailer.Ran, WindowLogTailer.Pending, Letter, Begins, Keeps, WindowLogTailer.Valid;
    BeginsWith(t, [], 7);
    hide OnlySixth;
    ghost var nothing, ending, consumed, emptied;
    ending, nothing, consumed, emptied := t.Poll();
    NeverStuck(consumed, t.Pending(), t.stale);
    CutPoll(t, ending, nothing, consumed, emptied);
    assert t.published == Rendered(ECHO, Letter(65));
    TwoLinesArrive(t);
    ending, skipped, consumed, emptied := t.Poll();
    NeverStuck(consumed, t.Pending(), t.stale);
    SkippingPoll(t, ending, skipped, consumed, emptied);
  }

  /** Panes append two lines to the emptied file; the next pass has steps enough. */
  method TwoLinesArrive(t: WindowLogTailer)
    requires t.Valid() && t.stale && t.Pending() == []
    modifies t`file, t`life
    ensures t.Valid() && t.Pending() == t.file == Letter(66) + Letter(67) && t.life == 100
  {
    t.file, t.life := t.file + Letter(66) + Letter(67), 100;
  }

  lemma NothingArrives(t: WindowLogTailer, from: nat, until: nat)
    requires OnlySixth(t, [])
    ensures t.Appends(from, until) == []
  {
    t.AppendsNothing(from, until);
  }

  /** Seven steps let the first pass empty the file, but not reset the offset. */
  lemma CutPoll(t: WindowLogTailer, ending: Ending, skipped: Raw, consumed: Raw, emptied: Option<nat>)
    requires t.Valid() && OnlySixth(t, []) && !ending.Poisoned? && skipped == []
    requires Timing(ending, emptied, 0, t.issued, Newlines(consumed)) && t.Ran(ending.Finished? || ending.Poisoned?, 7, 0)
    requires ending.Unsaved? ==> Segment(consumed, t.Pending(), t.stale)
    requires !Keeps(ending) ==> t.Pending() == Letter(65) + t.Appends(0, t.issued)
    requires Keeps(ending) ==> Letter(65) + t.Appends(0, t.issued) == skipped + consumed + t.Late(emptied) + t.Pending()
    requires consumed == [] || |skipped| + |consumed| <= |Letter(65) + t.Appends(0, Newlines(consumed) + 2)| || !Keeps(ending)
    requires ending.Finished? && emptied.None? ==> |t.file| <= 1 || t.Pending() != []
    requires Keeps(ending) && !(ending.Finished? && emptied.Some?) ==> t.saved == |consumed|
    requires t.stale <==> ending.Truncated?
    requires Keeps(ending) ==> QuietFrom(Letter(65), |skipped| + |consumed|)
    ensures ending == Truncated && consumed == Letter(65) && t.Pending() == [] && t.saved == 2 && t.issued == 8
  {
    hide WindowLogTailer.Appends, WindowLogTailer.Pending, Segment, QuietFrom, Newlines, OnlySixth;
    NothingArrives(t, 0, t.issued);
    NothingArrives(t, 0, Newlines(consumed) + 2);
    assert [] + consumed == consumed;
    if Keeps(ending) {
      OneLetter(65, consumed, t.Appends(0, Newlines(consumed) + 2), t.Appends(0, t.issued), t.Late(emptied), t.Pending());
    } else {
      SegmentFits(consumed, t.Pending(), t.stale);
    }
  }

  /** The next pass starts at the old offset. */
  lemma SkippingPoll(t: WindowLogTailer, ending: Ending, skipped: Raw, consumed: Raw, emptied: Option<nat>)
    requires t.Valid() && OnlySixth(t, []) && !ending.Poisoned?
    requires Timing(ending, emptied, 8, t.issued, Newlines(consumed)) && t.Ran(ending.Finished? || ending.Poisoned?, 100, 8)
    requires ending.Unsaved? ==> Segment(consumed, t.Pending(), t.stale)
    requires !Keeps(ending) ==> t.Pending() == Letter(66) + Letter(67) + t.Appends(8, t.issued)
    requires Keeps(ending) ==>
      Letter(66) + Letter(67) + t.Appends(8, t.issued) == skipped + consumed + t.Late(emptied) + t.Pending()
    requires Keeps(ending) ==> |skipped| == if 2 <= |Letter(66) + Letter(67) + t.Appends(8, 10)| then 2 else 0
    requires t.stale <==> ending.Truncated? || !Keeps(ending)
    requires Keeps(ending) ==> QuietFrom(Letter(66) + Letter(67), |skipped| + |consumed|)
    ensures ending == Finished && skipped == Letter(66) && consumed == Letter(67) && t.Pending() == [] && !t.stale
  {
    hide WindowLogTailer.Appends, WindowLogTailer.Pending, Segment, Newlines, OnlySixth;
    NothingArrives(t, 8, t.issued);
    var both := Letter(66) + Letter(67);
    assert both + [] == both && both[3] == NEWLINE && both[..2] == Letter(66) && both[2..4] == Letter(67);
    if Keeps(ending) {
      var rest := t.Late(emptied) + t.Pending();
      Reassociate(skipped + consumed, t.Late(emptied), t.Pending());
      Reassociate(skipped, consumed, rest);
      assert skipped == (skipped + (consumed + rest))[..2] == both[..2];
      assert consumed + rest == both[2..4];
      assert |consumed| >= 2;
      assert consumed == (consumed + rest)[..2];
    } else {
      SegmentFits(consumed, t.Pending(), t.stale);
    }
  }

  // ---- a poison line pins the offset ----

  /** Pending bytes whose complete lines are fine up to one that the JSON library cannot even fail on. */
  ghost predicate Poisoning(lib: Library, a: Raw, line: Raw) {
    && Aligned(a) && Harmless(lib, a)
    && Complete(line) && NEWLINE !in line[..|line| - 1] && Poison(lib, line)
  }

  /** No harmless read gets past the lines before it. */
  lemma StopsBefore(lib: Library, a: Raw, line: Raw, rest: Raw, consumed: Raw)
    requires Poisoning(lib, a, line) && consumed <= a + line + rest && Aligned(consumed) && Harmless(lib, consumed)
    ensures |consumed| <= |a|
  {
    hide Harmless, Poison, LineEnd;
    if |consumed| > |a| {
      var beyond := consumed[|a|..];
      assert consumed == a + beyond && beyond <= line + rest by { assert (a + line + rest)[|a|..] == line + rest; }
      assert beyond[|beyond| - 1] == NEWLINE;
      assert forall k :: 0 <= k < |line| - 1 ==> (line + rest)[k] == line[..|line| - 1][k];
      var after := beyond[|line|..];
      assert beyond == line + after;
      HarmlessAfter(lib, a, beyond);
      PoisonBlocks(lib, line);
      BlockedStays(lib, line, after);
    }
  }

  lemma PoisonBlocks(lib: Library, line: Raw)
    requires Complete(line) && NEWLINE !in line[..|line| - 1] && Poison(lib, line)
    ensures Blocked(lib, line)
  {
    hide Poison;
    OneLine(line);
    assert line[..|line|] == line;
  }

  /** A harmless line first is no poison line first, whatever follows. */
  lemma HarmlessFirst(lib: Library, left: Raw, more: Raw)
    requires left != [] && Aligned(left) && Harmless(lib, left)
    ensures !Blocked(lib, left + more)
  {
    LineOfConcat(left, more);
    hide LineEnd, Poison;
  }

  /** ... and one that is stopped by a poison line is stopped by this one. */
  lemma StopsThere(lib: Library, a: Raw, line: Raw, rest: Raw, consumed: Raw)
    requires Poisoning(lib, a, line) && consumed <= a + line + rest && Aligned(consumed) && Harmless(lib, consumed)
    requires Blocked(lib, (a + line + rest)[|consumed|..])
    ensures consumed == a
  {
    hide Harmless, Poison, LineEnd, Blocked;
    StopsBefore(lib, a, line, rest, consumed);
    assert consumed == (a + line + rest)[..|consumed|] == a[..|consumed|];
    var left := a[|consumed|..];
    if left != [] {
      assert a == consumed + left && left[|left| - 1] == a[|a| - 1];
      HarmlessAfter(lib, consumed, left);
      assert (a + line + rest)[|consumed|..] == left + (line + rest);
      HarmlessFirst(lib, left, line + rest);
    }
  }

  ghost function Times(s: seq<string>, n: nat): seq<string> { if n == 0 then [] else Times(s, n - 1) + s }

  method Allow(t: WindowLogTailer, steps: nat)
    requires t.Valid()
    modifies t`life
    ensures t.Valid() && t.life == steps && t.Pending() == old(t.Pending())
  {
    t.life := steps;
  }

  /** Every pass publishes the lines before the poison one again, and none ever gets past it. */
  method Pinned(t: WindowLogTailer, a: Raw, line: Raw, rest: Raw, passes: nat)
    requires t.Valid() && !t.stale && t.Pending() == a + line + rest && Poisoning(t.lib, a, line)
    requires forall n :: t.others(n) == []
    modifies t
    ensures t.Valid() && !t.stale && t.Pending() == a + line + rest && t.done == old(t.done) && t.saved == old(t.saved)
    ensures t.published == old(t.published) + Times(Rendered(t.lib, a), passes)
  {
    hide Rendered, WindowLogTailer.Appends, WindowLogTailer.Pending, Poisoning, Harmless, Aligned, Segment, StuckIn,
      QuietFrom, WindowLogTailer.Late;
    assert t.published + [] == t.published;
    for i := 0 to passes
      invariant t.Valid() && !t.stale && t.Pending() == a + line + rest && t.done == old(t.done) && t.saved == old(t.saved)
      invariant t.published == old(t.published) + Times(Rendered(t.lib, a), i)
    {
      ghost var from := t.issued;
      Allow(t, |a| + 4);
      ghost var ending, skipped, consumed, emptied;
      ending, skipped, consumed, emptied := t.Poll();
      PinnedPass(t, a, line, rest, from, ending, skipped, consumed, emptied);
    }
  }

  lemma PinnedPass(t: WindowLogTailer, a: Raw, line: Raw, rest: Raw, from: nat, ending: Ending, skipped: Raw,
      consumed: Raw, emptied: Option<nat>)
    requires t.Valid() && Poisoning(t.lib, a, line) && (forall n :: t.others(n) == []) && skipped == []
    requires Aligned(consumed) && Harmless(t.lib, consumed)
    requires t.Ran(ending.Finished? || ending.Poisoned?, |a| + 4, from)
    requires Timing(ending, emptied, from, t.issued, Newlines(consumed))
    requires ending.Unsaved? ==> Segment(consumed, t.Pending(), false)
    requires ending.Poisoned? ==> StuckIn(t.lib, consumed, t.Pending(), false)
    requires !Keeps(ending) ==> t.Pending() == a + line + rest + t.Appends(from, t.issued)
    requires Keeps(ending) ==> a + line + rest + t.Appends(from, t.issued) == skipped + consumed + t.Late(emptied) + t.Pending()
    requires Keeps(ending) ==> QuietFrom(a + line + rest, |skipped| + |consumed|)
    ensures ending.Poisoned? && consumed == a && t.Pending() == a + line + rest
  {
    hide WindowLogTailer.Pending, Harmless, Aligned, Blocked, Poisoning, WindowLogTailer.Appends;
    var all := a + line + rest;
    t.AppendsNothing(from, t.issued);
    assert all + [] == all && [] + consumed == consumed;
    if Keeps(ending) {
      Reassociate(consumed, t.Late(emptied), t.Pending());
      assert consumed <= all;
      StopsBefore(t.lib, a, line, rest, consumed);
      EndsALine(t.lib, a, line, rest);
    } else {
      assert consumed <= all && t.Pending() == all;
      StopsBefore(t.lib, a, line, rest, consumed);
      if ending.Poisoned? { StopsThere(t.lib, a, line, rest, consumed); }
    }
  }

  lemma EndsALine(lib: Library, a: Raw, line: Raw, rest: Raw)
    requires Poisoning(lib, a, line)
    ensures |line| > 0 && (a + line + rest)[|a| + |line| - 1] == NEWLINE
  {
  }
}
