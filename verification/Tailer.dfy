/** WindowLogTailer.poll, one file or Redis operation at a time. */
module Tailer {
  import opened Prelude
  import opened WindowLog

  /** How the read loop ends: a step fails, a poison line raises, or no complete line is left. */
  datatype Halt = Cut | Stuck | Reached

  /** Where a poll got to: its last step may be a stop of the process or a swallowed error. */
  datatype Ending = Unsaved | Poisoned | Saved | Truncated | Finished

  /** The new offset was saved. */
  predicate Keeps(ending: Ending) { !ending.Unsaved? && !ending.Poisoned? }

  /**
   Which step a poll ended with: two to look, one per line and one more, then the save, the size check, the
   emptying and the reset.
   */
  predicate Timing(ending: Ending, emptied: Option<nat>, from: nat, end: nat, lines: nat) {
    && (emptied.Some? ==> emptied.value == from + lines + 5)
    && match ending
       case Unsaved => from < end <= from + lines + 4 && emptied == None
       case Poisoned => end == from + lines + 3 && emptied == None
       case Saved => from + lines + 5 <= end <= from + lines + 6 && emptied == None
       case Truncated => end == from + lines + 7 && emptied.Some?
       case Finished => end == from + lines + if emptied.Some? then 7 else 5
  }

  class WindowLogTailer {
    const lib: Library
    const maxBytes: nat
    const others: nat -> Raw       // what panes append before this process's n-th step
    var life: nat                  // how many more steps succeed before one fails
    var issued: nat
    var file: Raw
    var saved: nat                 // the offset in Redis
    var published: seq<string>
    ghost var done: Raw            // the bytes the saved offset has settled, in order
    ghost var stale: bool          // the file was emptied and the offset not yet reset

    constructor (lib: Library, maxBytes: nat, others: nat -> Raw)
      requires maxBytes >= 1
      ensures Valid() && file == [] && published == [] && done == [] && !stale && saved == 0 && issued == 0
      ensures this.lib == lib && this.maxBytes == maxBytes && this.others == others && Pending() == []
    {
      this.lib, this.maxBytes, this.others, life := lib, maxBytes, others, 0;
      issued, file, saved, published, done, stale := 0, [], 0, [], [], false;
    }

    ghost predicate Valid()
      reads this
    {
      maxBytes >= 1 && Aligned(done) && (!stale ==> saved <= |file|)
    }

    /** The bytes in the file that no saved offset has settled. */
    ghost function Pending(): Raw
      requires Valid()
      reads this
    {
      if stale then file else file[saved..]
    }

    /** What panes append before steps from..until. */
    ghost function Appends(from: nat, until: nat): Raw
      decreases until
    {
      if until <= from then [] else Appends(from, until - 1) + others(until - 1)
    }

    lemma AppendsOne(at: nat)
      ensures Appends(at, at + 1) == others(at) && Appends(at, at) == []
    {
    }

    lemma {:induction false} AppendsSplit(from: nat, mid: nat, until: nat)
      requires from <= mid <= until
      ensures Appends(from, until) == Appends(from, mid) + Appends(mid, until)
      decreases until
    {
      if mid < until { AppendsSplit(from, mid, until - 1); }
    }

    lemma {:induction false} AppendsNothing(from: nat, until: nat)
      requires forall n :: from <= n < until ==> others(n) == []
      ensures Appends(from, until) == []
      decreases until
    {
      if from < until { AppendsNothing(from, until - 1); }
    }

    /** Every step so far succeeded, or the last one failed. */
    ghost predicate Ran(alive: bool, before: nat, from: nat)
      reads this
    {
      if alive then life + issued == before + from else life == 0 && issued == from + before + 1
    }

    /** Panes append; then this process's next step succeeds or fails. */
    method Next() returns (alive: bool)
      requires Valid()
      modifies this`issued, this`life, this`file
      ensures Valid() && issued == old(issued) + 1 && Ran(alive, old(life), old(issued))
      ensures file == old(file) + others(old(issued)) && Pending() == old(Pending()) + others(old(issued))
      ensures alive <==> old(life) > 0
    {
      file := file + others(issued);
      issued := issued + 1;
      alive := life > 0;
      if alive { life := life - 1; }
    }

    /** One readline from `at`; None at a partial tail, where the loop breaks. */
    method NextLine(at: nat) returns (alive: bool, line: Option<Raw>)
      requires Valid() && at <= |file|
      modifies this`issued, this`life, this`file
      ensures Valid() && issued == old(issued) + 1 && Ran(alive, old(life), old(issued))
      ensures file == old(file) + others(old(issued)) && (alive ==> old(life) > 0)
      ensures !alive ==> line == None
      ensures line.Some? ==>
        && Complete(line.value) && NEWLINE !in line.value[..|line.value| - 1] && line.value == ReadLine(file[at..])
        && at + |line.value| <= |file| && file[at..at + |line.value|] == line.value
      ensures alive && line.None? ==> NEWLINE !in file[at..]
    {
      hide LineEnd, Pending;
      alive := Next();
      if !alive { return false, None; }
      var text := ReadLine(file[at..]);
      LineIsLine(file[at..]);
      line := if Complete(text) then Some(text) else None;
    }

    /** The read loop from `offset`: every complete line seen, published or skipped, in order, one step each. */
    method ReadLines(offset: nat) returns (how: Halt, committed: nat, ghost read: Raw)
      requires Valid() && offset <= |file|
      modifies this`issued, this`life, this`file, this`published
      ensures Valid() && file == old(file) + Appends(old(issued), issued)
      ensures offset <= committed <= |file| && read == file[offset..committed] && Aligned(read)
      ensures published == old(published) + Rendered(lib, read) && Harmless(lib, read)
      ensures issued == old(issued) + Newlines(read) + 1 && Ran(how != Cut, old(life), old(issued))
      ensures committed <= |old(file) + Appends(old(issued), old(issued) + Newlines(read))|
      ensures how == Reached ==> NEWLINE !in file[committed..]
      ensures how == Stuck ==> Blocked(lib, file[committed..])
    {
      hide Rendered, Shown, LineEnd, Complete, Aligned, Poison, Appends, Newlines, Harmless;
      how, committed, read := Cut, offset, [];
      NothingConsumed(lib);
      NothingHarms(lib);
      AppendsOne(issued);
      assert file + [] == file && file[offset..offset] == [];
      ghost var start := issued;
      while true
        invariant Valid() && file == old(file) + Appends(start, issued) && issued == start + Newlines(read)
        invariant offset <= committed <= |file| && read == file[offset..committed] && Aligned(read)
        invariant published == old(published) + Rendered(lib, read) && Harmless(lib, read) && Ran(true, old(life), start)
        decreases life
      {
        ghost var before := file;
        AppendsSplit(start, issued, issued + 1);
        AppendsOne(issued);
        Reassociate(old(file), Appends(start, issued), others(issued));
        SliceStays(before, others(issued), offset, committed);
        var alive, line := NextLine(committed);
        if !alive { return Cut, committed, read; }
        if line.None? { return Reached, committed, read; }
        if Poison(lib, line.value) { return Stuck, committed, read; }
        LineRead(lib, file, offset, committed, read, line.value);
        published := published + Shown(lib, line.value);
        read := read + line.value;
        committed := committed + |line.value|;
      }
    }

    /** The offset key and the size: where to start reading. */
    method Look() returns (alive: bool, offset: nat)
      requires Valid()
      modifies this`issued, this`life, this`file
      ensures Valid() && file == old(file) + Appends(old(issued), issued) && Ran(alive, old(life), old(issued))
      ensures old(issued) < issued <= old(issued) + 2 && (alive ==> issued == old(issued) + 2)
      ensures offset <= |file| && (offset == saved || offset == 0) && (!stale ==> offset == saved)
      ensures alive ==> offset == if saved <= |file| then saved else 0
    {
      hide Pending;
      offset := 0;
      AppendsOne(issued);
      AppendsOne(issued + 1);
      AppendsSplit(issued, issued + 1, issued + 2);
      Reassociate(file, others(issued), others(issued + 1));
      alive := Next();
      offset := saved;
      if alive { alive := Next(); }
      if offset > |file| { offset := 0; }
    }

    /** poll up to the point where the new offset would be saved. */
    method Scan() returns (how: Halt, offset: nat, committed: nat, ghost consumed: Raw)
      requires Valid()
      modifies this`issued, this`life, this`file, this`published
      ensures Valid() && file == old(file) + Appends(old(issued), issued) && Ran(how != Cut, old(life), old(issued))
      ensures Aligned(consumed) && Harmless(lib, consumed) && published == old(published) + Rendered(lib, consumed)
      ensures offset <= committed <= |file| && (offset == saved || offset == 0) && (!stale ==> offset == saved)
      ensures consumed == file[offset..committed]
      ensures how != Cut ==> offset == if saved <= |old(file) + Appends(old(issued), old(issued) + 2)| then saved else 0
      ensures consumed == [] || committed <= |old(file) + Appends(old(issued), old(issued) + Newlines(consumed) + 2)|
      ensures match how
        case Cut => old(issued) < issued <= old(issued) + Newlines(consumed) + 4
        case Stuck => issued == old(issued) + Newlines(consumed) + 3 && Blocked(lib, file[committed..])
        case Reached => issued == old(issued) + Newlines(consumed) + 4
      ensures how == Reached ==> forall k :: committed <= k < |old(file)| ==> file[k] != NEWLINE
    {
      hide Rendered, Aligned, Pending, Blocked, Newlines, Appends, Harmless;
      NothingConsumed(lib);
      NothingHarms(lib);
      consumed := [];
      ghost var start, first := issued, file;
      var alive;
      alive, offset := Look();
      committed, how := offset, Cut;
      assert file[offset..committed] == [];
      if !alive { return; }
      ghost var looked, seen := issued, file;
      how, committed, consumed := ReadLines(offset);
      AppendsSplit(start, looked, issued);
      Reassociate(first, Appends(start, looked), Appends(looked, issued));
      if committed != offset {
        AppendsSplit(start, looked, looked + Newlines(consumed));
        Reassociate(first, Appends(start, looked), Appends(looked, looked + Newlines(consumed)));
      }
      if how != Reached { return; }
      ghost var read, at := file, issued;
      NoneAfter(read, committed);
      AppendsOne(at);
      AppendsSplit(start, at, at + 1);
      Reassociate(first, Appends(start, at), others(at));
      alive := Next();
      assert file[offset..committed] == read[offset..committed];
      if !alive { how := Cut; }
    }

    /** The scan, told in terms of what is pending. */
    method Survey() returns (how: Halt, offset: nat, committed: nat, ghost consumed: Raw)
      requires Valid()
      modifies this`issued, this`life, this`file, this`published
      ensures Valid() && Pending() == old(Pending()) + Appends(old(issued), issued) && Ran(how != Cut, old(life), old(issued))
      ensures Aligned(consumed) && Harmless(lib, consumed) && published == old(published) + Rendered(lib, consumed)
      ensures offset <= committed <= |file| && (offset == saved || offset == 0) && (!stale ==> offset == saved)
      ensures consumed == file[offset..committed]
      ensures how != Cut ==> offset == if saved <= |old(file) + Appends(old(issued), old(issued) + 2)| then saved else 0
      ensures consumed == [] ||
        (if stale then committed else committed - saved)
          <= |old(Pending()) + Appends(old(issued), old(issued) + Newlines(consumed) + 2)|
      ensures match how
        case Cut => old(issued) < issued <= old(issued) + Newlines(consumed) + 4 && Segment(consumed, Pending(), stale)
        case Stuck => issued == old(issued) + Newlines(consumed) + 3 && StuckIn(lib, consumed, Pending(), stale)
        case Reached =>
          issued == old(issued) + Newlines(consumed) + 4 && QuietFrom(old(Pending()), if stale then committed else committed - saved)
    {
      hide Rendered, Aligned, Segment, StuckIn, Blocked, Newlines, Appends, Harmless;
      how, offset, committed, consumed := Scan();
      assert Pending() == old(Pending()) + Appends(old(issued), issued);
      match how
      case Cut => ConsumedIsSegment(file, saved, offset, committed, stale);
      case Stuck => StuckBehind(lib, file, saved, offset, committed, stale);
      case Reached => PendingQuiet(old(file), file, saved, committed, stale);
    }

    /** Is the file too large, and all of it settled? */
    method SizeCheck(committed: nat) returns (alive: bool, full: bool)
      requires Valid() && !stale && committed == saved
      modifies this`issued, this`life, this`file
      ensures Valid() && issued == old(issued) + 1 && Ran(alive, old(life), old(issued))
      ensures Pending() == old(Pending()) + others(old(issued))
      ensures full <==> |file| > maxBytes && Pending() == []
    {
      alive := Next();
      full := |file| > maxBytes && committed == |file|;
    }

    /** What is lost when the file is emptied at that step: whatever was appended just before it. */
    ghost function Late(emptied: Option<nat>): Raw { if emptied.Some? then others(emptied.value) else [] }

    /** write_bytes(b"") */
    method Empty()
      requires Valid()
      modifies this`file, this`stale
      ensures Valid() && stale && file == [] && Pending() == []
    {
      file, stale := [], true;
    }

    method Reset()
      requires Valid() && stale
      modifies this`saved, this`stale
      ensures Valid() && !stale && saved == 0 && Pending() == old(Pending())
    {
      saved, stale := 0, false;
    }

    /** Empty the file, then reset the offset; what is appended just before the emptying is lost. */
    method EmptyFile() returns (ending: Ending, ghost emptied: Option<nat>)
      requires Valid() && !stale && Pending() == []
      modifies this`issued, this`life, this`file, this`saved, this`stale
      ensures Valid() && Ran(ending.Finished?, old(life), old(issued))
      ensures Late(emptied) + Pending() == Appends(old(issued), issued)
      ensures match ending
        case Saved => emptied == None && issued == old(issued) + 1 && !stale && saved == old(saved)
        case Truncated => emptied == Some(old(issued)) && issued == old(issued) + 2 && stale && saved == old(saved)
        case Finished => emptied == Some(old(issued)) && issued == old(issued) + 2 && !stale && saved == 0
        case _ => false
    {
      hide Pending, Appends;
      emptied := None;
      AppendsOne(issued);
      AppendsOne(issued + 1);
      AppendsSplit(issued, issued + 1, issued + 2);
      assert Pending() + others(issued) == others(issued) == [] + others(issued);
      ghost var at := issued;
      var alive := Next();
      if !alive { return Saved, None; }
      Empty();
      emptied := Some(at);
      assert Pending() + others(issued) == others(issued);
      alive := Next();
      if !alive { return Truncated, emptied; }
      Reset();
      ending := Finished;
    }

    /** The size check after the save, and the emptying of a file that has grown too large. */
    method Truncate(committed: nat) returns (ending: Ending, ghost emptied: Option<nat>)
      requires Valid() && !stale && committed == saved
      modifies this`issued, this`life, this`file, this`saved, this`stale
      ensures Valid() && Ran(ending.Finished?, old(life), old(issued))
      ensures old(Pending()) + Appends(old(issued), issued) == Late(emptied) + Pending()
      ensures stale <==> ending.Truncated?
      ensures emptied.Some? ==>
        emptied.value == old(issued) + 1 && committed > maxBytes && old(Pending()) + others(old(issued)) == []
      ensures match ending
        case Saved => emptied == None && issued <= old(issued) + 2
        case Truncated => emptied.Some? && issued == old(issued) + 3
        case Finished => issued == old(issued) + if emptied.Some? then 3 else 1
        case _ => false
      ensures old(issued) < issued && (ending.Finished? && emptied.None? ==> |file| <= maxBytes || Pending() != [])
      ensures saved == if ending.Finished? && emptied.Some? then 0 else old(saved)
    {
      hide Appends;
      emptied := None;
      ghost var start, before := issued, Pending();
      AppendsOne(start);
      var alive, full := SizeCheck(committed);
      hide Pending;
      assert Late(None) + Pending() == Pending();
      if !alive { return Saved, None; }
      if !full { return Finished, None; }
      ending, emptied := EmptyFile();
      AppendsSplit(start, start + 1, issued);
      Reassociate(before, others(start), Appends(start + 1, issued));
      assert [] + Appends(start + 1, issued) == Appends(start + 1, issued);
    }

    /** r.set(offset_key, committed) */
    method SaveOffset(committed: nat, ghost consumed: Raw)
      requires Valid() && committed <= |file| && Aligned(consumed)
      modifies this`saved, this`stale, this`done
      ensures Valid() && saved == committed && !stale && done == old(done) + consumed
      ensures Pending() == file[committed..]
    {
      DoneGrows(done, consumed);
      done := done + consumed;
      saved, stale := committed, false;
    }

    /** Save the offset, then look at the size. */
    method Settle(offset: nat, committed: nat, ghost consumed: Raw)
      returns (ending: Ending, ghost skipped: Raw, ghost emptied: Option<nat>)
      requires Valid() && offset <= committed <= |file| && consumed == file[offset..committed] && Aligned(consumed)
      requires (offset == saved || offset == 0) && (!stale ==> offset == saved)
      modifies this`issued, this`life, this`file, this`saved, this`stale, this`done
      ensures Valid() && Ran(ending.Finished?, old(life), old(issued)) && done == old(done) + consumed
      ensures old(Pending()) + Appends(old(issued), issued) == skipped + consumed + Late(emptied) + Pending()
      ensures skipped == if old(stale) then old(file)[..offset] else []
      ensures stale <==> ending.Truncated?
      ensures emptied.Some? ==> emptied.value == old(issued) + 1 && committed > maxBytes
      ensures match ending
        case Saved => emptied == None && issued <= old(issued) + 2
        case Truncated => emptied.Some? && issued == old(issued) + 3
        case Finished => issued == old(issued) + if emptied.Some? then 3 else 1
        case _ => false
      ensures old(issued) < issued && (ending.Finished? && emptied.None? ==> |file| <= maxBytes || Pending() != [])
      ensures saved == if ending.Finished? && emptied.Some? then 0 else committed
    {
      hide Aligned, Appends;
      PendingSplits(file, saved, offset, committed, stale);
      skipped := if stale then file[..offset] else [];
      assert Pending() == skipped + consumed + file[committed..];
      ghost var whole := Pending();
      SaveOffset(committed, consumed);
      hide Pending;
      ghost var rest := Pending();
      ending, emptied := Truncate(committed);
      Regroup(whole, skipped + consumed, rest, Appends(old(issued), issued), Late(emptied), Pending());
    }

    /**
     One pass. An error or a stop before the new offset is saved changes nothing but what was published.
     Otherwise every pending byte is skipped because of a stale offset, consumed, lost in the step that
     emptied the file, or still pending, in this order. `emptied` is the number of that step.
     */
    method Poll() returns (ending: Ending, ghost skipped: Raw, ghost consumed: Raw, ghost emptied: Option<nat>)
      requires Valid()
      modifies this
      ensures Valid() && Aligned(consumed) && Harmless(lib, consumed) && published == old(published) + Rendered(lib, consumed)
      ensures Ran(ending.Finished? || ending.Poisoned?, old(life), old(issued))
      ensures Timing(ending, emptied, old(issued), issued, Newlines(consumed))
      ensures !Keeps(ending) ==>
        && done == old(done) && saved == old(saved) && stale == old(stale) && skipped == [] && emptied == None
        && Pending() == old(Pending()) + Appends(old(issued), issued)
      ensures ending.Unsaved? ==> Segment(consumed, Pending(), stale)
      ensures ending.Poisoned? ==> StuckIn(lib, consumed, Pending(), stale)
      ensures Keeps(ending) ==>
        && done == old(done) + consumed
        && old(Pending()) + Appends(old(issued), issued) == skipped + consumed + Late(emptied) + Pending()
      ensures consumed == [] || |skipped| + |consumed| <= |old(Pending()) + Appends(old(issued), old(issued) + Newlines(consumed) + 2)|
        || !Keeps(ending)
      ensures !old(stale) ==> skipped == []
      ensures Keeps(ending) && old(stale) ==>
        |skipped| == if old(saved) <= |old(file) + Appends(old(issued), old(issued) + 2)| then old(saved) else 0
      ensures emptied.Some? ==> (if old(stale) then |skipped| else old(saved)) + |consumed| > maxBytes
      ensures ending.Finished? && emptied.None? ==> |file| <= maxBytes || Pending() != []
      ensures stale <==> ending.Truncated? || (!Keeps(ending) && old(stale))
      ensures Keeps(ending) ==>
        saved == if ending.Finished? && emptied.Some? then 0 else (if old(stale) then |skipped| else old(saved)) + |consumed|
      ensures Keeps(ending) ==> QuietFrom(old(Pending()), |skipped| + |consumed|)
    {
      hide Rendered, Aligned, Segment, StuckIn, Pending, Appends, Newlines, QuietFrom, Harmless;
      skipped, emptied := [], None;
      ghost var start, before := issued, Pending();
      var how, offset, committed;
      how, offset, committed, consumed := Survey();
      if how != Reached { return if how == Cut then Unsaved else Poisoned, skipped, consumed, None; }
      ghost var scanned := issued;
      ending, skipped, emptied := Settle(offset, committed, consumed);
      AppendsSplit(start, scanned, issued);
      Reassociate(before, Appends(start, scanned), Appends(scanned, issued));
    }

    /** The inputs are calm: panes append only between polls, and each poll may take as many steps as it needs. */
    ghost predicate Calm(pending: Raw, budget: nat) {
      (forall n :: others(n) == []) && Harmless(lib, pending) && budget >= |pending| + 7
    }

    /** Panes append `batch`; then one poll, of which `budget` steps succeed. */
    method Turn(batch: Raw, budget: nat) returns (ghost r: Round)
      requires Valid()
      modifies this
      ensures Valid() && r.batch == batch && r.budget == budget && r.from == old(issued) && r.until == issued
      ensures r.arrived == batch + Appends(r.from, r.until) && Accounted(r)
      ensures r.waiting == old(Pending()) + batch && r.tangled == old(stale)
      ensures old(Pending()) + r.arrived == r.Gone() + Pending() && done == old(done) + r.Settled()
      ensures published == old(published) + Rendered(lib, r.consumed)
      ensures stale <==> r.ending.Truncated? || (!Keeps(r.ending) && old(stale))
      ensures !old(stale) && Calm(old(Pending()) + batch, budget) ==>
        && r.ending.Finished? && !stale && r.arrived == batch
        && r.Gone() == r.consumed && Aligned(r.consumed) && NEWLINE !in Pending()
    {
      hide Rendered, Aligned, Segment, StuckIn, Appends, Harmless, Accounted, Calm, QuietFrom, Late, Timing, Newlines;
      file, life := file + batch, budget;
      ghost var pending := Pending();
      hide Pending;
      ghost var from, tangled := issued, stale;
      var ending;
      ghost var skipped, consumed, emptied;
      ending, skipped, consumed, emptied := Poll();
      r := Round(
        batch, budget, from, issued, batch + Appends(from, issued), pending, tangled, ending, skipped, consumed, Late(emptied));
      Reassociate(old(Pending()), batch, Appends(from, issued));
      assert pending == old(Pending()) + batch;
      assert [] + Pending() == Pending() && done + [] == done;
      if ending.Poisoned? { StuckIsSegment(consumed, Pending(), tangled); }
      PollAccounts(r, emptied, Pending());
      if !tangled && Calm(pending, budget) { CalmTurn(r, pending, emptied, budget); }
    }

    lemma PollAccounts(r: Round, emptied: Option<nat>, rest: Raw)
      requires Aligned(r.consumed) && Timing(r.ending, emptied, r.from, r.until, Newlines(r.consumed))
      requires r.ending.Finished? || r.ending.Poisoned? || r.until == r.from + r.budget + 1
      requires r.late == Late(emptied) && (r.skipped != [] ==> r.tangled)
      requires Keeps(r.ending) ==> r.waiting + Appends(r.from, r.until) == r.Gone() + rest
      requires Keeps(r.ending) ==> QuietFrom(r.waiting, |r.skipped| + |r.consumed|)
      requires !Keeps(r.ending) ==> Segment(r.consumed, r.waiting + Appends(r.from, r.until), r.tangled)
      ensures Accounted(r)
    {
      hide Aligned, Segment, Appends, QuietFrom, Newlines, Round.Gone;
      if Keeps(r.ending) { assert r.Gone() <= r.Gone() + rest; }
    }

    /**
     What became of the bytes that were waiting or arrived, why the poll ended, and what it lost: bytes
     appended just before the step in which it emptied the file. Every line complete when it began is
     settled, unless the poll ended before its save.
     */
    ghost predicate Accounted(r: Round) {
      && Aligned(r.consumed) && r.until <= r.from + Newlines(r.consumed) + 7
      && (r.ending.Finished? || r.ending.Poisoned? || r.until == r.from + r.budget + 1)
      && (r.late == [] || (r.ending in {Truncated, Finished} && exists n :: r.from <= n < r.until && r.late == others(n)))
      && (r.skipped != [] ==> r.tangled)
      && (Keeps(r.ending) ==>
            r.Gone() <= r.waiting + Appends(r.from, r.until) && QuietFrom(r.waiting, |r.skipped| + |r.consumed|))
      && (!Keeps(r.ending) ==> Segment(r.consumed, r.waiting + Appends(r.from, r.until), r.tangled))
    }

    lemma StuckIsSegment(consumed: Raw, pending: Raw, tangled: bool)
      requires StuckIn(lib, consumed, pending, tangled)
      ensures Segment(consumed, pending, tangled)
    {
      hide Blocked;
    }

    lemma CalmTurn(r: Round, pending: Raw, emptied: Option<nat>, budget: nat)
      requires Valid() && Calm(pending, budget) && Aligned(r.consumed)
      requires r.until == issued && Ran(r.ending.Finished? || r.ending.Poisoned?, budget, r.from)
      requires Timing(r.ending, emptied, r.from, r.until, Newlines(r.consumed)) && r.late == Late(emptied)
      requires r.ending.Unsaved? ==> Segment(r.consumed, Pending(), false)
      requires r.ending.Poisoned? ==> StuckIn(lib, r.consumed, Pending(), false)
      requires !Keeps(r.ending) ==> Pending() == pending + Appends(r.from, r.until)
      requires Keeps(r.ending) ==> pending + Appends(r.from, r.until) == r.skipped + r.consumed + r.late + Pending()
      requires Keeps(r.ending) ==> QuietFrom(pending, |r.skipped| + |r.consumed|)
      requires r.skipped == [] && r.arrived == r.batch + Appends(r.from, r.until)
      ensures r.ending.Finished? && r.arrived == r.batch && r.Gone() == r.consumed && NEWLINE !in Pending()
    {
      hide Harmless, Aligned, Blocked;
      AppendsNothing(r.from, r.until);
      assert pending + [] == pending && r.batch + [] == r.batch && r.late == [];
      assert [] + r.consumed + [] == r.consumed;
      if r.ending.Poisoned? { StuckIsHarmful(lib, r.consumed, pending); }
      if Keeps(r.ending) {
        assert pending == r.consumed + Pending();
        QuietRest(pending, r.consumed, Pending());
      }
    }

    /**
     The switch's maintenance loop over any number of polls, with any appends between and during them
     and any of them cut short at any step. Every byte that was pending or arrived is accounted for, in
     order. Where no poll was cut before its save and nothing was lost or skipped, what is published is
     what was settled, once; and calm inputs are such a run that leaves no complete line behind.
     */
    method Tail(batches: seq<Raw>, budgets: seq<nat>) returns (ghost rounds: seq<Round>)
      requires Valid() && |batches| == |budgets|
      modifies this
      ensures Valid() && |rounds| == |budgets|
      ensures forall i :: 0 <= i < |rounds| ==>
        rounds[i].batch == batches[i] && rounds[i].budget == budgets[i] && Accounted(rounds[i])
      ensures forall i :: 0 <= i < |rounds| ==> rounds[i].arrived == batches[i] + Appends(rounds[i].from, rounds[i].until)
      ensures forall i :: 0 <= i < |rounds| && rounds[i].tangled ==> old(stale) || Emptied(rounds[..i])
      ensures forall i :: 0 <= i < |rounds| ==> Linked(old(Pending()), rounds, i)
      ensures old(Pending()) + Arrived(rounds) == Gone(rounds) + Pending() && done == old(done) + Settled(rounds)
      ensures published == old(published) + Shows(lib, rounds)
      ensures old(published) == Rendered(lib, old(done)) && Whole(rounds) ==>
        published == Rendered(lib, done) && done + Pending() == old(done) + old(Pending()) + Arrived(rounds)
      ensures !old(stale) && old(published) == Rendered(lib, old(done)) && AllCalm(old(Pending()), batches, budgets) ==>
        var all := old(done) + old(Pending()) + Concat(batches);
        && (forall i :: 0 <= i < |rounds| ==> rounds[i].ending.Finished?)
        && done + Pending() == all && published == Rendered(lib, done)
        && (batches != [] ==> published == Rendered(lib, all))
    {
      hide Rendered, Pending, Calm, Aligned, Newlines, Appends, Accounted, Balanced, Orderly, OnTrack, AllCalm;
      rounds := [];
      ghost var start, first, shown, tangled := Pending(), done, published, stale;
      ghost var calm := !stale && published == Rendered(lib, done) && AllCalm(start, batches, budgets);
      BalancedAtFirst(lib, start, first, shown);
      OrderlyAtFirst(batches, budgets, tangled, stale);
      if calm { OnTrackAtFirst(lib, first, start, batches, published); }
      for i := 0 to |budgets|
        invariant Valid() && |rounds| == i
        invariant Orderly(batches, budgets, rounds, tangled, stale)
        invariant Balanced(lib, start, first, shown, rounds, Pending(), done, published)
        invariant calm ==> !stale && OnTrack(lib, first + start + Concat(batches[..i]), rounds, first, Pending(), done, published)
      {
        ghost var before, settled, pending, was, snarled := rounds, done, Pending(), published, stale;
        if calm { CalmSoFar(first, start, settled, pending, was, before, batches, budgets, i); }
        ghost var r;
        r := Turn(batches[i], budgets[i]);
        rounds := rounds + [r];
        BalancedStep(lib, start, first, shown, before, pending, settled, was, r, Pending(), done, published);
        OrderlyStep(batches, budgets, before, tangled, snarled, r, stale);
        if calm { OnTrackStep(lib, first + start, batches, before, first, pending, settled, was, r, Pending(), done, published); }
      }
      BalancedMeans(lib, start, first, shown, rounds, Pending(), done, published);
      OrderlyMeans(batches, budgets, rounds, tangled, stale);
      if shown == Rendered(lib, first) && Whole(rounds) { WholeIsExact(start, first, shown, rounds, Pending()); }
      if calm { OnTrackMeans(lib, first + start, batches, rounds, first, Pending(), done, published); }
    }

    /**
     Each round begins with its own batch, says what was lost, and skips only after some poll was cut while
     it emptied the file.
     */
    ghost predicate Orderly(batches: seq<Raw>, budgets: seq<nat>, rounds: seq<Round>, tangled: bool, stale: bool) {
      && |rounds| <= |batches| == |budgets|
      && (forall i :: 0 <= i < |rounds| ==>
            && rounds[i].batch == batches[i] && rounds[i].budget == budgets[i] && Accounted(rounds[i])
            && rounds[i].arrived == batches[i] + Appends(rounds[i].from, rounds[i].until)
            && (rounds[i].tangled ==> tangled || Emptied(rounds[..i])))
      && (stale ==> tangled || Emptied(rounds))
    }

    lemma OrderlyAtFirst(batches: seq<Raw>, budgets: seq<nat>, tangled: bool, stale: bool)
      requires stale == tangled && |batches| == |budgets|
      ensures Orderly(batches, budgets, [], tangled, stale)
    {
    }

    lemma OrderlyStep(batches: seq<Raw>, budgets: seq<nat>, rounds: seq<Round>, tangled: bool, stale: bool, r: Round,
        staleNow: bool)
      requires Orderly(batches, budgets, rounds, tangled, stale) && |rounds| < |batches|
      requires r.batch == batches[|rounds|] && r.budget == budgets[|rounds|]
      requires Accounted(r) && r.arrived == r.batch + Appends(r.from, r.until)
      requires r.tangled == stale && (staleNow ==> r.ending.Truncated? || stale)
      ensures Orderly(batches, budgets, rounds + [r], tangled, staleNow)
    {
      hide Accounted, Appends, Emptied, Segment;
      var more := rounds + [r];
      EmptiedStays(rounds, r);
      forall i | 0 <= i < |more|
        ensures more[i].batch == batches[i] && more[i].budget == budgets[i] && Accounted(more[i])
        ensures more[i].arrived == batches[i] + Appends(more[i].from, more[i].until)
        ensures more[i].tangled ==> tangled || Emptied(more[..i])
      {
        if i < |rounds| { assert more[i] == rounds[i] && more[..i] == rounds[..i]; } else { assert more[..i] == rounds; }
      }
    }

    lemma OrderlyMeans(batches: seq<Raw>, budgets: seq<nat>, rounds: seq<Round>, tangled: bool, stale: bool)
      requires Orderly(batches, budgets, rounds, tangled, stale)
      ensures forall i :: 0 <= i < |rounds| ==>
        rounds[i].batch == batches[i] && rounds[i].budget == budgets[i] && Accounted(rounds[i])
      ensures forall i :: 0 <= i < |rounds| ==> rounds[i].arrived == batches[i] + Appends(rounds[i].from, rounds[i].until)
      ensures forall i :: 0 <= i < |rounds| && rounds[i].tangled ==> tangled || Emptied(rounds[..i])
    {
      hide Accounted, Appends, Emptied;
    }

    /** Panes append only between polls, nothing they append is a poison line, and no poll is cut short. */
    ghost predicate AllCalm(pending: Raw, batches: seq<Raw>, budgets: seq<nat>) {
      && (forall n :: others(n) == []) && Harmless(lib, pending + Concat(batches))
      && forall i :: 0 <= i < |budgets| ==> budgets[i] >= |pending + Concat(batches)| + 7
    }

    lemma {:induction false} SettledWhole(rounds: seq<Round>)
      requires Whole(rounds) && forall i :: 0 <= i < |rounds| ==> Accounted(rounds[i])
      ensures Gone(rounds) == Settled(rounds) && Aligned(Settled(rounds)) && Shows(lib, rounds) == Rendered(lib, Settled(rounds))
      decreases |rounds|
    {
      hide Rendered, Aligned, Newlines, Arrived, Gone, Settled, Shows;
      NoRounds(lib);
      if rounds != [] {
        var n := |rounds| - 1;
        var init, last := rounds[..n], rounds[n];
        assert forall i :: 0 <= i < n ==> init[i] == rounds[i];
        SettledWhole(init);
        assert rounds == init + [last] && last.Gone() == last.consumed by { assert [] + last.consumed + [] == last.consumed; }
        OneMoreRound(lib, init, last);
        DoneGrows(Settled(init), last.consumed);
        RenderedConcat(lib, Settled(init), last.consumed);
      }
    }

    lemma WholeIsExact(start: Raw, first: Raw, shown: seq<string>, rounds: seq<Round>, pending: Raw)
      requires Whole(rounds) && (forall i :: 0 <= i < |rounds| ==> Accounted(rounds[i])) && Aligned(first)
      requires start + Arrived(rounds) == Gone(rounds) + pending && shown == Rendered(lib, first)
      ensures shown + Shows(lib, rounds) == Rendered(lib, first + Settled(rounds))
      ensures first + Settled(rounds) + pending == first + start + Arrived(rounds)
    {
      hide Rendered, Aligned, Accounted, Arrived, Gone, Settled, Shows, Whole;
      SettledWhole(rounds);
      RenderedConcat(lib, first, Settled(rounds));
      Reassociate(first, Settled(rounds), pending);
      Reassociate(first, start, Arrived(rounds));
    }

    /** As long as everything was on track, the next poll finds calm inputs. */
    lemma CalmSoFar(first: Raw, start: Raw, settled: Raw, pending: Raw, published: seq<string>, rounds: seq<Round>,
                    batches: seq<Raw>, budgets: seq<nat>, i: nat)
      requires AllCalm(start, batches, budgets) && i < |batches| == |budgets|
      requires OnTrack(lib, first + start + Concat(batches[..i]), rounds, first, pending, settled, published)
      ensures Calm(pending + batches[i], budgets[i])
    {
      hide Harmless, Aligned, Rendered, Concat;
      var extra, rest := Settled(rounds), Concat(batches[i + 1..]);
      ConcatSplit(batches, i);
      ConcatHead(batches[i..]);
      assert batches[i..][1..] == batches[i + 1..] && batches[i..][0] == batches[i];
      var soFar := Concat(batches[..i]);
      Reassociate(first, start, soFar);
      Reassociate(first, extra, pending);
      Cancel(first, start + soFar, extra + pending);
      Reassociate(start, soFar, batches[i] + rest);
      Reassociate(extra, pending, batches[i] + rest);
      Reassociate(pending, batches[i], rest);
      HarmlessAfter(lib, extra, pending + batches[i] + rest);
      HarmlessPrefix(lib, pending + batches[i], rest);
    }
  }

  lemma Reassociate(a: Raw, b: Raw, c: Raw)
    ensures a + (b + c) == a + b + c
  {
  }

  lemma NothingConsumed(lib: Library)
    ensures Aligned([]) && Rendered(lib, []) == [] && Newlines([]) == 0
  {
    NothingRendered(lib);
  }

  lemma SliceStays(b: Raw, more: Raw, from: nat, to: nat)
    requires from <= to <= |b|
    ensures (b + more)[from..to] == b[from..to]
  {
  }

  lemma SliceGrows(b: Raw, from: nat, mid: nat, to: nat)
    requires from <= mid <= to <= |b|
    ensures b[from..to] == b[from..mid] + b[mid..to]
  {
  }

  lemma AlignedLine(a: Raw, line: Raw)
    requires Complete(line)
    ensures Aligned(a + line)
  {
  }

  /** One more complete line read. */
  lemma LineRead(lib: Library, file: Raw, offset: nat, committed: nat, read: Raw, line: Raw)
    requires offset <= committed <= committed + |line| <= |file|
    requires read == file[offset..committed] && line == file[committed..committed + |line|]
    requires Complete(line) && NEWLINE !in line[..|line| - 1] && !Poison(lib, line) && Aligned(read) && Harmless(lib, read)
    ensures read + line == file[offset..committed + |line|] && Aligned(read + line) && Harmless(lib, read + line)
    ensures Rendered(lib, read + line) == Rendered(lib, read) + Shown(lib, line) && Newlines(read + line) == Newlines(read) + 1
  {
    hide Rendered, Shown, Complete, Aligned, Poison, Newlines, Harmless;
    SliceGrows(file, offset, committed, committed + |line|);
    RenderedLine(lib, read, line);
    HarmlessLine(lib, read, line);
    NewlinesLine(read, line);
    AlignedLine(read, line);
  }

  lemma LineIsLine(b: Raw)
    ensures Complete(ReadLine(b)) ==> NEWLINE !in ReadLine(b)[..|ReadLine(b)| - 1]
    ensures !Complete(ReadLine(b)) ==> NEWLINE !in b
    ensures ReadLine(b) <= b
  {
    var n := LineEnd(b);
    if n > 0 { assert b[..n][..n - 1] == b[..n - 1]; }
  }

  lemma Regroup(whole: Raw, settled: Raw, rest: Raw, more: Raw, late: Raw, pending: Raw)
    requires whole == settled + rest && rest + more == late + pending
    ensures whole + more == settled + late + pending
  {
    assert settled + rest + more == settled + (rest + more);
    assert settled + (late + pending) == settled + late + pending;
  }

  lemma NoneAfter(b: Raw, from: nat)
    requires from <= |b| && NEWLINE !in b[from..]
    ensures forall k :: from <= k < |b| ==> b[k] != NEWLINE
  {
    assert forall k :: from <= k < |b| ==> b[from..][k - from] == b[k];
  }

  /** No line ends at or after position `from`. */
  predicate QuietFrom(b: Raw, from: nat) { forall k :: from <= k < |b| ==> b[k] != NEWLINE }

  /** With no line end left in the file after what was read, none is left in what was pending. */
  lemma PendingQuiet(before: Raw, file: Raw, saved: nat, committed: nat, stale: bool)
    requires before <= file && (!stale ==> saved <= |before| && saved <= committed)
    requires forall k :: committed <= k < |before| ==> file[k] != NEWLINE
    ensures QuietFrom(if stale then before else before[saved..], if stale then committed else committed - saved)
  {
    var pending := if stale then before else before[saved..];
    forall k | (if stale then committed else committed - saved) <= k < |pending| ensures pending[k] != NEWLINE {
      assert pending[k] == file[if stale then k else saved + k];
    }
  }

  ghost predicate At(pending: Raw, k: nat, consumed: Raw) {
    k + |consumed| <= |pending| && consumed == pending[k..k + |consumed|]
  }

  /** What an unsaved poll consumed lies within what was pending; at its start unless the offset was stale. */
  ghost predicate Segment(consumed: Raw, pending: Raw, stale: bool) {
    exists k: nat :: At(pending, k, consumed) && (k > 0 ==> stale)
  }

  /** ... and the line that follows it is a poison one. */
  ghost predicate StuckIn(lib: Library, consumed: Raw, pending: Raw, stale: bool) {
    exists k: nat :: At(pending, k, consumed) && (k > 0 ==> stale) && Blocked(lib, pending[k + |consumed|..])
  }

  lemma ConsumedIsSegment(file: Raw, saved: nat, offset: nat, committed: nat, stale: bool)
    requires offset <= committed <= |file| && (!stale ==> offset == saved)
    ensures Segment(file[offset..committed], if stale then file else file[saved..], stale)
  {
    assert At(if stale then file else file[saved..], if stale then offset else 0, file[offset..committed]);
  }

  lemma StuckBehind(lib: Library, file: Raw, saved: nat, offset: nat, committed: nat, stale: bool)
    requires offset <= committed <= |file| && (!stale ==> offset == saved) && Blocked(lib, file[committed..])
    ensures StuckIn(lib, file[offset..committed], if stale then file else file[saved..], stale)
  {
    hide Blocked;
    var pending, k := if stale then file else file[saved..], if stale then offset else 0;
    assert At(pending, k, file[offset..committed]);
    assert pending[k + (committed - offset)..] == file[committed..];
  }

  lemma PendingSplits(file: Raw, saved: nat, offset: nat, committed: nat, stale: bool)
    requires offset <= committed <= |file| && (!stale ==> offset == saved)
    ensures (if stale then file else file[saved..])
      == (if stale then file[..offset] else []) + file[offset..committed] + file[committed..]
  {
  }

  lemma DoneGrows(done: Raw, consumed: Raw)
    requires Aligned(done) && Aligned(consumed)
    ensures Aligned(done + consumed)
  {
    if consumed == [] { assert done + consumed == done; }
  }

  /** One poll, the appends before and during it, and what became of the bytes. */
  datatype Round = Round(
    batch: Raw, budget: nat, from: nat, until: nat, arrived: Raw,
    waiting: Raw,  // what was pending when the poll began
    tangled: bool, // the saved offset was stale then
    ending: Ending, skipped: Raw, consumed: Raw, late: Raw)
  {
    /** The bytes the poll took off what was pending. */
    function Gone(): Raw { if Keeps(ending) then skipped + consumed + late else [] }

    function Settled(): Raw { if Keeps(ending) then consumed else [] }
  }

  ghost function Arrived(rounds: seq<Round>): Raw {
    if rounds == [] then [] else Arrived(rounds[..|rounds| - 1]) + rounds[|rounds| - 1].arrived
  }

  ghost function Gone(rounds: seq<Round>): Raw {
    if rounds == [] then [] else Gone(rounds[..|rounds| - 1]) + rounds[|rounds| - 1].Gone()
  }

  ghost function Settled(rounds: seq<Round>): Raw {
    if rounds == [] then [] else Settled(rounds[..|rounds| - 1]) + rounds[|rounds| - 1].Settled()
  }

  ghost function Shows(lib: Library, rounds: seq<Round>): seq<string> {
    if rounds == [] then [] else Shows(lib, rounds[..|rounds| - 1]) + Rendered(lib, rounds[|rounds| - 1].consumed)
  }

  ghost function Concat(batches: seq<Raw>): Raw {
    if batches == [] then [] else Concat(batches[..|batches| - 1]) + batches[|batches| - 1]
  }

  /** Some poll was cut between emptying the file and resetting the offset. */
  ghost predicate Emptied(rounds: seq<Round>) { exists j :: 0 <= j < |rounds| && rounds[j].ending.Truncated? }

  lemma NoRounds(lib: Library)
    ensures Gone([]) == [] && Settled([]) == [] && Shows(lib, []) == [] && Aligned([]) && Rendered(lib, []) == []
  {
    NothingRendered(lib);
  }

  /** Every poll saved its offset and lost and skipped nothing. */
  ghost predicate Whole(rounds: seq<Round>) {
    forall i :: 0 <= i < |rounds| ==> rounds[i].ending in {Saved, Finished} && rounds[i].skipped == [] && rounds[i].late == []
  }

  lemma OneMoreRound(lib: Library, rounds: seq<Round>, r: Round)
    ensures Arrived(rounds + [r]) == Arrived(rounds) + r.arrived && Gone(rounds + [r]) == Gone(rounds) + r.Gone()
    ensures Settled(rounds + [r]) == Settled(rounds) + r.Settled()
    ensures Shows(lib, rounds + [r]) == Shows(lib, rounds) + Rendered(lib, r.consumed)
  {
    hide Rendered, Round.Gone, Round.Settled;
    var more := rounds + [r];
    assert more[..|more| - 1] == rounds;
  }

  lemma ConcatMore(batches: seq<Raw>, batch: Raw)
    ensures Concat(batches + [batch]) == Concat(batches) + batch
  {
    assert (batches + [batch])[..|batches|] == batches;
  }

  lemma {:induction false} ConcatSplit(batches: seq<Raw>, i: nat)
    requires i <= |batches|
    ensures Concat(batches) == Concat(batches[..i]) + Concat(batches[i..])
    decreases |batches| - i
  {
    if i == |batches| {
      assert batches[..i] == batches;
    } else {
      hide Concat;
      ConcatSplit(batches, i + 1);
      ConcatMore(batches[..i], batches[i]);
      assert batches[..i + 1] == batches[..i] + [batches[i]];
      ConcatHead(batches[i..]);
      assert batches[i..][1..] == batches[i + 1..];
      Reassociate(Concat(batches[..i]), batches[i], Concat(batches[i + 1..]));
    }
  }

  lemma {:induction false} ConcatHead(batches: seq<Raw>)
    requires batches != []
    ensures Concat(batches) == batches[0] + Concat(batches[1..])
    decreases |batches|
  {
    var n := |batches| - 1;
    if n > 0 {
      ConcatHead(batches[..n]);
      assert batches[..n][1..] == batches[1..][..n - 1];
    }
  }

  lemma TurnAccounts(start: Raw, arrived: Raw, gone: Raw, pending: Raw, more: Raw, taken: Raw, rest: Raw)
    requires start + arrived == gone + pending && pending + more == taken + rest
    ensures start + (arrived + more) == gone + taken + rest
  {
    assert start + (arrived + more) == start + arrived + more;
    assert gone + pending + more == gone + (pending + more);
    assert gone + (taken + rest) == gone + taken + rest;
  }

  lemma CalmAccounts(start: Raw, batches: Raw, settled: Raw, pending: Raw, batch: Raw, consumed: Raw, rest: Raw)
    requires settled + pending == start + batches && pending + batch == consumed + rest
    ensures settled + consumed + rest == start + (batches + batch)
  {
    assert settled + consumed + rest == settled + (consumed + rest) == settled + (pending + batch) == settled + pending + batch;
    assert start + batches + batch == start + (batches + batch);
  }

  /** Harmless bytes stop no poll that read from their start. */
  lemma StuckIsHarmful(lib: Library, consumed: Raw, pending: Raw)
    requires Aligned(consumed) && StuckIn(lib, consumed, pending, false)
    ensures !Harmless(lib, pending)
  {
    hide Blocked, Harmless, Aligned;
    var rest := pending[|consumed|..];
    assert pending == consumed + rest && rest + [] == rest;
    BlockedStays(lib, rest, []);
    if Harmless(lib, pending) { HarmlessAfter(lib, consumed, rest); }
  }

  lemma QuietRest(pending: Raw, consumed: Raw, rest: Raw)
    requires pending == consumed + rest && QuietFrom(pending, |consumed|)
    ensures NEWLINE !in rest
  {
    assert forall k :: 0 <= k < |rest| ==> rest[k] == pending[|consumed| + k];
  }

  lemma Cancel(a: Raw, b: Raw, c: Raw)
    requires a + b == a + c
    ensures b == c
  {
    assert b == (a + b)[|a|..] && c == (a + c)[|a|..];
  }

  // ---- the books of a run ----

  /** Every byte is accounted for, in order, and what was published is what the rounds show. */
  ghost predicate Balanced(lib: Library, start: Raw, first: Raw, shown: seq<string>, rounds: seq<Round>,
                           pending: Raw, done: Raw, published: seq<string>)
  {
    && start + Arrived(rounds) == Gone(rounds) + pending && done == first + Settled(rounds)
    && published == shown + Shows(lib, rounds) && forall i :: 0 <= i < |rounds| ==> Linked(start, rounds, i)
  }

  /** What a round finds waiting is its batch after what the rounds before it left. */
  ghost predicate Linked(start: Raw, rounds: seq<Round>, i: nat)
    requires i < |rounds|
  {
    start + Arrived(rounds[..i]) + rounds[i].batch == Gone(rounds[..i]) + rounds[i].waiting
  }

  lemma BalancedAtFirst(lib: Library, start: Raw, first: Raw, shown: seq<string>)
    ensures Balanced(lib, start, first, shown, [], start, first, shown)
  {
    assert start + [] == [] + start && first + [] == first && shown + [] == shown;
  }

  lemma BalancedMeans(lib: Library, start: Raw, first: Raw, shown: seq<string>, rounds: seq<Round>,
                      pending: Raw, done: Raw, published: seq<string>)
    requires Balanced(lib, start, first, shown, rounds, pending, done, published)
    ensures start + Arrived(rounds) == Gone(rounds) + pending && done == first + Settled(rounds)
    ensures published == shown + Shows(lib, rounds)
    ensures forall i :: 0 <= i < |rounds| ==> Linked(start, rounds, i)
  {
    hide Arrived, Gone, Settled, Shows;
  }

  lemma BalancedStep(lib: Library, start: Raw, first: Raw, shown: seq<string>, rounds: seq<Round>,
                     pending: Raw, done: Raw, published: seq<string>,
                     r: Round, pendingNow: Raw, doneNow: Raw, publishedNow: seq<string>)
    requires Balanced(lib, start, first, shown, rounds, pending, done, published)
    requires pending + r.arrived == r.Gone() + pendingNow && doneNow == done + r.Settled() && r.waiting == pending + r.batch
    requires publishedNow == published + Rendered(lib, r.consumed)
    ensures Balanced(lib, start, first, shown, rounds + [r], pendingNow, doneNow, publishedNow)
  {
    hide Arrived, Gone, Settled, Shows, Rendered, Round.Gone, Round.Settled;
    OneMoreRound(lib, rounds, r);
    LinkedStep(start, rounds, r, pending);
    TurnAccounts(start, Arrived(rounds), Gone(rounds), pending, r.arrived, r.Gone(), pendingNow);
    assert first + Settled(rounds) + r.Settled() == first + (Settled(rounds) + r.Settled());
    assert shown + Shows(lib, rounds) + Rendered(lib, r.consumed) == shown + (Shows(lib, rounds) + Rendered(lib, r.consumed));
  }

  lemma LinkedStep(start: Raw, rounds: seq<Round>, r: Round, pending: Raw)
    requires forall i :: 0 <= i < |rounds| ==> Linked(start, rounds, i)
    requires start + Arrived(rounds) == Gone(rounds) + pending && r.waiting == pending + r.batch
    ensures forall i :: 0 <= i < |rounds + [r]| ==> Linked(start, rounds + [r], i)
  {
    hide Arrived, Gone;
    var more := rounds + [r];
    forall i | 0 <= i < |more| ensures Linked(start, more, i) {
      if i < |rounds| {
        assert Linked(start, rounds, i) && more[..i] == rounds[..i] && more[i] == rounds[i];
      } else {
        assert more[..i] == rounds;
        Reassociate(Gone(rounds), pending, r.batch);
      }
    }
  }

  /** Nothing was lost or published twice, and nothing complete is left over. */
  ghost predicate OnTrack(lib: Library, all: Raw, rounds: seq<Round>, first: Raw, pending: Raw, done: Raw,
      published: seq<string>) {
    && published == Rendered(lib, done) && done + pending == all
    && done == first + Settled(rounds) && Aligned(Settled(rounds)) && Aligned(done)
    && (forall i :: 0 <= i < |rounds| ==> rounds[i].ending.Finished?)
    && (rounds != [] ==> NEWLINE !in pending)
  }

  lemma OnTrackAtFirst(lib: Library, first: Raw, start: Raw, batches: seq<Raw>, published: seq<string>)
    requires published == Rendered(lib, first) && Aligned(first)
    ensures OnTrack(lib, first + start + Concat(batches[..0]), [], first, start, first, published)
  {
    hide Rendered;
    assert batches[..0] == [] && first + start + [] == first + start && first + [] == first;
  }

  lemma OnTrackStep(lib: Library, base: Raw, batches: seq<Raw>, rounds: seq<Round>,
                    first: Raw, pending: Raw, done: Raw, published: seq<string>,
                    r: Round, pendingNow: Raw, doneNow: Raw, publishedNow: seq<string>)
    requires |rounds| < |batches| && OnTrack(lib, base + Concat(batches[..|rounds|]), rounds, first, pending, done, published)
    requires r.ending.Finished? && r.arrived == batches[|rounds|] && r.Gone() == r.consumed && Aligned(r.consumed)
    requires NEWLINE !in pendingNow && pending + r.arrived == r.Gone() + pendingNow && doneNow == done + r.Settled()
    requires publishedNow == published + Rendered(lib, r.consumed)
    ensures OnTrack(lib, base + Concat(batches[..|rounds| + 1]), rounds + [r], first, pendingNow, doneNow, publishedNow)
  {
    hide Rendered, Aligned, Arrived, Gone, Settled, Shows, Concat, Round.Gone, Round.Settled;
    var i := |rounds|;
    RoundSettles(r);
    CalmMore(base, batches, i, done, pending, r.consumed, pendingNow);
    RenderedConcat(lib, done, r.consumed);
    OneMoreRound(lib, rounds, r);
    DoneGrows(done, r.consumed);
    DoneGrows(Settled(rounds), r.consumed);
    Reassociate(first, Settled(rounds), r.consumed);
  }

  lemma RoundSettles(r: Round)
    requires Keeps(r.ending)
    ensures r.Settled() == r.consumed
  {
  }

  lemma CalmMore(base: Raw, batches: seq<Raw>, i: nat, settled: Raw, pending: Raw, consumed: Raw, rest: Raw)
    requires i < |batches| && settled + pending == base + Concat(batches[..i]) && pending + batches[i] == consumed + rest
    ensures settled + consumed + rest == base + Concat(batches[..i + 1])
  {
    hide Concat;
    assert batches[..i + 1] == batches[..i] + [batches[i]];
    ConcatMore(batches[..i], batches[i]);
    CalmAccounts(base, Concat(batches[..i]), settled, pending, batches[i], consumed, rest);
  }

  lemma OnTrackMeans(lib: Library, base: Raw, batches: seq<Raw>, rounds: seq<Round>, first: Raw, pending: Raw,
      done: Raw, published: seq<string>)
    requires |rounds| == |batches| && OnTrack(lib, base + Concat(batches[..|rounds|]), rounds, first, pending, done, published)
    ensures forall i :: 0 <= i < |rounds| ==> rounds[i].ending.Finished?
    ensures done + pending == base + Concat(batches) && published == Rendered(lib, done)
    ensures batches != [] ==> published == Rendered(lib, base + Concat(batches))
  {
    hide Rendered, Aligned, Settled, Concat;
    assert batches[..|batches|] == batches;
    if batches != [] {
      RenderedConcat(lib, done, pending);
      NothingUnfinished(lib, pending);
      assert Rendered(lib, done) + [] == Rendered(lib, done);
    }
  }

  lemma EmptiedStays(rounds: seq<Round>, r: Round)
    ensures Emptied(rounds) || r.ending.Truncated? ==> Emptied(rounds + [r])
  {
    var more := rounds + [r];
    if Emptied(rounds) {
      var j :| 0 <= j < |rounds| && rounds[j].ending.Truncated?;
      assert more[j].ending.Truncated?;
    }
    if r.ending.Truncated? { assert more[|rounds|].ending.Truncated?; }
  }
}
