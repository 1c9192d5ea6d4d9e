/**
 The window-log tailer (h-app/core/windowlog.py) over a byte stream that panes append to between any
 two of its steps, and that may stop, or have a step fail, at any point.
 */
module WindowLog {
  import opened Prelude
  import Utf8

  const NEWLINE: Byte := 10

  /** One past the first newline, or the end of the bytes. */
  function LineEnd(b: Raw): (n: nat)
    ensures n <= |b|
    ensures n > 0 && b[n - 1] == NEWLINE ==> NEWLINE !in b[..n - 1]
    ensures n == 0 || b[n - 1] != NEWLINE ==> n == |b| && NEWLINE !in b
  {
    if b == [] then 0
    else if b[0] == NEWLINE then 1
    else
      var n := LineEnd(b[1..]) + 1;
      assert b[1..][..n - 1] == b[1..n] && b == [b[0]] + b[1..];
      assert n >= 2 ==> b[1..][n - 2] == b[n - 1];
      assert n >= 2 ==> b[..n - 1] == [b[0]] + b[1..][..n - 2];
      n
  }

  /** source.readline() */
  function ReadLine(b: Raw): Raw { b[..LineEnd(b)] }

  predicate Complete(line: Raw) { line != [] && line[|line| - 1] == NEWLINE }

  /** Python's str() of a JSON value, and the JSON library, for the tailer's own rendering. */
  datatype Library = Library(loads: string -> Loads, dumps: JVal -> string, show: JVal -> string)

  /** The first of source, agent and destination that is truthy. */
  function Writer(lib: Library, record: map<string, JVal>): string {
    if Truthy(Lookup(record, "source")) then lib.show(record["source"])
    else if Truthy(Lookup(record, "agent")) then lib.show(record["agent"])
    else if Truthy(Lookup(record, "destination")) then lib.show(record["destination"])
    else "unknown"
  }

  const WRITERS := ["source", "agent", "destination"]

  /** The writer is what the first of these fields that says anything says. */
  lemma WriterIsFirst(lib: Library, record: map<string, JVal>, n: nat)
    requires n <= |WRITERS| && forall i :: 0 <= i < n ==> !Truthy(Lookup(record, WRITERS[i]))
    ensures n < |WRITERS| && Truthy(Lookup(record, WRITERS[n])) ==> Writer(lib, record) == lib.show(Lookup(record, WRITERS[n]))
    ensures n == |WRITERS| ==> Writer(lib, record) == "unknown"
  {
    assert n > 0 ==> !Truthy(Lookup(record, WRITERS[0]));
    assert n > 1 ==> !Truthy(Lookup(record, WRITERS[1]));
    assert n > 2 ==> !Truthy(Lookup(record, WRITERS[2]));
  }

  /** Invalid UTF-8, invalid JSON and JSON that is no object are skipped; a missing writer is filled in. */
  function Render(lib: Library, line: Raw): Option<string>
    requires Complete(line)
  {
    var text := Utf8.Decode(line[..|line| - 1]);
    if text.None? then None
    else
      var record := lib.loads(text.value);
      if !record.Loaded? || !record.value.JObj? then None
      else if "writer" in record.value.members then Some(text.value)
      else Some(lib.dumps(JObj(record.value.members["writer" := JStr("window:" + Writer(lib, record.value.members))])))
  }

  /** A line nested so deep that the JSON library raises RecursionError, which no handler of the tailer catches. */
  predicate Poison(lib: Library, line: Raw)
    requires Complete(line)
  {
    var text := Utf8.Decode(line[..|line| - 1]);
    text.Some? && lib.loads(text.value).TooDeep?
  }

  /** The next line of these bytes is such a line. */
  predicate Blocked(lib: Library, b: Raw) { Complete(ReadLine(b)) && Poison(lib, ReadLine(b)) }

  /** No complete line of these bytes is. */
  predicate Harmless(lib: Library, b: Raw)
    decreases |b|
  {
    Complete(ReadLine(b)) ==> !Poison(lib, ReadLine(b)) && Harmless(lib, b[|ReadLine(b)|..])
  }

  function Shown(lib: Library, line: Raw): seq<string>
    requires Complete(line)
  {
    var out := Render(lib, line);
    if out.None? then [] else [out.value]
  }

  /** Everything the complete lines of some bytes publish, each line once, in order; a partial tail nothing. */
  function Rendered(lib: Library, b: Raw): seq<string>
    decreases |b|
  {
    var line := ReadLine(b);
    if !Complete(line) then [] else Shown(lib, line) + Rendered(lib, b[|line|..])
  }

  /** The bytes end where a line does. */
  predicate Aligned(b: Raw) { b == [] || b[|b| - 1] == NEWLINE }

  lemma {:induction false} RenderedConcat(lib: Library, a: Raw, b: Raw)
    requires Aligned(a)
    ensures Rendered(lib, a + b) == Rendered(lib, a) + Rendered(lib, b)
    decreases |a|
  {
    hide Shown, LineEnd, Rendered;
    if a == [] {
      assert a + b == b;
      assert Rendered(lib, a) == [] by { NothingRendered(lib); }
    } else {
      var n := LineEnd(a);
      LineOfConcat(a, b);
      assert a[n..] == [] || a[n..][|a[n..]| - 1] == a[|a| - 1];
      RenderedConcat(lib, a[n..], b);
      assert (a + b)[n..] == a[n..] + b;
      RenderedHead(lib, a);
      RenderedHead(lib, a + b);
      assert Shown(lib, ReadLine(a)) + (Rendered(lib, a[n..]) + Rendered(lib, b))
          == Shown(lib, ReadLine(a)) + Rendered(lib, a[n..]) + Rendered(lib, b);
    }
  }

  lemma NothingRendered(lib: Library)
    ensures Rendered(lib, []) == []
  {
  }

  lemma RenderedHead(lib: Library, b: Raw)
    requires Complete(ReadLine(b))
    ensures Rendered(lib, b) == Shown(lib, ReadLine(b)) + Rendered(lib, b[LineEnd(b)..])
  {
    hide Shown, LineEnd;
  }

  lemma LineOfConcat(a: Raw, b: Raw)
    requires a != [] && Aligned(a)
    ensures LineEnd(a + b) == LineEnd(a) && ReadLine(a + b) == ReadLine(a) && Complete(ReadLine(a))
    decreases |a|
  {
    if a[0] != NEWLINE {
      assert (a + b)[1..] == a[1..] + b;
      LineOfConcat(a[1..], b);
    }
    assert (a + b)[..LineEnd(a)] == a[..LineEnd(a)];
  }

  /** One more complete line. */
  lemma RenderedLine(lib: Library, a: Raw, line: Raw)
    requires Aligned(a) && Complete(line) && NEWLINE !in line[..|line| - 1]
    ensures Rendered(lib, a + line) == Rendered(lib, a) + Shown(lib, line)
  {
    hide Render, Rendered, Shown;
    RenderedConcat(lib, a, line);
    OneLine(line);
    hide LineEnd;
    assert line[|line|..] == [] && ReadLine(line) == line;
    RenderedHead(lib, line);
    NothingRendered(lib);
    assert Shown(lib, line) + [] == Shown(lib, line);
  }

  lemma {:induction false} OneLine(line: Raw)
    requires Complete(line) && NEWLINE !in line[..|line| - 1]
    ensures LineEnd(line) == |line|
    decreases |line|
  {
    if |line| > 1 {
      assert line[..|line| - 1][0] == line[0];
      assert line[0] in line[..|line| - 1];
      assert line[1..][..|line| - 2] == line[..|line| - 1][1..];
      OneLine(line[1..]);
    }
  }

  lemma {:induction false} HarmlessAfter(lib: Library, a: Raw, b: Raw)
    requires Aligned(a) && Harmless(lib, a + b)
    ensures Harmless(lib, b)
    decreases |a|
  {
    hide LineEnd, Poison;
    if a == [] {
      assert a + b == b;
    } else {
      var n := LineEnd(a);
      LineOfConcat(a, b);
      assert a[n..] == [] || a[n..][|a[n..]| - 1] == a[|a| - 1];
      assert (a + b)[n..] == a[n..] + b;
      HarmlessAfter(lib, a[n..], b);
    }
  }

  /** One more line that is no poison. */
  lemma {:induction false} HarmlessLine(lib: Library, a: Raw, line: Raw)
    requires Aligned(a) && Harmless(lib, a) && Complete(line) && NEWLINE !in line[..|line| - 1] && !Poison(lib, line)
    ensures Harmless(lib, a + line)
    decreases |a|
  {
    hide Poison;
    OneLine(line);
    hide LineEnd;
    if a == [] {
      assert a + line == line && line[|line|..] == [] && ReadLine(line) == line;
      NothingHarms(lib);
    } else {
      var n := LineEnd(a);
      LineOfConcat(a, line);
      assert a[n..] == [] || a[n..][|a[n..]| - 1] == a[|a| - 1];
      assert (a + line)[n..] == a[n..] + line;
      HarmlessLine(lib, a[n..], line);
    }
  }

  lemma NothingHarms(lib: Library)
    ensures Harmless(lib, [])
  {
  }

  lemma {:induction false} HarmlessPrefix(lib: Library, a: Raw, b: Raw)
    requires Harmless(lib, a + b)
    ensures Harmless(lib, a)
    decreases |a|
  {
    hide LineEnd, Poison;
    if Complete(ReadLine(a)) {
      var n := LineEnd(a);
      FirstLineStays(a, b);
      assert (a + b)[n..] == a[n..] + b;
      HarmlessPrefix(lib, a[n..], b);
    }
  }

  /** More bytes behind it do not change a complete line. */
  lemma BlockedStays(lib: Library, b: Raw, more: Raw)
    requires Blocked(lib, b)
    ensures Blocked(lib, b + more) && !Harmless(lib, b + more)
  {
    hide Poison;
    FirstLineStays(b, more);
  }

  lemma {:induction false} FirstLineStays(b: Raw, more: Raw)
    requires Complete(ReadLine(b))
    ensures ReadLine(b + more) == ReadLine(b)
    decreases |b|
  {
    if b[0] != NEWLINE {
      assert (b + more)[1..] == b[1..] + more;
      assert ReadLine(b)[|ReadLine(b)| - 1] == b[LineEnd(b) - 1];
      FirstLineStays(b[1..], more);
    }
    assert (b + more)[..LineEnd(b)] == b[..LineEnd(b)];
  }

  // ---- counting lines ----

  function Newlines(b: Raw): (n: nat)
    ensures n <= |b|
    decreases |b|
  {
    if b == [] then 0 else Newlines(b[..|b| - 1]) + if b[|b| - 1] == NEWLINE then 1 else 0
  }

  lemma {:induction false} NewlinesConcat(a: Raw, b: Raw)
    ensures Newlines(a + b) == Newlines(a) + Newlines(b)
    decreases |b|
  {
    if b == [] {
      assert a + b == a;
    } else {
      NewlinesConcat(a, b[..|b| - 1]);
      assert (a + b)[..|a + b| - 1] == a + b[..|b| - 1];
    }
  }

  lemma {:induction false} NoNewlines(b: Raw)
    requires NEWLINE !in b
    ensures Newlines(b) == 0
    decreases |b|
  {
    if b != [] { NoNewlines(b[..|b| - 1]); }
  }

  /** One more complete line is one more newline. */
  lemma NewlinesLine(a: Raw, line: Raw)
    requires Complete(line) && NEWLINE !in line[..|line| - 1]
    ensures Newlines(a + line) == Newlines(a) + 1
  {
    NewlinesConcat(a, line);
    NoNewlines(line[..|line| - 1]);
  }

  lemma NothingUnfinished(lib: Library, b: Raw)
    requires NEWLINE !in b
    ensures Rendered(lib, b) == []
  {
    var n := LineEnd(b);
    assert n > 0 ==> b[..n][n - 1] == b[n - 1] && b[n - 1] in b;
  }
}
