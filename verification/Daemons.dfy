/**
 Stopping a daemon without ever signalling another process (h-app/services/daemons.py): a pidfd is
 opened first, evidence is read from /proc and from the identity file, and processes exit and PIDs
 are reused between any two of these steps.
 */
module Daemons {
  import opened Prelude
  import opened Keys

  type Pid = nat

  /** One use of a PID: the start time tells it from every other use of the same PID. */
  datatype Life = Life(pid: Pid, start: string)

  /** A process-table entry; a zombie still has one. */
  datatype Proc = Proc(start: string, alive: bool, moduleName: string, pod: string, tenant: string)

  datatype PidFile = NoPidFile | CorruptPidFile | PidIn(pid: Pid)

  /** The identity file: absent, unreadable or not JSON, or its JSON value. */
  datatype IdentityFile = NoIdentity | BadIdentity | IdentityIn(value: JVal)

  datatype Os = Os(table: map<Pid, Proc>, used: set<Life>, pidFile: PidFile, identity: IdentityFile)

  /** What other processes do. */
  datatype Event =
    | Exit(pid: Pid)
    | Reap(pid: Pid)
    | Spawn(pid: Pid, proc: Proc)
    | WritePid(pidFile: PidFile)
    | WriteIdentity(identity: IdentityFile)

  function Step(os: Os, e: Event): Os {
    match e
    case Exit(pid) => if pid in os.table then os.(table := os.table[pid := os.table[pid].(alive := false)]) else os
    case Reap(pid) => if pid in os.table && !os.table[pid].alive then os.(table := os.table - {pid}) else os
    case Spawn(pid, proc) =>
      // A PID is free again once reaped, and no two of its uses start at the same time.
      if pid in os.table || Life(pid, proc.start) in os.used || !proc.alive then os
      else os.(table := os.table[pid := proc], used := os.used + {Life(pid, proc.start)})
    case WritePid(content) => os.(pidFile := content)
    case WriteIdentity(content) => os.(identity := content)
  }

  function RunFrom(os: Os, events: seq<Event>): Os
    decreases |events|
  {
    if events == [] then os else Step(RunFrom(os, events[..|events| - 1]), events[|events| - 1])
  }

  predicate Alive(os: Os,
      life: Life) { life.pid in os.table && os.table[life.pid].start == life.start && os.table[life.pid].alive }

  /** Every entry in the table is a life on record. */
  ghost predicate Sane(os: Os) { forall pid :: pid in os.table ==> Life(pid, os.table[pid].start) in os.used }

  lemma SaneStep(os: Os, e: Event)
    requires Sane(os)
    ensures Sane(Step(os, e)) && os.used <= Step(os, e).used
  {
  }

  /** A life that has ended never runs again. */
  lemma NoResurrection(os: Os, e: Event, life: Life)
    requires Sane(os) && life in os.used && !Alive(os, life)
    ensures !Alive(Step(os, e), life)
  {
  }

  /** Seen from the end: alive afterwards means it was that very process all along. */
  lemma {:induction false} AliveThroughout(os: Os, events: seq<Event>, life: Life)
    requires Sane(os) && life in os.used && Alive(RunFrom(os, events), life)
    ensures Alive(os, life) && os.table[life.pid].start == life.start
    ensures Sane(RunFrom(os, events)) && life in RunFrom(os, events).used
    decreases |events|
  {
    hide Step;
    if events != [] {
      var init := events[..|events| - 1];
      SaneRun(os, init);
      if !Alive(RunFrom(os, init), life) { NoResurrection(RunFrom(os, init), events[|events| - 1], life); }
      AliveThroughout(os, init, life);
      SaneStep(RunFrom(os, init), events[|events| - 1]);
    }
  }

  lemma {:induction false} SaneRun(os: Os, events: seq<Event>)
    requires Sane(os)
    ensures Sane(RunFrom(os, events)) && os.used <= RunFrom(os, events).used
    decreases |events|
  {
    hide Step, Sane;
    if events != [] {
      SaneRun(os, events[..|events| - 1]);
      SaneStep(RunFrom(os, events[..|events| - 1]), events[|events| - 1]);
    }
  }

  /** A process's table entry does not change while it is alive, except that it ends. */
  lemma {:induction false} SameEntry(os: Os, events: seq<Event>, life: Life)
    requires Sane(os) && life in os.used && Alive(RunFrom(os, events), life)
    ensures life.pid in os.table && RunFrom(os, events).table[life.pid] == os.table[life.pid]
    decreases |events|
  {
    if events != [] {
      var init, e := events[..|events| - 1], events[|events| - 1];
      SaneRun(os, init);
      hide Sane;
      var mid := RunFrom(os, init);
      if !Alive(mid, life) { NoResurrection(mid, e, life); }
      SameEntry(os, init, life);
    }
  }

  // ---- the evidence ----

  /** Python's equality of a JSON number or bool with an int. */
  predicate EqualsInt(v: JVal, n: int) {
    (v.JNum? && v.number == n) || (v.JBool? && n == (if v.flag then 1 else 0))
  }

  /** The identity file names this daemon and this PID. */
  predicate Authentic(v: JVal, pid: Pid, name: string) {
    && v.JObj? && EqualsInt(Lookup(v.members, "v"), 1) && EqualsInt(Lookup(v.members, "pid"), pid)
    && Lookup(v.members, "name") == JStr(name)
    && Lookup(v.members, "module").JStr? && Lookup(v.members, "module").text != ""
    && Lookup(v.members, "start_time").JStr?
  }

  function RecordedStart(v: JVal): string
    requires v.JObj? && Lookup(v.members, "start_time").JStr?
  {
    Lookup(v.members, "start_time").text
  }

  // ---- field 22 of /proc/<pid>/stat ----

  function RFind(s: string, c: char): (i: int)
    ensures -1 <= i < |s| && (i >= 0 ==> s[i] == c)
    ensures forall j :: i < j < |s| ==> s[j] != c
    decreases |s|
  {
    if s == "" then -1
    else if s[|s| - 1] == c then |s| - 1
    else RFind(s[..|s| - 1], c)
  }

  /** stat[stat.rfind(")") + 2:].split()[19], for single-space separators. */
  function StartTimeOf(stat: string): Option<string> {
    var from := RFind(stat, ')') + 2;
    var fields := Split(if from <= |stat| then stat[from..] else "", ' ');
    if |fields| > 19 then Some(fields[19]) else None
  }

  /** The command name may hold spaces and parentheses; the twentieth field after it is read all the same. */
  lemma AnyCommandName(prefix_: string, fields: seq<string>)
    requires |fields| > 19 && Free(fields, ' ') && Free(fields, ')')
    ensures StartTimeOf(prefix_ + ")" + " " + Join(fields, ' ')) == Some(fields[19])
  {
    var tail := Join(fields, ' ');
    var stat := prefix_ + ")" + " " + tail;
    JoinKeepsOut(fields, ' ', ')');
    var i := RFind(stat, ')');
    assert stat[|prefix_|] == ')' && stat[|prefix_| + 1] == ' ';
    assert forall j :: |prefix_| + 2 <= j < |stat| ==> stat[j] == tail[j - |prefix_| - 2];
    assert i == |prefix_|;
    assert stat[i + 2..] == tail;
    SplitJoin(fields, ' ');
  }

  lemma {:induction false} JoinKeepsOut(parts: seq<string>, sep: char, c: char)
    requires Free(parts, c) && c != sep
    ensures c !in Join(parts, sep)
    decreases |parts|
  {
    if |parts| > 1 { JoinKeepsOut(parts[1..], sep, c); }
  }
}
