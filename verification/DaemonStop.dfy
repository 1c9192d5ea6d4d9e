/** _open_owned_pidfd and _stop_one, with everything other processes do between their steps. */
module DaemonStop {
  import opened Prelude
  import opened Daemons

  datatype Status = Owned | Stale | Mismatch | Unverified

  /** What a daemon's legacy evidence must show: its module, pod and tenant. */
  datatype Expected = Expected(moduleName: string, pod: string, tenant: string)

  datatype Ending =
    | NotRunning | RemovedCorrupt | RemovedStale | RemovedMismatch | Refused
    | GoneBefore | CannotSignal | NotConfirmed | Stopped

  datatype Sent = Term(to: Life) | Kill(to: Life)

  /** What the checks come to when nobody else acts and no call fails. */
  ghost function Verdict(os: Os, pid: Pid, name: string, expected: Option<Expected>): Status {
    if pid !in os.table then Stale
    else if os.identity.NoIdentity? then
      if expected.Some? && Shows(os.table[pid], expected.value) then Owned else Unverified
    else if os.identity.BadIdentity? then Unverified
    else if !Authentic(os.identity.value, pid, name) || RecordedStart(os.identity.value) != os.table[pid].start then Mismatch
    else if !os.table[pid].alive then Stale
    else Owned
  }

  predicate Shows(p: Proc, e: Expected) { p.alive && p.moduleName == e.moduleName && p.pod == e.pod && p.tenant == e.tenant }

  /** No identity file is written in these events. */
  predicate NoIdentityWrite(events: seq<Event>) { forall i :: 0 <= i < |events| ==> !events[i].WriteIdentity? }

  lemma {:induction false} IdentityStays(os: Os, events: seq<Event>)
    requires NoIdentityWrite(events)
    ensures RunFrom(os, events).identity == os.identity
    decreases |events|
  {
    if events != [] { IdentityStays(os, events[..|events| - 1]); }
  }

  /** What pidfd_open would bind a descriptor to. */
  function BoundAt(os: Os, pid: Pid): Option<Life> { if pid in os.table then Some(Life(pid, os.table[pid].start)) else None }

  /** One of these steps got an answer after the process had ended. */
  ghost predicate Noticed(seen: seq<Os>, faults: nat -> bool, fd: Life, from: nat, until: nat) {
    exists k :: from <= k < until && k < |seen| && !faults(k) && !Alive(seen[k], fd)
  }

  lemma NoticedLater(seen: seq<Os>, more: seq<Os>, faults: nat -> bool, fd: Life, from: nat, until: nat)
    requires seen <= more && until <= |seen|
    ensures Noticed(more, faults, fd, from, until) == Noticed(seen, faults, fd, from, until)
  {
    hide Alive;
    assert forall k :: 0 <= k < |seen| ==> more[k] == seen[k];
    if Noticed(seen, faults, fd, from, until) {
      var k :| from <= k < until && k < |seen| && !faults(k) && !Alive(seen[k], fd);
      assert !Alive(more[k], fd);
    }
  }

  class Host {
    const others: nat -> seq<Event> // what others do before this process's n-th step
    const faults: nat -> bool       // whether that step's system call fails out of the ordinary
    var os: Os
    var issued: nat
    var removals: nat
    ghost var signals: seq<Sent>    // every signal ever sent, with the process it reached
    ghost var seen: seq<Os>         // the machine as each step of this process found it

    constructor (os: Os, others: nat -> seq<Event>, faults: nat -> bool)
      requires Sane(os)
      ensures Valid() && this.os == os && signals == [] && removals == 0
    {
      this.os, this.others, this.faults := os, others, faults;
      issued, removals, signals, seen := 0, 0, [], [];
    }

    ghost predicate Valid()
      reads this
    {
      Sane(os) && |seen| == issued
    }

    /** Nothing changed since this process's last step. */
    ghost predicate Current()
      reads this
    {
      0 < issued == |seen| && os == seen[issued - 1]
    }

    /** Nobody rewrites the identity file before these steps. */
    ghost predicate Unwritten(from: nat, until: nat) {
      forall n :: from <= n < until ==> NoIdentityWrite(others(n))
    }

    /** From now on nobody else acts and no call fails. */
    ghost predicate Calm()
      reads this
    {
      forall n :: n >= issued ==> others(n) == [] && !faults(n)
    }

    /** Others act; then the next step of this process comes, and may fail. */
    method Next() returns (ok: bool)
      requires Valid()
      modifies this
      ensures Valid() && os == RunFrom(old(os), others(old(issued))) && old(os).used <= os.used
      ensures signals == old(signals) && removals == old(removals)
      ensures issued == old(issued) + 1 && seen == old(seen) + [os] && Current() && ok == !faults(old(issued))
      ensures NoIdentityWrite(others(old(issued))) ==> os.identity == old(os).identity
      ensures old(Calm()) ==> Calm() && ok && os == old(os)
      ensures forall life :: life in old(os).used && Alive(os, life) ==>
        Alive(old(os), life) && os.table[life.pid] == old(os).table[life.pid]
    {
      ghost var before, batch := os, others(issued);
      SaneRun(before, batch);
      os := RunFrom(os, others(issued));
      forall life | life in before.used && Alive(os, life)
        ensures Alive(before, life) && os.table[life.pid] == before.table[life.pid]
      {
        AliveThroughout(before, batch, life);
        SameEntry(before, batch, life);
      }
      if NoIdentityWrite(batch) { IdentityStays(before, batch); }
      ok := !faults(issued);
      issued, seen := issued + 1, seen + [os];
    }

    /** _legacy_start_time: three reads of /proc/<pid>, each of whatever process has the PID by then. */
    method Legacy(pid: Pid, expected: Option<Expected>, ghost bound: Life) returns (found: bool)
      requires Valid() && bound.pid == pid && bound in os.used
      modifies this
      ensures Valid() && bound in os.used && signals == old(signals) && removals == old(removals)
      ensures old(issued) <= issued && old(seen) <= seen && (old(Current()) ==> Current())
      ensures Alive(os, bound) ==> Alive(old(os), bound) && os.table[pid] == old(os).table[pid]
      ensures found && Alive(os, bound) ==> expected.Some? && Shows(os.table[pid], expected.value)
      ensures old(Calm()) ==> Calm() && os == old(os)
      ensures old(Calm()) && pid in os.table ==> (found <==> expected.Some? && Shows(os.table[pid], expected.value))
    {
      if expected.None? { return false; }
      var readable := Next();
      if !readable || pid !in os.table { return false; }
      var moduleMatches := os.table[pid].alive && os.table[pid].moduleName == expected.value.moduleName;
      readable := Next();
      if !readable || pid !in os.table { return false; }
      var proc := os.table[pid];
      var namespaceMatches := proc.alive && proc.pod == expected.value.pod && proc.tenant == expected.value.tenant;
      readable := Next();
      found := moduleMatches && namespaceMatches && readable && pid in os.table;
    }

    /**
     The identity file's own evidence, as the first step here finds it in the file, and the start time
     /proc shows for the PID after that.
     */
    method Recorded(pid: Pid, name: string, ghost bound: Life) returns (status: Status, ghost evidence: Option<JVal>)
      requires Valid() && bound.pid == pid && bound in os.used
      modifies this
      ensures Valid() && bound in os.used && signals == old(signals) && removals == old(removals)
      ensures old(issued) < issued <= old(issued) + 2 && old(seen) <= seen && Current()
      ensures evidence.Some? ==> seen[old(issued)].identity == IdentityIn(evidence.value)
      ensures Unwritten(old(issued), issued) && evidence.Some? ==> old(os).identity == IdentityIn(evidence.value)
      ensures Alive(os, bound) ==> Alive(old(os), bound)
      ensures status.Owned? || status.Mismatch? ==> evidence.Some?
      ensures status.Owned? ==>
        Authentic(evidence.value, pid, name) && (Alive(os, bound) ==> RecordedStart(evidence.value) == bound.start)
      ensures status.Mismatch? && Authentic(evidence.value, pid, name) ==> !Alive(os, Life(pid, RecordedStart(evidence.value)))
      ensures !status.Stale?
      ensures old(Calm()) ==> Calm() && os == old(os)
      ensures old(Calm()) && !os.identity.NoIdentity? && pid in os.table ==>
        var v := Verdict(os, pid, name, None);
        if status.Owned? then v.Owned? || v.Stale? else v == status
    {
      evidence := None;
      var ok := Next();
      if !ok || !os.identity.IdentityIn? { return Unverified, None; }
      var identity := os.identity.value;
      evidence := Some(identity);
      if !Authentic(identity, pid, name) { return Mismatch, evidence; }
      ok := Next();
      if !ok || pid !in os.table { return Unverified, evidence; }
      status := if os.table[pid].start != RecordedStart(identity) then Mismatch else Owned;
    }

    /** _owned_start_time: the identity file if there is one, or else the process's own command line and environment. */
    method Authenticate(pid: Pid, name: string, expected: Option<Expected>, ghost bound: Life)
      returns (status: Status, ghost evidence: Option<JVal>)
      requires Valid() && bound.pid == pid && bound in os.used
      modifies this
      ensures Valid() && bound in os.used && signals == old(signals) && removals == old(removals)
      ensures old(issued) < issued && old(seen) <= seen && Current()
      ensures Alive(os, bound) ==> Alive(old(os), bound)
      ensures evidence.Some? ==> old(issued) + 1 < issued && seen[old(issued) + 1].identity == IdentityIn(evidence.value)
      ensures status.Owned? && evidence.None? ==> seen[old(issued)].identity.NoIdentity?
      ensures status.Owned? && evidence.Some? ==>
        Authentic(evidence.value, pid, name) && (Alive(os, bound) ==> RecordedStart(evidence.value) == bound.start)
      ensures status.Owned? && evidence.None? && Alive(os, bound) ==> expected.Some? && Shows(os.table[pid], expected.value)
      ensures status.Mismatch? ==> evidence.Some?
      ensures status.Mismatch? && Authentic(evidence.value, pid, name) ==> !Alive(os, Life(pid, RecordedStart(evidence.value)))
      ensures !status.Stale?
      ensures Unwritten(old(issued), issued) && !old(os).identity.NoIdentity? && (status.Owned? || status.Mismatch?) ==>
        evidence.Some? && old(os).identity == IdentityIn(evidence.value)
      ensures old(Calm()) ==> Calm() && os == old(os)
      ensures old(Calm()) && pid in os.table ==>
        var v := Verdict(os, pid, name, expected);
        if status.Owned? then v.Owned? || v.Stale? else v == status
    {
      hide Authentic, RecordedStart, Sane, Shows;
      evidence := None;
      var ok := Next();
      if os.identity.NoIdentity? {
        var found := Legacy(pid, expected, bound);
        status := if found then Owned else Unverified;
      } else {
        status, evidence := Recorded(pid, name, bound);
      }
    }

    /**
     _open_owned_pidfd. The descriptor is bound first, to the process that then has the PID. It is owned
     only if that process still runs at the end and the identity file, read in between, recorded its
     start time; without an identity file, its command line and environment are the daemon's own.
     */
    method OpenOwned(pid: Pid, name: string, expected: Option<Expected>)
      returns (fd: Option<Life>, status: Status, ghost evidence: Option<JVal>)
      requires Valid()
      modifies this
      ensures Valid() && signals == old(signals) && removals == old(removals)
      ensures old(issued) < issued && old(seen) <= seen && Current()
      ensures fd.Some? <==> status.Owned?
      ensures status.Owned? ==> BoundAt(seen[old(issued)], pid) == fd && Alive(os, fd.value)
      ensures evidence.Some? ==> old(issued) + 2 < issued && seen[old(issued) + 2].identity == IdentityIn(evidence.value)
      ensures status.Owned? && evidence.Some? ==>
        Authentic(evidence.value, pid, name) && RecordedStart(evidence.value) == fd.value.start
      ensures status.Owned? && evidence.None? ==> expected.Some? && Shows(os.table[pid], expected.value)
      ensures status.Owned? && evidence.None? ==> old(issued) + 1 < issued && seen[old(issued) + 1].identity.NoIdentity?
      ensures status.Mismatch? ==> evidence.Some?
      ensures status.Mismatch? && Authentic(evidence.value, pid, name) ==> !Alive(os, Life(pid, RecordedStart(evidence.value)))
      ensures status.Stale? ==> BoundAt(seen[old(issued)], pid) == None || !Alive(os, BoundAt(seen[old(issued)], pid).value)
      // If nobody rewrites the identity file meanwhile, it is what the file holds all along that decides.
      ensures Unwritten(old(issued), issued) && old(os).identity.IdentityIn? && status.Owned? ==>
        var v := old(os).identity.value; Authentic(v, pid, name) && fd.value == Life(pid, RecordedStart(v))
      ensures Unwritten(old(issued), issued) && old(os).identity.IdentityIn? && status.Mismatch? ==>
        var v := old(os).identity.value; Authentic(v, pid, name) ==> !Alive(os, Life(pid, RecordedStart(v)))
      ensures Unwritten(old(issued), issued) && old(os).identity.BadIdentity? ==> !status.Owned? && !status.Mismatch?
      ensures old(Calm()) ==> Calm() && os == old(os) && status == Verdict(os, pid, name, expected)
    {
      hide Authentic, RecordedStart, Verdict, Sane, Shows, RunFrom;
      fd, evidence := None, None;
      var ok := Next();
      if !ok { return None, Unverified, None; }
      if pid !in os.table {
        NobodyThere(os, pid, name, expected);
        return None, Stale, None;
      }
      var bound := Life(pid, os.table[pid].start);
      OnRecord(os, pid);
      status, evidence := Authenticate(pid, name, expected, bound);
      if !status.Owned? { return None, status, evidence; }
      ok := Next();
      if !ok { return None, Unverified, evidence; }
      if !Alive(os, bound) {
        if pid in os.table && os.table[pid].start == bound.start { EndedThere(os, pid, name, expected); }
        return None, Stale, evidence;
      }
      RunsThere(os, pid, name, expected);
      fd := Some(bound);
    }

    method RemoveFiles()
      requires Valid()
      modifies this
      ensures Valid() && removals == old(removals) + 1 && signals == old(signals) && issued == old(issued) && seen == old(seen)
      ensures os == old(os).(pidFile := NoPidFile, identity := NoIdentity)
    {
      os := os.(pidFile := NoPidFile, identity := NoIdentity);
      removals := removals + 1;
    }

    /** pidfd_send_signal: it can only reach the process the descriptor is bound to. */
    method Signal(fd: Life, kill: bool) returns (sent: bool, lookupError: bool)
      requires Valid() && fd in os.used
      modifies this
      ensures Valid() && fd in os.used && removals == old(removals)
      ensures issued == old(issued) + 1 && old(seen) <= seen
      ensures signals == if sent then old(signals) + [if kill then Kill(fd) else Term(fd)] else old(signals)
      ensures old(Calm()) ==> Calm() && os == old(os) && (Alive(os, fd) ==> sent)
      ensures lookupError ==> !sent && !Alive(os, fd)
      ensures Alive(os, fd) ==> Alive(old(os), fd)
    {
      var ok := Next();
      lookupError := ok && !(fd.pid in os.table && os.table[fd.pid].start == fd.start);
      sent := ok && !lookupError;
      if sent { signals := signals + [if kill then Kill(fd) else Term(fd)]; }
    }

    /** Poll the descriptor for exit, at most `polls` times: an exit is reported exactly if some poll was answered after it. */
    method AwaitExit(fd: Life, polls: nat) returns (exited: bool)
      requires Valid() && fd in os.used
      modifies this
      ensures Valid() && fd in os.used && signals == old(signals) && removals == old(removals)
      ensures old(issued) <= issued && old(seen) <= seen
      ensures exited ==> !Alive(os, fd)
      ensures exited <==> Noticed(seen, faults, fd, old(issued), issued)
      ensures issued <= old(issued) + polls && (!exited ==> issued == old(issued) + polls)
      ensures old(Calm()) ==> Calm() && os == old(os)
    {
      hide Alive;
      for i := 0 to polls
        invariant issued == old(issued) + i && !Noticed(seen, faults, fd, old(issued), issued)
        invariant old(Calm()) ==> Calm() && os == old(os)
        invariant Valid() && fd in os.used && signals == old(signals) && removals == old(removals)
        invariant old(issued) <= issued && old(seen) <= seen
      {
        ghost var before := seen;
        var ok := Next();
        if ok && !Alive(os, fd) {
          assert !Alive(seen[issued - 1], fd);
          return true;
        }
        NoticedLater(before, seen, faults, fd, old(issued), issued - 1);
      }
      exited := false;
    }

    /**
     _stop_one. Every signal goes to one process, the one that had the pid file's PID when the descriptor
     was opened, still running when its ownership was established, and with an identity file that is the
     process the file recorded. The pid files go only with a reason.
     */
    method StopOne(name: string, expected: Option<Expected>, polls: nat)
      returns (ending: Ending, ghost target: Option<Life>, ghost evidence: Option<JVal>)
      requires Valid()
      modifies this
      ensures Valid() && old(issued) < issued && old(seen) <= seen
      ensures |old(signals)| <= |signals| <= |old(signals)| + 2 && signals[..|old(signals)|] == old(signals)
      ensures forall i :: |old(signals)| <= i < |signals| ==> target == Some(signals[i].to)
      ensures target.Some? ==>
        && old(issued) + 1 < issued && seen[old(issued)].pidFile == PidIn(target.value.pid)
        && BoundAt(seen[old(issued) + 1], target.value.pid) == target
      ensures evidence.Some? ==> old(issued) + 3 < issued && seen[old(issued) + 3].identity == IdentityIn(evidence.value)
      ensures Unwritten(old(issued), issued) && old(os).identity.IdentityIn? && target.Some? ==>
        var v := old(os).identity.value; Authentic(v, target.value.pid, name) && RecordedStart(v) == target.value.start
      ensures ending.NotRunning? <==> seen[old(issued)].pidFile.NoPidFile?
      ensures ending.RemovedCorrupt? <==> seen[old(issued)].pidFile.CorruptPidFile?
      ensures ending.RemovedStale? ==>
        && old(issued) + 1 < issued && seen[old(issued)].pidFile.PidIn?
        && var bound := BoundAt(seen[old(issued) + 1], seen[old(issued)].pidFile.pid);
           bound == None || !Alive(seen[issued - 1], bound.value)
      ensures ending.RemovedMismatch? ==>
        && evidence.Some? && seen[old(issued)].pidFile.PidIn?
        && var pid := seen[old(issued)].pidFile.pid;
           Authentic(evidence.value, pid, name) ==> !Alive(seen[issued - 1], Life(pid, RecordedStart(evidence.value)))
      ensures old(Calm()) && target.Some? ==>
        signals == old(signals) + [Term(target.value), Kill(target.value)] && ending.NotConfirmed?
      ensures old(Calm()) && old(os).pidFile.PidIn? && Verdict(old(os), old(os).pidFile.pid, name, expected).Mismatch? ==>
        ending.RemovedMismatch? && os == old(os).(pidFile := NoPidFile, identity := NoIdentity)
      ensures old(Calm()) && old(os).pidFile.PidIn? ==>
        (target.Some? <==> Verdict(old(os), old(os).pidFile.pid, name, expected).Owned?)
      ensures target.Some? && evidence.Some? ==>
        Authentic(evidence.value, target.value.pid, name) && RecordedStart(evidence.value) == target.value.start
      ensures target.Some? && evidence.None? ==>
        expected.Some? && old(issued) + 2 < issued && seen[old(issued) + 2].identity.NoIdentity?
      ensures target.None? <==>
        ending.NotRunning? || ending.RemovedCorrupt? || ending.RemovedStale? || ending.RemovedMismatch? || ending.Refused?
      ensures ending.Stopped? || ending.GoneBefore? ==> !Alive(os, target.value)
      ensures ending.NotConfirmed? ==> faults(issued - 1) || Alive(seen[issued - 1], target.value)
      ensures removals == old(removals) +
        if ending.NotRunning? || ending.Refused? || ending.CannotSignal? || ending.NotConfirmed? then 0 else 1
    {
      hide Verdict, Authentic, RecordedStart, Shows, Sane, Alive, RunFrom, Noticed, Host.Calm;
      target, evidence := None, None;
      var ok := Next();
      if os.pidFile.NoPidFile? { return NotRunning, None, None; }
      if os.pidFile.CorruptPidFile? {
        RemoveFiles();
        return RemovedCorrupt, None, None;
      }
      var fd, status, proof := OpenOwned(os.pidFile.pid, name, expected);
      if status.Stale? {
        RemoveFiles();
        return RemovedStale, None, None;
      }
      if status.Mismatch? {
        RemoveFiles();
        return RemovedMismatch, None, proof;
      }
      if fd.None? { return Refused, None, None; }
      target, evidence := fd, proof;
      AliveIsUsed(os, fd.value);
      ending := StopOwned(fd.value, polls);
    }

    method StopOwned(fd: Life, polls: nat) returns (ending: Ending)
      requires Valid() && fd in os.used
      modifies this
      ensures Valid() && old(issued) < issued && old(seen) <= seen
      ensures |old(signals)| <= |signals| <= |old(signals)| + 2 && signals[..|old(signals)|] == old(signals)
      ensures forall i :: |old(signals)| <= i < |signals| ==> signals[i].to == fd
      ensures old(Calm()) && Alive(old(os), fd) ==> signals == old(signals) + [Term(fd), Kill(fd)] && ending.NotConfirmed?
      ensures |signals| == |old(signals)| + 2 ==> !Noticed(seen, faults, fd, old(issued) + 1, old(issued) + 1 + polls)
      ensures ending.NotConfirmed? ==> faults(issued - 1) || Alive(seen[issued - 1], fd)
      ensures ending.GoneBefore? || ending.CannotSignal? || ending.NotConfirmed? || ending.Stopped?
      ensures ending.Stopped? || ending.GoneBefore? ==> !Alive(os, fd)
      ensures removals == old(removals) + if ending.CannotSignal? || ending.NotConfirmed? then 0 else 1
    {
      var sent, gone := Signal(fd, false);
      if gone {
        RemoveFiles();
        return GoneBefore;
      }
      if !sent { return CannotSignal; }
      var exited := AwaitExit(fd, polls);
      ghost var waited := seen;
      if !exited {
        sent, gone := Signal(fd, true);
        NoticedLater(waited, seen, faults, fd, old(issued) + 1, old(issued) + 1 + polls);
        if !sent && !gone { return CannotSignal; }
        if !gone {
          exited := AwaitExit(fd, 1);
          NoticedLater(waited, seen, faults, fd, old(issued) + 1, old(issued) + 1 + polls);
          if !exited { return NotConfirmed; }
        }
      }
      RemoveFiles();
      ending := Stopped;
    }
  }

  lemma OnRecord(os: Os, pid: Pid)
    requires Sane(os) && pid in os.table
    ensures Life(pid, os.table[pid].start) in os.used
  {
  }

  lemma NobodyThere(os: Os, pid: Pid, name: string, expected: Option<Expected>)
    requires pid !in os.table
    ensures Verdict(os, pid, name, expected).Stale?
  {
  }

  /** The checks never call a process owned that has ended. */
  lemma EndedThere(os: Os, pid: Pid, name: string, expected: Option<Expected>)
    requires pid in os.table ==> !os.table[pid].alive
    ensures !Verdict(os, pid, name, expected).Owned?
  {
  }

  /** ... nor one stale that runs. */
  lemma RunsThere(os: Os, pid: Pid, name: string, expected: Option<Expected>)
    requires pid in os.table && os.table[pid].alive
    ensures !Verdict(os, pid, name, expected).Stale?
  {
  }

  lemma AliveIsUsed(os: Os, life: Life)
    requires Sane(os) && Alive(os, life)
    ensures life in os.used
  {
  }

  /** What _start_one writes for a process. */
  function IdentityOf(name: string, moduleName: string, life: Life): JVal {
    JObj(map["v" := JNum(1), "pid" := JNum(life.pid), "name" := JStr(name), "module" := JStr(moduleName),
             "start_time" := JStr(life.start)])
  }

  /**
   For a running process, a readable identity file decides: ownership exactly when it records this very
   process, a mismatch otherwise.
   */
  lemma OwnedExactly(os: Os, v: JVal, life: Life, name: string, expected: Option<Expected>)
    requires Alive(os, life) && os.identity == IdentityIn(v)
    ensures Verdict(os, life.pid, name, expected).Owned? <==> Authentic(v, life.pid, name) && RecordedStart(v) == life.start
    ensures Verdict(os, life.pid, name, expected).Mismatch? <==> !(Authentic(v, life.pid, name) && RecordedStart(v) == life.start)
  {
  }

  /** A complete identity file is accepted for its own process, as long as that runs. */
  lemma OwnIdentityIsOwned(os: Os, name: string, moduleName: string, life: Life, expected: Option<Expected>)
    requires moduleName != "" && os.identity == IdentityIn(IdentityOf(name, moduleName, life)) && Alive(os, life)
    ensures Verdict(os, life.pid, name, expected).Owned?
  {
    IdentityFields(name, moduleName, life);
  }

  lemma IdentityFields(name: string, moduleName: string, life: Life)
    ensures var m := IdentityOf(name, moduleName, life).members;
      && Lookup(m, "v") == JNum(1) && Lookup(m, "pid") == JNum(life.pid) && Lookup(m, "name") == JStr(name)
      && Lookup(m, "module") == JStr(moduleName) && Lookup(m, "start_time") == JStr(life.start)
  {
  }

  /**
     The pid file is written before the identity file. A stop in between finds the new PID beside the old
     identity and takes the new daemon, though it runs, for a stranger whose files can go.
   */
  lemma HalfWrittenIdentityIsForgotten(os: Os, name: string, moduleName: string, prior: Life, successor: Life,
      expected: Option<Expected>)
    requires prior.pid != successor.pid && Alive(os, successor)
    requires os.identity == IdentityIn(IdentityOf(name, moduleName, prior))
    ensures Verdict(os, successor.pid, name, expected).Mismatch?
  {
    IdentityFields(name, moduleName, prior);
  }
}
