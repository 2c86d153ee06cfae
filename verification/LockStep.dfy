/** Any number of processes sharing the replay cache, step by step. */
module LockStep {
  import opened Wrappers
  import opened ReplayCache

  type Pid = nat

  datatype Op = Insert(entry: Entry) | Lookup(id: Id)

  /** Where a process is inside a call.  `Locked` and later hold the lock: shared for a lookup, exclusive for an
      insert.  `born` is the number of accesses that had taken effect when the call began, `at` the number when its
      own did. */
  datatype Stage =
    | Idle
    | Opening(op: Op, born: nat)
    | Locked(op: Op, born: nat)
    | Loaded(op: Op, born: nat, m: Entries)     // an insert that has read the file
    | Writing(op: Op, born: nat, m: Entries)    // an insert that has truncated it
    | Finished(op: Op, born: nat, found: Option<string>, failed: bool, at: nat)

  /** A completed access, in the order accesses take effect. */
  datatype Event = Put(entry: Entry) | Get(id: Id, found: Option<string>)

  /** What a call gave back to its caller; `until` is the number of accesses that had taken effect when it did. */
  datatype Return = Return(op: Op, born: nat, found: Option<string>, failed: bool, at: nat, until: nat)

  datatype State = State(file: Text, stages: map<Pid, Stage>, events: seq<Event>, returned: seq<Return>)

  function StageOf(s: State, p: Pid): Stage {
    if p in s.stages then s.stages[p] else Idle
  }

  predicate HoldsLock(st: Stage) {
    st.Locked? || st.Loaded? || st.Writing? || st.Finished?
  }

  predicate HoldsExclusive(st: Stage) {
    HoldsLock(st) && st.op.Insert?
  }

  // ---------------------------------------------------------------- the sequential meaning

  /** The cache after the inserts among `events`. */
  function Replayed(base: Entries, events: seq<Event>): Entries {
    if events == [] then
      base
    else
      var e := events[|events| - 1];
      var before := Replayed(base, events[..|events| - 1]);
      if e.Put? then before[e.entry.paymentId := e.entry] else before
  }

  function TxOf(m: Entries, id: Id): Option<string> {
    if id in m then Some(m[id].txHash) else None
  }

  /** Every lookup saw exactly the inserts before it. */
  ghost predicate Consistent(base: Entries, events: seq<Event>) {
    forall i :: 0 <= i < |events| && events[i].Get? ==> events[i].found == TxOf(Replayed(base, events[..i]), events[i].id)
  }

  // ---------------------------------------------------------------- the steps

  function At(s: State, p: Pid, st: Stage): State {
    s.(stages := s.stages[p := st])
  }

  /** Begin a call. */
  predicate Call(s: State, p: Pid, op: Op, s': State) {
    StageOf(s, p).Idle? && s' == At(s, p, Opening(op, |s.events|))
  }

  /** A lookup that finds no file returns without taking a lock. */
  predicate Absent(s: State, p: Pid, s': State) {
    && StageOf(s, p).Opening? && StageOf(s, p).op.Lookup? && s.file.Missing?
    && var st, n := StageOf(s, p), |s.events|;
       s' == At(s, p, Idle).(events := s.events + [Get(st.op.id, None)],
                             returned := s.returned + [Return(st.op, st.born, None, false, n, n + 1)])
  }

  /** An insert creates the file when it opens it. */
  predicate Create(s: State, p: Pid, s': State) {
    StageOf(s, p).Opening? && StageOf(s, p).op.Insert? && s.file.Missing? && s' == s.(file := Blank)
  }

  /** Take the lock: exclusive only if nobody holds one, shared only if nobody holds it exclusively. */
  ghost predicate Acquire(s: State, p: Pid, s': State) {
    && StageOf(s, p).Opening? && !s.file.Missing?
    && (forall q :: q != p ==>
          if StageOf(s, p).op.Insert? then !HoldsLock(StageOf(s, q)) else !HoldsExclusive(StageOf(s, q)))
    && s' == At(s, p, Locked(StageOf(s, p).op, StageOf(s, p).born))
  }

  /** A lookup under its lock: read, parse, look up. */
  predicate Read(s: State, p: Pid, s': State) {
    && StageOf(s, p).Locked? && StageOf(s, p).op.Lookup?
    && var op, born, n := StageOf(s, p).op, StageOf(s, p).born, |s.events|;
       match Load(s.file)
       case Err => s' == At(s, p, Finished(op, born, None, true, n))
       case Ok(m) => s' == At(s, p, Finished(op, born, TxOf(m, op.id), false, n)).(
                             events := s.events + [Get(op.id, TxOf(m, op.id))])
  }

  /** An insert under its lock: read and parse, then put the entry in the map. */
  predicate LoadFile(s: State, p: Pid, s': State) {
    && StageOf(s, p).Locked? && StageOf(s, p).op.Insert?
    && var op, born := StageOf(s, p).op, StageOf(s, p).born;
       match Load(s.file)
       case Err => s' == At(s, p, Finished(op, born, None, true, |s.events|))
       case Ok(m) => s' == At(s, p, Loaded(op, born, m[op.entry.paymentId := op.entry]))
  }

  /** `set_len(0)`. */
  predicate Truncate(s: State, p: Pid, s': State) {
    && StageOf(s, p).Loaded?
    && s' == At(s, p, Writing(StageOf(s, p).op, StageOf(s, p).born, StageOf(s, p).m)).(file := Blank)
  }

  /** Some of the bytes are out; the text does not parse. */
  predicate WriteSome(s: State, p: Pid, s': State) {
    StageOf(s, p).Writing? && s' == s.(file := Garbage)
  }

  /** All bytes are out. */
  ghost predicate WriteAll(s: State, p: Pid, s': State) {
    && StageOf(s, p).Writing? && StageOf(s, p).op.Insert?
    && var op, born := StageOf(s, p).op, StageOf(s, p).born;
       exists entries :: IsFileOf(entries, StageOf(s, p).m) &&
         s' == At(s, p, Finished(op, born, None, false, |s.events|)).(
                 file := Json(entries), events := s.events + [Put(op.entry)])
  }

  function Given(st: Stage, until: nat): Return
    requires st.Finished?
  {
    Return(st.op, st.born, st.found, st.failed, st.at, until)
  }

  /** Unlock and return. */
  predicate Release(s: State, p: Pid, s': State) {
    && StageOf(s, p).Finished?
    && s' == At(s, p, Idle).(returned := s.returned + [Given(StageOf(s, p), |s.events|)])
  }

  /** The process dies; the system releases its lock.  Not in the middle of the write: see `TornCrash`. */
  predicate Crash(s: State, p: Pid, s': State) {
    !StageOf(s, p).Writing? && s' == At(s, p, Idle)
  }

  ghost predicate StepBy(s: State, p: Pid, s': State) {
    || (exists op :: Call(s, p, op, s'))
    || Absent(s, p, s') || Create(s, p, s') || Acquire(s, p, s') || Read(s, p, s') || LoadFile(s, p, s')
    || Truncate(s, p, s') || WriteSome(s, p, s') || WriteAll(s, p, s') || Release(s, p, s') || Crash(s, p, s')
  }

  ghost predicate Step(s: State, s': State) {
    exists p :: StepBy(s, p, s')
  }

  /** The process dies between truncating the file and finishing the write. */
  predicate TornCrash(s: State, p: Pid, s': State) {
    StageOf(s, p).Writing? && s' == At(s, p, Idle)
  }

  // ---------------------------------------------------------------- the invariant

  /** An exclusive lock excludes every other lock. */
  ghost predicate Exclusion(s: State) {
    forall p, q :: p != q && HoldsExclusive(StageOf(s, p)) ==> !HoldsLock(StageOf(s, q))
  }

  ghost predicate SomeoneWriting(s: State) {
    exists p :: StageOf(s, p).Writing?
  }

  /** A process that has read the file holds the up-to-date map, and only inserts get that far. */
  ghost predicate MapsCurrent(s: State, now: Entries) {
    forall p :: StageOf(s, p).Loaded? || StageOf(s, p).Writing? ==>
      var st := StageOf(s, p);
      st.op.Insert? && st.m == now[st.op.entry.paymentId := st.op.entry]
  }

  /** Outside the write, the file holds exactly the inserts that took effect. */
  ghost predicate Inv(base: Entries, s: State) {
    var now := Replayed(base, s.events);
    && Exclusion(s) && Keyed(now) && MapsCurrent(s, now) && Consistent(base, s.events)
    && (!SomeoneWriting(s) ==> Load(s.file) == Ok(now))
    && (SomeoneWriting(s) ==> s.file.Blank? || s.file.Garbage?)
    && (s.file.Missing? ==> forall p :: !HoldsLock(StageOf(s, p)))
  }

  lemma {:induction false} ConsistentMore(base: Entries, events: seq<Event>, e: Event)
    requires Consistent(base, events) && (e.Get? ==> e.found == TxOf(Replayed(base, events), e.id))
    ensures Consistent(base, events + [e])
  {
    var more := events + [e];
    forall i | 0 <= i < |more| && more[i].Get?
      ensures more[i].found == TxOf(Replayed(base, more[..i]), more[i].id)
    {
      if i < |events| {
        assert more[..i] == events[..i];
      } else {
        assert more[..i] == events;
      }
    }
  }

  /** A lookup that holds its lock sees a whole file with every insert that took effect. */
  lemma {:induction false} ReaderSeesWholeFile(base: Entries, s: State, p: Pid)
    requires Inv(base, s) && HoldsLock(StageOf(s, p)) && !StageOf(s, p).Writing?
    ensures Load(s.file) == Ok(Replayed(base, s.events))
  {
    if SomeoneWriting(s) {
      var q :| StageOf(s, q).Writing?;
      assert HoldsExclusive(StageOf(s, q));
    }
  }

  // ---------------------------------------------------------------- every step keeps it

  /** Moving one process between stages without the lock, or releasing it. */
  lemma {:induction false} UnlockedStep(base: Entries, s: State, p: Pid, st: Stage)
    requires Inv(base, s) && !StageOf(s, p).Writing? && !HoldsLock(st)
    ensures Inv(base, At(s, p, st))
  {
    var s' := At(s, p, st);
    forall q
      ensures q != p ==> StageOf(s', q) == StageOf(s, q)
    {
    }
    if SomeoneWriting(s) {
      var q :| StageOf(s, q).Writing?;
      assert StageOf(s', q).Writing?;
    }
  }

  lemma {:induction false} AcquireKeeps(base: Entries, s: State, p: Pid, s': State)
    requires Inv(base, s) && Acquire(s, p, s')
    ensures Inv(base, s')
  {
    forall q
      ensures q != p ==> StageOf(s', q) == StageOf(s, q)
    {
    }
  }

  /** Moving a process that keeps its lock and is not writing. */
  lemma {:induction false} LockedStep(base: Entries, s: State, p: Pid, st: Stage)
    requires Inv(base, s) && HoldsLock(StageOf(s, p)) && !StageOf(s, p).Writing?
    requires HoldsLock(st) && st.op == StageOf(s, p).op && !st.Writing?
    requires st.Loaded? ==> st.op.Insert? && st.m == Replayed(base, s.events)[st.op.entry.paymentId := st.op.entry]
    ensures Inv(base, At(s, p, st)) && !SomeoneWriting(s)
  {
    var s' := At(s, p, st);
    forall q
      ensures q != p ==> StageOf(s', q) == StageOf(s, q)
    {
    }
    if SomeoneWriting(s) {
      var q :| StageOf(s, q).Writing?;
      assert HoldsExclusive(StageOf(s, q));
    }
  }

  /** The same stages and file with other logs that change no entry. */
  lemma {:induction false} SameState(base: Entries, s: State, events: seq<Event>, returned: seq<Return>)
    requires Inv(base, s) && Replayed(base, events) == Replayed(base, s.events) && Consistent(base, events)
    ensures Inv(base, s.(events := events, returned := returned))
  {
    var s' := s.(events := events, returned := returned);
    assert forall p :: StageOf(s', p) == StageOf(s, p);
    assert SomeoneWriting(s') <==> SomeoneWriting(s) by {
      if SomeoneWriting(s) {
        var q :| StageOf(s, q).Writing?;
        assert StageOf(s', q).Writing?;
      }
    }
  }

  lemma {:induction false} GetKeeps(base: Entries, s: State, id: Id, returned: seq<Return>)
    requires Inv(base, s)
    ensures Inv(base, s.(events := s.events + [Get(id, TxOf(Replayed(base, s.events), id))], returned := returned))
  {
    var events := s.events + [Get(id, TxOf(Replayed(base, s.events), id))];
    ConsistentMore(base, s.events, Get(id, TxOf(Replayed(base, s.events), id)));
    assert events[..|events| - 1] == s.events;
    SameState(base, s, events, returned);
  }

  lemma {:induction false} ReadKeeps(base: Entries, s: State, p: Pid, s': State)
    requires Inv(base, s) && Read(s, p, s')
    ensures Inv(base, s')
  {
    var op := StageOf(s, p).op;
    ReaderSeesWholeFile(base, s, p);
    var st := Finished(op, StageOf(s, p).born, TxOf(Replayed(base, s.events), op.id), false, |s.events|);
    LockedStep(base, s, p, st);
    GetKeeps(base, At(s, p, st), op.id, s.returned);
  }

  lemma {:induction false} LoadKeeps(base: Entries, s: State, p: Pid, s': State)
    requires Inv(base, s) && LoadFile(s, p, s')
    ensures Inv(base, s')
  {
    ReaderSeesWholeFile(base, s, p);
    LockedStep(base, s, p, StageOf(s', p));
  }

  lemma {:induction false} AbsentKeeps(base: Entries, s: State, p: Pid, s': State)
    requires Inv(base, s) && Absent(s, p, s')
    ensures Inv(base, s')
  {
    UnlockedStep(base, s, p, Idle);
    GetKeeps(base, At(s, p, Idle), StageOf(s, p).op.id, s'.returned);
  }

  lemma {:induction false} CreateKeeps(base: Entries, s: State, p: Pid, s': State)
    requires Inv(base, s) && Create(s, p, s')
    ensures Inv(base, s')
  {
    forall q
      ensures StageOf(s', q) == StageOf(s, q)
    {
    }
  }

  /** From the truncation to the last byte only the writer holds a lock. */
  lemma {:induction false} WritingKeeps(base: Entries, s: State, p: Pid, s': State)
    requires Inv(base, s) && (Truncate(s, p, s') || WriteSome(s, p, s'))
    ensures Inv(base, s')
  {
    forall q
      ensures q != p ==> StageOf(s', q) == StageOf(s, q)
    {
    }
    assert StageOf(s', p).Writing?;
  }

  lemma {:induction false} ReleaseKeeps(base: Entries, s: State, p: Pid, s': State)
    requires Inv(base, s) && Release(s, p, s')
    ensures Inv(base, s')
  {
    UnlockedStep(base, s, p, Idle);
    SameState(base, At(s, p, Idle), s.events, s'.returned);
  }

  lemma {:induction false} WriteAllKeeps(base: Entries, s: State, p: Pid, s': State)
    requires Inv(base, s) && WriteAll(s, p, s')
    ensures Inv(base, s')
  {
    var st, now := StageOf(s, p), Replayed(base, s.events);
    var entries :| IsFileOf(entries, st.m) &&
                   s' == At(s, p, Finished(st.op, st.born, None, false, |s.events|)).(
                           file := Json(entries), events := s.events + [Put(st.op.entry)]);
    assert s'.events[..|s'.events| - 1] == s.events;
    assert Replayed(base, s'.events) == st.m;
    LoadWriteBack(entries, st.m);
    ConsistentMore(base, s.events, Put(st.op.entry));
    assert HoldsExclusive(st);
    forall q | q != p
      ensures StageOf(s', q) == StageOf(s, q) && !HoldsLock(StageOf(s', q))
    {
    }
  }

  lemma {:induction false} StepKeeps(base: Entries, s: State, s': State)
    requires Inv(base, s) && Step(s, s')
    ensures Inv(base, s')
  {
    var p :| StepBy(s, p, s');
    if Absent(s, p, s') {
      AbsentKeeps(base, s, p, s');
    } else if Create(s, p, s') {
      CreateKeeps(base, s, p, s');
    } else if Acquire(s, p, s') {
      AcquireKeeps(base, s, p, s');
    } else if Read(s, p, s') {
      ReadKeeps(base, s, p, s');
    } else if LoadFile(s, p, s') {
      LoadKeeps(base, s, p, s');
    } else if Truncate(s, p, s') || WriteSome(s, p, s') {
      WritingKeeps(base, s, p, s');
    } else if WriteAll(s, p, s') {
      WriteAllKeeps(base, s, p, s');
    } else if Release(s, p, s') {
      ReleaseKeeps(base, s, p, s');
    } else {
      UnlockedStep(base, s, p, StageOf(s', p));
    }
  }

  // ---------------------------------------------------------------- calls and their events

  /** The event at `at` is the access of `op`, with what it found. */
  predicate Tells(events: seq<Event>, at: nat, op: Op, found: Option<string>) {
    at < |events| && match op case Insert(e) => events[at] == Put(e) && found.None?
                              case Lookup(id) => events[at] == Get(id, found)
  }

  /** The call did not fail, and its event came after its beginning and before its return. */
  predicate Backed(events: seq<Event>, r: Return) {
    !r.failed && r.born <= r.at < r.until <= |events| && Tells(events, r.at, r.op, r.found)
  }

  predicate IsFinished(s: State, p: Pid) {
    StageOf(s, p).Finished?
  }

  /** Every call that is about to return, or has, is backed by an event of its own. */
  ghost predicate Matched(s: State) {
    && (forall p :: StageOf(s, p) != Idle ==> StageOf(s, p).born <= |s.events|)
    && (forall p :: IsFinished(s, p) ==> Backed(s.events, Given(StageOf(s, p), |s.events|)))
    && (forall i :: 0 <= i < |s.returned| ==> Backed(s.events, s.returned[i]))
    && (forall p, q :: p != q && IsFinished(s, p) && IsFinished(s, q) ==> StageOf(s, p).at != StageOf(s, q).at)
    && (forall p, i :: IsFinished(s, p) && 0 <= i < |s.returned| ==> StageOf(s, p).at != s.returned[i].at)
    && (forall i, j :: 0 <= i < j < |s.returned| ==> s.returned[i].at != s.returned[j].at)
  }

  lemma {:induction false} BackedMore(events: seq<Event>, r: Return, e: Event, until: nat)
    requires Backed(events, r) && r.until <= until <= |events| + 1
    ensures Backed(events + [e], r.(until := until))
  {
  }

  /** A step that neither takes effect nor returns. */
  lemma {:induction false} QuietMatched(s: State, p: Pid, st: Stage, file: Text)
    requires Matched(s) && !st.Finished? && (st != Idle ==> st.born <= |s.events|)
    ensures Matched(At(s, p, st).(file := file))
  {
    var s' := At(s, p, st).(file := file);
    forall q
      ensures q != p ==> StageOf(s', q) == StageOf(s, q)
      ensures IsFinished(s', q) ==> q != p && IsFinished(s, q)
    {
    }
  }

  /** The step at which a call takes effect. */
  lemma {:induction false} EffectMatched(s: State, p: Pid, st: Stage, file: Text, e: Event)
    requires Matched(s) && !IsFinished(s, p) && st.Finished? && !st.failed && st.at == |s.events| && st.born <= st.at
    requires Tells(s.events + [e], st.at, st.op, st.found)
    ensures Matched(At(s, p, st).(file := file, events := s.events + [e]))
  {
    var s' := At(s, p, st).(file := file, events := s.events + [e]);
    forall q
      ensures q != p ==> StageOf(s', q) == StageOf(s, q)
      ensures IsFinished(s', q) ==> q == p || IsFinished(s, q)
      ensures q != p && IsFinished(s, q) ==> Backed(s'.events, Given(StageOf(s, q), |s'.events|))
    {
      if IsFinished(s, q) {
        BackedMore(s.events, Given(StageOf(s, q), |s.events|), e, |s'.events|);
      }
    }
    forall i | 0 <= i < |s.returned|
      ensures Backed(s'.events, s.returned[i])
    {
      BackedMore(s.events, s.returned[i], e, s.returned[i].until);
    }
  }

  lemma {:induction false} ReleaseMatched(s: State, p: Pid, s': State)
    requires Matched(s) && Release(s, p, s')
    ensures Matched(s')
  {
    assert IsFinished(s, p);
    forall q
      ensures q != p ==> StageOf(s', q) == StageOf(s, q)
      ensures IsFinished(s', q) ==> q != p && IsFinished(s, q)
    {
    }
  }

  /** A lookup without a file takes effect and returns at once. */
  lemma {:induction false} AbsentMatched(s: State, p: Pid, s': State)
    requires Matched(s) && Absent(s, p, s')
    ensures Matched(s')
  {
    var st, n := StageOf(s, p), |s.events|;
    var mid := At(s, p, Finished(st.op, st.born, None, false, n)).(events := s.events + [Get(st.op.id, None)]);
    EffectMatched(s, p, StageOf(mid, p), s.file, Get(st.op.id, None));
    ReleaseMatched(mid, p, s'.(stages := mid.stages[p := Idle]));
    assert s'.(stages := mid.stages[p := Idle]) == s';
  }

  lemma {:induction false} ReadMatched(base: Entries, s: State, p: Pid, s': State)
    requires Inv(base, s) && Matched(s) && Read(s, p, s')
    ensures Matched(s')
  {
    var op := StageOf(s, p).op;
    ReaderSeesWholeFile(base, s, p);
    EffectMatched(s, p, StageOf(s', p), s.file, Get(op.id, TxOf(Replayed(base, s.events), op.id)));
  }

  lemma {:induction false} WriteAllMatched(s: State, p: Pid, s': State)
    requires Matched(s) && WriteAll(s, p, s')
    ensures Matched(s')
  {
    EffectMatched(s, p, StageOf(s', p), s'.file, Put(StageOf(s, p).op.entry));
  }

  /** Steps of a single process that neither take effect nor return. */
  lemma {:induction false} QuietStep(base: Entries, s: State, p: Pid, s': State)
    requires Inv(base, s) && Matched(s)
    requires || (exists op :: Call(s, p, op, s')) || Acquire(s, p, s') || LoadFile(s, p, s') || Truncate(s, p, s')
             || Crash(s, p, s')
    ensures Matched(s')
  {
    if LoadFile(s, p, s') {
      ReaderSeesWholeFile(base, s, p);
    }
    QuietMatched(s, p, StageOf(s', p), s'.file);
  }

  lemma {:induction false} FileMatched(s: State, file: Text)
    requires Matched(s)
    ensures Matched(s.(file := file))
  {
    var s' := s.(file := file);
    forall q
      ensures StageOf(s', q) == StageOf(s, q) && IsFinished(s', q) == IsFinished(s, q)
    {
    }
  }

  lemma {:induction false} StepMatched(base: Entries, s: State, s': State)
    requires Inv(base, s) && Matched(s) && Step(s, s')
    ensures Matched(s')
  {
    var p :| StepBy(s, p, s');
    if Absent(s, p, s') {
      AbsentMatched(s, p, s');
    } else if Read(s, p, s') {
      ReadMatched(base, s, p, s');
    } else if WriteAll(s, p, s') {
      WriteAllMatched(s, p, s');
    } else if Release(s, p, s') {
      ReleaseMatched(s, p, s');
    } else if Create(s, p, s') || WriteSome(s, p, s') {
      FileMatched(s, s'.file);
    } else {
      QuietStep(base, s, p, s');
    }
  }

  // ---------------------------------------------------------------- runs

  /** No call in progress, over a file that parses. */
  ghost predicate Init(base: Entries, s: State) {
    s.stages == map[] && s.events == [] && s.returned == [] && Load(s.file) == Ok(base)
  }

  ghost predicate StepAt(states: seq<State>, i: nat)
    requires i + 1 < |states|
  {
    Step(states[i], states[i + 1])
  }

  ghost predicate IsRun(base: Entries, states: seq<State>) {
    && states != [] && Init(base, states[0])
    && forall i: nat :: i + 1 < |states| ==> StepAt(states, i)
  }

  lemma {:induction false} InitHolds(base: Entries, s: State)
    requires Init(base, s)
    ensures Inv(base, s) && Matched(s)
  {
    if s.file.Json? {
      LoadedKeyed(s.file.entries);
    }
    assert Replayed(base, []) == base;
    forall p
      ensures StageOf(s, p) == Idle
    {
    }
  }

  /** Linearizability: in every interleaving of any number of processes, every call that returns has exactly one event,
      between its beginning and its return; in the order of the events every lookup returns what the inserts before
      it stored; and outside a write the file is exactly the inserts so far: none is lost and none is seen
      half-written. */
  lemma {:induction false} Linearizable(base: Entries, states: seq<State>, n: nat)
    requires IsRun(base, states) && n < |states|
    ensures Inv(base, states[n]) && Matched(states[n])
  {
    if n == 0 {
      InitHolds(base, states[0]);
    } else {
      Linearizable(base, states, n - 1);
      assert StepAt(states, n - 1);
      StepKeeps(base, states[n - 1], states[n]);
      StepMatched(base, states[n - 1], states[n]);
    }
  }

  /** The order of the events respects real time: a call that returned before another began comes first. */
  lemma {:induction false} RealTimeOrder(base: Entries, states: seq<State>, n: nat, i: nat, j: nat)
    requires IsRun(base, states) && n < |states| && i < |states[n].returned| && j < |states[n].returned|
    requires states[n].returned[i].until <= states[n].returned[j].born
    ensures states[n].returned[i].at < states[n].returned[j].at
  {
    Linearizable(base, states, n);
    assert Backed(states[n].events, states[n].returned[i]) && Backed(states[n].events, states[n].returned[j]);
  }

  lemma {:induction false} PutStays(base: Entries, events: seq<Event>, i: nat)
    requires i < |events| && events[i].Put?
    ensures events[i].entry.paymentId in Replayed(base, events)
  {
    if i != |events| - 1 {
      PutStays(base, events[..|events| - 1], i);
    }
  }

  /** So a lookup that begins after an insert under its id has returned finds an entry, whatever runs at the same
      time: what it returns is what the last insert before its own event stored. */
  lemma {:induction false} LookupFindsInsert(base: Entries, states: seq<State>, n: nat, i: nat, j: nat)
    requires IsRun(base, states) && n < |states| && i < |states[n].returned| && j < |states[n].returned|
    requires states[n].returned[i].until <= states[n].returned[j].born
    requires states[n].returned[i].op.Insert? && states[n].returned[j].op.Lookup?
    requires states[n].returned[i].op.entry.paymentId == states[n].returned[j].op.id
    ensures states[n].returned[j].found.Some?
    ensures states[n].returned[j].at <= |states[n].events|
    ensures states[n].returned[j].found ==
            TxOf(Replayed(base, states[n].events[..states[n].returned[j].at]), states[n].returned[j].op.id)
  {
    var events, a, b := states[n].events, states[n].returned[i], states[n].returned[j];
    Linearizable(base, states, n);
    RealTimeOrder(base, states, n, i, j);
    assert Backed(events, a) && Backed(events, b);
    assert events[..b.at][a.at] == events[a.at];
    PutStays(base, events[..b.at], a.at);
  }

  /** The latest insert under an id decides what a lookup finds. */
  lemma {:induction false} LatestWins(base: Entries, events: seq<Event>, i: nat, id: Id)
    requires i < |events| && events[i].Put? && events[i].entry.paymentId == id
    requires forall j :: i < j < |events| && events[j].Put? ==> events[j].entry.paymentId != id
    ensures TxOf(Replayed(base, events), id) == Some(events[i].entry.txHash)
  {
    if i != |events| - 1 {
      LatestWins(base, events[..|events| - 1], i, id);
    }
  }

  lemma {:induction false} FoundMeansInserted(events: seq<Event>, id: Id)
    ensures TxOf(Replayed(map[], events), id).Some? <==>
            exists i :: 0 <= i < |events| && events[i].Put? && events[i].entry.paymentId == id
  {
    if events != [] {
      var front, last := events[..|events| - 1], events[|events| - 1];
      FoundMeansInserted(front, id);
      if i :| 0 <= i < |front| && front[i].Put? && front[i].entry.paymentId == id {
        assert events[i] == front[i];
      }
      if last.Put? && last.entry.paymentId == id {
        assert events[|events| - 1] == last;
      }
    }
  }

  /** A lookup hits if and only if an earlier insert had the same chain, gateway, agent, order, amount and
      idempotency key, whatever the deadlines. */
  lemma {:induction false} HitIffSameInputs(events: seq<Event>, inputs: seq<Inputs>, i: nat, x: Inputs)
    requires Consistent(map[], events) && i < |events| == |inputs| && x.Fits()
    requires events[i].Get? && events[i].id == PaymentId(x)
    requires forall j :: 0 <= j < |events| && events[j].Put? ==>
               inputs[j].Fits() && events[j].entry.paymentId == PaymentId(inputs[j])
    ensures events[i].found.Some? <==> exists j :: 0 <= j < i && events[j].Put? && inputs[j] == x
  {
    var before := events[..i];
    FoundMeansInserted(before, PaymentId(x));
    forall j | 0 <= j < i && events[j].Put?
      ensures events[j].entry.paymentId == PaymentId(x) <==> inputs[j] == x
    {
      PaymentIdInjective(inputs[j], x);
    }
    if j :| 0 <= j < i && events[j].Put? && inputs[j] == x {
      assert before[j].Put? && before[j].entry.paymentId == PaymentId(x);
    }
    if j :| 0 <= j < |before| && before[j].Put? && before[j].entry.paymentId == PaymentId(x) {
      assert events[j].Put? && inputs[j] == x;
    }
  }

  /** The limit of the guarantee: a process that dies inside the write keeps it if and only if the file is blank
      and the cache was empty.  Otherwise every earlier insert is gone, or the file no longer parses. */
  lemma {:induction false} TornCrashIff(base: Entries, s: State, p: Pid, s': State)
    requires Inv(base, s) && TornCrash(s, p, s')
    ensures Inv(base, s') <==> s.file.Blank? && Replayed(base, s.events) == map[]
    ensures Load(s'.file) == Ok(map[]) || Load(s'.file) == Err
  {
    assert HoldsExclusive(StageOf(s, p));
    forall q
      ensures q != p ==> StageOf(s', q) == StageOf(s, q) && !HoldsLock(StageOf(s', q))
    {
    }
    assert !SomeoneWriting(s');
  }

  // ---------------------------------------------------------------- look up, then submit

  /** An id is not found exactly if neither the file nor an insert brought it. */
  lemma {:induction false} MissIff(base: Entries, events: seq<Event>, id: Id)
    ensures TxOf(Replayed(base, events), id).None? <==> id !in base && NeverPut(events, |events|, id)
  {
    if events != [] {
      var front := events[..|events| - 1];
      MissIff(base, front, id);
      assert NeverPut(events, |events|, id) <==>
             NeverPut(front, |front|, id) && !IsPut(events[|events| - 1], id) by {
        assert forall j :: 0 <= j < |front| ==> front[j] == events[j];
      }
    }
  }

  predicate IsPut(e: Event, id: Id) {
    e.Put? && e.entry.paymentId == id
  }

  /** None of the first `n` accesses inserts under `id`. */
  predicate NeverPut(events: seq<Event>, n: nat, id: Id) {
    n <= |events| && forall j :: 0 <= j < n ==> !IsPut(events[j], id)
  }

  /** A deposit looks its id up and submits if it finds nothing; its insert is another call.  Two deposits under one id
      both get to submit exactly if the id was not in the file and no insert under it took effect before the later of
      their two lookups. */
  lemma {:induction false} BothSubmitIff(base: Entries, states: seq<State>, n: nat, i: nat, j: nat, id: Id)
    requires IsRun(base, states) && n < |states| && i < |states[n].returned| && j < |states[n].returned|
    requires states[n].returned[i].op == states[n].returned[j].op == Lookup(id)
    requires states[n].returned[i].at <= states[n].returned[j].at
    ensures states[n].returned[i].found.None? && states[n].returned[j].found.None? <==>
            id !in base && NeverPut(states[n].events, states[n].returned[j].at, id)
  {
    var events, a, b := states[n].events, states[n].returned[i], states[n].returned[j];
    Linearizable(base, states, n);
    assert Backed(events, a) && Backed(events, b);
    assert events[a.at] == Get(id, a.found) && events[b.at] == Get(id, b.found);
    MissIff(base, events[..a.at], id);
    MissIff(base, events[..b.at], id);
    assert forall k :: 0 <= k < a.at ==> events[..a.at][k] == events[k];
    assert forall k :: 0 <= k < b.at ==> events[..b.at][k] == events[k];
  }

  // ---------------------------------------------------------------- runs, concretely

  function Last(states: seq<State>): State
    requires states != []
  {
    states[|states| - 1]
  }

  /** One more step. */
  lemma {:induction false} Extend(base: Entries, states: seq<State>, p: Pid, s: State)
    requires IsRun(base, states) && StepBy(Last(states), p, s)
    ensures IsRun(base, states + [s]) && Last(states + [s]) == s
  {
    var more := states + [s];
    forall i: nat | i + 1 < |more|
      ensures StepAt(more, i)
    {
      if i + 1 < |states| {
        assert StepAt(states, i);
      }
    }
  }

  /** A lookup while there is no file. */
  lemma {:induction false} LookupAbsent(base: Entries, states: seq<State>, p: Pid, id: Id) returns (more: seq<State>)
    requires IsRun(base, states) && Last(states).file.Missing? && StageOf(Last(states), p).Idle?
    ensures IsRun(base, more)
    ensures var s, n := Last(states), |Last(states).events|;
            Last(more) == State(Missing, s.stages[p := Idle], s.events + [Get(id, None)],
                                s.returned + [Return(Lookup(id), n, None, false, n, n + 1)])
  {
    var s, n := Last(states), |Last(states).events|;
    var s1 := At(s, p, Opening(Lookup(id), n));
    assert Call(s, p, Lookup(id), s1);
    Extend(base, states, p, s1);
    var s2 := State(Missing, s.stages[p := Idle], s.events + [Get(id, None)],
                    s.returned + [Return(Lookup(id), n, None, false, n, n + 1)]);
    assert s1.stages[p := Idle] == s.stages[p := Idle];
    assert Absent(s1, p, s2);
    more := states + [s1];
    Extend(base, more, p, s2);
    more := more + [s2];
  }

  ghost predicate Quiet(s: State) {
    forall q :: StageOf(s, q).Idle?
  }

  /** From the call of an insert to its locked file, which is created if there was none. */
  lemma {:induction false} InsertLocks(base: Entries, states: seq<State>, p: Pid, e: Entry) returns (more: seq<State>)
    requires IsRun(base, states) && Quiet(Last(states))
    ensures IsRun(base, more)
    ensures var s := Last(states);
            Last(more) == State(if s.file.Missing? then Blank else s.file,
                                s.stages[p := Locked(Insert(e), |s.events|)], s.events, s.returned)
  {
    var s, op := Last(states), Insert(e);
    var n := |s.events|;
    var s1 := At(s, p, Opening(op, n));
    assert Call(s, p, op, s1);
    Extend(base, states, p, s1);
    more := states + [s1];
    var file := if s.file.Missing? then Blank else s.file;
    var s2 := s1.(file := file);
    if s.file.Missing? {
      assert Create(s1, p, s2);
      Extend(base, more, p, s2);
      more := more + [s2];
    }
    var s3 := At(s2, p, Locked(op, n));
    forall q | q != p
      ensures !HoldsLock(StageOf(s2, q))
    {
      assert StageOf(s, q).Idle?;
    }
    assert Acquire(s2, p, s3);
    Extend(base, more, p, s3);
    more := more + [s3];
    assert s3.stages == s.stages[p := Locked(op, n)];
  }

  /** On to the truncated file. */
  lemma {:induction false} InsertTruncates(base: Entries, states: seq<State>, p: Pid, e: Entry, m: Entries)
    returns (more: seq<State>)
    requires IsRun(base, states) && Quiet(Last(states)) && Load(Last(states).file) == Ok(m)
    ensures IsRun(base, more)
    ensures var s := Last(states);
            Last(more) == State(Blank, s.stages[p := Writing(Insert(e), |s.events|, m[e.paymentId := e])], s.events,
                                s.returned)
  {
    var op, n, full := Insert(e), |Last(states).events|, m[e.paymentId := e];
    var stages := Last(states).stages;
    more := InsertLocks(base, states, p, e);
    var s := Last(more);
    var s1 := At(s, p, Loaded(op, n, full));
    assert LoadFile(s, p, s1);
    Extend(base, more, p, s1);
    more := more + [s1];
    var s2 := At(s1, p, Writing(op, n, full)).(file := Blank);
    assert Truncate(s1, p, s2);
    Extend(base, more, p, s2);
    more := more + [s2];
    assert s2.stages == stages[p := Writing(op, n, full)];
  }

  /** And to its return, with one entry in the file. */
  lemma {:induction false} InsertReturns(base: Entries, states: seq<State>, p: Pid, e: Entry, m: Entries)
    returns (more: seq<State>)
    requires IsRun(base, states) && Quiet(Last(states)) && Load(Last(states).file) == Ok(m)
    requires m[e.paymentId := e] == map[e.paymentId := e]
    ensures IsRun(base, more) && Quiet(Last(more))
    ensures var s, n := Last(states), |Last(states).events|;
            Last(more) == State(Json([e]), s.stages[p := Idle], s.events + [Put(e)],
                                s.returned + [Return(Insert(e), n, None, false, n, n + 1)])
    ensures Load(Last(more).file) == Ok(map[e.paymentId := e])
  {
    var s0, op := Last(states), Insert(e);
    var n := |s0.events|;
    more := InsertTruncates(base, states, p, e, m);
    var s := Last(more);
    OneEntryFile(e);
    var s1 := At(s, p, Finished(op, n, None, false, n)).(file := Json([e]), events := s.events + [Put(e)]);
    assert WriteAll(s, p, s1);
    Extend(base, more, p, s1);
    more := more + [s1];
    var s2 := At(s1, p, Idle).(returned := s1.returned + [Given(StageOf(s1, p), n + 1)]);
    assert Release(s1, p, s2);
    Extend(base, more, p, s2);
    more := more + [s2];
    assert s2.stages == s0.stages[p := Idle];
    forall q
      ensures StageOf(s2, q).Idle?
    {
      assert StageOf(s0, q).Idle?;
    }
  }

  lemma {:induction false} OneEntryFile(e: Entry)
    ensures IsFileOf([e], map[e.paymentId := e]) && Load(Json([e])) == Ok(map[e.paymentId := e])
  {
    var none: Entries := map[];
    assert [e][..0] == [];
    assert ToMap([e]) == none[e.paymentId := e];
  }

  /** A fresh cache: no file, no call. */
  function Fresh(): State {
    State(Missing, map[], [], [])
  }

  lemma {:induction false} FreshRun()
    ensures IsRun(map[], [Fresh()]) && Quiet(Fresh())
  {
  }

  /** One process inserts an entry, returns, and dies in its second insert: the first insert was given to its caller
      and is gone. */
  lemma {:induction false} TornWriteLoses(e: Entry, f: Entry) returns (states: seq<State>, after: State)
    ensures IsRun(map[], states) && TornCrash(Last(states), 0, after)
    ensures after.returned == [Return(Insert(e), 0, None, false, 0, 1)]
    ensures Load(after.file) == Ok(map[]) && e.paymentId in Replayed(map[], after.events)
  {
    FreshRun();
    states := InsertReturns(map[], [Fresh()], 0, e, map[]);
    var m: Entries := map[e.paymentId := e];
    states := InsertTruncates(map[], states, 0, f, m);
    after := At(Last(states), 0, Idle);
    assert after.events == [Put(e)] && after.events[..0] == [];
  }

  /** Two deposits with the same six inputs at the same time, neither of which fails: both find nothing, so both submit,
      and in the end the cache knows only the second transaction. */
  lemma {:induction false} SubmittedTwice(e: Entry, f: Entry) returns (states: seq<State>)
    requires e.paymentId == f.paymentId
    ensures IsRun(map[], states)
    ensures Last(states).returned == [Return(Lookup(e.paymentId), 0, None, false, 0, 1),
                                      Return(Lookup(e.paymentId), 1, None, false, 1, 2),
                                      Return(Insert(e), 2, None, false, 2, 3), Return(Insert(f), 3, None, false, 3, 4)]
    ensures Load(Last(states).file) == Ok(map[e.paymentId := f])
  {
    var id := e.paymentId;
    FreshRun();
    states := LookupAbsent(map[], [Fresh()], 0, id);
    states := LookupAbsent(map[], states, 1, id);
    states := InsertReturns(map[], states, 0, e, map[]);
    var m: Entries := map[id := e];
    assert m[id := f] == map[id := f];
    states := InsertReturns(map[], states, 1, f, m);
  }
}
