/**
  The reader/writer spin lock of rwlock.h and the versioned copies of lua-stm.c, for any number of threads.
  Every load, store and atomic operation on shared memory is one step; a run is any sequence of
  steps, each naming the thread that moves.
 */
module Stm {

  const NULL: int := -1

  /** What a thread wants the write lock for: `stm_update` with its new copy, or `stm_release`. */
  datatype Job = Update(made: int) | Close

  /** Where a thread is; the statement named is the next one it executes. */
  datatype Pc =
    | Idle
    | SpinRead                       // while (lock->write)
    | Enter                          // read += 1
    | Check                          // if (lock->write)
    | BackOff                        // read -= 1, and again
    | Reading                        // ret = obj->copy
    | Loaded(ret: int)               // ret->reference += 1
    | Counted(ret: int)              // runlock: read -= 1
    | Compare(ret: int)              // lread: against box->lastcopy
    | TestAndSet(job: Job)           // while (test_and_set(write))
    | Drain(job: Job)                // while (lock->read)
    | Writing(job: Job)              // oldcopy = obj->copy, or stm_releasecopy(obj->copy)
    | Swap(prior: int, made: int)     // obj->copy = copy
    | Clear                          // obj->copy = NULL
    | Unlock(prior: int)               // write = 0
    | ReleaseOld(prior: int)           // stm_releasecopy(oldcopy)

  /** `lastcopy` is the copy a reader box keeps between calls. */
  datatype Thread = Thread(pc: Pc, lastcopy: int)

  /** `refs` has the copies that are allocated; numbers from `next` on have not been used. */
  datatype State = State(write: bool, read: int, copy: int, refs: map<int, int>, next: int, threads: seq<Thread>)

  /** What an idle thread starts. */
  datatype Choice = StartRead | StartUpdate | StartClose | DropLast

  datatype Event = Event(t: nat, choice: Choice)

  function Init(n: nat): State {
    State(false, 0, 0, map[0 := 1], 1, seq(n, _ => Thread(Idle, NULL)))
  }

  function AddRef(refs: map<int, int>, c: int, d: int): map<int, int> {
    if c in refs then refs[c := refs[c] + d] else refs
  }

  /** `stm_releasecopy`: one reference less; without any, the copy is freed. */
  function ReleaseCopy(refs: map<int, int>, c: int): map<int, int> {
    if c == NULL || c !in refs then refs
    else if refs[c] == 1 then refs - {c} else refs[c := refs[c] - 1]
  }

  function Start(s: State, th: Thread, choice: Choice): (State, Thread) {
    match choice
    case StartRead => (s, th.(pc := SpinRead))
    case StartUpdate => (s.(refs := s.refs[s.next := 1], next := s.next + 1), th.(pc := TestAndSet(Update(s.next))))
    case StartClose => (s, th.(pc := TestAndSet(Close)))
    case DropLast => (s.(refs := ReleaseCopy(s.refs, th.lastcopy)), th.(lastcopy := NULL))
  }

  /** One statement of thread `th`; `s.threads` is left alone here. */
  function Move(s: State, th: Thread, choice: Choice): (State, Thread) {
    match th.pc
    case Idle => Start(s, th, choice)
    case SpinRead => (s, if s.write then th else th.(pc := Enter))
    case Enter => (s.(read := s.read + 1), th.(pc := Check))
    case Check => (s, th.(pc := if s.write then BackOff else Reading))
    case BackOff => (s.(read := s.read - 1), th.(pc := SpinRead))
    case Reading => (s, th.(pc := Loaded(s.copy)))
    case Loaded(ret) => (s.(refs := AddRef(s.refs, ret, 1)), th.(pc := Counted(ret)))
    case Counted(ret) => (s.(read := s.read - 1), th.(pc := Compare(ret)))
    case Compare(ret) =>
      if ret == th.lastcopy then (s.(refs := ReleaseCopy(s.refs, ret)), th.(pc := Idle))
      else (s.(refs := ReleaseCopy(s.refs, th.lastcopy)), Thread(Idle, ret))
    case TestAndSet(job) => (s.(write := true), if s.write then th else th.(pc := Drain(job)))
    case Drain(job) => (s, if s.read != 0 then th else th.(pc := Writing(job)))
    case Writing(job) =>
      (match job
       case Update(made) => (s, th.(pc := Swap(s.copy, made)))
       case Close => (s.(refs := ReleaseCopy(s.refs, s.copy)), th.(pc := Clear)))
    case Swap(prior, made) => (s.(copy := made), th.(pc := Unlock(prior)))
    case Clear => (s.(copy := NULL), th.(pc := Unlock(NULL)))
    case Unlock(prior) => (s.(write := false), th.(pc := ReleaseOld(prior)))
    case ReleaseOld(prior) => (s.(refs := ReleaseCopy(s.refs, prior)), th.(pc := Idle))
  }

  function Step(s: State, e: Event): State {
    if e.t < |s.threads| then
      var (s', th) := Move(s, s.threads[e.t], e.choice);
      s'.(threads := s.threads[e.t := th])
    else s
  }

  function After(n: nat, evs: seq<Event>): State {
    if evs == [] then Init(n) else Step(After(n, evs[..|evs| - 1]), evs[|evs| - 1])
  }

  // ---------------------------------------------------------------- counting over the threads

  /** Three things to count: entries in `read`, owners of the write flag, references to a copy. */
  datatype Measure = InRead | HasFlag | Refs(c: int)

  function One(b: bool): nat { if b then 1 else 0 }

  predicate InsideRead(pc: Pc) { pc.Reading? || pc.Loaded? || pc.Counted? }

  predicate InsideWrite(pc: Pc) { pc.Writing? || pc.Swap? || pc.Clear? || pc.Unlock? }

  /** References to copy `c` in the local variables of a thread at `pc`. */
  function PcRefs(pc: Pc, c: int): nat {
    match pc
    case Counted(ret) => One(ret == c)
    case Compare(ret) => One(ret == c)
    case TestAndSet(Update(made)) => One(made == c)
    case Drain(Update(made)) => One(made == c)
    case Writing(Update(made)) => One(made == c)
    case Swap(_, made) => One(made == c)
    case Unlock(prior) => One(prior == c)
    case ReleaseOld(prior) => One(prior == c)
    case _ => 0
  }

  function Weight(m: Measure, th: Thread): nat {
    match m
    case InRead => One(th.pc.Check? || th.pc.BackOff? || InsideRead(th.pc))
    case HasFlag => One(th.pc.Drain? || InsideWrite(th.pc))
    case Refs(c) => One(th.lastcopy == c) + PcRefs(th.pc, c)
  }

  function Total(ths: seq<Thread>, m: Measure): nat {
    if ths == [] then 0 else Total(ths[..|ths| - 1], m) + Weight(m, ths[|ths| - 1])
  }

  lemma {:induction false} TotalUpdate(ths: seq<Thread>, m: Measure, t: nat, th: Thread)
    requires t < |ths|
    ensures Total(ths[t := th], m) == Total(ths, m) - Weight(m, ths[t]) + Weight(m, th)
  {
    var n := |ths| - 1;
    if t == n {
      assert ths[t := th][..n] == ths[..n];
    } else {
      assert ths[t := th][..n] == ths[..n][t := th];
      TotalUpdate(ths[..n], m, t, th);
    }
  }

  lemma {:induction false} TotalAtLeast(ths: seq<Thread>, m: Measure, t: nat)
    requires t < |ths|
    ensures Total(ths, m) >= Weight(m, ths[t])
  {
    var n := |ths| - 1;
    if t < n {
      TotalAtLeast(ths[..n], m, t);
    }
  }

  lemma {:induction false} TotalTwo(ths: seq<Thread>, m: Measure, t: nat, u: nat)
    requires t < u < |ths|
    ensures Total(ths, m) >= Weight(m, ths[t]) + Weight(m, ths[u])
  {
    var n := |ths| - 1;
    if u < n {
      TotalTwo(ths[..n], m, t, u);
    } else {
      TotalAtLeast(ths[..n], m, t);
    }
  }

  lemma {:induction false} TotalZero(ths: seq<Thread>, m: Measure)
    requires forall i :: 0 <= i < |ths| ==> Weight(m, ths[i]) == 0
    ensures Total(ths, m) == 0
  {
    if ths != [] {
      TotalZero(ths[..|ths| - 1], m);
    }
  }

  /** The object's own reference: none while its copy is being cleared. */
  function ObjRefs(s: State, c: int): nat {
    One(s.copy == c && !exists i :: 0 <= i < |s.threads| && s.threads[i].pc.Clear?)
  }

  /** Who holds copy `c`: the object, reader boxes, and calls under way. */
  function Holders(s: State, c: int): nat {
    ObjRefs(s, c) + Total(s.threads, Refs(c))
  }

  // ---------------------------------------------------------------- the lock

  /** The two fields count what they should, and nobody reads while somebody writes. */
  ghost predicate LockOk(s: State) {
    && s.read == Total(s.threads, InRead)
    && Total(s.threads, HasFlag) == One(s.write)
    && (forall i, j :: 0 <= i < |s.threads| && 0 <= j < |s.threads| && InsideWrite(s.threads[i].pc) ==>
          !InsideRead(s.threads[j].pc))
  }

  /** What a statement does to the lock, seen from outside the thread that executes it. */
  lemma MoveLock(s: State, th: Thread, choice: Choice)
    ensures var (s', th') := Move(s, th, choice);
      && s'.threads == s.threads
      && s'.read - s.read == Weight(InRead, th') as int - Weight(InRead, th)
      && (Weight(HasFlag, th) == Weight(HasFlag, th') ==> s'.write == s.write)
      && (Weight(HasFlag, th) == 0 && Weight(HasFlag, th') == 1 ==> !s.write && s'.write)
      && (Weight(HasFlag, th) == 1 && Weight(HasFlag, th') == 0 ==> !s'.write)
      && (InsideRead(th'.pc) && !InsideRead(th.pc) ==> !s.write)
      && (InsideWrite(th'.pc) && !InsideWrite(th.pc) ==> s.read == 0 && th.pc.Drain?)
  {
  }

  lemma StepLock(s: State, e: Event)
    requires LockOk(s)
    ensures LockOk(Step(s, e))
  {
    if e.t < |s.threads| {
      hide Move, Weight;
      var th := s.threads[e.t];
      var (s1, th') := Move(s, th, e.choice);
      var s' := Step(s, e);
      MoveLock(s, th, e.choice);
      TotalUpdate(s.threads, InRead, e.t, th');
      TotalUpdate(s.threads, HasFlag, e.t, th');
      TotalAtLeast(s.threads, HasFlag, e.t);
      WeightRange(th);
      WeightRange(th');
      assert s'.read == Total(s'.threads, InRead);
      assert Total(s'.threads, HasFlag) == One(s'.write);
      forall i, j | 0 <= i < |s'.threads| && 0 <= j < |s'.threads| && InsideWrite(s'.threads[i].pc)
        ensures !InsideRead(s'.threads[j].pc)
      {
        NoOverlap(s, e.t, th', i, j);
      }
    }
  }

  lemma WeightRange(th: Thread)
    ensures Weight(InRead, th) <= 1 && Weight(HasFlag, th) <= 1
    ensures InsideRead(th.pc) ==> Weight(InRead, th) == 1
    ensures InsideWrite(th.pc) ==> Weight(HasFlag, th) == 1
    ensures InsideWrite(th.pc) ==> !InsideRead(th.pc)
  {
  }

  lemma NoOverlap(s: State, t: nat, th': Thread, i: nat, j: nat)
    requires LockOk(s) && t < |s.threads| && i < |s.threads| && j < |s.threads|
    requires InsideRead(th'.pc) && !InsideRead(s.threads[t].pc) ==> !s.write
    requires InsideWrite(th'.pc) && !InsideWrite(s.threads[t].pc) ==> s.read == 0
    requires InsideWrite(s.threads[t := th'][i].pc)
    ensures !InsideRead(s.threads[t := th'][j].pc)
  {
    hide Weight;
    WeightRange(s.threads[i]);
    WeightRange(s.threads[j]);
    WeightRange(th');
    TotalAtLeast(s.threads, HasFlag, i);
    TotalAtLeast(s.threads, InRead, j);
  }

  // ---------------------------------------------------------------- the copies

  function Ref(refs: map<int, int>, c: int): int { if c in refs then refs[c] else 0 }

  /** Every count is the number of holders; what is not allocated is not held. */
  ghost predicate Counts(s: State) {
    && s.next >= 0 && NULL !in s.refs
    && (forall c :: c in s.refs ==> s.refs[c] > 0 && c < s.next)
    && (forall c :: c != NULL ==> Ref(s.refs, c) == Holders(s, c))
  }

  /** Whoever has looked at `obj->copy` under the lock still sees it there. */
  ghost predicate Current(s: State) {
    forall i :: 0 <= i < |s.threads| ==> SeesCurrent(s.threads[i].pc, s.copy)
  }

  predicate SeesCurrent(pc: Pc, copy: int) {
    match pc
    case Loaded(ret) => ret == copy
    case Counted(ret) => ret == copy
    case Swap(prior, _) => prior == copy
    case _ => true
  }

  lemma MoveCopy(s: State, th: Thread, choice: Choice)
    ensures var (s', th') := Move(s, th, choice);
      && (s'.copy != s.copy ==> InsideWrite(th.pc) && InsideWrite(th'.pc))
      && (SeesCurrent(th.pc, s.copy) ==> SeesCurrent(th'.pc, s'.copy))
  {
  }

  lemma StepCurrent(s: State, e: Event)
    requires LockOk(s) && Current(s)
    ensures Current(Step(s, e))
  {
    if e.t < |s.threads| {
      hide Move;
      var th := s.threads[e.t];
      var (s1, th') := Move(s, th, e.choice);
      MoveLock(s, th, e.choice);
      MoveCopy(s, th, e.choice);
      var s' := Step(s, e);
      forall i | 0 <= i < |s'.threads|
        ensures SeesCurrent(s'.threads[i].pc, s'.copy)
      {
        if i != e.t && s'.copy != s.copy {
          OnlyWriter(s, e.t, i);
        }
      }
    }
  }

  /** Beside a thread inside the write lock nobody else is inside at all. */
  lemma OnlyWriter(s: State, t: nat, i: nat)
    requires LockOk(s) && t < |s.threads| && i < |s.threads| && i != t && InsideWrite(s.threads[t].pc)
    ensures !InsideWrite(s.threads[i].pc) && !InsideRead(s.threads[i].pc)
  {
    hide Weight;
    WeightRange(s.threads[i]);
    WeightRange(s.threads[t]);
    if i < t {
      TotalTwo(s.threads, HasFlag, i, t);
    } else {
      TotalTwo(s.threads, HasFlag, t, i);
    }
  }

  /** The references of one thread and of the object that this thread can see. */
  function Seen(s: State, th: Thread, other: bool, c: int): nat {
    One(s.copy == c && !other && !th.pc.Clear?) + Weight(Refs(c), th)
  }

  predicate Sound(refs: map<int, int>, next: int) {
    NULL !in refs && next >= 0 && forall c :: c in refs ==> refs[c] > 0 && c < next
  }

  /** A statement changes each count as it changes the references; `other` says that another thread is clearing. */
  ghost predicate Balanced(s: State, th: Thread, s': State, th': Thread, other: bool) {
    && Sound(s'.refs, s'.next)
    && forall c :: c != NULL ==> Ref(s'.refs, c) - Ref(s.refs, c) == Seen(s', th', other, c) as int - Seen(s, th, other, c)
  }

  lemma ReleaseRef(refs: map<int, int>, next: int, c: int)
    requires Sound(refs, next) && (c == NULL || Ref(refs, c) > 0)
    ensures Sound(ReleaseCopy(refs, c), next)
    ensures forall x :: x != NULL ==> Ref(ReleaseCopy(refs, c), x) == Ref(refs, x) - One(x == c)
  {
  }

  lemma AddOneRef(refs: map<int, int>, next: int, c: int)
    requires Sound(refs, next) && (c == NULL || Ref(refs, c) > 0)
    ensures Sound(AddRef(refs, c, 1), next)
    ensures forall x :: x != NULL ==> Ref(AddRef(refs, c, 1), x) == Ref(refs, x) + One(x == c)
  {
  }

  lemma MoveBalanced(s: State, th: Thread, choice: Choice, other: bool)
    requires Sound(s.refs, s.next) && forall c :: c != NULL ==> Ref(s.refs, c) >= Seen(s, th, other, c)
    requires SeesCurrent(th.pc, s.copy) && (InsideWrite(th.pc) || InsideRead(th.pc) ==> !other)
    ensures var (s', th') := Move(s, th, choice); Balanced(s, th, s', th', other)
  {
    hide Move, Seen, Sound, Balanced;
    match th.pc
    case Idle => StartBalanced(s, th, choice, other);
    case Loaded(_) => CountBalanced(s, th, choice, other);
    case Compare(_) => ReleaseBalanced(s, th, choice, other);
    case Writing(_) => WritingBalanced(s, th, choice, other);
    case ReleaseOld(_) => ReleaseBalanced(s, th, choice, other);
    case _ => QuietBalanced(s, th, choice, other);
  }

  lemma StartBalanced(s: State, th: Thread, choice: Choice, other: bool)
    requires th.pc.Idle?
    requires Sound(s.refs, s.next) && forall c :: c != NULL ==> Ref(s.refs, c) >= Seen(s, th, other, c)
    requires SeesCurrent(th.pc, s.copy) && (InsideWrite(th.pc) || InsideRead(th.pc) ==> !other)
    ensures var (s', th') := Move(s, th, choice); Balanced(s, th, s', th', other)
  {
    assert th.lastcopy != NULL ==> Ref(s.refs, th.lastcopy) >= Seen(s, th, other, th.lastcopy);
    if choice.DropLast? {
      ReleaseRef(s.refs, s.next, th.lastcopy);
      hide ReleaseCopy;
    }
  }

  lemma CountBalanced(s: State, th: Thread, choice: Choice, other: bool)
    requires th.pc.Loaded?
    requires Sound(s.refs, s.next) && forall c :: c != NULL ==> Ref(s.refs, c) >= Seen(s, th, other, c)
    requires SeesCurrent(th.pc, s.copy) && (InsideWrite(th.pc) || InsideRead(th.pc) ==> !other)
    ensures var (s', th') := Move(s, th, choice); Balanced(s, th, s', th', other)
  {
    var ret := th.pc.ret;
    assert ret != NULL ==> Ref(s.refs, ret) >= Seen(s, th, other, ret);
    AddOneRef(s.refs, s.next, ret);
    hide AddRef, Ref, Sound;
  }

  lemma ReleaseBalanced(s: State, th: Thread, choice: Choice, other: bool)
    requires th.pc.Compare? || th.pc.ReleaseOld?
    requires Sound(s.refs, s.next) && forall c :: c != NULL ==> Ref(s.refs, c) >= Seen(s, th, other, c)
    requires SeesCurrent(th.pc, s.copy) && (InsideWrite(th.pc) || InsideRead(th.pc) ==> !other)
    ensures var (s', th') := Move(s, th, choice); Balanced(s, th, s', th', other)
  {
    var c := if th.pc.Compare? then th.lastcopy else th.pc.prior;
    assert c != NULL ==> Ref(s.refs, c) >= Seen(s, th, other, c);
    ReleaseRef(s.refs, s.next, c);
    hide ReleaseCopy, Ref, Sound;
  }

  lemma WritingBalanced(s: State, th: Thread, choice: Choice, other: bool)
    requires th.pc.Writing?
    requires Sound(s.refs, s.next) && forall c :: c != NULL ==> Ref(s.refs, c) >= Seen(s, th, other, c)
    requires SeesCurrent(th.pc, s.copy) && (InsideWrite(th.pc) || InsideRead(th.pc) ==> !other)
    ensures var (s', th') := Move(s, th, choice); Balanced(s, th, s', th', other)
  {
    if th.pc.job.Close? {
      assert s.copy != NULL ==> Ref(s.refs, s.copy) >= Seen(s, th, other, s.copy);
      ReleaseRef(s.refs, s.next, s.copy);
      hide ReleaseCopy, Ref, Sound;
    }
  }

  lemma QuietBalanced(s: State, th: Thread, choice: Choice, other: bool)
    requires !th.pc.Idle? && !th.pc.Loaded? && !th.pc.Compare? && !th.pc.Writing? && !th.pc.ReleaseOld?
    requires Sound(s.refs, s.next) && forall c :: c != NULL ==> Ref(s.refs, c) >= Seen(s, th, other, c)
    requires SeesCurrent(th.pc, s.copy) && (InsideWrite(th.pc) || InsideRead(th.pc) ==> !other)
    ensures var (s', th') := Move(s, th, choice); Balanced(s, th, s', th', other)
  {
    hide Ref, Sound, ReleaseCopy, AddRef;
  }

  predicate OtherClearing(ths: seq<Thread>, t: nat) {
    exists i :: 0 <= i < |ths| && i != t && ths[i].pc.Clear?
  }

  lemma HoldersBy(s: State, t: nat, c: int)
    requires t < |s.threads|
    ensures Holders(s, c) == Total(s.threads, Refs(c)) - Weight(Refs(c), s.threads[t]) + Seen(s, s.threads[t], OtherClearing(s.threads, t), c)
  {
    hide Weight;
    var ths := s.threads;
    assert (exists i :: 0 <= i < |ths| && ths[i].pc.Clear?) <==> OtherClearing(ths, t) || ths[t].pc.Clear?;
  }

  lemma StepCounts(s: State, e: Event)
    requires LockOk(s) && Current(s) && Counts(s)
    ensures Counts(Step(s, e))
  {
    if e.t < |s.threads| {
      hide Move, Weight, Holders, Seen, Sound, ReleaseCopy;
      var th := s.threads[e.t];
      var (s1, th') := Move(s, th, e.choice);
      var s' := Step(s, e);
      MoveLock(s, th, e.choice);
      var other := OtherClearing(s.threads, e.t);
      SameOthers(s.threads, e.t, th');
      forall c
        ensures Holders(s, c) >= Seen(s, th, other, c)
        ensures Holders(s', c) - Holders(s, c) == Seen(s1, th', other, c) as int - Seen(s, th, other, c)
      {
        HoldersBy(s, e.t, c);
        HoldersBy(s', e.t, c);
        TotalUpdate(s.threads, Refs(c), e.t, th');
        TotalAtLeast(s.threads, Refs(c), e.t);
        SeenSame(s1, s', th', other, c);
      }
      CountsSound(s);
      assert SeesCurrent(th.pc, s.copy);
      Alone(s, e.t);
      MoveBalanced(s, th, e.choice, other);
      SoundCounts(s');
    }
  }

  lemma SeenSame(s: State, s': State, th: Thread, other: bool, c: int)
    requires s.copy == s'.copy
    ensures Seen(s, th, other, c) == Seen(s', th, other, c)
  {
  }

  lemma SameOthers(ths: seq<Thread>, t: nat, th: Thread)
    requires t < |ths|
    ensures OtherClearing(ths[t := th], t) == OtherClearing(ths, t)
  {
    assert forall i :: 0 <= i < |ths| && i != t ==> ths[t := th][i] == ths[i];
  }

  lemma Alone(s: State, t: nat)
    requires LockOk(s) && t < |s.threads|
    ensures InsideWrite(s.threads[t].pc) || InsideRead(s.threads[t].pc) ==> !OtherClearing(s.threads, t)
  {
    if InsideWrite(s.threads[t].pc) {
      forall i | 0 <= i < |s.threads| && i != t
        ensures !s.threads[i].pc.Clear?
      {
        OnlyWriter(s, t, i);
      }
    }
  }

  lemma CountsSound(s: State)
    requires Counts(s)
    ensures Sound(s.refs, s.next) && forall c :: c != NULL ==> Ref(s.refs, c) == Holders(s, c)
  {
  }

  lemma SoundCounts(s: State)
    requires Sound(s.refs, s.next) && forall c :: c != NULL ==> Ref(s.refs, c) == Holders(s, c)
    ensures Counts(s)
  {
  }

  // ---------------------------------------------------------------- every run

  ghost predicate Invariant(s: State) {
    LockOk(s) && Current(s) && Counts(s)
  }

  lemma InitOk(n: nat)
    ensures Invariant(Init(n))
  {
    var s := Init(n);
    TotalZero(s.threads, InRead);
    TotalZero(s.threads, HasFlag);
    forall c | c != NULL
      ensures Ref(s.refs, c) == Holders(s, c)
    {
      TotalZero(s.threads, Refs(c));
    }
  }

  lemma {:induction false} Always(n: nat, evs: seq<Event>)
    ensures Invariant(After(n, evs)) && |After(n, evs).threads| == n
  {
    if evs == [] {
      InitOk(n);
    } else {
      var s, e := After(n, evs[..|evs| - 1]), evs[|evs| - 1];
      Always(n, evs[..|evs| - 1]);
      StepLock(s, e);
      StepCurrent(s, e);
      StepCounts(s, e);
    }
  }

  /** Exclusion: a writer inside the lock is alone with it. */
  lemma Exclusion(n: nat, evs: seq<Event>, t: nat, i: nat)
    requires t < n && i < n && i != t
    ensures |After(n, evs).threads| == n
    ensures var ths := After(n, evs).threads;
      InsideWrite(ths[t].pc) ==> !InsideWrite(ths[i].pc) && !InsideRead(ths[i].pc)
  {
    Always(n, evs);
    var s := After(n, evs);
    if InsideWrite(s.threads[t].pc) {
      OnlyWriter(s, t, i);
    }
  }

  /** A copy's count is the number of its holders, and it is allocated exactly as long as it has one. */
  lemma CopyLifetime(n: nat, evs: seq<Event>, c: int)
    requires c != NULL
    ensures var s := After(n, evs);
      && (c in s.refs <==> Holders(s, c) > 0)
      && (c in s.refs ==> s.refs[c] == Holders(s, c))
  {
    Always(n, evs);
  }

  /** No statement touches a copy that has been freed. */
  lemma NoDanglingUse(n: nat, evs: seq<Event>, t: nat)
    requires t < n
    ensures |After(n, evs).threads| == n
    ensures var s := After(n, evs);
      forall c :: c in Touches(s, s.threads[t]) && c != NULL ==> c in s.refs
  {
    Always(n, evs);
    var s := After(n, evs);
    var th := s.threads[t];
    forall c | c in Touches(s, th) && c != NULL
      ensures c in s.refs
    {
      HoldersBy(s, t, c);
      TotalAtLeast(s.threads, Refs(c), t);
      Alone(s, t);
      assert SeesCurrent(th.pc, s.copy);
    }
  }

  /** The copies whose counts the next statement of a thread may access, and the one it may keep. */
  function Touches(s: State, th: Thread): set<int> {
    match th.pc
    case Idle => {th.lastcopy}
    case Loaded(ret) => {ret}
    case Compare(ret) => {ret, th.lastcopy}
    case Writing(Close) => {s.copy}
    case ReleaseOld(prior) => {prior}
    case _ => {}
  }

  /** A read that is about to return has the copy that was current at a step inside its own lock. */
  ghost predicate TookAt(n: nat, evs: seq<Event>, t: nat, ret: int, i: nat) {
    && i <= |evs|
    && (var s := After(n, evs[..i]); t < |s.threads| && s.threads[t].pc == Reading && s.copy == ret)
    && (forall j :: i < j <= |evs| ==>
          var s := After(n, evs[..j]);
          t < |s.threads| && s.threads[t].pc in {Reading, Loaded(ret), Counted(ret), Compare(ret)})
  }

  lemma TookAtNext(n: nat, evs: seq<Event>, t: nat, ret: int, i: nat)
    requires evs != [] && TookAt(n, evs[..|evs| - 1], t, ret, i) && t < |After(n, evs).threads|
    requires After(n, evs).threads[t].pc in {Loaded(ret), Counted(ret), Compare(ret)}
    ensures TookAt(n, evs, t, ret, i)
  {
    hide After;
    var m := |evs| - 1;
    assert evs[..|evs|] == evs;
    assert forall j :: 0 <= j <= m ==> evs[..m][..j] == evs[..j];
  }

  lemma {:induction false} ReadIsCurrent(n: nat, evs: seq<Event>, t: nat, ret: int) returns (i: nat)
    requires t < n == |After(n, evs).threads|
    requires After(n, evs).threads[t].pc in {Loaded(ret), Counted(ret), Compare(ret)}
    ensures TookAt(n, evs, t, ret, i)
  {
    if evs == [] {
      assert false;
    } else {
      var m := |evs| - 1;
      var s := After(n, evs[..m]);
      Always(n, evs[..m]);
      assert After(n, evs) == Step(s, evs[m]);
      CameFrom(s, evs[m], t, ret);
      hide Step, After, TookAt;
      if s.threads[t].pc == Reading {
        i := m;
        TookNow(n, evs, t, ret);
      } else {
        i := ReadIsCurrent(n, evs[..m], t, ret);
        TookAtNext(n, evs, t, ret, i);
      }
    }
  }

  lemma TookNow(n: nat, evs: seq<Event>, t: nat, ret: int)
    requires evs != [] && t < |After(n, evs[..|evs| - 1]).threads| && t < |After(n, evs).threads|
    requires After(n, evs[..|evs| - 1]).threads[t].pc == Reading && After(n, evs[..|evs| - 1]).copy == ret
    requires After(n, evs).threads[t].pc in {Loaded(ret), Counted(ret), Compare(ret)}
    ensures TookAt(n, evs, t, ret, |evs| - 1)
  {
    assert evs[..|evs|] == evs;
  }

  lemma CameFrom(s: State, e: Event, t: nat, ret: int)
    requires t < |s.threads|
    requires Step(s, e).threads[t].pc in {Loaded(ret), Counted(ret), Compare(ret)}
    ensures (s.threads[t].pc == Reading && s.copy == ret) || s.threads[t].pc in {Loaded(ret), Counted(ret), Compare(ret)}
  {
  }

  // ---------------------------------------------------------------- what is stored, told by the program counters

  /** How many updates have been begun; the copy of the `k`-th is number `k`, the initial one being 0. */
  function Begun(n: nat, evs: seq<Event>): nat {
    if evs == [] then 0
    else
      var m := |evs| - 1;
      var s := After(n, evs[..m]);
      Begun(n, evs[..m]) +
      One(evs[m].t < |s.threads| && s.threads[evs[m].t].pc.Idle? && evs[m].choice.StartUpdate?)
  }

  /** The copy that thread `t` brought along when it last began an update. */
  function Made(n: nat, evs: seq<Event>, t: nat): int {
    if evs == [] then NULL
    else
      var m := |evs| - 1;
      var s := After(n, evs[..m]);
      if evs[m].t == t < |s.threads| && s.threads[t].pc.Idle? && evs[m].choice.StartUpdate?
      then Begun(n, evs) else Made(n, evs[..m], t)
  }

  /** The copy put there by the last store to `obj->copy`: of an update, or of a close. */
  function Stored(n: nat, evs: seq<Event>): int {
    if evs == [] then 0
    else
      var m := |evs| - 1;
      var s := After(n, evs[..m]);
      if evs[m].t >= |s.threads| then Stored(n, evs[..m])
      else
        match s.threads[evs[m].t].pc
        case Swap(_, _) => Made(n, evs[..m], evs[m].t)
        case Clear => NULL
        case _ => Stored(n, evs[..m])
  }

  /** The copy that an update carries on its way to the store. */
  function Carries(pc: Pc): int {
    match pc
    case TestAndSet(Update(made)) => made
    case Drain(Update(made)) => made
    case Writing(Update(made)) => made
    case Swap(_, made) => made
    case _ => NULL
  }

  predicate Updating(pc: Pc) {
    pc.Swap? || ((pc.TestAndSet? || pc.Drain? || pc.Writing?) && pc.job.Update?)
  }

  lemma CarriesStep(s: State, th: Thread, choice: Choice)
    ensures var (s', th') := Move(s, th, choice);
      && s'.next == s.next + One(th.pc.Idle? && choice.StartUpdate?)
      && (Updating(th'.pc) <==> (Updating(th.pc) && !th.pc.Swap?) || (th.pc.Idle? && choice.StartUpdate?))
      && (Updating(th'.pc) ==> Carries(th'.pc) == if th.pc.Idle? then s.next else Carries(th.pc))
      && s'.copy == (if th.pc.Swap? then Carries(th.pc) else if th.pc.Clear? then NULL else s.copy)
  {
  }

  lemma {:induction false} CarriesMade(n: nat, evs: seq<Event>, t: nat)
    requires t < n
    ensures var s := After(n, evs);
      && |s.threads| == n && s.next == 1 + Begun(n, evs)
      && (Updating(s.threads[t].pc) ==> Carries(s.threads[t].pc) == Made(n, evs, t))
  {
    if evs != [] {
      var m := |evs| - 1;
      CarriesMade(n, evs[..m], t);
      var s, e := After(n, evs[..m]), evs[m];
      if e.t < n {
        CarriesStep(s, s.threads[e.t], e.choice);
      }
      hide Move, Updating, Carries;
    }
  }

  /** An update takes effect: in every run the current copy is the one stored last. */
  lemma {:induction false} CopyIsStored(n: nat, evs: seq<Event>)
    ensures After(n, evs).copy == Stored(n, evs)
  {
    if evs != [] {
      var m := |evs| - 1;
      CopyIsStored(n, evs[..m]);
      var s, e := After(n, evs[..m]), evs[m];
      if e.t < |s.threads| {
        Always(n, evs[..m]);
        CarriesMade(n, evs[..m], e.t);
        CarriesStep(s, s.threads[e.t], e.choice);
        StepCopy(s, e);
      }
      hide Move, Step, Invariant, Made, Carries;
    }
  }

  lemma StepCopy(s: State, e: Event)
    requires e.t < |s.threads|
    ensures Step(s, e).copy == Move(s, s.threads[e.t], e.choice).0.copy
  {
  }

  // ---------------------------------------------------------------- calls that have returned

  /** Thread `t` began a call at step `k` and has been in it until now. */
  ghost predicate InCall(n: nat, evs: seq<Event>, t: nat, k: nat, choice: Choice) {
    && k < |evs| && evs[k] == Event(t, choice) && t < n
    && PcIs(n, evs, k, t, true)
    && forall j :: k < j < |evs| ==> PcIs(n, evs, j, t, false)
  }

  predicate PcIs(n: nat, evs: seq<Event>, k: nat, t: nat, idle: bool) {
    && k <= |evs| && t < |After(n, evs[..k]).threads| && After(n, evs[..k]).threads[t].pc.Idle? == idle
  }

  lemma InCallBefore(n: nat, evs: seq<Event>, t: nat, k: nat, choice: Choice)
    requires InCall(n, evs, t, k, choice) && k < |evs| - 1
    ensures InCall(n, evs[..|evs|-1], t, k, choice) && evs[..|evs|-1][..k+1] == evs[..k+1]
  {
    hide After;
    var m := |evs| - 1;
    assert evs[..m][..k + 1] == evs[..k + 1] && evs[..m][..k] == evs[..k];
    assert PcIs(n, evs[..m], k, t, true);
    forall j | k < j < m
      ensures PcIs(n, evs[..m], j, t, false)
    {
      assert PcIs(n, evs, j, t, false);
      assert evs[..m][..j] == evs[..j];
    }
  }

  /** What the writing call begun at step `k` brings: the copy of its update, or NULL for a close. */
  function Brings(n: nat, evs: seq<Event>, k: nat): int
    requires k < |evs|
  {
    if evs[k].choice.StartUpdate? then Begun(n, evs[..k + 1]) else NULL
  }

  /** Step `i` is the store of thread `u`, and stores `c`. */
  ghost predicate StoresAt(n: nat, evs: seq<Event>, u: nat, i: nat, c: int) {
    && i < |evs| && evs[i].t == u
    && (var s := After(n, evs[..i]); u < |s.threads| && (s.threads[u].pc.Swap? || s.threads[u].pc.Clear?))
    && Stored(n, evs[..i + 1]) == c
  }

  /** A writer on its way to the store, with `c` to be stored. */
  predicate OnWay(pc: Pc, c: int) {
    if Updating(pc) then Carries(pc) == c
    else (pc.Clear? || ((pc.TestAndSet? || pc.Drain? || pc.Writing?) && pc.job.Close?)) && c == NULL
  }

  predicate PastStore(pc: Pc) {
    pc.Unlock? || pc.ReleaseOld? || pc.Idle?
  }

  lemma OnWayStep(s: State, th: Thread, choice: Choice, c: int)
    ensures var (_, th') := Move(s, th, choice);
      && (OnWay(th.pc, c) && !th.pc.Swap? && !th.pc.Clear? ==> OnWay(th'.pc, c))
      && (th.pc.Swap? || th.pc.Clear? || th.pc.Unlock? || th.pc.ReleaseOld? ==> PastStore(th'.pc))
      && (th.pc.Idle? && choice.StartUpdate? ==> OnWay(th'.pc, s.next))
      && (th.pc.Idle? && choice.StartClose? ==> OnWay(th'.pc, NULL))
  {
  }

  lemma StoreHere(n: nat, evs: seq<Event>, u: nat, c: int)
    requires evs != [] && evs[|evs|-1].t == u < n
    requires var s := After(n, evs[..|evs|-1]);
      |s.threads| == n && (s.threads[u].pc.Swap? || s.threads[u].pc.Clear?) && OnWay(s.threads[u].pc, c)
    ensures StoresAt(n, evs, u, |evs| - 1, c)
  {
    CarriesMade(n, evs[..|evs|-1], u);
    hide After, Made, Begun;
    assert evs[..|evs|-1 + 1] == evs;
  }

  lemma StoresBefore(n: nat, evs: seq<Event>, u: nat, i: nat, c: int)
    requires evs != [] && StoresAt(n, evs[..|evs|-1], u, i, c)
    ensures StoresAt(n, evs, u, i, c)
  {
    var m := |evs| - 1;
    assert evs[..m][..i] == evs[..i] && evs[..m][..i + 1] == evs[..i + 1];
    hide After, Stored;
  }

  /** Where a writing call is: still on its way, or past a store of what it brought. */
  lemma {:induction false} WritePath(n: nat, evs: seq<Event>, u: nat, k: nat, choice: Choice) returns (i: nat)
    requires InCall(n, evs, u, k, choice) && (choice.StartUpdate? || choice.StartClose?)
    ensures u < |After(n, evs).threads|
    ensures var pc := After(n, evs).threads[u].pc;
      OnWay(pc, Brings(n, evs, k)) || (PastStore(pc) && k < i && StoresAt(n, evs, u, i, Brings(n, evs, k)))
    decreases |evs|
  {
    hide InCall, OnWay, PastStore, StoresAt, Brings, Begun;
    InCallNow(n, evs, u, k, choice);
    var m := |evs| - 1;
    var s, e := After(n, evs[..m]), evs[m];
    Always(n, evs[..m]);
    var c := Brings(n, evs, k);
    OnWayStep(s, s.threads[u], e.choice, c);
    StepThread(s, e, u);
    hide Invariant, After, Step, Move;
    i := 0;
    if m == k {
      FirstStep(n, evs, u);
    } else {
      InCallBefore(n, evs, u, k, choice);
      i := WritePath(n, evs[..m], u, k, choice);
      assert Brings(n, evs[..m], k) == c by { SameBrings(n, evs, k); }
      if PastStore(s.threads[u].pc) && StoresAt(n, evs[..m], u, i, c) {
        StoresBefore(n, evs, u, i, c);
        NotIdleAgain(s.threads[u].pc);
      } else if e.t == u && (s.threads[u].pc.Swap? || s.threads[u].pc.Clear?) {
        StoreHere(n, evs, u, c);
        i := m;
      }
    }
  }

  lemma NotIdleAgain(pc: Pc)
    requires PastStore(pc) && !pc.Idle?
    ensures pc.Unlock? || pc.ReleaseOld?
  {
  }

  lemma SameBrings(n: nat, evs: seq<Event>, k: nat)
    requires k < |evs| - 1
    ensures Brings(n, evs[..|evs|-1], k) == Brings(n, evs, k)
  {
    assert evs[..|evs|-1][..k + 1] == evs[..k + 1];
  }

  lemma FirstStep(n: nat, evs: seq<Event>, u: nat)
    requires evs != [] && evs[|evs|-1].t == u < n
    requires var s := After(n, evs[..|evs|-1]); |s.threads| == n && s.threads[u].pc.Idle?
    ensures var s := After(n, evs[..|evs|-1]);
      evs[|evs|-1].choice.StartUpdate? ==> Brings(n, evs, |evs| - 1) == s.next
    ensures !evs[|evs|-1].choice.StartUpdate? ==> Brings(n, evs, |evs| - 1) == NULL
  {
    CarriesMade(n, evs[..|evs|-1], u);
    hide After;
    assert evs[..|evs|-1 + 1] == evs;
  }

  lemma StepThread(s: State, e: Event, u: nat)
    requires u < |s.threads|
    ensures |Step(s, e).threads| == |s.threads|
    ensures Step(s, e).threads[u] == if e.t == u then Move(s, s.threads[u], e.choice).1 else s.threads[u]
  {
    hide Move;
  }

  lemma InCallNow(n: nat, evs: seq<Event>, t: nat, k: nat, choice: Choice)
    requires InCall(n, evs, t, k, choice)
    ensures k <= |evs| - 1 && t < n && t < |After(n, evs[..|evs|-1]).threads|
    ensures After(n, evs[..|evs|-1]).threads[t].pc.Idle? <==> k == |evs| - 1
    ensures k == |evs| - 1 ==> evs[|evs|-1] == Event(t, choice)
  {
    hide After;
    if k < |evs| - 1 {
      assert PcIs(n, evs, |evs| - 1, t, false);
    }
  }

  /**
    An update or a close that has returned has stored: at one of its steps the copy it brought, and none else,
    became the current one.
   */
  lemma WriteStores(n: nat, evs: seq<Event>, u: nat, k: nat, choice: Choice) returns (i: nat)
    requires InCall(n, evs, u, k, choice) && (choice.StartUpdate? || choice.StartClose?)
    requires PcIs(n, evs, |evs|, u, true)
    ensures k < i && StoresAt(n, evs, u, i, Brings(n, evs, k))
  {
    hide InCall, After, Brings, StoresAt;
    i := WritePath(n, evs, u, k, choice);
    assert evs[..|evs|] == evs;
  }

  predicate OnRead(pc: Pc) {
    pc.SpinRead? || pc.Enter? || pc.Check? || pc.BackOff? || pc.Reading? || pc.Loaded? || pc.Counted? || pc.Compare?
  }

  lemma OnReadStep(s: State, th: Thread, choice: Choice)
    ensures var (_, th') := Move(s, th, choice);
      && (OnRead(th.pc) && !th.pc.Compare? ==> OnRead(th'.pc))
      && (th.pc.Compare? ==> th' == Thread(Idle, th.pc.ret))
      && (th.pc.Idle? && choice.StartRead? ==> OnRead(th'.pc))
  {
  }

  lemma {:induction false} ReadPath(n: nat, evs: seq<Event>, t: nat, k: nat)
    requires InCall(n, evs, t, k, StartRead)
    ensures t < |After(n, evs).threads|
    ensures OnRead(After(n, evs).threads[t].pc) || After(n, evs).threads[t].pc.Idle?
    decreases |evs|
  {
    hide InCall, OnRead;
    InCallNow(n, evs, t, k, StartRead);
    var m := |evs| - 1;
    var s, e := After(n, evs[..m]), evs[m];
    Always(n, evs[..m]);
    OnReadStep(s, s.threads[t], e.choice);
    StepThread(s, e, t);
    if m > k {
      InCallBefore(n, evs, t, k, StartRead);
      ReadPath(n, evs[..m], t, k);
    }
    hide Invariant, After, Step, Move;
  }

  /** A read that has returned leaves in its box the copy that was stored last at one moment of the call. */
  lemma ReadTakes(n: nat, evs: seq<Event>, t: nat, k: nat) returns (i: nat)
    requires InCall(n, evs, t, k, StartRead) && PcIs(n, evs, |evs|, t, true)
    ensures k < i < |evs| && t < |After(n, evs).threads|
    ensures After(n, evs).threads[t].lastcopy == Stored(n, evs[..i])
  {
    hide InCall, OnRead, Stored;
    InCallNow(n, evs, t, k, StartRead);
    var m := |evs| - 1;
    var s, e := After(n, evs[..m]), evs[m];
    Always(n, evs[..m]);
    assert evs[..|evs|] == evs;
    OnReadStep(s, s.threads[t], e.choice);
    StepThread(s, e, t);
    assert After(n, evs) == Step(s, e);
    hide Invariant, After, Step, Move;
    OnReadBusy(Move(s, s.threads[t], e.choice).1.pc);
    InCallBefore(n, evs, t, k, StartRead);
    ReadPath(n, evs[..m], t, k);
    var ret := s.threads[t].pc.ret;
    i := ReadIsCurrent(n, evs[..m], t, ret);
    BeganBefore(n, evs[..m], t, k, ret, i);
    assert evs[..m][..i] == evs[..i];
    CopyIsStored(n, evs[..i]);
  }

  lemma OnReadBusy(pc: Pc)
    ensures OnRead(pc) ==> !pc.Idle?
  {
  }

  /** The moment at which the copy was taken lies in the call. */
  lemma BeganBefore(n: nat, evs: seq<Event>, t: nat, k: nat, ret: int, i: nat)
    requires InCall(n, evs, t, k, StartRead) && TookAt(n, evs, t, ret, i)
    ensures k < i <= |evs| && After(n, evs[..i]).copy == ret
  {
    hide After;
    assert PcIs(n, evs, k, t, true);
  }

  /**
    No stale reads: a read begun when an update had returned delivers what that update stored or what was stored
    after it, never an older copy.
   */
  lemma NeverOlder(n: nat, evs: seq<Event>, u: nat, a: nat, b: nat, t: nat, k: nat) returns (i: nat, j: nat)
    requires b <= k < |evs|
    requires InCall(n, evs[..b], u, a, StartUpdate) && PcIs(n, evs[..b], b, u, true)
    requires InCall(n, evs, t, k, StartRead) && PcIs(n, evs, |evs|, t, true)
    ensures a < i < j < |evs| && t < |After(n, evs).threads|
    ensures StoresAt(n, evs, u, i, Begun(n, evs[..a + 1])) && After(n, evs).threads[t].lastcopy == Stored(n, evs[..j])
  {
    i := WriteStores(n, evs[..b], u, a, StartUpdate);
    j := ReadTakes(n, evs, t, k);
    assert evs[..b][..i] == evs[..i] && evs[..b][..i + 1] == evs[..i + 1] && evs[..b][..a + 1] == evs[..a + 1];
    hide After, Begun, Stored, PcIs;
  }

  // ---------------------------------------------------------------- calls that are not disturbed

  /** `k` steps of one thread in a row. */
  function Solo(s: State, e: Event, k: nat): State {
    if k == 0 then s else Step(Solo(s, e, k - 1), e)
  }

  lemma StepAs(s: State, t: nat, th: Thread, choice: Choice)
    requires t < |s.threads|
    ensures var (s', th') := Move(s, th, choice);
      Step(s.(threads := s.threads[t := th]), Event(t, choice)) == s'.(threads := s.threads[t := th'])
  {
    var r := s.(threads := s.threads[t := th]);
    var (s', th') := Move(s, th, choice);
    assert Move(r, th, choice) == (s'.(threads := r.threads), th');
    hide Move;
    assert s.threads[t := th][t := th'] == s.threads[t := th'];
  }

  lemma SoloOne(s: State, e: Event)
    ensures Solo(s, e, 1) == Step(s, e)
  {
    assert Solo(s, e, 0) == s;
  }

  lemma {:induction false} SoloConcat(s: State, e: Event, j: nat, k: nat)
    ensures Solo(s, e, j + k) == Solo(Solo(s, e, j), e, k)
  {
    hide Step;
    if k > 0 {
      SoloConcat(s, e, j, k - 1);
    }
  }

  lemma SoloTwo(s: State, e: Event)
    ensures Solo(s, e, 2) == Step(Step(s, e), e)
  {
    hide Step;
    SoloOne(s, e);
  }

  lemma SoloFour(s: State, e: Event)
    ensures Solo(s, e, 4) == Step(Step(Step(Step(s, e), e), e), e)
  {
    hide Step;
    SoloConcat(s, e, 2, 2);
    SoloTwo(s, e);
    SoloTwo(Solo(s, e, 2), e);
  }

  /** An undisturbed read leaves the current copy in the box, with one count more, and the last one with one less. */
  lemma SoloRead(s: State, t: nat)
    requires t < |s.threads| && s.threads[t].pc.Idle? && !s.write
    ensures Solo(s, Event(t, StartRead), 8)
         == s.(refs := ReleaseCopy(AddRef(s.refs, s.copy, 1), s.threads[t].lastcopy),
               threads := s.threads[t := Thread(Idle, s.copy)])
  {
    var last := s.threads[t].lastcopy;
    assert s.threads[t := s.threads[t]] == s.threads;
    var r := s.(read := s.read + 1);
    SoloEnters(s, t, last);
    SoloTakes(r, t, last);
    hide Solo, ReleaseCopy, AddRef;
    SoloConcat(s, Event(t, StartRead), 4, 4);
  }

  lemma SoloEnters(s: State, t: nat, last: int)
    requires t < |s.threads| && !s.write
    ensures Solo(s.(threads := s.threads[t := Thread(Idle, last)]), Event(t, StartRead), 4)
         == s.(read := s.read + 1, threads := s.threads[t := Thread(Reading, last)])
  {
    SoloFour(s.(threads := s.threads[t := Thread(Idle, last)]), Event(t, StartRead));
    hide Step, Solo;
    StepAs(s, t, Thread(Idle, last), StartRead);
    StepAs(s, t, Thread(SpinRead, last), StartRead);
    StepAs(s, t, Thread(Enter, last), StartRead);
    StepAs(s.(read := s.read + 1), t, Thread(Check, last), StartRead);
  }

  lemma SoloTakes(s: State, t: nat, last: int)
    requires t < |s.threads|
    ensures Solo(s.(threads := s.threads[t := Thread(Reading, last)]), Event(t, StartRead), 4)
         == s.(refs := ReleaseCopy(AddRef(s.refs, s.copy, 1), last), read := s.read - 1,
               threads := s.threads[t := Thread(Idle, s.copy)])
  {
    SoloFour(s.(threads := s.threads[t := Thread(Reading, last)]), Event(t, StartRead));
    hide Step, Solo, ReleaseCopy, AddRef;
    var c := s.copy;
    StepAs(s, t, Thread(Reading, last), StartRead);
    StepAs(s, t, Thread(Loaded(c), last), StartRead);
    var q := s.(refs := AddRef(s.refs, c, 1));
    StepAs(q, t, Thread(Counted(c), last), StartRead);
    StepAs(q.(read := s.read - 1), t, Thread(Compare(c), last), StartRead);
  }

  lemma SoloLocked(s: State, t: nat, job: Job, last: int, choice: Choice)
    requires t < |s.threads| && !s.write && s.read == 0
    ensures Solo(s.(threads := s.threads[t := Thread(TestAndSet(job), last)]), Event(t, choice), 2)
         == s.(write := true, threads := s.threads[t := Thread(Writing(job), last)])
  {
    SoloTwo(s.(threads := s.threads[t := Thread(TestAndSet(job), last)]), Event(t, choice));
    hide Step, Solo;
    StepAs(s, t, Thread(TestAndSet(job), last), choice);
    StepAs(s.(write := true), t, Thread(Drain(job), last), choice);
  }

  lemma SoloUnlocked(s: State, t: nat, prior: int, last: int, choice: Choice)
    requires t < |s.threads|
    ensures Solo(s.(threads := s.threads[t := Thread(Unlock(prior), last)]), Event(t, choice), 2)
         == s.(write := false, refs := ReleaseCopy(s.refs, prior), threads := s.threads[t := Thread(Idle, last)])
  {
    SoloTwo(s.(threads := s.threads[t := Thread(Unlock(prior), last)]), Event(t, choice));
    hide Step, Solo, ReleaseCopy;
    StepAs(s, t, Thread(Unlock(prior), last), choice);
    StepAs(s.(write := false), t, Thread(ReleaseOld(prior), last), choice);
  }

  lemma SoloSwaps(s: State, t: nat, made: int, last: int)
    requires t < |s.threads|
    ensures Solo(s.(threads := s.threads[t := Thread(Writing(Update(made)), last)]), Event(t, StartUpdate), 2)
         == s.(copy := made, threads := s.threads[t := Thread(Unlock(s.copy), last)])
  {
    SoloTwo(s.(threads := s.threads[t := Thread(Writing(Update(made)), last)]), Event(t, StartUpdate));
    hide Step, Solo;
    StepAs(s, t, Thread(Writing(Update(made)), last), StartUpdate);
    StepAs(s, t, Thread(Swap(s.copy, made), last), StartUpdate);
  }

  lemma SoloParts(s: State, e: Event)
    ensures Solo(s, e, 7) == Solo(Solo(Solo(Solo(s, e, 1), e, 2), e, 2), e, 2)
  {
    hide Solo;
    SoloConcat(s, e, 1, 2);
    SoloConcat(s, e, 3, 2);
    SoloConcat(s, e, 5, 2);
  }

  /** An undisturbed update puts its new copy in place of the current one, which loses the object's reference. */
  lemma SoloUpdate(s: State, t: nat)
    requires t < |s.threads| && s.threads[t].pc.Idle? && !s.write && s.read == 0
    ensures Solo(s, Event(t, StartUpdate), 7)
         == s.(copy := s.next, next := s.next + 1, refs := ReleaseCopy(s.refs[s.next := 1], s.copy))
  {
    hide Step, ReleaseCopy, Solo;
    var e, last, job := Event(t, StartUpdate), s.threads[t].lastcopy, Update(s.next);
    assert s.threads[t := s.threads[t]] == s.threads;
    StepAs(s, t, Thread(Idle, last), StartUpdate);
    SoloOne(s, e);
    var r := s.(next := s.next + 1, refs := s.refs[s.next := 1]);
    SoloLocked(r, t, job, last, StartUpdate);
    var w := r.(write := true);
    SoloSwaps(w, t, s.next, last);
    SoloUnlocked(w.(copy := s.next), t, s.copy, last, StartUpdate);
    SoloParts(s, e);
  }

  /** An undisturbed close leaves no current copy. */
  lemma SoloClose(s: State, t: nat)
    requires t < |s.threads| && s.threads[t].pc.Idle? && !s.write && s.read == 0
    ensures Solo(s, Event(t, StartClose), 7) == s.(copy := NULL, refs := ReleaseCopy(s.refs, s.copy))
  {
    hide Step, Solo;
    var e, last := Event(t, StartClose), s.threads[t].lastcopy;
    assert s.threads[t := s.threads[t]] == s.threads;
    StepAs(s, t, Thread(Idle, last), StartClose);
    SoloOne(s, e);
    SoloLocked(s, t, Close, last, StartClose);
    var w := s.(write := true);
    var v := w.(refs := ReleaseCopy(s.refs, s.copy));
    assert ReleaseCopy(v.refs, NULL) == v.refs;
    hide ReleaseCopy;
    StepAs(w, t, Thread(Writing(Close), last), StartClose);
    StepAs(v, t, Thread(Clear, last), StartClose);
    SoloTwo(w.(threads := s.threads[t := Thread(Writing(Close), last)]), e);
    SoloUnlocked(v.(copy := NULL), t, NULL, last, StartClose);
    SoloParts(s, e);
  }
}
