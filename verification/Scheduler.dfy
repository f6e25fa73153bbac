/**
  The actor scheduler of skynet_mq.c, skynet_server.c and skynet_handle.c as a transition system: any
  number of services and threads, one step per lock region or atomic operation.  A service is a handle
  slot, a reference-counted context and a message queue; a handle is never reused, so one number names
  all three.
 */
module Scheduler {

  /** What a thread does once it has dropped a reference. */
  datatype Next =
    | Done
    | ThenHold(q: nat)     // go on with queue q
    | ThenSet              // creator: mark the context initialised if it survived
    | ThenLaunch           // creator: push the queue of the new service
    | ThenRetire           // creator after a failed init
    | ThenEnd              // creator after retiring: skynet_mq_release

  /** A message and the service it came from. */
  datatype Message = Message(source: nat, tag: nat)

  datatype Pc =
    | Free
    | Sending(c: nat, m: Message)        // context grabbed, message not pushed yet
    | Releasing(c: nat, next: Next)      // about to drop a reference
    | Deleting(c: nat, next: Next)       // dropped the last one, about to mark the queue
    | Initing(c: nat)                    // creator inside the module's init
    | Setting(c: nat)
    | Launching(c: nat, alive: bool)     // about to push the queue; `alive`: its release returned non-NULL
    | Logging(c: nat)                    // about to call skynet_error(ret, "LAUNCH ...")
    | Naming(c: nat)                     // back in cmd_launch, about to read inst->handle
    | Retiring(c: nat)
    | Ending(q: nat)                     // about to call skynet_mq_release
    | Holding(q: nat)                    // worker with a queue
    | Running(q: nat, popped: bool)      // worker with a queue and a grabbed context
    | Parting(q: nat, nq: nat)           // worker that took nq and must push q back
    | Dropping(q: nat)                   // inside _drop_queue

  /** One service.  `pushed`, `dispatched`, `dropped` and `replies` (where error replies went) are histories. */
  datatype Service = Service(
    inSlot: bool, ref: int, init: bool,
    msgs: seq<Message>, inGlobal: bool, release: bool, freed: bool,
    pushed: seq<Message>, dispatched: seq<Message>, dropped: seq<Message>, replies: seq<nat>)

  datatype State = State(svcs: seq<Service>, global: seq<nat>, ts: seq<Pc>)

  datatype Event =
    | Create(i: nat)
    | InitDone(i: nat, ok: bool)
    | Send(i: nat, c: nat, m: Message)
    | Retire(i: nat, c: nat)
    | TakeQueue(i: nat)
    | Pop(i: nat)
    | Finish(i: nat)
    | Go(i: nat)

  function Init(n: nat): State {
    State([], [], seq(n, i => Free))
  }

  function Resume(c: nat, n: Next): Pc {
    match n
    case Done => Free
    case ThenHold(q) => Holding(q)
    case ThenSet => Setting(c)
    case ThenLaunch => Launching(c, false)
    case ThenRetire => Retiring(c)
    case ThenEnd => Ending(c)
  }

  /** `skynet_context_release` returned NULL: the creator no longer touches the context. */
  function Orphaned(n: Next): Next {
    if n.ThenSet? then ThenLaunch else n
  }

  // ---------------------------------------------------------------- what a thread owns

  function HoldsNext(c: nat, n: Next, q: nat): nat {
    match n
    case Done => 0
    case ThenHold(x) => if x == q then 1 else 0
    case _ => if c == q then 1 else 0
  }

  /** How many times the thread owns queue `q`, that is, must push or park it. */
  function Holds(p: Pc, q: nat): nat {
    match p
    case Free => 0
    case Sending(_, _) => 0
    case Releasing(c, n) => HoldsNext(c, n, q)
    case Deleting(c, n) => HoldsNext(c, n, q)
    case Initing(c) => if c == q then 1 else 0
    case Setting(c) => if c == q then 1 else 0
    case Launching(c, _) => if c == q then 1 else 0
    case Logging(_) => 0
    case Naming(_) => 0
    case Retiring(c) => if c == q then 1 else 0
    case Ending(x) => if x == q then 1 else 0
    case Holding(x) => if x == q then 1 else 0
    case Running(x, _) => if x == q then 1 else 0
    case Parting(x, y) => (if x == q then 1 else 0) + (if y == q then 1 else 0)
    case Dropping(x) => if x == q then 1 else 0
  }

  /** References to context `c` that the thread must still release. */
  function Refs(p: Pc, c: nat): nat {
    match p
    case Sending(x, _) => if x == c then 1 else 0
    case Releasing(x, _) => if x == c then 1 else 0
    case Initing(x) => if x == c then 1 else 0
    case Running(x, _) => if x == c then 1 else 0
    case Parting(x, _) => if x == c then 1 else 0
    case _ => 0
  }

  function Dels(p: Pc, c: nat): nat {
    if p.Deleting? && p.c == c then 1 else 0
  }

  /** The creator is still before the point where it has either set `init` or retired the handle. */
  function Makes(p: Pc, c: nat): nat {
    match p
    case Initing(x) => if x == c then 1 else 0
    case Setting(x) => if x == c then 1 else 0
    case Retiring(x) => if x == c then 1 else 0
    case Releasing(x, n) => if (n.ThenSet? || n.ThenRetire?) && x == c then 1 else 0
    case Deleting(x, n) => if n.ThenRetire? && x == c then 1 else 0
    case _ => 0
  }

  function Drops(p: Pc, q: nat): nat {
    if p.Dropping? && p.q == q then 1 else 0
  }

  /** The thread is dispatching messages of `q`. */
  function Runs(p: Pc, q: nat): nat {
    if p.Running? && p.q == q then 1 else 0
  }

  function Sum(ts: seq<Pc>, f: Pc -> nat): nat {
    if ts == [] then 0 else Sum(ts[..|ts|-1], f) + f(ts[|ts|-1])
  }

  lemma {:induction false} SumUpdate(ts: seq<Pc>, i: nat, x: Pc, f: Pc -> nat)
    requires i < |ts|
    ensures Sum(ts[i := x], f) == Sum(ts, f) - f(ts[i]) + f(x)
    ensures f(ts[i]) <= Sum(ts, f)
  {
    var init := ts[..|ts|-1];
    if i == |ts| - 1 {
      assert ts[i := x][..|ts|-1] == init;
    } else {
      SumUpdate(init, i, x, f);
      assert ts[i := x][..|ts|-1] == init[i := x];
    }
  }

  lemma {:induction false} SumTwo(ts: seq<Pc>, i: nat, j: nat, f: Pc -> nat)
    requires i < j < |ts|
    ensures f(ts[i]) + f(ts[j]) <= Sum(ts, f)
  {
    var init := ts[..|ts|-1];
    if j == |ts| - 1 {
      SumUpdate(init, i, ts[i], f);
    } else {
      SumTwo(init, i, j, f);
    }
  }

  lemma {:induction false} SumGap(ts: seq<Pc>, i: nat, f: Pc -> nat, g: Pc -> nat)
    requires i < |ts| && forall p :: f(p) <= g(p)
    ensures Sum(ts, f) + g(ts[i]) - f(ts[i]) <= Sum(ts, g)
  {
    var init := ts[..|ts|-1];
    if i == |ts| - 1 {
      SumBelow(init, f, g);
    } else {
      SumGap(init, i, f, g);
      assert f(ts[|ts|-1]) <= g(ts[|ts|-1]);
    }
  }

  lemma {:induction false} SumBelow(ts: seq<Pc>, f: Pc -> nat, g: Pc -> nat)
    requires forall p :: f(p) <= g(p)
    ensures Sum(ts, f) <= Sum(ts, g)
  {
    if ts != [] {
      SumBelow(ts[..|ts|-1], f, g);
      assert f(ts[|ts|-1]) <= g(ts[|ts|-1]);
    }
  }

  lemma {:induction false} SumZero(ts: seq<Pc>, f: Pc -> nat)
    requires forall i :: 0 <= i < |ts| ==> f(ts[i]) == 0
    ensures Sum(ts, f) == 0
  {
    if ts != [] {
      SumZero(ts[..|ts|-1], f);
    }
  }

  function HoldsOf(q: nat): Pc -> nat { (p: Pc) => Holds(p, q) }
  function RefsOf(c: nat): Pc -> nat { (p: Pc) => Refs(p, c) }
  function DelsOf(c: nat): Pc -> nat { (p: Pc) => Dels(p, c) }
  function MakesOf(c: nat): Pc -> nat { (p: Pc) => Makes(p, c) }
  function DropsOf(q: nat): Pc -> nat { (p: Pc) => Drops(p, q) }
  function RunsOf(q: nat): Pc -> nat { (p: Pc) => Runs(p, q) }

  function Count(g: seq<nat>, q: nat): nat {
    if g == [] then 0 else Count(g[..|g|-1], q) + if g[|g|-1] == q then 1 else 0
  }

  lemma {:induction false} CountHead(g: seq<nat>, q: nat)
    requires g != []
    ensures Count(g, q) == Count(g[1..], q) + if g[0] == q then 1 else 0
  {
    var init := g[..|g|-1];
    if init != [] {
      CountHead(init, q);
      assert g[1..][..|g|-2] == init[1..];
    } else {
      assert g[1..] == [];
    }
  }

  // ---------------------------------------------------------------- steps

  function NewService(): Service {
    Service(true, 2, false, [], true, false, false, [], [], [], [])
  }

  predicate Idle(s: State, i: nat) {
    i < |s.ts| && s.ts[i].Free?
  }

  predicate Can(s: State, e: Event) {
    match e
    case Create(i) => Idle(s, i)
    case InitDone(i, _) => i < |s.ts| && s.ts[i].Initing?
    case Send(i, c, _) => Idle(s, i) && c < |s.svcs| && s.svcs[c].inSlot
    case Retire(i, c) => Idle(s, i) && c < |s.svcs| && s.svcs[c].inSlot
    case TakeQueue(i) => Idle(s, i) && s.global != []
    case Pop(i) => i < |s.ts| && s.ts[i].Running? && s.ts[i].q < |s.svcs|
    case Finish(i) => i < |s.ts| && s.ts[i].Running? && s.ts[i].popped
    case Go(i) =>
      i < |s.ts| &&
      match s.ts[i]
      case Sending(c, _) => c < |s.svcs|
      case Releasing(c, _) => c < |s.svcs|
      case Deleting(c, _) => c < |s.svcs|
      case Setting(c) => c < |s.svcs|
      case Launching(_, _) => true
      case Logging(c) => c < |s.svcs|
      case Naming(c) => c < |s.svcs|
      case Retiring(c) => c < |s.svcs|
      case Ending(q) => q < |s.svcs|
      case Holding(q) => q < |s.svcs|
      case Parting(_, _) => true
      case Dropping(q) => q < |s.svcs|
      case _ => false
  }

  function With(s: State, i: nat, p: Pc, c: nat, v: Service): State
    requires i < |s.ts| && c < |s.svcs|
  {
    s.(ts := s.ts[i := p], svcs := s.svcs[c := v])
  }

  /** skynet_mq_push. */
  function PushStep(s: State, i: nat, c: nat, m: Message): State
    requires i < |s.ts| && c < |s.svcs|
  {
    var v := s.svcs[c];
    With(s, i, Releasing(c, Done), c, v.(msgs := v.msgs + [m], pushed := v.pushed + [m], inGlobal := true))
    .(global := if v.inGlobal then s.global else s.global + [c])
  }

  /** ATOM_DEC of ctx->ref. */
  function ReleaseStep(s: State, i: nat, c: nat, n: Next): State
    requires i < |s.ts| && c < |s.svcs|
  {
    var v := s.svcs[c];
    With(s, i, if v.ref == 1 then Deleting(c, Orphaned(n)) else Resume(c, n), c, v.(ref := v.ref - 1))
  }

  /** skynet_mq_mark_release; note that it does not raise in_global. */
  function MarkStep(s: State, i: nat, c: nat, n: Next): State
    requires i < |s.ts| && c < |s.svcs|
  {
    var v := s.svcs[c];
    With(s, i, Resume(c, n), c, v.(release := true))
    .(global := if v.inGlobal then s.global else s.global + [c])
  }

  /** skynet_mq_pop by a dispatching worker. */
  function PopStep(s: State, i: nat, q: nat): State
    requires i < |s.ts| && q < |s.svcs|
  {
    var v := s.svcs[q];
    if v.msgs != [] then
      With(s, i, Running(q, true), q, v.(msgs := v.msgs[1..], dispatched := v.dispatched + [v.msgs[0]]))
    else
      With(s, i, Releasing(q, Done), q, v.(inGlobal := false))
  }

  /** One round of _drop_queue; drop_message reports an error to the source of the message. */
  function DropStep(s: State, i: nat, q: nat): State
    requires i < |s.ts| && q < |s.svcs|
  {
    var v := s.svcs[q];
    if v.msgs != [] then
      With(s, i, Dropping(q), q, v.(msgs := v.msgs[1..], dropped := v.dropped + [v.msgs[0]],
                                     replies := v.replies + [v.msgs[0].source]))
    else
      With(s, i, Free, q, v.(inGlobal := false, freed := true))
  }

  /** skynet_handle_grab by a worker that has a queue. */
  function GrabStep(s: State, i: nat, q: nat): State
    requires i < |s.ts| && q < |s.svcs|
  {
    if s.svcs[q].inSlot then With(s, i, Running(q, false), q, s.svcs[q].(ref := s.svcs[q].ref + 1))
    else s.(ts := s.ts[i := Ending(q)])
  }

  function GoStep(s: State, i: nat): State
    requires Can(s, Go(i))
  {
    match s.ts[i]
    case Sending(c, m) => PushStep(s, i, c, m)
    case Releasing(c, n) => ReleaseStep(s, i, c, n)
    case Deleting(c, n) => MarkStep(s, i, c, n)
    case Setting(c) =>
      With(s, i, Launching(c, true), c, if s.svcs[c].ref > 0 then s.svcs[c].(init := true) else s.svcs[c])
    case Launching(c, alive) => s.(ts := s.ts[i := if alive then Logging(c) else Free], global := s.global + [c])
    case Logging(c) => s.(ts := s.ts[i := Naming(c)])
    case Naming(_) => s.(ts := s.ts[i := Free])
    case Retiring(c) =>
      if s.svcs[c].inSlot then With(s, i, Releasing(c, ThenEnd), c, s.svcs[c].(inSlot := false))
      else s.(ts := s.ts[i := Ending(c)])
    case Ending(q) =>
      if s.svcs[q].release then s.(ts := s.ts[i := Dropping(q)])
      else s.(ts := s.ts[i := Free], global := s.global + [q])
    case Holding(q) => GrabStep(s, i, q)
    case Parting(q, nq) => s.(ts := s.ts[i := Releasing(q, ThenHold(nq))], global := s.global + [q])
    case Dropping(q) => DropStep(s, i, q)
  }

  function Do(s: State, e: Event): State
    requires Can(s, e)
  {
    match e
    case Create(i) => State(s.svcs + [NewService()], s.global, s.ts[i := Initing(|s.svcs|)])
    case InitDone(i, ok) =>
      var c := s.ts[i].c;
      s.(ts := s.ts[i := Releasing(c, if ok then ThenSet else ThenRetire)])
    case Send(i, c, m) => With(s, i, Sending(c, m), c, s.svcs[c].(ref := s.svcs[c].ref + 1))
    case Retire(i, c) => With(s, i, Releasing(c, Done), c, s.svcs[c].(inSlot := false))
    case TakeQueue(i) => s.(global := s.global[1..], ts := s.ts[i := Holding(s.global[0])])
    case Pop(i) => PopStep(s, i, s.ts[i].q)
    case Finish(i) =>
      var q := s.ts[i].q;
      if s.global == [] then s.(ts := s.ts[i := Releasing(q, ThenHold(q))])
      else s.(global := s.global[1..], ts := s.ts[i := Parting(q, s.global[0])])
    case Go(i) => GoStep(s, i)
  }

  function Step(s: State, e: Event): State {
    if Can(s, e) then Do(s, e) else s
  }

  function After(n: nat, evs: seq<Event>): State {
    if evs == [] then Init(n) else Step(After(n, evs[..|evs|-1]), evs[|evs|-1])
  }

  // ---------------------------------------------------------------- the invariant

  /** References, queue ownerships (run queue included), deletions and creations in progress for a service. */
  datatype Tally = Tally(refs: nat, held: nat, dels: nat, makes: nat, drops: nat, runs: nat)

  function TallyOf(s: State, c: nat): Tally {
    Tally(Sum(s.ts, RefsOf(c)), Count(s.global, c) + Sum(s.ts, HoldsOf(c)), Sum(s.ts, DelsOf(c)),
          Sum(s.ts, MakesOf(c)), Sum(s.ts, DropsOf(c)), Sum(s.ts, RunsOf(c)))
  }

  function Sources(ms: seq<Message>): seq<nat> {
    seq(|ms|, i requires 0 <= i < |ms| => ms[i].source)
  }

  lemma SourcesNext(ms: seq<Message>, m: Message)
    ensures Sources(ms + [m]) == Sources(ms) + [m.source]
  {
  }

  /** How a service and its tally agree. */
  predicate Consistent(v: Service, t: Tally) {
    && v.ref == (if v.inSlot then 1 else 0) + t.refs
    && t.held == (if !v.freed && (v.inGlobal || v.release) then 1 else 0)
    && t.dels == (if v.ref == 0 && !v.release then 1 else 0)
    && (v.release ==> v.ref == 0)
    && (v.freed ==> v.release && v.msgs == [])
    && (!v.inGlobal && !v.release ==> v.msgs == [])
    && v.pushed == v.dispatched + v.dropped + v.msgs
    && v.replies == Sources(v.dropped)
    && (v.dropped != [] || t.drops > 0 ==> v.release)
    && (v.inSlot && t.makes == 0 ==> v.init)
    && (t.runs > 0 ==> v.init)
  }

  /** A number that names no service yet occurs nowhere. */
  predicate Ok(s: State, c: nat) {
    if c < |s.svcs| then Consistent(s.svcs[c], TallyOf(s, c)) else TallyOf(s, c) == Tally(0, 0, 0, 0, 0, 0)
  }

  ghost predicate Inv(s: State) {
    forall c: nat :: Ok(s, c)
  }

  lemma Retally(s: State, i: nat, x: Pc, c: nat)
    requires i < |s.ts|
    ensures var p, t := s.ts[i], TallyOf(s, c);
      && Refs(p, c) <= t.refs && Holds(p, c) <= t.held - Count(s.global, c)
      && Dels(p, c) <= t.dels && Makes(p, c) <= t.makes && Drops(p, c) <= t.drops
      && Runs(p, c) <= t.runs
      && Sum(s.ts[i := x], RefsOf(c)) == t.refs - Refs(p, c) + Refs(x, c)
      && Sum(s.ts[i := x], HoldsOf(c)) == t.held - Count(s.global, c) - Holds(p, c) + Holds(x, c)
      && Sum(s.ts[i := x], DelsOf(c)) == t.dels - Dels(p, c) + Dels(x, c)
      && Sum(s.ts[i := x], MakesOf(c)) == t.makes - Makes(p, c) + Makes(x, c)
      && Sum(s.ts[i := x], DropsOf(c)) == t.drops - Drops(p, c) + Drops(x, c)
      && Sum(s.ts[i := x], RunsOf(c)) == t.runs - Runs(p, c) + Runs(x, c)
  {
    SumUpdate(s.ts, i, x, RefsOf(c));
    SumUpdate(s.ts, i, x, HoldsOf(c));
    SumUpdate(s.ts, i, x, DelsOf(c));
    SumUpdate(s.ts, i, x, MakesOf(c));
    SumUpdate(s.ts, i, x, DropsOf(c));
    SumUpdate(s.ts, i, x, RunsOf(c));
  }

  /** The tally after a step of thread `i`, in terms of the tally before. */
  lemma NewTally(s: State, t: State, i: nat, c: nat)
    requires i < |s.ts| == |t.ts| && t.ts == s.ts[i := t.ts[i]]
    ensures var a, b, p, x := TallyOf(s, c), TallyOf(t, c), s.ts[i], t.ts[i];
      && Refs(p, c) <= a.refs && b.refs == a.refs - Refs(p, c) + Refs(x, c)
      && Holds(p, c) + Count(s.global, c) <= a.held
      && b.held == a.held - Count(s.global, c) + Count(t.global, c) - Holds(p, c) + Holds(x, c)
      && Dels(p, c) <= a.dels && b.dels == a.dels - Dels(p, c) + Dels(x, c)
      && Makes(p, c) <= a.makes && b.makes == a.makes - Makes(p, c) + Makes(x, c)
      && Drops(p, c) <= a.drops && b.drops == a.drops - Drops(p, c) + Drops(x, c)
      && Runs(p, c) <= a.runs && b.runs == a.runs - Runs(p, c) + Runs(x, c)
  {
    hide Sum, Count, Refs, Holds, Dels, Makes, Drops, Runs;
    Retally(s, i, t.ts[i], c);
  }

  lemma CountPush(g: seq<nat>, q: nat, c: nat)
    ensures Count(g + [q], c) == Count(g, c) + if q == c then 1 else 0
  {
    assert (g + [q])[..|g|] == g;
  }

  lemma CreateOk(s: State, i: nat, c: nat)
    requires Inv(s) && Can(s, Create(i))
    ensures Ok(Do(s, Create(i)), c)
  {
    hide Sum, Count, Inv;
    assert Ok(s, c) by { InvAt(s, c); }
    Retally(s, i, Initing(|s.svcs|), c);
  }

  lemma InvAt(s: State, c: nat)
    requires Inv(s)
    ensures Ok(s, c)
  {
  }

  lemma InitDoneOk(s: State, i: nat, ok: bool, c: nat)
    requires Inv(s) && Can(s, InitDone(i, ok))
    ensures Ok(Do(s, InitDone(i, ok)), c)
  {
    hide Sum, Count, Inv;
    InvAt(s, c);
    var x := s.ts[i].c;
    Retally(s, i, Releasing(x, if ok then ThenSet else ThenRetire), c);
  }

  lemma SendOk(s: State, i: nat, x: nat, m: Message, c: nat)
    requires Inv(s) && Can(s, Send(i, x, m))
    ensures Ok(Do(s, Send(i, x, m)), c)
  {
    hide Sum, Count, Inv;
    InvAt(s, c);
    Retally(s, i, Sending(x, m), c);
  }

  lemma RetireOk(s: State, i: nat, x: nat, c: nat)
    requires Inv(s) && Can(s, Retire(i, x))
    ensures Ok(Do(s, Retire(i, x)), c)
  {
    hide Sum, Count, Inv;
    InvAt(s, c);
    Retally(s, i, Releasing(x, Done), c);
  }

  lemma TakeQueueOk(s: State, i: nat, c: nat)
    requires Inv(s) && Can(s, TakeQueue(i))
    ensures Ok(Do(s, TakeQueue(i)), c)
  {
    hide Sum, Count, Inv;
    InvAt(s, c);
    CountHead(s.global, c);
    Retally(s, i, Holding(s.global[0]), c);
  }

  lemma FinishOk(s: State, i: nat, c: nat)
    requires Inv(s) && Can(s, Finish(i))
    ensures Ok(Do(s, Finish(i)), c)
  {
    hide Sum, Count, Inv;
    InvAt(s, c);
    var q := s.ts[i].q;
    if s.global == [] {
      Retally(s, i, Releasing(q, ThenHold(q)), c);
    } else {
      CountHead(s.global, c);
      Retally(s, i, Parting(q, s.global[0]), c);
    }
  }

  lemma PopOk(s: State, i: nat, c: nat)
    requires Inv(s) && Can(s, Pop(i))
    ensures Ok(PopStep(s, i, s.ts[i].q), c)
  {
    hide Sum, Count, Inv;
    InvAt(s, c);
    var q := s.ts[i].q;
    var v := s.svcs[q];
    NewTally(s, PopStep(s, i, q), i, c);
    hide TallyOf;
    if v.msgs != [] && c == q {
      Popped(v.dispatched, v.dropped, v.msgs);
    }
  }

  /** Taking the oldest message from the queue to the dispatched ones, when nothing was dropped, or to the dropped ones. */
  lemma Popped(a: seq<Message>, b: seq<Message>, m: seq<Message>)
    requires m != []
    ensures b == [] ==> a + b + m == (a + [m[0]]) + b + m[1..]
    ensures a + b + m == a + (b + [m[0]]) + m[1..]
  {
    assert m == [m[0]] + m[1..];
  }

  lemma PushOk(s: State, i: nat, x: nat, m: Message, c: nat)
    requires Inv(s) && i < |s.ts| && s.ts[i] == Sending(x, m) && x < |s.svcs|
    ensures Ok(PushStep(s, i, x, m), c)
  {
    hide Sum, Count, Inv;
    InvAt(s, c);
    Retally(s, i, Releasing(x, Done), c);
    CountPush(s.global, x, c);
    var v := s.svcs[x];
    assert v.dispatched + v.dropped + (v.msgs + [m]) == (v.dispatched + v.dropped + v.msgs) + [m];
  }

  lemma ReleaseOk(s: State, i: nat, x: nat, n: Next, c: nat)
    requires Inv(s) && i < |s.ts| && s.ts[i] == Releasing(x, n) && x < |s.svcs|
    ensures Ok(ReleaseStep(s, i, x, n), c)
  {
    hide Sum, Count, Inv;
    InvAt(s, c);
    InvAt(s, x);
    NewTally(s, ReleaseStep(s, i, x, n), i, c);
    NewTally(s, ReleaseStep(s, i, x, n), i, x);
    hide TallyOf;
  }

  lemma MarkOk(s: State, i: nat, x: nat, n: Next, c: nat)
    requires Inv(s) && i < |s.ts| && s.ts[i] == Deleting(x, n) && x < |s.svcs|
    ensures Ok(MarkStep(s, i, x, n), c)
  {
    hide Sum, Count, Inv;
    InvAt(s, c);
    InvAt(s, x);
    Retally(s, i, Resume(x, n), c);
    CountPush(s.global, x, c);
  }

  lemma DropOk(s: State, i: nat, q: nat, c: nat)
    requires Inv(s) && i < |s.ts| && s.ts[i] == Dropping(q) && q < |s.svcs|
    ensures Ok(DropStep(s, i, q), c)
  {
    hide Sum, Count, Inv;
    InvAt(s, c);
    var v := s.svcs[q];
    if v.msgs != [] {
      Retally(s, i, Dropping(q), c);
      Popped(v.dispatched, v.dropped, v.msgs);
      SourcesNext(v.dropped, v.msgs[0]);
    } else {
      Retally(s, i, Free, c);
    }
  }

  lemma SettingOk(s: State, i: nat, c: nat)
    requires Inv(s) && Can(s, Go(i)) && s.ts[i].Setting?
    ensures Ok(GoStep(s, i), c)
  {
    hide Sum, Count, Inv;
    InvAt(s, c);
    Retally(s, i, Launching(s.ts[i].c, true), c);
  }

  lemma LaunchingOk(s: State, i: nat, c: nat)
    requires Inv(s) && Can(s, Go(i)) && s.ts[i].Launching?
    ensures Ok(GoStep(s, i), c)
  {
    hide Sum, Count, Inv;
    InvAt(s, c);
    Retally(s, i, if s.ts[i].alive then Logging(s.ts[i].c) else Free, c);
    CountPush(s.global, s.ts[i].c, c);
  }

  lemma LoggingOk(s: State, i: nat, c: nat)
    requires Inv(s) && Can(s, Go(i)) && (s.ts[i].Logging? || s.ts[i].Naming?)
    ensures Ok(GoStep(s, i), c)
  {
    hide Sum, Count, Inv;
    InvAt(s, c);
    Retally(s, i, if s.ts[i].Logging? then Naming(s.ts[i].c) else Free, c);
  }

  lemma RetiringOk(s: State, i: nat, c: nat)
    requires Inv(s) && Can(s, Go(i)) && s.ts[i].Retiring?
    ensures Ok(GoStep(s, i), c)
  {
    hide Sum, Count, Inv;
    InvAt(s, c);
    var x := s.ts[i].c;
    Retally(s, i, if s.svcs[x].inSlot then Releasing(x, ThenEnd) else Ending(x), c);
  }

  lemma EndingOk(s: State, i: nat, c: nat)
    requires Inv(s) && Can(s, Go(i)) && s.ts[i].Ending?
    ensures Ok(GoStep(s, i), c)
  {
    hide Sum, Count, Inv;
    InvAt(s, c);
    var q := s.ts[i].q;
    Retally(s, i, if s.svcs[q].release then Dropping(q) else Free, c);
    CountPush(s.global, q, c);
  }

  /** Whoever holds a queue outside its creator knows that the creator is past `init` or has retired the handle. */
  lemma HolderSeesMade(s: State, i: nat, q: nat)
    requires Ok(s, q) && q < |s.svcs| && i < |s.ts| && s.ts[i] == Holding(q)
    ensures TallyOf(s, q).makes == 0
  {
    assert forall p :: MakesOf(q)(p) <= HoldsOf(q)(p);
    SumGap(s.ts, i, MakesOf(q), HoldsOf(q));
  }

  lemma GrabSelf(s: State, i: nat, q: nat)
    requires Ok(s, q) && i < |s.ts| && q < |s.svcs| && s.ts[i] == Holding(q) && TallyOf(s, q).makes == 0
    ensures Ok(GrabStep(s, i, q), q)
  {
    hide Sum, Count;
    NewTally(s, GrabStep(s, i, q), i, q);
    hide TallyOf;
  }

  lemma GrabOther(s: State, i: nat, q: nat, c: nat)
    requires Ok(s, c) && i < |s.ts| && q < |s.svcs| && s.ts[i] == Holding(q) && c != q
    ensures Ok(GrabStep(s, i, q), c)
  {
    hide Sum, Count, Consistent;
    NewTally(s, GrabStep(s, i, q), i, c);
  }

  lemma HoldingOk(s: State, i: nat, c: nat)
    requires Inv(s) && Can(s, Go(i)) && s.ts[i].Holding?
    ensures Ok(GoStep(s, i), c)
  {
    var q := s.ts[i].q;
    InvAt(s, c);
    InvAt(s, q);
    assert GoStep(s, i) == GrabStep(s, i, q);
    hide Inv, GoStep, Ok;
    HolderSeesMade(s, i, q);
    if c == q {
      GrabSelf(s, i, q);
    } else {
      GrabOther(s, i, q, c);
    }
  }

  lemma PartingOk(s: State, i: nat, c: nat)
    requires Inv(s) && Can(s, Go(i)) && s.ts[i].Parting?
    ensures Ok(GoStep(s, i), c)
  {
    hide Sum, Count, Inv;
    InvAt(s, c);
    Retally(s, i, Releasing(s.ts[i].q, ThenHold(s.ts[i].nq)), c);
    CountPush(s.global, s.ts[i].q, c);
  }

  lemma GoOk(s: State, i: nat, c: nat)
    requires Inv(s) && Can(s, Go(i))
    ensures Ok(GoStep(s, i), c)
  {
    hide Inv, Ok;
    match s.ts[i]
    case Sending(x, m) => PushOk(s, i, x, m, c);
    case Releasing(x, n) => ReleaseOk(s, i, x, n, c);
    case Deleting(x, n) => MarkOk(s, i, x, n, c);
    case Setting(_) => SettingOk(s, i, c);
    case Launching(_, _) => LaunchingOk(s, i, c);
    case Logging(_) => LoggingOk(s, i, c);
    case Naming(_) => LoggingOk(s, i, c);
    case Retiring(_) => RetiringOk(s, i, c);
    case Ending(_) => EndingOk(s, i, c);
    case Holding(_) => HoldingOk(s, i, c);
    case Parting(_, _) => PartingOk(s, i, c);
    case Dropping(q) => DropOk(s, i, q, c);
  }

  lemma StepOk(s: State, e: Event, c: nat)
    requires Inv(s)
    ensures Ok(Step(s, e), c)
  {
    InvAt(s, c);
    hide Inv, Ok;
    if Can(s, e) {
      match e
      case Create(i) => CreateOk(s, i, c);
      case InitDone(i, ok) => InitDoneOk(s, i, ok, c);
      case Send(i, x, m) => SendOk(s, i, x, m, c);
      case Retire(i, x) => RetireOk(s, i, x, c);
      case TakeQueue(i) => TakeQueueOk(s, i, c);
      case Pop(i) => PopOk(s, i, c);
      case Finish(i) => FinishOk(s, i, c);
      case Go(i) => GoOk(s, i, c);
    }
  }

  /** Every reachable state, whatever the threads do, is consistent for every service. */
  lemma {:induction false} Reachable(n: nat, evs: seq<Event>)
    ensures Inv(After(n, evs))
  {
    if evs == [] {
      forall c: nat
        ensures Ok(Init(n), c)
      {
        SumZero(Init(n).ts, RefsOf(c));
        SumZero(Init(n).ts, HoldsOf(c));
        SumZero(Init(n).ts, DelsOf(c));
        SumZero(Init(n).ts, MakesOf(c));
        SumZero(Init(n).ts, DropsOf(c));
        SumZero(Init(n).ts, RunsOf(c));
      }
    } else {
      var s, e := After(n, evs[..|evs|-1]), evs[|evs|-1];
      Reachable(n, evs[..|evs|-1]);
      forall c: nat
        ensures Ok(Step(s, e), c)
      {
        StepOk(s, e, c);
      }
    }
  }

  // ---------------------------------------------------------------- what it means

  /**
    Scheduler safety: a queue has at most one place.  It is in the run queue at most once, never there
    while a thread owns it, and never owned by two threads, so no two workers dispatch it.
   */
  lemma OneOwner(n: nat, evs: seq<Event>, q: nat, i: nat, j: nat)
    requires var s := After(n, evs); i < j < |s.ts|
    ensures var s := After(n, evs);
      && Count(s.global, q) + Holds(s.ts[i], q) + Holds(s.ts[j], q) <= 1
      && !(s.ts[i].Running? && s.ts[j].Running? && s.ts[i].q == s.ts[j].q)
  {
    Reachable(n, evs);
    var s := After(n, evs);
    hide After, Sum, Count;
    InvAt(s, q);
    SumTwo(s.ts, i, j, HoldsOf(q));
    if s.ts[i].Running? {
      InvAt(s, s.ts[i].q);
      SumTwo(s.ts, i, j, HoldsOf(s.ts[i].q));
    }
  }

  /** No lost wake-up: a queue that is neither in the run queue nor owned by a thread is empty. */
  lemma NoLostWakeup(n: nat, evs: seq<Event>, q: nat)
    requires var s := After(n, evs);
      && q < |s.svcs| && !s.svcs[q].freed && Count(s.global, q) == 0
      && forall i :: 0 <= i < |s.ts| ==> Holds(s.ts[i], q) == 0
    ensures After(n, evs).svcs[q].msgs == []
  {
    Reachable(n, evs);
    var s := After(n, evs);
    hide After;
    InvAt(s, q);
    SumZero(s.ts, HoldsOf(q));
  }

  /**
    Message conservation: accepted messages leave in push order, each once, first for dispatch and,
    only when the service is gone, for drop; the error replies go to the sources of the dropped messages, one
    for each in that order; when the queue is freed no message is left.
   */
  lemma Conservation(n: nat, evs: seq<Event>, q: nat)
    requires q < |After(n, evs).svcs|
    ensures var v := After(n, evs).svcs[q];
      && v.pushed == v.dispatched + v.dropped + v.msgs
      && v.replies == Sources(v.dropped)
      && (v.dropped != [] ==> v.release)
      && (v.freed ==> v.release && v.pushed == v.dispatched + v.dropped)
  {
    Reachable(n, evs);
    InvAt(After(n, evs), q);
  }

  /**
    Context lifetime: the count is the slot's reference plus every thread's; the context is deleted
    (its queue marked, or a thread about to mark it) exactly when none of them is left.
   */
  lemma Lifetime(n: nat, evs: seq<Event>, c: nat)
    requires c < |After(n, evs).svcs|
    ensures var s := After(n, evs); var v := s.svcs[c];
      && v.ref == (if v.inSlot then 1 else 0) + Sum(s.ts, RefsOf(c))
      && ((v.release || exists i :: 0 <= i < |s.ts| && Dels(s.ts[i], c) == 1) <==> v.ref == 0)
      && !(v.release && exists i :: 0 <= i < |s.ts| && Dels(s.ts[i], c) == 1)
  {
    Reachable(n, evs);
    var s := After(n, evs);
    hide After;
    InvAt(s, c);
    if forall i :: 0 <= i < |s.ts| ==> Dels(s.ts[i], c) != 1 {
      SumZero(s.ts, DelsOf(c));
    } else {
      var i :| 0 <= i < |s.ts| && Dels(s.ts[i], c) == 1;
      SumUpdate(s.ts, i, s.ts[i], DelsOf(c));
    }
  }

  /** A thread that holds a reference, or is deleting, finds the queue allocated; with a reference it is unmarked. */
  lemma NoUseAfterFree(n: nat, evs: seq<Event>, i: nat, c: nat)
    requires i < |After(n, evs).ts|
    requires var p := After(n, evs).ts[i]; Refs(p, c) > 0 || Dels(p, c) > 0 || Holds(p, c) > 0
    ensures var s := After(n, evs);
      && c < |s.svcs| && !s.svcs[c].freed
      && (Refs(s.ts[i], c) > 0 || Dels(s.ts[i], c) > 0 ==> !s.svcs[c].release)
  {
    Reachable(n, evs);
    var s := After(n, evs);
    hide After;
    InvAt(s, c);
    SumUpdate(s.ts, i, s.ts[i], RefsOf(c));
    SumUpdate(s.ts, i, s.ts[i], DelsOf(c));
    SumUpdate(s.ts, i, s.ts[i], HoldsOf(c));
  }

  // ---------------------------------------------------------------- what was sent, told by the events alone

  /** The message that thread `i` has undertaken to send to `c`: it has grabbed `c` and not moved since. */
  datatype Undertaken = Nothing | ToSend(c: nat, m: Message)

  function Undertakes(n: nat, evs: seq<Event>, i: nat): Undertaken {
    if evs == [] then Nothing
    else
      var before, e := evs[..|evs|-1], evs[|evs|-1];
      if e.Send? && e.i == i && Can(After(n, before), e) then ToSend(e.c, e.m)
      else if e == Go(i) then Nothing
      else Undertakes(n, before, i)
  }

  /** The messages sent to `c` whose sender has made its next move, in the order of these moves. */
  function Accepted(n: nat, evs: seq<Event>, c: nat): seq<Message> {
    if evs == [] then []
    else
      var before, e := evs[..|evs|-1], evs[|evs|-1];
      if e.Go? && Undertakes(n, before, e.i).ToSend? && Undertakes(n, before, e.i).c == c
      then Accepted(n, before, c) + [Undertakes(n, before, e.i).m]
      else Accepted(n, before, c)
  }

  /** How many messages of `q` have been taken out: by a worker's pop, or for drop. */
  function Taken(n: nat, evs: seq<Event>, q: nat, drop: bool): nat {
    if evs == [] then 0
    else
      var s, e := After(n, evs[..|evs|-1]), evs[|evs|-1];
      Taken(n, evs[..|evs|-1], q, drop) +
      if Can(s, e) && q < |s.svcs| && s.svcs[q].msgs != [] && e.i < |s.ts|
         && (if drop then e.Go? && s.ts[e.i] == Dropping(q) else e.Pop? && s.ts[e.i].Running? && s.ts[e.i].q == q)
      then 1 else 0
  }

  lemma {:induction false} UndertakesIsSending(n: nat, evs: seq<Event>, i: nat)
    ensures var s, u := After(n, evs), Undertakes(n, evs, i);
      && (u.ToSend? ==> i < |s.ts| && s.ts[i] == Sending(u.c, u.m) && u.c < |s.svcs|)
      && (i < |s.ts| && s.ts[i].Sending? ==> u == ToSend(s.ts[i].c, s.ts[i].m))
  {
    if evs != [] {
      var before, e := evs[..|evs|-1], evs[|evs|-1];
      UndertakesIsSending(n, before, i);
      SendingStep(After(n, before), e, i);
      hide Step, Can;
    }
  }

  lemma SendingStep(s: State, e: Event, i: nat)
    ensures var t := Step(s, e);
      && |t.ts| == |s.ts| && |t.svcs| >= |s.svcs|
      && (i < |s.ts| && Can(s, e) && e.Send? && e.i == i ==> t.ts[i] == Sending(e.c, e.m) && e.c < |s.svcs|)
      && (i < |s.ts| && Can(s, e) && e == Go(i) ==> !t.ts[i].Sending?)
      && (i < |s.ts| && !(Can(s, e) && e.i == i) ==> t.ts[i] == s.ts[i])
      && (i < |s.ts| && Can(s, e) && e.i == i && !e.Send? && !e.Go? ==> !t.ts[i].Sending? && !s.ts[i].Sending?)
      && (i < |s.ts| && s.ts[i].Sending? && s.ts[i].c < |s.svcs| ==> Can(s, Go(i)))
      && (i < |s.ts| && Can(s, e) && e.Send? && e.i == i ==> !s.ts[i].Sending?)
  {
  }

  /**
    Nothing sent is lost: for every run and service, the messages sent to it are those dispatched, those
    dropped and those queued, in this order, and each pop takes exactly one.
   */
  lemma {:induction false} SentIsKept(n: nat, evs: seq<Event>, c: nat)
    requires c < |After(n, evs).svcs|
    ensures var v := After(n, evs).svcs[c];
      && Accepted(n, evs, c) == v.dispatched + v.dropped + v.msgs
      && |v.dispatched| == Taken(n, evs, c, false) && |v.dropped| == Taken(n, evs, c, true)
  {
    AcceptedIsPushed(n, evs, c);
    Conservation(n, evs, c);
  }

  lemma {:induction false} AcceptedIsPushed(n: nat, evs: seq<Event>, c: nat)
    ensures var s := After(n, evs);
      && Accepted(n, evs, c) == (if c < |s.svcs| then s.svcs[c].pushed else [])
      && Taken(n, evs, c, false) == (if c < |s.svcs| then |s.svcs[c].dispatched| else 0)
      && Taken(n, evs, c, true) == (if c < |s.svcs| then |s.svcs[c].dropped| else 0)
  {
    if evs != [] {
      var before, e := evs[..|evs|-1], evs[|evs|-1];
      var s := After(n, before);
      AcceptedIsPushed(n, before, c);
      UndertakesIsSending(n, before, e.i);
      HistoryStep(s, e, c);
      if e.Go? && e.i < |s.ts| && s.ts[e.i].Sending? {
        SendingStep(s, e, e.i);
      }
      hide Step;
    }
  }

  /** What one step adds to the histories of `c`. */
  lemma HistoryStep(s: State, e: Event, c: nat)
    ensures var t := Step(s, e);
      && |t.svcs| >= |s.svcs|
      && (c < |s.svcs| ==> Adds(s, e, c, t.svcs[c]))
      && (|s.svcs| <= c < |t.svcs| ==> t.svcs[c] == NewService())
      && (Can(s, e) && e.Go? && s.ts[e.i].Sending? ==> s.ts[e.i].c < |s.svcs|)
  {
    if Can(s, e) && e.Go? {
      HistoryGo(s, e.i, c);
    }
  }

  /** The histories of `c` grow by what the event moves. */
  predicate Adds(s: State, e: Event, c: nat, v: Service)
    requires c < |s.svcs|
  {
    && v.pushed == (if Can(s, e) && e.Go? && s.ts[e.i].Sending? && s.ts[e.i].c == c
                    then s.svcs[c].pushed + [s.ts[e.i].m] else s.svcs[c].pushed)
    && |v.dispatched| == |s.svcs[c].dispatched| +
         (if Can(s, e) && e.Pop? && s.ts[e.i].q == c && s.svcs[c].msgs != [] then 1 else 0)
    && |v.dropped| == |s.svcs[c].dropped| +
         (if Can(s, e) && e.Go? && s.ts[e.i] == Dropping(c) && s.svcs[c].msgs != [] then 1 else 0)
  }

  lemma HistoryGo(s: State, i: nat, c: nat)
    requires Can(s, Go(i))
    ensures |GoStep(s, i).svcs| == |s.svcs|
    ensures c < |s.svcs| ==> Adds(s, Go(i), c, GoStep(s, i).svcs[c])
  {
    match s.ts[i]
    case Sending(x, m) => assert GoStep(s, i) == PushStep(s, i, x, m);
    case Dropping(q) => assert GoStep(s, i) == DropStep(s, i, q);
    case Holding(q) => assert GoStep(s, i) == GrabStep(s, i, q);
    case Deleting(x, n) => assert GoStep(s, i) == MarkStep(s, i, x, n);
    case Releasing(x, n) => assert GoStep(s, i) == ReleaseStep(s, i, x, n);
    case _ =>
  }

  /** A push to a queue that is not listed lists it; the sender then releases its grab. */
  lemma PushWakes(n: nat, evs: seq<Event>, i: nat)
    requires Undertakes(n, evs, i).ToSend?
    ensures var s, t, u := After(n, evs), After(n, evs + [Go(i)]), Undertakes(n, evs, i);
      && i < |s.ts| == |t.ts| && u.c < |s.svcs| == |t.svcs|
      && t.svcs[u.c].msgs == s.svcs[u.c].msgs + [u.m] && t.svcs[u.c].inGlobal
      && t.global == (if s.svcs[u.c].inGlobal then s.global else s.global + [u.c])
  {
    UndertakesIsSending(n, evs, i);
    assert (evs + [Go(i)])[..|evs|] == evs;
    assert After(n, evs + [Go(i)]) == Step(After(n, evs), Go(i));
  }

  // ---------------------------------------------------------------- progress

  /** A listed queue with messages is served: a free worker takes it and dispatches the oldest message. */
  lemma Served(s: State, i: nat)
    requires i < |s.ts| && s.ts[i].Free? && s.global != []
    requires var q := s.global[0]; q < |s.svcs| && s.svcs[q].inSlot && s.svcs[q].msgs != []
    ensures var q, t := s.global[0], Step(Step(Step(s, TakeQueue(i)), Go(i)), Pop(i));
      && i < |t.ts| && |t.svcs| == |s.svcs| && t.ts[i] == Running(q, true) && t.global == s.global[1..]
      && t.svcs[q].dispatched == s.svcs[q].dispatched + [s.svcs[q].msgs[0]] && t.svcs[q].msgs == s.svcs[q].msgs[1..]
  {
    var q := s.global[0];
    var s1 := Step(s, TakeQueue(i));
    assert s1.ts[i] == Holding(q) && s1.svcs == s.svcs;
    var s2 := Step(s1, Go(i));
    assert s2.ts[i] == Running(q, false) && s2.svcs[q].msgs == s.svcs[q].msgs;
  }

  /** Thread `i` makes `k` moves in a row. */
  function Goes(s: State, i: nat, k: nat): State
    decreases k
  {
    if k == 0 then s else Goes(Step(s, Go(i)), i, k - 1)
  }

  /** A listed queue whose service is deleted is emptied and freed, every message answered. */
  lemma FreedInTheEnd(s: State, i: nat)
    requires i < |s.ts| && s.ts[i].Free? && s.global != []
    requires var q := s.global[0]; q < |s.svcs| && !s.svcs[q].inSlot && s.svcs[q].release
    ensures var q := s.global[0];
      var t := Goes(Step(s, TakeQueue(i)), i, 3 + |s.svcs[q].msgs|);
      && i < |t.ts| && t.ts[i].Free? && |t.svcs| == |s.svcs| && t.svcs[q].freed && t.svcs[q].msgs == []
      && t.svcs[q].dropped == s.svcs[q].dropped + s.svcs[q].msgs
      && t.svcs[q].replies == s.svcs[q].replies + Sources(s.svcs[q].msgs)
  {
    var q := s.global[0];
    var s1 := Step(s, TakeQueue(i));
    assert s1.ts[i] == Holding(q) && s1.svcs == s.svcs;
    var s2 := Step(s1, Go(i));
    assert s2.ts[i] == Ending(q) && s2.svcs == s.svcs;
    var s3 := Step(s2, Go(i));
    assert s3.ts[i] == Dropping(q) && s3.svcs == s.svcs;
    DropAll(s3, i, q);
  }

  lemma {:induction false} DropAll(s: State, i: nat, q: nat)
    requires i < |s.ts| && q < |s.svcs| && s.ts[i] == Dropping(q)
    ensures var t := Goes(s, i, 1 + |s.svcs[q].msgs|);
      && i < |t.ts| && t.ts[i].Free? && |t.svcs| == |s.svcs| && t.svcs[q].freed && t.svcs[q].msgs == []
      && t.svcs[q].dropped == s.svcs[q].dropped + s.svcs[q].msgs
      && t.svcs[q].replies == s.svcs[q].replies + Sources(s.svcs[q].msgs)
    decreases |s.svcs[q].msgs|
  {
    var v, t := s.svcs[q], Step(s, Go(i));
    if v.msgs != [] {
      DropAll(t, i, q);
      assert v.msgs == [v.msgs[0]] + v.msgs[1..];
      assert Sources(v.msgs) == [v.msgs[0].source] + Sources(v.msgs[1..]);
    } else {
      assert v.dropped + v.msgs == v.dropped && v.replies + Sources(v.msgs) == v.replies;
      assert Goes(t, i, 0) == t;
    }
  }

  /** `s` with one service more, whose creator is thread `i`. */
  function Making(s: State, i: nat, p: Pc, v: Service, g: seq<nat>): State
    requires i < |s.ts|
  {
    State(s.svcs + [v], g, s.ts[i := p])
  }

  lemma MakingGoes(s: State, i: nat, p: Pc, v: Service, g: seq<nat>, k: nat, q: Pc, w: Service, h: seq<nat>)
    requires i < |s.ts| && k > 0 && Step(Making(s, i, p, v, g), Go(i)) == Making(s, i, q, w, h)
    ensures Goes(Making(s, i, p, v, g), i, k) == Goes(Making(s, i, q, w, h), i, k - 1)
  {
  }

  lemma MakingWith(s: State, i: nat, p: Pc, v: Service, g: seq<nat>, q: Pc, w: Service)
    requires i < |s.ts|
    ensures var r := Making(s, i, p, v, g);
      && r.ts[i] == p && r.svcs[|s.svcs|] == v && |r.svcs| == |s.svcs| + 1
      && With(r, i, q, |s.svcs|, w) == Making(s, i, q, w, g)
      && r.(ts := r.ts[i := q]) == Making(s, i, q, v, g)
  {
    assert s.ts[i := p][i := q] == s.ts[i := q];
    assert (s.svcs + [v])[|s.svcs| := w] == s.svcs + [w];
  }

  lemma MakingSteps(s: State, i: nat, v: Service, g: seq<nat>)
    requires i < |s.ts|
    ensures var c := |s.svcs|;
      && Step(Making(s, i, Launching(c, true), v, g), Go(i)) == Making(s, i, Logging(c), v, g + [c])
      && Step(Making(s, i, Logging(c), v, g), Go(i)) == Making(s, i, Naming(c), v, g)
      && Step(Making(s, i, Naming(c), v, g), Go(i)) == Making(s, i, Free, v, g)
  {
    var c := |s.svcs|;
    MakingWith(s, i, Launching(c, true), v, g, Logging(c), v);
    MakingWith(s, i, Logging(c), v, g, Naming(c), v);
    MakingWith(s, i, Naming(c), v, g, Free, v);
    hide Making, With;
  }

  lemma MakingSet(s: State, i: nat, v: Service, g: seq<nat>)
    requires i < |s.ts| && v.ref > 0
    ensures Step(Making(s, i, Setting(|s.svcs|), v, g), Go(i))
         == Making(s, i, Launching(|s.svcs|, true), v.(init := true), g)
  {
    MakingWith(s, i, Setting(|s.svcs|), v, g, Launching(|s.svcs|, true), v.(init := true));
    hide Making, With;
  }

  lemma MakingReleases(s: State, i: nat, v: Service, g: seq<nat>, n: Next)
    requires i < |s.ts| && v.ref > 0
    ensures var c := |s.svcs|;
      Step(Making(s, i, Releasing(c, n), v, g), Go(i))
      == Making(s, i, if v.ref == 1 then Deleting(c, Orphaned(n)) else Resume(c, n), v.(ref := v.ref - 1), g)
  {
    var c := |s.svcs|;
    MakingWith(s, i, Releasing(c, n), v, g, if v.ref == 1 then Deleting(c, Orphaned(n)) else Resume(c, n),
               v.(ref := v.ref - 1));
    hide Making, With, Resume, Orphaned;
  }

  lemma MakingRetires(s: State, i: nat, v: Service, g: seq<nat>)
    requires i < |s.ts|
    ensures var c := |s.svcs|;
      && (v.inSlot ==>
            Step(Making(s, i, Retiring(c), v, g), Go(i)) == Making(s, i, Releasing(c, ThenEnd), v.(inSlot := false), g))
      && (v.release ==> Step(Making(s, i, Ending(c), v, g), Go(i)) == Making(s, i, Dropping(c), v, g))
  {
    var c := |s.svcs|;
    MakingWith(s, i, Retiring(c), v, g, Releasing(c, ThenEnd), v.(inSlot := false));
    MakingWith(s, i, Ending(c), v, g, Dropping(c), v);
    hide Making, With;
  }

  lemma MakingMarks(s: State, i: nat, v: Service, g: seq<nat>, n: Next)
    requires i < |s.ts| && v.inGlobal
    ensures var c := |s.svcs|;
      Step(Making(s, i, Deleting(c, n), v, g), Go(i)) == Making(s, i, Resume(c, n), v.(release := true), g)
  {
    var c := |s.svcs|;
    MakingWith(s, i, Deleting(c, n), v, g, Resume(c, n), v.(release := true));
    var r := Making(s, i, Deleting(c, n), v, g);
    var t := With(r, i, Resume(c, n), c, v.(release := true));
    assert r.global == g && t.global == g;
    hide Making, With, Resume;
    assert t.(global := g) == t;
  }

  lemma MakingDrops(s: State, i: nat, v: Service, g: seq<nat>)
    requires i < |s.ts| && v.msgs == []
    ensures Step(Making(s, i, Dropping(|s.svcs|), v, g), Go(i))
         == Making(s, i, Free, v.(inGlobal := false, freed := true), g)
  {
    MakingWith(s, i, Dropping(|s.svcs|), v, g, Free, v.(inGlobal := false, freed := true));
    hide Making, With;
  }

  /** A service whose init succeeds is initialised, then listed, and only its slot refers to it. */
  lemma Launched(s: State, i: nat)
    requires Idle(s, i)
    ensures Goes(Step(Step(s, Create(i)), InitDone(i, true)), i, 5)
         == State(s.svcs + [NewService().(ref := 1, init := true)], s.global + [|s.svcs|], s.ts)
  {
    var c, v, g := |s.svcs|, NewService(), s.global;
    assert Step(Step(s, Create(i)), InitDone(i, true)) == Making(s, i, Releasing(c, ThenSet), v, g);
    hide Step;
    MakingReleases(s, i, v, g, ThenSet);
    MakingGoes(s, i, Releasing(c, ThenSet), v, g, 5, Setting(c), v.(ref := 1), g);
    MakingSet(s, i, v.(ref := 1), g);
    var w, h := v.(ref := 1, init := true), g + [c];
    MakingGoes(s, i, Setting(c), v.(ref := 1), g, 4, Launching(c, true), w, g);
    MakingSteps(s, i, w, g);
    MakingGoes(s, i, Launching(c, true), w, g, 3, Logging(c), w, h);
    MakingSteps(s, i, w, h);
    MakingGoes(s, i, Logging(c), w, h, 2, Naming(c), w, h);
    MakingGoes(s, i, Naming(c), w, h, 1, Free, w, h);
    assert Making(s, i, Free, w, h).ts == s.ts;
  }

  /** A service whose init fails leaves nothing behind: slot, context and queue go, and it is never listed. */
  lemma InitFailed(s: State, i: nat)
    requires Idle(s, i)
    ensures Goes(Step(Step(s, Create(i)), InitDone(i, false)), i, 6)
         == State(s.svcs + [NewService().(ref := 0, inSlot := false, release := true, inGlobal := false, freed := true)],
                  s.global, s.ts)
  {
    var c, v, g := |s.svcs|, NewService(), s.global;
    assert Step(Step(s, Create(i)), InitDone(i, false)) == Making(s, i, Releasing(c, ThenRetire), v, g);
    hide Step;
    MakingReleases(s, i, v, g, ThenRetire);
    MakingGoes(s, i, Releasing(c, ThenRetire), v, g, 6, Retiring(c), v.(ref := 1), g);
    MakingRetires(s, i, v.(ref := 1), g);
    var u := v.(ref := 1, inSlot := false);
    MakingGoes(s, i, Retiring(c), v.(ref := 1), g, 5, Releasing(c, ThenEnd), u, g);
    MakingReleases(s, i, u, g, ThenEnd);
    MakingGoes(s, i, Releasing(c, ThenEnd), u, g, 4, Deleting(c, ThenEnd), u.(ref := 0), g);
    MakingMarks(s, i, u.(ref := 0), g, ThenEnd);
    var w := u.(ref := 0, release := true);
    MakingRetires(s, i, w, g);
    MakingDrops(s, i, w, g);
    MakingGoes(s, i, Deleting(c, ThenEnd), u.(ref := 0), g, 3, Ending(c), w, g);
    MakingGoes(s, i, Ending(c), w, g, 2, Dropping(c), w, g);
    MakingGoes(s, i, Dropping(c), w, g, 1, Free, w.(inGlobal := false, freed := true), g);
    assert Making(s, i, Free, w.(inGlobal := false, freed := true), g).ts == s.ts;
  }

  function Run(s: State, evs: seq<Event>): State {
    if evs == [] then s else Step(Run(s, evs[..|evs|-1]), evs[|evs|-1])
  }

  /** The event takes a queue out of the run queue. */
  predicate Takes(s: State, e: Event) {
    (e.TakeQueue? || e.Finish?) && Can(s, e) && s.global != []
  }

  function TakesIn(s: State, evs: seq<Event>): nat {
    if evs == [] then 0
    else TakesIn(s, evs[..|evs|-1]) + if Takes(Run(s, evs[..|evs|-1]), evs[|evs|-1]) then 1 else 0
  }

  /**
    Every queue gets its turn: the queue with `k` others before it in the run queue is the one handed to
    the worker that makes the take after the next `k` takes, whatever is pushed, sent or finished meanwhile.
   */
  lemma EachInTurn(s: State, evs: seq<Event>, k: nat, e: Event)
    requires k < |s.global| && TakesIn(s, evs) == k && Takes(Run(s, evs), e)
    ensures var t, u := Run(s, evs), Run(s, evs + [e]);
      && e.i < |t.ts| == |u.ts|
      && u.ts[e.i] == (if e.Finish? then Parting(t.ts[e.i].q, s.global[k]) else Holding(s.global[k]))
  {
    InOrder(s, evs);
    assert (evs + [e])[..|evs|] == evs;
  }

  lemma {:induction false} InOrder(s: State, evs: seq<Event>)
    ensures TakesIn(s, evs) <= |s.global| ==> s.global[TakesIn(s, evs)..] <= Run(s, evs).global
  {
    if evs != [] {
      var before, e := evs[..|evs|-1], evs[|evs|-1];
      InOrder(s, before);
      var r := Run(s, before);
      GlobalStep(r, e);
      hide Step, Can;
      var k := TakesIn(s, before);
      if TakesIn(s, evs) <= |s.global| {
        var g := s.global[k..];
        if Takes(r, e) {
          assert g[1..] == s.global[k+1..];
          assert g[1..] <= r.global[1..];
        }
      }
    }
  }

  lemma GlobalStep(s: State, e: Event)
    ensures (if Takes(s, e) then s.global[1..] else s.global) <= Step(s, e).global
  {
  }

  // ---------------------------------------------------------------- the creator after its release

  /** The context is deleted, or some thread is deleting it. */
  ghost predicate Gone(s: State, c: nat) {
    c < |s.svcs| && (s.svcs[c].release || exists i :: 0 <= i < |s.ts| && Dels(s.ts[i], c) == 1)
  }

  /**
    A creator whose release returned non-NULL uses the context three times more, without a reference: the store
    to `ctx->init`, the log line, and the read of `inst->handle` in cmd_launch.
   */
  predicate Unprotected(p: Pc) {
    p.Setting? || p.Logging? || p.Naming?
  }

  /** The contexts that a thread has a pointer to exist. */
  predicate Known(p: Pc, n: nat) {
    match p
    case Releasing(c, _) => c < n
    case Deleting(c, _) => c < n
    case Initing(c) => c < n
    case Setting(c) => c < n
    case Launching(c, _) => c < n
    case Logging(c) => c < n
    case Naming(c) => c < n
    case Running(q, _) => q < n
    case Parting(q, _) => q < n
    case _ => true
  }

  predicate AllKnown(s: State) {
    forall i :: 0 <= i < |s.ts| ==> Known(s.ts[i], |s.svcs|)
  }

  lemma {:induction false} KnownAlways(n: nat, evs: seq<Event>)
    ensures AllKnown(After(n, evs))
  {
    if evs != [] {
      KnownAlways(n, evs[..|evs|-1]);
      KnownKept(After(n, evs[..|evs|-1]), evs[|evs|-1]);
    }
  }

  lemma KnownKept(s: State, e: Event)
    requires AllKnown(s)
    ensures AllKnown(Step(s, e))
  {
    if Can(s, e) {
      if e.Go? {
        KnownGo(s, e.i);
      } else {
        KnownOther(s, e);
      }
      hide Do, Can;
      assert forall j, n: nat, m: nat :: 0 <= j < |s.ts| && Known(s.ts[j], n) && n <= m ==> Known(s.ts[j], m);
    }
  }

  /** The thread that moves, and no other, gets a new place, with a pointer that exists. */
  lemma KnownGo(s: State, i: nat)
    requires AllKnown(s) && Can(s, Go(i))
    ensures var t := Do(s, Go(i)); |t.ts| == |s.ts| && |t.svcs| == |s.svcs| && Known(t.ts[i], |t.svcs|)
    ensures var t := Do(s, Go(i)); forall j :: 0 <= j < |s.ts| && j != i ==> t.ts[j] == s.ts[j]
  {
    assert Known(s.ts[i], |s.svcs|);
    hide AllKnown;
  }

  lemma KnownOther(s: State, e: Event)
    requires AllKnown(s) && Can(s, e) && !e.Go?
    ensures var t := Do(s, e); |t.ts| == |s.ts| && |t.svcs| >= |s.svcs| && e.i < |t.ts| && Known(t.ts[e.i], |t.svcs|)
    ensures var t := Do(s, e); forall j :: 0 <= j < |s.ts| && j != e.i ==> t.ts[j] == s.ts[j]
  {
    assert e.i < |s.ts| && Known(s.ts[e.i], |s.svcs|);
    hide AllKnown;
  }

  /**
    When such an access finds the context gone: exactly when, by then, the handle has been retired and every grab
    has been released.
   */
  lemma CreatorFindsGone(n: nat, evs: seq<Event>, i: nat)
    requires i < |After(n, evs).ts| && Unprotected(After(n, evs).ts[i])
    ensures var s := After(n, evs); var c := s.ts[i].c;
      && c < |s.svcs|
      && (Gone(s, c) <==> !s.svcs[c].inSlot && forall j :: 0 <= j < |s.ts| ==> Refs(s.ts[j], c) == 0)
  {
    KnownAlways(n, evs);
    var s := After(n, evs);
    var c := s.ts[i].c;
    assert Known(s.ts[i], |s.svcs|);
    Lifetime(n, evs, c);
    hide After;
    if forall j :: 0 <= j < |s.ts| ==> Refs(s.ts[j], c) == 0 {
      SumZero(s.ts, RefsOf(c));
    } else {
      var j :| 0 <= j < |s.ts| && Refs(s.ts[j], c) != 0;
      SumUpdate(s.ts, j, s.ts[j], RefsOf(c));
    }
  }

  /** A run in which thread 1 retires the new service between the creator's release and its store. */
  function RetiredEarly(): seq<Event> {
    [Create(0), InitDone(0, true), Go(0), Retire(1, 0), Go(1), Go(1)]
  }

  lemma StoreAfterFree()
    ensures var s := After(2, RetiredEarly());
      |s.ts| == 2 && s.ts[0] == Setting(0) && Gone(s, 0) && s.svcs[0].ref == 0
  {
    hide Step;
    var e := RetiredEarly();
    var v := NewService();
    Created(e);
    RetiredBy(e, 3, Setting(0), false, []);
    assert e[..6] == e;
  }

  /** One in which it does so after the store and the launch, before the log line. */
  function RetiredLate(): seq<Event> {
    [Create(0), InitDone(0, true), Go(0), Go(0), Go(0), Retire(1, 0), Go(1), Go(1)]
  }

  /** The store is in time ... */
  lemma StoreInTime()
    ensures var s := After(2, RetiredLate()[..3]); |s.ts| == 2 && s.ts[0] == Setting(0) && !Gone(s, 0)
    ensures After(2, RetiredLate()[..5]) == State([NewService().(ref := 1, init := true)], [0], [Logging(0), Free])
  {
    hide After;
    var e := RetiredLate();
    var v := NewService();
    Created(e);
    AfterAt(2, e, 3);
    AfterAt(2, e, 4);
    assert Step(State([v.(ref := 1)], [], [Setting(0), Free]), Go(0))
        == State([v.(ref := 1, init := true)], [], [Launching(0, true), Free]);
    assert Step(State([v.(ref := 1, init := true)], [], [Launching(0, true), Free]), Go(0))
        == State([v.(ref := 1, init := true)], [0], [Logging(0), Free]);
    hide Step;
  }

  /** ... and still the log line, and after it the read of the handle, find the context gone. */
  lemma LogAfterFree()
    ensures var s := After(2, RetiredLate());
      |s.ts| == 2 && s.ts[0] == Logging(0) && Gone(s, 0) && s.svcs[0].ref == 0
    ensures var s := After(2, RetiredLate() + [Go(0)]); |s.ts| == 2 && s.ts[0] == Naming(0) && Gone(s, 0)
  {
    hide After;
    var e := RetiredLate();
    StoreInTime();
    RetiredBy(e, 5, Logging(0), true, [0]);
    assert e[..8] == e;
    AfterAt(2, e + [Go(0)], 8);
    assert (e + [Go(0)])[..9] == e + [Go(0)] && (e + [Go(0)])[..8] == e;
  }

  /** Both runs begin alike ... */
  lemma {:induction false} Created(e: seq<Event>)
    requires |e| >= 3 && e[0] == Create(0) && e[1] == InitDone(0, true) && e[2] == Go(0)
    ensures After(2, e[..3]) == State([NewService().(ref := 1)], [], [Setting(0), Free])
  {
    var v := NewService();
    assert e[..0] == [];
    assert After(2, e[..0]) == State([], [], [Free, Free]);
    hide After;
    AfterAt(2, e, 0);
    AfterAt(2, e, 1);
    AfterAt(2, e, 2);
    assert Step(State([], [], [Free, Free]), Create(0)) == State([v], [], [Initing(0), Free]);
    assert Step(State([v], [], [Initing(0), Free]), InitDone(0, true)) == State([v], [], [Releasing(0, ThenSet), Free]);
    assert Step(State([v], [], [Releasing(0, ThenSet), Free]), Go(0)) == State([v.(ref := 1)], [], [Setting(0), Free]);
  }

  /** ... and end alike, with thread 1 retiring and deleting. */
  lemma RetiredBy(e: seq<Event>, k: nat, p: Pc, init: bool, g: seq<nat>)
    requires k + 3 <= |e| && e[k] == Retire(1, 0) && e[k + 1] == Go(1) && e[k + 2] == Go(1)
    requires After(2, e[..k]) == State([NewService().(ref := 1, init := init)], g, [p, Free])
    ensures After(2, e[..k + 3]) ==
      State([NewService().(ref := 0, inSlot := false, init := init, release := true)], g, [p, Free])
  {
    hide After, Step;
    AfterAt(2, e, k);
    AfterAt(2, e, k + 1);
    AfterAt(2, e, k + 2);
    RetireSteps(p, init, g);
  }

  lemma RetireSteps(p: Pc, init: bool, g: seq<nat>)
    ensures var v := NewService().(init := init);
      && Step(State([v.(ref := 1)], g, [p, Free]), Retire(1, 0)) == State([v.(ref := 1, inSlot := false)], g, [p, Releasing(0, Done)])
      && Step(State([v.(ref := 1, inSlot := false)], g, [p, Releasing(0, Done)]), Go(1))
         == State([v.(ref := 0, inSlot := false)], g, [p, Deleting(0, Done)])
      && Step(State([v.(ref := 0, inSlot := false)], g, [p, Deleting(0, Done)]), Go(1))
         == State([v.(ref := 0, inSlot := false, release := true)], g, [p, Free])
  {
    var v := NewService().(init := init);
    assert Step(State([v.(ref := 1)], g, [p, Free]), Retire(1, 0)) == State([v.(ref := 1, inSlot := false)], g, [p, Releasing(0, Done)]);
    assert Step(State([v.(ref := 1, inSlot := false)], g, [p, Releasing(0, Done)]), Go(1))
        == State([v.(ref := 0, inSlot := false)], g, [p, Deleting(0, Done)]);
    assert Step(State([v.(ref := 0, inSlot := false)], g, [p, Deleting(0, Done)]), Go(1))
        == State([v.(ref := 0, inSlot := false, release := true)], g, [p, Free]);
  }

  lemma AfterAt(n: nat, evs: seq<Event>, k: nat)
    requires k < |evs|
    ensures After(n, evs[..k + 1]) == Step(After(n, evs[..k]), evs[k])
  {
    assert evs[..k + 1][..k] == evs[..k];
  }

  /** `assert(ctx->init)` in dispatch_message never fails. */
  lemma DispatchInitialised(n: nat, evs: seq<Event>, i: nat)
    requires i < |After(n, evs).ts| && After(n, evs).ts[i].Running?
    ensures var s := After(n, evs); s.ts[i].q < |s.svcs| && s.svcs[s.ts[i].q].init
  {
    Reachable(n, evs);
    var s := After(n, evs);
    hide After;
    var q := s.ts[i].q;
    InvAt(s, q);
    SumUpdate(s.ts, i, s.ts[i], RunsOf(q));
  }

  /** `assert(queue->next == NULL)`: whoever pushes a queue finds it absent from the run queue. */
  lemma PushFindsAbsent(n: nat, evs: seq<Event>, i: nat, q: nat)
    requires i < |After(n, evs).ts|
    requires var s := After(n, evs); var p := s.ts[i];
      Holds(p, q) > 0 || (p.Sending? && p.c == q && q < |s.svcs| && !s.svcs[q].inGlobal)
      || (p.Deleting? && p.c == q && q < |s.svcs| && !s.svcs[q].inGlobal)
    ensures Count(After(n, evs).global, q) == 0
  {
    Reachable(n, evs);
    var s := After(n, evs);
    hide After;
    InvAt(s, q);
    SumUpdate(s.ts, i, s.ts[i], HoldsOf(q));
    SumUpdate(s.ts, i, s.ts[i], RefsOf(q));
    SumUpdate(s.ts, i, s.ts[i], DelsOf(q));
  }
}
