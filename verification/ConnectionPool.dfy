/** The connection pool as a system of steps: threads acquire, release and close concurrently, and every
    channel operation, every look at the closed flag and every dial is one step of one thread. A thread
    stands for one use of the pool, so a goroutine with two connections is two threads. */
module ConnectionPool {
  import opened Options

  type Thread = int
  type Conn = int

  /** Where a thread is: what it does next. */
  datatype Place =
    | Outside
    // acquire
    | ContextCheck | OpenCheck | FirstSelect | SecondSelect
    | IdleCheck(conn: Conn) | SlotCheck | Connecting | ConnCheck(conn: Conn)
    // the caller has the connection
    | Holding(conn: Conn)
    // release
    | ReleaseCheck(conn: Conn) | HealthCheck(conn: Conn) | Returning(conn: Conn)
    // closing a connection and giving its slot back, in any of the three
    | Closing(conn: Conn, draining: bool) | Freeing(draining: bool)
    // close
    | Locking | Locked | Marked | Signalled | Draining

  datatype Kind =
    | BeginAcquire | ContextDead | ContextLive | ReadClosed | TakeCloseSignal | TakeIdle | FirstDefault | TakeSlot
    | ContextDone | ConnectOk | ConnectFail | CloseConn | FreeSlot
    | BeginRelease | Healthy | Unhealthy | PutIdle | ReleaseDefault
    | BeginClose | Lock | ReadFlag | SignalClose | Unlock | DrainEmpty

  datatype Step = Step(thread: Thread, kind: Kind)

  /** The channels, the flag and its lock, and the threads that are not outside. `next` is the next new
      connection and `gone` are the connections that were closed. */
  datatype Pool = Pool(
    size: nat, idle: seq<Conn>, slots: nat, signalled: bool, closed: bool, lock: Option<Thread>,
    next: Conn, gone: set<Conn>, places: map<Thread, Place>)
  {
    function At(t: Thread): Place {
      if t in places then places[t] else Outside
    }

    predicate Keeps(idle: seq<Conn>, slots: int, next: Conn, gone: set<Conn>) {
      this.idle == idle && this.slots == slots && this.next == next && this.gone == gone
    }

    function Go(t: Thread, p: Place): Pool {
      this.(places := places[t := p])
    }
  }

  const DEFAULT_SIZE := 10

  function NewPool(size: int): Pool {
    Pool(if size <= 0 then DEFAULT_SIZE else size, [], 0, false, false, None, 0, {}, map[])
  }

  function When(possible: bool, s: Pool): Option<Pool> {
    if possible then Some(s) else None
  }

  /** The state after a step, if the step is possible. */
  function Move(s: Pool, t: Thread, k: Kind): Option<Pool> {
    var p := s.At(t);
    match k
    // ---- acquire
    case BeginAcquire => When(p.Outside?, s.Go(t, ContextCheck))
    case ContextDead => When(p.ContextCheck?, s.Go(t, Outside))
    case ContextLive => When(p.ContextCheck?, s.Go(t, OpenCheck))
    case FirstDefault => When(p.FirstSelect? && !s.signalled && s.idle == [], s.Go(t, SecondSelect))
    case TakeSlot => When(p.SecondSelect? && s.slots < s.size, s.(slots := s.slots + 1).Go(t, SlotCheck))
    case ContextDone => When(p.SecondSelect?, s.Go(t, Outside))
    case ConnectOk => When(p.Connecting?, s.(next := s.next + 1).Go(t, ConnCheck(s.next)))
    case ConnectFail => When(p.Connecting?, s.Go(t, Freeing(false)))
    // ---- the look at the closed flag, under the read lock
    case ReadClosed => if s.lock.Some? then None else AfterRead(s, t, p)
    // ---- receiving from the close channel and from the idle channel
    case TakeCloseSignal =>
      if !s.signalled then None
      else if p.Returning? then Some(s.Go(t, Closing(p.conn, false)))
      else When(p.FirstSelect? || p.SecondSelect?, s.Go(t, Outside))
    case TakeIdle =>
      if s.idle == [] then None
      else
        var r := s.(idle := s.idle[1..]);
        if p.Draining? then Some(r.Go(t, Closing(s.idle[0], true)))
        else When(p.FirstSelect? || p.SecondSelect?, r.Go(t, IdleCheck(s.idle[0])))
    // ---- release
    case BeginRelease => if p.Holding? then Some(s.Go(t, ReleaseCheck(p.conn))) else None
    case Healthy => if p.HealthCheck? then Some(s.Go(t, Returning(p.conn))) else None
    case Unhealthy => if p.HealthCheck? then Some(s.Go(t, Closing(p.conn, false))) else None
    case PutIdle =>
      if p.Returning? && |s.idle| < s.size then Some(s.(idle := s.idle + [p.conn]).Go(t, Outside)) else None
    case ReleaseDefault =>
      if p.Returning? && !s.signalled && |s.idle| >= s.size then Some(s.Go(t, Closing(p.conn, false))) else None
    // ---- closing a connection
    case CloseConn => if p.Closing? then Some(s.(gone := s.gone + {p.conn}).Go(t, Freeing(p.draining))) else None
    case FreeSlot =>
      if p.Freeing? && s.slots > 0 then Some(s.(slots := s.slots - 1).Go(t, if p.draining then Draining else Outside))
      else None
    // ---- close
    case BeginClose => When(p.Outside?, s.Go(t, Locking))
    case Lock => When(p.Locking? && s.lock.None?, s.(lock := Some(t)).Go(t, Locked))
    case ReadFlag =>
      When(p.Locked?, if s.closed then s.(lock := None).Go(t, Outside) else s.(closed := true).Go(t, Marked))
    case SignalClose => When(p.Marked?, s.(signalled := true).Go(t, Signalled))
    case Unlock => When(p.Signalled?, s.(lock := None).Go(t, Draining))
    case DrainEmpty => When(p.Draining? && s.idle == [], s.Go(t, Outside))
  }

  /** What a thread does after `isClosed`. */
  function AfterRead(s: Pool, t: Thread, p: Place): Option<Pool> {
    match p
    case OpenCheck => Some(s.Go(t, if s.closed then Outside else FirstSelect))
    case IdleCheck(c) => Some(s.Go(t, if s.closed then Closing(c, false) else Holding(c)))
    case SlotCheck => Some(s.Go(t, if s.closed then Freeing(false) else Connecting))
    case ConnCheck(c) => Some(s.Go(t, if s.closed then Closing(c, false) else Holding(c)))
    case ReleaseCheck(c) => Some(s.Go(t, if s.closed then Closing(c, false) else HealthCheck(c)))
    case _ => None
  }

  // ---------------------------------------------------------------- runs

  /** An interleaving: its steps, and the states before, between and after them. */
  datatype Run = Run(states: seq<Pool>, steps: seq<Step>)

  predicate Stepped(r: Run, k: nat)
    requires |r.states| == |r.steps| + 1 && k < |r.steps|
  {
    Move(r.states[k], r.steps[k].thread, r.steps[k].kind) == Some(r.states[k + 1])
  }

  ghost predicate IsRun(r: Run, start: Pool) {
    && |r.states| == |r.steps| + 1 && r.states[0] == start
    && forall k {:trigger Stepped(r, k)} :: 0 <= k < |r.steps| ==> Stepped(r, k)
  }

  // ---------------------------------------------------------------- the invariant

  function ConnOf(p: Place): Option<Conn> {
    match p
    case IdleCheck(c) => Some(c)
    case ConnCheck(c) => Some(c)
    case Holding(c) => Some(c)
    case ReleaseCheck(c) => Some(c)
    case HealthCheck(c) => Some(c)
    case Returning(c) => Some(c)
    case Closing(c, _) => Some(c)
    case _ => None
  }

  /** The thread has put an element into `slots` that it or a later receiver of its connection takes out. */
  predicate OwnsSlot(p: Place) {
    ConnOf(p).Some? || p.SlotCheck? || p.Connecting? || p.Freeing?
  }

  function Owners(places: map<Thread, Place>): set<Thread> {
    set t | t in places && OwnsSlot(places[t])
  }

  predicate SlotsCounted(s: Pool) {
    s.slots == |s.idle| + |Owners(s.places)| <= s.size
  }

  /** The thread has the connection. */
  predicate Has(s: Pool, t: Thread, c: Conn) {
    ConnOf(s.At(t)) == Some(c)
  }

  predicate Known(s: Pool, c: Conn) {
    0 <= c < s.next && c !in s.gone
  }

  /** No connection is in two places, and none that was closed is in any. */
  ghost predicate Exclusive(s: Pool) {
    && (forall i :: 0 <= i < |s.idle| ==> Known(s, s.idle[i]))
    && (forall i, k :: 0 <= i < k < |s.idle| ==> s.idle[i] != s.idle[k])
    && (forall t, c :: Has(s, t, c) ==> Known(s, c) && c !in s.idle)
    && (forall t, u, c :: Has(s, t, c) && Has(s, u, c) ==> t == u)
    && (forall c :: c in s.gone ==> 0 <= c < s.next)
  }

  /** Every connection that was opened is idle, with a thread, or closed. */
  ghost predicate Accounted(s: Pool) {
    forall c :: 0 <= c < s.next ==> c in s.idle || c in s.gone || exists t :: Has(s, t, c)
  }

  predicate InLock(p: Place) {
    p.Locked? || p.Marked? || p.Signalled?
  }

  ghost predicate Orderly(s: Pool) {
    && (forall t :: InLock(s.At(t)) <==> s.lock == Some(t))
    && (s.closed <==> s.signalled || (s.lock.Some? && s.At(s.lock.value).Marked?))
    && (forall t :: s.At(t).Marked? ==> !s.signalled)
    && (forall t :: s.At(t).Signalled? ==> s.signalled)
  }

  ghost predicate Good(s: Pool) {
    s.size >= 1 && s.next >= 0 && SlotsCounted(s) && Exclusive(s) && Accounted(s) && Orderly(s)
  }

  /** What a step of a thread does to slots and connections: one of seven things. */
  datatype Effect = Stays | TakesSlot | TakesIdle | Opens | Returns | Closes | FreesSlot

  predicate HasEffect(s: Pool, r: Pool, t: Thread, e: Effect) {
    var p, q := s.At(t), r.At(t);
    match e
    case Stays =>
      && r.Keeps(s.idle, s.slots, s.next, s.gone)
      && ConnOf(p) == ConnOf(q) && (OwnsSlot(p) <==> OwnsSlot(q))
    case TakesSlot =>
      && r.Keeps(s.idle, s.slots + 1, s.next, s.gone) && s.slots < s.size
      && ConnOf(p) == ConnOf(q) == None && !OwnsSlot(p) && OwnsSlot(q)
    case TakesIdle =>
      && s.idle != [] && r.Keeps(s.idle[1..], s.slots, s.next, s.gone)
      && ConnOf(p) == None && ConnOf(q) == Some(s.idle[0]) && !OwnsSlot(p) && OwnsSlot(q)
    case Opens =>
      && r.Keeps(s.idle, s.slots, s.next + 1, s.gone)
      && ConnOf(p) == None && ConnOf(q) == Some(s.next) && OwnsSlot(p) && OwnsSlot(q)
    case Returns =>
      && ConnOf(p).Some? && r.Keeps(s.idle + [ConnOf(p).value], s.slots, s.next, s.gone)
      && ConnOf(q) == None && OwnsSlot(p) && !OwnsSlot(q)
    case Closes =>
      && ConnOf(p).Some? && r.Keeps(s.idle, s.slots, s.next, s.gone + {ConnOf(p).value})
      && ConnOf(q) == None && OwnsSlot(p) && OwnsSlot(q)
    case FreesSlot =>
      && s.slots > 0 && r.Keeps(s.idle, s.slots - 1, s.next, s.gone)
      && ConnOf(p) == ConnOf(q) == None && OwnsSlot(p) && !OwnsSlot(q)
  }

  function EffectOf(k: Kind): Effect {
    match k
    case TakeSlot => TakesSlot
    case TakeIdle => TakesIdle
    case ConnectOk => Opens
    case PutIdle => Returns
    case CloseConn => Closes
    case FreeSlot => FreesSlot
    case _ => Stays
  }

  /** A step changes the place of one thread only. */
  lemma OneThreadMoves(s: Pool, t: Thread, k: Kind)
    requires Move(s, t, k).Some?
    ensures var r := Move(s, t, k).value; r.size == s.size && r.places == s.places[t := r.At(t)]
  {
    match k {
      case ReadClosed => assert AfterRead(s, t, s.At(t)).Some?;
      case _ =>
    }
  }

  lemma ChangeEffect(s: Pool, t: Thread, k: Kind)
    requires Move(s, t, k).Some? && !EffectOf(k).Stays?
    ensures HasEffect(s, Move(s, t, k).value, t, EffectOf(k))
  {}

  lemma ReadEffect(s: Pool, t: Thread)
    requires Move(s, t, ReadClosed).Some?
    ensures HasEffect(s, Move(s, t, ReadClosed).value, t, Stays)
  {}

  lemma StayEffect(s: Pool, t: Thread, k: Kind)
    requires Move(s, t, k).Some? && EffectOf(k).Stays? && !k.ReadClosed?
    ensures HasEffect(s, Move(s, t, k).value, t, Stays)
  {
    var p, q := s.At(t), Move(s, t, k).value.At(t);
    assert ConnOf(p) == ConnOf(q);
  }

  /** Every step is a step of one thread with one of the effects. */
  lemma MoveEffect(s: Pool, t: Thread, k: Kind)
    requires Move(s, t, k).Some?
    ensures var r := Move(s, t, k).value;
            && r.size == s.size && r.places == s.places[t := r.At(t)]
            && HasEffect(s, r, t, EffectOf(k))
  {
    OneThreadMoves(s, t, k);
    if k.ReadClosed? {
      ReadEffect(s, t);
    } else if EffectOf(k).Stays? {
      StayEffect(s, t, k);
    } else {
      ChangeEffect(s, t, k);
    }
  }

  lemma OwnersMove(places: map<Thread, Place>, t: Thread, p: Place)
    ensures Owners(places[t := p]) == Owners(places) - {t} + (if OwnsSlot(p) then {t} else {})
    ensures t in Owners(places) <==> t in places && OwnsSlot(places[t])
  {}

  lemma SlotsKept(s: Pool, r: Pool, t: Thread, e: Effect)
    requires SlotsCounted(s) && r.size == s.size && r.places == s.places[t := r.At(t)] && HasEffect(s, r, t, e)
    ensures SlotsCounted(r)
  {
    OwnersMove(s.places, t, r.At(t));
    var before, after := Owners(s.places), Owners(r.places);
    if OwnsSlot(s.At(t)) && !OwnsSlot(r.At(t)) {
      assert after == before - {t};
    } else if !OwnsSlot(s.At(t)) && OwnsSlot(r.At(t)) {
      assert after == before + {t};
    } else {
      assert after == before;
    }
  }

  lemma ExclusiveKept(s: Pool, r: Pool, t: Thread, e: Effect)
    requires Exclusive(s) && s.next >= 0 && r.places == s.places[t := r.At(t)] && HasEffect(s, r, t, e)
    ensures Exclusive(r) && r.next >= 0
  {
    forall u, c ensures Has(r, u, c) <==> if u == t then ConnOf(r.At(t)) == Some(c) else Has(s, u, c) {
    }
    assert ConnOf(s.At(t)).Some? ==> Has(s, t, ConnOf(s.At(t)).value);
  }

  lemma AccountedKept(s: Pool, r: Pool, t: Thread, e: Effect)
    requires Accounted(s) && r.places == s.places[t := r.At(t)] && HasEffect(s, r, t, e)
    ensures Accounted(r)
  {
    forall c | 0 <= c < r.next ensures c in r.idle || c in r.gone || exists u :: Has(r, u, c) {
      if c == s.next {
        assert Has(r, t, c);
      } else if exists u :: Has(s, u, c) {
        var u :| Has(s, u, c);
        assert u != t ==> Has(r, u, c);
        assert ConnOf(r.At(t)) == Some(c) ==> Has(r, t, c);
      } else if c in s.idle && c !in r.idle {
        assert Has(r, t, c);
      }
    }
  }

  /** A step that leaves the lock and the flags leaves its thread inside or outside the lock. */
  lemma LockStep(s: Pool, t: Thread, k: Kind)
    requires Move(s, t, k).Some? && !(k.Lock? || k.ReadFlag? || k.SignalClose? || k.Unlock?)
    ensures var r := Move(s, t, k).value;
            && r.lock == s.lock && r.closed == s.closed && r.signalled == s.signalled
            && !InLock(s.At(t)) && !InLock(r.At(t))
  {
    match k {
      case ReadClosed => assert AfterRead(s, t, s.At(t)).Some?;
      case _ =>
    }
  }

  lemma OrderlyKept(s: Pool, t: Thread, k: Kind)
    requires Orderly(s) && Move(s, t, k).Some?
    ensures Orderly(Move(s, t, k).value)
  {
    var r := Move(s, t, k).value;
    OneThreadMoves(s, t, k);
    assert InLock(s.At(t)) <==> s.lock == Some(t);
    forall u | u != t ensures r.At(u) == s.At(u) {
    }
    if !(k.Lock? || k.ReadFlag? || k.SignalClose? || k.Unlock?) {
      LockStep(s, t, k);
    }
  }

  lemma GoodKept(s: Pool, t: Thread, k: Kind)
    requires Good(s) && Move(s, t, k).Some?
    ensures Good(Move(s, t, k).value)
  {
    var r, effect := Move(s, t, k).value, EffectOf(k);
    MoveEffect(s, t, k);
    SlotsKept(s, r, t, effect);
    ExclusiveKept(s, r, t, effect);
    AccountedKept(s, r, t, effect);
    OrderlyKept(s, t, k);
  }

  /** What a pool is in every interleaving of any number of acquires, releases and closes. */
  lemma {:induction false} AlwaysGood(r: Run, size: int, k: nat)
    requires IsRun(r, NewPool(size)) && k <= |r.steps|
    ensures Good(r.states[k])
  {
    if k == 0 {
    } else {
      AlwaysGood(r, size, k - 1);
      assert Stepped(r, k - 1);
      GoodKept(r.states[k - 1], r.steps[k - 1].thread, r.steps[k - 1].kind);
    }
  }

  // ---------------------------------------------------------------- what follows for every run

  /** Giving a slot back never waits, `release` never falls to its default branch, the close signal is given
      at most once, and whoever waits for a slot waits for threads that have one. */
  lemma NeverStuck(r: Run, size: int, k: nat, t: Thread)
    requires IsRun(r, NewPool(size)) && k <= |r.steps|
    ensures var s := r.states[k];
            && (s.At(t).Freeing? ==> Move(s, t, FreeSlot).Some?)
            && Move(s, t, ReleaseDefault) == None
            && (s.At(t).Returning? ==> Move(s, t, PutIdle).Some?)
            && (s.At(t).Marked? ==> !s.signalled)
            && (s.At(t).SecondSelect? && Move(s, t, TakeIdle) == None && Move(s, t, TakeSlot) == None ==>
                  |Owners(s.places)| == s.size)
  {
    AlwaysGood(r, size, k);
    OwnerCounts(r.states[k], t);
  }

  lemma OwnerCounts(s: Pool, t: Thread)
    requires SlotsCounted(s)
    ensures OwnsSlot(s.At(t)) ==> |s.idle| < s.slots
  {
    if OwnsSlot(s.At(t)) {
      assert t in Owners(s.places);
      assert |Owners(s.places)| >= 1;
    }
  }

  /** The connections that were opened and not closed. */
  function Open(s: Pool): set<Conn> {
    set c | 0 <= c < s.next && c !in s.gone
  }

  function Elements(cs: seq<Conn>): set<Conn> {
    set c | c in cs
  }

  lemma {:induction false} ElementsBound(cs: seq<Conn>)
    ensures |Elements(cs)| <= |cs|
  {
    if cs == [] {
    } else {
      ElementsBound(cs[1..]);
      assert Elements(cs) == Elements(cs[1..]) + {cs[0]};
    }
  }

  function Carried(places: map<Thread, Place>, ts: set<Thread>): set<Conn> {
    set t | t in ts && t in places && ConnOf(places[t]).Some? :: ConnOf(places[t]).value
  }

  lemma {:induction false} CarriedBound(places: map<Thread, Place>, ts: set<Thread>)
    ensures |Carried(places, ts)| <= |ts|
  {
    if t :| t in ts {
      CarriedBound(places, ts - {t});
      var rest := Carried(places, ts - {t});
      if t in places && ConnOf(places[t]).Some? {
        assert Carried(places, ts) == rest + {ConnOf(places[t]).value};
      } else {
        assert Carried(places, ts) == rest;
      }
    } else {
      assert Carried(places, ts) == {};
    }
  }

  lemma {:induction false} SubsetBound<T>(a: set<T>, b: set<T>)
    requires a <= b
    ensures |a| <= |b|
  {
    if a == {} {
    } else {
      var c :| c in a;
      SubsetBound(a - {c}, b - {c});
    }
  }

  lemma GoodBounded(s: Pool)
    requires SlotsCounted(s) && Accounted(s)
    ensures |Open(s)| <= s.slots <= s.size
  {
    var inIdle, carried := Elements(s.idle), Carried(s.places, Owners(s.places));
    ElementsBound(s.idle);
    CarriedBound(s.places, Owners(s.places));
    forall c | c in Open(s) ensures c in inIdle + carried {
      if c !in s.idle {
        var t :| Has(s, t, c);
        assert t in Owners(s.places);
      }
    }
    SubsetBound(Open(s), inIdle + carried);
  }

  /** In no interleaving are more connections open than the pool has slots, or than slots are taken. */
  lemma OpenBounded(r: Run, size: int, k: nat)
    requires IsRun(r, NewPool(size)) && k <= |r.steps|
    ensures |Open(r.states[k])| <= r.states[k].slots <= r.states[k].size
  {
    AlwaysGood(r, size, k);
    GoodBounded(r.states[k]);
  }

  /** When no thread is in a call and none holds a connection, every slot belongs to an idle connection, and
      every other connection was closed. */
  lemma NothingLeaks(r: Run, size: int, k: nat)
    requires IsRun(r, NewPool(size)) && k <= |r.steps|
    requires forall t :: r.states[k].At(t).Outside?
    ensures var s := r.states[k];
            s.slots == |s.idle| && (forall c :: 0 <= c < s.next ==> (c in s.idle <==> c !in s.gone))
  {
    AlwaysGood(r, size, k);
    var s := r.states[k];
    forall t ensures t !in Owners(s.places) {
      assert s.At(t).Outside?;
    }
    assert Owners(s.places) == {};
    forall t, c ensures !Has(s, t, c) {
      assert s.At(t).Outside?;
    }
  }

  lemma StepOnward(s: Pool, t: Thread, k: Kind)
    requires Move(s, t, k).Some?
    ensures s.gone <= Move(s, t, k).value.gone
    ensures s.closed ==> Move(s, t, k).value.closed
  {
    MoveEffect(s, t, k);
    match k {
      case ReadClosed => assert AfterRead(s, t, s.At(t)).Some?;
      case ReadFlag =>
      case _ =>
    }
  }

  lemma {:induction false} Onward(r: Run, start: Pool, i: nat, k: nat)
    requires IsRun(r, start) && i <= k <= |r.steps|
    ensures r.states[i].gone <= r.states[k].gone
    ensures r.states[i].closed ==> r.states[k].closed
  {
    if i == k {
    } else {
      Onward(r, start, i, k - 1);
      assert Stepped(r, k - 1);
      StepOnward(r.states[k - 1], r.steps[k - 1].thread, r.steps[k - 1].kind);
    }
  }

  /** The step closes the connection. */
  predicate ClosesNow(s: Pool, e: Step, c: Conn) {
    e.kind.CloseConn? && Has(s, e.thread, c)
  }

  lemma ClosedIsGone(r: Run, start: Pool, i: nat, c: Conn)
    requires IsRun(r, start) && i < |r.steps| && ClosesNow(r.states[i], r.steps[i], c)
    ensures c in r.states[i + 1].gone
  {
    assert Stepped(r, i);
  }

  /** No connection is closed twice. */
  lemma ClosedOnce(r: Run, size: int, i: nat, k: nat, c: Conn)
    requires IsRun(r, NewPool(size)) && i < k < |r.steps|
    requires ClosesNow(r.states[i], r.steps[i], c)
    ensures !ClosesNow(r.states[k], r.steps[k], c)
  {
    ClosedIsGone(r, NewPool(size), i, c);
    Onward(r, NewPool(size), i + 1, k);
    AlwaysGood(r, size, k);
    assert Exclusive(r.states[k]);
  }

  /** The thread's step is the one with which an acquire succeeds. */
  predicate Acquires(s: Pool, e: Step) {
    var r := Move(s, e.thread, e.kind);
    r.Some? && r.value.At(e.thread).Holding?
  }

  lemma AcquiresOpen(s: Pool, e: Step)
    requires Acquires(s, e)
    ensures !s.closed && s.lock == None
  {
    match e.kind {
      case ReadClosed => assert AfterRead(s, e.thread, s.At(e.thread)).Some?;
      case ReadFlag =>
      case _ =>
    }
  }

  /** Once the pool is marked closed no acquire succeeds any more. */
  lemma NoneAfterClose(r: Run, start: Pool, i: nat, k: nat)
    requires IsRun(r, start) && i <= k < |r.steps| && r.states[i].closed
    ensures !Acquires(r.states[k], r.steps[k])
  {
    Onward(r, start, i, k);
    if Acquires(r.states[k], r.steps[k]) {
      AcquiresOpen(r.states[k], r.steps[k]);
    }
  }

  // ---------------------------------------------------------------- after close has drained

  /** A release that has found the pool open and not yet chosen where the connection goes. */
  predicate MayReturn(p: Place) {
    p.HealthCheck? || p.Returning?
  }

  ghost predicate Sealed(s: Pool) {
    s.closed && s.idle == [] && forall t :: !MayReturn(s.At(t))
  }

  lemma SealedKept(s: Pool, t: Thread, k: Kind)
    requires Sealed(s) && Move(s, t, k).Some?
    ensures Sealed(Move(s, t, k).value)
  {
    var r := Move(s, t, k).value;
    MoveEffect(s, t, k);
    StepOnward(s, t, k);
    assert !MayReturn(s.At(t));
    forall u ensures !MayReturn(r.At(u)) {
      assert u != t ==> r.At(u) == s.At(u) && !MayReturn(s.At(u));
    }
  }

  lemma {:induction false} StaysSealed(r: Run, start: Pool, k: nat)
    requires IsRun(r, start) && k <= |r.steps| && Sealed(start)
    ensures Sealed(r.states[k])
  {
    if k == 0 {
    } else {
      StaysSealed(r, start, k - 1);
      assert Stepped(r, k - 1);
      SealedKept(r.states[k - 1], r.steps[k - 1].thread, r.steps[k - 1].kind);
    }
  }

  /** Some interleaving goes on from the state to one with an idle connection. */
  ghost predicate CanRefill(s: Pool) {
    exists r: Run :: IsRun(r, s) && r.states[|r.steps|].idle != []
  }

  lemma RefillRun(s: Pool, t: Thread)
    requires s.idle == [] && s.size >= 1 && MayReturn(s.At(t))
    ensures CanRefill(s)
  {
    var put := s.(idle := s.idle + [s.At(t).conn]).Go(t, Outside);
    var ready := s.Go(t, Returning(s.At(t).conn));
    var stored := ready.(idle := s.idle + [s.At(t).conn]).Go(t, Outside);
    var r := if s.At(t).Returning? then Run([s, put], [Step(t, PutIdle)])
             else Run([s, ready, stored], [Step(t, Healthy), Step(t, PutIdle)]);
    assert Stepped(r, 0);
    assert IsRun(r, s);
  }

  /** When close has drained the pool, a connection can become idle again in exactly one case: when a release
      has already found the pool open. */
  lemma RefillIff(r: Run, size: int, k: nat)
    requires IsRun(r, NewPool(size)) && k <= |r.steps| && r.states[k].closed && r.states[k].idle == []
    ensures CanRefill(r.states[k]) <==> exists t :: MayReturn(r.states[k].At(t))
  {
    var s := r.states[k];
    if exists t :: MayReturn(s.At(t)) {
      var t :| MayReturn(s.At(t));
      AlwaysGood(r, size, k);
      RefillRun(s, t);
    } else {
      assert Sealed(s);
      forall later: Run | IsRun(later, s) ensures later.states[|later.steps|].idle == [] {
        StaysSealed(later, s, |later.steps|);
      }
    }
  }

  ghost predicate Reaches(start: Pool, s: Pool) {
    exists r: Run :: IsRun(r, start) && r.states[|r.steps|] == s
  }

  lemma ReachStep(start: Pool, s: Pool, t: Thread, k: Kind, s': Pool)
    requires Reaches(start, s) && Move(s, t, k) == Some(s')
    ensures Reaches(start, s')
  {
    var r: Run :| IsRun(r, start) && r.states[|r.steps|] == s;
    var longer := Run(r.states + [s'], r.steps + [Step(t, k)]);
    forall i | 0 <= i < |longer.steps| ensures Stepped(longer, i) {
      assert i < |r.steps| ==> Stepped(r, i);
    }
    assert IsRun(longer, start);
  }

  /** A pool of one slot, nothing idle, with an acquiring thread 1 and a closing thread 2. */
  datatype Duo = Duo(slots: nat, next: Conn, signalled: bool, closed: bool, lock: Option<Thread>,
                     first: Place, second: Place)

  function PoolOf(d: Duo): Pool {
    Pool(1, [], d.slots, d.signalled, d.closed, d.lock, d.next, {}, map[1 := d.first, 2 := d.second])
  }

  lemma Turn(d: Duo, t: Thread, k: Kind, d': Duo)
    requires Reaches(NewPool(1), PoolOf(d)) && (t == 1 || t == 2)
    requires var r, p := Move(PoolOf(d), t, k), if t == 1 then d'.first else d'.second;
             r.Some? && r.value == PoolOf(d'.(first := d.first, second := d.second)).Go(t, p)
    requires if t == 1 then d.second == d'.second else d.first == d'.first
    ensures Reaches(NewPool(1), PoolOf(d'))
  {
    var r := Move(PoolOf(d), t, k).value;
    assert r.places == map[1 := d'.first, 2 := d'.second];
    ReachStep(NewPool(1), PoolOf(d), t, k, PoolOf(d'));
  }

  lemma Begun()
    ensures Reaches(NewPool(1), PoolOf(Duo(0, 0, false, false, None, ContextCheck, Locking)))
  {
    var s := NewPool(1);
    assert IsRun(Run([s], []), s);
    var s1 := s.Go(1, ContextCheck);
    ReachStep(s, s, 1, BeginAcquire, s1);
    var d := Duo(0, 0, false, false, None, ContextCheck, Locking);
    assert s1.Go(2, Locking).places == PoolOf(d).places;
    ReachStep(s, s1, 2, BeginClose, PoolOf(d));
  }

  lemma Slotted()
    ensures Reaches(NewPool(1), PoolOf(Duo(1, 0, false, false, None, SlotCheck, Locking)))
  {
    Begun();
    var d := Duo(0, 0, false, false, None, ContextCheck, Locking);
    Turn(d, 1, ContextLive, d.(first := OpenCheck));
    Turn(d.(first := OpenCheck), 1, ReadClosed, d.(first := FirstSelect));
    Turn(d.(first := FirstSelect), 1, FirstDefault, d.(first := SecondSelect));
    Turn(d.(first := SecondSelect), 1, TakeSlot, d.(slots := 1, first := SlotCheck));
  }

  lemma Connected()
    ensures Reaches(NewPool(1), PoolOf(Duo(1, 1, false, false, None, ConnCheck(0), Locking)))
  {
    Slotted();
    var d := Duo(1, 0, false, false, None, SlotCheck, Locking);
    Turn(d, 1, ReadClosed, d.(first := Connecting));
    Turn(d.(first := Connecting), 1, ConnectOk, d.(next := 1, first := ConnCheck(0)));
  }

  lemma FoundOpen()
    ensures Reaches(NewPool(1), PoolOf(Duo(1, 1, false, false, None, HealthCheck(0), Locking)))
  {
    Connected();
    var e := Duo(1, 1, false, false, None, ConnCheck(0), Locking);
    Turn(e, 1, ReadClosed, e.(first := Holding(0)));
    Turn(e.(first := Holding(0)), 1, BeginRelease, e.(first := ReleaseCheck(0)));
    Turn(e.(first := ReleaseCheck(0)), 1, ReadClosed, e.(first := HealthCheck(0)));
  }

  lemma MarkedClosed()
    ensures Reaches(NewPool(1), PoolOf(Duo(1, 1, false, true, Some(2), HealthCheck(0), Marked)))
  {
    FoundOpen();
    var d := Duo(1, 1, false, false, Some(2), HealthCheck(0), Locked);
    Turn(d.(lock := None, second := Locking), 2, Lock, d);
    Turn(d, 2, ReadFlag, d.(closed := true, second := Marked));
  }

  lemma Drained()
    ensures Reaches(NewPool(1), PoolOf(Duo(1, 1, true, true, None, HealthCheck(0), Outside)))
  {
    MarkedClosed();
    var d := Duo(1, 1, true, true, None, HealthCheck(0), Draining);
    Turn(d.(lock := Some(2), signalled := false, second := Marked), 2, SignalClose,
         d.(lock := Some(2), second := Signalled));
    Turn(d.(lock := Some(2), second := Signalled), 2, Unlock, d);
    Turn(d, 2, DrainEmpty, d.(second := Outside));
  }

  /** It does happen: from a state in which close has drained the pool and returned, the pool can still get an
      idle connection. */
  lemma RefillHappens()
    ensures var s := PoolOf(Duo(1, 1, true, true, None, HealthCheck(0), Outside));
            Reaches(NewPool(1), s) && s.closed && s.signalled && s.idle == [] && CanRefill(s)
  {
    Drained();
    var s := PoolOf(Duo(1, 1, true, true, None, HealthCheck(0), Outside));
    assert s.At(1) == HealthCheck(0);
    RefillRun(s, 1);
  }
}
