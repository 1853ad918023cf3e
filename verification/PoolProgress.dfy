/** What a thread achieves in the connection pool when it goes on alone, and why connections are closed. */
module PoolProgress {
  import opened Options
  import opened ConnectionPool

  /** The thread can go on alone, by these steps, from one state to the other. */
  predicate Alone(s: Pool, t: Thread, kinds: seq<Kind>, after: Pool)
    decreases |kinds|
  {
    if kinds == [] then s == after
    else var next := Move(s, t, kinds[0]); next.Some? && Alone(next.value, t, kinds[1..], after)
  }

  /** Some steps of the thread lead from one state to the other. */
  ghost predicate CanAlone(s: Pool, t: Thread, after: Pool) {
    exists kinds :: Alone(s, t, kinds, after)
  }

  lemma AloneStep(s: Pool, t: Thread, k: Kind, mid: Pool, after: Pool)
    requires Move(s, t, k) == Some(mid) && CanAlone(mid, t, after)
    ensures CanAlone(s, t, after)
  {
    var kinds :| Alone(mid, t, kinds, after);
    assert ([k] + kinds)[1..] == kinds;
    assert Alone(s, t, [k] + kinds, after);
  }

  lemma AloneEnd(s: Pool, t: Thread)
    ensures CanAlone(s, t, s)
  {
    assert Alone(s, t, [], s);
  }

  /** Such steps are an interleaving. */
  lemma {:induction false} AloneIsRun(s: Pool, t: Thread, kinds: seq<Kind>, after: Pool) returns (r: Run)
    requires Alone(s, t, kinds, after)
    ensures IsRun(r, s) && r.states[|r.steps|] == after && |r.steps| == |kinds|
    ensures forall i :: 0 <= i < |kinds| ==> r.steps[i] == Step(t, kinds[i])
    decreases |kinds|
  {
    if kinds == [] {
      r := Run([s], []);
    } else {
      var rest := AloneIsRun(Move(s, t, kinds[0]).value, t, kinds[1..], after);
      r := Run([s] + rest.states, [Step(t, kinds[0])] + rest.steps);
      forall k | 0 <= k < |r.steps| ensures Stepped(r, k) {
        assert k > 0 ==> Stepped(rest, k - 1);
      }
    }
  }

  /** The pool is open and its flag can be looked at. */
  predicate Free(s: Pool) {
    !s.closed && !s.signalled && s.lock == None
  }

  /** In a reachable state the close signal is not given before the pool is marked closed. */
  lemma OpenIsFree(r: Run, size: int, k: nat)
    requires IsRun(r, NewPool(size)) && k <= |r.steps| && !r.states[k].closed && r.states[k].lock == None
    ensures Free(r.states[k])
  {
    AlwaysGood(r, size, k);
  }

  // ---------------------------------------------------------------- acquiring

  /** The way of an acquire to its first select. */
  lemma ToSelect(s: Pool, t: Thread, after: Pool)
    requires Free(s) && s.At(t) == Outside && CanAlone(s.Go(t, FirstSelect), t, after)
    ensures CanAlone(s, t, after)
  {
    var s1, s2 := s.Go(t, ContextCheck), s.Go(t, OpenCheck);
    assert s1.Go(t, OpenCheck) == s2 && s2.Go(t, FirstSelect) == s.Go(t, FirstSelect);
    AloneStep(s2, t, ReadClosed, s.Go(t, FirstSelect), after);
    AloneStep(s1, t, ContextLive, s2, after);
    AloneStep(s, t, BeginAcquire, s1, after);
  }

  /** While the pool is open and something is idle, an acquire gets the connection that is idle for longest, and nothing
      is closed or opened. */
  lemma AcquiresIdle(s: Pool, t: Thread)
    requires Free(s) && s.At(t) == Outside && s.idle != []
    ensures CanAlone(s, t, s.(idle := s.idle[1..]).Go(t, Holding(s.idle[0])))
  {
    var c, rest := s.idle[0], s.(idle := s.idle[1..]);
    var at, taken := s.Go(t, FirstSelect), rest.Go(t, IdleCheck(c));
    var after := rest.Go(t, Holding(c));
    assert at.(idle := s.idle[1..]).Go(t, IdleCheck(c)) == taken && taken.Go(t, Holding(c)) == after;
    AloneEnd(after, t);
    AloneStep(taken, t, ReadClosed, after, after);
    AloneStep(at, t, TakeIdle, taken, after);
    ToSelect(s, t, after);
  }

  /** The way on, when nothing is idle and a slot is free. */
  lemma ToConnecting(s: Pool, t: Thread, after: Pool)
    requires Free(s) && s.At(t) == Outside && s.idle == [] && s.slots < s.size
    requires CanAlone(s.(slots := s.slots + 1).Go(t, Connecting), t, after)
    ensures CanAlone(s, t, after)
  {
    var first, second := s.Go(t, FirstSelect), s.Go(t, SecondSelect);
    var more := s.(slots := s.slots + 1);
    var check, dial := more.Go(t, SlotCheck), more.Go(t, Connecting);
    assert first.Go(t, SecondSelect) == second && check.Go(t, Connecting) == dial;
    assert second.(slots := s.slots + 1).Go(t, SlotCheck) == check;
    AloneStep(check, t, ReadClosed, dial, after);
    AloneStep(second, t, TakeSlot, check, after);
    AloneStep(first, t, FirstDefault, second, after);
    ToSelect(s, t, after);
  }

  /** While the pool is open, nothing is idle and a slot is free, an acquire can open a new connection, which takes the
      slot. */
  lemma AcquiresNew(s: Pool, t: Thread)
    requires Free(s) && s.At(t) == Outside && s.idle == [] && s.slots < s.size
    ensures CanAlone(s, t, s.(slots := s.slots + 1, next := s.next + 1).Go(t, Holding(s.next)))
  {
    var after := s.(slots := s.slots + 1, next := s.next + 1).Go(t, Holding(s.next));
    var dial := s.(slots := s.slots + 1).Go(t, Connecting);
    var got := dial.(next := s.next + 1).Go(t, ConnCheck(s.next));
    assert got.Go(t, Holding(s.next)) == after;
    AloneEnd(after, t);
    AloneStep(got, t, ReadClosed, after, after);
    AloneStep(dial, t, ConnectOk, got, after);
    ToConnecting(s, t, after);
  }

  /** When the connection cannot be opened, the slot is free again. */
  lemma FailedDial(s: Pool, t: Thread)
    requires Free(s) && s.At(t) == Outside && s.idle == [] && s.slots < s.size
    ensures CanAlone(s, t, s.Go(t, Outside))
  {
    var dial := s.(slots := s.slots + 1).Go(t, Connecting);
    var freeing := dial.Go(t, Freeing(false));
    var after := s.Go(t, Outside);
    assert freeing.(slots := s.slots).Go(t, Outside) == after;
    AloneEnd(after, t);
    AloneStep(freeing, t, FreeSlot, after, after);
    AloneStep(dial, t, ConnectFail, freeing, after);
    ToConnecting(s, t, after);
  }

  // ---------------------------------------------------------------- releasing

  /** Closing a connection and giving its slot back. */
  lemma ClosesAlone(s: Pool, t: Thread, c: Conn, after: Pool)
    requires s.At(t) == Closing(c, false) && s.slots > 0
    requires after == s.(gone := s.gone + {c}, slots := s.slots - 1).Go(t, Outside)
    ensures CanAlone(s, t, after)
  {
    var freeing := s.(gone := s.gone + {c}).Go(t, Freeing(false));
    assert freeing.(slots := s.slots - 1).Go(t, Outside) == after;
    AloneEnd(after, t);
    AloneStep(freeing, t, FreeSlot, after, after);
    AloneStep(s, t, CloseConn, freeing, after);
  }

  lemma ToHealthCheck(s: Pool, t: Thread, c: Conn, after: Pool)
    requires Free(s) && s.At(t) == Holding(c) && CanAlone(s.Go(t, HealthCheck(c)), t, after)
    ensures CanAlone(s, t, after)
  {
    var check := s.Go(t, ReleaseCheck(c));
    assert check.Go(t, HealthCheck(c)) == s.Go(t, HealthCheck(c));
    AloneStep(check, t, ReadClosed, s.Go(t, HealthCheck(c)), after);
    AloneStep(s, t, BeginRelease, check, after);
  }

  /** In an open pool a healthy connection that is released becomes idle, behind the others, and is not closed. */
  lemma ReleaseKeeps(s: Pool, t: Thread, c: Conn)
    requires Free(s) && s.At(t) == Holding(c) && |s.idle| < s.size
    ensures CanAlone(s, t, s.(idle := s.idle + [c]).Go(t, Outside))
  {
    var check, back := s.Go(t, HealthCheck(c)), s.Go(t, Returning(c));
    var after := s.(idle := s.idle + [c]).Go(t, Outside);
    assert check.Go(t, Returning(c)) == back && back.(idle := s.idle + [c]).Go(t, Outside) == after;
    AloneEnd(after, t);
    AloneStep(back, t, PutIdle, after, after);
    AloneStep(check, t, Healthy, back, after);
    ToHealthCheck(s, t, c, after);
  }

  /** An unhealthy one is closed, and its slot is free again. */
  lemma ReleaseCloses(s: Pool, t: Thread, c: Conn)
    requires Free(s) && s.At(t) == Holding(c) && s.slots > 0
    ensures CanAlone(s, t, s.(gone := s.gone + {c}, slots := s.slots - 1).Go(t, Outside))
  {
    var after := s.(gone := s.gone + {c}, slots := s.slots - 1).Go(t, Outside);
    var check, closing := s.Go(t, HealthCheck(c)), s.Go(t, Closing(c, false));
    assert check.Go(t, Closing(c, false)) == closing;
    assert closing.(gone := s.gone + {c}, slots := s.slots - 1).Go(t, Outside) == after;
    ClosesAlone(closing, t, c, after);
    AloneStep(check, t, Unhealthy, closing, after);
    ToHealthCheck(s, t, c, after);
  }

  /** So is any that is released after the pool was marked closed. */
  lemma ReleaseAfterClose(s: Pool, t: Thread, c: Conn)
    requires s.closed && s.lock == None && s.At(t) == Holding(c) && s.slots > 0
    ensures CanAlone(s, t, s.(gone := s.gone + {c}, slots := s.slots - 1).Go(t, Outside))
  {
    var after := s.(gone := s.gone + {c}, slots := s.slots - 1).Go(t, Outside);
    var check, closing := s.Go(t, ReleaseCheck(c)), s.Go(t, Closing(c, false));
    assert check.Go(t, Closing(c, false)) == closing;
    assert closing.(gone := s.gone + {c}, slots := s.slots - 1).Go(t, Outside) == after;
    ClosesAlone(closing, t, c, after);
    AloneStep(check, t, ReadClosed, closing, after);
    AloneStep(s, t, BeginRelease, check, after);
  }

  // ---------------------------------------------------------------- in a closed pool

  /** The pool is closed and the signal given. */
  predicate Over(s: Pool) {
    s.closed && s.signalled && s.lock == None
  }

  /** A thread that has a connection at any point of an acquire or a release then closes it and frees its slot. */
  lemma GivesUpConn(s: Pool, t: Thread, c: Conn)
    requires Over(s) && s.slots > 0
    requires s.At(t) in {IdleCheck(c), ConnCheck(c), ReleaseCheck(c), Returning(c)}
    ensures CanAlone(s, t, s.(gone := s.gone + {c}, slots := s.slots - 1).Go(t, Outside))
  {
    var after := s.(gone := s.gone + {c}, slots := s.slots - 1).Go(t, Outside);
    var closing := s.Go(t, Closing(c, false));
    assert closing.(gone := s.gone + {c}, slots := s.slots - 1).Go(t, Outside) == after;
    ClosesAlone(closing, t, c, after);
    AloneStep(s, t, if s.At(t).Returning? then TakeCloseSignal else ReadClosed, closing, after);
  }

  /** One that has a slot gives it back, and one that has nothing goes. */
  lemma GivesUp(s: Pool, t: Thread)
    requires Over(s)
    ensures s.At(t) in {OpenCheck, FirstSelect, SecondSelect} ==> CanAlone(s, t, s.Go(t, Outside))
    ensures s.At(t) == SlotCheck && s.slots > 0 ==> CanAlone(s, t, s.(slots := s.slots - 1).Go(t, Outside))
  {
    if s.At(t) in {OpenCheck, FirstSelect, SecondSelect} {
      AloneEnd(s.Go(t, Outside), t);
      AloneStep(s, t, if s.At(t) == OpenCheck then ReadClosed else TakeCloseSignal, s.Go(t, Outside), s.Go(t, Outside));
    }
    if s.At(t) == SlotCheck && s.slots > 0 {
      var freeing, after := s.Go(t, Freeing(false)), s.(slots := s.slots - 1).Go(t, Outside);
      assert freeing.(slots := s.slots - 1).Go(t, Outside) == after;
      AloneEnd(after, t);
      AloneStep(freeing, t, FreeSlot, after, after);
      AloneStep(s, t, ReadClosed, freeing, after);
    }
  }

  /** An acquire that finds the pool closed at once goes at once. */
  lemma GoesAtOnce(s: Pool, t: Thread)
    requires s.closed && s.lock == None && s.At(t) == OpenCheck
    ensures Move(s, t, ReadClosed) == Some(s.Go(t, Outside))
  {}

  /** A new pool is open and empty, and has as many slots as asked for, or ten. */
  lemma NewPoolIs(size: int)
    ensures Free(NewPool(size)) && NewPool(size).size == (if size >= 1 then size else 10)
    ensures NewPool(size).idle == [] && NewPool(size).slots == 0 && NewPool(size).gone == {}
    ensures forall t: Thread :: NewPool(size).At(t) == Outside
  {}

  /** A second close does nothing. */
  lemma ClosesOnce(s: Pool, t: Thread)
    requires s.closed && s.lock == None && s.At(t) == Outside
    ensures CanAlone(s, t, s.Go(t, Outside))
  {
    var locking, locked := s.Go(t, Locking), s.(lock := Some(t)).Go(t, Locked);
    assert locking.(lock := Some(t)).Go(t, Locked) == locked && locked.(lock := None).Go(t, Outside) == s.Go(t, Outside);
    AloneEnd(s.Go(t, Outside), t);
    AloneStep(locked, t, ReadFlag, s.Go(t, Outside), s.Go(t, Outside));
    AloneStep(locking, t, Lock, locked, s.Go(t, Outside));
    AloneStep(s, t, BeginClose, locking, s.Go(t, Outside));
  }

  /** What an acquire can do at its selects: take the signal when it is given, a connection when one is idle, at the first
      one nothing else unless neither is there, at the second a free slot; and at both checks of the context, give up. */
  lemma Selects(s: Pool, t: Thread)
    ensures s.At(t) == FirstSelect ==>
              && (Move(s, t, TakeCloseSignal).Some? <==> s.signalled) && (Move(s, t, TakeIdle).Some? <==> s.idle != [])
              && (Move(s, t, FirstDefault).Some? <==> !s.signalled && s.idle == [])
              && Move(s, t, TakeSlot) == Move(s, t, ContextDone) == None
    ensures s.At(t) == SecondSelect ==>
              && (Move(s, t, TakeCloseSignal).Some? <==> s.signalled) && (Move(s, t, TakeIdle).Some? <==> s.idle != [])
              && (Move(s, t, TakeSlot).Some? <==> s.slots < s.size)
              && Move(s, t, FirstDefault) == None && Move(s, t, ContextDone) == Some(s.Go(t, Outside))
    ensures s.At(t) == ContextCheck ==> Move(s, t, ContextDead) == Some(s.Go(t, Outside))
  {}

  // ---------------------------------------------------------------- closing the pool

  /** The pool when its idle connections are closed and their slots free. */
  function Emptied(s: Pool): Pool
    requires s.slots >= |s.idle|
  {
    s.(idle := [], gone := s.gone + Elements(s.idle), slots := s.slots - |s.idle|)
  }

  /** The pool when the first idle connection is closed. */
  function OneLess(s: Pool): Pool
    requires s.idle != [] && s.slots > 0
  {
    s.(idle := s.idle[1..], gone := s.gone + {s.idle[0]}, slots := s.slots - 1)
  }

  lemma DrainsOne(s: Pool, t: Thread, after: Pool)
    requires s.At(t) == Draining && s.idle != [] && s.slots > 0 && CanAlone(OneLess(s).Go(t, Draining), t, after)
    ensures CanAlone(s, t, after)
  {
    var c := s.idle[0];
    var taken := s.(idle := s.idle[1..]).Go(t, Closing(c, true));
    FreesOne(s, t, after);
    AloneStep(s, t, TakeIdle, taken, after);
  }

  lemma FreesOne(s: Pool, t: Thread, after: Pool)
    requires s.idle != [] && s.slots > 0 && CanAlone(OneLess(s).Go(t, Draining), t, after)
    ensures CanAlone(s.(idle := s.idle[1..]).Go(t, Closing(s.idle[0], true)), t, after)
  {
    var c, rest := s.idle[0], OneLess(s).Go(t, Draining);
    var taken := s.(idle := s.idle[1..]).Go(t, Closing(c, true));
    var closed := s.(idle := s.idle[1..], gone := s.gone + {c}).Go(t, Freeing(true));
    assert taken.(gone := s.gone + {c}).Go(t, Freeing(true)) == closed;
    assert closed.(slots := s.slots - 1).Go(t, Draining) == rest;
    AloneStep(closed, t, FreeSlot, rest, after);
    AloneStep(taken, t, CloseConn, closed, after);
  }

  lemma EmptiedOneLess(s: Pool, t: Thread)
    requires s.idle != [] && s.slots >= |s.idle|
    ensures Emptied(OneLess(s).Go(t, Draining)).Go(t, Outside) == Emptied(s).Go(t, Outside)
  {
    assert Elements(s.idle) == {s.idle[0]} + Elements(s.idle[1..]);
    assert s.gone + {s.idle[0]} + Elements(s.idle[1..]) == s.gone + Elements(s.idle);
    assert s.places[t := Draining][t := Outside] == s.places[t := Outside];
  }

  lemma {:induction false} Drains(s: Pool, t: Thread)
    requires s.At(t) == Draining && s.slots >= |s.idle|
    ensures CanAlone(s, t, Emptied(s).Go(t, Outside))
    decreases |s.idle|
  {
    var after := Emptied(s).Go(t, Outside);
    if s.idle == [] {
      assert Elements(s.idle) == {} && s.Go(t, Outside) == after;
      AloneEnd(after, t);
      AloneStep(s, t, DrainEmpty, after, after);
    } else {
      Drains(OneLess(s).Go(t, Draining), t);
      EmptiedOneLess(s, t);
      DrainsOne(s, t, after);
    }
  }

  lemma ToDraining(s: Pool, t: Thread, after: Pool)
    requires Free(s) && s.At(t) == Outside
    requires CanAlone(s.(closed := true, signalled := true).Go(t, Draining), t, after)
    ensures CanAlone(s, t, after)
  {
    var locking, locked := s.Go(t, Locking), s.(lock := Some(t)).Go(t, Locked);
    var marked := s.(lock := Some(t), closed := true).Go(t, Marked);
    assert locking.(lock := Some(t)).Go(t, Locked) == locked && locked.(closed := true).Go(t, Marked) == marked;
    Signals(s, t, after);
    AloneStep(locked, t, ReadFlag, marked, after);
    AloneStep(locking, t, Lock, locked, after);
    AloneStep(s, t, BeginClose, locking, after);
  }

  lemma Signals(s: Pool, t: Thread, after: Pool)
    requires s.lock == None && CanAlone(s.(closed := true, signalled := true).Go(t, Draining), t, after)
    ensures CanAlone(s.(lock := Some(t), closed := true).Go(t, Marked), t, after)
  {
    var marked := s.(lock := Some(t), closed := true).Go(t, Marked);
    var given := s.(lock := Some(t), closed := true, signalled := true).Go(t, Signalled);
    var draining := s.(closed := true, signalled := true).Go(t, Draining);
    assert marked.(signalled := true).Go(t, Signalled) == given && given.(lock := None).Go(t, Draining) == draining;
    AloneStep(given, t, Unlock, draining, after);
    AloneStep(marked, t, SignalClose, given, after);
  }

  /** A close marks the pool closed, gives the signal, and closes every idle connection. */
  lemma ClosesPool(s: Pool, t: Thread)
    requires Free(s) && s.At(t) == Outside && s.slots >= |s.idle|
    ensures CanAlone(s, t, Emptied(s).(closed := true, signalled := true).Go(t, Outside))
  {
    var draining := s.(closed := true, signalled := true).Go(t, Draining);
    Drains(draining, t);
    assert Emptied(draining).Go(t, Outside) == Emptied(s).(closed := true, signalled := true).Go(t, Outside);
    ToDraining(s, t, Emptied(s).(closed := true, signalled := true).Go(t, Outside));
  }

  // ---------------------------------------------------------------- why connections are closed

  /** Event i finds the connection of its thread unhealthy. */
  predicate FoundUnhealthy(r: Run, i: nat, t: Thread, c: Conn)
    requires |r.states| == |r.steps| + 1 && i < |r.steps|
  {
    r.steps[i] == Step(t, Unhealthy) && r.states[i].At(t) == HealthCheck(c)
  }

  lemma ClosingStarts(s: Pool, t: Thread, k: Kind, u: Thread, c: Conn, draining: bool)
    requires Good(s) && !s.closed && Move(s, t, k).Some? && Move(s, t, k).value.At(u) == Closing(c, draining)
    ensures s.At(u) == Closing(c, draining) || (u == t && k == Unhealthy && s.At(t) == HealthCheck(c))
            || (u == t && k == TakeIdle && s.At(t) == Draining)
  {
    OneThreadMoves(s, t, k);
    OwnerCounts(s, t);
    if k.ReadClosed? {
      assert AfterRead(s, t, s.At(t)).Some?;
    }
  }

  /** Nobody drains a pool that was never marked closed. */
  lemma {:induction false} NobodyDrains(r: Run, size: int, k: nat, t: Thread)
    requires IsRun(r, NewPool(size)) && k <= |r.steps| && !r.states[k].closed
    ensures !r.states[k].At(t).Draining?
    ensures forall c, d :: r.states[k].At(t) == Closing(c, d) ==> !d
    ensures forall d :: r.states[k].At(t) == Freeing(d) ==> !d
  {
    if k == 0 {
    } else {
      assert Stepped(r, k - 1);
      Onward(r, NewPool(size), k - 1, k);
      AlwaysGood(r, size, k - 1);
      NobodyDrains(r, size, k - 1, t);
      NoDrainStep(r.states[k - 1], r.steps[k - 1].thread, r.steps[k - 1].kind, t);
    }
  }

  predicate Drainer(p: Place) {
    p.Draining? || (p.Closing? && p.draining) || (p.Freeing? && p.draining)
  }

  lemma NoDrainStep(s: Pool, t: Thread, k: Kind, u: Thread)
    requires Good(s) && !s.closed && Move(s, t, k).Some? && !Drainer(s.At(u))
    ensures !Drainer(Move(s, t, k).value.At(u))
  {
    OneThreadMoves(s, t, k);
    if k.ReadClosed? {
      assert AfterRead(s, t, s.At(t)).Some?;
    }
  }

  /** While the pool is not marked closed, a connection is closed only when its health check failed. */
  lemma {:induction false} ClosedForHealth(r: Run, size: int, k: nat, t: Thread, c: Conn)
    requires IsRun(r, NewPool(size)) && k <= |r.steps| && !r.states[k].closed
    requires r.states[k].At(t) == Closing(c, false)
    ensures exists i :: 0 <= i < k && FoundUnhealthy(r, i, t, c)
  {
    assert k > 0;
    assert Stepped(r, k - 1);
    Onward(r, NewPool(size), k - 1, k);
    AlwaysGood(r, size, k - 1);
    ClosingStarts(r.states[k - 1], r.steps[k - 1].thread, r.steps[k - 1].kind, t, c, false);
    if r.states[k - 1].At(t) == Closing(c, false) {
      ClosedForHealth(r, size, k - 1, t, c);
    } else {
      NobodyDrains(r, size, k - 1, t);
      assert FoundUnhealthy(r, k - 1, t, c);
    }
  }

  /** Of the connections that were opened, only such are closed while the pool is not. */
  lemma {:induction false} GoneForHealth(r: Run, size: int, k: nat, c: Conn)
    requires IsRun(r, NewPool(size)) && k <= |r.steps| && !r.states[k].closed && c in r.states[k].gone
    ensures exists i, t :: 0 <= i < k && FoundUnhealthy(r, i, t, c)
  {
    assert k > 0;
    assert Stepped(r, k - 1);
    Onward(r, NewPool(size), k - 1, k);
    if c in r.states[k - 1].gone {
      GoneForHealth(r, size, k - 1, c);
    } else {
      var s, t, kind := r.states[k - 1], r.steps[k - 1].thread, r.steps[k - 1].kind;
      MoveEffect(s, t, kind);
      NobodyDrains(r, size, k - 1, t);
      assert s.At(t) == Closing(c, false);
      ClosedForHealth(r, size, k - 1, t, c);
    }
  }
}
