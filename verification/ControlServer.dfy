/**
 Shutdown of the control server: one accept loop, a handler for each connection and any
 number of callers of Close, interleaved at the points where they take the mutex, close a
 connection or signal the wait group.
 */
module ControlServer {
  import opened Wrappers

  type Conn = nat

  datatype AcceptPhase = Listening | Got(c: Conn) | Refusing(c: Conn) | Leaving | Stopped

  datatype HandlerPhase = Serving | Served | Hung | Forgotten

  datatype ClosePhase = NotCalled | Waiting | Returned

  /** `shut` are the connections that have been closed and `accepted` all that were ever accepted. */
  datatype State = State(
    closed: bool, connections: set<Conn>, group: int, accept: AcceptPhase,
    handlers: map<Conn, HandlerPhase>, close: ClosePhase, shut: set<Conn>, accepted: set<Conn>)

  datatype Label =
    | Accept(c: Conn) | AcceptFails | Register | Refuse | Leave
    | ServeEnds(c: Conn) | HangUp(c: Conn) | Forget(c: Conn) | Done(c: Conn)
    | CloseStarts | CloseReturns

  const INITIAL := State(false, {}, 1, Listening, map[], NotCalled, {}, {})

  predicate HandlerIn(st: State, c: Conn, phase: HandlerPhase) { c in st.handlers && st.handlers[c] == phase }

  predicate Enabled(st: State, l: Label) {
    match l
    case Accept(c) => st.accept.Listening? && !st.closed && c !in st.accepted
    case AcceptFails => st.accept.Listening?
    case Register => st.accept.Got?
    case Refuse => st.accept.Refusing?
    case Leave => st.accept.Leaving?
    case ServeEnds(c) => HandlerIn(st, c, Serving)
    case HangUp(c) => HandlerIn(st, c, Served)
    case Forget(c) => HandlerIn(st, c, Hung)
    case Done(c) => HandlerIn(st, c, Forgotten)
    case CloseStarts => st.close.NotCalled?
    case CloseReturns => st.close.Waiting? && st.group == 0
  }

  function Step(st: State, l: Label): State
    requires Enabled(st, l)
  {
    match l
    case Accept(c) => st.(accept := Got(c), accepted := st.accepted + {c})
    case AcceptFails => st.(accept := Leaving)
    case Register =>
      var c := st.accept.c;
      if st.closed then st.(accept := Refusing(c))
      else st.(connections := st.connections + {c}, group := st.group + 1, handlers := st.handlers[c := Serving],
               accept := Listening)
    case Refuse => st.(shut := st.shut + {st.accept.c}, accept := Leaving)
    case Leave => st.(accept := Stopped, group := st.group - 1)
    case ServeEnds(c) => st.(handlers := st.handlers[c := Served])
    case HangUp(c) => st.(handlers := st.handlers[c := Hung], shut := st.shut + {c})
    case Forget(c) => st.(handlers := st.handlers[c := Forgotten], connections := st.connections - {c})
    case Done(c) => st.(handlers := st.handlers - {c}, group := st.group - 1)
    case CloseStarts => st.(closed := true, shut := st.shut + st.connections, close := Waiting)
    case CloseReturns => st.(close := Returned)
  }

  ghost function Exec(labels: seq<Label>): Option<State> {
    if labels == [] then Some(INITIAL)
    else
      var before, l := Exec(labels[..|labels| - 1]), labels[|labels| - 1];
      if before.None? || !Enabled(before.value, l) then None else Some(Step(before.value, l))
  }

  ghost predicate Held(st: State, c: Conn) {
    || c in st.shut || c in st.handlers || st.accept == Got(c) || st.accept == Refusing(c)
  }

  ghost predicate AllHeld(st: State) { forall c :: c in st.accepted ==> Held(st, c) }

  ghost predicate Inv(st: State) {
    && st.group == |st.handlers| + (if st.accept.Stopped? then 0 else 1)
    && (forall c :: c in st.connections <==> c in st.handlers && !st.handlers[c].Forgotten?)
    && (forall c :: c in st.handlers && (st.handlers[c].Hung? || st.handlers[c].Forgotten?) ==> c in st.shut)
    && (forall c :: c in st.handlers ==> c in st.accepted)
    && AllHeld(st)
    && (st.accept.Got? ==> st.accept.c in st.accepted && st.accept.c !in st.handlers)
    && (st.closed <==> !st.close.NotCalled?)
    && (st.closed ==> st.connections <= st.shut)
    && (st.close.Returned? ==> st.group == 0)
  }

  lemma ReplaceOne(m: map<Conn, HandlerPhase>, c: Conn, h: HandlerPhase)
    requires c in m
    ensures |m[c := h]| == |m|
  {
    assert m[c := h].Keys == m.Keys;
    assert |m| == |m.Keys| && |m[c := h]| == |m[c := h].Keys|;
  }

  lemma RemoveOne(m: map<Conn, HandlerPhase>, c: Conn)
    requires c in m
    ensures |m - {c}| == |m| - 1
  {
    assert (m - {c}).Keys == m.Keys - {c};
    assert |m| == |m.Keys| && |m - {c}| == |(m - {c}).Keys|;
  }

  lemma HeldKept(st: State, l: Label)
    requires Inv(st) && Enabled(st, l)
    ensures AllHeld(Step(st, l))
  {
    var t := Step(st, l);
    forall c | c in t.accepted ensures Held(t, c) {
      assert c in st.accepted ==> Held(st, c);
    }
  }

  predicate ByHandler(l: Label) { l.ServeEnds? || l.HangUp? || l.Forget? || l.Done? }

  lemma HandlerStepKeepsInv(st: State, l: Label)
    requires Inv(st) && Enabled(st, l) && ByHandler(l)
    ensures Inv(Step(st, l))
  {
    hide Held, AllHeld;
    if l.Done? {
      RemoveOne(st.handlers, l.c);
    } else {
      ReplaceOne(st.handlers, l.c, Step(st, l).handlers[l.c]);
    }
    HeldKept(st, l);
  }

  lemma OtherStepKeepsInv(st: State, l: Label)
    requires Inv(st) && Enabled(st, l) && !ByHandler(l)
    ensures Inv(Step(st, l))
  {
    hide Held, AllHeld;
    HeldKept(st, l);
  }

  lemma StepKeepsInv(st: State, l: Label)
    requires Inv(st) && Enabled(st, l)
    ensures Inv(Step(st, l))
  {
    if ByHandler(l) {
      HandlerStepKeepsInv(st, l);
    } else {
      OtherStepKeepsInv(st, l);
    }
  }

  lemma {:induction false} EveryRun(labels: seq<Label>)
    requires Exec(labels).Some?
    ensures Inv(Exec(labels).value)
  {
    if labels != [] {
      EveryRun(labels[..|labels| - 1]);
      StepKeepsInv(Exec(labels[..|labels| - 1]).value, labels[|labels| - 1]);
    }
  }

  /** Until closing or a failing accept the loop goes on: it listens or is about to register a connection. */
  lemma {:induction false} AcceptingGoesOn(labels: seq<Label>, st: State)
    requires Exec(labels) == Some(st) && !st.closed
    requires forall k :: 0 <= k < |labels| ==> !labels[k].AcceptFails?
    ensures st.accept.Listening? || st.accept.Got?
  {
    if labels != [] {
      var n := |labels| - 1;
      AcceptingGoesOn(labels[..n], Exec(labels[..n]).value);
    }
  }

  /** A connection that arrives in time is registered, counted and served; a late one is only hung up on. */
  lemma RegisterServesOrRefuses(st: State, c: Conn)
    requires st.accept == Got(c)
    ensures Enabled(st, Register)
    ensures var t := Step(st, Register);
            if st.closed
            then t == st.(accept := Refusing(c)) && c in Step(t, Refuse).shut && Step(t, Refuse).handlers == st.handlers
            else && c in t.connections && HandlerIn(t, c, Serving) && t.group == st.group + 1 && t.accept.Listening?
                 && t.shut == st.shut
  {
  }

  /** The wait group counts the accept loop and the handlers, so it is never negative. */
  lemma GroupCountsGoroutines(labels: seq<Label>, st: State)
    requires Exec(labels) == Some(st)
    ensures st.group == |st.handlers| + (if st.accept.Stopped? then 0 else 1)
    ensures st.group >= 0
  {
    EveryRun(labels);
  }

  /** Once closed is set no connection is registered and the wait group never grows again. */
  lemma NothingStartsAfterClose(st: State, l: Label)
    requires st.closed && Enabled(st, l)
    ensures Step(st, l).closed && Step(st, l).connections <= st.connections
    ensures Step(st, l).group <= st.group && Step(st, l).handlers.Keys <= st.handlers.Keys
  {
  }

  /** When Close has returned, nothing runs, every accepted connection is closed and none is registered, for good. */
  lemma CloseDrains(labels: seq<Label>, st: State)
    requires Exec(labels) == Some(st) && st.close.Returned?
    ensures st.accept.Stopped? && st.handlers == map[]
    ensures st.accepted <= st.shut && st.connections == {}
    ensures forall l :: !Enabled(st, l)
  {
    EveryRun(labels);
    assert |st.handlers| == 0;
    forall c | c in st.accepted ensures c in st.shut {
      assert Held(st, c);
    }
  }

  lemma SomeHandler(m: map<Conn, HandlerPhase>) returns (c: Conn)
    requires |m| > 0
    ensures c in m
  {
    assert |m.Keys| == |m|;
    c :| c in m.Keys;
  }

  /** While Close waits, some goroutine can always take a step. */
  lemma CloseIsNeverStuck(labels: seq<Label>, st: State) returns (l: Label)
    requires Exec(labels) == Some(st) && st.close.Waiting?
    ensures Enabled(st, l)
    ensures l.CloseReturns? || Measure(Step(st, l)) < Measure(st)
  {
    EveryRun(labels);
    if st.group == 0 {
      l := CloseReturns;
    } else if !st.accept.Stopped? {
      l := match st.accept
           case Listening => AcceptFails
           case Got(_) => Register
           case Refusing(_) => Refuse
           case Leaving => Leave;
    } else {
      var c := SomeHandler(st.handlers);
      l := match st.handlers[c]
           case Serving => ServeEnds(c)
           case Served => HangUp(c)
           case Hung => Forget(c)
           case Forgotten => Done(c);
    }
    if !l.CloseReturns? {
      EveryStepIsProgress(labels, st, l);
    }
  }

  /** Whatever step is taken while Close waits, fewer remain: the wait ends in every schedule. */
  lemma EveryStepIsProgress(labels: seq<Label>, st: State, l: Label)
    requires Exec(labels) == Some(st) && st.close.Waiting? && Enabled(st, l) && !l.CloseReturns?
    ensures Measure(Step(st, l)) < Measure(st)
  {
    EveryRun(labels);
    if ByHandler(l) {
      Progress(st.handlers, l.c);
    }
  }

  /** A bound on the wait: from any state of it, no run of any schedule is longer than the count of steps left. */
  lemma {:induction false} WaitIsBounded(labels: seq<Label>, more: seq<Label>, st: State, t: State)
    requires Exec(labels) == Some(st) && !st.close.NotCalled? && Exec(labels + more) == Some(t)
    ensures !t.close.NotCalled?
    ensures t.close.Waiting? ==> |more| + Measure(t) <= Measure(st)
  {
    if more == [] {
      assert labels + more == labels;
    } else {
      var n := |more| - 1;
      var run := labels + more;
      assert run[..|run| - 1] == labels + more[..n];
      var before := Exec(labels + more[..n]).value;
      WaitIsBounded(labels, more[..n], st, before);
      if t.close.Waiting? {
        EveryStepIsProgress(labels + more[..n], before, more[n]);
      }
    }
  }

  function PhasesLeft(h: HandlerPhase): nat {
    match h case Serving => 4 case Served => 3 case Hung => 2 case Forgotten => 1
  }

  function AcceptLeft(a: AcceptPhase): nat {
    match a case Listening => 4 case Got(_) => 4 case Refusing(_) => 3 case Leaving => 2 case Stopped => 0
  }

  ghost function HandlersLeft(m: map<Conn, HandlerPhase>): nat
    decreases |m|
  {
    if m.Keys == {} then 0
    else
      var c :| c in m.Keys;
      RemoveOne(m, c);
      PhasesLeft(m[c]) + HandlersLeft(m - {c})
  }

  /** How many steps are left until everything has ended, once no more connections arrive. */
  ghost function Measure(st: State): nat { HandlersLeft(st.handlers) + AcceptLeft(st.accept) }

  /** The sum does not depend on the order in which handlers are counted. */
  lemma {:induction false} TakeOut(m: map<Conn, HandlerPhase>, c: Conn)
    requires c in m
    ensures HandlersLeft(m) == PhasesLeft(m[c]) + HandlersLeft(m - {c})
    decreases |m|
  {
    var d :| d in m.Keys && HandlersLeft(m) == PhasesLeft(m[d]) + HandlersLeft(m - {d});
    if d != c {
      RemoveOne(m, d);
      RemoveOne(m, c);
      TakeOut(m - {d}, c);
      TakeOut(m - {c}, d);
      assert m - {d} - {c} == m - {c} - {d};
    }
  }

  lemma MovesTo(m: map<Conn, HandlerPhase>, c: Conn, h: HandlerPhase)
    requires c in m
    ensures HandlersLeft(m[c := h]) == PhasesLeft(h) + HandlersLeft(m - {c})
  {
    TakeOut(m[c := h], c);
    assert m[c := h] - {c} == m - {c};
  }

  lemma Progress(m: map<Conn, HandlerPhase>, c: Conn)
    requires c in m
    ensures m[c].Serving? ==> HandlersLeft(m[c := Served]) < HandlersLeft(m)
    ensures m[c].Served? ==> HandlersLeft(m[c := Hung]) < HandlersLeft(m)
    ensures m[c].Hung? ==> HandlersLeft(m[c := Forgotten]) < HandlersLeft(m)
    ensures m[c].Forgotten? ==> HandlersLeft(m - {c}) < HandlersLeft(m)
  {
    TakeOut(m, c);
    MovesTo(m, c, Served);
    MovesTo(m, c, Hung);
    MovesTo(m, c, Forgotten);
  }

  /** The server's fields and the code that changes them under the mutex. */
  class Server {
    var closed: bool
    var connections: set<Conn>
    var group: int
    ghost var accept: AcceptPhase
    ghost var handlers: map<Conn, HandlerPhase>
    ghost var close: ClosePhase
    ghost var shut: set<Conn>
    ghost var accepted: set<Conn>

    ghost function Abs(): State
      reads this
    {
      State(closed, connections, group, accept, handlers, close, shut, accepted)
    }

    constructor ()
      ensures Abs() == INITIAL
    {
      closed, connections, group := false, {}, 1;
      accept, handlers, close, shut, accepted := Listening, map[], NotCalled, {}, {};
    }

    /** The accept loop's locked region; a connection that arrives after closing is not registered. */
    method RegisterConnection(c: Conn) returns (ok: bool)
      requires accept == Got(c)
      modifies this
      ensures Abs() == Step(old(Abs()), Register) && ok == !closed
    {
      if closed {
        accept := Refusing(c);
        return false;
      }
      connections := connections + {c};
      group := group + 1;
      handlers, accept := handlers[c := Serving], Listening;
      return true;
    }

    method ForgetConnection(c: Conn)
      requires HandlerIn(Abs(), c, Hung)
      modifies this
      ensures Abs() == Step(old(Abs()), Forget(c))
    {
      connections := connections - {c};
      handlers := handlers[c := Forgotten];
    }

    method FinishHandler(c: Conn)
      requires HandlerIn(Abs(), c, Forgotten)
      modifies this
      ensures Abs() == Step(old(Abs()), Done(c))
    {
      group := group - 1;
      handlers := handlers - {c};
    }

    /** The locked part of the first Close: stop accepting, then hang up on every registered connection. */
    method StartClose()
      requires close.NotCalled?
      modifies this
      ensures Abs() == Step(old(Abs()), CloseStarts)
    {
      closed := true;
      var left := connections;
      while left != {}
        invariant left <= connections && shut == old(shut) + (connections - left)
        invariant Abs() == old(Abs()).(closed := true, shut := shut)
        decreases left
      {
        var c :| c in left;
        shut := shut + {c};
        left := left - {c};
      }
      close := Waiting;
      assert shut == old(shut) + connections;
    }
  }
}
