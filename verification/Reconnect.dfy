/** Reconnecting to the Lightning node: attempts, their streams, retries and closed streams. */
module Reconnect {

  /** A pending timer: to start over, or to retry for the attempt that set it. */
  datatype Timer = StartOver | Retry(ctx: int)

  /** ctx is the context of the latest attempt; used are all contexts so far; flying are attempts that
      have not settled; made are the attempts that have made a stream, open those whose stream is open;
      attempts are the contexts of all attempts, in order. */
  datatype State = State(ctx: int, used: set<int>, flying: map<nat, int>, made: set<nat>, open: map<nat, int>,
                         timers: map<nat, Timer>, handles: nat, attempts: seq<int>)

  const Initial := State(0, {0}, map[], {}, map[], map[], 0, [])

  /** Open: an attempt makes its stream; Connect: it settles; Raise: its stream ends with an event that
      starts over, of which one ending can raise several; Finish: its stream ends with one that does not. */
  datatype Step =
    | Call(drawn: int)
    | Fire(handle: nat, drawn: int)
    | Open(handle: nat)
    | Connect(handle: nat)
    | Raise(handle: nat)
    | Finish(handle: nat)
    | Fail(handle: nat)
    | GiveUp(handle: nat)

  function Attempt(s: State, c: int): State {
    s.(ctx := c, used := s.used + {c}, flying := s.flying[s.handles := c], handles := s.handles + 1,
       attempts := s.attempts + [c])
  }

  function SetTimer(s: State, t: Timer): State {
    s.(timers := s.timers[s.handles := t], handles := s.handles + 1)
  }

  function Settle(s: State, h: nat): State {
    s.(flying := s.flying - {h})
  }

  function Shut(s: State, h: nat): State {
    s.(open := s.open - {h})
  }

  function Apply(s: State, e: Step): State {
    match e
    case Call(drawn) => Attempt(s, drawn)
    case Fire(h, drawn) =>
      if h !in s.timers then s
      else
        var u := s.(timers := s.timers - {h});
        (match s.timers[h]
         case StartOver => Attempt(u, drawn)
         case Retry(c) => if s.ctx == c then Attempt(u, c) else u)
    case Open(h) =>
      if h in s.flying && h !in s.made then s.(made := s.made + {h}, open := s.open[h := s.flying[h]]) else s
    case Connect(h) => if h in s.made then Settle(s, h) else s
    case Raise(h) => if h in s.made then SetTimer(Shut(s, h), StartOver) else s
    case Finish(h) => if h in s.made then Settle(Shut(s, h), h) else s
    case Fail(h) => if h in s.flying then SetTimer(Settle(Shut(s, h), h), Retry(s.flying[h])) else s
    case GiveUp(h) => Settle(Shut(s, h), h)
  }

  /** A context that is drawn was not drawn before. */
  predicate Fresh(s: State, e: Step) {
    && (e.Call? ==> e.drawn !in s.used)
    && (e.Fire? && e.handle in s.timers && s.timers[e.handle].StartOver? ==> e.drawn !in s.used)
  }

  ghost function Run(s: State, es: seq<Step>): State {
    if es == [] then s else Apply(Run(s, es[..|es| - 1]), es[|es| - 1])
  }

  ghost predicate FreshRun(s: State, es: seq<Step>) {
    es == [] || (FreshRun(s, es[..|es| - 1]) && Fresh(Run(s, es[..|es| - 1]), es[|es| - 1]))
  }

  class Node {
    var ctx: int
    var flying: map<nat, int>
    var open: map<nat, int>
    var timers: map<nat, Timer>
    var handles: nat
    ghost var made: set<nat>
    ghost var used: set<int>
    ghost var attempts: seq<int>

    ghost function View(): State
      reads this
    {
      State(ctx, used, flying, made, open, timers, handles, attempts)
    }

    constructor ()
      ensures View() == Initial
    {
      ctx, flying, open, timers, handles, made, used, attempts := 0, map[], map[], map[], 0, {}, {0}, [];
    }

    /** The part of an attempt before it waits for the connection. */
    method ReconnectToLightning(innerCtx: int)
      modifies this
      ensures View() == Attempt(old(View()), innerCtx)
    {
      ctx := innerCtx;
      used := used + {innerCtx};
      attempts := attempts + [innerCtx];
      flying := flying[handles := innerCtx];
      handles := handles + 1;
    }

    method SetTimeout(t: Timer)
      modifies this`timers, this`handles
      ensures View() == SetTimer(old(View()), t)
    {
      timers := timers[handles := t];
      handles := handles + 1;
    }

    /** An event of the stream of an attempt: its code says whether to start over. */
    method OnStatusOrEnd(h: nat, startsOver: bool)
      requires h in View().made
      modifies this
      ensures View() == Apply(old(View()), if startsOver then Raise(h) else Finish(h))
    {
      open := open - {h};
      if startsOver {
        SetTimeout(StartOver);
      } else {
        flying := flying - {h};
      }
    }

    /** The part of an attempt after the connection has failed. */
    method Failed(h: nat)
      modifies this
      ensures View() == Apply(old(View()), Fail(h))
    {
      if h in flying {
        var innerCtx := flying[h];
        open := open - {h};
        flying := flying - {h};
        SetTimeout(Retry(innerCtx));
      }
    }

    method Timeout(h: nat, drawn: int)
      modifies this
      ensures View() == Apply(old(View()), Fire(h, drawn))
    {
      if h !in timers {
        return;
      }
      var t := timers[h];
      timers := timers - {h};
      match t {
        case StartOver =>
          ReconnectToLightning(drawn);
        case Retry(innerCtx) =>
          if ctx == innerCtx {
            ReconnectToLightning(innerCtx);
          }
      }
    }
  }

  // ---------------------------------------------------------------- chains of attempts

  /** The context a handle stands for, if it is an attempt, an open stream or a retry. */
  ghost predicate Stands(s: State, h: nat, c: int) {
    || (h in s.flying && s.flying[h] == c)
    || (h in s.open && s.open[h] == c)
    || (h in s.timers && s.timers[h] == Retry(c))
  }

  /** Each context has at most one attempt, with its stream, or one retry. */
  ghost predicate OneEach(s: State) {
    && s.ctx in s.used
    && (forall h :: h in s.flying || h in s.made || h in s.timers ==> h < s.handles)
    && (forall h :: h in s.open ==> h in s.made && (h in s.flying ==> s.flying[h] == s.open[h]))
    && (forall h :: h in s.flying || h in s.made ==> h !in s.timers)
    && (forall h, c :: Stands(s, h, c) ==> c in s.used)
    && (forall h, k, c :: Stands(s, h, c) && Stands(s, k, c) ==> h == k)
  }

  ghost predicate Unused(s: State, c: int) {
    forall h :: !Stands(s, h, c)
  }

  lemma AttemptKeeps(s: State, c: int)
    requires OneEach(s) && Unused(s, c)
    ensures OneEach(Attempt(s, c))
  {
    var t := Attempt(s, c);
    forall h, d | Stands(t, h, d)
      ensures (h == s.handles && d == c) || Stands(s, h, d)
    {
    }
  }

  lemma DropTimer(s: State, h: nat)
    requires OneEach(s) && h in s.timers
    ensures var u := s.(timers := s.timers - {h});
            OneEach(u) && (s.timers[h].Retry? ==> Unused(u, s.timers[h].ctx))
  {
    var u := s.(timers := s.timers - {h});
    assert forall k, c :: Stands(u, k, c) ==> Stands(s, k, c) && k != h;
    if s.timers[h].Retry? {
      assert Stands(s, h, s.timers[h].ctx);
    }
  }

  lemma OpenKeeps(s: State, h: nat)
    requires OneEach(s)
    ensures OneEach(Apply(s, Open(h)))
  {
    var t := Apply(s, Open(h));
    assert forall k, c :: Stands(t, k, c) ==> Stands(s, k, c);
  }

  lemma SettleKeeps(s: State, h: nat)
    requires OneEach(s)
    ensures OneEach(Settle(s, h))
  {
    assert forall k, c :: Stands(Settle(s, h), k, c) ==> Stands(s, k, c);
  }

  lemma ShutKeeps(s: State, h: nat)
    requires OneEach(s)
    ensures OneEach(Shut(s, h))
  {
    assert forall k, c :: Stands(Shut(s, h), k, c) ==> Stands(s, k, c);
  }

  lemma TimerKeeps(s: State, t: Timer)
    requires OneEach(s)
    requires t.Retry? ==> t.ctx in s.used && Unused(s, t.ctx)
    ensures OneEach(SetTimer(s, t))
  {
    var u := SetTimer(s, t);
    forall k, c | Stands(u, k, c)
      ensures (k == s.handles && t == Retry(c)) || Stands(s, k, c)
    {
    }
  }

  /** An attempt that fails leaves its context to the retry. */
  lemma FailFrees(s: State, h: nat)
    requires OneEach(s) && h in s.flying
    ensures var u := Settle(Shut(s, h), h);
            s.flying[h] in u.used && Unused(u, s.flying[h])
  {
    var u := Settle(Shut(s, h), h);
    assert Stands(s, h, s.flying[h]);
    assert forall k, c :: Stands(u, k, c) ==> Stands(s, k, c) && k != h;
  }

  lemma UnusedIfFresh(s: State, c: int)
    requires OneEach(s) && c !in s.used
    ensures Unused(s, c)
  {
  }

  lemma StepKeeps(s: State, e: Step)
    requires OneEach(s) && Fresh(s, e)
    ensures OneEach(Apply(s, e))
  {
    hide OneEach, Stands, Unused, Attempt, SetTimer, Settle, Shut;
    match e {
      case Call(drawn) =>
        UnusedIfFresh(s, drawn);
        AttemptKeeps(s, drawn);
      case Fire(h, drawn) =>
        if h in s.timers {
          var u := s.(timers := s.timers - {h});
          DropTimer(s, h);
          if s.timers[h].StartOver? {
            UnusedIfFresh(u, drawn);
            AttemptKeeps(u, drawn);
          } else {
            AttemptKeeps(u, s.timers[h].ctx);
          }
        }
      case Open(h) => OpenKeeps(s, h);
      case Connect(h) => SettleKeeps(s, h);
      case Raise(h) =>
        ShutKeeps(s, h);
        TimerKeeps(Shut(s, h), StartOver);
      case Fail(h) =>
        ShutKeeps(s, h);
        SettleKeeps(Shut(s, h), h);
        if h in s.flying {
          FailFrees(s, h);
          TimerKeeps(Settle(Shut(s, h), h), Retry(s.flying[h]));
        }
      case Finish(h) =>
        ShutKeeps(s, h);
        SettleKeeps(Shut(s, h), h);
      case GiveUp(h) =>
        ShutKeeps(s, h);
        SettleKeeps(Shut(s, h), h);
    }
  }

  lemma {:induction false} RunKeeps(es: seq<Step>)
    requires FreshRun(Initial, es)
    ensures OneEach(Run(Initial, es))
  {
    hide Apply, OneEach, Fresh;
    if es == [] {
      InitialKeeps();
    } else {
      RunKeeps(es[..|es| - 1]);
      StepKeeps(Run(Initial, es[..|es| - 1]), es[|es| - 1]);
    }
  }

  lemma InitialKeeps()
    ensures OneEach(Initial)
  {
  }

  /** Whether a pending timer would start a retry if it fired now. */
  ghost predicate Passes(s: State, h: nat) {
    h in s.timers && s.timers[h] == Retry(s.ctx)
  }

  /** Over every run at most one pending retry passes its guard, and none while the latest attempt
      has not settled or its stream is open. */
  lemma OneRetryPasses(es: seq<Step>, h: nat, k: nat)
    requires FreshRun(Initial, es) && Passes(Run(Initial, es), h)
    ensures var s := Run(Initial, es);
            && (Passes(s, k) ==> h == k)
            && !(k in s.flying && s.flying[k] == s.ctx)
            && !(k in s.open && s.open[k] == s.ctx)
  {
    hide Run, FreshRun;
    RunKeeps(es);
    var s := Run(Initial, es);
    assert Stands(s, h, s.ctx);
    if Passes(s, k) || (k in s.flying && s.flying[k] == s.ctx) || (k in s.open && s.open[k] == s.ctx) {
      assert Stands(s, k, s.ctx);
    }
  }

  // ---------------------------------------------------------------- superseded chains

  /** A context that was drawn and is not the latest. */
  ghost predicate Superseded(s: State, c: int) {
    c in s.used && c != s.ctx
  }

  lemma SupersededStep(s: State, e: Step, c: int)
    requires Superseded(s, c) && Fresh(s, e)
    ensures Superseded(Apply(s, e), c)
    ensures s.attempts <= Apply(s, e).attempts && c !in Apply(s, e).attempts[|s.attempts|..]
  {
  }

  /** A superseded chain never makes another attempt. */
  lemma {:induction false} SupersededStays(s: State, es: seq<Step>, c: int)
    requires Superseded(s, c) && FreshRun(s, es)
    ensures Superseded(Run(s, es), c)
    ensures s.attempts <= Run(s, es).attempts && c !in Run(s, es).attempts[|s.attempts|..]
  {
    hide Apply, Superseded, Fresh;
    if es != [] {
      var t := Run(s, es[..|es| - 1]);
      SupersededStays(s, es[..|es| - 1], c);
      SupersededStep(t, es[|es| - 1], c);
      Later(s.attempts, t.attempts, Run(s, es).attempts, c);
    }
  }

  lemma Later(a: seq<int>, b: seq<int>, c: seq<int>, x: int)
    requires a <= b <= c && x !in b[|a|..] && x !in c[|b|..]
    ensures a <= c && x !in c[|a|..]
  {
    assert c[|a|..] == b[|a|..] + c[|b|..];
  }

  // ---------------------------------------------------------------- one stream at a time

  /** An attempt that can still make a stream, or whose stream is open. */
  ghost predicate Live(s: State, h: nat) {
    h in s.open || (h in s.flying && h !in s.made)
  }

  ghost predicate AtMostOne(s: State) {
    forall h, k :: Live(s, h) && Live(s, k) ==> h == k
  }

  ghost predicate Idle(s: State) {
    forall h :: !Live(s, h)
  }

  /** A step that draws a new context: a call, or a timer that starts over. */
  predicate Draws(s: State, e: Step) {
    e.Call? || (e.Fire? && e.handle in s.timers && s.timers[e.handle].StartOver?)
  }

  /** At no time of the run is there more than one. */
  ghost predicate OneAtATime(es: seq<Step>) {
    AtMostOne(Run(Initial, es)) && (es == [] || OneAtATime(es[..|es| - 1]))
  }

  /** No step of the run draws a new context unless there is none. */
  ghost predicate DrawsWhenIdle(es: seq<Step>) {
    es == [] ||
    (var s := Run(Initial, es[..|es| - 1]);
     DrawsWhenIdle(es[..|es| - 1]) && (Draws(s, es[|es| - 1]) ==> Idle(s)))
  }

  /** What there is belongs to the latest attempt. */
  ghost predicate LatestLives(s: State) {
    forall h :: Live(s, h) ==> Stands(s, h, s.ctx)
  }

  lemma LatestIsOne(s: State)
    requires OneEach(s) && LatestLives(s)
    ensures AtMostOne(s)
  {
  }

  lemma NewIsLive(s: State, c: int)
    requires OneEach(s)
    ensures Live(Attempt(s, c), s.handles) && !Live(s, s.handles)
    ensures forall h :: h != s.handles ==> (Live(Attempt(s, c), h) <==> Live(s, h))
  {
  }

  lemma IdleAttempt(s: State, c: int)
    requires OneEach(s) && Idle(s)
    ensures LatestLives(Attempt(s, c))
  {
    NewIsLive(s, c);
  }

  /** A retry that passes its guard finds nothing alive. */
  lemma RetryIsIdle(s: State, h: nat)
    requires OneEach(s) && LatestLives(s) && Passes(s, h)
    ensures Idle(s)
  {
    assert Stands(s, h, s.ctx);
    assert !Live(s, h);
    assert forall k :: Live(s, k) ==> Stands(s, k, s.ctx) && k == h;
  }

  lemma DropIdle(s: State, h: nat)
    ensures Idle(s.(timers := s.timers - {h})) <==> Idle(s)
  {
    assert forall k :: Live(s.(timers := s.timers - {h}), k) <==> Live(s, k);
  }

  lemma LatestStays(s: State, t: State)
    requires LatestLives(s) && t.ctx == s.ctx
    requires forall h :: Live(t, h) ==> Live(s, h) && (Stands(s, h, s.ctx) ==> Stands(t, h, s.ctx))
    ensures LatestLives(t)
  {
  }

  /** Steps that make no attempt leave the living to the latest attempt. */
  lemma OtherSteps(s: State, e: Step)
    requires OneEach(s) && LatestLives(s) && !e.Call? && !e.Fire?
    ensures LatestLives(Apply(s, e))
  {
    var t := Apply(s, e);
    forall h | Live(t, h)
      ensures Live(s, h) && (Stands(s, h, s.ctx) ==> Stands(t, h, s.ctx))
    {
    }
    LatestStays(s, t);
  }

  lemma LatestStep(s: State, e: Step)
    requires OneEach(s) && LatestLives(s) && (Draws(s, e) ==> Idle(s))
    ensures LatestLives(Apply(s, e))
  {
    hide OneEach, LatestLives, Live, Idle, Stands, Attempt;
    match e {
      case Call(drawn) => IdleAttempt(s, drawn);
      case Fire(h, drawn) =>
        if h in s.timers {
          var u := s.(timers := s.timers - {h});
          DropTimer(s, h);
          DropIdle(s, h);
          if s.timers[h].StartOver? {
            IdleAttempt(u, drawn);
          } else if s.ctx == s.timers[h].ctx {
            RetryIsIdle(s, h);
            IdleAttempt(u, s.ctx);
          } else {
            DropLatest(s, h);
          }
        }
      case _ => OtherSteps(s, e);
    }
  }

  lemma DropLatest(s: State, h: nat)
    requires OneEach(s) && LatestLives(s)
    ensures LatestLives(s.(timers := s.timers - {h}))
  {
    var t := s.(timers := s.timers - {h});
    assert forall k :: Live(t, k) ==> Live(s, k);
    LatestStays(s, t);
  }

  /** A step that draws a new context beside something alive makes two. */
  lemma DrawsBesides(s: State, e: Step)
    requires OneEach(s) && Draws(s, e) && !Idle(s)
    ensures !AtMostOne(Apply(s, e))
  {
    var h :| Live(s, h);
    var u := if e.Fire? then s.(timers := s.timers - {e.handle}) else s;
    if e.Fire? {
      DropTimer(s, e.handle);
    }
    assert Live(u, h);
    NewIsLive(u, e.drawn);
    assert Apply(s, e) == Attempt(u, e.drawn);
  }

  lemma {:induction false} LatestRun(es: seq<Step>)
    requires FreshRun(Initial, es) && DrawsWhenIdle(es)
    ensures LatestLives(Run(Initial, es))
  {
    hide Apply, OneEach, Fresh, LatestLives, Idle, Draws;
    if es == [] {
      InitialIsIdle();
    } else {
      LatestRun(es[..|es| - 1]);
      RunKeeps(es[..|es| - 1]);
      LatestStep(Run(Initial, es[..|es| - 1]), es[|es| - 1]);
    }
  }

  lemma InitialIsIdle()
    ensures LatestLives(Initial) && AtMostOne(Initial)
  {
  }

  /** Over every run there is at no time more than one attempt that can make a stream or open stream, if
      and only if calls and timers that start over come when there is none: retries do no harm. */
  lemma {:induction false} OneStream(es: seq<Step>)
    requires FreshRun(Initial, es)
    ensures OneAtATime(es) <==> DrawsWhenIdle(es)
  {
    hide Apply, OneEach, Fresh, LatestLives, Idle, Draws, AtMostOne;
    if es == [] {
      InitialIsIdle();
    } else {
      var s, e := Run(Initial, es[..|es| - 1]), es[|es| - 1];
      OneStream(es[..|es| - 1]);
      RunKeeps(es[..|es| - 1]);
      if DrawsWhenIdle(es) {
        LatestRun(es);
        RunKeeps(es);
        LatestIsOne(Run(Initial, es));
      } else if Draws(s, e) && !Idle(s) {
        DrawsBesides(s, e);
      }
    }
  }

  // ---------------------------------------------------------------- streams that end with one event

  /** The node is started once, and an event of a stream ends it: none follows another. */
  predicate EndsOnce(s: State, e: Step) {
    && (e.Call? ==> s.handles == 0)
    && (e.Raise? ==> e.handle in s.open)
    && (e.Fail? && e.handle in s.made ==> e.handle in s.open)
  }

  ghost predicate EndsOnceRun(es: seq<Step>) {
    es == [] || (EndsOnceRun(es[..|es| - 1]) && EndsOnce(Run(Initial, es[..|es| - 1]), es[|es| - 1]))
  }

  /** What is alive, or will be when its timer fires. */
  ghost predicate Due(s: State, h: nat) {
    Live(s, h) || (h in s.timers && (s.timers[h] == StartOver || s.timers[h] == Retry(s.ctx)))
  }

  ghost predicate OneDue(s: State) {
    forall h, k :: Due(s, h) && Due(s, k) ==> h == k
  }

  /** An attempt in a context that is not in use is due beside what was due before, and nothing else. */
  lemma DueAfterAttempt(s: State, c: int, h: nat)
    requires OneEach(s) && Unused(s, c) && Due(Attempt(s, c), h)
    ensures h == s.handles || Due(s, h)
  {
    if h in s.timers && s.timers[h] == Retry(c) {
      assert Stands(s, h, c);
    }
  }

  lemma CallIsOne(s: State, c: int)
    requires OneEach(s) && s.handles == 0 && Unused(s, c)
    ensures OneDue(Attempt(s, c))
  {
    assert forall h :: !Due(s, h);
    forall h | Due(Attempt(s, c), h)
      ensures h == s.handles
    {
      DueAfterAttempt(s, c, h);
    }
  }

  lemma FireIsOne(s: State, h: nat, c: int)
    requires OneEach(s) && OneDue(s) && h in s.timers && Due(s, h)
    requires Unused(s.(timers := s.timers - {h}), c)
    ensures OneDue(Attempt(s.(timers := s.timers - {h}), c))
  {
    var u := s.(timers := s.timers - {h});
    DropTimer(s, h);
    assert forall k :: Due(u, k) ==> Due(s, k);
    forall k | Due(Attempt(u, c), k)
      ensures k == u.handles
    {
      DueAfterAttempt(u, c, k);
    }
  }

  /** Other steps replace what is due by at most a timer. */
  lemma OtherDue(s: State, e: Step, h: nat)
    requires OneEach(s) && EndsOnce(s, e) && !e.Call? && !e.Fire? && Due(Apply(s, e), h)
    ensures Due(s, h) || (h == s.handles && Due(s, e.handle) && !Due(Apply(s, e), e.handle))
  {
  }

  lemma OtherIsOne(s: State, e: Step)
    requires OneEach(s) && OneDue(s) && EndsOnce(s, e) && !e.Call? && !e.Fire?
    ensures OneDue(Apply(s, e))
  {
    hide Apply, EndsOnce, Due, OneEach;
    forall h, k | Due(Apply(s, e), h) && Due(Apply(s, e), k)
      ensures h == k
    {
      OtherDue(s, e, h);
      OtherDue(s, e, k);
    }
  }

  lemma StaleDrops(s: State, h: nat)
    requires OneDue(s) && h in s.timers
    ensures OneDue(s.(timers := s.timers - {h}))
  {
    assert forall k :: Due(s.(timers := s.timers - {h}), k) ==> Due(s, k);
  }

  lemma DueStep(s: State, e: Step)
    requires OneEach(s) && OneDue(s) && Fresh(s, e) && EndsOnce(s, e)
    ensures OneDue(Apply(s, e))
  {
    hide OneEach, OneDue, Attempt, Unused;
    match e {
      case Call(drawn) =>
        UnusedIfFresh(s, drawn);
        CallIsOne(s, drawn);
      case Fire(h, drawn) =>
        if h in s.timers {
          var u := s.(timers := s.timers - {h});
          DropTimer(s, h);
          if s.timers[h].StartOver? {
            UnusedIfFresh(u, drawn);
            FireIsOne(s, h, drawn);
          } else if s.ctx == s.timers[h].ctx {
            FireIsOne(s, h, s.ctx);
          } else {
            StaleDrops(s, h);
          }
        }
      case _ => OtherIsOne(s, e);
    }
  }

  lemma {:induction false} DueRun(es: seq<Step>)
    requires FreshRun(Initial, es) && EndsOnceRun(es)
    ensures OneDue(Run(Initial, es))
  {
    hide Apply, OneEach, Fresh, EndsOnce, OneDue;
    if es == [] {
      NothingDue();
    } else {
      DueRun(es[..|es| - 1]);
      RunKeeps(es[..|es| - 1]);
      DueStep(Run(Initial, es[..|es| - 1]), es[|es| - 1]);
    }
  }

  lemma NothingDue()
    ensures OneDue(Initial)
  {
  }

  lemma OneDueIsOne(s: State)
    requires OneDue(s)
    ensures AtMostOne(s)
  {
    assert forall h :: Live(s, h) ==> Due(s, h);
  }

  /** A node that is started once and whose streams each end with one event has one stream at a time. */
  lemma {:induction false} OneEventOneStream(es: seq<Step>)
    requires FreshRun(Initial, es) && EndsOnceRun(es)
    ensures OneAtATime(es)
  {
    hide Apply, Fresh, EndsOnce, OneDue, AtMostOne;
    DueRun(es);
    OneDueIsOne(Run(Initial, es));
    if es != [] {
      OneEventOneStream(es[..|es| - 1]);
    }
  }

  /** The states a run goes through. */
  ghost predicate Visits(s: State, es: seq<Step>, states: seq<State>) {
    && |states| == |es| + 1 && states[0] == s
    && (forall i :: 0 <= i < |es| ==> states[i + 1] == Apply(states[i], es[i]) && Fresh(states[i], es[i]))
  }

  lemma {:induction false} VisitedRun(s: State, es: seq<Step>, states: seq<State>)
    requires Visits(s, es, states)
    ensures FreshRun(s, es) && Run(s, es) == states[|es|]
  {
    hide Apply, Fresh;
    if es != [] {
      VisitedRun(s, es[..|es| - 1], states[..|es|]);
    }
  }

  lemma Joined(s: State, a: seq<Step>, b: seq<Step>, p: seq<State>, q: seq<State>)
    requires Visits(s, a, p) && Visits(p[|a|], b, q)
    ensures Visits(s, a + b, p + q[1..])
  {
    hide Apply, Fresh;
    var es, states := a + b, p + q[1..];
    forall i | 0 <= i < |es|
      ensures states[i + 1] == Apply(states[i], es[i]) && Fresh(states[i], es[i])
    {
      if i >= |a| {
        assert q[i - |a| + 1] == Apply(q[i - |a|], b[i - |a|]);
        assert states[i] == q[i - |a|];
      }
    }
  }

  /** A stream that ends with two events sets two timers. */
  lemma TwoTimers() returns (states: seq<State>)
    ensures Visits(Initial, [Call(1), Open(0), Connect(0), Raise(0), Raise(0)], states)
    ensures states[5].timers == map[1 := StartOver, 2 := StartOver] && states[5].open == map[]
    ensures states[5].used == {0, 1} && states[5].made == {0} && states[5].handles == 3
  {
    var s1 := Apply(Initial, Call(1));
    var s2 := Apply(s1, Open(0));
    var s3 := Apply(s2, Connect(0));
    var s4 := Apply(s3, Raise(0));
    states := [Initial, s1, s2, s3, s4, Apply(s4, Raise(0))];
  }

  lemma TwoOpen(s: State) returns (states: seq<State>)
    requires s.timers == map[1 := StartOver, 2 := StartOver] && s.open == map[]
    requires s.used == {0, 1} && s.made == {0} && s.handles == 3
    ensures Visits(s, [Fire(1, 2), Fire(2, 3), Open(3), Open(4)], states)
    ensures states[4].open.Keys == {3, 4}
  {
    var s1 := Apply(s, Fire(1, 2));
    assert s1.timers == map[2 := StartOver] && s1.used == {0, 1, 2} && s1.handles == 4;
    var s2 := Apply(s1, Fire(2, 3));
    assert s2.flying[3] == 2 && s2.flying[4] == 3 && s2.open == map[] && s2.made == {0};
    var s3 := Apply(s2, Open(3));
    assert s3.open == map[3 := 2] && s3.flying == s2.flying && s3.made == {0, 3};
    var s4 := Apply(s3, Open(4));
    assert s4.open == map[3 := 2, 4 := 3];
    states := [s, s1, s2, s3, s4];
  }

  /** A stream that ends with two events leads to two open streams. */
  lemma TwoStreams()
    ensures var es := [Call(1), Open(0), Connect(0), Raise(0), Raise(0), Fire(1, 2), Fire(2, 3), Open(3), Open(4)];
            FreshRun(Initial, es) && Run(Initial, es).open.Keys == {3, 4} && !DrawsWhenIdle(es)
  {
    var es := [Call(1), Open(0), Connect(0), Raise(0), Raise(0), Fire(1, 2), Fire(2, 3), Open(3), Open(4)];
    var s5 := TwoTimers();
    var s9 := TwoOpen(s5[5]);
    Joined(Initial, es[..5], es[5..], s5, s9);
    assert es[..5] + es[5..] == es;
    VisitedRun(Initial, es, s5 + s9[1..]);
    hide Apply, Fresh, Run, FreshRun, DrawsWhenIdle, OneAtATime, Visits;
    OneStream(es);
    TwoIsMore(s9[4]);
    NotAtOnce(es);
  }

  lemma TwoIsMore(s: State)
    requires s.open.Keys == {3, 4}
    ensures !AtMostOne(s)
  {
    assert Live(s, 3) && Live(s, 4);
  }

  lemma NotAtOnce(es: seq<Step>)
    requires !AtMostOne(Run(Initial, es))
    ensures !OneAtATime(es)
  {
  }
}
