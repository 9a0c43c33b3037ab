/** That reconnecting goes on: what single steps do, and that the node is never left without an attempt. */
module ReconnectRuns {
  import opened Reconnect

  // ---------------------------------------------------------------- single steps

  /** A call makes an attempt of its own. */
  lemma CallAttempts(s: State, drawn: int)
    requires OneEach(s)
    ensures var u := Apply(s, Call(drawn));
            && u.attempts == s.attempts + [drawn] && u.ctx == drawn
            && u.flying == s.flying[s.handles := drawn] && Live(u, s.handles) && u.timers == s.timers
  {
  }

  /** A retry that is not superseded makes another attempt in its context; a superseded one does nothing. */
  lemma RetryAttempts(s: State, h: nat, drawn: int)
    requires OneEach(s) && h in s.timers && s.timers[h].Retry?
    ensures var u := Apply(s, Fire(h, drawn));
            && u.timers == s.timers - {h} && u.ctx == s.ctx && u.open == s.open
            && (if s.timers[h].ctx == s.ctx
                then u.attempts == s.attempts + [s.ctx] && u.flying == s.flying[s.handles := s.ctx]
                     && Live(u, s.handles)
                else u.attempts == s.attempts && u.flying == s.flying)
  {
  }

  /** Starting over makes an attempt in a new context. */
  lemma StartOverAttempts(s: State, h: nat, drawn: int)
    requires OneEach(s) && h in s.timers && s.timers[h].StartOver?
    ensures var u := Apply(s, Fire(h, drawn));
            && u.timers == s.timers - {h} && u.ctx == drawn && u.open == s.open
            && u.attempts == s.attempts + [drawn] && u.flying == s.flying[s.handles := drawn] && Live(u, s.handles)
  {
  }

  /** An attempt makes one stream at most, in its context. */
  lemma OpenIs(s: State, h: nat)
    requires OneEach(s) && h in s.flying
    ensures var u := Apply(s, Open(h));
            && u.flying == s.flying && u.timers == s.timers && u.attempts == s.attempts
            && u.open == (if h in s.made then s.open else s.open[h := s.flying[h]])
            && h in u.made && Apply(u, Open(h)) == u
  {
  }

  /** An attempt that fails sets a retry in its context and leaves no stream open. */
  lemma FailSetsRetry(s: State, h: nat)
    requires OneEach(s) && h in s.flying
    ensures var u := Apply(s, Fail(h));
            && u.timers == s.timers[s.handles := Retry(s.flying[h])] && u.flying == s.flying - {h}
            && u.open == s.open - {h} && u.attempts == s.attempts && u.ctx == s.ctx
  {
  }

  /** An event of a stream that starts over sets a timer for it; any other settles the attempt. */
  lemma EventIs(s: State, h: nat)
    requires OneEach(s) && h in s.made
    ensures var u, v := Apply(s, Raise(h)), Apply(s, Finish(h));
            && u.timers == s.timers[s.handles := StartOver] && u.open == s.open - {h} && u.flying == s.flying
            && v.timers == s.timers && v.open == s.open - {h} && v.flying == s.flying - {h}
            && u.attempts == s.attempts == v.attempts && u.ctx == s.ctx == v.ctx
  {
  }

  // ---------------------------------------------------------------- the latest attempt is kept up

  /** Of the latest context there is an attempt that can make a stream, an open stream or a retry; or a
      timer starts over. */
  ghost predicate Kept(s: State, h: nat) {
    || (h in s.open && s.open[h] == s.ctx)
    || (h in s.flying && h !in s.made && s.flying[h] == s.ctx)
    || (h in s.timers && (s.timers[h] == StartOver || s.timers[h] == Retry(s.ctx)))
  }

  ghost predicate Going(s: State) {
    exists h :: Kept(s, h)
  }

  /** The stream of the latest context ends with an event that does not start over, or its attempt gives up. */
  predicate LetsGo(s: State, e: Step) {
    && (e.Finish? || e.GiveUp?)
    && ((e.handle in s.open && s.open[e.handle] == s.ctx) || (e.handle in s.flying && s.flying[e.handle] == s.ctx))
  }

  lemma AttemptGoes(s: State, c: int)
    requires OneEach(s)
    ensures Going(Attempt(s, c))
  {
    assert Kept(Attempt(s, c), s.handles);
  }

  lemma TimerGoes(s: State, t: Timer)
    requires t == StartOver || t == Retry(s.ctx)
    ensures Going(SetTimer(s, t))
  {
    assert Kept(SetTimer(s, t), s.handles);
  }

  lemma FireGoes(s: State, h: nat, drawn: int)
    requires OneEach(s) && Going(s)
    ensures Going(Apply(s, Fire(h, drawn)))
  {
    if h in s.timers {
      var u := s.(timers := s.timers - {h});
      DropTimer(s, h);
      if s.timers[h].StartOver? {
        AttemptGoes(u, drawn);
      } else if s.timers[h].ctx == s.ctx {
        AttemptGoes(u, s.ctx);
      } else {
        var k :| Kept(s, k);
        assert Kept(u, k);
      }
    }
  }

  lemma FailGoes(s: State, h: nat)
    requires OneEach(s) && Going(s)
    ensures Going(Apply(s, Fail(h)))
  {
    if h in s.flying {
      var u := Apply(s, Fail(h));
      if s.flying[h] == s.ctx {
        assert Kept(u, s.handles);
      } else {
        var k :| Kept(s, k);
        assert Kept(u, k);
      }
    }
  }

  lemma OtherGoes(s: State, e: Step)
    requires OneEach(s) && Going(s) && (e.Open? || e.Connect? || e.Finish? || e.GiveUp?) && !LetsGo(s, e)
    ensures Going(Apply(s, e))
  {
    var k :| Kept(s, k);
    assert Kept(Apply(s, e), k);
  }

  lemma RaiseGoes(s: State, h: nat)
    requires OneEach(s) && Going(s)
    ensures Going(Apply(s, Raise(h)))
  {
    if h in s.made {
      TimerGoes(Shut(s, h), StartOver);
    }
  }

  lemma GoingStep(s: State, e: Step)
    requires OneEach(s) && Going(s) && !LetsGo(s, e)
    ensures Going(Apply(s, e))
  {
    hide OneEach, Going, LetsGo;
    match e {
      case Call(drawn) => AttemptGoes(s, drawn);
      case Fire(h, drawn) => FireGoes(s, h, drawn);
      case Raise(h) => RaiseGoes(s, h);
      case Fail(h) => FailGoes(s, h);
      case _ => OtherGoes(s, e);
    }
  }

  /** No step of the run lets the latest context go. */
  ghost predicate HoldsOn(s: State, es: seq<Step>) {
    es == [] || (HoldsOn(s, es[..|es| - 1]) && !LetsGo(Run(s, es[..|es| - 1]), es[|es| - 1]))
  }

  lemma {:induction false} GoesOn(s: State, es: seq<Step>)
    requires OneEach(s) && Going(s) && FreshRun(s, es) && HoldsOn(s, es)
    ensures OneEach(Run(s, es)) && Going(Run(s, es))
  {
    hide Apply, OneEach, Going, LetsGo, Fresh;
    if es != [] {
      var r := Run(s, es[..|es| - 1]);
      GoesOn(s, es[..|es| - 1]);
      StepKeeps(r, es[|es| - 1]);
      GoingStep(r, es[|es| - 1]);
    }
  }

  /** Once the node is started it always has an attempt that can make a stream, an open stream, or a timer
      that will make one, unless the latest stream ends without starting over or its attempt gives up. */
  lemma NeverStuck(drawn: int, es: seq<Step>)
    requires drawn != 0 && FreshRun(Apply(Initial, Call(drawn)), es) && HoldsOn(Apply(Initial, Call(drawn)), es)
    ensures Going(Run(Apply(Initial, Call(drawn)), es))
  {
    hide Apply, OneEach, Going, Fresh, HoldsOn, FreshRun;
    InitialKeeps();
    Started(drawn);
    StepKeeps(Initial, Call(drawn));
    GoesOn(Apply(Initial, Call(drawn)), es);
  }

  lemma Started(drawn: int)
    requires drawn != 0
    ensures Going(Apply(Initial, Call(drawn))) && Fresh(Initial, Call(drawn))
  {
    InitialKeeps();
    AttemptGoes(Initial, drawn);
  }

  /** A stream that ends without starting over leaves nothing. */
  lemma StuckHappens()
    ensures var s := Apply(Apply(Apply(Initial, Call(1)), Open(0)), Finish(0)); !Going(s) && s.attempts == [1]
  {
    var s1 := Apply(Initial, Call(1));
    var s2 := Apply(s1, Open(0));
    var s3 := Apply(s2, Finish(0));
    assert s2.flying == map[0 := 1] && s2.open == map[0 := 1] && s2.made == {0} && s2.timers == map[];
    assert s3.flying == map[] && s3.open == map[] && s3.timers == map[];
  }
}
