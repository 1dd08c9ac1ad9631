/** The consumer of `src/streaming/consumer.py` on one partition, with crashes
    between any two of its steps. */
module Consumer {
  /** What the payload bytes decode to.  Only bad JSON is committed on purpose;
      bytes that are not UTF-8 raise a different exception. */
  datatype Payload = Json | BadJson | NotUtf8

  /** The message at each offset. */
  type Topic = nat -> Payload

  /** How the handler ends.  A handler that raises JSONDecodeError itself is
      taken for a malformed message. */
  datatype Handler = Returns | Raises | RaisesJsonError

  /** Where the loop is: waiting for a message, holding one, or about to commit
      one, after the handler returned or inside the JSONDecodeError clause. */
  datatype Phase = Ready | Holding | CommitHandled | CommitMalformed

  /** `position` is one past the message last polled.  The offsets handled, those
      a delivery of which raised and left them uncommitted, those whose handler
      raised JSONDecodeError, and those committed are recorded. */
  datatype State = State(
    committed: nat,
    position: nat,
    phase: Phase,
    handled: set<nat>,
    raised: set<nat>,
    misread: set<nat>,
    commits: set<nat>)

  datatype Event = Poll | Process(handler: Handler) | Commit(ok: bool) | Crash

  const INITIAL := State(0, 0, Ready, {}, {}, {}, {})

  /** A restarted consumer resumes at the committed offset. */
  function Restarted(s: State): State {
    s.(position := s.committed, phase := Ready)
  }

  function Committed(s: State): State
    requires s.position > 0
  {
    s.(committed := s.position, phase := Ready, commits := s.commits + {s.position - 1})
  }

  /** One step; an event that does not fit the phase changes nothing. */
  function Step(s: State, topic: Topic, e: Event): State {
    match e
    case Crash => Restarted(s)
    case Poll => if s.phase.Ready? then s.(position := s.position + 1, phase := Holding) else s
    case Process(h) =>
      if !s.phase.Holding? || s.position == 0 then s
      else
        var o := s.position - 1;
        (match topic(o)
         case BadJson => s.(phase := CommitMalformed)
         case NotUtf8 => s.(phase := Ready, raised := s.raised + {o})
         case Json =>
           if h.Returns? then s.(phase := CommitHandled, handled := s.handled + {o})
           else if h.Raises? then s.(phase := Ready, raised := s.raised + {o})
           else s.(phase := CommitMalformed, misread := s.misread + {o}))
    case Commit(ok) =>
      if s.position == 0 then s
      else if s.phase.CommitHandled? then (if ok then Committed(s) else s.(phase := Ready))
      else if s.phase.CommitMalformed? then (if ok then Committed(s) else Restarted(s))
      else s
  }

  function Run(s: State, topic: Topic, es: seq<Event>): State {
    if es == [] then s else Step(Run(s, topic, es[..|es| - 1]), topic, es[|es| - 1])
  }

  // ---- invariants of every run ----

  ghost predicate Inv(s: State, topic: Topic) {
    && s.committed <= s.position
    && (!s.phase.Ready? ==> s.committed < s.position)
    && (forall o :: o in s.commits ==> o < s.committed)
    && (s.committed > 0 ==> s.committed - 1 in s.commits)
    && (forall o :: o in s.commits ==> Deserved(s, topic, o))
    && (s.phase.CommitHandled? || s.phase.CommitMalformed? ==> Deserved(s, topic, s.position - 1))
    && (forall o :: 0 <= o < s.position && !(s.phase.Holding? && o == s.position - 1) ==> Accounted(s, topic, o))
  }

  /** The offset was handled, is malformed JSON, or was taken for it. */
  ghost predicate Deserved(s: State, topic: Topic, o: nat) {
    o in s.handled || topic(o).BadJson? || o in s.misread
  }

  /** As above, or one of its deliveries raised. */
  ghost predicate Accounted(s: State, topic: Topic, o: nat) {
    Deserved(s, topic, o) || o in s.raised
  }

  lemma StepKeeps(s: State, topic: Topic, e: Event)
    requires Inv(s, topic)
    ensures Inv(Step(s, topic, e), topic)
    ensures s.committed <= Step(s, topic, e).committed
  {
    var t := Step(s, topic, e);
    forall o | o in t.commits
      ensures Deserved(t, topic, o)
    {
      if o in s.commits {
        assert Deserved(s, topic, o);
      }
    }
    forall o | 0 <= o < t.position && !(t.phase.Holding? && o == t.position - 1)
      ensures Accounted(t, topic, o)
    {
      if o < s.position && !(s.phase.Holding? && o == s.position - 1) {
        assert Accounted(s, topic, o);
      }
    }
  }

  lemma {:induction false} RunKeeps(s: State, topic: Topic, es: seq<Event>)
    requires Inv(s, topic)
    ensures Inv(Run(s, topic, es), topic) && s.committed <= Run(s, topic, es).committed
  {
    hide Inv, Step;
    if es != [] {
      RunKeeps(s, topic, es[..|es| - 1]);
      StepKeeps(Run(s, topic, es[..|es| - 1]), topic, es[|es| - 1]);
    }
  }

  lemma InitialHolds(topic: Topic)
    ensures Inv(INITIAL, topic)
  {
  }

  /** At-least-once: in every run, each offset below the committed one was handled
      at least once or is malformed JSON, unless a delivery of it raised. */
  lemma AtLeastOnceUnlessRaised(topic: Topic, es: seq<Event>, o: nat)
    requires o < Run(INITIAL, topic, es).committed
    ensures var s := Run(INITIAL, topic, es);
            o in s.handled || topic(o).BadJson? || o in s.raised || o in s.misread
  {
    InitialHolds(topic);
    RunKeeps(INITIAL, topic, es);
    hide Run;
    assert Accounted(Run(INITIAL, topic, es), topic, o);
  }

  /** A commit is made only for a message that was handled, is malformed JSON, or
      whose handler raised JSONDecodeError: never for one whose delivery merely raised. */
  lemma CommitsAreDeserved(topic: Topic, es: seq<Event>, o: nat)
    requires o in Run(INITIAL, topic, es).commits
    ensures var s := Run(INITIAL, topic, es);
            o in s.handled || topic(o).BadJson? || o in s.misread
  {
    InitialHolds(topic);
    RunKeeps(INITIAL, topic, es);
    hide Run;
    assert Deserved(Run(INITIAL, topic, es), topic, o);
  }

  /** `o` is being delivered. */
  predicate Delivering(s: State, o: nat) {
    s.phase.Holding? && s.position == o + 1
  }

  /** The k-th event of the run ends a delivery of `o` with outcome `h`. */
  ghost predicate Ends(topic: Topic, es: seq<Event>, k: nat, o: nat, h: Handler) {
    k < |es| && es[k] == Process(h) && Delivering(Run(INITIAL, topic, es[..k]), o)
  }

  ghost predicate SomeEnd(topic: Topic, es: seq<Event>, o: nat, h: Handler) {
    exists k :: Ends(topic, es, k, o, h)
  }

  lemma EndsBefore(topic: Topic, es: seq<Event>, o: nat, h: Handler)
    requires es != []
    ensures var n := |es| - 1;
            SomeEnd(topic, es, o, h) <==> SomeEnd(topic, es[..n], o, h) || Ends(topic, es, n, o, h)
  {
    hide Run, Delivering;
    var n := |es| - 1;
    forall k: nat | k < n
      ensures Ends(topic, es, k, o, h) <==> Ends(topic, es[..n], k, o, h)
    {
      assert es[..n][..k] == es[..k];
    }
    if k: nat :| Ends(topic, es, k, o, h) {
      assert k < n ==> Ends(topic, es[..n], k, o, h);
    }
    if k: nat :| Ends(topic, es[..n], k, o, h) {
      assert Ends(topic, es, k, o, h);
    }
  }

  /** A delivery of the offset came to an end, with whatever outcome. */
  ghost predicate Processed(topic: Topic, es: seq<Event>, o: nat) {
    SomeEnd(topic, es, o, Returns) || SomeEnd(topic, es, o, Raises) || SomeEnd(topic, es, o, RaisesJsonError)
  }

  /** What the state records about an offset is which events ended its deliveries. */
  lemma {:induction false} RecordsAreEvents(topic: Topic, es: seq<Event>, o: nat)
    ensures var s := Run(INITIAL, topic, es);
            && (o in s.handled <==> topic(o).Json? && SomeEnd(topic, es, o, Returns))
            && (o in s.misread <==> topic(o).Json? && SomeEnd(topic, es, o, RaisesJsonError))
            && (o in s.raised <==> (topic(o).Json? && SomeEnd(topic, es, o, Raises))
                                   || (topic(o).NotUtf8? && Processed(topic, es, o)))
  {
    if es != [] {
      var n := |es| - 1;
      var s := Run(INITIAL, topic, es[..n]);
      RecordsAreEvents(topic, es[..n], o);
      EndsBefore(topic, es, o, Returns);
      EndsBefore(topic, es, o, Raises);
      EndsBefore(topic, es, o, RaisesJsonError);
      hide SomeEnd;
      RecordStep(s, topic, es[n], o);
      assert Run(INITIAL, topic, es) == Step(s, topic, es[n]);
      hide Run, Step, Delivering;
      if es[n].Process? {
        var h := es[n].handler;
        assert es[n] == Process(h) && (h.Returns? || h.Raises? || h.RaisesJsonError?);
        assert Ends(topic, es, n, o, h) <==> Delivering(s, o);
      }
    }
  }

  lemma RecordStep(s: State, topic: Topic, e: Event, o: nat)
    ensures var t, now := Step(s, topic, e), e.Process? && Delivering(s, o);
            && (o in t.handled <==> o in s.handled || (now && topic(o).Json? && e.handler.Returns?))
            && (o in t.misread <==> o in s.misread || (now && topic(o).Json? && e.handler.RaisesJsonError?))
            && (o in t.raised <==> o in s.raised || (now && (topic(o).NotUtf8? || (topic(o).Json? && e.handler.Raises?))))
  {
  }

  /** The same in terms of what the environment did: each offset below the
      committed one is malformed JSON, or some delivery of it ended with the
      handler returning, with a raise, or with a JSONDecodeError. */
  lemma AtLeastOnceOverEvents(topic: Topic, es: seq<Event>, o: nat)
    requires o < Run(INITIAL, topic, es).committed
    ensures topic(o).BadJson? || Processed(topic, es, o)
  {
    AtLeastOnceUnlessRaised(topic, es, o);
    RecordsAreEvents(topic, es, o);
    hide Run, SomeEnd;
  }

  /** If no handler raises and every payload is UTF-8, each offset below the
      committed one was handled or is malformed JSON. */
  lemma AtLeastOnceIfNothingRaises(topic: Topic, es: seq<Event>, o: nat)
    requires o < Run(INITIAL, topic, es).committed
    requires forall k :: 0 <= k < |es| && es[k].Process? ==> es[k].handler.Returns?
    requires forall i: nat :: !topic(i).NotUtf8?
    ensures o in Run(INITIAL, topic, es).handled || topic(o).BadJson?
  {
    AtLeastOnceUnlessRaised(topic, es, o);
    RecordsAreEvents(topic, es, o);
    hide Run, Delivering;
  }

  // ---- who is delivered again ----

  lemma {:induction false} NeverAgain(s: State, topic: Topic, es: seq<Event>, o: nat)
    requires Inv(s, topic) && o < s.committed
    ensures !Delivering(Run(s, topic, es), o)
    ensures o !in s.handled ==> o !in Run(s, topic, es).handled
  {
    RunKeeps(s, topic, es);
    if es != [] {
      NeverAgain(s, topic, es[..|es| - 1], o);
      RunKeeps(s, topic, es[..|es| - 1]);
    }
  }

  lemma {:induction false} RunAppend(s: State, topic: Topic, es: seq<Event>, fs: seq<Event>)
    ensures Run(s, topic, es + fs) == Run(Run(s, topic, es), topic, fs)
  {
    hide Step;
    if fs == [] {
      assert es + fs == es;
    } else {
      RunAppend(s, topic, es, fs[..|fs| - 1]);
      assert (es + fs)[..|es + fs| - 1] == es + fs[..|fs| - 1];
    }
  }

  /** A failed delivery of whatever comes next. */
  const FAIL_ONE: seq<Event> := [Poll, Process(Raises), Commit(true)]

  lemma FailOneMoves(s: State, topic: Topic)
    requires Inv(s, topic) && s.phase.Ready?
    ensures var t := Run(s, topic, FAIL_ONE);
            Inv(t, topic) && t.phase.Ready? && t.position == s.position + 1
  {
    RunKeeps(s, topic, FAIL_ONE);
    RunOneMore(s, topic, [], Poll);
    RunOneMore(s, topic, [Poll], Process(Raises));
    RunOneMore(s, topic, [Poll, Process(Raises)], Commit(true));
    assert [] + [Poll] == [Poll] && [Poll] + [Process(Raises)] == [Poll, Process(Raises)];
    assert FAIL_ONE == [Poll, Process(Raises)] + [Commit(true)];
    hide Inv, Run;
  }

  lemma RunOneMore(s: State, topic: Topic, es: seq<Event>, e: Event)
    ensures Run(s, topic, es + [e]) == Step(Run(s, topic, es), topic, e) && Run(s, topic, []) == s
  {
    assert (es + [e])[..|es|] == es;
  }

  /** From any waiting state some continuation delivers an offset not yet polled. */
  lemma {:induction false} Deliver(s: State, topic: Topic, o: nat) returns (es: seq<Event>)
    requires Inv(s, topic) && s.phase.Ready? && s.position <= o
    ensures Delivering(Run(s, topic, es), o)
    decreases o - s.position
  {
    if s.position == o {
      es := [Poll];
      assert es[..0] == [];
    } else {
      FailOneMoves(s, topic);
      var rest := Deliver(Run(s, topic, FAIL_ONE), topic, o);
      es := FAIL_ONE + rest;
      RunAppend(s, topic, FAIL_ONE, rest);
    }
  }

  /** After a crash at any point of any run, a message can be delivered again if
      and only if neither it nor any later one was committed: a message whose
      handler raised is lost for good as soon as a later message is committed. */
  lemma RedeliveredIffNothingLaterCommitted(topic: Topic, es: seq<Event>, o: nat)
    ensures var s := Run(INITIAL, topic, es);
            (exists fs :: Delivering(Run(Restarted(s), topic, fs), o)) <==> (forall c :: c in s.commits ==> c < o)
  {
    hide Run;
    InitialHolds(topic);
    RunKeeps(INITIAL, topic, es);
    var s := Run(INITIAL, topic, es);
    StepKeeps(s, topic, Crash);
    if s.committed > o {
      assert s.committed - 1 in s.commits;
      forall fs
        ensures !Delivering(Run(Restarted(s), topic, fs), o)
      {
        NeverAgain(Restarted(s), topic, fs, o);
      }
    } else {
      var fs := Deliver(Restarted(s), topic, o);
      assert Delivering(Run(Restarted(s), topic, fs), o);
      forall c | c in s.commits
        ensures c < o
      {
        assert c < s.committed;
      }
    }
  }

  /** After such a crash every continuation that gets past the message has delivered it again. */
  lemma {:induction false} PassingDelivers(s: State, topic: Topic, fs: seq<Event>, o: nat) returns (k: nat)
    requires Inv(s, topic) && s.position <= o
    requires Run(s, topic, fs).position > o
    ensures k <= |fs| && Delivering(Run(s, topic, fs[..k]), o)
  {
    var n := |fs| - 1;
    var t := Run(s, topic, fs[..n]);
    RunKeeps(s, topic, fs[..n]);
    if t.position > o {
      k := PassingDelivers(s, topic, fs[..n], o);
      assert fs[..n][..k] == fs[..k];
    } else {
      k := |fs|;
      assert fs[..k] == fs;
    }
  }

  /** After a crash at any point of any run, if nothing from `o` on was committed,
      no continuation gets past `o` without delivering it. */
  lemma NeverSkipped(topic: Topic, es: seq<Event>, fs: seq<Event>, o: nat) returns (k: nat)
    requires var s := Run(INITIAL, topic, es);
             (forall c :: c in s.commits ==> c < o) && Run(Restarted(s), topic, fs).position > o
    ensures k <= |fs| && Delivering(Run(Restarted(Run(INITIAL, topic, es)), topic, fs[..k]), o)
  {
    InitialHolds(topic);
    RunKeeps(INITIAL, topic, es);
    var s := Run(INITIAL, topic, es);
    StepKeeps(s, topic, Crash);
    hide Run;
    assert s.committed <= o;
    k := PassingDelivers(Restarted(s), topic, fs, o);
  }

  /** The shortest run that loses a message: the first handler call raises, the
      second message is handled and committed, and the process restarts. */
  function ShortestLoss(topic: Topic): State {
    var s1 := Step(Step(INITIAL, topic, Poll), topic, Process(Raises));
    Step(Step(Step(Step(s1, topic, Poll), topic, Process(Returns)), topic, Commit(true)), topic, Crash)
  }

  /** Whatever follows, the first message is never handled. */
  lemma SilentLoss(topic: Topic, fs: seq<Event>)
    requires topic(0).Json? && topic(1).Json?
    ensures 0 !in Run(ShortestLoss(topic), topic, fs).handled
  {
    var s := ShortestLoss(topic);
    assert s == State(2, 2, Ready, {1}, {0}, {}, {1});
    NeverAgain(s, topic, fs, 0);
  }

  // ---- the loop ----

  class ThreatIntelConsumer {
    var committed: nat
    var position: nat
    var phase: Phase
    ghost var handled: set<nat>
    ghost var raised: set<nat>
    ghost var misread: set<nat>
    ghost var commits: set<nat>

    ghost function View(): State
      reads this
    {
      State(committed, position, phase, handled, raised, misread, commits)
    }

    constructor ()
      ensures View() == INITIAL
    {
      committed, position, phase := 0, 0, Ready;
      handled, raised, misread, commits := {}, {}, {}, {};
    }

    /** One iteration of the loop that is not interrupted.  `alive` is false when
        the commit of a malformed message raises, which ends the loop. */
    method Iterate(topic: Topic, handler: Handler, commitSucceeds: bool) returns (alive: bool)
      requires phase.Ready? && committed <= position
      modifies this
      ensures View() == Step(Step(Step(old(View()), topic, Poll), topic, Process(handler)), topic, Commit(commitSucceeds))
      ensures phase.Ready?
      ensures var o := old(position);
              alive <==> commitSucceeds || !(topic(o).BadJson? || (topic(o).Json? && handler.RaisesJsonError?))
      ensures var o := old(position);
              && position == (if alive then o + 1 else committed)
              && committed == if commitSucceeds && (topic(o).BadJson? || (topic(o).Json? && !handler.Raises?)) then o + 1
                              else old(committed)
    {
      alive := true;
      var offset := position;
      position := position + 1;
      var payload := topic(offset);
      if payload.NotUtf8? || (payload.Json? && handler.Raises?) {
        raised := raised + {offset};
      } else if payload.Json? && handler.Returns? {
        handled := handled + {offset};
        if commitSucceeds {
          committed := offset + 1;
          commits := commits + {offset};
        }
      } else {
        if payload.Json? {
          misread := misread + {offset};
        }
        if commitSucceeds {
          committed := offset + 1;
          commits := commits + {offset};
        } else {
          position := committed;
          alive := false;
        }
      }
    }
  }
}
