/** The buffering producer of `src/streaming/producer.py`.  A message is
    identified by its position in the order of submission. */
module Producer {
  const BUFFER_MAXLEN: nat := 10000

  type Msg = nat

  /** How one attempt to hand a message to the broker ends.  `poll` runs after
      `produce`, so when it raises the message has been handed over all the same. */
  datatype Attempt = Accepted | ProduceRaises | PollRaises

  /** The outcome of the i-th attempt of one call. */
  type Broker = nat -> Attempt

  /** The buffer, what was handed to the broker, what the full buffer pushed out,
      and the messages whose `poll` raised, which stay buffered although sent. */
  datatype State = State(buffer: seq<Msg>, sent: seq<Msg>, evicted: seq<Msg>, repeated: seq<Msg>)

  /** `deque.append` with a bounded length: the oldest entry makes room. */
  function Appended(s: State, m: Msg): State {
    if |s.buffer| < BUFFER_MAXLEN then s.(buffer := s.buffer + [m])
    else s.(buffer := s.buffer[1..] + [m], evicted := s.evicted + [s.buffer[0]])
  }

  /** `_drain_buffer` from attempt `i` on: the state and the next attempt number. */
  function Drained(s: State, broker: Broker, i: nat): (State, nat)
    decreases |s.buffer|
  {
    if s.buffer == [] then (s, i)
    else
      match broker(i)
      case Accepted => Drained(s.(buffer := s.buffer[1..], sent := s.sent + [s.buffer[0]]), broker, i + 1)
      case ProduceRaises => (s, i + 1)
      case PollRaises => (s.(sent := s.sent + [s.buffer[0]], repeated := s.repeated + [s.buffer[0]]), i + 1)
  }

  /** `produce_transaction`. */
  function Produced(s: State, m: Msg, broker: Broker): State {
    var (d, i) := Drained(s, broker, 0);
    match broker(i)
    case Accepted => d.(sent := d.sent + [m])
    case ProduceRaises => Appended(d, m)
    case PollRaises => Appended(d.(sent := d.sent + [m], repeated := d.repeated + [m]), m)
  }

  const EMPTY := State([], [], [], [])

  /** The state after the calls for messages 0, 1, ..., each with its own broker behaviour. */
  function After(calls: seq<Broker>): State {
    if calls == [] then EMPTY else Produced(After(calls[..|calls| - 1]), |calls| - 1, calls[|calls| - 1])
  }

  // ---- nothing is lost silently, and duplicates are exactly the poll failures ----

  function Copies(s: State): multiset<Msg> {
    multiset(s.sent) + multiset(s.buffer) + multiset(s.evicted)
  }

  function UpTo(n: nat): multiset<Msg> {
    if n == 0 then multiset{} else UpTo(n - 1) + multiset{n - 1}
  }

  lemma AppendedCopies(s: State, m: Msg)
    ensures Copies(Appended(s, m)) == Copies(s) + multiset{m} && Appended(s, m).repeated == s.repeated
  {
    if |s.buffer| >= BUFFER_MAXLEN {
      assert s.buffer == [s.buffer[0]] + s.buffer[1..];
    }
  }

  lemma {:induction false} DrainedCopies(s: State, broker: Broker, i: nat)
    ensures var d := Drained(s, broker, i).0;
            Copies(d) + multiset(s.repeated) == Copies(s) + multiset(d.repeated)
    decreases |s.buffer|
  {
    if s.buffer != [] {
      assert s.buffer == [s.buffer[0]] + s.buffer[1..];
      if broker(i).Accepted? {
        DrainedCopies(s.(buffer := s.buffer[1..], sent := s.sent + [s.buffer[0]]), broker, i + 1);
      }
    }
  }

  lemma ProducedCopies(s: State, m: Msg, broker: Broker)
    ensures var p := Produced(s, m, broker);
            Copies(p) + multiset(s.repeated) == Copies(s) + multiset{m} + multiset(p.repeated)
  {
    hide Appended, Copies, Drained;
    DrainedCopies(s, broker, 0);
    var (d, i) := Drained(s, broker, 0);
    SentCopies(d, m, d.repeated);
    SentCopies(d, m, d.repeated + [m]);
    AppendedCopies(d, m);
    AppendedCopies(d.(sent := d.sent + [m], repeated := d.repeated + [m]), m);
    var p, once := Produced(s, m, broker), multiset{m};
    if broker(i).PollRaises? {
      assert multiset(p.repeated) == multiset(d.repeated) + once;
      assert Copies(p) + multiset(s.repeated) == (Copies(d) + multiset(s.repeated)) + once + once;
    } else {
      assert p.repeated == d.repeated;
      assert Copies(p) + multiset(s.repeated) == (Copies(d) + multiset(s.repeated)) + once;
    }
  }

  lemma SentCopies(s: State, m: Msg, repeated: seq<Msg>)
    ensures Copies(s.(sent := s.sent + [m], repeated := repeated)) == Copies(s) + multiset{m}
    ensures Copies(s.(sent := s.sent + [m])) == Copies(s) + multiset{m}
  {
  }

  lemma Cancel<T>(a: multiset<T>, b: multiset<T>, c: multiset<T>)
    requires a + c == b + c
    ensures a == b
  {
    assert a == (a + c) - c && b == (b + c) - c;
  }

  /** Conservation: after any run, sent, buffered and evicted together hold each
      submitted message once, plus one extra copy per failed `poll`. */
  lemma {:induction false} CopiesAreConserved(calls: seq<Broker>)
    ensures Copies(After(calls)) == UpTo(|calls|) + multiset(After(calls).repeated)
  {
    hide Copies, Produced;
    if calls == [] {
      NoCopies();
    } else {
      CopiesAreConserved(calls[..|calls| - 1]);
      var s := After(calls[..|calls| - 1]);
      ProducedCopies(s, |calls| - 1, calls[|calls| - 1]);
      Cancel(Copies(After(calls)), UpTo(|calls|) + multiset(After(calls).repeated), multiset(s.repeated));
    }
  }

  lemma NoCopies()
    ensures Copies(EMPTY) == multiset{}
  {
  }

  lemma {:induction false} UpToHas(n: nat, m: Msg)
    ensures UpTo(n)[m] == if m < n then 1 else 0
  {
    if n > 0 {
      UpToHas(n - 1, m);
    }
  }

  /** The number of attempts one call makes: those of the drain, and one for its own message. */
  function Attempts(s: State, broker: Broker): nat {
    Drained(s, broker, 0).1 + 1
  }

  /** None of the attempts that the call makes ends in a raising `poll`. */
  ghost predicate NoPollFailure(broker: Broker, s: State) {
    forall j :: 0 <= j < Attempts(s, broker) ==> !broker(j).PollRaises?
  }

  /** No attempt that any of the calls makes ends in a raising `poll`. */
  ghost predicate NoPollFailures(calls: seq<Broker>) {
    forall k :: 0 <= k < |calls| ==> NoPollFailure(calls[k], After(calls[..k]))
  }

  lemma {:induction false} DrainRepeatsIff(s: State, broker: Broker, i: nat)
    ensures i <= Drained(s, broker, i).1 && s.repeated <= Drained(s, broker, i).0.repeated
    ensures Drained(s, broker, i).0.repeated == s.repeated
       <==> forall j :: i <= j < Drained(s, broker, i).1 ==> !broker(j).PollRaises?
    decreases |s.buffer|
  {
    if s.buffer != [] && broker(i).Accepted? {
      DrainRepeatsIff(s.(buffer := s.buffer[1..], sent := s.sent + [s.buffer[0]]), broker, i + 1);
    }
  }

  /** A call repeats a message exactly if one of its attempts ends in a raising `poll`. */
  lemma CallRepeatsIff(s: State, m: Msg, broker: Broker)
    ensures s.repeated <= Produced(s, m, broker).repeated
    ensures Produced(s, m, broker).repeated == s.repeated <==> NoPollFailure(broker, s)
  {
    DrainRepeatsIff(s, broker, 0);
    hide Drained;
  }

  lemma {:induction false} RepeatedIff(calls: seq<Broker>)
    ensures After(calls).repeated == [] <==> NoPollFailures(calls)
  {
    hide Produced, NoPollFailure;
    if calls != [] {
      var n := |calls| - 1;
      RepeatedIff(calls[..n]);
      CallRepeatsIff(After(calls[..n]), n, calls[n]);
      NoPollFailuresStep(calls);
      hide NoPollFailures;
    }
  }

  lemma NoPollFailuresStep(calls: seq<Broker>)
    requires calls != []
    ensures var n := |calls| - 1;
            NoPollFailures(calls) <==> NoPollFailures(calls[..n]) && NoPollFailure(calls[n], After(calls[..n]))
  {
    hide After, NoPollFailure;
    var n := |calls| - 1;
    forall k | 0 <= k < n
      ensures calls[..n][..k] == calls[..k] && calls[..n][k] == calls[k]
    {
    }
  }

  /** Every submitted message is in exactly one of the three places if and only
      if no attempt made ended in a raising `poll`. */
  lemma ExactlyOnceIffNoPollFailure(calls: seq<Broker>)
    ensures (forall m: Msg :: Copies(After(calls))[m] == if m < |calls| then 1 else 0) <==> After(calls).repeated == []
    ensures (forall m: Msg :: Copies(After(calls))[m] == if m < |calls| then 1 else 0) <==> NoPollFailures(calls)
  {
    RepeatedIff(calls);
    var s := After(calls);
    CopiesAreConserved(calls);
    forall m: Msg
      ensures Copies(s)[m] == (if m < |calls| then 1 else 0) + multiset(s.repeated)[m]
    {
      UpToHas(|calls|, m);
    }
    if s.repeated != [] {
      assert s.repeated[0] in multiset(s.repeated);
      hide Copies;
    }
  }

  /** With failures only in produce calls, every message is in exactly one place. */
  lemma ExactlyOnceIfOnlyProduceFails(calls: seq<Broker>)
    requires forall k, j: nat :: 0 <= k < |calls| ==> !calls[k](j).PollRaises?
    ensures forall m: Msg :: Copies(After(calls))[m] == if m < |calls| then 1 else 0
  {
    ExactlyOnceIffNoPollFailure(calls);
  }

  /** A raising `poll` does duplicate: the first message is sent and buffered. */
  lemma PollFailureDuplicates(broker: Broker)
    requires broker(0).PollRaises?
    ensures Copies(After([broker]))[0] == 2
  {
    assert [broker][..0] == [];
    assert After([broker]) == State([0], [0], [], [0]);
  }

  // ---- order and bound of the buffer ----

  ghost predicate Increasing(ms: seq<Msg>) {
    forall i, j :: 0 <= i < j < |ms| ==> ms[i] < ms[j]
  }

  ghost predicate AllBelow(ms: seq<Msg>, n: nat) {
    forall i :: 0 <= i < |ms| ==> ms[i] < n
  }

  ghost predicate Precede(ms: seq<Msg>, ns: seq<Msg>) {
    forall i, j :: 0 <= i < |ms| && 0 <= j < |ns| ==> ms[i] < ns[j]
  }

  /** The buffer is bounded and in submission order, and whatever was evicted is
      older than everything still buffered. */
  ghost predicate BufferSound(s: State, n: nat) {
    |s.buffer| <= BUFFER_MAXLEN && Increasing(s.buffer) && AllBelow(s.buffer, n) && Precede(s.evicted, s.buffer)
    && AllBelow(s.evicted, n)
  }

  lemma {:induction false} DrainedIsSuffix(s: State, broker: Broker, i: nat)
    ensures var d := Drained(s, broker, i).0;
            && d.evicted == s.evicted
            && |d.buffer| <= |s.buffer| && d.buffer == s.buffer[|s.buffer| - |d.buffer|..]
    decreases |s.buffer|
  {
    if s.buffer != [] && broker(i).Accepted? {
      DrainedIsSuffix(s.(buffer := s.buffer[1..], sent := s.sent + [s.buffer[0]]), broker, i + 1);
    }
  }

  lemma AppendedSound(s: State, n: nat)
    requires BufferSound(s, n)
    ensures BufferSound(Appended(s, n), n + 1)
  {
  }

  lemma SuffixSound(s: State, d: State, n: nat)
    requires BufferSound(s, n) && d.evicted == s.evicted
    requires |d.buffer| <= |s.buffer| && d.buffer == s.buffer[|s.buffer| - |d.buffer|..]
    ensures BufferSound(d, n) && BufferSound(d, n + 1)
  {
  }

  lemma SentIrrelevant(s: State, d: State, n: nat)
    requires BufferSound(s, n) && d.buffer == s.buffer && d.evicted == s.evicted
    ensures BufferSound(d, n)
  {
  }

  lemma {:induction false} BufferStaysSound(calls: seq<Broker>)
    ensures BufferSound(After(calls), |calls|)
  {
    hide Appended, Drained, BufferSound;
    if calls == [] {
      EmptyIsSound();
    } else {
      var s, n, broker := After(calls[..|calls| - 1]), |calls| - 1, calls[|calls| - 1];
      BufferStaysSound(calls[..|calls| - 1]);
      DrainedIsSuffix(s, broker, 0);
      var (d, i) := Drained(s, broker, 0);
      SuffixSound(s, d, n);
      var e := d.(sent := d.sent + [n], repeated := d.repeated + [n]);
      SentIrrelevant(d, e, n);
      AppendedSound(d, n);
      AppendedSound(e, n);
      SentIrrelevant(d, d.(sent := d.sent + [n]), n + 1);
    }
  }

  lemma EmptyIsSound()
    ensures BufferSound(EMPTY, 0)
  {
  }

  // ---- order of what was sent ----

  /** Everything sent is in submission order and older than everything buffered. */
  ghost predicate InOrder(s: State, n: nat) {
    Increasing(s.sent + s.buffer) && AllBelow(s.sent + s.buffer, n)
  }

  /** In this call the message was sent although older ones were left in the buffer. */
  predicate Overtakes(s: State, broker: Broker) {
    var (d, i) := Drained(s, broker, 0);
    d.buffer != [] && broker(i) == Accepted
  }

  /** What that takes from the broker: one of the attempts to re-send a buffered
      message is the first not accepted, and the next attempt is accepted. */
  ghost predicate Recovers(s: State, broker: Broker) {
    exists j: nat :: j < |s.buffer| && FirstRefused(broker, 0, j) && broker(j + 1).Accepted?
  }

  /** Attempts `i` to `j - 1` are accepted, attempt `j` is not. */
  ghost predicate FirstRefused(broker: Broker, i: nat, j: nat) {
    i <= j && (forall k: nat :: i <= k < j ==> broker(k).Accepted?) && !broker(j).Accepted?
  }

  /** The drain stops at the first refused attempt, if there is one among those it can make. */
  lemma {:induction false} DrainStops(s: State, broker: Broker, i: nat)
    ensures var (d, next) := Drained(s, broker, i);
            if d.buffer == [] then next == i + |s.buffer| && forall k: nat :: i <= k < next ==> broker(k).Accepted?
            else i < next <= i + |s.buffer| && FirstRefused(broker, i, next - 1)
    decreases |s.buffer|
  {
    if s.buffer != [] && broker(i).Accepted? {
      DrainStops(s.(buffer := s.buffer[1..], sent := s.sent + [s.buffer[0]]), broker, i + 1);
    }
  }

  lemma OvertakesIffRecovers(s: State, broker: Broker)
    ensures Overtakes(s, broker) <==> Recovers(s, broker)
  {
    DrainStops(s, broker, 0);
    hide Drained;
    var (d, next) := Drained(s, broker, 0);
    if d.buffer != [] {
      assert FirstRefused(broker, 0, next - 1);
    }
  }

  lemma {:induction false} DrainedKeepsLine(s: State, broker: Broker, i: nat)
    requires Drained(s, broker, i).0.repeated == s.repeated
    ensures var d := Drained(s, broker, i).0;
            d.sent + d.buffer == s.sent + s.buffer
    decreases |s.buffer|
  {
    if s.buffer != [] {
      assert s.sent + s.buffer == (s.sent + [s.buffer[0]]) + s.buffer[1..];
      if broker(i).Accepted? {
        var t := s.(buffer := s.buffer[1..], sent := s.sent + [s.buffer[0]]);
        DrainRepeatsIff(t, broker, i + 1);
        DrainedKeepsLine(t, broker, i + 1);
      }
    }
  }

  lemma AppendedInOrder(s: State, n: nat)
    requires InOrder(s, n)
    ensures InOrder(Appended(s, n), n + 1)
  {
    if |s.buffer| < BUFFER_MAXLEN {
      assert Appended(s, n).sent + Appended(s, n).buffer == (s.sent + s.buffer) + [n];
    } else {
      var line, k := s.sent + s.buffer, |s.sent|;
      RemoveKeepsOrder(line, k, n);
      assert Appended(s, n).sent + Appended(s, n).buffer == (line[..k] + line[k + 1..]) + [n];
    }
  }

  lemma RemoveKeepsOrder(ms: seq<Msg>, k: nat, n: nat)
    requires Increasing(ms) && AllBelow(ms, n) && k < |ms|
    ensures Increasing(ms[..k] + ms[k + 1..]) && AllBelow(ms[..k] + ms[k + 1..], n)
  {
  }

  /** A call keeps the order of sending exactly when it does not overtake, that
      is, when the broker does not recover between the drain and the send. */
  lemma OrderKeptIffNotOvertaken(s: State, n: nat, broker: Broker)
    requires InOrder(s, n) && NoPollFailure(broker, s)
    ensures InOrder(Produced(s, n, broker), n + 1) <==> !Overtakes(s, broker)
    ensures InOrder(Produced(s, n, broker), n + 1) <==> !Recovers(s, broker)
  {
    OvertakesIffRecovers(s, broker);
    DrainRepeatsIff(s, broker, 0);
    hide Drained, Appended;
    DrainedKeepsLine(s, broker, 0);
    var (d, i) := Drained(s, broker, 0);
    AppendedInOrder(d, n);
    if broker(i) == Accepted {
      var p := Produced(s, n, broker);
      if d.buffer == [] {
        assert p.sent + p.buffer == (d.sent + d.buffer) + [n];
      } else {
        var line := p.sent + p.buffer;
        assert line[|d.sent|] == n && line[|d.sent| + 1] == d.buffer[0];
        assert d.buffer[0] == (d.sent + d.buffer)[|d.sent|] < n;
      }
    }
  }

  /** After every call, what was sent is in submission order and older than what is buffered. */
  ghost predicate AlwaysInOrder(calls: seq<Broker>) {
    forall k :: 0 <= k <= |calls| ==> InOrder(After(calls[..k]), k)
  }

  ghost predicate NeverRecovers(calls: seq<Broker>) {
    forall k :: 0 <= k < |calls| ==> !Recovers(After(calls[..k]), calls[k])
  }

  /** Without poll failures, a run keeps the order of sending throughout if and
      only if the broker never recovers between a drain and the send after it. */
  lemma {:induction false} RunInOrderIffNeverRecovers(calls: seq<Broker>)
    requires NoPollFailures(calls)
    ensures AlwaysInOrder(calls) <==> NeverRecovers(calls)
  {
    hide InOrder, Recovers, NoPollFailure, Produced;
    if calls == [] {
      NothingSent();
    } else {
      var n := |calls| - 1;
      NoPollFailuresStep(calls);
      RunInOrderIffNeverRecovers(calls[..n]);
      AlwaysInOrderStep(calls);
      NeverRecoversStep(calls);
      hide AlwaysInOrder, NeverRecovers, NoPollFailures;
      if AlwaysInOrder(calls[..n]) {
        LastInOrder(calls[..n]);
        OrderKeptIffNotOvertaken(After(calls[..n]), n, calls[n]);
      }
    }
  }

  lemma NothingSent()
    ensures AlwaysInOrder([]) && NeverRecovers([])
  {
  }

  lemma LastInOrder(calls: seq<Broker>)
    requires AlwaysInOrder(calls)
    ensures InOrder(After(calls), |calls|)
  {
    hide InOrder, After;
    assert calls[..|calls|] == calls;
  }

  lemma AlwaysInOrderStep(calls: seq<Broker>)
    requires calls != []
    ensures AlwaysInOrder(calls) <==> AlwaysInOrder(calls[..|calls| - 1]) && InOrder(After(calls), |calls|)
  {
    hide InOrder, After;
    var n := |calls| - 1;
    assert calls[..|calls|] == calls;
    forall k | 0 <= k <= n
      ensures calls[..n][..k] == calls[..k]
    {
    }
  }

  lemma NeverRecoversStep(calls: seq<Broker>)
    requires calls != []
    ensures var n := |calls| - 1;
            NeverRecovers(calls) <==> NeverRecovers(calls[..n]) && !Recovers(After(calls[..n]), calls[n])
  {
    hide Recovers, After;
    var n := |calls| - 1;
    forall k | 0 <= k < n
      ensures calls[..n][..k] == calls[..k] && calls[..n][k] == calls[k]
    {
    }
  }

  /** A broker that recovers between the drain and the send is overtaken: the
      second message is sent while the first is still buffered. */
  lemma RecoveryOvertakes(broker: Broker)
    requires broker(0).ProduceRaises? && broker(1).Accepted?
    ensures After([DOWN, broker]).sent == [1] && After([DOWN, broker]).buffer == [0]
    ensures !InOrder(After([DOWN, broker]), 2)
  {
    assert [DOWN, broker][..1] == [DOWN] && [DOWN][..0] == [];
    assert After([DOWN]) == State([0], [], [], []);
    var s := After([DOWN, broker]);
    assert (s.sent + s.buffer)[0] == 1 && (s.sent + s.buffer)[1] == 0;
  }

  // ---- a broker that is up or down for the whole call ----

  const UP: Broker := (i: nat) => Accepted
  const DOWN: Broker := (i: nat) => ProduceRaises

  lemma {:induction false} UpDrainsAll(s: State, i: nat)
    ensures Drained(s, UP, i).0 == s.(buffer := [], sent := s.sent + s.buffer)
    decreases |s.buffer|
  {
    if s.buffer == [] {
      assert s.sent + s.buffer == s.sent;
    } else {
      UpDrainsAll(s.(buffer := s.buffer[1..], sent := s.sent + [s.buffer[0]]), i + 1);
      assert s.sent + s.buffer == (s.sent + [s.buffer[0]]) + s.buffer[1..];
    }
  }

  lemma DownDrainsNothing(s: State, i: nat)
    ensures Drained(s, DOWN, i).0 == s
  {
  }

  /** Messages first, first + 1, ..., first + k - 1. */
  function Span(first: nat, k: nat): (r: seq<Msg>)
    ensures |r| == k && forall i :: 0 <= i < k ==> r[i] == first + i
  {
    seq(k, i requires 0 <= i < k => first + i)
  }

  /** The state after `k` calls during an outage, starting with message `n`. */
  function Outage(s: State, n: nat, k: nat): State {
    if k == 0 then s else Produced(Outage(s, n, k - 1), n + k - 1, DOWN)
  }

  /** An outage keeps the newest 10000 messages in order and evicts exactly the others, oldest first. */
  lemma {:induction false} OutageBuffers(s: State, n: nat, k: nat)
    requires s.buffer == []
    ensures var kept := if k <= BUFFER_MAXLEN then k else BUFFER_MAXLEN;
            Outage(s, n, k) == s.(buffer := Span(n + k - kept, kept), evicted := s.evicted + Span(n, k - kept))
  {
    if k == 0 {
      assert s.evicted + Span(n, 0) == s.evicted;
    } else {
      OutageBuffers(s, n, k - 1);
      DownDrainsNothing(Outage(s, n, k - 1), 0);
      OutageStep(s, n, k);
    }
  }

  lemma OutageStep(s: State, n: nat, k: nat)
    requires k > 0
    requires var kept := if k - 1 <= BUFFER_MAXLEN then k - 1 else BUFFER_MAXLEN;
             Outage(s, n, k - 1) ==
               s.(buffer := Span(n + k - 1 - kept, kept), evicted := s.evicted + Span(n, k - 1 - kept))
    ensures var kept := if k <= BUFFER_MAXLEN then k else BUFFER_MAXLEN;
            Appended(Outage(s, n, k - 1), n + k - 1)
            == s.(buffer := Span(n + k - kept, kept), evicted := s.evicted + Span(n, k - kept))
  {
    if k <= BUFFER_MAXLEN {
      assert Span(n, k - 1) + [n + k - 1] == Span(n, k);
      assert Span(n, 0) == [];
    } else {
      var b := Span(n + k - 1 - BUFFER_MAXLEN, BUFFER_MAXLEN);
      assert b[1..] + [n + k - 1] == Span(n + k - BUFFER_MAXLEN, BUFFER_MAXLEN);
      assert (s.evicted + Span(n, k - 1 - BUFFER_MAXLEN)) + [b[0]] == s.evicted + Span(n, k - BUFFER_MAXLEN);
    }
  }

  /** An outage of at most 10000 messages, once over, has lost, duplicated and reordered nothing. */
  lemma OutageRecovers(s: State, n: nat, k: nat)
    requires s.buffer == [] && k <= BUFFER_MAXLEN
    ensures Produced(Outage(s, n, k), n + k, UP) == s.(sent := s.sent + Span(n, k + 1))
  {
    OutageBuffers(s, n, k);
    var t := Outage(s, n, k);
    UpDrainsAll(t, 0);
    hide Drained, Outage;
    assert s.evicted + Span(n, 0) == s.evicted;
    assert (s.sent + Span(n, k)) + [n + k] == s.sent + Span(n, k + 1);
  }

  /** A broker that is up or down for a whole call never lets a message overtake. */
  lemma SteadyBrokerNeverOvertakes(s: State)
    ensures !Overtakes(s, UP) && !Overtakes(s, DOWN) && NoPollFailure(UP, s) && NoPollFailure(DOWN, s)
  {
    UpDrainsAll(s, 0);
  }

  /** With such a broker, sending order is submission order and no message is in two places or none. */
  lemma {:induction false} SteadyRun(calls: seq<Broker>)
    requires forall i :: 0 <= i < |calls| ==> calls[i] == UP || calls[i] == DOWN
    ensures InOrder(After(calls), |calls|) && After(calls).repeated == []
    ensures forall m: Msg :: Copies(After(calls))[m] == if m < |calls| then 1 else 0
  {
    hide Drained, Appended, Copies, Overtakes, NoPollFailure;
    if calls != [] {
      var s, broker := After(calls[..|calls| - 1]), calls[|calls| - 1];
      SteadyRun(calls[..|calls| - 1]);
      SteadyBrokerNeverOvertakes(s);
      OrderKeptIffNotOvertaken(s, |calls| - 1, broker);
      SteadyKeepsRepeated(s, |calls| - 1);
    }
    ExactlyOnceIffNoPollFailure(calls);
  }

  lemma SteadyKeepsRepeated(s: State, m: Msg)
    ensures Produced(s, m, UP).repeated == s.repeated == Produced(s, m, DOWN).repeated
  {
    UpDrainsAll(s, 0);
  }

  // ---- the producer itself ----

  class ThreatIntelProducer {
    var buffer: seq<Msg>
    /** What the broker received, what was evicted, and the poll failures: the environment's view. */
    ghost var sent: seq<Msg>
    ghost var evicted: seq<Msg>
    ghost var repeated: seq<Msg>

    ghost function View(): State
      reads this
    {
      State(buffer, sent, evicted, repeated)
    }

    constructor ()
      ensures View() == EMPTY
    {
      buffer, sent, evicted, repeated := [], [], [], [];
    }

    /** One `produce` followed by `poll`. */
    method Attempted(m: Msg, outcome: Attempt) returns (ok: bool)
      modifies this`sent, this`repeated
      ensures ok <==> outcome.Accepted?
      ensures sent == if outcome.ProduceRaises? then old(sent) else old(sent) + [m]
      ensures repeated == if outcome.PollRaises? then old(repeated) + [m] else old(repeated)
    {
      if !outcome.ProduceRaises? {
        sent := sent + [m];
      }
      if outcome.PollRaises? {
        repeated := repeated + [m];
      }
      return outcome.Accepted?;
    }

    /** Re-sends buffered messages, oldest first, until one fails. */
    method DrainBuffer(broker: Broker) returns (attempts: nat)
      modifies this
      ensures (View(), attempts) == Drained(old(View()), broker, 0)
    {
      attempts := 0;
      while buffer != []
        invariant Drained(View(), broker, attempts) == Drained(old(View()), broker, 0)
        decreases |buffer|
      {
        var ok := Attempted(buffer[0], broker(attempts));
        attempts := attempts + 1;
        if !ok {
          break;
        }
        buffer := buffer[1..];
      }
    }

    /** Drains, then sends the message; a failure buffers it. */
    method ProduceTransaction(m: Msg, broker: Broker)
      modifies this
      ensures View() == Produced(old(View()), m, broker)
    {
      hide Drained;
      var attempts := DrainBuffer(broker);
      var ok := Attempted(m, broker(attempts));
      if !ok {
        if |buffer| >= BUFFER_MAXLEN {
          evicted := evicted + [buffer[0]];
          buffer := buffer[1..];
        }
        buffer := buffer + [m];
      }
    }
  }
}
