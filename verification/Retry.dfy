/** The life of one symbol session: connect, fail, back off, retry, give up. The outcome of every
    connection attempt is an arbitrary input. */
module Retry {
  import opened Bits
  import opened Sequences

  const DISCONNECTED: u8 := 0
  const CONNECTING: u8 := 1
  const CONNECTED: u8 := 2
  const RECONNECTING: u8 := 3
  const FAILED: u8 := 4

  const MAX_RETRIES: nat := 10

  /** What a session does that can be observed: a status event, or a pause. */
  datatype Entry =
    | Status(previous: u8, current: u8, retryCount: nat)
    | Pause(milliseconds: nat)

  // ----- Back-off -----

  function BackoffDelay(retryCount: nat): (ms: nat)
  {
    var base, limit := 1000, 60000;
    if retryCount == 0 then base
    else
      var delay := base * Pow2(if retryCount < 6 then retryCount else 6);
      if delay < limit then delay else limit
  }

  lemma SmallPowers()
    ensures Pow2(1) == 2 && Pow2(2) == 4 && Pow2(3) == 8 && Pow2(4) == 16 && Pow2(5) == 32 && Pow2(6) == 64
  {
  }

  lemma BackoffTable(r: nat)
    ensures BackoffDelay(r) == if r == 0 then 1000 else if r == 1 then 2000 else if r == 2 then 4000
                               else if r == 3 then 8000 else if r == 4 then 16000 else if r == 5 then 32000 else 60000
  {
    SmallPowers();
  }

  /** The delay grows with the retry count, stays between one second and one minute, doubles until
      it reaches the minute, and the product before the cap fits 64 bits. */
  lemma BackoffLaws(r: nat, s: nat)
    requires r <= s
    ensures 1000 <= BackoffDelay(r) <= BackoffDelay(s) <= 60000
    ensures BackoffDelay(r + 1) == if 2 * BackoffDelay(r) < 60000 then 2 * BackoffDelay(r) else 60000
    ensures 1000 * Pow2(if r < 6 then r else 6) < TWO_64
  {
    SmallPowers();
    BackoffTable(r);
    BackoffTable(r + 1);
    BackoffTable(s);
    assert r == 0 || r == 1 || r == 2 || r == 3 || r == 4 || r == 5 || r >= 6;
  }

  // ----- One connection -----

  datatype WsMessage = Data | Close | Ping(pongSent: bool) | Pong | Frame | Broken

  /** What happens when a connection is tried. */
  datatype Connection = Disabled | BadUrl | Refused | Open(messages: seq<WsMessage>)

  /** A finished attempt: whether it returned success, and what it reported meanwhile. */
  datatype Attempt = Attempt(ok: bool, trace: seq<Entry>)

  /** The message that ends the receive loop, if any. */
  predicate Ends(m: WsMessage) {
    m.Close? || m.Broken? || (m.Ping? && !m.pongSent)
  }

  function Reported(messages: seq<WsMessage>): seq<Entry> {
    if messages == [] then []
    else if !Ends(messages[0]) then Reported(messages[1..])
    else if messages[0].Ping? then []
    else [Status(CONNECTED, DISCONNECTED, 0)]
  }

  /** The attempt a connection makes. */
  function FailureOf(c: Connection): Attempt {
    Attempt(false, if c.Open? then Reported(c.messages) else [])
  }

  lemma ReportedSkips(messages: seq<WsMessage>, i: nat)
    requires i <= |messages| && forall j :: 0 <= j < i ==> !Ends(messages[j])
    ensures Reported(messages) == Reported(messages[i..])
  {
    if i > 0 {
      ReportedSkips(messages[1..], i - 1);
      assert messages[1..][i - 1..] == messages[i..];
    }
  }

  /** The one event that a connection can report. */
  const LOST_CONNECTION: Entry := Status(CONNECTED, DISCONNECTED, 0)

  lemma AtMostOneReport(messages: seq<WsMessage>)
    ensures Reported(messages) == [] || Reported(messages) == [LOST_CONNECTION]
    ensures Reported(messages) != [] ==> exists i :: 0 <= i < |messages| && (messages[i].Close? || messages[i].Broken?)
  {
    if messages != [] && !Ends(messages[0]) && Reported(messages[1..]) != [] {
      AtMostOneReport(messages[1..]);
      var i :| 0 <= i < |messages[1..]| && (messages[1..][i].Close? || messages[1..][i].Broken?);
      assert messages[i + 1] == messages[1..][i];
    }
  }

  /** The message that closed or broke the connection, when none before it ended the attempt: a close,
      an error, or a ping whose answer could not be sent. */
  predicate ClosesAt(messages: seq<WsMessage>, i: int) {
    && 0 <= i < |messages| && (messages[i].Close? || messages[i].Broken?)
    && forall j :: 0 <= j < i ==>
         match messages[j] case Close => false case Broken => false case Ping(pongSent) => pongSent case _ => true
  }

  ghost predicate Closes(connection: Connection) {
    connection.Open? && exists i :: ClosesAt(connection.messages, i)
  }

  lemma {:induction false} ReportedWhenClosed(messages: seq<WsMessage>)
    ensures Reported(messages) == if exists i :: ClosesAt(messages, i) then [LOST_CONNECTION] else []
  {
    if messages != [] {
      var rest := messages[1..];
      ReportedWhenClosed(rest);
      if Ends(messages[0]) {
        assert messages[0].Ping? || ClosesAt(messages, 0);
      } else {
        ClosesLater(messages);
      }
    }
  }

  lemma ClosesLater(messages: seq<WsMessage>)
    requires messages != [] && !Ends(messages[0])
    ensures (exists i :: ClosesAt(messages, i)) <==> exists i :: ClosesAt(messages[1..], i)
  {
    if i :| ClosesAt(messages, i) {
      assert forall j :: 0 <= j < i - 1 ==> messages[1..][j] == messages[j + 1];
      assert ClosesAt(messages[1..], i - 1);
    }
    if i :| ClosesAt(messages[1..], i) {
      assert messages[i + 1] == messages[1..][i];
      assert forall j :: 1 <= j < i + 1 ==> messages[j] == messages[1..][j - 1];
      assert ClosesAt(messages, i + 1);
    }
  }

  /** Whatever happens on the connection, the attempt returns an error: the receive loop has no
      other way out. It reports one disconnection when the connection was open and was closed or
      broke, and otherwise nothing. */
  method ConnectToSymbolSession(connection: Connection) returns (attempt: Attempt)
    ensures attempt == FailureOf(connection) && !attempt.ok
    ensures attempt.trace == if Closes(connection) then [Status(2, 0, 0)] else []
  {
    hide ClosesAt;
    if !connection.Open? {
      return Attempt(false, []);
    }
    var messages := connection.messages;
    ReportedWhenClosed(messages);
    for i := 0 to |messages|
      invariant forall j :: 0 <= j < i ==> !Ends(messages[j])
    {
      ReportedSkips(messages, i);
      match messages[i]
      case Close =>
        return Attempt(false, [Status(CONNECTED, DISCONNECTED, 0)]);
      case Broken =>
        return Attempt(false, [Status(CONNECTED, DISCONNECTED, 0)]);
      case Ping(pongSent) =>
        if !pongSent {
          return Attempt(false, []);
        }
      case _ =>
    }
    ReportedSkips(messages, |messages|);
    attempt := Attempt(false, []);
  }

  // ----- The session loop -----

  datatype SessionState = SessionState(retryCount: nat, gaveUp: bool, trace: seq<Entry>)

  /** What is reported after an attempt, and the pause before the next one. */
  function Aftermath(retryCount: nat, ok: bool): seq<Entry> {
    if ok then [Status(CONNECTING, CONNECTED, retryCount)]
    else if retryCount + 1 >= MAX_RETRIES then [Status(RECONNECTING, FAILED, retryCount + 1)]
    else [Status(CONNECTED, RECONNECTING, retryCount + 1), Pause(BackoffDelay(retryCount))]
  }

  function AfterAttempt(s: SessionState, attempt: Attempt): SessionState {
    if s.gaveUp then s
    else
      SessionState(
        if attempt.ok then 0 else s.retryCount + 1,
        !attempt.ok && s.retryCount + 1 >= MAX_RETRIES,
        s.trace + [Status(DISCONNECTED, CONNECTING, s.retryCount)] + attempt.trace
        + Aftermath(s.retryCount, attempt.ok))
  }

  /** The session after a list of attempts; once it gave up, the rest are never made. */
  function After(attempts: seq<Attempt>): SessionState {
    if attempts == [] then SessionState(0, false, [])
    else AfterAttempt(After(attempts[..|attempts| - 1]), attempts[|attempts| - 1])
  }

  /** The loop, run until it gives up or the given attempts are used up. */
  method ManageSymbolSession(attempts: seq<Attempt>) returns (s: SessionState, used: nat)
    ensures used <= |attempts| && s == After(attempts[..used]) == After(attempts)
    ensures s.gaveUp || used == |attempts|
    ensures forall k :: 0 <= k < used ==> !After(attempts[..k]).gaveUp
  {
    hide BackoffDelay;
    var retryCount, trace := 0, [];
    used := 0;
    while used < |attempts|
      invariant used <= |attempts|
      invariant SessionState(retryCount, false, trace) == After(attempts[..used])
      invariant forall k :: 0 <= k < used ==> !After(attempts[..k]).gaveUp
    {
      var attempt := attempts[used];
      assert attempts[..used + 1][..used] == attempts[..used];
      used := used + 1;
      trace := trace + [Status(DISCONNECTED, CONNECTING, retryCount)] + attempt.trace;
      if attempt.ok {
        trace := trace + [Status(CONNECTING, CONNECTED, retryCount)];
        retryCount := 0;
      } else {
        retryCount := retryCount + 1;
        if retryCount >= MAX_RETRIES {
          trace := trace + [Status(RECONNECTING, FAILED, retryCount)];
          GivenUpForGood(attempts, used);
          return SessionState(retryCount, true, trace), used;
        }
        var delay := BackoffDelay(retryCount - 1);
        trace := trace + [Status(CONNECTED, RECONNECTING, retryCount), Pause(delay)];
      }
    }
    assert attempts[..used] == attempts;
    s := SessionState(retryCount, false, trace);
  }

  lemma {:induction false} GivenUpForGood(attempts: seq<Attempt>, k: nat)
    requires k <= |attempts| && After(attempts[..k]).gaveUp
    ensures After(attempts) == After(attempts[..k])
    decreases |attempts|
  {
    if k == |attempts| {
      assert attempts[..k] == attempts;
    } else {
      var init := attempts[..|attempts| - 1];
      assert init[..k] == attempts[..k];
      GivenUpForGood(init, k);
    }
  }

  /** What one more attempt of a living session adds: CONNECTING with the failures so far, its own
      events, and then CONNECTED, or FAILED with ten failures, or RECONNECTING with the new count and
      the pause. */
  lemma OneMoreAttempt(attempts: seq<Attempt>, attempt: Attempt)
    requires !After(attempts).gaveUp
    ensures var n := Streak(attempts);
            n < 10 && After(attempts + [attempt]).trace
            == After(attempts).trace + [Status(0, 1, n)] + attempt.trace
               + (if attempt.ok then [Status(1, 2, n)]
                  else if n == 9 then [Status(3, 4, 10)]
                  else [Status(2, 3, n + 1), Pause([1000, 2000, 4000, 8000, 16000, 32000, 60000, 60000, 60000][n])])
  {
    hide BackoffDelay;
    RetryCountIsStreak(attempts);
    var more := attempts + [attempt];
    assert more[..|more| - 1] == attempts;
    BackoffTable(Streak(attempts));
  }

  // ----- What every run satisfies -----

  /** The number of failures since the last success. */
  function Streak(attempts: seq<Attempt>): (n: nat)
    ensures n <= |attempts|
  {
    if attempts == [] || attempts[|attempts| - 1].ok then 0 else Streak(attempts[..|attempts| - 1]) + 1
  }

  /** Some ten attempts in a row failed. */
  ghost predicate TenInARow(attempts: seq<Attempt>) {
    exists k :: MAX_RETRIES <= k <= |attempts| && Streak(attempts[..k]) >= MAX_RETRIES
  }

  /** While the session lives, its retry count is the current run of consecutive failures and is
      below ten; it has given up exactly when some ten consecutive attempts failed. */
  lemma {:induction false} RetryCountIsStreak(attempts: seq<Attempt>)
    ensures var s := After(attempts);
            && (s.gaveUp <==> TenInARow(attempts))
            && (!s.gaveUp ==> s.retryCount == Streak(attempts) < MAX_RETRIES)
            && (s.gaveUp ==> s.retryCount == MAX_RETRIES)
  {
    if attempts != [] {
      var init := attempts[..|attempts| - 1];
      RetryCountIsStreak(init);
      forall k | 0 <= k < |attempts| ensures attempts[..k] == init[..k] {
      }
      assert attempts[..|attempts|] == attempts;
      if After(init).gaveUp {
        var k :| MAX_RETRIES <= k <= |init| && Streak(init[..k]) >= MAX_RETRIES;
        assert Streak(attempts[..k]) >= MAX_RETRIES;
      } else if TenInARow(attempts) {
        var k :| MAX_RETRIES <= k <= |attempts| && Streak(attempts[..k]) >= MAX_RETRIES;
        assert k == |attempts|;
      }
    }
  }

  predicate IsFailed(e: Entry) { e.Status? && e.current == FAILED }

  predicate IsConnecting(e: Entry) { e.Status? && e.current == CONNECTING }

  /** A connection by itself reports neither kind of event. */
  ghost predicate Quiet(attempts: seq<Attempt>) {
    forall i, e :: 0 <= i < |attempts| && e in attempts[i].trace ==> !IsFailed(e) && !IsConnecting(e)
  }

  lemma QuietParts(attempts: seq<Attempt>)
    requires attempts != [] && Quiet(attempts)
    ensures Quiet(attempts[..|attempts| - 1])
    ensures forall e :: e in attempts[|attempts| - 1].trace ==> !IsFailed(e) && !IsConnecting(e)
  {
  }

  lemma ConnectionsAreQuiet(messages: seq<WsMessage>)
    ensures |Reported(messages)| <= 1
    ensures forall e :: e in Reported(messages) ==> !IsFailed(e) && !IsConnecting(e)
  {
  }

  lemma FilterStep(p: Entry -> bool, trace: seq<Entry>, e: Entry, inner: seq<Entry>, tail: seq<Entry>)
    requires forall x :: x in inner ==> !p(x)
    ensures Filter(p, trace + [e] + inner + tail) == Filter(p, trace) + Filter(p, [e]) + Filter(p, tail)
  {
    FilterAppend(p, trace + [e] + inner, tail);
    FilterAppend(p, trace + [e], inner);
    FilterAppend(p, trace, [e]);
    FilterNone(p, inner);
    var before := Filter(p, trace + [e]);
    assert before + [] == before;
  }

  /** What one attempt adds to the events of interest. */
  lemma AttemptEvents(s: SessionState, attempt: Attempt)
    requires !s.gaveUp && forall e :: e in attempt.trace ==> !IsFailed(e) && !IsConnecting(e)
    ensures var t := AfterAttempt(s, attempt);
            && Filter(IsConnecting, t.trace)
               == Filter(IsConnecting, s.trace) + [Status(DISCONNECTED, CONNECTING, s.retryCount)]
            && Filter(IsFailed, t.trace)
               == (if t.gaveUp then Filter(IsFailed, s.trace) + [Status(RECONNECTING, FAILED, t.retryCount)]
                   else Filter(IsFailed, s.trace))
  {
    hide Filter;
    var connecting := Status(DISCONNECTED, CONNECTING, s.retryCount);
    var tail := Aftermath(s.retryCount, attempt.ok);
    FilterStep(IsConnecting, s.trace, connecting, attempt.trace, tail);
    FilterStep(IsFailed, s.trace, connecting, attempt.trace, tail);
    AftermathEvents(s.retryCount, attempt.ok);
    var before := Filter(IsConnecting, s.trace) + [connecting];
    assert before + [] == before;
    var failed := Filter(IsFailed, s.trace);
    assert failed + [] == failed;
  }

  lemma AftermathEvents(retryCount: nat, ok: bool)
    ensures Filter(IsConnecting, Aftermath(retryCount, ok)) == []
    ensures Filter(IsFailed, Aftermath(retryCount, ok))
         == if !ok && retryCount + 1 >= MAX_RETRIES then [Status(RECONNECTING, FAILED, retryCount + 1)] else []
    ensures Filter(IsConnecting, [Status(DISCONNECTED, CONNECTING, retryCount)])
         == [Status(DISCONNECTED, CONNECTING, retryCount)]
    ensures Filter(IsFailed, [Status(DISCONNECTED, CONNECTING, retryCount)]) == []
  {
    hide BackoffDelay;
    FilterNone(IsConnecting, Aftermath(retryCount, ok));
    if ok || retryCount + 1 < MAX_RETRIES {
      FilterNone(IsFailed, Aftermath(retryCount, ok));
    } else {
      FilterAll(IsFailed, Aftermath(retryCount, ok));
    }
  }

  /** FAILED is reported at most once: exactly when the session gives up, with count ten, and
      nothing is reported after it. */
  lemma {:induction false} FailedIsLast(attempts: seq<Attempt>)
    requires Quiet(attempts)
    ensures var s := After(attempts);
            if s.gaveUp then
              && Filter(IsFailed, s.trace) == [Status(RECONNECTING, FAILED, MAX_RETRIES)]
              && s.trace != [] && s.trace[|s.trace| - 1] == Status(RECONNECTING, FAILED, MAX_RETRIES)
            else Filter(IsFailed, s.trace) == []
  {
    if attempts != [] {
      hide Filter, Aftermath, TenInARow, Quiet;
      var init, last := attempts[..|attempts| - 1], attempts[|attempts| - 1];
      QuietParts(attempts);
      FailedIsLast(init);
      RetryCountIsStreak(init);
      if !After(init).gaveUp {
        AttemptEvents(After(init), last);
      }
    }
  }

  /** The CONNECTING events that attempts must report: each carries the failures before it. */
  function ConnectingEvents(attempts: seq<Attempt>): seq<Entry> {
    if attempts == [] then []
    else
      var init := attempts[..|attempts| - 1];
      if After(init).gaveUp then ConnectingEvents(init)
      else ConnectingEvents(init) + [Status(DISCONNECTED, CONNECTING, Streak(init))]
  }

  /** Every attempt that is made is announced once, and the announcements count 0, 1, 2, ...
      from each success on. */
  lemma {:induction false} ConnectingCountsFailures(attempts: seq<Attempt>)
    requires Quiet(attempts)
    ensures Filter(IsConnecting, After(attempts).trace) == ConnectingEvents(attempts)
  {
    if attempts != [] {
      hide Filter, Aftermath, TenInARow, Quiet;
      var init, last := attempts[..|attempts| - 1], attempts[|attempts| - 1];
      QuietParts(attempts);
      ConnectingCountsFailures(init);
      RetryCountIsStreak(init);
      if !After(init).gaveUp {
        AttemptEvents(After(init), last);
      }
    }
  }

  // ----- The session as it is: every connection ends in an error -----

  function PausedFor(trace: seq<Entry>): nat {
    if trace == [] then 0
    else PausedFor(trace[..|trace| - 1]) + (if trace[|trace| - 1].Pause? then trace[|trace| - 1].milliseconds else 0)
  }

  /** The pauses of the first `n` failures in a row. */
  function BackoffSum(n: nat): nat {
    if n == 0 then 0 else BackoffSum(n - 1) + BackoffDelay(n - 1)
  }

  lemma PausedAppend(a: seq<Entry>, b: seq<Entry>)
    ensures PausedFor(a + b) == PausedFor(a) + PausedFor(b)
  {
    if b == [] {
      assert a + b == a;
    } else {
      assert (a + b)[..|a + b| - 1] == a + b[..|b| - 1];
      PausedAppend(a, b[..|b| - 1]);
    }
  }

  lemma FailureDoesNotPause(c: Connection)
    ensures !FailureOf(c).ok && PausedFor(FailureOf(c).trace) == 0
  {
    if c.Open? {
      ConnectionsAreQuiet(c.messages);
      if Reported(c.messages) != [] {
        AtMostOneReport(c.messages);
        assert [LOST_CONNECTION][..0] == [];
      }
    }
  }

  lemma BackoffSumAtNine()
    ensures BackoffSum(9) == 243000
  {
    SmallPowers();
    assert BackoffSum(3) == 7000;
    assert BackoffSum(6) == 63000;
  }

  lemma BackoffSumNext(n: nat)
    ensures BackoffSum(0) == 0 && BackoffSum(n + 1) == BackoffSum(n) + BackoffDelay(n) && BackoffSum(9) == 243000
  {
    BackoffSumAtNine();
  }

  /** A session all of whose connections came back, after n of them. */
  ghost predicate FailedThrough(s: SessionState, n: nat) {
    && (s.gaveUp <==> n >= MAX_RETRIES)
    && (!s.gaveUp ==> s.retryCount == n && PausedFor(s.trace) == BackoffSum(n))
    && (s.gaveUp ==> PausedFor(s.trace) == 243000)
  }

  lemma OneMoreFailure(s: SessionState, n: nat, c: Connection)
    requires FailedThrough(s, n)
    ensures FailedThrough(AfterAttempt(s, FailureOf(c)), n + 1)
  {
    hide BackoffDelay, PausedFor, FailureOf, Aftermath, BackoffSum;
    if !s.gaveUp {
      FailureDoesNotPause(c);
      BackoffSumNext(n);
      PausesOfFailure(s, FailureOf(c));
    }
  }

  /** However long its connections lasted, a session whose connections all come back has failed
      once per connection: after n < 10 of them it has paused for the first n back-off delays,
      and it gives up at the tenth, after pausing for exactly 243 seconds. */
  lemma {:induction false} TenConnectionsEndASession(connections: seq<Connection>)
    ensures FailedThrough(After(Map(FailureOf, connections)), |connections|)
  {
    if connections == [] {
      BackoffSumNext(0);
    } else {
      var init, last := connections[..|connections| - 1], connections[|connections| - 1];
      TenConnectionsEndASession(init);
      var attempts := Map(FailureOf, connections);
      assert attempts[..|attempts| - 1] == Map(FailureOf, init);
      hide FailedThrough, FailureOf, AfterAttempt;
      OneMoreFailure(After(Map(FailureOf, init)), |init|, last);
    }
  }

  lemma PausesOfFailure(s: SessionState, attempt: Attempt)
    requires !s.gaveUp && !attempt.ok && PausedFor(attempt.trace) == 0
    ensures PausedFor(AfterAttempt(s, attempt).trace)
         == PausedFor(s.trace) + if s.retryCount + 1 >= MAX_RETRIES then 0 else BackoffDelay(s.retryCount)
  {
    hide BackoffDelay;
    var connecting := [Status(DISCONNECTED, CONNECTING, s.retryCount)];
    var tail := Aftermath(s.retryCount, false);
    PausedAppend(s.trace, connecting);
    PausedAppend(s.trace + connecting, attempt.trace);
    PausedAppend(s.trace + connecting + attempt.trace, tail);
    assert connecting[..0] == [];
    if s.retryCount + 1 >= MAX_RETRIES {
      assert tail[..0] == [];
    } else {
      assert tail[..1] == [tail[0]] && [tail[0]][..0] == [];
    }
  }

  lemma FailuresAreQuiet(connections: seq<Connection>)
    ensures Quiet(Map(FailureOf, connections))
  {
    forall i, e | 0 <= i < |connections| && e in FailureOf(connections[i]).trace
      ensures !IsFailed(e) && !IsConnecting(e)
    {
      AtMostOneReport(if connections[i].Open? then connections[i].messages else []);
    }
  }

  lemma {:induction false} FailureStreak(connections: seq<Connection>)
    ensures Streak(Map(FailureOf, connections)) == |connections|
  {
    if connections != [] {
      var init := connections[..|connections| - 1];
      FailureStreak(init);
      var attempts := Map(FailureOf, connections);
      assert attempts[..|attempts| - 1] == Map(FailureOf, init);
    }
  }

  function Announcement(failures: nat): Entry {
    Status(DISCONNECTED, CONNECTING, failures)
  }

  lemma {:induction false} AnnouncementsCount(connections: seq<Connection>)
    ensures ConnectingEvents(Map(FailureOf, connections))
         == seq(if |connections| < MAX_RETRIES then |connections| else MAX_RETRIES,
                i requires 0 <= i => Announcement(i))
  {
    if connections != [] {
      var init := connections[..|connections| - 1];
      var attempts := Map(FailureOf, connections);
      AnnouncementsCount(init);
      assert attempts[..|attempts| - 1] == Map(FailureOf, init);
      FailureStreak(init);
      TenConnectionsEndASession(init);
    }
  }

  /** What one connection leaves in the trace of a session that `n` connections came back to. */
  ghost function Round(connection: Connection, n: nat): seq<Entry>
    requires n < 10
  {
    [Status(0, 1, n)] + (if Closes(connection) then [Status(2, 0, 0)] else [])
    + if n == 9 then [Status(3, 4, 10)]
      else [Status(2, 3, n + 1), Pause([1000, 2000, 4000, 8000, 16000, 32000, 60000, 60000, 60000][n])]
  }

  ghost function Rounds(connections: seq<Connection>, n: nat): seq<Entry>
    requires n <= |connections| && n <= 10
  {
    if n == 0 then [] else Rounds(connections, n - 1) + Round(connections[n - 1], n - 1)
  }

  lemma FailureReports(c: Connection)
    ensures !FailureOf(c).ok && FailureOf(c).trace == if Closes(c) then [Status(2, 0, 0)] else []
  {
    if c.Open? {
      ReportedWhenClosed(c.messages);
    }
  }

  lemma {:induction false} RoundsOfPrefix(connections: seq<Connection>, n: nat)
    requires n < |connections| && n <= 10
    ensures Rounds(connections[..|connections| - 1], n) == Rounds(connections, n)
  {
    if n > 0 {
      RoundsOfPrefix(connections, n - 1);
    }
  }

  /** The whole trace of a session, for connections that behave in any way: one round per connection,
      up to the tenth. */
  lemma {:induction false} WholeTrace(connections: seq<Connection>)
    ensures After(Map(FailureOf, connections)).trace
         == Rounds(connections, if |connections| < 10 then |connections| else 10)
  {
    if connections != [] {
      hide Closes, FailureOf, Rounds, Round, After;
      var init, last := connections[..|connections| - 1], connections[|connections| - 1];
      WholeTrace(init);
      TenConnectionsEndASession(init);
      RoundsOfPrefix(connections, if |init| < 10 then |init| else 10);
      MapLast(connections);
      if |init| < 10 {
        OneMoreRound(connections);
      } else {
        GivenUpForGood(Map(FailureOf, connections), |init|);
        assert Map(FailureOf, connections)[..|init|] == Map(FailureOf, init);
      }
    } else {
      assert Map(FailureOf, connections) == [];
    }
  }

  lemma MapLast(connections: seq<Connection>)
    requires connections != []
    ensures Map(FailureOf, connections)
         == Map(FailureOf, connections[..|connections| - 1]) + [FailureOf(connections[|connections| - 1])]
  {
  }

  lemma OneMoreRound(connections: seq<Connection>)
    requires 0 < |connections| <= 10
    requires var init := connections[..|connections| - 1];
             && !After(Map(FailureOf, init)).gaveUp
             && After(Map(FailureOf, init)).trace == Rounds(connections, |init|)
    ensures After(Map(FailureOf, connections)).trace == Rounds(connections, |connections|)
  {
    hide Closes, FailureOf, After, Streak;
    var init, last := connections[..|connections| - 1], connections[|connections| - 1];
    FailureStreak(init);
    FailureReports(last);
    OneMoreAttempt(Map(FailureOf, init), FailureOf(last));
    MapLast(connections);
    var before, told := Rounds(connections, |init|), FailureOf(last).trace;
    var tail := Round(last, |init|);
    assert tail == [Status(0, 1, |init|)] + told + tail[1 + |told|..];
    assert before + tail == before + [Status(0, 1, |init|)] + told + tail[1 + |told|..];
  }

  predicate IsReconnecting(e: Entry) { e.Status? && e.current == RECONNECTING }

  predicate IsConnected(e: Entry) { e.Status? && e.current == CONNECTED }

  function Reconnection(i: nat): Entry {
    Status(CONNECTED, RECONNECTING, i + 1)
  }

  lemma {:induction false} RoundsReconnect(connections: seq<Connection>, n: nat)
    requires n <= |connections| && n <= 10
    ensures Filter(IsReconnecting, Rounds(connections, n))
         == seq(if n < 10 then n else 9, i requires 0 <= i => Reconnection(i))
    ensures Filter(IsConnected, Rounds(connections, n)) == []
  {
    hide Filter, Round;
    if n > 0 {
      RoundsReconnect(connections, n - 1);
      RoundEvents(connections[n - 1], n - 1);
      var before, round := Rounds(connections, n - 1), Round(connections[n - 1], n - 1);
      FilterAppend(IsReconnecting, before, round);
      FilterAppend(IsConnected, before, round);
      assert Filter(IsConnected, before) + [] == [];
      NextReconnection(n - 1);
    } else {
      assert Rounds(connections, 0) == [];
      FilterNone(IsReconnecting, []);
      FilterNone(IsConnected, []);
    }
  }

  lemma NextReconnection(n: nat)
    ensures seq(n + 1, i requires 0 <= i => Reconnection(i))
         == seq(n, i requires 0 <= i => Reconnection(i)) + [Reconnection(n)]
    ensures seq(n, i requires 0 <= i => Reconnection(i)) + [] == seq(n, i requires 0 <= i => Reconnection(i))
  {
  }

  lemma RoundEvents(connection: Connection, n: nat)
    requires n < 10
    ensures Filter(IsReconnecting, Round(connection, n)) == if n == 9 then [] else [Reconnection(n)]
    ensures Filter(IsConnected, Round(connection, n)) == []
  {
    hide Closes, Filter;
    var head := [Status(0, 1, n)] + (if Closes(connection) then [Status(2, 0, 0)] else []);
    FilterNone(IsReconnecting, head);
    FilterNone(IsConnected, Round(connection, n));
    if n < 9 {
      var told, pause := Reconnection(n), Pause([1000, 2000, 4000, 8000, 16000, 32000, 60000, 60000, 60000][n]);
      assert Round(connection, n) == head + ([told] + [pause]);
      FilterAppend(IsReconnecting, head, [told] + [pause]);
      FilterAppend(IsReconnecting, [told], [pause]);
      FilterAll(IsReconnecting, [told]);
      FilterNone(IsReconnecting, [pause]);
    } else {
      assert Round(connection, n) == head + [Status(3, 4, 10)];
      FilterAppend(IsReconnecting, head, [Status(3, 4, 10)]);
      FilterNone(IsReconnecting, [Status(3, 4, 10)]);
    }
  }

  /** What a session reports over its whole life, for connections that behave in any way: it announces
      attempts 0, 1, 2, ... up to 9, RECONNECTING with 1, 2, 3, ... failures up to 9, FAILED once, after
      the tenth, last, and CONNECTED never. */
  lemma SessionReports(connections: seq<Connection>)
    ensures var s := After(Map(FailureOf, connections));
            var made := if |connections| < MAX_RETRIES then |connections| else MAX_RETRIES;
            && Filter(IsConnecting, s.trace) == seq(made, i requires 0 <= i => Announcement(i))
            && Filter(IsReconnecting, s.trace)
               == seq(if made < MAX_RETRIES then made else MAX_RETRIES - 1, i requires 0 <= i => Reconnection(i))
            && Filter(IsConnected, s.trace) == []
            && (|connections| < MAX_RETRIES ==> Filter(IsFailed, s.trace) == [])
            && (|connections| >= MAX_RETRIES ==>
                  && Filter(IsFailed, s.trace) == [Status(RECONNECTING, FAILED, MAX_RETRIES)]
                  && s.trace != [] && s.trace[|s.trace| - 1] == Status(RECONNECTING, FAILED, MAX_RETRIES))
  {
    hide After, Quiet, Filter, ConnectingEvents, Rounds;
    FailuresAreQuiet(connections);
    AnnouncementsCount(connections);
    TenConnectionsEndASession(connections);
    FailedIsLast(Map(FailureOf, connections));
    ConnectingCountsFailures(Map(FailureOf, connections));
    WholeTrace(connections);
    RoundsReconnect(connections, if |connections| < 10 then |connections| else 10);
  }
}
