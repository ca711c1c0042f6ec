/** The Wi-Fi fallback between station and access point. The radio's status is read twice per poll and may change in between. */
module WiFi {
  import opened Words
  import G = Gate

  const CONNECTION_TIMEOUT_MS: nat := 30000
  const RECONNECT_MS: nat := 5000

  datatype Mode = Off | Sta | Ap | ApSta

  /** The handler's variables and the mode it last gave the radio. */
  datatype State = State(mode: Mode, apStarted: bool, connectionStart: word, lastReconnect: word)

  const BOOT := State(Off, false, 0, 0)

  function WithAp(w: State, combine: bool): State {
    w.(mode := if combine then ApSta else Ap, apStarted := true)
  }

  /** `usable`: are credentials stored? `connected`: did the first 15 s bring a connection? */
  function AfterSetup(w: State, usable: bool, connected: bool, millis: word): State {
    if usable then
      var w1 := w.(mode := Sta, connectionStart := millis, apStarted := false);
      if connected then w1 else WithAp(w1, false)
    else WithAp(w, false)
  }

  /** Does a poll with these two readings try to reconnect? */
  predicate Reconnects(w: State, first: bool, second: bool, now: word) {
    !(first && w.apStarted) && !second && G.Due(w.lastReconnect, now, RECONNECT_MS)
  }

  predicate TimedOut(w: State, now: word) {
    Minus(now, w.connectionStart) > CONNECTION_TIMEOUT_MS
  }

  function AfterPoll(w: State, first: bool, second: bool, now: word): State {
    if first && w.apStarted then w.(mode := Sta, apStarted := false)
    else if second then w
    else
      var w1 := if Reconnects(w, first, second, now) then w.(lastReconnect := now) else w;
      if !w1.apStarted && TimedOut(w1, now) then WithAp(w1, true) else w1
  }

  class WiFiHandler {
    var mode: Mode
    var apStarted: bool
    var connectionStartTime: word
    var lastReconnectAttempt: word

    ghost function View(): State
      reads this
    {
      State(mode, apStarted, connectionStartTime, lastReconnectAttempt)
    }

    constructor ()
      ensures View() == BOOT
    {
      mode, apStarted, connectionStartTime, lastReconnectAttempt := Off, false, 0, 0;
    }

    method Setup(usable: bool, connected: bool, millis: word)
      modifies this
      ensures View() == AfterSetup(old(View()), usable, connected, millis)
    {
      if usable {
        mode := Sta;
        connectionStartTime := millis;
        apStarted := false;
        if !connected {
          StartAP(false);
        }
      } else {
        StartAP(false);
      }
    }

    method StartAP(combine: bool)
      modifies this
      ensures View() == WithAp(old(View()), combine)
    {
      mode := if combine then ApSta else Ap;
      apStarted := true;
    }

    method StopAP()
      modifies this
      ensures View() == old(View()).(apStarted := false)
    {
      if apStarted {
        apStarted := false;
      }
    }

    /** Says whether the radio was told to reconnect. */
    method CheckConnection(first: bool, second: bool, now: word) returns (reconnect: bool)
      modifies this
      ensures View() == AfterPoll(old(View()), first, second, now)
      ensures reconnect == Reconnects(old(View()), first, second, now)
    {
      reconnect := false;
      if first && apStarted {
        StopAP();
        mode := Sta;
        return;
      }
      if second {
        return;
      }
      if Minus(now, lastReconnectAttempt) >= RECONNECT_MS {
        lastReconnectAttempt := now;
        reconnect := true;
      }
      if !apStarted && Minus(now, connectionStartTime) > CONNECTION_TIMEOUT_MS {
        StartAP(true);
      }
    }
  }

  // ---------- runs ----------

  /** A poll at an unbounded time. */
  datatype Poll = Poll(at: nat, first: bool, second: bool)

  function Run(w: State, ps: seq<Poll>): State {
    if ps == [] then w
    else
      var p := ps[|ps| - 1];
      AfterPoll(Run(w, ps[..|ps| - 1]), p.first, p.second, Wrap(p.at))
  }

  predicate Ordered(start: nat, ps: seq<Poll>) {
    ps == [] || (LastAt(start, ps[..|ps| - 1]) <= ps[|ps| - 1].at && Ordered(start, ps[..|ps| - 1]))
  }

  function LastAt(start: nat, ps: seq<Poll>): nat {
    if ps == [] then start else ps[|ps| - 1].at
  }

  /** The times at which the run tried to reconnect. */
  function Attempts(w: State, ps: seq<Poll>): seq<nat> {
    if ps == [] then []
    else
      var front, p := ps[..|ps| - 1], ps[|ps| - 1];
      Attempts(w, front) + (if Reconnects(Run(w, front), p.first, p.second, Wrap(p.at)) then [p.at] else [])
  }

  predicate ModeMatchesFlag(w: State) {
    (w.apStarted <==> w.mode == Ap || w.mode == ApSta) && (!w.apStarted <==> w.mode == Sta)
  }

  /** After setup, on every run: the flag says whether the access point is up, and without it the mode is pure station. */
  lemma {:induction false} ApFlagIsTruthful(usable: bool, connected: bool, start: nat, ps: seq<Poll>)
    ensures ModeMatchesFlag(Run(AfterSetup(BOOT, usable, connected, Wrap(start)), ps))
  {
    if ps != [] {
      ApFlagIsTruthful(usable, connected, start, ps[..|ps| - 1]);
    }
  }

  /** The stored word stands for the time of the latest attempt. */
  predicate Tracks(w: State, latest: nat) {
    w.lastReconnect == Wrap(latest)
  }

  lemma PollTracks(w: State, latest: nat, p: Poll)
    requires Tracks(w, latest) && latest <= p.at
    ensures var tried := Reconnects(w, p.first, p.second, Wrap(p.at));
            && Tracks(AfterPoll(w, p.first, p.second, Wrap(p.at)), if tried then p.at else latest)
            && (tried ==> p.at - latest >= RECONNECT_MS)
  {
    G.DueIsExact(latest, p.at, RECONNECT_MS);
  }

  lemma {:induction false} AttemptsFollow(w: State, last: nat, ps: seq<Poll>)
    requires Tracks(w, last) && Ordered(last, ps)
    ensures var ts := Attempts(w, ps);
            && G.Spaced(last, ts, RECONNECT_MS)
            && Tracks(Run(w, ps), G.LastOf(last, ts)) && G.LastOf(last, ts) <= LastAt(last, ps)
  {
    if ps != [] {
      var front, p := ps[..|ps| - 1], ps[|ps| - 1];
      AttemptsFollow(w, last, front);
      var before, ts := Attempts(w, front), Attempts(w, ps);
      PollTracks(Run(w, front), G.LastOf(last, before), p);
      if Reconnects(Run(w, front), p.first, p.second, Wrap(p.at)) {
        G.SpacedSnoc(last, before, p.at, RECONNECT_MS);
        assert ts == before + [p.at];
      } else {
        assert ts == before + [] == before;
      }
    }
  }

  /** Reconnect attempts are at least 5000 ms apart on every run, across any number of clock rollovers. */
  lemma AttemptsAreSpaced(usable: bool, connected: bool, start: nat, ps: seq<Poll>)
    requires Ordered(0, ps)
    ensures G.Spaced(0, Attempts(AfterSetup(BOOT, usable, connected, Wrap(start)), ps), RECONNECT_MS)
  {
    AttemptsFollow(AfterSetup(BOOT, usable, connected, Wrap(start)), 0, ps);
  }

  /** In unbounded time: a poll tries to reconnect if and only if it finds no connection and 5 s have passed since the last attempt. */
  lemma ReconnectsIff(w: State, latest: nat, p: Poll)
    requires Tracks(w, latest) && latest <= p.at < latest + WORD
    ensures Reconnects(w, p.first, p.second, Wrap(p.at)) <==> !FindsConnection(w, p) && p.at - latest >= 5000
  {
    G.DueIsExact(latest, p.at, RECONNECT_MS);
  }

  /** No poll of the run finds a connection. */
  predicate NeverFound(w: State, ps: seq<Poll>) {
    ps == [] || (NeverFound(w, ps[..|ps| - 1]) && Lost(w, ps))
  }

  function Times(ps: seq<Poll>): (ts: seq<nat>)
    ensures |ts| == |ps|
  {
    seq(|ps|, i requires 0 <= i < |ps| => ps[i].at)
  }

  /** While no connection is found, the attempts are the runs of a gate of 5 s. */
  lemma {:induction false} AttemptsAreGateRuns(w: State, last: nat, ps: seq<Poll>)
    requires Tracks(w, last) && NeverFound(w, ps)
    ensures Attempts(w, ps) == G.Fires(Wrap(last), Times(ps), RECONNECT_MS)
    ensures Tracks(Run(w, ps), G.LastOf(last, Attempts(w, ps)))
  {
    if ps != [] {
      var front, p := ps[..|ps| - 1], ps[|ps| - 1];
      AttemptsAreGateRuns(w, last, front);
      assert Times(ps) == Times(front) + [p.at];
      G.FiresSnoc(last, Times(front), p.at, RECONNECT_MS);
    }
  }

  /**
   * While no connection is found on polls at most `gap` apart, over any number of rollovers: the last attempt is less than 5 s before
   * the last poll, and by time T, up to `gap` after it, there were at least floor((T - last) / (5000 + gap)) attempts.
   */
  lemma AttemptsKeepUp(w: State, last: nat, start: nat, ps: seq<Poll>, gap: nat, T: nat)
    requires Tracks(w, last) && last <= start && start - last < RECONNECT_MS
    requires NeverFound(w, ps) && G.Within(start, Times(ps), gap) && RECONNECT_MS + gap <= WORD
    requires G.LastOf(start, Times(ps)) <= T <= G.LastOf(start, Times(ps)) + gap
    ensures G.LastOf(start, Times(ps)) - G.LastOf(last, Attempts(w, ps)) < 5000
    ensures T - last < (|Attempts(w, ps)| + 1) * (5000 + gap)
  {
    AttemptsAreGateRuns(w, last, ps);
    G.NeverOverdue(last, start, Times(ps), RECONNECT_MS, gap);
    G.FiresKeepUp(last, start, Times(ps), RECONNECT_MS, gap, T);
  }

  // ---------- which mode the radio is in ----------

  /** Was the access point of setup up all along? */
  predicate SetupApUp(w: State, ps: seq<Poll>) {
    w.apStarted && NoneConnected(ps)
  }

  /**
   * On every run after setup: pure station mode without an access point; access point mode while the one from setup, without
   * credentials or connection, is up; and both modes while one brought up by the fallback is.
   */
  lemma {:induction false} ModeOnRuns(usable: bool, connected: bool, start: nat, ps: seq<Poll>)
    ensures var w := AfterSetup(BOOT, usable, connected, Wrap(start));
            && (w.apStarted <==> !(usable && connected))
            && (usable ==> w.connectionStart == Wrap(start))
            && Run(w, ps).mode == (if SetupApUp(w, ps) then Ap else if Run(w, ps).apStarted then ApSta else Sta)
            && (SetupApUp(w, ps) ==> Run(w, ps).apStarted)
  {
    if ps != [] {
      var front, p := ps[..|ps| - 1], ps[|ps| - 1];
      ModeOnRuns(usable, connected, start, front);
      SplitLast(ps, front, p);
    }
  }

  // ---------- when the access point is up ----------

  lemma {:induction false} RunKeepsStart(w: State, ps: seq<Poll>)
    ensures Run(w, ps).connectionStart == w.connectionStart
  {
    if ps != [] {
      RunKeepsStart(w, ps[..|ps| - 1]);
    }
  }

  lemma {:induction false} OrderedFromStart(start: nat, ps: seq<Poll>)
    requires Ordered(start, ps)
    ensures start <= LastAt(start, ps)
  {
    if ps != [] {
      OrderedFromStart(start, ps[..|ps| - 1]);
    }
  }

  /** More than the timeout since the connection was begun, as far as 32 bits can tell. */
  predicate Beyond(start: nat, p: Poll) {
    (p.at - start) % WORD > CONNECTION_TIMEOUT_MS
  }

  /** The poll brings the access point up. */
  predicate BringsUp(w: State, start: nat, p: Poll) {
    !w.apStarted && !p.second && Beyond(start, p)
  }

  predicate NoneConnected(ps: seq<Poll>) {
    forall j :: 0 <= j < |ps| ==> !ps[j].first
  }

  /** Up all along, or brought up by some poll and not seen connected by a first reading since. */
  ghost predicate UpSince(w: State, start: nat, ps: seq<Poll>) {
    || (w.apStarted && NoneConnected(ps))
    || (exists i :: 0 <= i < |ps| && BringsUp(Run(w, ps[..i]), start, ps[i]) && NoneConnected(ps[i + 1..]))
  }

  lemma SplitLast(ps: seq<Poll>, front: seq<Poll>, p: Poll)
    requires ps == front + [p]
    ensures NoneConnected(ps) <==> NoneConnected(front) && !p.first
  {
    assert ps[|front|] == p && forall j :: 0 <= j < |front| ==> ps[j] == front[j];
  }

  /** One more poll: up if it brings the access point up, or leaves it up. */
  lemma UpSinceSnoc(w: State, start: nat, ps: seq<Poll>)
    requires ps != []
    ensures var front, p := ps[..|ps| - 1], ps[|ps| - 1];
            UpSince(w, start, ps) <==> BringsUp(Run(w, front), start, p) || (UpSince(w, start, front) && !p.first)
  {
    var n := |ps| - 1;
    var front, p := ps[..n], ps[n];
    assert ps[n + 1..] == [];
    forall i | 0 <= i < n
      ensures ps[..i] == front[..i] && ps[i] == front[i]
      ensures NoneConnected(ps[i + 1..]) <==> NoneConnected(front[i + 1..]) && !p.first
    {
      SplitLast(ps[i + 1..], front[i + 1..], p);
    }
    SplitLast(ps, front, p);
    if UpSince(w, start, front) && !p.first && !(w.apStarted && NoneConnected(front)) {
      var i :| 0 <= i < n && BringsUp(Run(w, front[..i]), start, front[i]) && NoneConnected(front[i + 1..]);
      assert BringsUp(Run(w, ps[..i]), start, ps[i]) && NoneConnected(ps[i + 1..]);
    }
  }

  /** One poll: up if it brings the access point up, or finds it up and no connection at its first reading. */
  lemma UpAfterPoll(w: State, start: nat, p: Poll)
    requires w.connectionStart == Wrap(start) && start <= p.at
    ensures AfterPoll(w, p.first, p.second, Wrap(p.at)).apStarted <==> BringsUp(w, start, p) || (w.apStarted && !p.first)
  {
    ElapsedModulo(start, p.at);
  }

  /**
   * On every run, with any readings and across any number of rollovers, for a connection begun at
   * `start`: the access point is up if and only if it has been all along, or a poll brought it up, and no first
   * reading since was connected.
   */
  lemma {:induction false} AccessPointUpIff(w: State, start: nat, ps: seq<Poll>)
    requires w.connectionStart == Wrap(start) && Ordered(start, ps)
    ensures Run(w, ps).apStarted <==> UpSince(w, start, ps)
  {
    if ps != [] {
      var front, p := ps[..|ps| - 1], ps[|ps| - 1];
      AccessPointUpIff(w, start, front);
      OrderedFromStart(start, ps);
      RunKeepsStart(w, front);
      UpAfterPoll(Run(w, front), start, p);
      UpSinceSnoc(w, start, ps);
    }
  }

  // ---------- the fallback as its comment describes it ----------

  /** The poll takes a reading that says connected and leaves it at that; the second is taken only if the first did not end the poll. */
  predicate FindsConnection(w: State, p: Poll) {
    (p.first && w.apStarted) || p.second
  }

  /** The last poll found no connection. */
  predicate Lost(w: State, ps: seq<Poll>) {
    ps != [] && !FindsConnection(Run(w, ps[..|ps| - 1]), ps[|ps| - 1])
  }

  /** Its outage begins with it: the poll before found a connection, or its own first reading still did. */
  predicate Begins(w: State, ps: seq<Poll>)
    requires Lost(w, ps)
  {
    ps[|ps| - 1].first || !Lost(w, ps[..|ps| - 1])
  }

  /** When the disconnection that the last poll saw occurred, as far as polls can tell: at the first poll of its outage. */
  function DownSince(w: State, ps: seq<Poll>): nat
    requires Lost(w, ps)
    decreases |ps|
  {
    if Begins(w, ps) then ps[|ps| - 1].at else DownSince(w, ps[..|ps| - 1])
  }

  /** Was the access point up before that outage? */
  predicate UpBefore(w: State, ps: seq<Poll>)
    requires Lost(w, ps)
    decreases |ps|
  {
    if Begins(w, ps) then Run(w, ps[..|ps| - 1]).apStarted else UpBefore(w, ps[..|ps| - 1])
  }

  /** The time t lies within 30 s after `start`, or after some multiple of 2^32 ms from there. */
  predicate InGraceWindow(start: nat, t: nat) {
    t >= start && (t - start) % WORD <= CONNECTION_TIMEOUT_MS
  }

  /** The windows are the intervals [start + k 2^32, start + k 2^32 + 30 s]. */
  lemma GraceWindows(start: nat, t: nat)
    requires start <= t
    ensures InGraceWindow(start, t) <==>
            exists k: nat :: start + Windows(k) <= t <= start + Windows(k) + CONNECTION_TIMEOUT_MS
  {
    var q := (t - start) / WORD;
    assert t - start == Windows(q) + (t - start) % WORD;
    if k: nat :| start + Windows(k) <= t <= start + Windows(k) + CONNECTION_TIMEOUT_MS {
      Remainder(t - start, k);
    }
  }

  /** k rollovers of the clock, in milliseconds. */
  function Windows(k: nat): nat {
    k * WORD
  }

  lemma Remainder(n: nat, k: nat)
    requires Windows(k) <= n < Windows(k) + WORD
    ensures n % WORD == n - Windows(k)
  {
    assert n == k * WORD + (n - Windows(k));
  }

  /** Some poll of the outage lay in no grace window. */
  predicate LeftGrace(w: State, start: nat, ps: seq<Poll>)
    requires Lost(w, ps)
    decreases |ps|
  {
    !InGraceWindow(start, ps[|ps| - 1].at) || (!Begins(w, ps) && LeftGrace(w, start, ps[..|ps| - 1]))
  }

  /** The rule of the comment: up once the disconnection is more than 30 s ago. */
  predicate AsPromised(w: State, ps: seq<Poll>)
    requires Lost(w, ps)
  {
    Run(w, ps).apStarted <==> ps[|ps| - 1].at - DownSince(w, ps) > CONNECTION_TIMEOUT_MS
  }

  lemma PollByWindow(w: State, start: nat, p: Poll)
    requires w.connectionStart == Wrap(start) && start <= p.at && !w.apStarted && !p.second
    ensures AfterPoll(w, p.first, p.second, Wrap(p.at)).apStarted <==> !InGraceWindow(start, p.at)
  {
    ElapsedModulo(start, p.at);
  }

  /** In an outage the access point, once up, stays up; and it comes up outside every grace window. */
  lemma OutageStep(w: State, start: nat, p: Poll)
    requires w.connectionStart == Wrap(start) && start <= p.at && !FindsConnection(w, p)
    ensures AfterPoll(w, p.first, p.second, Wrap(p.at)).apStarted <==> w.apStarted || !InGraceWindow(start, p.at)
  {
    if !w.apStarted {
      PollByWindow(w, start, p);
    }
  }

  /** After a poll without a connection: up if and only if it was up before the outage or the outage has left the grace windows. */
  lemma {:induction false} UpInOutageIff(w: State, start: nat, ps: seq<Poll>)
    requires w.connectionStart == Wrap(start) && Ordered(start, ps) && Lost(w, ps)
    ensures Run(w, ps).apStarted <==> UpBefore(w, ps) || LeftGrace(w, start, ps)
    decreases |ps|
  {
    var front := ps[..|ps| - 1];
    RunKeepsStart(w, front);
    OrderedFromStart(start, ps);
    OutageStep(Run(w, front), start, ps[|ps| - 1]);
    if !Begins(w, ps) {
      UpInOutageIff(w, start, front);
    }
  }

  lemma FirstWindow(start: nat, t: nat)
    requires start <= t < start + WORD
    ensures InGraceWindow(start, t) <==> t <= start + CONNECTION_TIMEOUT_MS
  {}

  /**
   * On every run, over any number of rollovers: after a poll that finds no connection the access point is as
   * the comment says if and only if the outage is more than 30 s old, in case the access point was up before it or some
   * poll of it lay in no grace window, and at most 30 s old otherwise.
   */
  lemma FallbackAsPromisedIff(w: State, start: nat, ps: seq<Poll>)
    requires w.connectionStart == Wrap(start) && Ordered(start, ps) && Lost(w, ps)
    ensures var t, down := ps[|ps| - 1].at, DownSince(w, ps);
            AsPromised(w, ps) <==>
            if UpBefore(w, ps) || LeftGrace(w, start, ps) then t > down + CONNECTION_TIMEOUT_MS
            else t <= down + CONNECTION_TIMEOUT_MS
  {
    UpInOutageIff(w, start, ps);
  }

  lemma {:induction false} LeftGraceInFirstEpoch(w: State, start: nat, ps: seq<Poll>)
    requires Ordered(start, ps) && Lost(w, ps) && ps[|ps| - 1].at - start < WORD
    ensures LeftGrace(w, start, ps) <==> ps[|ps| - 1].at > start + CONNECTION_TIMEOUT_MS
    ensures start <= DownSince(w, ps) <= ps[|ps| - 1].at
    decreases |ps|
  {
    var front := ps[..|ps| - 1];
    OrderedFromStart(start, ps);
    FirstWindow(start, ps[|ps| - 1].at);
    if !Begins(w, ps) {
      OrderedFromStart(start, front);
      LeftGraceInFirstEpoch(w, start, front);
    }
  }

  /** Before the clock passes start + 2^32 there is one grace window: the 30 s after the connection was begun. */
  lemma FallbackInFirstEpochIff(w: State, start: nat, ps: seq<Poll>)
    requires w.connectionStart == Wrap(start) && Ordered(start, ps) && Lost(w, ps) && !UpBefore(w, ps)
    requires ps[|ps| - 1].at - start < WORD
    ensures var t, down := ps[|ps| - 1].at, DownSince(w, ps);
            AsPromised(w, ps) <==> t <= start + CONNECTION_TIMEOUT_MS || t > down + CONNECTION_TIMEOUT_MS
  {
    UpInOutageIff(w, start, ps);
    LeftGraceInFirstEpoch(w, start, ps);
  }

  /** No reading of these polls was connected. */
  predicate Outage(ps: seq<Poll>) {
    forall j :: 0 <= j < |ps| ==> !ps[j].first && !ps[j].second
  }

  /** Each poll comes at most `gap` after the one before it. */
  predicate Dense(ps: seq<Poll>, gap: nat) {
    forall j :: 0 < j < |ps| ==> ps[j - 1].at <= ps[j].at <= ps[j - 1].at + gap
  }

  /** A connection lost 40 s after it was begun brings the access point up 1 ms later. */
  lemma FallbackTooEarly()
    ensures var w := AfterSetup(BOOT, true, true, Wrap(0));
            var ps := [Poll(40000, true, true), Poll(40001, false, false)];
            Lost(w, ps) && DownSince(w, ps) == 40001 && Run(w, ps).apStarted && !AsPromised(w, ps)
  {
    var w := AfterSetup(BOOT, true, true, Wrap(0));
    var ps := [Poll(40000, true, true), Poll(40001, false, false)];
    assert ps[..1] == [ps[0]] && ps[..1][..0] == [];
    assert Run(w, ps[..1]) == w;
  }

  /** A disconnection as the clock passes start + 2^32 gets no access point for another 30 s. */
  lemma FallbackSuppressed(w: State, start: nat, k: nat, t: nat)
    requires w.connectionStart == Wrap(start) && !w.apStarted
    requires start + Windows(k) <= t <= start + Windows(k) + CONNECTION_TIMEOUT_MS
    ensures !AfterPoll(w, false, false, Wrap(t)).apStarted
  {
    Remainder(t - start, k);
    ElapsedModulo(start, t);
  }

  lemma PastWindow(start: nat, t: nat, k: nat)
    requires start + Windows(k) + CONNECTION_TIMEOUT_MS < t < start + Windows(k) + WORD
    ensures !InGraceWindow(start, t)
  {
    Remainder(t - start, k);
  }

  /** An outage that begins in a grace window: from its first poll after that window on the access point is up. */
  lemma {:induction false} UpAfterWindow(w: State, start: nat, ps: seq<Poll>, gap: nat, k: nat)
    requires w.connectionStart == Wrap(start) && Outage(ps) && Dense(ps, gap) && ps != []
    requires gap + CONNECTION_TIMEOUT_MS < WORD
    requires start + Windows(k) <= ps[0].at <= start + Windows(k) + CONNECTION_TIMEOUT_MS
    ensures ps[0].at <= ps[|ps| - 1].at
    ensures ps[|ps| - 1].at > start + Windows(k) + CONNECTION_TIMEOUT_MS ==> Run(w, ps).apStarted
  {
    var n := |ps| - 1;
    var p, t := ps[n], Run(w, ps[..n]);
    RunKeepsStart(w, ps[..n]);
    if n > 0 {
      UpAfterWindow(w, start, ps[..n], gap, k);
      OutageStep(t, start, p);
      if start + Windows(k) + CONNECTION_TIMEOUT_MS < p.at && !t.apStarted {
        PastWindow(start, p.at, k);
      }
    }
  }

  lemma {:induction false} UpAtOnce(w: State, start: nat, ps: seq<Poll>)
    requires w.connectionStart == Wrap(start) && Outage(ps) && ps != []
    requires start <= ps[0].at && !InGraceWindow(start, ps[0].at)
    ensures Run(w, ps).apStarted
  {
    var n := |ps| - 1;
    if n == 0 {
      assert ps[..0] == [];
      OutageStep(w, start, ps[0]);
    } else {
      UpAtOnce(w, start, ps[..n]);
    }
  }

  /**
   * The fallback never comes too late: from any state, and over any number of rollovers, in an outage
   * whose polls are at most `gap` apart (gap + 30 s below 2^32 ms) the access point is up at every poll
   * more than 30 s after its first.
   */
  lemma FallbackNeverLate(w: State, start: nat, ps: seq<Poll>, gap: nat)
    requires w.connectionStart == Wrap(start) && Outage(ps) && Dense(ps, gap) && ps != [] && start <= ps[0].at
    requires gap + CONNECTION_TIMEOUT_MS < WORD
    requires ps[|ps| - 1].at - ps[0].at > CONNECTION_TIMEOUT_MS
    ensures Run(w, ps).apStarted
  {
    if InGraceWindow(start, ps[0].at) {
      GraceWindows(start, ps[0].at);
      var k: nat :| start + Windows(k) <= ps[0].at <= start + Windows(k) + CONNECTION_TIMEOUT_MS;
      UpAfterWindow(w, start, ps, gap, k);
    } else {
      UpAtOnce(w, start, ps);
    }
  }
}
