/**
  `PushoverClient` (linkover/client.py:16-117): the background worker that
  keeps the WebSocket open, decodes its signals and runs fetch-and-deliver
  rounds. The network, the sleep and the callback are not called; what the
  client does to them is recorded, in order, in `events`, and the functions
  below say exactly which events a frame, a connection and a whole run give.
 */
module Client {
  import opened Messages
  import opened Frames
  import opened Delivery

  /** `_RECONNECT_DELAY`, in seconds (linkover/client.py:13). */
  const ReconnectDelay: nat := 5

  /** What the client does to the outside world. */
  datatype Event =
    | NewSocket                                  // a new WebSocketApp runs
    | Send(frame: string)                        // a frame sent on the socket
    | Callback(batch: seq<Msg>, isInitial: bool) // on_messages(batch, is_initial)
    | Purge(highestId: int)                      // delete_messages(..., highest)
    | Close                                      // ws.close()
    | StopRequested                              // the stop event is set
    | Sleep(seconds: nat)                        // time.sleep before reconnecting

  /** Events that happen on an open socket: the delivery calls and the close. */
  predicate Traffic(e: Event)
  {
    e.Callback? || e.Purge? || e.Close?
  }

  /** The events a round produces: the callback (if any), then the purge (if any). */
  function RoundEvents(r: Round): seq<Event>
  {
    (if r.batch.Some? then [Callback(r.batch.value, r.isInitial)] else [])
    + (if r.purge.Some? then [Purge(r.purge.value)] else [])
  }

  /** The events of several rounds, one after the other. */
  function AllRoundEvents(rounds: seq<Round>): seq<Event>
  {
    if rounds == [] then [] else RoundEvents(rounds[0]) + AllRoundEvents(rounds[1..])
  }

  /**
    One frame the server sends, with what the fetch would return if this frame
    starts a round (the outcome is ignored for any other frame).
   */
  datatype Frame = Frame(raw: string, fetch: Fetch)

  /** When, relative to one connection attempt, `stop()` is called from outside. */
  datatype StopPoint = NoStop | WhileConnected | WhileSleeping

  /**
    One connection attempt: whether the socket opened, the frames received
    before it closed or dropped, and whether `stop()` came during it (a stop
    during the connection is taken to come after the frames listed).
   */
  datatype Attempt = Attempt(connected: bool, frames: seq<Frame>, stop: StopPoint)

  /** Some frame asks the client to close the socket. */
  ghost predicate ServerCloses(frames: seq<Frame>)
  {
    exists i :: 0 <= i < |frames| && Decode(frames[i].raw) == CloseSocket
  }

  /**
    The fetch outcomes a connection consumes: one per `!` frame, up to the
    first `R` or `E`, after which the socket is closed and nothing more is read.
   */
  function Signalled(frames: seq<Frame>): seq<Fetch>
  {
    if frames == [] then []
    else
      match Decode(frames[0].raw)
      case FetchRound => [frames[0].fetch] + Signalled(frames[1..])
      case CloseSocket => []
      case NoAction => Signalled(frames[1..])
  }

  /** The events `on_message` causes over a connection, starting in state `s`. */
  function Session(s: Snapshot, frames: seq<Frame>): seq<Event>
    decreases |frames|
  {
    if frames == [] then []
    else
      match Decode(frames[0].raw)
      case FetchRound =>
        var t := Step(s, frames[0].fetch);
        RoundEvents(t.round) + Session(t.next, frames[1..])
      case CloseSocket => [Close]
      case NoAction => Session(s, frames[1..])
  }

  /** The fetch outcomes one attempt consumes; an attempt whose socket never opened reads none. */
  function AttemptFetches(a: Attempt): seq<Fetch>
  {
    if a.connected then Signalled(a.frames) else []
  }

  /**
    The events of one `_connect`: a new socket; once open, the login frame and
    the session; and, when `stop()` comes meanwhile, the stop and the close.
   */
  function ConnectTrace(s: Snapshot, login: string, a: Attempt): seq<Event>
  {
    [NewSocket]
    + (if a.connected then [Send(login)] + Session(s, a.frames) else [])
    + (if a.stop == WhileConnected then [StopRequested, Close] else [])
  }

  /**
    The events of `run` from state `s`, over the attempts the network grants:
    connect; unless stopped, sleep and go round again. A stop during the sleep
    closes the last socket once more and ends the loop.
   */
  function RunTrace(s: Snapshot, login: string, attempts: seq<Attempt>): seq<Event>
    decreases |attempts|
  {
    if attempts == [] then []
    else
      var a := attempts[0];
      var c := ConnectTrace(s, login, a);
      match a.stop
      case WhileConnected => c
      case WhileSleeping => c + [Sleep(ReconnectDelay), StopRequested, Close]
      case NoStop => c + [Sleep(ReconnectDelay)] + RunTrace(After(s, AttemptFetches(a)), login, attempts[1..])
  }

  /** The fetch outcomes of a run: those of every attempt up to the first one a stop ends. */
  function RunFetches(attempts: seq<Attempt>): seq<Fetch>
  {
    if attempts == [] then []
    else AttemptFetches(attempts[0]) + (if attempts[0].stop != NoStop then [] else RunFetches(attempts[1..]))
  }

  /** How many attempts `run` makes: up to and including the first one a stop ends. */
  function AttemptsMade(attempts: seq<Attempt>): (n: nat)
    ensures n <= |attempts| && (n == 0 <==> attempts == [])
    ensures forall k :: 0 <= k < n - 1 ==> attempts[k].stop == NoStop
    ensures n < |attempts| ==> attempts[n - 1].stop != NoStop
  {
    if attempts == [] then 0
    else if attempts[0].stop != NoStop then 1
    else
      var n := AttemptsMade(attempts[1..]);
      assert forall k :: 1 <= k < n ==> attempts[k] == attempts[1..][k - 1];
      1 + n
  }

  /** Every reconnect (each `NewSocket` but the first) comes right after a 5 s sleep. */
  ghost predicate BacksOff(t: seq<Event>)
  {
    forall j :: 0 < j < |t| && t[j].NewSocket? ==> t[j - 1] == Sleep(ReconnectDelay)
  }

  /** A stop request is the next-to-last event, and the socket close the last. */
  ghost predicate StopEndsRun(t: seq<Event>)
  {
    forall i :: 0 <= i < |t| && t[i].StopRequested? ==> i == |t| - 2 && t[|t| - 1] == Close
  }

  class PushoverClient {
    const secret: string
    const deviceId: string
    var isFirstFetch: bool
    var lastSeenId: int
    /** The `_stop` event. */
    var stopped: bool
    /** `_ws is not None`: a socket has been made and `stop()` will close it. */
    var hasSocket: bool
    var events: seq<Event>
    /** The outcome of every fetch so far, in order. */
    ghost var fetchLog: seq<Fetch>

    function Snap(): Snapshot
      reads this
    {
      Snapshot(isFirstFetch, lastSeenId)
    }

    /** The two delivery fields are what the rounds so far, replayed from a fresh client, give. */
    ghost predicate Valid()
      reads this
    {
      Snap() == After(Start, fetchLog)
    }

    /** The rounds this client has run, as the pure model gives them. */
    ghost function Rounds(): seq<Round>
      reads this
    {
      Replay(Start, fetchLog)
    }

    constructor (secret: string, deviceId: string)
      ensures Valid() && fetchLog == []
      ensures this.secret == secret && this.deviceId == deviceId
      ensures Snap() == Start
      ensures !stopped && !hasSocket && events == []
    {
      this.secret := secret;
      this.deviceId := deviceId;
      isFirstFetch := true;
      lastSeenId := 0;
      stopped := false;
      hasSocket := false;
      events := [];
      fetchLog := [];
    }

    /** `stop()`: set the flag and close the current socket, if there is one. */
    method Stop()
      modifies this`stopped, this`events
      ensures stopped
      ensures events == old(events) + [StopRequested] + (if hasSocket then [Close] else [])
    {
      stopped := true;
      events := events + [StopRequested];
      if hasSocket {
        events := events + [Close];
      }
    }

    /**
      `_fetch_and_deliver`, given what `fetch_messages` does this time. The
      callback and the purge are recorded as events; whether they raise makes
      no difference, because both are wrapped in handlers that only log.
     */
    method FetchAndDeliver(f: Fetch) returns (r: Round)
      requires Valid()
      modifies this`isFirstFetch, this`lastSeenId, this`events, this`fetchLog
      ensures Valid() && fetchLog == old(fetchLog) + [f]
      ensures Snap() == Step(old(Snap()), f).next
      ensures r == Step(old(Snap()), f).round && r == Rounds()[|fetchLog| - 1]
      ensures events == old(events) + RoundEvents(r)
    {
      ReplaySnoc(Start, fetchLog, f);
      var isInitial := isFirstFetch;
      isFirstFetch := false;
      fetchLog := fetchLog + [f];
      match f
      case FetchFailed =>
        r := Round(isInitial, None, None);
      case Fetched(messages) =>
        if messages == [] {
          r := Round(isInitial, None, None);
          return;
        }
        var highest := MaxId(messages);
        var toDeliver: seq<Msg>;
        if isInitial {
          lastSeenId := highest;
          toDeliver := messages;
        } else {
          toDeliver := Unseen(messages, lastSeenId);
          lastSeenId := if lastSeenId >= highest then lastSeenId else highest;
        }
        var batch := None;
        if toDeliver != [] {
          events := events + [Callback(toDeliver, isInitial)];
          batch := Some(toDeliver);
        }
        events := events + [Purge(highest)];
        r := Round(isInitial, batch, Some(highest));
    }

    /** `on_message`: decode the frame and act on it. */
    method OnMessage(frame: Frame) returns (action: Action)
      requires Valid()
      modifies this`isFirstFetch, this`lastSeenId, this`events, this`fetchLog
      ensures Valid() && action == Decode(frame.raw)
      ensures fetchLog == old(fetchLog) + (if action == FetchRound then [frame.fetch] else [])
      ensures action == FetchRound ==>
        var t := Step(old(Snap()), frame.fetch);
        Snap() == t.next && events == old(events) + RoundEvents(t.round)
      ensures action == CloseSocket ==> Snap() == old(Snap()) && events == old(events) + [Close]
      ensures action == NoAction ==> Snap() == old(Snap()) && events == old(events)
    {
      action := Decode(frame.raw);
      match action
      case FetchRound =>
        var _ := FetchAndDeliver(frame.fetch);
      case CloseSocket =>
        events := events + [Close];
      case NoAction =>
    }

    /** `run_forever` on an open socket: handle frames until one asks for a close. */
    method Listen(frames: seq<Frame>)
      requires Valid()
      modifies this`isFirstFetch, this`lastSeenId, this`events, this`fetchLog
      ensures Valid()
      ensures events == old(events) + Session(old(Snap()), frames)
      ensures fetchLog == old(fetchLog) + Signalled(frames)
    {
      ghost var s0, e0, l0 := Snap(), events, fetchLog;
      var i := 0;
      var closed := false;
      while i < |frames| && !closed
        invariant 0 <= i <= |frames| && Valid()
        invariant !closed ==> events + Session(Snap(), frames[i..]) == e0 + Session(s0, frames)
        invariant !closed ==> fetchLog + Signalled(frames[i..]) == l0 + Signalled(frames)
        invariant closed ==> events == e0 + Session(s0, frames) && fetchLog == l0 + Signalled(frames)
      {
        ghost var cur, e1, l1 := Snap(), events, fetchLog;
        var action := OnMessage(frames[i]);
        ListenStep(cur, frames, i, e1, l1, events, fetchLog, Snap());
        closed := action == CloseSocket;
        i := i + 1;
      }
      if !closed {
        assert frames[i..] == [];
      }
    }

    /**
      `_connect`: make a socket, and once it is open send the login frame and
      listen; a `stop()` meanwhile sets the flag and closes that socket.
     */
    method Connect(att: Attempt)
      requires Valid()
      modifies this`isFirstFetch, this`lastSeenId, this`events, this`fetchLog, this`hasSocket, this`stopped
      ensures Valid() && hasSocket
      ensures events == old(events) + ConnectTrace(old(Snap()), LoginFrame(deviceId, secret), att)
      ensures fetchLog == old(fetchLog) + AttemptFetches(att)
      ensures stopped == (old(stopped) || att.stop == WhileConnected)
    {
      events := events + [NewSocket];
      hasSocket := true;
      if att.connected {
        events := events + [Send(LoginFrame(deviceId, secret))];
        Listen(att.frames);
      }
      if att.stop == WhileConnected {
        Stop();
      }
    }

    /**
      One pass of `run`'s loop: connect, and when the connection ends with the
      stop flag still clear, sleep before the next attempt.
     */
    method RunOnce(a: Attempt)
      requires Valid() && !stopped
      modifies this`isFirstFetch, this`lastSeenId, this`events, this`fetchLog, this`hasSocket, this`stopped
      ensures Valid()
      ensures events == old(events) + ConnectTrace(old(Snap()), LoginFrame(deviceId, secret), a)
        + (if a.stop == WhileConnected then []
           else [Sleep(ReconnectDelay)] + (if a.stop == WhileSleeping then [StopRequested, Close] else []))
      ensures fetchLog == old(fetchLog) + AttemptFetches(a)
      ensures Snap() == After(old(Snap()), AttemptFetches(a))
      ensures stopped == (a.stop != NoStop)
      ensures hasSocket
    {
      ghost var l1 := fetchLog;
      Connect(a);
      AfterConcat(Start, l1, AttemptFetches(a));
      if !stopped {
        events := events + [Sleep(ReconnectDelay)];
        if a.stop == WhileSleeping {
          Stop();
        }
      }
    }

    /**
      `run`: while the stop flag is clear, connect; when a connection ends and
      the flag is still clear, sleep `ReconnectDelay` seconds and try again.
      The attempts stand for the connections the network grants, as long as
      they last.
     */
    method Run(attempts: seq<Attempt>) returns (made: nat)
      requires Valid()
      modifies this`isFirstFetch, this`lastSeenId, this`events, this`fetchLog, this`hasSocket, this`stopped
      ensures Valid()
      ensures old(stopped) ==> made == 0 && stopped && events == old(events) && fetchLog == old(fetchLog)
      ensures !old(stopped) ==>
        made == AttemptsMade(attempts)
        && events == old(events) + RunTrace(old(Snap()), LoginFrame(deviceId, secret), attempts)
        && fetchLog == old(fetchLog) + RunFetches(attempts)
        && Snap() == After(old(Snap()), RunFetches(attempts))
      ensures stopped == (old(stopped) || (made > 0 && attempts[made - 1].stop != NoStop))
      ensures hasSocket == (old(hasSocket) || made > 0)
    {
      made := 0;
      if stopped {
        return;
      }
      ghost var s0, e0, l0 := Snap(), events, fetchLog;
      ghost var login := LoginFrame(deviceId, secret);
      while !stopped && made < |attempts|
        invariant made <= |attempts| && Valid()
        invariant hasSocket == (old(hasSocket) || made > 0)
        invariant !stopped ==> made == 0 || attempts[made - 1].stop == NoStop
        invariant !stopped ==>
          events + RunTrace(Snap(), login, attempts[made..]) == e0 + RunTrace(s0, login, attempts)
          && fetchLog + RunFetches(attempts[made..]) == l0 + RunFetches(attempts)
          && made + AttemptsMade(attempts[made..]) == AttemptsMade(attempts)
        invariant stopped ==>
          events == e0 + RunTrace(s0, login, attempts) && fetchLog == l0 + RunFetches(attempts)
          && made == AttemptsMade(attempts) && made > 0 && attempts[made - 1].stop != NoStop
      {
        ghost var s1, e1, l1 := Snap(), events, fetchLog;
        RunOnce(attempts[made]);
        RunStep(s1, login, attempts, made, e1, l1, events, fetchLog);
        made := made + 1;
      }
      if !stopped {
        assert attempts[made..] == [];
      }
      AfterConcat(Start, l0, RunFetches(attempts));
    }
  }

  // ----- what a connection and a run look like ----------------------------

  /** One pass of `Listen`'s loop, in terms of the events and the fetch history before and after it. */
  lemma {:induction false} ListenStep(s: Snapshot, frames: seq<Frame>, i: nat,
                                      e1: seq<Event>, l1: seq<Fetch>, e2: seq<Event>, l2: seq<Fetch>, s2: Snapshot)
    requires i < |frames|
    requires var f, d := frames[i].fetch, Decode(frames[i].raw);
      (d == FetchRound ==> s2 == Step(s, f).next && e2 == e1 + RoundEvents(Step(s, f).round) && l2 == l1 + [f])
      && (d == CloseSocket ==> e2 == e1 + [Close] && l2 == l1)
      && (d == NoAction ==> s2 == s && e2 == e1 && l2 == l1)
    ensures Decode(frames[i].raw) != CloseSocket ==>
      e2 + Session(s2, frames[i + 1..]) == e1 + Session(s, frames[i..])
      && l2 + Signalled(frames[i + 1..]) == l1 + Signalled(frames[i..])
    ensures Decode(frames[i].raw) == CloseSocket ==>
      e2 == e1 + Session(s, frames[i..]) && l2 == l1 + Signalled(frames[i..])
  {
    SessionNext(s, frames, i);
    if Decode(frames[i].raw) == FetchRound {
      var t := Step(s, frames[i].fetch);
      var more := Session(t.next, frames[i + 1..]);
      assert e2 + more == e1 + (RoundEvents(t.round) + more);
      assert l2 + Signalled(frames[i + 1..]) == l1 + ([frames[i].fetch] + Signalled(frames[i + 1..]));
    }
  }

  /** One pass of `Run`'s loop: connect, then, unless stopped, sleep and perhaps be stopped. */
  lemma {:induction false} RunStep(s: Snapshot, login: string, attempts: seq<Attempt>, made: nat,
                                   e1: seq<Event>, l1: seq<Fetch>, e2: seq<Event>, l2: seq<Fetch>)
    requires made < |attempts|
    requires var a := attempts[made];
      e2 == e1 + ConnectTrace(s, login, a)
        + (if a.stop == WhileConnected then []
           else [Sleep(ReconnectDelay)] + (if a.stop == WhileSleeping then [StopRequested, Close] else []))
      && l2 == l1 + AttemptFetches(a)
    ensures var a, rest := attempts[made], attempts[made + 1..];
      (a.stop == NoStop ==>
        e2 + RunTrace(After(s, AttemptFetches(a)), login, rest) == e1 + RunTrace(s, login, attempts[made..])
        && l2 + RunFetches(rest) == l1 + RunFetches(attempts[made..])
        && 1 + AttemptsMade(rest) == AttemptsMade(attempts[made..]))
      && (a.stop != NoStop ==>
        e2 == e1 + RunTrace(s, login, attempts[made..]) && l2 == l1 + RunFetches(attempts[made..])
        && AttemptsMade(attempts[made..]) == 1)
  {
    var here := attempts[made..];
    assert here[0] == attempts[made] && here[1..] == attempts[made + 1..];
    if attempts[made].stop == NoStop {
      RunGoesOn(s, login, here, e1, l1, e2, l2);
    } else {
      RunEnds(s, login, here, e1, l1, e2, l2);
    }
  }

  /** The `RunStep` case of an attempt that is not stopped: the run goes on with the rest. */
  lemma {:induction false} RunGoesOn(s: Snapshot, login: string, here: seq<Attempt>,
                                     e1: seq<Event>, l1: seq<Fetch>, e2: seq<Event>, l2: seq<Fetch>)
    requires here != [] && here[0].stop == NoStop
    requires e2 == e1 + ConnectTrace(s, login, here[0]) + [Sleep(ReconnectDelay)]
    requires l2 == l1 + AttemptFetches(here[0])
    ensures var a, rest := here[0], here[1..];
      e2 + RunTrace(After(s, AttemptFetches(a)), login, rest) == e1 + RunTrace(s, login, here)
      && l2 + RunFetches(rest) == l1 + RunFetches(here)
      && 1 + AttemptsMade(rest) == AttemptsMade(here)
  {
    var a, rest := here[0], here[1..];
    var c := ConnectTrace(s, login, a);
    var more := RunTrace(After(s, AttemptFetches(a)), login, rest);
    assert e2 + more == e1 + (c + [Sleep(ReconnectDelay)] + more);
    assert l2 + RunFetches(rest) == l1 + (AttemptFetches(a) + RunFetches(rest));
  }

  /** The `RunStep` case of an attempt that is stopped: the run ends with it. */
  lemma {:induction false} RunEnds(s: Snapshot, login: string, here: seq<Attempt>,
                                   e1: seq<Event>, l1: seq<Fetch>, e2: seq<Event>, l2: seq<Fetch>)
    requires here != [] && here[0].stop != NoStop
    requires var a := here[0];
      e2 == e1 + ConnectTrace(s, login, a)
        + (if a.stop == WhileConnected then [] else [Sleep(ReconnectDelay), StopRequested, Close])
      && l2 == l1 + AttemptFetches(a)
    ensures e2 == e1 + RunTrace(s, login, here) && l2 == l1 + RunFetches(here)
    ensures AttemptsMade(here) == 1
  {
    var a := here[0];
    var c := ConnectTrace(s, login, a);
    if a.stop == WhileSleeping {
      assert e2 == e1 + (c + [Sleep(ReconnectDelay), StopRequested, Close]);
    }
    assert l2 == l1 + (AttemptFetches(a) + []);
  }

  /** How `Session` and `Signalled` go on from frame `i`. */
  lemma {:induction false} SessionNext(s: Snapshot, frames: seq<Frame>, i: nat)
    requires i < |frames|
    ensures var fr, d := frames[i], Decode(frames[i].raw);
      (d == FetchRound ==>
        Session(s, frames[i..])
          == RoundEvents(Step(s, fr.fetch).round) + Session(Step(s, fr.fetch).next, frames[i + 1..])
        && Signalled(frames[i..]) == [fr.fetch] + Signalled(frames[i + 1..]))
      && (d == CloseSocket ==> Session(s, frames[i..]) == [Close] && Signalled(frames[i..]) == [])
      && (d == NoAction ==>
        Session(s, frames[i..]) == Session(s, frames[i + 1..])
        && Signalled(frames[i..]) == Signalled(frames[i + 1..]))
  {
    var rest := frames[i..];
    assert rest[0] == frames[i] && rest[1..] == frames[i + 1..];
  }

  /** A connection's events are its rounds' events, then a close if the server asked for one. */
  lemma {:induction false} SessionIsRounds(s: Snapshot, frames: seq<Frame>)
    ensures Session(s, frames)
      == AllRoundEvents(Replay(s, Signalled(frames))) + (if ServerCloses(frames) then [Close] else [])
    decreases |frames|
  {
    if frames != [] {
      var rest := frames[1..];
      var d := Decode(frames[0].raw);
      if d == CloseSocket {
        assert ServerCloses(frames) by { assert Decode(frames[0].raw) == CloseSocket; }
      } else {
        assert ServerCloses(frames) == ServerCloses(rest) by {
          if ServerCloses(frames) {
            var i :| 0 <= i < |frames| && Decode(frames[i].raw) == CloseSocket;
            assert i > 0 && rest[i - 1] == frames[i];
          }
          if ServerCloses(rest) {
            var i :| 0 <= i < |rest| && Decode(rest[i].raw) == CloseSocket;
            assert frames[i + 1] == rest[i];
          }
        }
        if d == FetchRound {
          var f := frames[0].fetch;
          var t := Step(s, f);
          SessionIsRounds(t.next, rest);
          var fs := [f] + Signalled(rest);
          assert fs[0] == f && fs[1..] == Signalled(rest);
          var rounds := Replay(s, fs);
          assert rounds[0] == t.round && rounds[1..] == Replay(t.next, Signalled(rest));
        } else {
          SessionIsRounds(s, rest);
        }
      }
    }
  }

  /** Nothing but delivery calls and the close happens on an open socket. */
  lemma {:induction false} SessionTraffic(s: Snapshot, frames: seq<Frame>)
    ensures forall k :: 0 <= k < |Session(s, frames)| ==> Traffic(Session(s, frames)[k])
    decreases |frames|
  {
    if frames != [] {
      match Decode(frames[0].raw)
      case FetchRound =>
        var t := Step(s, frames[0].fetch);
        SessionTraffic(t.next, frames[1..]);
        RoundTraffic(t.round);
        AllTraffic(RoundEvents(t.round), Session(t.next, frames[1..]));
      case CloseSocket =>
      case NoAction =>
        SessionTraffic(s, frames[1..]);
    }
  }

  lemma {:induction false} RoundTraffic(r: Round)
    ensures forall k :: 0 <= k < |RoundEvents(r)| ==> Traffic(RoundEvents(r)[k])
  {
  }

  lemma {:induction false} AllTraffic(a: seq<Event>, b: seq<Event>)
    requires forall k :: 0 <= k < |a| ==> Traffic(a[k])
    requires forall k :: 0 <= k < |b| ==> Traffic(b[k])
    ensures forall k :: 0 <= k < |a + b| ==> Traffic((a + b)[k])
  {
  }

  /**
    One connection opens with a new socket, sends the login frame first when
    the socket opens, holds no sleep and no other new socket, and holds a stop
    request only when `stop()` came during it, as its next-to-last event.
   */
  lemma {:induction false} ConnectShape(s: Snapshot, login: string, a: Attempt)
    ensures var c := ConnectTrace(s, login, a);
      c[0] == NewSocket
      && (a.connected ==> c[1] == Send(login))
      && (forall k :: 0 < k < |c| ==> !c[k].NewSocket? && !c[k].Sleep?)
      && StopEndsRun(c)
      && (a.stop == WhileConnected <==> StopRequested in c)
  {
    var c := ConnectTrace(s, login, a);
    var open := if a.connected then [Send(login)] + Session(s, a.frames) else [];
    var tail := if a.stop == WhileConnected then [StopRequested, Close] else [];
    assert c == [NewSocket] + open + tail;
    SessionTraffic(s, a.frames);
    assert forall k :: 0 <= k < |open| ==> open[k].Send? || Traffic(open[k]);
    assert forall k :: 1 <= k < 1 + |open| ==> c[k] == open[k - 1];
    assert forall k :: 1 + |open| <= k < |c| ==> c[k] == tail[k - 1 - |open|];
    if a.stop == WhileConnected {
      assert c[|c| - 2].StopRequested?;
    }
  }

  /** Every reconnection backs off for `ReconnectDelay` seconds first. */
  lemma {:induction false} RunBacksOff(s: Snapshot, login: string, attempts: seq<Attempt>)
    ensures BacksOff(RunTrace(s, login, attempts))
    decreases |attempts|
  {
    if attempts != [] {
      var a := attempts[0];
      var c := ConnectTrace(s, login, a);
      ConnectShape(s, login, a);
      match a.stop
      case WhileConnected =>
      case WhileSleeping =>
        BacksOffJoin(c, [StopRequested, Close]);
        assert c + [Sleep(ReconnectDelay)] + [StopRequested, Close] == c + [Sleep(ReconnectDelay), StopRequested, Close];
      case NoStop =>
        var s1 := After(s, AttemptFetches(a));
        RunBacksOff(s1, login, attempts[1..]);
        BacksOffJoin(c, RunTrace(s1, login, attempts[1..]));
    }
  }

  /** A connection, a sleep, and a trace that backs off on its own, back off together. */
  lemma {:induction false} BacksOffJoin(c: seq<Event>, more: seq<Event>)
    requires forall k :: 0 < k < |c| ==> !c[k].NewSocket?
    requires BacksOff(more)
    ensures BacksOff(c + [Sleep(ReconnectDelay)] + more)
  {
    var t := c + [Sleep(ReconnectDelay)] + more;
    forall j | 0 < j < |t| && t[j].NewSocket?
      ensures t[j - 1] == Sleep(ReconnectDelay)
    {
      if j > |c| + 1 {
        assert t[j] == more[j - |c| - 1] && t[j - 1] == more[j - |c| - 2];
      } else {
        assert j == |c| + 1;
      }
    }
  }

  /** Once stopped, the run ends: only the socket close follows the stop request. */
  lemma {:induction false} RunStopEndsRun(s: Snapshot, login: string, attempts: seq<Attempt>)
    ensures StopEndsRun(RunTrace(s, login, attempts))
    decreases |attempts|
  {
    if attempts != [] {
      var a := attempts[0];
      var c := ConnectTrace(s, login, a);
      ConnectShape(s, login, a);
      match a.stop
      case WhileConnected =>
      case WhileSleeping =>
        StopEndsJoin(c, [StopRequested, Close]);
        assert c + [Sleep(ReconnectDelay)] + [StopRequested, Close] == c + [Sleep(ReconnectDelay), StopRequested, Close];
      case NoStop =>
        var s1 := After(s, AttemptFetches(a));
        RunStopEndsRun(s1, login, attempts[1..]);
        StopEndsJoin(c, RunTrace(s1, login, attempts[1..]));
    }
  }

  /** A stop-free connection, a sleep, and a trace that ends at its stop, end at that stop. */
  lemma {:induction false} StopEndsJoin(c: seq<Event>, more: seq<Event>)
    requires StopRequested !in c
    requires StopEndsRun(more)
    ensures StopEndsRun(c + [Sleep(ReconnectDelay)] + more)
  {
    var t := c + [Sleep(ReconnectDelay)] + more;
    forall i | 0 <= i < |t| && t[i].StopRequested?
      ensures i == |t| - 2 && t[|t| - 1] == Close
    {
      if i < |c| {
        assert false;
      } else {
        assert t[i] == more[i - |c| - 1];
        assert t[|t| - 1] == more[|more| - 1];
      }
    }
  }

  /** A run holds a stop request exactly when one of its attempts is interrupted by `stop()`. */
  lemma {:induction false} RunStopsIff(s: Snapshot, login: string, attempts: seq<Attempt>)
    ensures StopRequested in RunTrace(s, login, attempts)
      <==> exists k :: 0 <= k < |attempts| && attempts[k].stop != NoStop
    decreases |attempts|
  {
    if attempts != [] {
      var a := attempts[0];
      ConnectShape(s, login, a);
      if a.stop == NoStop {
        var rest := attempts[1..];
        RunStopsIff(After(s, AttemptFetches(a)), login, rest);
        assert forall k :: 1 <= k < |attempts| ==> attempts[k] == rest[k - 1];
        if exists k :: 0 <= k < |attempts| && attempts[k].stop != NoStop {
          var k :| 0 <= k < |attempts| && attempts[k].stop != NoStop;
          assert rest[k - 1].stop != NoStop;
        }
      } else {
        assert attempts[0].stop != NoStop;
      }
    }
  }
}
