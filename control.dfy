/** The controller as one sequential state machine. Its state is the output
    port, the session flag rx_mode, and the deadline timer (armed or not, and
    its 16-bit tick count). Two kinds of atomic event drive it: a byte arrives
    on the serial link, or the timer ticks. Each event may write one motion
    pattern to the port; a run records those writes in order. */
module Control {
  import opened Common
  import opened Motors

  const START_BYTE: Byte := 0x3A   // ':' opens a session
  const END_BYTE: Byte := 0x0D     // '\r' closes a session
  const COUNT_MAX: int := 0xFFFF   // largest value of the 16-bit timer count

  /** Value of the 16-bit timer register pair. */
  type Count = c: int | 0 <= c <= COUNT_MAX

  datatype State = State(port: Byte, rxMode: int, armed: bool, count: Count)

  datatype Event = Receive(b: Byte) | TimerTick

  /** A state after one event, and the motion pattern that event wrote, if any. */
  datatype Outcome = Outcome(next: State, wrote: Option<Motion>)

  /** A state after a sequence of events, and every pattern written on the way. */
  datatype Trace = Trace(final: State, writes: seq<Motion>)

  /** The invariant of the controller: the port holds one of the five patterns,
      the session flag is 0 (idle) or 1 (active), and whenever the motors are
      driven the deadline timer is armed. */
  ghost predicate Valid(s: State)
  {
    IsPattern(s.port) && (s.rxMode == 0 || s.rxMode == 1) && (s.port != Pattern(Stop) ==> s.armed)
  }

  /** State on entry to the dispatch loop: idle, motors stopped, timer not armed. */
  function Init(): (s: State)
    ensures Valid(s) && MotionOf(s.port) == Some(Stop)
    ensures s.rxMode == 0 && !s.armed && s.count == 0
  {
    State(Pattern(Stop), 0, false, 0)
  }

  /** The motion selected by a command byte inside a session. */
  function CommandMotion(b: Byte): (r: Option<Motion>)
    ensures r.Some? <==> 0x30 <= b <= 0x33
    ensures r.Some? ==> r.value != Stop
  {
    if b == 0x30 then Some(Forward)
    else if b == 0x31 then Some(Backward)
    else if b == 0x32 then Some(TurnLeft)
    else if b == 0x33 then Some(TurnRight)
    else None
  }

  /** The command byte that selects a motion; Stop has none. */
  function CommandByte(m: Motion): (b: Byte)
    requires m != Stop
    ensures CommandMotion(b) == Some(m)
    ensures b != START_BYTE && b != END_BYTE
  {
    match m
    case Forward => 0x30
    case Backward => 0x31
    case TurnLeft => 0x32
    case TurnRight => 0x33
  }

  /** Restarting the timer zeroes its count and arms it, whatever it was before. */
  function Restart(s: State): (t: State)
    ensures t.armed && t.count == 0
    ensures t.port == s.port && t.rxMode == s.rxMode
  {
    s.(armed := true, count := 0)
  }

  /** The timer interrupt: disarm the timer, then stop the motors. */
  function Expire(s: State): (t: State)
    ensures !t.armed && MotionOf(t.port) == Some(Stop)
    ensures t.rxMode == s.rxMode && t.count == s.count
  {
    s.(armed := false, port := Pattern(Stop))
  }

  /** One byte from the serial link. Outside a session only START_BYTE does
      anything, and it only opens the session. Inside a session a command byte
      writes its motion and restarts the timer, END_BYTE only closes the
      session, and every other byte is ignored. */
  function Feed(s: State, b: Byte): (o: Outcome)
    ensures Valid(s) ==> Valid(o.next)
    ensures o.wrote.Some? <==> s.rxMode == 1 && 0x30 <= b <= 0x33
    ensures o.wrote.Some? ==> o.wrote == CommandMotion(b) && o.next == Restart(s.(port := Pattern(o.wrote.value)))
    ensures o.wrote.None? ==> o.next.port == s.port && o.next.armed == s.armed && o.next.count == s.count
    ensures o.next.rxMode != s.rxMode <==> (s.rxMode != 1 && b == START_BYTE) || (s.rxMode == 1 && b == END_BYTE)
    ensures o.next.rxMode != s.rxMode ==> o.next.rxMode == (if b == START_BYTE then 1 else 0)
  {
    if s.rxMode == 1 then
      match CommandMotion(b)
      case Some(m) => Outcome(Restart(s.(port := Pattern(m))), Some(m))
      case None => if b == END_BYTE then Outcome(s.(rxMode := 0), None) else Outcome(s, None)
    else if b == START_BYTE then Outcome(s.(rxMode := 1), None)
    else Outcome(s, None)
  }

  /** One tick of the timer. A disarmed timer does not count. An armed timer
      counts up; the tick that carries it past COUNT_MAX wraps it to 0 and
      raises the interrupt, which disarms it and writes Stop. */
  function Tick(s: State): (o: Outcome)
    ensures Valid(s) ==> Valid(o.next)
    ensures o.wrote.Some? <==> s.armed && s.count == COUNT_MAX
    ensures o.wrote.Some? ==> o.wrote == Some(Stop) && o.next == Expire(s.(count := 0))
    ensures o.wrote.None? ==> o.next.port == s.port && o.next.armed == s.armed
    ensures o.wrote.None? && s.armed ==> o.next.count == s.count + 1
    ensures !s.armed ==> o.next == s
    ensures o.next.rxMode == s.rxMode
  {
    if !s.armed then Outcome(s, None)
    else if s.count == COUNT_MAX then Outcome(Expire(s.(count := 0)), Some(Stop))
    else Outcome(s.(count := s.count + 1), None)
  }

  /** One atomic event of the dispatch loop. Only a timer tick ever writes
      Stop, and only a received byte ever writes a motion. */
  function Step(s: State, e: Event): (o: Outcome)
    ensures Valid(s) ==> Valid(o.next)
    ensures o.wrote.Some? ==> (o.wrote.value == Stop <==> e.TimerTick?)
  {
    match e
    case Receive(b) => Feed(s, b)
    case TimerTick => Tick(s)
  }

  function Emitted(w: Option<Motion>): seq<Motion>
  {
    if w.Some? then [w.value] else []
  }

  /** The dispatch loop over a finite prefix of the interleaved events. */
  function Run(s: State, evs: seq<Event>): (t: Trace)
    ensures |t.writes| <= |evs|
    decreases |evs|
  {
    if evs == [] then Trace(s, [])
    else
      var o := Step(s, evs[0]);
      var rest := Run(o.next, evs[1..]);
      Trace(rest.final, Emitted(o.wrote) + rest.writes)
  }

  /** n timer ticks with no byte in between. */
  function Ticks(n: nat): (evs: seq<Event>)
    ensures |evs| == n && forall i :: 0 <= i < n ==> evs[i] == TimerTick
  {
    if n == 0 then [] else [TimerTick] + Ticks(n - 1)
  }

  // ---------------------------------------------------------------------------
  // Runs
  // ---------------------------------------------------------------------------

  /** Running two sequences of events one after the other is running their
      concatenation; the writes are concatenated too. */
  lemma {:induction false} RunAppend(s: State, a: seq<Event>, b: seq<Event>)
    ensures Run(s, a + b) == Trace(Run(Run(s, a).final, b).final, Run(s, a).writes + Run(Run(s, a).final, b).writes)
    decreases |a|
  {
    if a != [] {
      assert (a + b)[0] == a[0];
      assert (a + b)[1..] == a[1..] + b;
      RunAppend(Step(s, a[0]).next, a[1..], b);
    } else {
      assert a + b == b;
    }
  }

  /** Running an event followed by more events. */
  lemma RunCons(s: State, e: Event, evs: seq<Event>)
    ensures Run(s, [e] + evs) == Trace(Run(Step(s, e).next, evs).final, Emitted(Step(s, e).wrote) + Run(Step(s, e).next, evs).writes)
  {
    assert ([e] + evs)[1..] == evs;
  }

  /** Running one more event extends the run by one step. */
  lemma RunSnoc(s: State, evs: seq<Event>, e: Event)
    ensures Run(s, evs + [e]) ==
      Trace(Step(Run(s, evs).final, e).next, Run(s, evs).writes + Emitted(Step(Run(s, evs).final, e).wrote))
  {
    RunAppend(s, evs, [e]);
    var t := Run(s, evs).final;
    assert Run(t, [e]) == Trace(Step(t, e).next, Emitted(Step(t, e).wrote)) by {
      assert [e][1..] == [];
    }
  }

  /** Every event keeps the controller's invariant: the port always holds one
      of the five patterns, the session flag stays 0 or 1, and the motors are
      never driven while the deadline timer is disarmed. */
  lemma {:induction false} RunValid(s: State, evs: seq<Event>)
    requires Valid(s)
    ensures Valid(Run(s, evs).final)
    decreases |evs|
  {
    if evs != [] {
      RunValid(Step(s, evs[0]).next, evs[1..]);
    }
  }

  /** The port holds the pattern of the last motion written, or what it held
      at the start when nothing was written. */
  lemma {:induction false} PortIsLastWrite(s: State, evs: seq<Event>)
    ensures var t := Run(s, evs);
      t.final.port == if t.writes == [] then s.port else Pattern(t.writes[|t.writes| - 1])
    decreases |evs|
  {
    if evs != [] {
      PortIsLastWrite(Step(s, evs[0]).next, evs[1..]);
    }
  }

  /** From an idle state, bytes that never include START_BYTE, interleaved with
      any ticks, never write a motion other than Stop: command bytes outside a
      session are ignored. */
  lemma {:induction false} NoMotionOutsideSession(s: State, evs: seq<Event>)
    requires s.rxMode == 0
    requires forall i :: 0 <= i < |evs| ==> evs[i] != Receive(START_BYTE)
    ensures forall k :: 0 <= k < |Run(s, evs).writes| ==> Run(s, evs).writes[k] == Stop
    ensures Run(s, evs).final.rxMode == 0
    decreases |evs|
  {
    if evs != [] {
      NoMotionOutsideSession(Step(s, evs[0]).next, evs[1..]);
    }
  }

  /** From a disarmed state (such as the initial one) the timer stays
      disarmed until a motion is written, that is, until a command byte
      0x30-0x33 arrives inside a session. */
  lemma {:induction false} ArmedOnlyByCommand(s: State, evs: seq<Event>)
    requires !s.armed
    ensures var t := Run(s, evs);
      t.final.armed ==> exists k :: 0 <= k < |t.writes| && t.writes[k] != Stop
    decreases |evs|
  {
    if evs != [] {
      var o := Step(s, evs[0]);
      var rest := Run(o.next, evs[1..]);
      var w := Run(s, evs).writes;
      assert w == Emitted(o.wrote) + rest.writes;
      if o.wrote.Some? {
        assert w[0] == o.wrote.value != Stop;
      } else {
        assert !o.next.armed && w == rest.writes;
        ArmedOnlyByCommand(o.next, evs[1..]);
      }
    }
  }

  /** From start-up, a stream that never opens a session never arms the
      timer and never drives the motors. */
  lemma NeverArmedWithoutSession(evs: seq<Event>)
    requires forall i :: 0 <= i < |evs| ==> evs[i] != Receive(START_BYTE)
    ensures !Run(Init(), evs).final.armed
    ensures MotionOf(Run(Init(), evs).final.port) == Some(Stop)
  {
    NoMotionOutsideSession(Init(), evs);
    ArmedOnlyByCommand(Init(), evs);
    PortIsLastWrite(Init(), evs);
  }

  // ---------------------------------------------------------------------------
  // The deadline timer
  // ---------------------------------------------------------------------------

  /** Restarting twice is restarting once, and the result forgets the timer's
      earlier count and arming: restarts never accumulate. */
  lemma RestartIdempotent(s: State, u: State)
    requires u.port == s.port && u.rxMode == s.rxMode
    ensures Restart(Restart(s)) == Restart(s) == Restart(u)
  {
  }

  /** A silence of a + 1 + b ticks is a silence of a ticks, one tick, then b ticks. */
  lemma TicksSplit(a: nat, b: nat)
    ensures Ticks(a + 1 + b) == Ticks(a) + [TimerTick] + Ticks(b)
  {
    var r := Ticks(a) + [TimerTick] + Ticks(b);
    forall i | 0 <= i < a + 1 + b ensures r[i] == TimerTick { }
  }

  /** A disarmed timer never fires: any number of ticks change nothing and
      write nothing. */
  lemma {:induction false} DisarmedTicksInert(s: State, n: nat)
    requires !s.armed
    ensures Run(s, Ticks(n)) == Trace(s, [])
  {
    if n > 0 {
      DisarmedTicksInert(s, n - 1);
    }
  }

  /** Before the deadline an armed timer only counts: fewer ticks than remain
      before overflow write nothing and leave the port and session alone. */
  lemma {:induction false} TicksBeforeDeadline(s: State, n: nat)
    requires s.armed && s.count + n <= COUNT_MAX
    ensures Run(s, Ticks(n)) == Trace(s.(count := s.count + n), [])
    decreases n
  {
    if n > 0 {
      TicksBeforeDeadline(s.(count := s.count + 1), n - 1);
    }
  }

  /** The tick that completes the deadline stops the motors exactly once, and
      the timer stays disarmed for every later tick, so any longer silence
      still produces that single Stop. */
  lemma SilenceStops(s: State, n: nat)
    requires s.armed && n >= COUNT_MAX + 1 - s.count
    ensures Run(s, Ticks(n)) == Trace(Expire(s.(count := 0)), [Stop])
  {
    var k := COUNT_MAX - s.count;
    TicksSplit(k, n - k - 1);
    TicksBeforeDeadline(s, k);
    var last := s.(count := COUNT_MAX);
    RunAppend(s, Ticks(k), [TimerTick]);
    assert Run(last, [TimerTick]) == Trace(Expire(s.(count := 0)), [Stop]) by {
      assert [TimerTick][1..] == [];
    }
    RunAppend(s, Ticks(k) + [TimerTick], Ticks(n - k - 1));
    DisarmedTicksInert(Expire(s.(count := 0)), n - k - 1);
  }

  /** Whenever the motors are driven, COUNT_MAX + 1 ticks of silence at most
      bring them to Stop. */
  lemma MotionEndsAfterSilence(s: State, n: nat)
    requires Valid(s) && MotionOf(s.port) != Some(Stop)
    requires n >= COUNT_MAX + 1
    ensures Run(s, Ticks(n)).writes == [Stop]
    ensures MotionOf(Run(s, Ticks(n)).final.port) == Some(Stop)
  {
    SilenceStops(s, n);
  }

  // ---------------------------------------------------------------------------
  // Scenarios
  // ---------------------------------------------------------------------------

  /** ':' '0' '\r' drives forward once; a full deadline of silence later the
      motors stop once; ending the session alone did not stop them. */
  lemma ForwardThenSilence()
    ensures var t := Run(Init(), [Receive(START_BYTE), Receive(0x30), Receive(END_BYTE)]);
      t.writes == [Forward] && t.final == State(Pattern(Forward), 0, true, 0)
    ensures Run(Init(), [Receive(START_BYTE), Receive(0x30), Receive(END_BYTE)] + Ticks(COUNT_MAX + 1)).writes
      == [Forward, Stop]
  {
    var open := [Receive(START_BYTE), Receive(0x30), Receive(END_BYTE)];
    var t := Run(Init(), open);
    RunCons(Init(), open[0], open[1..]);
    var s1 := State(Pattern(Stop), 1, false, 0);
    RunCons(s1, open[1], open[2..]);
    var s2 := State(Pattern(Forward), 1, true, 0);
    RunCons(s2, open[2], []);
    assert t == Trace(State(Pattern(Forward), 0, true, 0), [Forward]);
    RunAppend(Init(), open, Ticks(COUNT_MAX + 1));
    SilenceStops(t.final, COUNT_MAX + 1);
  }

  /** A command byte after the session is closed is ignored. */
  lemma CommandAfterClose()
    ensures Run(Init(), [Receive(START_BYTE), Receive(0x30), Receive(END_BYTE), Receive(0x30)]).writes == [Forward]
  {
    var evs := [Receive(START_BYTE), Receive(0x30), Receive(END_BYTE), Receive(0x30)];
    ForwardThenSilence();
    assert evs[..3] == [Receive(START_BYTE), Receive(0x30), Receive(END_BYTE)];
    RunAppend(Init(), evs[..3], [evs[3]]);
    assert evs[..3] + [evs[3]] == evs;
    RunCons(State(Pattern(Forward), 0, true, 0), evs[3], []);
  }

  /** A command byte before the session opens is ignored; the one after ':'
      drives the motors and arms the timer. */
  lemma CommandBeforeOpen()
    ensures Run(Init(), [Receive(0x32), Receive(START_BYTE), Receive(0x33)])
      == Trace(State(Pattern(TurnRight), 1, true, 0), [TurnRight])
  {
    var evs := [Receive(0x32), Receive(START_BYTE), Receive(0x33)];
    RunCons(Init(), evs[0], evs[1..]);
    RunCons(Init(), evs[1], evs[2..]);
    RunCons(State(Pattern(Stop), 1, false, 0), evs[2], []);
  }
}
