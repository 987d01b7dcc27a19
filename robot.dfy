/** The controller as the source runs it: hardware registers and the session
    flag are fields that the routines overwrite in place. PORTA is `port`;
    the timer register pair TMR0H:TMR0L is `count`; the enable bits of T0CON
    and INTCON together are `armed`. The ghost field `log` records every
    pattern written to the port, in order. Each routine is proved against the
    matching function of Control. */
module Board {
  import opened Common
  import opened Motors
  import Control

  class Robot {
    var port: Byte
    var rxMode: int
    var armed: bool
    var count: Control.Count
    ghost var log: seq<Motion>

    /** The abstract state of the controller held by the fields. */
    function State(): Control.State
      reads this
    {
      Control.State(port, rxMode, armed, count)
    }

    /** Start-up of `main`: the session is idle and the motors are stopped;
        the timer interrupt is not enabled. */
    constructor ()
      ensures State() == Control.Init() && log == [Stop]
    {
      rxMode := 0;
      armed := false;
      count := 0;
      port := Pattern(Stop);
      log := [Stop];
    }

    /** The motors_* routines: write the pattern of one motion to the port. */
    method Drive(m: Motion)
      modifies this
      ensures State() == old(State()).(port := Pattern(m))
      ensures log == old(log) + [m]
    {
      port := Pattern(m);
      log := log + [m];
    }

    /** timer_restart: zero the counter, then enable the timer and its interrupt. */
    method Restart()
      modifies this
      ensures State() == Control.Restart(old(State()))
      ensures log == old(log)
    {
      count := 0;
      armed := true;
    }

    /** The interrupt routine: disable the interrupt and the timer, then stop. */
    method Expire()
      modifies this
      ensures State() == Control.Expire(old(State()))
      ensures log == old(log) + [Stop]
    {
      armed := false;
      Drive(Stop);
    }

    /** One increment of the 16-bit timer; the overflow raises the interrupt
        when it is enabled. A stopped timer does not count. */
    method Tick()
      modifies this
      ensures State() == Control.Tick(old(State())).next
      ensures log == old(log) + Control.Emitted(Control.Tick(old(State())).wrote)
    {
      if armed {
        if count == Control.COUNT_MAX {
          count := 0;
          Expire();
        } else {
          count := count + 1;
        }
      }
    }

    /** One pass of the dispatch loop with a received byte. */
    method Feed(code: Byte)
      modifies this
      ensures State() == Control.Feed(old(State()), code).next
      ensures log == old(log) + Control.Emitted(Control.Feed(old(State()), code).wrote)
    {
      if rxMode == 1 {
        if code == 0x30 {
          Drive(Forward);
          Restart();
        } else if code == 0x31 {
          Drive(Backward);
          Restart();
        } else if code == 0x32 {
          Drive(TurnLeft);
          Restart();
        } else if code == 0x33 {
          Drive(TurnRight);
          Restart();
        } else if code == Control.END_BYTE {
          rxMode := 0;
        }
      } else {
        if code == Control.START_BYTE {
          rxMode := 1;
        }
      }
    }

    /** The dispatch loop over a finite prefix of the interleaved events:
        received bytes are handled by Feed, timer ticks by Tick. */
    method Dispatch(events: seq<Control.Event>)
      modifies this
      ensures State() == Control.Run(old(State()), events).final
      ensures log == old(log) + Control.Run(old(State()), events).writes
      ensures Control.Valid(old(State())) ==> Control.Valid(State())
    {
      ghost var s0 := State();
      ghost var log0 := log;
      var i := 0;
      while i < |events|
        invariant 0 <= i <= |events|
        invariant State() == Control.Run(s0, events[..i]).final
        invariant log == log0 + Control.Run(s0, events[..i]).writes
      {
        Control.RunSnoc(s0, events[..i], events[i]);
        match events[i] {
          case Receive(b) => Feed(b);
          case TimerTick => Tick();
        }
        assert events[..i + 1] == events[..i] + [events[i]];
        i := i + 1;
      }
      assert events[..|events|] == events;
      if Control.Valid(s0) {
        Control.RunValid(s0, events);
      }
    }
  }
}
