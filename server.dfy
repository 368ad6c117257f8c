/**
  The server process: the ChessSystem object whose fields the timer task,
  the button task and the write handler update in place, and the
  interleaving of those three on one event loop.
*/
module Server {
  import opened Clock
  import Command

  class ChessSystem {
    var elo: int
    var whiteTime: int
    var blackTime: int
    var currentTurn: Color
    var gameActive: bool

    /** The clock fields as one value. */
    function State(): ClockState
      reads this
    {
      ClockState(elo, whiteTime, blackTime, currentTurn, gameActive)
    }

    constructor ()
      ensures State() == Initial
      ensures elo == 800 && whiteTime == 600 && blackTime == 600
      ensures currentTurn == White && !gameActive
    {
      elo := 800;
      whiteTime := 600;
      blackTime := 600;
      currentTurn := White;
      gameActive := false;
    }

    method StartNewGame(elo: int, minutes: int)
      modifies this
      ensures this.elo == elo && whiteTime == minutes * 60 && blackTime == minutes * 60
      ensures gameActive && currentTurn == White
      ensures State() == NewGame(elo, minutes)
    {
      this.elo := elo;
      whiteTime := minutes * 60;
      blackTime := minutes * 60;
      gameActive := true;
      currentTurn := White;
    }

    /** One pass of the update_timer loop, without the redraw and the one-second sleep. */
    method UpdateTimerStep()
      modifies this
      ensures State() == Tick(old(State()))
    {
      if gameActive {
        if currentTurn == White && whiteTime > 0 {
          whiteTime := whiteTime - 1;
        } else if currentTurn == Black && blackTime > 0 {
          blackTime := blackTime - 1;
        }
        if whiteTime <= 0 || blackTime <= 0 {
          gameActive := false;
        }
      }
    }

    /**
      One pass of the watch_buttons loop; whiteHigh and blackHigh are the
      levels GPIO reports for the white and the black button.
    */
    method WatchButtonsStep(whiteHigh: bool, blackHigh: bool)
      modifies this
      ensures State() == PressButtons(old(State()), whiteHigh, blackHigh)
      ensures whiteTime == old(whiteTime) && blackTime == old(blackTime)
      ensures elo == old(elo) && gameActive == old(gameActive)
    {
      if gameActive {
        if whiteHigh && currentTurn == White {
          currentTurn := Black;
        } else if blackHigh && currentTurn == Black {
          currentTurn := White;
        }
      }
    }
  }

  /**
    on_write, given the payload already decoded as text: a well-formed
    START_GAME command starts a new game; anything else, including a
    payload with the prefix whose fields do not convert, leaves the
    clock exactly as it was.
  */
  method OnWrite(sys: ChessSystem, data: string)
    modifies sys
    ensures Command.ParseStartCommand(data).None? ==> unchanged(sys)
    ensures Command.ParseStartCommand(data).Some? ==>
              var (elo, minutes) := Command.ParseStartCommand(data).value;
              sys.State() == NewGame(elo, minutes)
  {
    if Command.StartsWith(data, Command.Prefix) {
      var parsed := Command.ParseStartCommand(data);
      if parsed.Some? {
        sys.StartNewGame(parsed.value.0, parsed.value.1);
      }
    }
  }

  /** What can happen between two suspension points of the event loop. */
  datatype Event = TimerTick | ButtonPoll(whiteHigh: bool, blackHigh: bool) | Write(data: string)

  /** The effect of one event on the clock, as the three methods above have it. */
  function Step(s: ClockState, e: Event): (r: ClockState)
    ensures !e.Write? ==> r.elo == s.elo
    ensures e.Write? && Command.ParseStartCommand(e.data).None? ==> r == s
    ensures e.Write? && Command.ParseStartCommand(e.data).Some? ==> r.active && r.turn == White
    ensures e.TimerTick? ==> r == Tick(s)
    ensures e.ButtonPoll? ==> r == PressButtons(s, e.whiteHigh, e.blackHigh)
    ensures e.Write? && Command.ParseStartCommand(e.data).Some? ==>
              r == NewGame(Command.ParseStartCommand(e.data).value.0, Command.ParseStartCommand(e.data).value.1)
  {
    match e
    case TimerTick => Tick(s)
    case ButtonPoll(w, b) => PressButtons(s, w, b)
    case Write(data) =>
      match Command.ParseStartCommand(data)
      case Some((elo, minutes)) => NewGame(elo, minutes)
      case None => s
  }

  /** The clock after the events, in order. */
  function Run(s: ClockState, events: seq<Event>): (r: ClockState)
    ensures (forall i :: 0 <= i < |events| ==> events[i].ButtonPoll?) ==>
              r.whiteTime == s.whiteTime && r.blackTime == s.blackTime &&
              r.elo == s.elo && r.active == s.active
    decreases events
  {
    if events == [] then s else Run(Step(s, events[0]), events[1..])
  }

  /** A write that does not start a game. */
  predicate Ignored(e: Event) {
    e.Write? ==> Command.ParseStartCommand(e.data).None?
  }

  /** A write that, if it starts a game, gives it a non-negative number of minutes. */
  predicate NonNegativeStart(e: Event) {
    e.Write? && Command.ParseStartCommand(e.data).Some? ==> 0 <= Command.ParseStartCommand(e.data).value.1
  }

  /**
    Whatever the interleaving of ticks, button polls and writes, no clock
    goes below zero as long as no command asks for negative minutes.
  */
  lemma {:induction false} RunKeepsClocksNonNegative(s: ClockState, events: seq<Event>)
    requires s.ClocksNonNegative()
    requires forall i :: 0 <= i < |events| ==> NonNegativeStart(events[i])
    ensures Run(s, events).ClocksNonNegative()
    decreases events
  {
    if events != [] {
      var e := events[0];
      assert NonNegativeStart(e);
      if e == TimerTick {
        TickKeepsClocksNonNegative(s);
      }
      RunKeepsClocksNonNegative(Step(s, e), events[1..]);
    }
  }

  /**
    Without a START_GAME command, the clocks only run down, and neither
    the elo nor the clocks of a stopped game ever change: only a
    command starts a game.
  */
  lemma {:induction false} RunWithoutCommands(s: ClockState, events: seq<Event>)
    requires forall i :: 0 <= i < |events| ==> Ignored(events[i])
    ensures var r := Run(s, events);
            r.elo == s.elo && r.whiteTime <= s.whiteTime && r.blackTime <= s.blackTime &&
            (r.active ==> s.active) &&
            (!s.active ==> r == s)
    decreases events
  {
    if events != [] {
      var e := events[0];
      assert Ignored(e);
      var t := Step(s, e);
      assert t.elo == s.elo && t.whiteTime <= s.whiteTime && t.blackTime <= s.blackTime by {
        assert t.TimeOf(White) == t.whiteTime && t.TimeOf(Black) == t.blackTime;
        assert s.TimeOf(White) == s.whiteTime && s.TimeOf(Black) == s.blackTime;
      }
      RunWithoutCommands(t, events[1..]);
    }
  }
}
