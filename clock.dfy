/**
  The chess clock kept by ChessSystem: the bot's elo, each side's
  remaining seconds, the side to move and whether a game is running,
  with the three transitions that change them: starting a game, one
  second of the timer task, and one poll of the two clock buttons.
*/
module Clock {

  /** chess.WHITE and chess.BLACK, the only values current_turn takes. */
  datatype Color = White | Black {
    function Opponent(): (c: Color)
      ensures c != this
    {
      if this == White then Black else White
    }
  }

  datatype ClockState = ClockState(elo: int, whiteTime: int, blackTime: int, turn: Color, active: bool) {

    /** The remaining seconds of side c. */
    function TimeOf(c: Color): int {
      if c == White then whiteTime else blackTime
    }

    predicate ClocksNonNegative() {
      0 <= whiteTime && 0 <= blackTime
    }
  }

  /** The state ChessSystem starts in: elo 800, ten minutes each, white to move, no game. */
  const Initial := ClockState(800, 600, 600, White, false)

  /** start_new_game(elo, minutes) */
  function NewGame(elo: int, minutes: int): (r: ClockState)
    ensures r.active && r.turn == White && r.elo == elo
    ensures r.TimeOf(White) == r.TimeOf(Black) == minutes * 60
    ensures r.ClocksNonNegative() <==> 0 <= minutes
  {
    ClockState(elo, minutes * 60, minutes * 60, White, true)
  }

  /**
    One pass of update_timer's loop: while a game runs, the side to move
    loses a second if it has one left, and the game stops once either
    clock is at or below zero.
  */
  function Tick(s: ClockState): (r: ClockState)
    ensures !s.active ==> r == s
    ensures r.elo == s.elo && r.turn == s.turn
    ensures r.TimeOf(s.turn.Opponent()) == s.TimeOf(s.turn.Opponent())
    ensures s.active && 0 < s.TimeOf(s.turn) ==> r.TimeOf(s.turn) == s.TimeOf(s.turn) - 1
    ensures s.TimeOf(s.turn) <= 0 ==> r.TimeOf(s.turn) == s.TimeOf(s.turn)
    ensures s.active ==> (r.active <==> 0 < r.whiteTime && 0 < r.blackTime)
    ensures r.active ==> 0 < r.whiteTime && 0 < r.blackTime
  {
    if !s.active then s
    else
      var s' :=
        if s.turn == White && s.whiteTime > 0 then s.(whiteTime := s.whiteTime - 1)
        else if s.turn == Black && s.blackTime > 0 then s.(blackTime := s.blackTime - 1)
        else s;
      if s'.whiteTime <= 0 || s'.blackTime <= 0 then s'.(active := false) else s'
  }

  /** Whether the button of side c reads high. */
  function Pressed(c: Color, whiteHigh: bool, blackHigh: bool): bool {
    if c == White then whiteHigh else blackHigh
  }

  /**
    One pass of watch_buttons' loop, given the levels read from the white
    and the black button: while a game runs, the button of the side to
    move hands the move to the other side. Only the turn can change.
  */
  function PressButtons(s: ClockState, whiteHigh: bool, blackHigh: bool): (r: ClockState)
    ensures r == s.(turn := r.turn)
    ensures r.turn != s.turn <==> s.active && Pressed(s.turn, whiteHigh, blackHigh)
    ensures r.turn != s.turn ==> r.turn == s.turn.Opponent()
  {
    if !s.active then s
    else if whiteHigh && s.turn == White then s.(turn := Black)
    else if blackHigh && s.turn == Black then s.(turn := White)
    else s
  }

  /** n passes of the timer with no other event in between. */
  function Ticks(s: ClockState, n: nat): ClockState {
    if n == 0 then s else Tick(Ticks(s, n - 1))
  }

  /** A tick never takes a clock below zero that was not already below zero. */
  lemma TickKeepsClocksNonNegative(s: ClockState)
    requires s.ClocksNonNegative()
    ensures Tick(s).ClocksNonNegative()
  {
  }

  lemma {:induction false} TicksKeepClocksNonNegative(s: ClockState, n: nat)
    requires s.ClocksNonNegative()
    ensures Ticks(s, n).ClocksNonNegative()
  {
    if n > 0 {
      TicksKeepClocksNonNegative(s, n - 1);
      TickKeepsClocksNonNegative(Ticks(s, n - 1));
    }
  }

  /** Once a game has stopped, the timer changes nothing. */
  lemma {:induction false} TicksWhenStopped(s: ClockState, n: nat)
    requires !s.active
    ensures Ticks(s, n) == s
  {
    if n > 0 {
      TicksWhenStopped(s, n - 1);
    }
  }

  /**
    While both clocks are positive and the turn does not change, k ticks
    take exactly k seconds from the side to move and nothing from the
    other side; the game stops exactly when the mover's clock reaches 0.
  */
  lemma {:induction false} TicksDrainMover(s: ClockState, k: nat)
    requires s.active && 0 < s.whiteTime && 0 < s.blackTime
    requires k <= s.TimeOf(s.turn)
    ensures var r := Ticks(s, k);
            r.elo == s.elo && r.turn == s.turn &&
            r.TimeOf(s.turn) == s.TimeOf(s.turn) - k &&
            r.TimeOf(s.turn.Opponent()) == s.TimeOf(s.turn.Opponent()) &&
            (r.active <==> k < s.TimeOf(s.turn))
  {
    if k > 0 {
      TicksDrainMover(s, k - 1);
      var p := Ticks(s, k - 1);
      assert p.turn == s.turn;
      assert 0 < p.whiteTime && 0 < p.blackTime by {
        assert p.TimeOf(White) == p.whiteTime && p.TimeOf(Black) == p.blackTime;
      }
    }
  }

  /**
    A game of m >= 1 minutes in which nobody presses a button runs for
    exactly m * 60 ticks and then stops with white's clock at 0 and
    black's untouched.
  */
  lemma GameLastsItsMinutes(elo: int, minutes: int, k: nat)
    requires 1 <= minutes && k <= minutes * 60
    ensures Ticks(NewGame(elo, minutes), k).active <==> k < minutes * 60
    ensures Ticks(NewGame(elo, minutes), k).whiteTime == minutes * 60 - k
    ensures Ticks(NewGame(elo, minutes), k).blackTime == minutes * 60
  {
    TicksDrainMover(NewGame(elo, minutes), k);
  }
}
