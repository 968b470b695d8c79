/** The running game: the script's global variables as the fields of one
    object, updated in place by the timer tick, the reset after a game over
    and the two direction handlers. Each method is proved to leave the state
    that the corresponding function of module Rules describes. */
module Session {
  import opened Grid
  import opened Rules
  import Properties

  class Game {
    var snake: seq<Cell>
    var direction: Direction
    var food: Cell
    var score: int
    var powerUp: Cell
    var poison: Cell
    var powerUpActive: bool
    var powerUpTimer: int

    /** The fields as one value of the game state. */
    function Snapshot(): State
      reads this
    {
      State(snake, direction, food, powerUp, poison, score, powerUpActive, powerUpTimer)
    }

    predicate Valid()
      reads this
    {
      Rules.Valid(Snapshot())
    }

    /** The values the globals are declared with. */
    constructor ()
      ensures Snapshot() == Initial() && Valid()
    {
      snake := [Cell(10, 10)];
      direction := Right;
      food := Cell(15, 15);
      score := 0;
      powerUp := Cell(5, 5);
      poison := Cell(8, 8);
      powerUpActive := false;
      powerUpTimer := 0;
    }

    /** The keydown listener: an arrow key turns the snake unless it asks
        for the reverse of the current direction. */
    method KeyDown(key: string)
      requires Valid()
      modifies this`direction
      ensures Valid()
      ensures direction == SteerBy(old(direction), KeyRequest(key))
      ensures direction != Opposite(old(direction))
    {
      if key == "ArrowUp" && direction != Down { direction := Up; }
      if key == "ArrowDown" && direction != Up { direction := Down; }
      if key == "ArrowLeft" && direction != Right { direction := Left; }
      if key == "ArrowRight" && direction != Left { direction := Right; }
    }

    /** changeDirection, called by the on-screen buttons with "up", "down",
        "left" or "right"; the same rule as the keyboard. */
    method ChangeDirection(dir: string)
      requires Valid()
      modifies this`direction
      ensures Valid()
      ensures direction == SteerBy(old(direction), ButtonRequest(dir))
      ensures direction != Opposite(old(direction))
    {
      if dir == "up" && direction != Down { direction := Up; }
      if dir == "down" && direction != Up { direction := Down; }
      if dir == "left" && direction != Right { direction := Left; }
      if dir == "right" && direction != Left { direction := Right; }
    }

    /** resetGame, apart from restarting the interval timer. */
    method Reset(p: Placements)
      modifies this
      ensures Snapshot() == Rules.Reset(old(Snapshot()), p)
      ensures old(Valid()) && PlacementsInBounds(p) ==> Valid()
    {
      snake := [Cell(10, 10)];
      direction := Right;
      score := 0;
      food := p.food;
      powerUp := p.powerUp;
      poison := p.poison;
      powerUpActive := false;
    }

    /** The state update of one frame; `p` holds what randomPosition would
        return each time it is called. The result is the sound or alert the
        frame triggers. */
    method Step(p: Placements) returns (signal: Signal)
      requires Valid() && PlacementsInBounds(p)
      modifies this
      ensures Valid()
      ensures Snapshot() == Tick(old(Snapshot()), p)
      ensures signal == SignalOf(old(Snapshot()))
    {
      ghost var s := Snapshot();
      var head := snake[0];
      if direction == Up { head := head.(y := head.y - 1); }
      if direction == Down { head := head.(y := head.y + 1); }
      if direction == Left { head := head.(x := head.x - 1); }
      if direction == Right { head := head.(x := head.x + 1); }
      assert head == NextHead(s);

      if head.x < 0 || head.x >= GridCount || head.y < 0 || head.y >= GridCount
         || HitsBody(snake, head)
      {
        signal := GameOverAlert(score);
        Reset(p);
      } else {
        snake := [head] + snake;
        var ate := EatAtHead(p);
        signal := if ate then EatSound else Silent;
        CountDown();
      }
      Properties.TickKeepsValid(s, p);
    }

    /** The if-chain on the new head: food, else power-up, else poison, else
        nothing; returns whether food was eaten (the eat sound). */
    method EatAtHead(p: Placements) returns (ateFood: bool)
      requires |snake| >= 2
      modifies this
      ensures Snapshot() == Resolve(old(Snapshot()), p)
      ensures ateFood == (old(snake)[0] == old(food))
    {
      var head := snake[0];
      ateFood := false;
      if head == food {
        score := score + 1;
        food := p.food;
        ateFood := true;
      } else if head == powerUp {
        score := score + 5;
        powerUpActive := true;
        powerUpTimer := 100;
        powerUp := p.powerUp;
      } else if head == poison {
        score := Max(0, score - 3);
        snake := snake[..|snake| - 1];
        poison := p.poison;
      } else {
        snake := snake[..|snake| - 1];
      }
    }

    /** The countdown of an active power-up at the end of a frame. */
    method CountDown()
      modifies this
      ensures Snapshot() == Decay(old(Snapshot()))
    {
      if powerUpActive {
        powerUpTimer := powerUpTimer - 1;
        if powerUpTimer <= 0 {
          powerUpActive := false;
        }
      }
    }
  }
}
