/** The rules of the game as functions on a value of the whole game state:
    steering, one tick of the simulation, the reset after a game over, and
    a run of input and timer events. The class in module Session performs
    the same updates in place and is proved against these functions. */
module Rules {
  import opened Grid

  datatype Option<T> = None | Some(value: T)

  const StartCell: Cell := Cell(10, 10)
  const StartDirection: Direction := Right
  const FoodPoints: int := 1
  const PowerUpPoints: int := 5
  const PoisonPenalty: int := 3
  /** Ticks a power-up stays active, counting the tick that picks it up. */
  const PowerUpTicks: int := 100

  /** The game's global variables; `snake` is head first. */
  datatype State = State(
    snake: seq<Cell>,
    direction: Direction,
    food: Cell,
    powerUp: Cell,
    poison: Cell,
    score: int,
    powerUpActive: bool,
    powerUpTimer: int)

  /** The cells randomPosition yields for food, power-up and poison, in the
      order in which the game asks for them. */
  datatype Placements = Placements(food: Cell, powerUp: Cell, poison: Cell)

  predicate PlacementsInBounds(p: Placements) {
    InBounds(p.food) && InBounds(p.powerUp) && InBounds(p.poison)
  }

  /** What one tick does, decided before anything changes. */
  datatype Outcome = GameOver | AteFood | AtePowerUp | AtePoison | Moved

  /** What the page is told to play or show after a tick. */
  datatype Signal = Silent | EatSound | GameOverAlert(finalScore: int)

  predicate AllInBounds(snake: seq<Cell>) {
    forall i :: 0 <= i < |snake| ==> InBounds(snake[i])
  }

  /** No cell is occupied by two segments. */
  predicate Distinct(snake: seq<Cell>) {
    |snake| <= 1 || (snake[0] !in snake[1..] && Distinct(snake[1..]))
  }

  /** Each segment is one step away from the segment before it. */
  predicate Connected(snake: seq<Cell>) {
    |snake| <= 1 || (Adjacent(snake[0], snake[1]) && Connected(snake[1..]))
  }

  /** What holds between any two events of a game: the snake is a non-empty
      self-avoiding path on the board, every consumable is on the board, the
      score is not negative, and the power-up timer is below its start value
      and positive while the power-up is active. */
  predicate Valid(s: State) {
    && |s.snake| >= 1
    && AllInBounds(s.snake)
    && Distinct(s.snake)
    && Connected(s.snake)
    && InBounds(s.food) && InBounds(s.powerUp) && InBounds(s.poison)
    && s.score >= 0
    && 0 <= s.powerUpTimer < PowerUpTicks
    && (s.powerUpActive ==> 1 <= s.powerUpTimer)
  }

  /** The state the script starts in. */
  function Initial(): (s: State)
    ensures Valid(s)
  {
    State([StartCell], StartDirection, Cell(15, 15), Cell(5, 5), Cell(8, 8), 0, false, 0)
  }

  /** A direction request takes effect unless it reverses the direction the
      snake has now; a refused request leaves the direction as it was. */
  function Steer(current: Direction, request: Direction): (r: Direction)
    ensures r != Opposite(current)
    ensures r == request <==> request != Opposite(current)
    ensures r != request ==> r == current
  {
    if request == Opposite(current) then current else request
  }

  /** Steering by an input that may not name a direction at all. */
  function SteerBy(current: Direction, request: Option<Direction>): (r: Direction)
    ensures request.None? ==> r == current
    ensures request.Some? ==> r == Steer(current, request.value)
  {
    match request
    case None => current
    case Some(d) => Steer(current, d)
  }

  /** The keyboard key that asks for each direction. */
  function KeyName(d: Direction): string {
    match d
    case Up => "ArrowUp"
    case Down => "ArrowDown"
    case Left => "ArrowLeft"
    case Right => "ArrowRight"
  }

  /** The argument the on-screen buttons pass for each direction. */
  function ButtonName(d: Direction): string {
    match d
    case Up => "up"
    case Down => "down"
    case Left => "left"
    case Right => "right"
  }

  /** The direction a key asks for; any other key asks for nothing. */
  function KeyRequest(key: string): (r: Option<Direction>)
    ensures r.Some? ==> KeyName(r.value) == key
    ensures r.None? ==> forall d :: KeyName(d) != key
  {
    if key == "ArrowUp" then Some(Up)
    else if key == "ArrowDown" then Some(Down)
    else if key == "ArrowLeft" then Some(Left)
    else if key == "ArrowRight" then Some(Right)
    else None
  }

  /** The direction a button name asks for; any other name asks for nothing. */
  function ButtonRequest(name: string): (r: Option<Direction>)
    ensures r.Some? ==> ButtonName(r.value) == name
    ensures r.None? ==> forall d :: ButtonName(d) != name
  {
    if name == "up" then Some(Up)
    else if name == "down" then Some(Down)
    else if name == "left" then Some(Left)
    else if name == "right" then Some(Right)
    else None
  }

  function NextHead(s: State): Cell
    requires |s.snake| >= 1
  {
    Advance(s.snake[0], s.direction)
  }

  /** Whether `c` is one of the segments after the head, the tail included. */
  function HitsBody(snake: seq<Cell>, c: Cell): (r: bool)
    ensures r <==> exists i :: 1 <= i < |snake| && snake[i] == c
  {
    |snake| > 1 && c in snake[1..]
  }

  /** The tick's outcome: leaving the board or running into the body ends
      the game; otherwise the first of food, power-up and poison that lies
      on the new head is eaten. */
  function OutcomeOf(s: State): (r: Outcome)
    requires |s.snake| >= 1
    ensures r == GameOver <==>
              !InBounds(NextHead(s)) || exists i :: 1 <= i < |s.snake| && s.snake[i] == NextHead(s)
    ensures r != GameOver ==> InBounds(NextHead(s)) && NextHead(s) !in s.snake
  {
    var head := NextHead(s);
    if !InBounds(head) || HitsBody(s.snake, head) then GameOver
    else if head == s.food then AteFood
    else if head == s.powerUp then AtePowerUp
    else if head == s.poison then AtePoison
    else Moved
  }

  /** Drops the last segment. */
  function Pop(snake: seq<Cell>): seq<Cell>
    requires |snake| >= 1
  {
    snake[..|snake| - 1]
  }

  /** resetGame: a one-cell snake at the start cell heading right, score 0,
      fresh consumables and no active power-up. The timer is not reset. */
  function Reset(s: State, p: Placements): (r: State)
    ensures r.snake == [StartCell] && r.direction == StartDirection && r.score == 0
    ensures r.food == p.food && r.powerUp == p.powerUp && r.poison == p.poison
    ensures !r.powerUpActive && r.powerUpTimer == s.powerUpTimer
  {
    s.(snake := [StartCell], direction := StartDirection, score := 0,
       food := p.food, powerUp := p.powerUp, poison := p.poison,
       powerUpActive := false)
  }

  /** The power-up countdown at the end of a tick that did not end the game. */
  function Decay(s: State): (r: State)
    ensures r == s.(powerUpActive := r.powerUpActive, powerUpTimer := r.powerUpTimer)
    ensures r.powerUpTimer == if s.powerUpActive then s.powerUpTimer - 1 else s.powerUpTimer
    ensures r.powerUpActive <==> s.powerUpActive && s.powerUpTimer > 1
  {
    if s.powerUpActive then
      s.(powerUpTimer := s.powerUpTimer - 1, powerUpActive := s.powerUpTimer - 1 > 0)
    else s
  }

  /** The consumable rules, applied after the new head has been put in
      front of the snake: food and the power-up leave the longer snake,
      poison and an empty cell drop the last segment again. */
  function Resolve(s: State, p: Placements): (r: State)
    requires |s.snake| >= 2
    ensures r.snake == s.snake || r.snake == Pop(s.snake)
    ensures |r.snake| == |s.snake| <==> s.snake[0] in {s.food, s.powerUp}
    ensures r.direction == s.direction
    ensures r.score >= s.score || r.score == Max(0, s.score - PoisonPenalty)
    ensures s.score >= 0 ==> r.score >= 0
  {
    var head := s.snake[0];
    if head == s.food then
      s.(score := s.score + FoodPoints, food := p.food)
    else if head == s.powerUp then
      s.(score := s.score + PowerUpPoints, powerUpActive := true,
         powerUpTimer := PowerUpTicks, powerUp := p.powerUp)
    else if head == s.poison then
      s.(score := Max(0, s.score - PoisonPenalty), snake := Pop(s.snake), poison := p.poison)
    else
      s.(snake := Pop(s.snake))
  }

  /** One tick of the game. `p` holds what randomPosition yields; only the
      consumables the tick replaces are taken from it. */
  function Tick(s: State, p: Placements): (r: State)
    requires |s.snake| >= 1
    ensures |r.snake| >= 1
  {
    if OutcomeOf(s) == GameOver then Reset(s, p)
    else Decay(Resolve(s.(snake := [NextHead(s)] + s.snake), p))
  }

  function Max(a: int, b: int): int {
    if a < b then b else a
  }

  /** The sound or alert a tick triggers; the alert carries the score the
      game ended with. */
  function SignalOf(s: State): (r: Signal)
    requires |s.snake| >= 1
    ensures r == GameOverAlert(s.score) <==> OutcomeOf(s) == GameOver
    ensures r == EatSound <==> OutcomeOf(s) == AteFood
    ensures OutcomeOf(s) !in {GameOver, AteFood} ==> r == Silent
  {
    match OutcomeOf(s)
    case GameOver => GameOverAlert(s.score)
    case AteFood => EatSound
    case _ => Silent
  }

  /** What reaches the game between two frames: a direction request or the
      timer firing with the placements randomPosition would produce. */
  datatype Event = Turn(request: Direction) | Frame(p: Placements)

  predicate EventsInBounds(evs: seq<Event>) {
    forall i :: 0 <= i < |evs| && evs[i].Frame? ==> PlacementsInBounds(evs[i].p)
  }

  /** One event: a request steers the snake and changes nothing else; a
      timer firing runs one tick. */
  function Apply(s: State, e: Event): (r: State)
    requires |s.snake| >= 1
    ensures |r.snake| >= 1
    ensures e.Turn? ==> r == s.(direction := Steer(s.direction, e.request))
  {
    match e
    case Turn(d) => s.(direction := Steer(s.direction, d))
    case Frame(p) => Tick(s, p)
  }

  /** The state after a sequence of events, applied in order. */
  function Run(s: State, evs: seq<Event>): (r: State)
    requires |s.snake| >= 1
    ensures |r.snake| >= 1
    ensures Frames(evs) == 0 ==> r == s.(direction := Steered(s.direction, evs))
    decreases |evs|
  {
    if evs == [] then s else Run(Apply(s, evs[0]), evs[1..])
  }

  /** The direction after each direction request of `evs` in turn has been
      put through the steering rule; timer firings are skipped. */
  function Steered(d: Direction, evs: seq<Event>): Direction
    decreases |evs|
  {
    if evs == [] then d
    else if evs[0].Turn? then Steered(Steer(d, evs[0].request), evs[1..])
    else Steered(d, evs[1..])
  }

  /** The outcomes of the ticks of a run, in order. */
  function Outcomes(s: State, evs: seq<Event>): seq<Outcome>
    requires |s.snake| >= 1
    decreases |evs|
  {
    if evs == [] then []
    else
      var rest := Outcomes(Apply(s, evs[0]), evs[1..]);
      if evs[0].Frame? then [OutcomeOf(s)] + rest else rest
  }

  /** Number of timer firings in a run. */
  function Frames(evs: seq<Event>): nat {
    if evs == [] then 0 else (if evs[0].Frame? then 1 else 0) + Frames(evs[1..])
  }
}
