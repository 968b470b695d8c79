/** What the rules promise: the effect of one tick case by case, the
    invariant every event keeps, and the lifetime of a power-up. */
module Properties {
  import opened Grid
  import opened Rules

  /** Turning around twice gives back the original direction. */
  lemma OppositeInvolutive(d: Direction)
    ensures Opposite(Opposite(d)) == d
  {
  }

  /** The three cells that randomPosition yields for food, power-up and
      poison are on the board, as a tick and a reset require. */
  lemma RandomPlacementsInBounds(u1: real, v1: real, u2: real, v2: real, u3: real, v3: real)
    requires 0.0 <= u1 < 1.0 && 0.0 <= v1 < 1.0
    requires 0.0 <= u2 < 1.0 && 0.0 <= v2 < 1.0
    requires 0.0 <= u3 < 1.0 && 0.0 <= v3 < 1.0
    ensures PlacementsInBounds(Placements(RandomPosition(u1, v1), RandomPosition(u2, v2), RandomPosition(u3, v3)))
  {
  }

  /** Stepping forward and then in the opposite direction comes back. */
  lemma AdvanceThenBack(c: Cell, d: Direction)
    ensures Advance(Advance(c, d), Opposite(d)) == c
  {
  }

  /** The direction a key press or a button leaves: a request for the
      reverse of the current direction changes nothing, any other named
      direction is taken, and an unknown input changes nothing. */
  lemma KeyAndButtonSteering(current: Direction, d: Direction, other: string)
    requires forall e :: KeyName(e) != other && ButtonName(e) != other
    ensures SteerBy(current, KeyRequest(KeyName(d))) == (if d == Opposite(current) then current else d)
    ensures SteerBy(current, ButtonRequest(ButtonName(d))) == (if d == Opposite(current) then current else d)
    ensures SteerBy(current, KeyRequest(other)) == current
    ensures SteerBy(current, ButtonRequest(other)) == current
  {
  }

  /** On a game-over tick the game restarts from the start cell with fresh
      placements and the power-up timer untouched. */
  lemma GameOverResets(s: State, p: Placements)
    requires |s.snake| >= 1
    ensures OutcomeOf(s) == GameOver ==>
              Tick(s, p) == State([Cell(10, 10)], Right, p.food, p.powerUp, p.poison, 0, false, s.powerUpTimer)
  {
  }

  /** The tail is an obstacle even though it would move away this tick. */
  lemma TailIsObstacle(s: State)
    requires |s.snake| >= 2 && NextHead(s) == s.snake[|s.snake| - 1]
    ensures OutcomeOf(s) == GameOver
  {
  }

  /** Consumables are tried in the order food, power-up, poison, and the
      first one on the new head is the one eaten. */
  lemma FirstMatch(s: State)
    requires |s.snake| >= 1 && OutcomeOf(s) != GameOver
    ensures OutcomeOf(s) == AteFood <==> NextHead(s) == s.food
    ensures OutcomeOf(s) == AtePowerUp <==> NextHead(s) != s.food && NextHead(s) == s.powerUp
    ensures OutcomeOf(s) == AtePoison <==>
              NextHead(s) != s.food && NextHead(s) != s.powerUp && NextHead(s) == s.poison
    ensures OutcomeOf(s) == Moved <==>
              NextHead(s) != s.food && NextHead(s) != s.powerUp && NextHead(s) != s.poison
  {
  }

  /** On a tick that does not end the game the head moves one step and the
      body follows: food and power-up grow the snake by one, poison and an
      empty cell leave its length unchanged. */
  lemma TickMovesSnake(s: State, p: Placements)
    requires |s.snake| >= 1 && OutcomeOf(s) != GameOver
    ensures Tick(s, p).snake[0] == NextHead(s) && Adjacent(s.snake[0], Tick(s, p).snake[0])
    ensures OutcomeOf(s) in {AteFood, AtePowerUp} ==>
              Tick(s, p).snake == [NextHead(s)] + s.snake && |Tick(s, p).snake| == |s.snake| + 1
    ensures OutcomeOf(s) in {AtePoison, Moved} ==>
              Tick(s, p).snake == [NextHead(s)] + s.snake[..|s.snake| - 1] && |Tick(s, p).snake| == |s.snake|
  {
  }

  /** Score effects: food +1, power-up +5, poison -3 but never below 0,
      nothing otherwise; a game over restarts from 0. */
  lemma TickScore(s: State, p: Placements)
    requires |s.snake| >= 1
    ensures Tick(s, p).score == match OutcomeOf(s)
                                case GameOver => 0
                                case AteFood => s.score + 1
                                case AtePowerUp => s.score + 5
                                case AtePoison => if s.score < 3 then 0 else s.score - 3
                                case Moved => s.score
    ensures s.score >= 0 ==> Tick(s, p).score >= 0
  {
  }

  /** Only the consumable that was eaten moves, and the direction is kept. */
  lemma TickRepositions(s: State, p: Placements)
    requires |s.snake| >= 1 && OutcomeOf(s) != GameOver
    ensures Tick(s, p).food == (if OutcomeOf(s) == AteFood then p.food else s.food)
    ensures Tick(s, p).powerUp == (if OutcomeOf(s) == AtePowerUp then p.powerUp else s.powerUp)
    ensures Tick(s, p).poison == (if OutcomeOf(s) == AtePoison then p.poison else s.poison)
    ensures Tick(s, p).direction == s.direction
  {
  }

  /** The power-up timer: a pickup sets it to 100 and the same tick counts
      it down to 99; an active power-up loses one per tick and turns off at
      0; an inactive one is not touched; a game over turns it off without
      counting down. */
  lemma TickTimer(s: State, p: Placements)
    requires |s.snake| >= 1
    ensures OutcomeOf(s) == GameOver ==>
              !Tick(s, p).powerUpActive && Tick(s, p).powerUpTimer == s.powerUpTimer
    ensures OutcomeOf(s) == AtePowerUp ==>
              Tick(s, p).powerUpActive && Tick(s, p).powerUpTimer == PowerUpTicks - 1
    ensures OutcomeOf(s) !in {GameOver, AtePowerUp} && s.powerUpActive ==>
              Tick(s, p).powerUpTimer == s.powerUpTimer - 1
              && (Tick(s, p).powerUpActive <==> s.powerUpTimer > 1)
    ensures OutcomeOf(s) !in {GameOver, AtePowerUp} && !s.powerUpActive ==>
              !Tick(s, p).powerUpActive && Tick(s, p).powerUpTimer == s.powerUpTimer
  {
  }

  /** A snake on the board stays on the board. */
  lemma TickKeepsInBounds(s: State, p: Placements)
    requires |s.snake| >= 1 && AllInBounds(s.snake)
    ensures AllInBounds(Tick(s, p).snake)
  {
  }

  /** Distinct says that no two positions of the snake hold the same cell. */
  lemma {:induction false} DistinctMeansNoRepeats(snake: seq<Cell>)
    ensures Distinct(snake) <==> forall i, j :: 0 <= i < j < |snake| ==> snake[i] != snake[j]
    decreases |snake|
  {
    if |snake| > 1 {
      DistinctMeansNoRepeats(snake[1..]);
      if Distinct(snake) {
        forall i, j | 0 <= i < j < |snake| ensures snake[i] != snake[j] {
          if i == 0 {
            assert snake[j] == snake[1..][j - 1];
          } else {
            assert snake[i] == snake[1..][i - 1] && snake[j] == snake[1..][j - 1];
          }
        }
      } else if snake[0] in snake[1..] {
        var k :| 0 <= k < |snake[1..]| && snake[1..][k] == snake[0];
        assert snake[k + 1] == snake[0];
      } else {
        var i, j :| 0 <= i < j < |snake[1..]| && snake[1..][i] == snake[1..][j];
        assert snake[i + 1] == snake[j + 1];
      }
    }
  }

  /** Connected says that every two consecutive segments are adjacent. */
  lemma {:induction false} ConnectedMeansAdjacent(snake: seq<Cell>)
    ensures Connected(snake) <==> forall i :: 1 <= i < |snake| ==> Adjacent(snake[i - 1], snake[i])
    decreases |snake|
  {
    if |snake| > 1 {
      ConnectedMeansAdjacent(snake[1..]);
      if Connected(snake) {
        forall i | 1 <= i < |snake| ensures Adjacent(snake[i - 1], snake[i]) {
          if i > 1 {
            assert snake[i - 1] == snake[1..][i - 2] && snake[i] == snake[1..][i - 1];
          }
        }
      } else if Adjacent(snake[0], snake[1]) {
        var i :| 1 <= i < |snake[1..]| && !Adjacent(snake[1..][i - 1], snake[1..][i]);
        assert snake[i] == snake[1..][i - 1] && snake[i + 1] == snake[1..][i];
      }
    }
  }

  /** Dropping the last segment keeps a path on the board self-avoiding
      and connected. */
  lemma {:induction false} PopKeepsPath(snake: seq<Cell>)
    requires |snake| >= 1
    ensures Distinct(snake) ==> Distinct(Pop(snake))
    ensures Connected(snake) ==> Connected(Pop(snake))
    ensures AllInBounds(snake) ==> AllInBounds(Pop(snake))
    decreases |snake|
  {
    if |snake| > 1 {
      PopKeepsPath(snake[1..]);
      assert Pop(snake)[1..] == Pop(snake[1..]);
      assert snake[0] !in snake[1..] ==> snake[0] !in Pop(snake[1..]);
    }
  }

  /** Putting a fresh head, next to the old one, in front of a valid body
      keeps it a self-avoiding path, with or without its last segment. */
  lemma PrependKeepsPath(head: Cell, body: seq<Cell>)
    requires |body| >= 1 && Distinct(body) && Connected(body)
    requires head !in body && Adjacent(body[0], head)
    ensures Distinct([head] + body) && Connected([head] + body)
    ensures Distinct([head] + Pop(body)) && Connected([head] + Pop(body))
  {
    assert ([head] + body)[1..] == body;
    PopKeepsPath(body);
    var short := [head] + Pop(body);
    assert short[1..] == Pop(body);
    if |body| > 1 {
      assert short[1] == body[0];
    }
  }

  /** Every tick keeps the invariant, given placements on the board. */
  lemma TickKeepsValid(s: State, p: Placements)
    requires Valid(s) && PlacementsInBounds(p)
    ensures Valid(Tick(s, p))
  {
    var o := OutcomeOf(s);
    if o != GameOver {
      var head := NextHead(s);
      assert head != s.snake[0];
      assert head !in s.snake by {
        assert !HitsBody(s.snake, head);
        assert s.snake == [s.snake[0]] + s.snake[1..];
      }
      PrependKeepsPath(head, s.snake);
      TickMovesSnake(s, p);
      assert [head] + s.snake[..|s.snake| - 1] == [head] + Pop(s.snake);
    }
  }

  /** Every run of events on the board keeps the invariant; in particular
      the score is never negative and the snake never leaves the board. */
  lemma {:induction false} RunKeepsValid(s: State, evs: seq<Event>)
    requires Valid(s) && EventsInBounds(evs)
    ensures Valid(Run(s, evs))
    ensures Run(s, evs).score >= 0 && AllInBounds(Run(s, evs).snake)
    decreases |evs|
  {
    if evs != [] {
      var e := evs[0];
      if e.Frame? {
        TickKeepsValid(s, e.p);
      }
      assert EventsInBounds(evs[1..]) by {
        forall i | 0 <= i < |evs[1..]| && evs[1..][i].Frame?
          ensures PlacementsInBounds(evs[1..][i].p)
        {
          assert evs[1..][i] == evs[i + 1];
        }
      }
      RunKeepsValid(Apply(s, e), evs[1..]);
    }
  }

  /** A run has one outcome per timer firing. */
  lemma {:induction false} OutcomesPerFrame(s: State, evs: seq<Event>)
    requires |s.snake| >= 1
    ensures |Outcomes(s, evs)| == Frames(evs)
    decreases |evs|
  {
    if evs != [] {
      OutcomesPerFrame(Apply(s, evs[0]), evs[1..]);
    }
  }

  /** With no new pickup, a power-up is off once as many ticks have run as
      its timer showed (a game over in between switches it off earlier). */
  lemma {:induction false} PowerUpExpires(s: State, evs: seq<Event>)
    requires |s.snake| >= 1
    requires AtePowerUp !in Outcomes(s, evs)
    requires s.powerUpActive ==> 1 <= s.powerUpTimer <= Frames(evs)
    ensures !Run(s, evs).powerUpActive
    decreases |evs|
  {
    if evs == [] {
    } else {
      var t := Apply(s, evs[0]);
      assert Outcomes(s, evs) == (if evs[0].Frame? then [OutcomeOf(s)] else []) + Outcomes(t, evs[1..]);
      if evs[0].Frame? {
        TickTimer(s, evs[0].p);
      }
      PowerUpExpires(t, evs[1..]);
    }
  }

  /** With no pickup and no game over, an active power-up is still on while
      fewer ticks have run than its timer showed, one lower per tick. */
  lemma {:induction false} PowerUpLasts(s: State, evs: seq<Event>)
    requires |s.snake| >= 1 && s.powerUpActive
    requires AtePowerUp !in Outcomes(s, evs) && GameOver !in Outcomes(s, evs)
    requires Frames(evs) < s.powerUpTimer
    ensures Run(s, evs).powerUpActive
    ensures Run(s, evs).powerUpTimer == s.powerUpTimer - Frames(evs)
    decreases |evs|
  {
    if evs != [] {
      var t := Apply(s, evs[0]);
      assert Outcomes(s, evs) == (if evs[0].Frame? then [OutcomeOf(s)] else []) + Outcomes(t, evs[1..]);
      if evs[0].Frame? {
        TickTimer(s, evs[0].p);
      }
      PowerUpLasts(t, evs[1..]);
    }
  }

  /** A power-up picked up and not picked up again is off at the end of the
      100th tick, counting the pickup tick; without a game over it is still
      on at the end of every earlier tick. */
  lemma PickupLastsHundredTicks(s: State, p: Placements, evs: seq<Event>)
    requires |s.snake| >= 1 && OutcomeOf(s) == AtePowerUp
    requires AtePowerUp !in Outcomes(Tick(s, p), evs)
    ensures 1 + Frames(evs) >= PowerUpTicks ==> !Run(Tick(s, p), evs).powerUpActive
    ensures 1 + Frames(evs) < PowerUpTicks && GameOver !in Outcomes(Tick(s, p), evs) ==>
              Run(Tick(s, p), evs).powerUpActive
  {
    TickTimer(s, p);
    if 1 + Frames(evs) >= PowerUpTicks {
      PowerUpExpires(Tick(s, p), evs);
    } else if GameOver !in Outcomes(Tick(s, p), evs) {
      PowerUpLasts(Tick(s, p), evs);
    }
  }

  /** Direction requests are checked against the current direction, which
      an earlier request may already have changed: Up then Left between two
      ticks turns a snake heading right around, and its next tick runs into
      the segment behind the head. */
  lemma TwoRequestsReverse(s: State)
    requires |s.snake| >= 2 && s.direction == Right
    requires s.snake[1] == Advance(s.snake[0], Left)
    ensures Steer(Steer(Right, Up), Left) == Left
    ensures OutcomeOf(Run(s, [Turn(Up), Turn(Left)])) == GameOver
  {
  }

  /** A one-cell snake at (10,10) heading right onto food eats it. */
  lemma FoodExample(s: State, p: Placements)
    requires s.snake == [Cell(10, 10)] && s.direction == Right && s.food == Cell(11, 10)
    ensures Tick(s, p).snake == [Cell(11, 10), Cell(10, 10)]
    ensures Tick(s, p).score == s.score + 1 && Tick(s, p).food == p.food
    ensures SignalOf(s) == EatSound
  {
  }

  /** A snake at (0,0) heading left leaves the board and the game restarts. */
  lemma WallExample(s: State, p: Placements)
    requires s.snake == [Cell(0, 0)] && s.direction == Left
    ensures SignalOf(s) == GameOverAlert(s.score)
    ensures Tick(s, p).snake == [StartCell] && Tick(s, p).score == 0 && Tick(s, p).direction == Right
  {
  }

  /** Poison on the new head costs three points and keeps the length. */
  lemma PoisonExample(s: State, p: Placements)
    requires s.snake == [Cell(5, 5), Cell(4, 5)] && s.direction == Right
    requires s.poison == Cell(6, 5) && s.food != Cell(6, 5) && s.powerUp != Cell(6, 5)
    ensures Tick(s, p).snake == [Cell(6, 5), Cell(5, 5)]
    ensures Tick(s, p).score == Max(0, s.score - 3) && Tick(s, p).poison == p.poison
  {
  }

  /** A snake curled into a square runs into its own tail. */
  lemma TailExample(s: State)
    requires s.snake == [Cell(1, 0), Cell(1, 1), Cell(0, 1), Cell(0, 0)] && s.direction == Left
    ensures OutcomeOf(s) == GameOver
  {
  }
}
