/**
 * The Snake rules engine (src/snakeLogic.js): a snake on a width x height grid, a heading,
 * a heading requested for the next tick, one food cell, a score and a game-over flag.
 *
 * The value type State and the functions SetDirectionSpec, StepSpec, PlaceFoodSpec and
 * InitSpec say what each operation does to a state; the class Game holds the same state
 * in fields the operations update in place, and each of its methods is proved to do what
 * the matching function says. The lemmas state the rules of the game about the functions.
 */
module SnakeLogic {
  import opened Xorshift

  datatype Option<T> = None | Some(value: T)

  /** A grid cell, or a unit direction vector; x grows rightwards and y downwards. */
  datatype Pos = Pos(x: int, y: int)

  /** The four headings, the keys of the DIRS table. */
  datatype Dir = Up | Down | Left | Right

  /** DIRS: the unit vector of each heading. */
  function Vector(d: Dir): Pos
  {
    match d
    case Up => Pos(0, -1)
    case Down => Pos(0, 1)
    case Left => Pos(-1, 0)
    case Right => Pos(1, 0)
  }

  /** The key under which DIRS stores a heading. */
  function Key(d: Dir): string
  {
    match d
    case Up => "up"
    case Down => "down"
    case Left => "left"
    case Right => "right"
  }

  /** DIRS[key]: the heading stored under key, or None when key is not one of the four. */
  function Lookup(key: string): (r: Option<Dir>)
    ensures r.Some? ==> Key(r.value) == key
  {
    if key == "up" then Some(Up)
    else if key == "down" then Some(Down)
    else if key == "left" then Some(Left)
    else if key == "right" then Some(Right)
    else None
  }

  /** Every key of the table finds its own heading. */
  lemma LookupKey(d: Dir)
    ensures Lookup(Key(d)) == Some(d)
  {
  }

  /** samePos: two cells with equal coordinates are the same cell. */
  function SamePos(a: Pos, b: Pos): (r: bool)
    ensures r <==> a == b
  {
    a.x == b.x && a.y == b.y
  }

  /** isOpposite: the two vectors sum to zero in both coordinates. */
  function IsOpposite(a: Pos, b: Pos): bool
  {
    a.x + b.x == 0 && a.y + b.y == 0
  }

  /** The reverse heading. */
  function Opposite(d: Dir): Dir
  {
    match d
    case Up => Down
    case Down => Up
    case Left => Right
    case Right => Left
  }

  /** On table vectors, isOpposite holds exactly for a heading and its reverse. */
  lemma OppositeVectors(a: Dir, b: Dir)
    ensures IsOpposite(Vector(a), Vector(b)) <==> b == Opposite(a)
  {
    match a
    case Up => match b { case Up => case Down => case Left => case Right => }
    case Down => match b { case Up => case Down => case Left => case Right => }
    case Left => match b { case Up => case Down => case Left => case Right => }
    case Right => match b { case Up => case Down => case Left => case Right => }
  }

  /** The cell one move from p along v. */
  function Add(p: Pos, v: Pos): Pos
  {
    Pos(p.x + v.x, p.y + v.y)
  }

  predicate InBounds(w: int, h: int, p: Pos)
  {
    0 <= p.x < w && 0 <= p.y < h
  }

  predicate Distinct(s: seq<Pos>)
  {
    forall i, j :: 0 <= i < j < |s| ==> s[i] != s[j]
  }

  /** The whole state of a game, as a value: what snapshot copies. */
  datatype State = State(
    width: int,
    height: int,
    snake: seq<Pos>,        // head first, tail last
    direction: Dir,         // heading of the last step
    pendingDirection: Dir,  // heading the next step will take
    food: Pos,
    score: int,
    gameOver: bool)

  /** A state paired with the word of the generator after the operation. */
  datatype Outcome = Outcome(state: State, rng: bv32)

  /** A food cell paired with the word of the generator after placing it. */
  datatype Placement = Placement(food: Pos, rng: bv32)

  /** What step needs in order to run: a positive grid and a snake with a head. */
  predicate Live(st: State)
  {
    st.width > 0 && st.height > 0 && |st.snake| >= 1
  }

  /**
   * The board invariant: every segment on the grid and no two alike, the food on the grid
   * and off the snake unless it is the fallback cell (0, 0), and the requested heading not
   * the reverse of the current one.
   */
  predicate Board(st: State)
  {
    Live(st)
    && (forall i :: 0 <= i < |st.snake| ==> InBounds(st.width, st.height, st.snake[i]))
    && Distinct(st.snake)
    && InBounds(st.width, st.height, st.food)
    && (st.food in st.snake ==> st.food == Pos(0, 0))
    && !IsOpposite(Vector(st.direction), Vector(st.pendingDirection))
    && st.score >= 0
  }

  // ---------------------------------------------------------------------------------------
  // placeFood

  /** The cell one attempt of placeFood draws from word s: x first, then y. */
  function Candidate(w: int, h: int, s: bv32): (c: Pos)
    requires w > 0 && h > 0
    ensures InBounds(w, h, c)
  {
    Pos(Scaled(XorShift(s), w), Scaled(XorShift(XorShift(s)), h))
  }

  /** The generator word before attempt k (counting from 0): each attempt takes two draws. */
  function AttemptSeed(s: bv32, k: nat): bv32
  {
    Iterate(s, 2 * k)
  }

  /** placeFood with `attempts` attempts left and generator word s. */
  function PlaceFoodSpec(w: int, h: int, body: seq<Pos>, s: bv32, attempts: nat): Placement
    requires w > 0 && h > 0
    decreases attempts
  {
    if attempts == 0 then Placement(Pos(0, 0), s)
    else
      var candidate := Candidate(w, h, s);
      if candidate !in body then Placement(candidate, XorShift(XorShift(s)))
      else PlaceFoodSpec(w, h, body, XorShift(XorShift(s)), attempts - 1)
  }

  /** The number of attempts PlaceFoodSpec makes, the successful one included. */
  function Tries(w: int, h: int, body: seq<Pos>, s: bv32, attempts: nat): nat
    requires w > 0 && h > 0
    decreases attempts
  {
    if attempts == 0 then 0
    else if Candidate(w, h, s) !in body then 1
    else 1 + Tries(w, h, body, XorShift(XorShift(s)), attempts - 1)
  }

  /** Attempt k + 1 from word s is attempt k from the word after the first attempt. */
  lemma AttemptSeedShift(s: bv32, k: nat)
    ensures AttemptSeed(s, k + 1) == AttemptSeed(XorShift(XorShift(s)), k)
  {
    assert 2 * (k + 1) == 2 * k + 2;
    assert Iterate(s, 2 * k + 2) == Iterate(XorShift(s), 2 * k + 1);
  }

  /**
   * placeFood makes at most `attempts` attempts and consumes exactly two draws per attempt:
   * the generator ends at the word after 2 * Tries calls.
   */
  lemma {:induction false} PlaceFoodDraws(w: int, h: int, body: seq<Pos>, s: bv32, attempts: nat)
    requires w > 0 && h > 0
    ensures Tries(w, h, body, s, attempts) <= attempts
    ensures PlaceFoodSpec(w, h, body, s, attempts).rng == AttemptSeed(s, Tries(w, h, body, s, attempts))
    decreases attempts
  {
    if attempts > 0 {
      var s2 := XorShift(XorShift(s));
      AttemptSeedShift(s, 0);
      if Candidate(w, h, s) in body {
        PlaceFoodDraws(w, h, body, s2, attempts - 1);
        AttemptSeedShift(s, Tries(w, h, body, s2, attempts - 1));
      }
    }
  }

  /** Every attempt before the last one placeFood makes drew a cell of the snake. */
  lemma {:induction false} PlaceFoodMisses(w: int, h: int, body: seq<Pos>, s: bv32, attempts: nat, k: nat)
    requires w > 0 && h > 0
    requires k + 1 < Tries(w, h, body, s, attempts)
    ensures Candidate(w, h, AttemptSeed(s, k)) in body
    decreases attempts
  {
    var s2 := XorShift(XorShift(s));
    if k > 0 {
      PlaceFoodMisses(w, h, body, s2, attempts - 1, k - 1);
      AttemptSeedShift(s, k - 1);
    }
  }

  /**
   * placeFood returns the cell its last attempt drew if that cell is off the snake;
   * otherwise it has used up all its attempts and returns the fallback (0, 0).
   */
  lemma {:induction false} PlaceFoodPick(w: int, h: int, body: seq<Pos>, s: bv32, attempts: nat)
    requires w > 0 && h > 0
    ensures var t := Tries(w, h, body, s, attempts);
            var r := PlaceFoodSpec(w, h, body, s, attempts);
            if t > 0 && Candidate(w, h, AttemptSeed(s, t - 1)) !in body
            then r.food == Candidate(w, h, AttemptSeed(s, t - 1))
            else t == attempts && r.food == Pos(0, 0)
    decreases attempts
  {
    if attempts > 0 {
      var s2 := XorShift(XorShift(s));
      if Candidate(w, h, s) in body {
        PlaceFoodPick(w, h, body, s2, attempts - 1);
        var t' := Tries(w, h, body, s2, attempts - 1);
        if t' > 0 {
          AttemptSeedShift(s, t' - 1);
        }
      }
    }
  }

  /**
   * The food placeFood returns is on the grid, and it is off the snake unless it is the
   * fallback cell (0, 0).
   */
  lemma PlaceFoodResult(w: int, h: int, body: seq<Pos>, s: bv32, attempts: nat)
    requires w > 0 && h > 0
    ensures InBounds(w, h, PlaceFoodSpec(w, h, body, s, attempts).food)
    ensures PlaceFoodSpec(w, h, body, s, attempts).food in body
            ==> PlaceFoodSpec(w, h, body, s, attempts).food == Pos(0, 0)
  {
    PlaceFoodPick(w, h, body, s, attempts);
  }

  // ---------------------------------------------------------------------------------------
  // createGameState

  /** The opening snake: three cells leftwards from the centre of the grid. */
  function InitialSnake(w: int, h: int): seq<Pos>
  {
    [Pos(w / 2, h / 2), Pos(w / 2 - 1, h / 2), Pos(w / 2 - 2, h / 2)]
  }

  /** createGameState on a w x h grid with generator word s. */
  function InitSpec(w: int, h: int, s: bv32): Outcome
    requires w > 0 && h > 0
  {
    var snake := InitialSnake(w, h);
    var placed := PlaceFoodSpec(w, h, snake, s, w * h);
    Outcome(State(w, h, snake, Right, Right, placed.food, 0, false), placed.rng)
  }

  /**
   * A new game is a live game with score 0, heading right, and it meets the board
   * invariant exactly when the grid is at least 4 wide (narrower, the tail is off the grid).
   */
  lemma InitBoard(w: int, h: int, s: bv32)
    requires w > 0 && h > 0
    ensures var st := InitSpec(w, h, s).state;
            Live(st) && st.score == 0 && !st.gameOver
            && st.direction == Right && st.pendingDirection == Right
    ensures Board(InitSpec(w, h, s).state) <==> w >= 4
  {
    PlaceFoodResult(w, h, InitialSnake(w, h), s, w * h);
    if w < 4 {
      var st := InitSpec(w, h, s).state;
      assert !InBounds(w, h, st.snake[2]);
    }
  }

  // ---------------------------------------------------------------------------------------
  // setDirection

  /** setDirection(st, key). */
  function SetDirectionSpec(st: State, key: string): State
  {
    match Lookup(key)
    case None => st
    case Some(next) =>
      if IsOpposite(Vector(st.direction), Vector(next)) then st
      else st.(pendingDirection := next)
  }

  /**
   * An unknown key, or the reverse of the current heading (not of the requested one), is
   * ignored; any other key only replaces the requested heading.
   */
  lemma SetDirectionEffect(st: State, key: string)
    ensures Lookup(key).None? ==> SetDirectionSpec(st, key) == st
    ensures Lookup(key) == Some(Opposite(st.direction)) ==> SetDirectionSpec(st, key) == st
    ensures forall d :: Lookup(key) == Some(d) && d != Opposite(st.direction)
                        ==> SetDirectionSpec(st, key) == st.(pendingDirection := d)
  {
    OppositeVectors(st.direction, Opposite(st.direction));
    forall d | Lookup(key) == Some(d) && d != Opposite(st.direction)
      ensures SetDirectionSpec(st, key) == st.(pendingDirection := d)
    {
      OppositeVectors(st.direction, d);
    }
  }

  lemma SetDirectionPreservesBoard(st: State, key: string)
    requires Board(st)
    ensures Board(SetDirectionSpec(st, key))
  {
  }

  // ---------------------------------------------------------------------------------------
  // step

  /** The cell the head moves to on the next step. */
  function NextHead(st: State): Pos
    requires |st.snake| >= 1
  {
    Add(st.snake[0], Vector(st.pendingDirection))
  }

  /** step(st, rng) with generator word s. */
  function StepSpec(st: State, s: bv32): Outcome
    requires Live(st)
  {
    if st.gameOver then Outcome(st, s)
    else
      var turned := st.(direction := st.pendingDirection);
      var next := NextHead(st);
      if !InBounds(st.width, st.height, next) || next in st.snake then
        Outcome(turned.(gameOver := true), s)
      else if next == st.food then
        var grown := [next] + st.snake;
        var placed := PlaceFoodSpec(st.width, st.height, grown, s, st.width * st.height);
        Outcome(turned.(snake := grown, score := st.score + 1, food := placed.food), placed.rng)
      else
        Outcome(turned.(snake := [next] + st.snake[..|st.snake| - 1]), s)
  }

  /** A finished game is frozen: step changes neither the state nor the generator. */
  lemma StepWhenOver(st: State, s: bv32)
    requires Live(st) && st.gameOver
    ensures StepSpec(st, s) == Outcome(st, s)
  {
  }

  /** Game over is final: once a step ends the game every later step is a no-op. */
  lemma StepOverIsFinal(st: State, s: bv32)
    requires Live(st)
    ensures Live(StepSpec(st, s).state)
    ensures st.gameOver ==> StepSpec(st, s).state.gameOver
    ensures StepSpec(st, s).state.gameOver
            ==> StepSpec(StepSpec(st, s).state, StepSpec(st, s).rng) == StepSpec(st, s)
  {
    var r := StepSpec(st, s);
    assert Live(r.state);
    if r.state.gameOver {
      StepWhenOver(r.state, r.rng);
    }
  }

  /**
   * Collision: a live step ends the game exactly when the next head is off the grid or on
   * any current segment (the tail included). It then commits the heading and changes
   * nothing else.
   */
  lemma StepCollision(st: State, s: bv32)
    requires Live(st) && !st.gameOver
    ensures var next := NextHead(st);
            StepSpec(st, s).state.gameOver <==> !InBounds(st.width, st.height, next) || next in st.snake
    ensures var next := NextHead(st);
            !InBounds(st.width, st.height, next) || next in st.snake
            ==> StepSpec(st, s) == Outcome(st.(direction := st.pendingDirection, gameOver := true), s)
  {
  }

  /**
   * A plain move: the new head is the old head plus the heading, every other segment takes
   * the place of the one before it, the last cell is vacated; the length, food, score and
   * generator are unchanged.
   */
  lemma StepMove(st: State, s: bv32)
    requires Live(st) && !st.gameOver
    requires var next := NextHead(st);
             InBounds(st.width, st.height, next) && next !in st.snake && next != st.food
    ensures var r := StepSpec(st, s);
            var n := |st.snake|;
            r.rng == s && !r.state.gameOver
            && r.state.direction == st.pendingDirection
            && |r.state.snake| == n
            && r.state.snake[0] == Add(st.snake[0], Vector(st.pendingDirection))
            && (forall i :: 1 <= i < n ==> r.state.snake[i] == st.snake[i - 1])
            && r.state == st.(direction := st.pendingDirection, snake := r.state.snake)
  {
  }

  /**
   * An eating move: the snake grows by the new head and keeps its whole old body, the score
   * goes up by exactly one, and the new food is what placeFood picks for the grown snake,
   * so it is on the grid and off the snake unless it is the fallback cell.
   */
  lemma StepEat(st: State, s: bv32)
    requires Live(st) && !st.gameOver
    requires var next := NextHead(st);
             InBounds(st.width, st.height, next) && next !in st.snake && next == st.food
    ensures var r := StepSpec(st, s);
            var grown := [NextHead(st)] + st.snake;
            var placed := PlaceFoodSpec(st.width, st.height, grown, s, st.width * st.height);
            !r.state.gameOver
            && r.state.snake == grown
            && |r.state.snake| == |st.snake| + 1
            && r.state.score == st.score + 1
            && r.state.food == placed.food && r.rng == placed.rng
            && InBounds(st.width, st.height, r.state.food)
            && (r.state.food in grown ==> r.state.food == Pos(0, 0))
            && r.state == st.(direction := st.pendingDirection, snake := grown,
                              score := st.score + 1, food := placed.food)
  {
    var grown := [NextHead(st)] + st.snake;
    PlaceFoodResult(st.width, st.height, grown, s, st.width * st.height);
  }

  /**
   * The tail counts as a collision even though a plain move would vacate it: heading into
   * the cell of the last segment ends the game and leaves the snake where it was.
   */
  lemma TailCollides(st: State, s: bv32)
    requires Live(st) && !st.gameOver
    requires NextHead(st) == st.snake[|st.snake| - 1]
    ensures StepSpec(st, s).state.gameOver
    ensures StepSpec(st, s).state.snake == st.snake
  {
    assert NextHead(st) in st.snake;
  }

  /** step keeps the board invariant. */
  lemma StepPreservesBoard(st: State, s: bv32)
    requires Board(st)
    ensures Board(StepSpec(st, s).state)
  {
    OppositeVectors(st.pendingDirection, st.pendingDirection);
    if !st.gameOver {
      var next := NextHead(st);
      if InBounds(st.width, st.height, next) && next !in st.snake {
        if next == st.food {
          EatPreservesBoard(st, s);
        } else {
          MovePreservesBoard(st, s);
        }
      }
    }
  }

  lemma MovePreservesBoard(st: State, s: bv32)
    requires Board(st) && !st.gameOver
    requires var next := NextHead(st);
             InBounds(st.width, st.height, next) && next !in st.snake && next != st.food
    ensures Board(StepSpec(st, s).state)
  {
    var next := NextHead(st);
    var body := st.snake[..|st.snake| - 1];
    StepMove(st, s);
    assert StepSpec(st, s).state.snake == [next] + body;
    assert Board(StepSpec(st, s).state) by {
      PrefixOnBoard(st.width, st.height, st.snake, |st.snake| - 1);
      ConsOnBoard(st.width, st.height, next, body);
      DistinctCons(next, body);
      assert st.food in [next] + body ==> st.food in st.snake;
      OppositeVectors(st.pendingDirection, st.pendingDirection);
    }
  }

  /** A prefix of a repeat-free sequence of grid cells is one too. */
  lemma PrefixOnBoard(w: int, h: int, s: seq<Pos>, n: nat)
    requires n <= |s|
    requires forall i :: 0 <= i < |s| ==> InBounds(w, h, s[i])
    requires Distinct(s)
    ensures forall i :: 0 <= i < n ==> InBounds(w, h, s[..n][i])
    ensures Distinct(s[..n])
    ensures forall p :: p in s[..n] ==> p in s
  {
    assert forall i :: 0 <= i < n ==> s[..n][i] == s[i];
  }

  lemma EatPreservesBoard(st: State, s: bv32)
    requires Board(st) && !st.gameOver
    requires var next := NextHead(st);
             InBounds(st.width, st.height, next) && next !in st.snake && next == st.food
    ensures Board(StepSpec(st, s).state)
  {
    var next := NextHead(st);
    StepEat(st, s);
    ConsOnBoard(st.width, st.height, next, st.snake);
    DistinctCons(next, st.snake);
    OppositeVectors(st.pendingDirection, st.pendingDirection);
  }

  /** Putting a cell of the grid in front of cells of the grid gives cells of the grid. */
  lemma ConsOnBoard(w: int, h: int, p: Pos, s: seq<Pos>)
    requires InBounds(w, h, p)
    requires forall i :: 0 <= i < |s| ==> InBounds(w, h, s[i])
    ensures forall i :: 0 <= i < |[p] + s| ==> InBounds(w, h, ([p] + s)[i])
  {
    forall i | 0 < i < |[p] + s|
      ensures InBounds(w, h, ([p] + s)[i])
    {
      assert ([p] + s)[i] == s[i - 1];
    }
  }

  /** Putting a new cell in front of a sequence without repeats gives none either. */
  lemma DistinctCons(p: Pos, s: seq<Pos>)
    requires Distinct(s) && p !in s
    ensures Distinct([p] + s)
  {
    var t := [p] + s;
    forall i, j | 0 <= i < j < |t|
      ensures t[i] != t[j]
    {
      if i == 0 {
        assert t[j] == s[j - 1];
      } else {
        assert t[i] == s[i - 1] && t[j] == s[j - 1];
      }
    }
  }

  /**
   * A request to reverse has no effect on the next step: the heading the step takes is the
   * one that was already requested (tests/snakeLogic.test.js:22-28 with direction and
   * request both right).
   */
  lemma ReversalIgnoredByStep(st: State, s: bv32)
    requires Live(st) && !st.gameOver
    ensures StepSpec(SetDirectionSpec(st, Key(Opposite(st.direction))), s).state.direction
            == st.pendingDirection
  {
    LookupKey(Opposite(st.direction));
    SetDirectionEffect(st, Key(Opposite(st.direction)));
    assert SetDirectionSpec(st, Key(Opposite(st.direction))) == st;
    StepCommitsHeading(st, s);
  }

  /** A live step always takes the requested heading, and keeps it as the requested one. */
  lemma StepCommitsHeading(st: State, s: bv32)
    requires Live(st) && !st.gameOver
    ensures StepSpec(st, s).state.direction == st.pendingDirection
    ensures StepSpec(st, s).state.pendingDirection == st.pendingDirection
  {
  }

  // ---------------------------------------------------------------------------------------
  // The state object

  /** A game state object; the operations update its fields in place. */
  class Game {
    const width: int
    const height: int
    var snake: seq<Pos>
    var direction: Dir
    var pendingDirection: Dir
    var food: Pos
    var score: int
    var gameOver: bool

    ghost predicate Valid()
      reads this
    {
      Live(Snapshot())
    }

    /** snapshot: a copy of every field, as an immutable value. */
    function Snapshot(): (v: State)
      reads this
      ensures v.width == width && v.height == height && v.snake == snake
      ensures v.direction == direction && v.pendingDirection == pendingDirection
      ensures v.food == food && v.score == score && v.gameOver == gameOver
    {
      State(width, height, snake, direction, pendingDirection, food, score, gameOver)
    }

    /** createGameState({ gridWidth: w, gridHeight: h, rng }). */
    constructor (w: int, h: int, rng: Rng)
      requires w > 0 && h > 0
      modifies rng
      ensures Valid()
      ensures Snapshot() == InitSpec(w, h, old(rng.s)).state
      ensures rng.s == InitSpec(w, h, old(rng.s)).rng
    {
      width, height := w, h;
      var startX := w / 2;
      var startY := h / 2;
      snake := [Pos(startX, startY), Pos(startX - 1, startY), Pos(startX - 2, startY)];
      direction, pendingDirection := Right, Right;
      food := Pos(0, 0);
      score, gameOver := 0, false;
      new;
      food := PlaceFood(rng);
    }

    /** placeFood(this, rng): up to width * height attempts, then the fallback (0, 0). */
    method PlaceFood(rng: Rng) returns (p: Pos)
      requires width > 0 && height > 0
      modifies rng
      ensures p == PlaceFoodSpec(width, height, snake, old(rng.s), width * height).food
      ensures rng.s == PlaceFoodSpec(width, height, snake, old(rng.s), width * height).rng
    {
      var attempts := width * height;
      while attempts > 0
        invariant attempts >= 0
        invariant PlaceFoodSpec(width, height, snake, rng.s, attempts)
                  == PlaceFoodSpec(width, height, snake, old(rng.s), width * height)
        decreases attempts
      {
        ghost var s0 := rng.s;
        var u := rng.Next();
        var x := Scaled(u, width);
        var v := rng.Next();
        var y := Scaled(v, height);
        var candidate := Pos(x, y);
        assert candidate == Candidate(width, height, s0);
        var collision := false;
        var i := 0;
        while i < |snake|
          invariant 0 <= i <= |snake|
          invariant forall j :: 0 <= j < i ==> snake[j] != candidate
        {
          if SamePos(candidate, snake[i]) {
            collision := true;
            break;
          }
          i := i + 1;
        }
        if !collision {
          return candidate;
        }
        attempts := attempts - 1;
      }
      return Pos(0, 0);
    }

    /** setDirection(this, key). */
    method SetDirection(key: string)
      modifies this`pendingDirection
      ensures Snapshot() == SetDirectionSpec(old(Snapshot()), key)
    {
      var next := Lookup(key);
      if next.None? || IsOpposite(Vector(direction), Vector(next.value)) {
        return;
      }
      pendingDirection := next.value;
    }

    /** step(this, rng). */
    method Step(rng: Rng)
      requires Valid()
      modifies this, rng
      ensures Valid()
      ensures Snapshot() == StepSpec(old(Snapshot()), old(rng.s)).state
      ensures rng.s == StepSpec(old(Snapshot()), old(rng.s)).rng
    {
      ghost var st := Snapshot();
      ghost var s := rng.s;
      if gameOver {
        return;
      }
      direction := pendingDirection;
      var head := snake[0];
      var v := Vector(direction);
      var nextHead := Pos(head.x + v.x, head.y + v.y);
      assert nextHead == NextHead(st);
      if nextHead.x < 0 || nextHead.x >= width || nextHead.y < 0 || nextHead.y >= height {
        gameOver := true;
        assert Snapshot() == StepSpec(st, s).state;
        return;
      }
      var i := 0;
      while i < |snake|
        invariant 0 <= i <= |snake|
        invariant forall j :: 0 <= j < i ==> snake[j] != nextHead
        invariant Snapshot() == st.(direction := st.pendingDirection) && rng.s == s
      {
        if SamePos(nextHead, snake[i]) {
          gameOver := true;
          assert nextHead in st.snake;
          assert Snapshot() == StepSpec(st, s).state;
          return;
        }
        i := i + 1;
      }
      assert nextHead !in st.snake;
      var ateFood := SamePos(nextHead, food);
      snake := [nextHead] + snake;
      if !ateFood {
        snake := snake[..|snake| - 1];
      } else {
        score := score + 1;
        food := PlaceFood(rng);
      }
    }
  }

  // ---------------------------------------------------------------------------------------
  // Clients

  /**
   * The opening move (tests/snakeLogic.test.js:13-20, there on a 10 x 10 grid): a new game's
   * head starts at the centre (w / 2, h / 2) and one step takes it one cell right, whatever
   * the seed, with score 0 or, if the food lay there, 1.
   */
  method OpeningMove(w: int, h: int, seed: int) returns (head: Pos, score: int)
    requires w >= 3 && h > 0
    ensures head == Pos(w / 2 + 1, h / 2)
    ensures 0 <= score <= 1
  {
    var rng := new Rng(seed);
    var game := new Game(w, h, rng);
    ghost var st := game.Snapshot();
    assert st.snake == InitialSnake(w, h);
    ghost var s := rng.s;
    game.Step(rng);
    assert NextHead(st) == Pos(w / 2 + 1, h / 2);
    StepFirstCell(st, s);
    head := game.snake[0];
    score := game.score;
  }

  /**
   * Asking a new game to turn left, against its heading right, is ignored, and the next
   * step still heads right (tests/snakeLogic.test.js:22-28, there on a 10 x 10 grid).
   */
  method ReverseBlocked(w: int, h: int, seed: int) returns (heading: Dir)
    requires w > 0 && h > 0
    ensures heading == Right
  {
    var rng := new Rng(seed);
    var game := new Game(w, h, rng);
    ghost var st := game.Snapshot();
    assert st.direction == Right && !st.gameOver;
    LookupKey(Left);
    SetDirectionEffect(st, Key(Left));
    game.SetDirection(Key(Left));
    assert game.Snapshot() == st;
    ghost var s := rng.s;
    game.Step(rng);
    StepCommitsHeading(st, s);
    heading := game.direction;
  }

  /**
   * snapshot (src/snakeLogic.js:141-152) returns a copy that later steps do not reach: the
   * value taken before a step still holds the old state, while the object moves on to
   * StepSpec of that value.
   */
  method SnapshotSurvivesStep(g: Game, rng: Rng) returns (v: State)
    requires g.Valid()
    modifies g, rng
    ensures v == old(g.Snapshot())
    ensures g.Snapshot() == StepSpec(v, old(rng.s)).state
  {
    v := g.Snapshot();
    g.Step(rng);
  }

  /** The same for setDirection: the copy keeps the old requested heading. */
  method SnapshotSurvivesSetDirection(g: Game, key: string) returns (v: State)
    modifies g
    ensures v == old(g.Snapshot())
    ensures v.pendingDirection == old(g.pendingDirection)
    ensures g.Snapshot() == SetDirectionSpec(v, key)
  {
    v := g.Snapshot();
    g.SetDirection(key);
  }

  /** A live step that does not collide puts the next head in front and adds at most 1 to the score. */
  lemma StepFirstCell(st: State, s: bv32)
    requires Live(st) && !st.gameOver
    requires InBounds(st.width, st.height, NextHead(st)) && NextHead(st) !in st.snake
    ensures StepSpec(st, s).state.snake[0] == NextHead(st)
    ensures st.score <= StepSpec(st, s).state.score <= st.score + 1
  {
  }
}
