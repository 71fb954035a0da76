/**
 * HyperMines (labs/lab3/lab.py): minesweeper on a board with any number of
 * dimensions. The board holds, for every square, either a bomb or the number
 * of bombs among its neighbours; the mask says which squares are shown; the
 * game is ongoing until a bomb is shown (defeat) or every safe square is
 * shown (victory).
 */
module HyperMines {
  import opened HyperCoords

  datatype Square = Bomb | Safe(count: nat)

  datatype GameState = Ongoing | Defeat | Victory

  /** The dictionary `from_dict` reads its four attributes from. */
  datatype GameDict = GameDict(dimensions: seq<nat>, board: Grid<Square>, state: GameState, mask: Grid<bool>)

  // ---------------------------------------------------------------------
  // The board built at the start of a game
  // ---------------------------------------------------------------------

  /** How many of the coordinates `ns` are in the bomb list. */
  function CountIn(ns: seq<seq<int>>, bombs: seq<seq<int>>): nat {
    if ns == [] then 0 else (if ns[0] in bombs then 1 else 0) + CountIn(ns[1..], bombs)
  }

  /** How many of the coordinates `ns` hold a bomb on the board. */
  function CountBombs(board: Grid<Square>, ns: seq<seq<int>>): nat {
    if ns == [] then 0
    else (if Fits(board, ns[0]) && Get(board, ns[0]) == Bomb then 1 else 0) + CountBombs(board, ns[1..])
  }

  /** The square a new game puts at `c`. */
  function InitialSquare(dims: seq<nat>, bombs: seq<seq<int>>, c: seq<int>): Square {
    if c in bombs then Bomb else Safe(CountIn(Neighbors(dims, c), bombs))
  }

  function InitialBoard(dims: seq<nat>, bombs: seq<seq<int>>): (r: Grid<Square>)
    ensures Shaped(r, dims)
    ensures forall c {:trigger Fits(r, c)} :: InBounds(dims, c) ==> Fits(r, c) && Get(r, c) == InitialSquare(dims, bombs, c)
  {
    TabulateAll(dims, c => InitialSquare(dims, bombs, c));
    Tabulate(dims, c => InitialSquare(dims, bombs, c), [])
  }

  /** Every safe square's number is the count of bombs among its neighbours. */
  ghost predicate Consistent(board: Grid<Square>, dims: seq<nat>) {
    Shaped(board, dims) &&
    forall c :: Fits(board, c) && Get(board, c).Safe? ==> Get(board, c).count == CountBombs(board, Neighbors(dims, c))
  }

  lemma {:induction false} CountAgree(board: Grid<Square>, ns: seq<seq<int>>, bombs: seq<seq<int>>)
    requires forall n :: n in ns ==> (Fits(board, n) && Get(board, n) == Bomb <==> n in bombs)
    ensures CountBombs(board, ns) == CountIn(ns, bombs)
  {
    if ns != [] {
      assert ns[0] in ns;
      assert forall n :: n in ns[1..] ==> n in ns;
      CountAgree(board, ns[1..], bombs);
    }
  }

  /**
   * A new game's board has a bomb exactly at the listed coordinates, and
   * every other square counts its bombed neighbours.
   */
  lemma InitialBoardConsistent(dims: seq<nat>, bombs: seq<seq<int>>)
    requires forall b :: b in bombs ==> InBounds(dims, b)
    ensures Consistent(InitialBoard(dims, bombs), dims)
    ensures forall c :: Fits(InitialBoard(dims, bombs), c) ==> (Get(InitialBoard(dims, bombs), c) == Bomb <==> c in bombs)
    ensures forall b :: b in bombs ==> Fits(InitialBoard(dims, bombs), b) && Get(InitialBoard(dims, bombs), b) == Bomb
  {
    var board := InitialBoard(dims, bombs);
    forall c | Fits(board, c) ensures InBounds(dims, c) {
      ShapedFits(board, dims, c);
    }
    forall c | Fits(board, c) && Get(board, c).Safe?
      ensures Get(board, c).count == CountBombs(board, Neighbors(dims, c))
    {
      CountAgree(board, Neighbors(dims, c), bombs);
    }
  }

  /** Bombs among the neighbours make the count positive. */
  lemma {:induction false} CountBombsMember(board: Grid<Square>, ns: seq<seq<int>>, d: seq<int>)
    requires d in ns && Fits(board, d) && Get(board, d) == Bomb
    ensures CountBombs(board, ns) > 0
  {
    if ns[0] != d {
      CountBombsMember(board, ns[1..], d);
    }
  }

  // ---------------------------------------------------------------------
  // What the mask shows
  // ---------------------------------------------------------------------

  predicate Revealed(mask: Grid<bool>, c: seq<int>) {
    Fits(mask, c) && Get(mask, c)
  }

  /** A safe square with no bombs among its neighbours. */
  predicate Blank(board: Grid<Square>, c: seq<int>) {
    Fits(board, c) && Get(board, c) == Safe(0)
  }

  /** Every safe square is shown. */
  ghost predicate AllSafeShown(board: Grid<Square>, mask: Grid<bool>) {
    forall c :: Fits(board, c) && Fits(mask, c) && Get(board, c) != Bomb ==> Get(mask, c)
  }

  /** Some bomb is shown. */
  ghost predicate SomeBombShown(board: Grid<Square>, mask: Grid<bool>) {
    exists c :: Fits(board, c) && Get(board, c) == Bomb && Revealed(mask, c)
  }

  /** Whether every square may be shown, with the same shape for board and mask. */
  function SafeSquaresShown(board: Grid<Square>, mask: Grid<bool>, dims: seq<nat>): (r: bool)
    requires Shaped(board, dims) && Shaped(mask, dims)
    ensures r <==> AllSafeShown(board, mask)
    decreases |dims|
  {
    if dims == [] then
      CellFits(board); CellFits(mask);
      assert Fits(board, []) && Fits(mask, []);
      board.value != Bomb ==> mask.value
    else
      RowFits(board); RowFits(mask);
      forall i :: 0 <= i < dims[0] ==> SafeSquaresShown(board.items[i], mask.items[i], dims[1..])
  }

  /** Whether some bomb is shown. */
  function BombsShown(board: Grid<Square>, mask: Grid<bool>, dims: seq<nat>): (r: bool)
    requires Shaped(board, dims) && Shaped(mask, dims)
    ensures r <==> SomeBombShown(board, mask)
    decreases |dims|
  {
    if dims == [] then
      CellFits(board); CellFits(mask);
      assert Fits(board, []) && Fits(mask, []);
      board.value == Bomb && mask.value
    else
      RowFits(board); RowFits(mask);
      exists i :: 0 <= i < dims[0] && BombsShown(board.items[i], mask.items[i], dims[1..])
  }

  /** The only coordinate of a single square is the empty one. */
  lemma CellFits<T>(g: Grid<T>)
    requires g.Cell?
    ensures forall c :: Fits(g, c) <==> c == []
    ensures forall c :: Fits(g, c) ==> Get(g, c) == g.value
  {
  }

  /** The coordinates of a list are an index followed by a coordinate of that item. */
  lemma RowFits<T>(g: Grid<T>)
    requires g.Row?
    ensures forall c :: Fits(g, c) <==> |c| > 0 && 0 <= c[0] < |g.items| && Fits(g.items[c[0]], c[1..])
    ensures forall c :: Fits(g, c) ==> Get(g, c) == Get(g.items[c[0]], c[1..])
    ensures forall i, c :: 0 <= i < |g.items| && Fits(g.items[i], c) ==> Fits(g, [i] + c) && Get(g, [i] + c) == Get(g.items[i], c)
  {
    forall i, c | 0 <= i < |g.items| && Fits(g.items[i], c)
      ensures Fits(g, [i] + c) && Get(g, [i] + c) == Get(g.items[i], c)
    {
      assert ([i] + c)[1..] == c;
    }
  }

  /** The game's state after a dig, from what the mask shows. */
  function Outcome(board: Grid<Square>, mask: Grid<bool>, dims: seq<nat>): (r: GameState)
    requires Shaped(board, dims) && Shaped(mask, dims)
    ensures r == Defeat <==> SomeBombShown(board, mask)
    ensures r == Victory <==> !SomeBombShown(board, mask) && AllSafeShown(board, mask)
  {
    if BombsShown(board, mask, dims) then Defeat
    else if SafeSquaresShown(board, mask, dims) then Victory
    else Ongoing
  }

  // ---------------------------------------------------------------------
  // Digging
  // ---------------------------------------------------------------------

  /** Shown in `m1` but not in `m0`. */
  ghost predicate Newly(m0: Grid<bool>, m1: Grid<bool>, d: seq<int>) {
    Revealed(m1, d) && !Revealed(m0, d)
  }

  /** Nothing shown in `m0` is hidden in `m1`. */
  ghost predicate Grows(m0: Grid<bool>, m1: Grid<bool>) {
    forall d :: Revealed(m0, d) ==> Revealed(m1, d)
  }

  /** Squares `ns[..i]` shown in `m0` stay shown in `m1`, a mask that grows from it and also shows `ns[i]`. */
  lemma GrowsKeeps(m0: Grid<bool>, m1: Grid<bool>, ns: seq<seq<int>>, i: nat)
    requires Grows(m0, m1) && i < |ns| && Revealed(m1, ns[i])
    requires forall j :: 0 <= j < i ==> Revealed(m0, ns[j])
    ensures forall j :: 0 <= j < i + 1 ==> Revealed(m1, ns[j])
  {
  }

  /**
   * What a dig at `c` leaves behind, from mask `m0` to mask `m1`: `c` is
   * shown, nothing shown before is hidden, every newly shown blank square has
   * all its neighbours shown, every newly shown square other than `c` is
   * the neighbour of a newly shown blank square, and nothing more is shown
   * than those rules force.
   */
  ghost predicate FloodFilled(dims: seq<nat>, board: Grid<Square>, m0: Grid<bool>, m1: Grid<bool>, c: seq<int>) {
    Revealed(m1, c) && Grows(m0, m1) && Closed(dims, board, m0, m1) && Supported(dims, board, m0, m1, c) &&
    Least(dims, board, m0, m1, c)
  }

  /**
   * Every mask that keeps what `m0` shows, shows `c` and shows the
   * neighbours of each newly shown blank square, shows all that `m1` shows.
   */
  ghost predicate Least(dims: seq<nat>, board: Grid<Square>, m0: Grid<bool>, m1: Grid<bool>, c: seq<int>) {
    forall m :: Grows(m0, m) && Revealed(m, c) && Closed(dims, board, m0, m) ==> Grows(m1, m)
  }

  /** Every newly shown blank square has its neighbours shown. */
  ghost predicate Closed(dims: seq<nat>, board: Grid<Square>, m0: Grid<bool>, m1: Grid<bool>) {
    forall d :: Newly(m0, m1, d) && Blank(board, d) ==> NeighborsShown(dims, m1, d)
  }

  ghost predicate NeighborsShown(dims: seq<nat>, m: Grid<bool>, d: seq<int>) {
    forall n :: n in Neighbors(dims, d) ==> Revealed(m, n)
  }

  /** Every newly shown blank square other than `c` has its neighbours shown. */
  ghost predicate ClosedBut(dims: seq<nat>, board: Grid<Square>, m0: Grid<bool>, m1: Grid<bool>, c: seq<int>) {
    forall d :: Newly(m0, m1, d) && Blank(board, d) && d != c ==> NeighborsShown(dims, m1, d)
  }

  /** Every newly shown square other than `c` neighbours a newly shown blank square. */
  ghost predicate Supported(dims: seq<nat>, board: Grid<Square>, m0: Grid<bool>, m1: Grid<bool>, c: seq<int>) {
    forall d {:trigger Newly(m0, m1, d)} :: Newly(m0, m1, d) && d != c ==>
      exists u :: Revealed(m1, u) && !Revealed(m0, u) && Blank(board, u) && d in Neighbors(dims, u)
  }

  /**
   * A dig from the blank square `c` part way through its neighbours: `c` is newly shown, and the
   * squares shown so far obey every rule of a finished dig except that `c` may still have hidden neighbours.
   */
  ghost predicate Digging(dims: seq<nat>, board: Grid<Square>, m0: Grid<bool>, m1: Grid<bool>, c: seq<int>) {
    Grows(m0, m1) && Newly(m0, m1, c) && Blank(board, c) &&
    ClosedBut(dims, board, m0, m1, c) && Supported(dims, board, m0, m1, c) && Least(dims, board, m0, m1, c)
  }

  /** Showing the hidden square `c` alone. */
  lemma FloodStart(dims: seq<nat>, board: Grid<Square>, m0: Grid<bool>, c: seq<int>)
    requires Shaped(m0, dims) && Fits(m0, c) && !Get(m0, c)
    ensures Shaped(Set(m0, c, true), dims)
    ensures Grows(m0, Set(m0, c, true)) && Newly(m0, Set(m0, c, true), c)
    ensures ClosedBut(dims, board, m0, Set(m0, c, true), c) && Supported(dims, board, m0, Set(m0, c, true), c)
    ensures Least(dims, board, m0, Set(m0, c, true), c)
    ensures !Blank(board, c) ==> FloodFilled(dims, board, m0, Set(m0, c, true), c)
  {
    ShowOne(m0, dims, c);
  }

  /** Digging the neighbour `n` of the newly shown blank square `c`. */
  lemma FloodStep(dims: seq<nat>, board: Grid<Square>, m0: Grid<bool>, m1: Grid<bool>, m2: Grid<bool>, c: seq<int>, n: seq<int>)
    requires Grows(m0, m1) && Newly(m0, m1, c) && Blank(board, c) && n in Neighbors(dims, c)
    requires ClosedBut(dims, board, m0, m1, c) && Supported(dims, board, m0, m1, c)
    requires FloodFilled(dims, board, m1, m2, n)
    ensures Grows(m0, m2) && Newly(m0, m2, c) && Revealed(m2, n)
    ensures ClosedBut(dims, board, m0, m2, c) && Supported(dims, board, m0, m2, c)
  {
    forall d | Newly(m0, m2, d) && Blank(board, d) && d != c ensures NeighborsShown(dims, m2, d) {
      if !Newly(m1, m2, d) {
        assert NeighborsShown(dims, m1, d);
      }
    }
    forall d | Newly(m0, m2, d) && d != c
      ensures exists u :: Revealed(m2, u) && !Revealed(m0, u) && Blank(board, u) && d in Neighbors(dims, u)
    {
      if !Newly(m1, m2, d) {
        assert Newly(m0, m1, d);
        var u :| Revealed(m1, u) && !Revealed(m0, u) && Blank(board, u) && d in Neighbors(dims, u);
        assert Newly(m0, m2, u);
      } else if d == n {
        assert Newly(m0, m2, c) && Blank(board, c) && d in Neighbors(dims, c);
      } else {
        assert Newly(m1, m2, d) && d != n;
        var u :| Revealed(m2, u) && !Revealed(m1, u) && Blank(board, u) && d in Neighbors(dims, u);
        assert Newly(m0, m2, u);
      }
    }
  }

  /**
   * Digging the neighbour `n` of the newly shown blank square `c` adds only
   * squares that every closed mask showing `c` shows too.
   */
  lemma FloodStepLeast(dims: seq<nat>, board: Grid<Square>, m0: Grid<bool>, m1: Grid<bool>, m2: Grid<bool>, c: seq<int>, n: seq<int>)
    requires Grows(m0, m1) && Newly(m0, m1, c) && Blank(board, c) && n in Neighbors(dims, c)
    requires Least(dims, board, m0, m1, c) && Least(dims, board, m1, m2, n)
    ensures Least(dims, board, m0, m2, c)
  {
    forall m | Grows(m0, m) && Revealed(m, c) && Closed(dims, board, m0, m) ensures Grows(m2, m) {
      assert Grows(m1, m);
      assert Newly(m0, m, c) && NeighborsShown(dims, m, c);
      assert Closed(dims, board, m1, m) by {
        forall d | Newly(m1, m, d) && Blank(board, d) ensures NeighborsShown(dims, m, d) {
          assert Newly(m0, m, d);
        }
      }
    }
  }

  /** Once every neighbour of the blank square `c` is shown, the flood from `c` is complete. */
  lemma FloodFinish(dims: seq<nat>, board: Grid<Square>, m0: Grid<bool>, m1: Grid<bool>, c: seq<int>)
    requires Grows(m0, m1) && Newly(m0, m1, c) && NeighborsShown(dims, m1, c)
    requires ClosedBut(dims, board, m0, m1, c) && Supported(dims, board, m0, m1, c)
    requires Least(dims, board, m0, m1, c)
    ensures FloodFilled(dims, board, m0, m1, c)
  {
  }

  /** A dig leaves one mask only: two complete digs at `c` from the same mask agree. */
  lemma FloodUnique(dims: seq<nat>, board: Grid<Square>, m0: Grid<bool>, m1: Grid<bool>, m2: Grid<bool>, c: seq<int>)
    requires Shaped(m1, dims) && Shaped(m2, dims)
    requires FloodFilled(dims, board, m0, m1, c) && FloodFilled(dims, board, m0, m2, c)
    ensures m1 == m2
  {
    assert Grows(m1, m2) && Grows(m2, m1);
    forall d | Fits(m1, d) ensures Fits(m2, d) && Get(m1, d) == Get(m2, d) {
      ShapedFits(m1, dims, d);
      ShapedFits(m2, dims, d);
      assert Revealed(m1, d) <==> Revealed(m2, d);
    }
    GridExt(m1, m2, dims);
  }

  /** The number of hidden squares. */
  function Hidden(mask: Grid<bool>): nat {
    match mask
    case Cell(shown) => if shown then 0 else 1
    case Row(items) => Sum(seq(|items|, i requires 0 <= i < |items| => Hidden(items[i])))
  }

  function Sum(s: seq<nat>): nat {
    if s == [] then 0 else s[0] + Sum(s[1..])
  }

  lemma {:induction false} SumUpdate(s: seq<nat>, j: nat, x: nat)
    requires j < |s|
    ensures Sum(s[j := x]) == Sum(s) - s[j] + x
  {
    if j > 0 {
      SumUpdate(s[1..], j - 1, x);
      assert s[j := x][1..] == s[1..][j - 1 := x];
    }
  }

  /** Showing one hidden square leaves one fewer hidden. */
  lemma {:induction false} HiddenSet(mask: Grid<bool>, c: seq<int>)
    requires Fits(mask, c) && !Get(mask, c)
    ensures Hidden(Set(mask, c, true)) == Hidden(mask) - 1
    decreases |c|
  {
    if c != [] {
      var items, j := mask.items, c[0];
      var sub := Set(items[j], c[1..], true);
      HiddenSet(items[j], c[1..]);
      var s := seq(|items|, i requires 0 <= i < |items| => Hidden(items[i]));
      var items' := items[j := sub];
      assert seq(|items'|, i requires 0 <= i < |items'| => Hidden(items'[i])) == s[j := Hidden(sub)];
      SumUpdate(s, j, Hidden(sub));
    }
  }

  /** The mask after showing `c`: `c` is now shown and nothing else changed. */
  lemma ShowOne(mask: Grid<bool>, dims: seq<nat>, c: seq<int>)
    requires Shaped(mask, dims) && Fits(mask, c)
    ensures Shaped(Set(mask, c, true), dims)
    ensures forall d :: Revealed(Set(mask, c, true), d) <==> Revealed(mask, d) || d == c
  {
    SetShaped(mask, dims, c, true);
    forall d ensures Revealed(Set(mask, c, true), d) <==> Revealed(mask, d) || d == c {
      SetFits(mask, c, true, d);
      if Fits(mask, d) {
        GetSet(mask, c, true, d);
      }
    }
  }

  /** On a consistent board, a dig shows no bomb except possibly at the square dug. */
  lemma FloodAvoidsBombs(dims: seq<nat>, board: Grid<Square>, m0: Grid<bool>, m1: Grid<bool>, c: seq<int>, d: seq<int>)
    requires Consistent(board, dims) && FloodFilled(dims, board, m0, m1, c)
    requires Newly(m0, m1, d) && d != c
    ensures Fits(board, d) && Get(board, d) != Bomb
  {
    var u :| Revealed(m1, u) && !Revealed(m0, u) && Blank(board, u) && d in Neighbors(dims, u);
    ShapedFits(board, dims, d);
    if Get(board, d) == Bomb {
      CountBombsMember(board, Neighbors(dims, u), d);
    }
  }

  /** Digging a safe square of a consistent board where no bomb is shown shows no bomb. */
  lemma DigSafeShowsNoBomb(dims: seq<nat>, board: Grid<Square>, m0: Grid<bool>, m1: Grid<bool>, c: seq<int>)
    requires Consistent(board, dims) && FloodFilled(dims, board, m0, m1, c)
    requires Fits(board, c) && Get(board, c) != Bomb && !SomeBombShown(board, m0)
    ensures !SomeBombShown(board, m1)
  {
    forall d | Fits(board, d) && Get(board, d) == Bomb && Revealed(m1, d) ensures false {
      assert !Revealed(m0, d);
      FloodAvoidsBombs(dims, board, m0, m1, c, d);
    }
  }

  // ---------------------------------------------------------------------
  // Rendering
  // ---------------------------------------------------------------------

  function DigitChar(n: nat): char
    requires n < 10
  {
    "0123456789"[n]
  }

  predicate IsDigit(ch: char) {
    '0' <= ch <= '9'
  }

  /** The value of a string of decimal digits. */
  function DecimalValue(s: seq<char>): nat
    requires forall i :: 0 <= i < |s| ==> IsDigit(s[i])
  {
    if s == [] then 0
    else
      assert IsDigit(s[|s| - 1]);
      10 * DecimalValue(s[..|s| - 1]) + (s[|s| - 1] as int - '0' as int) as nat
  }

  /** `str(n)`: the decimal digits of `n`, with no leading zero. */
  function DecimalString(n: nat): (r: seq<char>)
    ensures |r| > 0 && forall i :: 0 <= i < |r| ==> IsDigit(r[i])
    ensures |r| > 1 ==> r[0] != '0'
    ensures DecimalValue(r) == n
  {
    if n < 10 then [DigitChar(n)]
    else
      var r := DecimalString(n / 10) + [DigitChar(n % 10)];
      assert r[..|r| - 1] == DecimalString(n / 10);
      r
  }

  /** How `render` draws one square. */
  function Symbol(square: Square, shown: bool, xray: bool): (r: seq<char>)
    ensures r == "_" <==> !shown && !xray
    ensures (shown || xray) ==> (r == "." <==> square == Bomb)
    ensures (shown || xray) ==> (r == " " <==> square == Safe(0))
    ensures (shown || xray) && square.Safe? && square.count > 0 ==>
      |r| > 0 && (forall i :: 0 <= i < |r| ==> IsDigit(r[i])) && DecimalValue(r) == square.count
  {
    if !shown && !xray then "_"
    else match square
      case Bomb => "."
      case Safe(n) => if n == 0 then " " else
          var s := DecimalString(n);
          assert IsDigit(s[0]);
          s
  }

  /** The drawing of every square, nested like the board. */
  function RenderGrid(board: Grid<Square>, mask: Grid<bool>, dims: seq<nat>, xray: bool): Grid<seq<char>>
    requires Shaped(board, dims) && Shaped(mask, dims)
    decreases |dims|
  {
    if dims == [] then Cell(Symbol(board.value, mask.value, xray))
    else Row(seq(dims[0], i requires 0 <= i < dims[0] => RenderGrid(board.items[i], mask.items[i], dims[1..], xray)))
  }

  lemma {:induction false} RenderGridShaped(board: Grid<Square>, mask: Grid<bool>, dims: seq<nat>, xray: bool)
    requires Shaped(board, dims) && Shaped(mask, dims)
    ensures Shaped(RenderGrid(board, mask, dims, xray), dims)
    decreases |dims|
  {
    if dims != [] {
      forall i | 0 <= i < dims[0] ensures Shaped(RenderGrid(board.items[i], mask.items[i], dims[1..], xray), dims[1..]) {
        RenderGridShaped(board.items[i], mask.items[i], dims[1..], xray);
      }
    }
  }

  lemma {:induction false} RenderGridGet(board: Grid<Square>, mask: Grid<bool>, dims: seq<nat>, xray: bool, c: seq<int>)
    requires Shaped(board, dims) && Shaped(mask, dims) && Fits(board, c)
    ensures Fits(mask, c) && Fits(RenderGrid(board, mask, dims, xray), c)
    ensures Get(RenderGrid(board, mask, dims, xray), c) == Symbol(Get(board, c), Get(mask, c), xray)
    decreases |dims|
  {
    ShapedFits(board, dims, c);
    ShapedFits(mask, dims, c);
    RenderGridShaped(board, mask, dims, xray);
    ShapedFits(RenderGrid(board, mask, dims, xray), dims, c);
    if dims != [] {
      RenderGridGet(board.items[c[0]], mask.items[c[0]], dims[1..], xray, c[1..]);
    }
  }

  // ---------------------------------------------------------------------
  // The game
  // ---------------------------------------------------------------------

  class HyperMinesGame {
    var dimensions: seq<nat>
    var board: Grid<Square>
    var mask: Grid<bool>
    var state: GameState

    /** Board and mask both have the shape the dimensions give. */
    predicate Valid()
      reads this
    {
      Shaped(board, dimensions) && Shaped(mask, dimensions)
    }

    /** `__init__`: a new, ongoing game with every square hidden. */
    constructor (dims: seq<nat>, bombs: seq<seq<int>>)
      requires forall b :: b in bombs ==> InBounds(dims, b)
      ensures Valid()
      ensures dimensions == dims && board == InitialBoard(dims, bombs)
      ensures mask == MakeBoard(dims, false) && state == Ongoing
      ensures Consistent(board, dimensions) && !SomeBombShown(board, mask)
    {
      dimensions := dims;
      board := InitialBoard(dims, bombs);
      mask := MakeBoard(dims, false);
      state := Ongoing;
      InitialBoardConsistent(dims, bombs);
      new;
      forall c | Fits(board, c) && Get(board, c) == Bomb ensures !Revealed(mask, c) {
        ShapedFits(board, dims, c);
      }
    }

    /** `from_dict`: a game whose four attributes are the dictionary's. */
    constructor FromDict(d: GameDict)
      ensures dimensions == d.dimensions && board == d.board && state == d.state && mask == d.mask
    {
      dimensions := d.dimensions;
      board := d.board;
      state := d.state;
      mask := d.mask;
    }

    /** `get_coords`: the square of the board at `coords`; on a consistent board a safe
        square carries the number of bombs among its neighbors. */
    function GetCoords(coords: seq<int>): (r: Square)
      reads this
      requires Valid() && InBounds(dimensions, coords)
      ensures Consistent(board, dimensions) && r.Safe? ==> r.count == CountBombs(board, Neighbors(dimensions, coords))
    {
      ShapedFits(board, dimensions, coords);
      Get(board, coords)
    }

    /** `set_coords`: the square at `coords` becomes `value`; no other square changes. */
    method SetCoords(coords: seq<int>, value: Square)
      requires Valid() && InBounds(dimensions, coords)
      modifies this`board
      ensures Valid()
      ensures GetCoords(coords) == value
      ensures forall d :: InBounds(dimensions, d) && d != coords ==> GetCoords(d) == old(GetCoords(d))
    {
      ShapedFits(board, dimensions, coords);
      SetShaped(board, dimensions, coords, value);
      ghost var b0 := board;
      board := Set(board, coords, value);
      forall d | InBounds(dimensions, d) ensures Fits(b0, d) && GetCoords(d) == if d == coords then value else Get(b0, d) {
        ShapedFits(b0, dimensions, d);
        GetSet(b0, coords, value, d);
      }
    }

    /** `is_victory`: every square without a bomb is shown. */
    function IsVictory(): (r: bool)
      reads this
      requires Valid()
      ensures r <==> AllSafeShown(board, mask)
    {
      SafeSquaresShown(board, mask, dimensions)
    }

    /** `render`: how every square is drawn, nested like the board. */
    function Render(xray: bool): (r: Grid<seq<char>>)
      reads this
      requires Valid()
      ensures Shaped(r, dimensions)
      ensures forall c :: Fits(board, c) ==> Fits(mask, c) && Fits(r, c) && Get(r, c) == Symbol(Get(board, c), Get(mask, c), xray)
    {
      RenderGridShaped(board, mask, dimensions, xray);
      RenderSpec(board, mask, dimensions, xray);
      RenderGrid(board, mask, dimensions, xray)
    }

    /**
     * Show `c` and, when it is blank, dig each of its neighbours in turn.
     * Returns how many squares it showed.
     */
    method Reveal(c: seq<int>) returns (revealed: nat)
      requires Valid() && Fits(mask, c)
      modifies this`mask
      ensures Valid()
      ensures FloodFilled(dimensions, board, old(mask), mask, c)
      ensures revealed == Hidden(old(mask)) - Hidden(mask)
      ensures Revealed(old(mask), c) ==> mask == old(mask)
      ensures !Revealed(old(mask), c) && !Blank(board, c) ==> mask == Set(old(mask), c, true)
      decreases Hidden(mask), 0
    {
      if Get(mask, c) {
        return 0;
      }
      ghost var m0 := mask;
      ShapedFits(mask, dimensions, c);
      ShapedFits(board, dimensions, c);
      FloodStart(dimensions, board, mask, c);
      HiddenSet(mask, c);
      mask := Set(mask, c, true);
      revealed := 1;
      if Get(board, c) == Safe(0) {
        var more := DigNeighbors(c, m0);
        revealed := revealed + more;
      }
    }

    /** Dig each neighbour of the newly shown blank square `c` in turn. */
    method DigNeighbors(c: seq<int>, ghost m0: Grid<bool>) returns (revealed: nat)
      requires Valid() && Digging(dimensions, board, m0, mask, c)
      modifies this`mask
      ensures Valid()
      ensures FloodFilled(dimensions, board, m0, mask, c)
      ensures revealed == Hidden(old(mask)) - Hidden(mask)
      decreases Hidden(mask), 2
    {
      var ns := Neighbors(dimensions, c);
      revealed := 0;
      for i := 0 to |ns|
        invariant Valid() && Digging(dimensions, board, m0, mask, c)
        invariant Hidden(mask) <= Hidden(old(mask)) && revealed == Hidden(old(mask)) - Hidden(mask)
        invariant forall j :: 0 <= j < i ==> Revealed(mask, ns[j])
      {
        ghost var m1 := mask;
        var more := DigNeighbor(c, m0, ns[i]);
        revealed := revealed + more;
        GrowsKeeps(m1, mask, ns, i);
      }
      forall n | n in Neighbors(dimensions, c) ensures Revealed(mask, n) {
        var j :| 0 <= j < |ns| && ns[j] == n;
      }
      FloodFinish(dimensions, board, m0, mask, c);
    }

    /** Dig the neighbour `n` of the newly shown blank square `c`, keeping the dig from `c` well formed. */
    method DigNeighbor(c: seq<int>, ghost m0: Grid<bool>, n: seq<int>) returns (revealed: nat)
      requires Valid() && Digging(dimensions, board, m0, mask, c) && n in Neighbors(dimensions, c)
      modifies this`mask
      ensures Valid() && Digging(dimensions, board, m0, mask, c)
      ensures Grows(old(mask), mask) && Revealed(mask, n)
      ensures revealed == Hidden(old(mask)) - Hidden(mask)
      decreases Hidden(mask), 1
    {
      ghost var m1 := mask;
      ShapedFits(mask, dimensions, n);
      revealed := Reveal(n);
      FloodStep(dimensions, board, m0, m1, mask, c, n);
      FloodStepLeast(dimensions, board, m0, m1, mask, c, n);
    }

    /**
     * `dig`: when the game is ongoing, show `coords` and flood out from it,
     * then recompute the state; otherwise change nothing and return 0.
     */
    method Dig(coords: seq<int>) returns (revealed: nat)
      requires Valid() && InBounds(dimensions, coords)
      modifies this`mask, this`state
      ensures Valid()
      ensures old(state) != Ongoing ==> revealed == 0 && mask == old(mask) && state == old(state)
      ensures old(state) == Ongoing ==> FloodFilled(dimensions, board, old(mask), mask, coords)
      ensures old(state) == Ongoing ==> revealed == Hidden(old(mask)) - Hidden(mask)
      ensures old(state) == Ongoing ==> state == Outcome(board, mask, dimensions)
      ensures old(Revealed(mask, coords)) ==> revealed == 0 && mask == old(mask)
      ensures old(state) == Ongoing && old(Fits(mask, coords) && !Get(mask, coords)) && !Blank(board, coords) ==>
        mask == Set(old(mask), coords, true)
      ensures old(state) == Ongoing && GetCoords(coords) == Bomb ==> state == Defeat
    {
      if state != Ongoing {
        return 0;
      }
      ShapedFits(mask, dimensions, coords);
      revealed := Reveal(coords);
      state := Outcome(board, mask, dimensions);
      ShapedFits(board, dimensions, coords);
      if Get(board, coords) == Bomb {
        assert Fits(board, coords) && Get(board, coords) == Bomb && Revealed(mask, coords);
      }
    }
  }

  lemma RenderSpec(board: Grid<Square>, mask: Grid<bool>, dims: seq<nat>, xray: bool)
    requires Shaped(board, dims) && Shaped(mask, dims)
    ensures forall c :: Fits(board, c) ==>
      (Fits(mask, c) && Fits(RenderGrid(board, mask, dims, xray), c) &&
       Get(RenderGrid(board, mask, dims, xray), c) == Symbol(Get(board, c), Get(mask, c), xray))
  {
    forall c | Fits(board, c) ensures Fits(mask, c) && Fits(RenderGrid(board, mask, dims, xray), c) &&
      Get(RenderGrid(board, mask, dims, xray), c) == Symbol(Get(board, c), Get(mask, c), xray)
    {
      RenderGridGet(board, mask, dims, xray, c);
    }
  }

  /** Digging the same square twice: the second dig shows nothing and changes nothing. */
  method DigTwice(game: HyperMinesGame, coords: seq<int>)
    returns (first: nat, second: nat, ghost mask1: Grid<bool>, ghost state1: GameState)
    requires game.Valid() && InBounds(game.dimensions, coords)
    modifies game
    ensures second == 0 && game.mask == mask1 && game.state == state1
  {
    first := game.Dig(coords);
    mask1, state1 := game.mask, game.state;
    ShapedFits(game.mask, game.dimensions, coords);
    second := game.Dig(coords);
  }

  // ---------------------------------------------------------------------
  // Small games
  // ---------------------------------------------------------------------

  lemma {:induction false} CountInMember(ns: seq<seq<int>>, bombs: seq<seq<int>>, x: seq<int>)
    requires x in ns && x in bombs
    ensures CountIn(ns, bombs) > 0
  {
    if ns[0] != x {
      CountInMember(ns[1..], bombs, x);
    }
  }

  lemma {:induction false} CountInNone(ns: seq<seq<int>>, bombs: seq<seq<int>>)
    requires forall x :: x in ns ==> x !in bombs
    ensures CountIn(ns, bombs) == 0
  {
    if ns != [] {
      assert ns[0] in ns;
      assert forall x :: x in ns[1..] ==> x in ns;
      CountInNone(ns[1..], bombs);
    }
  }

  /** A board of shape [n] is a list of n single squares. */
  lemma LineCells<T>(g: Grid<T>, n: nat)
    requires Shaped(g, [n])
    ensures g.Row? && |g.items| == n
    ensures forall i :: 0 <= i < n ==> Fits(g, [i]) && g.items[i] == Cell(Get(g, [i]))
  {
    assert [n][1..] == [];
    forall i | 0 <= i < n ensures Fits(g, [i]) && g.items[i] == Cell(Get(g, [i])) {
      assert [i][1..] == [];
    }
  }

  /** The hidden squares of a line of five, counted one by one. */
  lemma HiddenLine(g: Grid<bool>)
    requires Shaped(g, [5])
    ensures g.Row? && |g.items| == 5
    ensures Hidden(g) == Hidden(g.items[0]) + Hidden(g.items[1]) + Hidden(g.items[2]) + Hidden(g.items[3]) + Hidden(g.items[4])
  {
    assert [5][1..] == [];
    var s := seq(|g.items|, i requires 0 <= i < |g.items| => Hidden(g.items[i]));
    assert Hidden(g) == Sum(s);
    assert Sum(s[4..]) == s[4] + Sum(s[5..]);
    assert Sum(s[3..]) == s[3] + Sum(s[3..][1..]) && s[3..][1..] == s[4..];
    assert Sum(s[2..]) == s[2] + Sum(s[2..][1..]) && s[2..][1..] == s[3..];
    assert Sum(s[1..]) == s[1] + Sum(s[1..][1..]) && s[1..][1..] == s[2..];
  }

  /**
   * On the line [5] with its bomb at [4], digging [0] floods through the
   * blank squares [0], [1], [2] to [3], shows four squares and wins.
   */
  method LineVictory() returns (revealed: nat, state: GameState)
    ensures revealed == 4 && state == Victory
  {
    var game := new HyperMinesGame([5], [[4]]);
    ghost var board, m0 := game.board, game.mask;
    LineBoard(5, board);
    LineStart(5, m0);
    revealed := game.Dig([0]);
    state := game.state;
    LineMask(5, board, m0, game.mask);
    LineOutcome(5, board, game.mask);
  }

  /** On a line, the neighbours of square k are squares k - 1 and k + 1, where they exist. */
  lemma LineNeighbors(n: nat, k: int, b: seq<int>)
    ensures b in Neighbors([n], [k]) <==> |b| == 1 && 0 <= b[0] < n && (b[0] == k - 1 || b[0] == k + 1)
  {
    if |b| == 1 && 0 <= b[0] < n && (b[0] == k - 1 || b[0] == k + 1) {
      assert InBounds([n], b) && Near(b, [k]);
    }
  }

  /** The squares of the line [n] with its bomb at the far end. */
  lemma LineBoard(n: nat, board: Grid<Square>)
    requires n == 5 && board == InitialBoard([n], [[n - 1]])
    ensures Shaped(board, [n])
    ensures Blank(board, [0]) && Blank(board, [1]) && Blank(board, [2])
    ensures Fits(board, [3]) && Get(board, [3]).Safe? && !Blank(board, [3])
    ensures Fits(board, [4]) && Get(board, [4]) == Bomb
  {
    forall k | 0 <= k < 3 ensures Blank(board, [k]) {
      assert InBounds([n], [k]) && Fits(board, [k]);
      forall x | x in Neighbors([n], [k]) ensures x !in [[n - 1]] {
        LineNeighbors(n, k, x);
      }
      CountInNone(Neighbors([n], [k]), [[n - 1]]);
    }
    assert InBounds([n], [3]) && InBounds([n], [4]);
    assert Fits(board, [3]) && Fits(board, [4]);
    LineNeighbors(n, 3, [4]);
    CountInMember(Neighbors([n], [3]), [[n - 1]], [4]);
  }

  /** A new line: all hidden. */
  lemma LineStart(n: nat, m0: Grid<bool>)
    requires n == 5 && m0 == MakeBoard([n], false)
    ensures Hidden(m0) == 5
    ensures forall k :: 0 <= k < 5 ==> !Revealed(m0, [k])
  {
    LineCells(m0, n);
    HiddenLine(m0);
    forall k | 0 <= k < 5 ensures !Revealed(m0, [k]) {
      assert InBounds([n], [k]);
    }
  }

  /** Which squares the dig at [0] shows on that line. */
  lemma LineMask(n: nat, board: Grid<Square>, m0: Grid<bool>, mask: Grid<bool>)
    requires n == 5
    requires Blank(board, [0]) && Blank(board, [1]) && Blank(board, [2]) && !Blank(board, [3])
    requires forall k :: 0 <= k < 5 ==> !Revealed(m0, [k])
    requires Shaped(mask, [n]) && FloodFilled([n], board, m0, mask, [0])
    ensures mask.Row? && mask.items == [Cell(true), Cell(true), Cell(true), Cell(true), Cell(false)]
    ensures Hidden(mask) == 1
  {
    LineCells(mask, n);
    LineReached(n, board, m0, mask);
    LineBombHidden(n, board, m0, mask);
    assert Get(mask, [0]) && Get(mask, [1]) && Get(mask, [2]) && Get(mask, [3]) && !Get(mask, [4]);
    assert mask.items[0] == Cell(true) && mask.items[1] == Cell(true) && mask.items[2] == Cell(true);
    assert mask.items[3] == Cell(true) && mask.items[4] == Cell(false);
    HiddenLine(mask);
  }

  /** The flood from [0] crosses the blank squares up to [3]. */
  lemma LineReached(n: nat, board: Grid<Square>, m0: Grid<bool>, mask: Grid<bool>)
    requires n == 5 && Revealed(mask, [0]) && Closed([n], board, m0, mask)
    requires Blank(board, [0]) && Blank(board, [1]) && Blank(board, [2])
    requires !Revealed(m0, [0]) && !Revealed(m0, [1]) && !Revealed(m0, [2])
    ensures Revealed(mask, [1]) && Revealed(mask, [2]) && Revealed(mask, [3])
  {
    LineNeighbors(n, 0, [1]);
    assert NeighborsShown([n], mask, [0]);
    LineNeighbors(n, 1, [2]);
    assert NeighborsShown([n], mask, [1]);
    LineNeighbors(n, 2, [3]);
    assert NeighborsShown([n], mask, [2]);
  }

  /** Its only neighbour [3] is not blank, so the bomb at [4] stays hidden. */
  lemma LineBombHidden(n: nat, board: Grid<Square>, m0: Grid<bool>, mask: Grid<bool>)
    requires n == 5 && Shaped(mask, [n]) && Supported([n], board, m0, mask, [0])
    requires !Blank(board, [3]) && !Revealed(m0, [4])
    ensures !Revealed(mask, [4])
  {
    if Revealed(mask, [4]) {
      assert Newly(m0, mask, [4]);
      var u :| Revealed(mask, u) && !Revealed(m0, u) && Blank(board, u) && [4] in Neighbors([n], u);
      ShapedFits(mask, [n], u);
      assert u == [u[0]];
      LineNeighbors(n, u[0], [4]);
      assert false;
    }
  }

  /** With only the bomb hidden, the line is won. */
  lemma LineOutcome(n: nat, board: Grid<Square>, mask: Grid<bool>)
    requires n == 5 && Shaped(board, [n])
    requires Blank(board, [0]) && Blank(board, [1]) && Blank(board, [2]) && Fits(board, [3]) && Get(board, [3]).Safe?
    requires Fits(board, [4]) && Get(board, [4]) == Bomb
    requires mask.Row? && mask.items == [Cell(true), Cell(true), Cell(true), Cell(true), Cell(false)]
    ensures !SomeBombShown(board, mask) && AllSafeShown(board, mask)
  {
    assert Get(mask, [0]) && Get(mask, [1]) && Get(mask, [2]) && Get(mask, [3]) && !Get(mask, [4]);
    forall d | Fits(board, d) ensures d in [[0], [1], [2], [3], [4]] {
      ShapedFits(board, [n], d);
      assert d == [d[0]];
    }
  }

  /** On the same line, digging the bomb shows one square and loses. */
  method LineDefeat() returns (revealed: nat, state: GameState)
    ensures revealed == 1 && state == Defeat
  {
    var game := new HyperMinesGame([5], [[4]]);
    ghost var m0 := game.mask;
    assert InBounds([5], [4]);
    ShapedFits(m0, [5], [4]);
    HiddenSet(m0, [4]);
    revealed := game.Dig([4]);
    state := game.state;
  }

  /**
   * On the line [6] with its bomb at [2], digging [0] shows [0] and its
   * neighbour [1], which touches the bomb, and no more: the blank squares
   * beyond the bomb stay hidden and the game goes on.
   */
  method LineNearBomb() returns (revealed: nat, state: GameState)
    ensures revealed == 2 && state == Ongoing
  {
    var game := new HyperMinesGame([6], [[2]]);
    ghost var board, m0 := game.board, game.mask;
    NearBombBoard(6, board);
    ghost var m2 := NearBombMask(6, m0);
    NearBombClosed(6, board, m0, m2);
    NearBombOngoing(6, board, m2);
    revealed := game.Dig([0]);
    state := game.state;
    NearBombDig(6, board, m0, m2, game.mask);
  }

  /** The squares of the line [6] with its bomb at [2] that the dig at [0] meets. */
  lemma NearBombBoard(n: nat, board: Grid<Square>)
    requires n == 6 && board == InitialBoard([n], [[2]])
    ensures Shaped(board, [n]) && InBounds([n], [0])
    ensures Blank(board, [0]) && Fits(board, [1]) && Get(board, [1]).Safe? && !Blank(board, [1])
    ensures Fits(board, [3]) && Get(board, [3]) != Bomb
    ensures forall d :: Fits(board, d) && Get(board, d) == Bomb ==> d == [2]
  {
    InitialBoardConsistent([n], [[2]]);
    assert InBounds([n], [0]) && InBounds([n], [1]) && InBounds([n], [3]);
    forall x | x in Neighbors([n], [0]) ensures x !in [[2]] {
      LineNeighbors(n, 0, x);
    }
    CountInNone(Neighbors([n], [0]), [[2]]);
    LineNeighbors(n, 1, [2]);
    CountInMember(Neighbors([n], [1]), [[2]], [2]);
  }

  /** The mask showing [0] and [1] only, two squares fewer hidden than the new line. */
  lemma NearBombMask(n: nat, m0: Grid<bool>) returns (m2: Grid<bool>)
    requires n == 6 && m0 == MakeBoard([n], false)
    ensures Shaped(m2, [n])
    ensures forall d :: !Revealed(m0, d)
    ensures forall d :: Revealed(m2, d) <==> d == [0] || d == [1]
    ensures Hidden(m2) == Hidden(m0) - 2
  {
    assert InBounds([n], [0]) && InBounds([n], [1]);
    forall d ensures !Revealed(m0, d) {
      ShapedFits(m0, [n], d);
    }
    ShapedFits(m0, [n], [0]);
    var m1 := Set(m0, [0], true);
    ShowOne(m0, [n], [0]);
    HiddenSet(m0, [0]);
    ShapedFits(m1, [n], [1]);
    assert !Revealed(m1, [1]);
    m2 := Set(m1, [1], true);
    ShowOne(m1, [n], [1]);
    HiddenSet(m1, [1]);
  }

  /** That mask shows the only neighbour of the blank square [0]. */
  lemma NearBombClosed(n: nat, board: Grid<Square>, m0: Grid<bool>, m2: Grid<bool>)
    requires n == 6 && Blank(board, [0]) && !Blank(board, [1])
    requires forall d :: !Revealed(m0, d)
    requires forall d :: Revealed(m2, d) <==> d == [0] || d == [1]
    ensures Grows(m0, m2) && Closed([n], board, m0, m2)
  {
    forall d | Newly(m0, m2, d) && Blank(board, d) ensures NeighborsShown([n], m2, d) {
      assert d == [0];
      forall x | x in Neighbors([n], [0]) ensures Revealed(m2, x) {
        LineNeighbors(n, 0, x);
        assert x == [x[0]];
      }
    }
  }

  /** With the safe square [3] hidden and the bomb at [2] hidden, the game goes on. */
  lemma NearBombOngoing(n: nat, board: Grid<Square>, m2: Grid<bool>)
    requires n == 6 && Shaped(board, [n]) && Shaped(m2, [n])
    requires Fits(board, [3]) && Get(board, [3]) != Bomb
    requires forall d :: Fits(board, d) && Get(board, d) == Bomb ==> d == [2]
    requires forall d :: Revealed(m2, d) <==> d == [0] || d == [1]
    ensures Outcome(board, m2, [n]) == Ongoing
  {
    assert InBounds([n], [3]);
    ShapedFits(m2, [n], [3]);
    assert [3][0] != [0][0] && [3][0] != [1][0];
    assert !Revealed(m2, [3]);
    assert Fits(board, [3]) && Fits(m2, [3]) && Get(board, [3]) != Bomb && !Get(m2, [3]);
    assert !AllSafeShown(board, m2);
    assert !SomeBombShown(board, m2);
  }

  /** A complete dig at [0] on that line leaves exactly that mask. */
  lemma NearBombDig(n: nat, board: Grid<Square>, m0: Grid<bool>, m2: Grid<bool>, mask: Grid<bool>)
    requires n == 6 && Shaped(m2, [n]) && Shaped(mask, [n]) && Blank(board, [0])
    requires forall d :: !Revealed(m0, d)
    requires forall d :: Revealed(m2, d) <==> d == [0] || d == [1]
    requires Grows(m0, m2) && Closed([n], board, m0, m2)
    requires FloodFilled([n], board, m0, mask, [0])
    ensures mask == m2
  {
    assert Grows(mask, m2);
    assert Newly(m0, mask, [0]) && NeighborsShown([n], mask, [0]);
    LineNeighbors(n, 0, [1]);
    assert Revealed(mask, [1]);
    forall d | Fits(mask, d) ensures Fits(m2, d) && Get(mask, d) == Get(m2, d) {
      ShapedFits(mask, [n], d);
      ShapedFits(m2, [n], d);
      assert Revealed(mask, d) <==> Revealed(m2, d);
    }
    GridExt(mask, m2, [n]);
  }

  /** On the 3 by 3 board with its bomb in the middle, digging a corner shows one square. */
  method CornerNextToBomb() returns (revealed: nat, state: GameState)
    ensures revealed == 1 && state == Ongoing
  {
    var game := new HyperMinesGame([3, 3], [[1, 1]]);
    ghost var board, m0 := game.board, game.mask;
    CornerFacts(3, board, m0);
    revealed := game.Dig([0, 0]);
    state := game.state;
  }

  lemma CornerFacts(n: nat, board: Grid<Square>, m0: Grid<bool>)
    requires n == 3 && board == InitialBoard([n, n], [[1, 1]]) && m0 == MakeBoard([n, n], false)
    ensures InBounds([n, n], [0, 0]) && Fits(m0, [0, 0]) && !Get(m0, [0, 0]) && !Blank(board, [0, 0])
    ensures Hidden(Set(m0, [0, 0], true)) == Hidden(m0) - 1
    ensures Shaped(Set(m0, [0, 0], true), [n, n])
    ensures Outcome(board, Set(m0, [0, 0], true), [n, n]) == Ongoing
  {
    var mask := Set(m0, [0, 0], true);
    assert InBounds([n, n], [0, 0]) && InBounds([n, n], [1, 1]) && InBounds([n, n], [0, 1]);
    ShapedFits(m0, [n, n], [0, 0]);
    ShapedFits(board, [n, n], [0, 0]);
    HiddenSet(m0, [0, 0]);
    SetShaped(m0, [n, n], [0, 0], true);
    assert Get(board, [0, 0]) != Safe(0) by {
      assert Near([1, 1], [0, 0]);
      CountInMember(Neighbors([n, n], [0, 0]), [[1, 1]], [1, 1]);
    }
    forall d | Fits(board, d) && Get(board, d) == Bomb ensures !Revealed(mask, d) {
      ShapedFits(board, [n, n], d);
      ShapedFits(m0, [n, n], d);
      GetSet(m0, [0, 0], true, d);
    }
    ShapedFits(m0, [n, n], [0, 1]);
    ShapedFits(board, [n, n], [0, 1]);
    GetSet(m0, [0, 0], true, [0, 1]);
    SetFits(m0, [0, 0], true, [0, 1]);
    assert Get(board, [0, 1]) != Bomb && !Get(mask, [0, 1]);
    assert !SomeBombShown(board, mask) && !AllSafeShown(board, mask);
  }
}
