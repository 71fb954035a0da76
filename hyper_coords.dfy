/**
 * The N-dimensional boards of HyperMines (labs/lab3/lab.py): nested lists
 * indexed by a coordinate with one component per dimension, and the
 * neighbourhood of a square, every in-bounds square that differs from it by
 * at most one in each component.
 */
module HyperCoords {

  /** A nested list: a square at the bottom, a list of sub-boards above it. */
  datatype Grid<T> = Cell(value: T) | Row(items: seq<Grid<T>>)

  /** `is_in_bounds`: one component per dimension, each within [0, dimensions[i]). */
  predicate InBounds(dims: seq<nat>, c: seq<int>) {
    |c| == |dims| && forall i :: 0 <= i < |c| ==> 0 <= c[i] < dims[i]
  }

  /** The coordinate names a square of `g`: every index is within its list. */
  predicate Fits<T>(g: Grid<T>, c: seq<int>)
    decreases |c|
  {
    if c == [] then g.Cell?
    else g.Row? && 0 <= c[0] < |g.items| && Fits(g.items[c[0]], c[1..])
  }

  /** `board[c[0]][c[1]]...`: the square at a coordinate. */
  function Get<T>(g: Grid<T>, c: seq<int>): T
    requires Fits(g, c)
    decreases |c|
  {
    if c == [] then g.value else Get(g.items[c[0]], c[1..])
  }

  /** The board with the square at `c` replaced by `v`. */
  function Set<T>(g: Grid<T>, c: seq<int>, v: T): Grid<T>
    requires Fits(g, c)
    decreases |c|
  {
    if c == [] then Cell(v)
    else Row(g.items[c[0] := Set(g.items[c[0]], c[1..], v)])
  }

  /** The board's extent in each dimension is the one `dims` gives. */
  predicate Shaped<T>(g: Grid<T>, dims: seq<nat>)
    decreases |dims|
  {
    if dims == [] then g.Cell?
    else g.Row? && |g.items| == dims[0] && forall i :: 0 <= i < |g.items| ==> Shaped(g.items[i], dims[1..])
  }

  /** On a board of shape `dims`, the coordinates naming a square are exactly the in-bounds ones. */
  lemma {:induction false} ShapedFits<T>(g: Grid<T>, dims: seq<nat>, c: seq<int>)
    requires Shaped(g, dims)
    ensures Fits(g, c) <==> InBounds(dims, c)
    decreases |c|
  {
    if c != [] && dims != [] && 0 <= c[0] < dims[0] {
      ShapedFits(g.items[c[0]], dims[1..], c[1..]);
      if InBounds(dims[1..], c[1..]) {
        assert InBounds(dims, c) by {
          forall i | 0 <= i < |c| ensures 0 <= c[i] < dims[i] {
            if 0 < i {
              assert c[1..][i - 1] == c[i];
            }
          }
        }
      }
      if InBounds(dims, c) {
        assert InBounds(dims[1..], c[1..]) by {
          forall i | 0 <= i < |c[1..]| ensures 0 <= c[1..][i] < dims[1..][i] {
            assert c[1..][i] == c[i + 1];
          }
        }
      }
    }
  }

  /** Two boards of one shape with the same square at every coordinate are the same board. */
  lemma {:induction false} GridExt<T>(a: Grid<T>, b: Grid<T>, dims: seq<nat>)
    requires Shaped(a, dims) && Shaped(b, dims)
    requires forall c :: Fits(a, c) ==> Fits(b, c) && Get(a, c) == Get(b, c)
    ensures a == b
    decreases |dims|
  {
    if dims == [] {
      assert Fits(a, []);
    } else {
      forall i | 0 <= i < |a.items| ensures a.items[i] == b.items[i] {
        forall c | Fits(a.items[i], c) ensures Fits(b.items[i], c) && Get(a.items[i], c) == Get(b.items[i], c) {
          var c' := [i] + c;
          assert c'[0] == i && c'[1..] == c;
          assert Fits(a, c');
        }
        GridExt(a.items[i], b.items[i], dims[1..]);
      }
    }
  }

  /** Every coordinate of the board that named a square still does after a store. */
  lemma {:induction false} SetFits<T>(g: Grid<T>, c: seq<int>, v: T, d: seq<int>)
    requires Fits(g, c)
    ensures Fits(Set(g, c, v), d) <==> Fits(g, d)
    decreases |c|
  {
    if c != [] && d != [] && 0 <= d[0] < |g.items| && d[0] == c[0] {
      SetFits(g.items[c[0]], c[1..], v, d[1..]);
    }
  }

  /** `set_coords` then `get_coords`: the square stored, and no other square changed. */
  lemma {:induction false} GetSet<T>(g: Grid<T>, c: seq<int>, v: T, d: seq<int>)
    requires Fits(g, c) && Fits(g, d)
    ensures Fits(Set(g, c, v), d)
    ensures Get(Set(g, c, v), d) == if d == c then v else Get(g, d)
    decreases |c|
  {
    SetFits(g, c, v, d);
    if c != [] && d != [] && d[0] == c[0] {
      GetSet(g.items[c[0]], c[1..], v, d[1..]);
      if d[1..] == c[1..] {
        assert d == [d[0]] + d[1..] && c == [c[0]] + c[1..];
      }
    }
  }

  /** A store keeps the shape of the board. */
  lemma {:induction false} SetShaped<T>(g: Grid<T>, dims: seq<nat>, c: seq<int>, v: T)
    requires Shaped(g, dims) && Fits(g, c)
    ensures Shaped(Set(g, c, v), dims)
    decreases |c|
  {
    if c != [] {
      ShapedFits(g, dims, c);
      SetShaped(g.items[c[0]], dims[1..], c[1..], v);
    }
  }

  /** The board of shape `dims` whose square at `c` is `f(prefix + c)`. */
  function Tabulate<T>(dims: seq<nat>, f: seq<int> -> T, prefix: seq<int>): Grid<T>
    decreases |dims|
  {
    if dims == [] then Cell(f(prefix))
    else Row(seq(dims[0], i requires 0 <= i => Tabulate(dims[1..], f, prefix + [i])))
  }

  lemma {:induction false} TabulateShaped<T>(dims: seq<nat>, f: seq<int> -> T, prefix: seq<int>)
    ensures Shaped(Tabulate(dims, f, prefix), dims)
    decreases |dims|
  {
    if dims != [] {
      forall i | 0 <= i < dims[0] ensures Shaped(Tabulate(dims[1..], f, prefix + [i]), dims[1..]) {
        TabulateShaped(dims[1..], f, prefix + [i]);
      }
    }
  }

  lemma {:induction false} TabulateGet<T>(dims: seq<nat>, f: seq<int> -> T, prefix: seq<int>, c: seq<int>)
    requires InBounds(dims, c)
    ensures Fits(Tabulate(dims, f, prefix), c)
    ensures Get(Tabulate(dims, f, prefix), c) == f(prefix + c)
    decreases |dims|
  {
    TabulateShaped(dims, f, prefix);
    ShapedFits(Tabulate(dims, f, prefix), dims, c);
    if dims != [] {
      assert InBounds(dims[1..], c[1..]) by {
        forall i | 0 <= i < |c[1..]| ensures 0 <= c[1..][i] < dims[1..][i] {
          assert c[1..][i] == c[i + 1];
        }
      }
      var sub := Tabulate(dims[1..], f, prefix + [c[0]]);
      assert Tabulate(dims, f, prefix).items[c[0]] == sub;
      TabulateGet(dims[1..], f, prefix + [c[0]], c[1..]);
      assert Get(Tabulate(dims, f, prefix), c) == Get(sub, c[1..]);
      assert prefix + [c[0]] + c[1..] == prefix + c;
      assert Get(Tabulate(dims, f, prefix), c) == f(prefix + c);
    } else {
      assert prefix + c == prefix;
    }
  }

  lemma TabulateAll<T>(dims: seq<nat>, f: seq<int> -> T)
    ensures Shaped(Tabulate(dims, f, []), dims)
    ensures forall c :: InBounds(dims, c) ==> Fits(Tabulate(dims, f, []), c) && Get(Tabulate(dims, f, []), c) == f(c)
  {
    TabulateShaped(dims, f, []);
    forall c | InBounds(dims, c) ensures Fits(Tabulate(dims, f, []), c) && Get(Tabulate(dims, f, []), c) == f(c) {
      TabulateGet(dims, f, [], c);
      assert [] + c == c;
    }
  }

  /** `make_board`: a board of shape `dims` with every square equal to `elem`. */
  function MakeBoard<T>(dims: seq<nat>, elem: T): (r: Grid<T>)
    ensures Shaped(r, dims)
    ensures forall c :: InBounds(dims, c) ==> Fits(r, c) && Get(r, c) == elem
  {
    TabulateAll(dims, _ => elem);
    Tabulate(dims, _ => elem, [])
  }

  // ---------------------------------------------------------------------
  // Neighbourhoods
  // ---------------------------------------------------------------------

  /** `b` differs from `c` by at most one in every component (Chebyshev distance at most 1). */
  predicate Near(b: seq<int>, c: seq<int>) {
    |b| == |c| && forall i :: 0 <= i < |b| ==> c[i] - 1 <= b[i] <= c[i] + 1
  }

  /** No coordinate appears twice. */
  predicate Distinct(s: seq<seq<int>>) {
    forall i, j :: 0 <= i < j < |s| ==> s[i] != s[j]
  }

  /** `[x] + r` for every `r` of `rest`, or nothing when `x` lies outside [0, bound). */
  function PrependAll(x: int, bound: nat, rest: seq<seq<int>>): (r: seq<seq<int>>)
    ensures forall b :: b in r <==> 0 <= x < bound && |b| > 0 && b[0] == x && b[1..] in rest
    ensures Distinct(rest) ==> Distinct(r)
  {
    var r := if 0 <= x < bound then seq(|rest|, i requires 0 <= i < |rest| => [x] + rest[i]) else [];
    assert forall i :: 0 <= i < |r| ==> r[i][1..] == rest[i];
    assert forall b :: b in r ==> |b| > 0 && b[0] == x && b[1..] in rest;
    assert forall b :: 0 <= x < bound && |b| > 0 && b[0] == x && b[1..] in rest ==> b in r by {
      forall b | 0 <= x < bound && |b| > 0 && b[0] == x && b[1..] in rest ensures b in r {
        var i :| 0 <= i < |rest| && rest[i] == b[1..];
        assert r[i] == b;
      }
    }
    r
  }

  /** Every in-bounds coordinate near `c`, `c` itself included. */
  function Box(dims: seq<nat>, c: seq<int>): (r: seq<seq<int>>)
    ensures forall b :: b in r <==> InBounds(dims, b) && Near(b, c)
    ensures Distinct(r)
    decreases |c|
  {
    if |dims| == 0 || |c| == 0 then
      if |dims| == 0 && |c| == 0 then [[]] else []
    else
      var rest := Box(dims[1..], c[1..]);
      BoxRows(dims, c, rest);
      PrependAll(c[0] - 1, dims[0], rest) + PrependAll(c[0], dims[0], rest) + PrependAll(c[0] + 1, dims[0], rest)
  }

  /** The box around `c` is the box around its tail, once for each admissible first component. */
  lemma BoxRows(dims: seq<nat>, c: seq<int>, rest: seq<seq<int>>)
    requires |dims| > 0 && |c| > 0 && Distinct(rest)
    requires forall b :: b in rest <==> InBounds(dims[1..], b) && Near(b, c[1..])
    ensures var r := PrependAll(c[0] - 1, dims[0], rest) + PrependAll(c[0], dims[0], rest) + PrependAll(c[0] + 1, dims[0], rest);
      (forall b :: b in r <==> InBounds(dims, b) && Near(b, c)) && Distinct(r)
  {
    var low, mid, high := PrependAll(c[0] - 1, dims[0], rest), PrependAll(c[0], dims[0], rest), PrependAll(c[0] + 1, dims[0], rest);
    forall b ensures b in low + mid + high <==> InBounds(dims, b) && Near(b, c) {
      BoxStep(dims, c, b);
    }
    DistinctConcat(low, mid);
    DistinctConcat(low + mid, high);
  }

  lemma DistinctConcat(a: seq<seq<int>>, b: seq<seq<int>>)
    requires Distinct(a) && Distinct(b) && forall x :: x in a ==> x !in b
    ensures Distinct(a + b)
  {
    forall i, j | 0 <= i < j < |a + b| ensures (a + b)[i] != (a + b)[j] {
      if i < |a| && |a| <= j {
        assert (a + b)[i] in a && (a + b)[j] == b[j - |a|];
      } else if |a| <= i {
        assert (a + b)[i] == b[i - |a|] && (a + b)[j] == b[j - |a|];
      }
    }
  }

  /** Splitting a coordinate into its first component and the rest. */
  lemma BoxStep(dims: seq<nat>, c: seq<int>, b: seq<int>)
    requires |dims| > 0 && |c| > 0
    ensures InBounds(dims, b) && Near(b, c) <==>
      |b| > 0 && 0 <= b[0] < dims[0] && c[0] - 1 <= b[0] <= c[0] + 1 && InBounds(dims[1..], b[1..]) && Near(b[1..], c[1..])
  {
    if |b| > 0 {
      assert forall i :: 0 < i < |b| ==> b[1..][i - 1] == b[i];
      assert forall i :: 0 < i < |c| ==> c[1..][i - 1] == c[i];
      assert forall i :: 0 < i < |dims| ==> dims[1..][i - 1] == dims[i];
    }
  }

  lemma DistinctCons(x: seq<int>, rest: seq<seq<int>>)
    ensures Distinct([x] + rest) <==> x !in rest && Distinct(rest)
  {
    var s := [x] + rest;
    assert forall i :: 0 <= i < |rest| ==> s[i + 1] == rest[i];
    if Distinct(s) {
      assert s[0] == x;
      assert x !in rest by {
        forall i | 0 <= i < |rest| ensures rest[i] != x {
          assert s[i + 1] == rest[i];
        }
      }
    }
  }

  /** The list without every occurrence of `x`. */
  function Without(s: seq<seq<int>>, x: seq<int>): (r: seq<seq<int>>)
    ensures forall b :: b in r <==> b in s && b != x
    ensures Distinct(s) ==> Distinct(r)
  {
    if s == [] then []
    else
      var rest := Without(s[1..], x);
      var r := if s[0] == x then rest else [s[0]] + rest;
      assert forall b :: b in s <==> b == s[0] || b in s[1..];
      assert s == [s[0]] + s[1..];
      DistinctCons(s[0], s[1..]);
      DistinctCons(s[0], rest);
      r
  }

  /** `neighbors`: the in-bounds squares near `c`, not `c` itself. */
  function Neighbors(dims: seq<nat>, c: seq<int>): (r: seq<seq<int>>)
    ensures forall b :: b in r <==> InBounds(dims, b) && Near(b, c) && b != c
    ensures Distinct(r)
  {
    Without(Box(dims, c), c)
  }

  /** Being neighbours is symmetric. */
  lemma NeighborsSymmetric(dims: seq<nat>, b: seq<int>, c: seq<int>)
    requires InBounds(dims, c) && b in Neighbors(dims, c)
    ensures c in Neighbors(dims, b)
  {
    assert Near(c, b) by {
      forall i | 0 <= i < |c| ensures b[i] - 1 <= c[i] <= b[i] + 1 {
        assert c[i] - 1 <= b[i] <= c[i] + 1;
      }
    }
  }
}
