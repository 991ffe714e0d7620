/** Paths through a raster along rows and columns: the relation the
    corner flood fills of both image passes compute. */
module GridPaths {
  /** `q` is joined to a pixel of `starts` by a path of at most `n` steps
      along rows and columns, all of whose pixels are in `mask`. */
  ghost predicate Reach(mask: set<(int, int)>, starts: set<(int, int)>, q: (int, int), n: nat)
    decreases n
  {
    q in mask && (q in starts || (n > 0 && exists m | m in Around(q) :: Reach(mask, starts, m, n - 1)))
  }

  /** A set holding the starts in the mask and closed under stepping to a
      neighbour in the mask holds everything the starts reach. */
  lemma {:induction false} ReachWithin(mask: set<(int, int)>, starts: set<(int, int)>, s: set<(int, int)>,
                                       q: (int, int), n: nat)
    requires forall c | c in starts && c in mask :: c in s
    requires forall p, m | p in s && m in Around(p) && m in mask :: m in s
    requires Reach(mask, starts, q, n)
    ensures q in s
    decreases n
  {
    if q in starts {
      return;
    }
    var m :| m in Around(q) && Reach(mask, starts, m, n - 1);
    ReachWithin(mask, starts, s, m, n - 1);
    assert q in Around(m);
  }

  /** The four pixels next to `q` along its row and column. */
  function Around(q: (int, int)): seq<(int, int)>
  {
    [(q.0 - 1, q.1), (q.0 + 1, q.1), (q.0, q.1 - 1), (q.0, q.1 + 1)]
  }


  /** `q` is joined to a pixel of `starts` by some path in `mask`. */
  ghost predicate Reached(mask: set<(int, int)>, starts: set<(int, int)>, q: (int, int))
  {
    exists n: nat :: Reach(mask, starts, q, n)
  }

  /** A step from a reached pixel to a neighbour in the mask reaches it. */
  lemma ReachStep(mask: set<(int, int)>, starts: set<(int, int)>, p: (int, int), m: (int, int))
    requires Reached(mask, starts, p) && m in Around(p) && m in mask
    ensures Reached(mask, starts, m)
  {
    var n: nat :| Reach(mask, starts, p, n);
    assert p in Around(m);
    assert Reach(mask, starts, m, n + 1);
  }
}
