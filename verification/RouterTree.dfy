/** Trees of routers: a tree with one root is a tree with any root. */
module RouterTree {
  import opened RouterTables

  /** E links R as a tree rooted at r: each other router has one parent, one step nearer to the root. */
  ghost predicate Rooted(R: set<Rid>, E: set<(Rid, Rid)>, r: Rid, par: map<Rid, Rid>, depth: map<Rid, nat>) {
    && r in R && par.Keys == R - {r} && depth.Keys == R
    && (forall v :: v in par ==> par[v] in R && depth[v] == depth[par[v]] + 1)
    && (forall x, y :: (x, y) in E <==> (x in par && par[x] == y) || (y in par && par[y] == x))
  }

  ghost predicate IsTree(R: set<Rid>, E: set<(Rid, Rid)>) {
    exists r, par, depth :: Rooted(R, E, r, par, depth)
  }

  /** v lies below c. */
  ghost predicate Below(R: set<Rid>, E: set<(Rid, Rid)>, r: Rid, par: map<Rid, Rid>, depth: map<Rid, nat>, c: Rid,
                        v: Rid)
    requires Rooted(R, E, r, par, depth) && v in R
    decreases depth[v]
  {
    v == c || (v != r && Below(R, E, r, par, depth, c, par[v]))
  }

  lemma {:induction false} BelowIsDeep(R: set<Rid>, E: set<(Rid, Rid)>, r: Rid, par: map<Rid, Rid>,
                                       depth: map<Rid, nat>, c: Rid, v: Rid)
    requires Rooted(R, E, r, par, depth) && v in R && c in R
    requires Below(R, E, r, par, depth, c, v)
    ensures depth[v] >= depth[c]
    decreases depth[v]
  {
    if v != c {
      BelowIsDeep(R, E, r, par, depth, c, par[v]);
    }
  }

  /** Moving the root to one of its neighbours turns one edge around. */
  lemma RootMoves(R: set<Rid>, E: set<(Rid, Rid)>, r: Rid, par: map<Rid, Rid>, depth: map<Rid, nat>, c: Rid)
    returns (par': map<Rid, Rid>, depth': map<Rid, nat>)
    requires Rooted(R, E, r, par, depth) && c in par && par[c] == r
    ensures Rooted(R, E, c, par', depth')
  {
    par' := (map v | v in par && v != c :: par[v])[r := c];
    forall v | v in R && Below(R, E, r, par, depth, c, v)
      ensures depth[v] >= 1
    {
      BelowIsDeep(R, E, r, par, depth, c, v);
    }
    depth' := map v | v in R :: if Below(R, E, r, par, depth, c, v) then depth[v] - 1 else depth[v] + 1;
    assert par'.Keys == R - {c};
    forall v | v in par'
      ensures par'[v] in R && depth'[v] == depth'[par'[v]] + 1
    {
      if v == r {
        assert !Below(R, E, r, par, depth, c, r);
        assert Below(R, E, r, par, depth, c, c);
      } else {
        assert Below(R, E, r, par, depth, c, v) <==> Below(R, E, r, par, depth, c, par[v]);
      }
    }
    forall x, y
      ensures (x, y) in E <==> (x in par' && par'[x] == y) || (y in par' && par'[y] == x)
    {
    }
  }

  /** Any router can be taken as the root. */
  lemma {:induction false} AnyRoot(R: set<Rid>, E: set<(Rid, Rid)>, r: Rid, par: map<Rid, Rid>, depth: map<Rid, nat>,
                                   o: Rid)
    returns (par': map<Rid, Rid>, depth': map<Rid, nat>)
    requires Rooted(R, E, r, par, depth) && o in R
    ensures Rooted(R, E, o, par', depth')
    decreases depth[o]
  {
    if o == r {
      par', depth' := par, depth;
    } else {
      var p := par[o];
      assert (o, p) in E;
      par', depth' := AnyRoot(R, E, r, par, depth, p);
      assert o in par' && par'[o] == p;
      par', depth' := RootMoves(R, E, p, par', depth', o);
    }
  }
}
