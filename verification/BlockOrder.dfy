/** The numbering of blocks in reverse post-order. */
module BlockOrder {
  import opened Cfg
  import opened Components

  /** No arc closes a cycle. */
  ghost predicate Acyclic(e: Adj) {
    forall u, v {:trigger Arc(e, u, v)} :: Arc(e, u, v) ==> !Reach(e, v, u)
  }

  /** Every arc out of a numbered block leads to a higher number. */
  ghost predicate Upward(e: Adj, num: map<Block, int>) {
    forall u, v {:trigger Arc(e, u, v)} :: u in num && Arc(e, u, v) ==> v in num && num[u] < num[v]
  }

  /** num and back are inverse, and the numbers in use are those above c. */
  ghost predicate Inverse(n: int, num: map<Block, int>, back: map<int, Block>, c: int) {
    && c == n - |num|
    && (forall k {:trigger k in back} :: k in back <==> c < k <= n)
    && (forall k {:trigger back[k]} :: k in back ==> back[k] in num && num[back[k]] == k)
    && (forall b {:trigger num[b]} :: b in num ==> c < num[b] <= n && back[num[b]] == b)
  }

  /** The search: numbered blocks are finished, gray ones are still being visited. */
  ghost predicate Exploring(e: Adj, entry: Block, visited: set<Block>, num: map<Block, int>, gray: set<Block>) {
    && visited == num.Keys + gray && num.Keys !! gray && visited <= e.Keys
    && (forall u, v {:trigger Arc(e, u, v)} :: u in num && Arc(e, u, v) ==> v in visited)
    && (forall b {:trigger Reach(e, entry, b)} :: b in visited ==> Reach(e, entry, b))
    && (Acyclic(e) ==> Upward(e, num))
  }

  lemma OrderStart(e: Adj, entry: Block, n: int)
    ensures Exploring(e, entry, {}, map[], {}) && Inverse(n, map[], map[], n)
  {
  }

  lemma OrderEnter(e: Adj, entry: Block, visited: set<Block>, num: map<Block, int>, gray: set<Block>, s: Block)
    requires Exploring(e, entry, visited, num, gray) && s in e && s !in visited && Reach(e, entry, s)
    ensures Exploring(e, entry, visited + {s}, num, gray + {s}) && s !in gray
  {
  }

  /** All successors of s visited: s gets the next number. In an acyclic graph none of them is gray. */
  lemma OrderFinish(e: Adj, entry: Block, visited: set<Block>, num: map<Block, int>, gray: set<Block>, s: Block, n: int,
                    back: map<int, Block>, c: int)
    requires Exploring(e, entry, visited, num, gray + {s}) && s !in gray && Inverse(n, num, back, c)
    requires forall v :: Arc(e, s, v) ==> v in visited
    requires forall x {:trigger Reach(e, x, s)} :: x in gray + {s} ==> Reach(e, x, s)
    ensures Exploring(e, entry, visited, num[s := c], gray) && Inverse(n, num[s := c], back[c := s], c - 1)
  {
    hide Inverse, Acyclic, Upward, Reach;
    assert s in gray + {s};
    InverseMore(n, num, back, c, s);
    if Acyclic(e) {
      UpwardMore(e, visited, num, gray, s, n, back, c);
    }
    assert num[s := c].Keys == num.Keys + {s};
  }

  lemma InverseMore(n: int, num: map<Block, int>, back: map<int, Block>, c: int, s: Block)
    requires Inverse(n, num, back, c) && s !in num
    ensures Inverse(n, num[s := c], back[c := s], c - 1)
  {
    var num', back' := num[s := c], back[c := s];
    assert |num'| == |num| + 1;
    forall k | k in back'
      ensures back'[k] in num' && num'[back'[k]] == k
    {
      if k != c {
        assert back[k] in num && num[back[k]] == k;
      }
    }
    forall b | b in num'
      ensures c - 1 < num'[b] <= n && back'[num'[b]] == b
    {
      if b != s {
        assert c < num[b] <= n && back[num[b]] == b;
      }
    }
  }

  lemma UpwardMore(e: Adj, visited: set<Block>, num: map<Block, int>, gray: set<Block>, s: Block, n: int,
                   back: map<int, Block>, c: int)
    requires visited == num.Keys + (gray + {s}) && s !in num && Acyclic(e) && Upward(e, num) && Inverse(n, num, back, c)
    requires forall v :: Arc(e, s, v) ==> v in visited
    requires forall x {:trigger Reach(e, x, s)} :: x in gray + {s} ==> Reach(e, x, s)
    ensures Upward(e, num[s := c])
  {
    forall u, v | u in num[s := c] && Arc(e, u, v)
      ensures v in num[s := c] && num[s := c][u] < num[s := c][v]
    {
      if u == s {
        assert !Reach(e, v, s);
        assert v !in gray + {s};
        assert c < num[v];
      }
    }
  }

  /** In the end exactly the blocks that can be reached are numbered. */
  lemma OrderEnd(e: Adj, entry: Block, visited: set<Block>, num: map<Block, int>)
    requires Exploring(e, entry, visited, num, {}) && entry in num
    ensures forall b {:trigger Reach(e, entry, b)} :: b in num <==> Reach(e, entry, b)
  {
    forall b | Reach(e, entry, b)
      ensures b in num
    {
      ClosedHolds(e, num.Keys, entry, b);
    }
  }

  /** Along a path numbers only grow. */
  lemma {:induction false} PathUpward(e: Adj, num: map<Block, int>, p: seq<Block>, i: nat, j: nat)
    requires Upward(e, num) && IsPath(e, p) && i <= j < |p| && p[0] in num
    ensures p[i] in num && p[j] in num && num[p[i]] <= num[p[j]] && (i < j ==> num[p[i]] < num[p[j]])
  {
    if |p| > 1 {
      var q := p[..|p| - 1];
      assert forall k :: 0 <= k < |q| ==> q[k] == p[k];
      assert Arc(e, p[|p| - 2], p[|p| - 1]);
      if j < |p| - 1 {
        PathUpward(e, num, q, i, j);
      } else if i < j {
        PathUpward(e, num, q, i, j - 1);
      } else {
        PathUpward(e, num, q, j - 1, j - 1);
      }
    }
  }
}
