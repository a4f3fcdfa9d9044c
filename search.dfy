/**
 * The bounded depth-first search for one deck: an explicit stack of game
 * states, a set of position hashes already seen, a node budget and a depth
 * budget.
 */
module Search {
  import opened Wrappers
  import opened Cards
  import opened Tableaus
  import opened Moves
  import opened MoveInvariants
  import opened Game

  /** The `u16` depth limit. */
  type Depth = d: nat | d < 0x1_0000

  datatype SearchLimits = SearchLimits(maxNodes: nat, maxDepth: Depth)

  datatype DetailLevel = Summary | Trace

  datatype SearchConfig = SearchConfig(limits: SearchLimits, detail: DetailLevel)

  const DEFAULT_LIMITS: SearchLimits := SearchLimits(100_000, 256)
  const DEFAULT_CONFIG: SearchConfig := SearchConfig(DEFAULT_LIMITS, Summary)

  datatype GameOutcome = GameOutcome(initialDeck: seq<Card>, isWin: bool, winningLine: Option<seq<Move>>, nodesVisited: nat)

  /** `line` is a sequence of generated moves, within the depth budget, from the deal of `deck` to a won position. */
  ghost predicate WinningLine(deck: seq<Card>, line: seq<Move>, maxDepth: nat)
    requires |deck| == CARDS_PER_DECK
  {
    && |line| <= maxDepth
    && LegalLine(Deal(deck), line)
    && Replayable(Deal(deck), line)
    && IsWin(Replay(Deal(deck), line))
  }

  /** What every outcome promises: the deck echoed, the node count in range, a line exactly for a win, and the line wins. */
  ghost predicate OutcomeConsistent(deck: seq<Card>, limits: SearchLimits, o: GameOutcome)
    requires |deck| == CARDS_PER_DECK
  {
    && o.initialDeck == deck
    && 1 <= o.nodesVisited <= limits.maxNodes + 1
    && (o.isWin <==> o.winningLine.Some?)
    && (o.winningLine.Some? ==> WinningLine(deck, o.winningLine.value, limits.maxDepth))
  }

  predicate NoDuplicates(hs: seq<bv64>)
  {
    forall i, j :: 0 <= i < j < |hs| ==> hs[i] != hs[j]
  }

  /** The elements of a sequence. */
  function Elements(hs: seq<bv64>): (r: set<bv64>)
    ensures forall h :: h in r <==> h in hs
  {
    set h | h in hs
  }

  lemma ElementsSnoc(hs: seq<bv64>, h: bv64)
    ensures Elements(hs + [h]) == Elements(hs) + {h}
  {
  }

  lemma ElementsAppend(a: seq<bv64>, b: seq<bv64>)
    ensures Elements(a + b) == Elements(a) + Elements(b)
  {
  }

  /**
   * Ghost values standing for a sequence of game states, entry by entry:
   * their move histories, their positions and their hashes.
   */
  datatype Trail = Trail(lines: seq<seq<Move>>, tabs: seq<Tableau>, hashes: seq<bv64>)

  const EMPTY_TRAIL: Trail := Trail([], [], [])

  function Concat(a: Trail, b: Trail): Trail
  {
    Trail(a.lines + b.lines, a.tabs + b.tabs, a.hashes + b.hashes)
  }

  /** The indices `lo`, `lo + 1`, ..., `hi - 1`. */
  function Range(lo: nat, hi: nat): (r: seq<nat>)
    requires lo <= hi
    ensures |r| == hi - lo && forall i :: 0 <= i < |r| ==> r[i] == lo + i
  {
    seq(hi - lo, i requires 0 <= i < hi - lo => lo + i)
  }

  /** The hashes of the positions that the moves of `moves` lead to from `t`, among those `apply` accepts. */
  ghost function ChildHashes(t: Tableau, moves: seq<Move>): set<bv64>
  {
    set i | 0 <= i < |moves| && t.Valid() && CanApply(t, moves[i]) :: Hash(Apply(t, moves[i]))
  }

  lemma ChildHashesAre(t: Tableau, moves: seq<Move>, hs: seq<bv64>)
    requires t.Valid() && |hs| == |moves|
    requires forall i :: 0 <= i < |moves| ==> CanApply(t, moves[i]) && hs[i] == Hash(Apply(t, moves[i]))
    ensures ChildHashes(t, moves) == Elements(hs)
  {
    forall h | h in Elements(hs)
      ensures h in ChildHashes(t, moves)
    {
      var i :| 0 <= i < |hs| && hs[i] == h;
      assert Hash(Apply(t, moves[i])) in ChildHashes(t, moves);
    }
  }

  /** One child: a clone of `state` with `mv` applied through `apply_move`; `deck`, `ms` and `t` name the parent's fields. */
  method Expand(state: GameState, mv: Move, ghost deck: seq<Card>, ghost ms: seq<Move>, ghost t: Tableau)
    returns (child: GameState)
    requires state.Valid() && state.initialDeck == deck && state.moves == ms && state.tableau == t
    requires CanApply(t, mv)
    ensures fresh(child)
    ensures child.initialDeck == deck && child.moves == ms + [mv] && child.tableau == Apply(t, mv)
    ensures Consistent(deck, child.moves, child.tableau, child.tableauHash)
  {
    child := state.Clone();
    child.ApplyMove(mv);
  }

  /**
   * The children of `state`, one per move of `moves` and in the same order:
   * `children[k]` has `moves[k]` applied; `kids` holds their histories,
   * positions and hashes.
   */
  method ExpandAll(state: GameState, moves: seq<Move>, ghost deck: seq<Card>, ghost ms: seq<Move>, ghost t: Tableau)
    returns (children: seq<GameState>, ghost kids: Trail)
    requires state.Valid() && state.initialDeck == deck && state.moves == ms && state.tableau == t
    requires forall i :: 0 <= i < |moves| ==> CanApply(t, moves[i])
    ensures |children| == |moves| && Mirror(children, deck, kids)
    ensures forall i :: 0 <= i < |moves| ==> kids.lines[i] == ms + [moves[i]] && kids.tabs[i] == Apply(t, moves[i])
    ensures forall i :: 0 <= i < |moves| ==> kids.hashes[i] == Hash(Apply(t, moves[i]))
    ensures forall i :: 0 <= i < |moves| ==> Consistent(deck, kids.lines[i], kids.tabs[i], kids.hashes[i])
  {
    children, kids := [], EMPTY_TRAIL;
    for k := 0 to |moves|
      invariant Mirror(children, deck, kids)
      invariant Expanded(ms, t, moves, k, kids) && AllConsistent(deck, kids)
    {
      var child := Expand(state, moves[k], deck, ms, t);
      MirrorSnoc(children, child, deck, kids);
      ExpandedSnoc(ms, t, moves, k, kids, child.tableau, child.tableauHash);
      AllConsistentSnoc(deck, kids, child.moves, child.tableau, child.tableauHash);
      children := children + [child];
      kids := Trail(kids.lines + [child.moves], kids.tabs + [child.tableau], kids.hashes + [child.tableauHash]);
    }
  }

  /** The children values of a position along the first `k` of `moves`: each history extends `ms` by its move. */
  ghost predicate Expanded(ms: seq<Move>, t: Tableau, moves: seq<Move>, k: nat, kids: Trail)
  {
    && t.Valid() && k <= |moves| && |kids.lines| == k && |kids.tabs| == k && |kids.hashes| == k
    && (forall i :: 0 <= i < k ==> kids.lines[i] == ms + [moves[i]])
    && (forall i :: 0 <= i < k ==> CanApply(t, moves[i]) && kids.tabs[i] == Apply(t, moves[i]))
  }

  lemma ExpandedSnoc(ms: seq<Move>, t: Tableau, moves: seq<Move>, k: nat, kids: Trail, c: Tableau, h: bv64)
    requires Expanded(ms, t, moves, k, kids) && k < |moves| && CanApply(t, moves[k]) && c == Apply(t, moves[k])
    ensures Expanded(ms, t, moves, k + 1, Trail(kids.lines + [ms + [moves[k]]], kids.tabs + [c], kids.hashes + [h]))
  {
  }

  /** Every entry of `tr` is a consistent cache. */
  ghost predicate AllConsistent(deck: seq<Card>, tr: Trail)
  {
    && |tr.tabs| == |tr.lines| && |tr.hashes| == |tr.lines|
    && forall i :: 0 <= i < |tr.lines| ==> Consistent(deck, tr.lines[i], tr.tabs[i], tr.hashes[i])
  }

  lemma AllConsistentSnoc(deck: seq<Card>, tr: Trail, ms: seq<Move>, c: Tableau, h: bv64)
    requires AllConsistent(deck, tr) && Consistent(deck, ms, c, h)
    ensures AllConsistent(deck, Trail(tr.lines + [ms], tr.tabs + [c], tr.hashes + [h]))
  {
  }

  lemma MirrorSnoc(stack: seq<GameState>, g: GameState, deck: seq<Card>, tr: Trail)
    requires Mirror(stack, deck, tr) && g.initialDeck == deck
    ensures Mirror(stack + [g], deck, Trail(tr.lines + [g.moves], tr.tabs + [g.tableau], tr.hashes + [g.tableauHash]))
  {
  }

  /** Every generated move extends a line of generated moves, and `apply` accepts it. */
  lemma GeneratedMovesExtendLine(deck: seq<Card>, ms: seq<Move>, moves: seq<Move>)
    requires |deck| == CARDS_PER_DECK && LegalLine(Deal(deck), ms) && Replayable(Deal(deck), ms)
    requires forall i :: 0 <= i < |moves| ==> moves[i] in LegalMoves(Replay(Deal(deck), ms))
    ensures forall i :: 0 <= i < |moves| ==>
      LegalLine(Deal(deck), ms + [moves[i]]) && CanApply(Replay(Deal(deck), ms), moves[i])
  {
    DealIsSound(deck);
    forall i | 0 <= i < |moves|
      ensures LegalLine(Deal(deck), ms + [moves[i]]) && CanApply(Replay(Deal(deck), ms), moves[i])
    {
      LegalLineSnoc(Deal(deck), ms, moves[i]);
    }
  }

  /**
   * The filter behind the child expansion: the children taken last first,
   * each pushed when its hash is not yet in `visited`. `order` lists the
   * index of each pushed child and `pushed` its hash.
   */
  method PushNew(children: seq<GameState>, stack0: seq<GameState>, visited0: set<bv64>)
    returns (stack: seq<GameState>, visited: set<bv64>, ghost order: seq<nat>, ghost pushed: seq<bv64>)
    ensures forall k :: 0 <= k < |order| ==> order[k] < |children|
    ensures forall k, l :: 0 <= k < l < |order| ==> order[k] > order[l]
    ensures stack == stack0 + Pick(children, order)
    ensures |pushed| == |order| && forall k :: 0 <= k < |order| ==> pushed[k] == children[order[k]].tableauHash
    ensures forall j :: 0 <= j < |children| ==> children[j].tableauHash in visited
    ensures visited == visited0 + Elements(pushed)
    ensures NoDuplicates(pushed) && forall k :: 0 <= k < |pushed| ==> pushed[k] !in visited0
  {
    stack, visited, order, pushed := stack0, visited0, [], [];
    for r := 0 to |children|
      invariant Filtered(children, r, stack0, visited0, stack, visited, order, pushed)
    {
      var j: nat := |children| - 1 - r;
      var child := children[j];
      if child.tableauHash !in visited {
        FilterPush(children, r, stack0, visited0, stack, visited, order, pushed);
        visited := visited + {child.tableauHash};
        stack := stack + [child];
        order := order + [j];
        pushed := pushed + [child.tableauHash];
      } else {
        FilterSkip(children, r, stack0, visited0, stack, visited, order, pushed);
      }
    }
  }

  /** What the filter keeps after taking the last `r` children. */
  ghost predicate Filtered(children: seq<GameState>, r: nat, stack0: seq<GameState>, visited0: set<bv64>,
                           stack: seq<GameState>, visited: set<bv64>, order: seq<nat>, pushed: seq<bv64>)
    reads children
  {
    && r <= |children|
    && (forall k :: 0 <= k < |order| ==> |children| - r <= order[k] < |children|)
    && (forall k, l :: 0 <= k < l < |order| ==> order[k] > order[l])
    && stack == stack0 + Pick(children, order)
    && |pushed| == |order| && (forall k :: 0 <= k < |order| ==> pushed[k] == children[order[k]].tableauHash)
    && (forall j :: |children| - r <= j < |children| ==> children[j].tableauHash in visited)
    && visited == visited0 + Elements(pushed)
    && NoDuplicates(pushed) && (forall k :: 0 <= k < |pushed| ==> pushed[k] !in visited0)
  }

  lemma FilterPush(children: seq<GameState>, r: nat, stack0: seq<GameState>, visited0: set<bv64>,
                   stack: seq<GameState>, visited: set<bv64>, order: seq<nat>, pushed: seq<bv64>)
    requires Filtered(children, r, stack0, visited0, stack, visited, order, pushed) && r < |children|
    requires children[|children| - 1 - r].tableauHash !in visited
    ensures var j := |children| - 1 - r; var h := children[j].tableauHash;
      Filtered(children, r + 1, stack0, visited0, stack + [children[j]], visited + {h}, order + [j], pushed + [h])
  {
    var j := |children| - 1 - r;
    ElementsSnoc(pushed, children[j].tableauHash);
    PickSnoc(children, order, j);
    AppendAssoc(stack0, Pick(children, order), children[j]);
  }

  lemma FilterSkip(children: seq<GameState>, r: nat, stack0: seq<GameState>, visited0: set<bv64>,
                   stack: seq<GameState>, visited: set<bv64>, order: seq<nat>, pushed: seq<bv64>)
    requires Filtered(children, r, stack0, visited0, stack, visited, order, pushed) && r < |children|
    requires children[|children| - 1 - r].tableauHash in visited
    ensures Filtered(children, r + 1, stack0, visited0, stack, visited, order, pushed)
  {
  }

  /**
   * The child expansion: for each generated move, last first, clone the
   * state, apply the move, and push the child when its hash is new. The
   * pushed children are described by `order` (the index of each one's move)
   * and `added` (their histories, positions and hashes); afterwards the
   * hash of every child is visited, so the new hashes are exactly the
   * children's hashes that were not visited before.
   */
  method PushChildren(state: GameState, moves: seq<Move>, stack0: seq<GameState>, visited0: set<bv64>,
                      ghost deck: seq<Card>, ghost ms: seq<Move>, ghost t: Tableau, ghost maxDepth: nat)
    returns (stack: seq<GameState>, visited: set<bv64>, ghost order: seq<nat>, ghost top: seq<GameState>, ghost added: Trail)
    requires state.Valid() && state.initialDeck == deck && state.moves == ms && state.tableau == t
    requires LegalLine(Deal(deck), ms) && |ms| < maxDepth && moves == LegalMoves(t)
    ensures stack == stack0 + top && |top| == |order|
    ensures forall k :: 0 <= k < |order| ==> order[k] < |moves|
    ensures forall k, l :: 0 <= k < l < |order| ==> order[k] > order[l]
    ensures Mirror(top, deck, added)
    ensures forall k :: 0 <= k < |order| ==> added.lines[k] == ms + [moves[order[k]]]
    ensures AllReached(deck, added, maxDepth)
    ensures visited == visited0 + Elements(added.hashes)
    ensures visited == visited0 + ChildHashes(t, moves)
    ensures NoDuplicates(added.hashes) && forall k :: 0 <= k < |added.hashes| ==> added.hashes[k] !in visited0
  {
    GeneratedMovesExtendLine(deck, ms, moves);
    var children;
    ghost var kids;
    children, kids := ExpandAll(state, moves, deck, ms, t);
    ghost var pushed;
    stack, visited, order, pushed := PushNew(children, stack0, visited0);
    top := Pick(children, order);
    added := PickedChildren(t, ms, moves, children, deck, kids, order, pushed, visited0, visited, maxDepth);
  }

  /**
   * The pushed children as values: mirrored by the states pushed, each one
   * move deeper along a generated move and reached, and, with those visited
   * before, their hashes are the hashes of all the children.
   */
  lemma PickedChildren(t: Tableau, ms: seq<Move>, moves: seq<Move>, children: seq<GameState>, deck: seq<Card>, kids: Trail,
                       order: seq<nat>, pushed: seq<bv64>, visited0: set<bv64>, visited: set<bv64>, maxDepth: nat)
    returns (added: Trail)
    requires t.Valid() && |deck| == CARDS_PER_DECK && |ms| < maxDepth
    requires |children| == |moves| && Mirror(children, deck, kids)
    requires forall i :: 0 <= i < |moves| ==> LegalLine(Deal(deck), ms + [moves[i]]) && CanApply(t, moves[i])
    requires forall i :: 0 <= i < |moves| ==> kids.lines[i] == ms + [moves[i]] && kids.tabs[i] == Apply(t, moves[i])
    requires forall i :: 0 <= i < |moves| ==> kids.hashes[i] == Hash(Apply(t, moves[i]))
    requires forall i :: 0 <= i < |moves| ==> Consistent(deck, kids.lines[i], kids.tabs[i], kids.hashes[i])
    requires |pushed| == |order| && forall k :: 0 <= k < |order| ==> order[k] < |children| && pushed[k] == children[order[k]].tableauHash
    requires forall j :: 0 <= j < |children| ==> children[j].tableauHash in visited
    requires visited == visited0 + Elements(pushed)
    ensures added.hashes == pushed && Mirror(Pick(children, order), deck, added)
    ensures forall k :: 0 <= k < |order| ==> added.lines[k] == ms + [moves[order[k]]]
    ensures AllReached(deck, added, maxDepth)
    ensures visited == visited0 + ChildHashes(t, moves)
  {
    added := Trail(Pick(kids.lines, order), Pick(kids.tabs, order), pushed);
    MirrorPick(children, deck, kids, order, pushed);
    ChildrenReached(deck, ms, moves, kids, maxDepth);
    AllReachedPick(deck, kids, order, pushed, maxDepth);
    PushedAllChildren(t, moves, children, deck, kids, order, pushed, visited0, visited);
  }

  /** The pushed hashes, together with those visited before, are all the children's hashes. */
  lemma PushedAllChildren(t: Tableau, moves: seq<Move>, children: seq<GameState>, deck: seq<Card>, kids: Trail,
                          order: seq<nat>, pushed: seq<bv64>, visited0: set<bv64>, visited: set<bv64>)
    requires t.Valid() && Mirror(children, deck, kids) && |children| == |moves|
    requires forall i :: 0 <= i < |moves| ==> CanApply(t, moves[i]) && kids.hashes[i] == Hash(Apply(t, moves[i]))
    requires |pushed| == |order| && forall k :: 0 <= k < |order| ==> order[k] < |children| && pushed[k] == children[order[k]].tableauHash
    requires forall j :: 0 <= j < |children| ==> children[j].tableauHash in visited
    requires visited == visited0 + Elements(pushed)
    ensures visited == visited0 + ChildHashes(t, moves)
  {
    ChildHashesAre(t, moves, kids.hashes);
    VisitedChildren(visited0, visited, pushed, kids.hashes, order);
  }

  /** When every child's hash is visited and the visited set grew by picked children's hashes only, it grew by all of them. */
  lemma VisitedChildren(visited0: set<bv64>, visited: set<bv64>, pushed: seq<bv64>, hs: seq<bv64>, order: seq<nat>)
    requires |pushed| == |order| && forall k :: 0 <= k < |order| ==> order[k] < |hs| && pushed[k] == hs[order[k]]
    requires forall j :: 0 <= j < |hs| ==> hs[j] in visited
    requires visited == visited0 + Elements(pushed)
    ensures visited == visited0 + Elements(hs)
  {
    forall h | h in Elements(pushed)
      ensures h in Elements(hs)
    {
      var k :| 0 <= k < |pushed| && pushed[k] == h;
      assert hs[order[k]] == h;
    }
  }

  /** The children of a reached state below the depth limit, along generated moves, are reached ones. */
  lemma ChildrenReached(deck: seq<Card>, ms: seq<Move>, moves: seq<Move>, kids: Trail, maxDepth: nat)
    requires |deck| == CARDS_PER_DECK && |ms| < maxDepth
    requires |kids.lines| == |moves| && |kids.tabs| == |moves| && |kids.hashes| == |moves|
    requires forall i :: 0 <= i < |moves| ==> kids.lines[i] == ms + [moves[i]]
    requires forall i :: 0 <= i < |moves| ==> Consistent(deck, kids.lines[i], kids.tabs[i], kids.hashes[i])
    requires forall i :: 0 <= i < |moves| ==> LegalLine(Deal(deck), ms + [moves[i]])
    ensures AllReached(deck, kids, maxDepth)
  {
    forall i | 0 <= i < |kids.lines|
      ensures Reached(deck, kids.lines[i], kids.tabs[i], kids.hashes[i], maxDepth)
    {
      assert kids.lines[i] == ms + [moves[i]];
    }
  }

  lemma PickSnoc<T>(xs: seq<T>, order: seq<nat>, j: nat)
    requires j < |xs| && forall k :: 0 <= k < |order| ==> order[k] < |xs|
    ensures Pick(xs, order + [j]) == Pick(xs, order) + [xs[j]]
  {
  }

  lemma AppendAssoc<T>(a: seq<T>, b: seq<T>, x: T)
    ensures a + b + [x] == a + (b + [x])
  {
  }

  /** The entries of `xs` at the indices `order`, in that order. */
  function Pick<T>(xs: seq<T>, order: seq<nat>): (r: seq<T>)
    requires forall k :: 0 <= k < |order| ==> order[k] < |xs|
    ensures |r| == |order| && forall k :: 0 <= k < |order| ==> r[k] == xs[order[k]]
  {
    seq(|order|, k requires 0 <= k < |order| => xs[order[k]])
  }

  /** The states picked from mirrored children are mirrored by the picked values. */
  lemma MirrorPick(children: seq<GameState>, deck: seq<Card>, kids: Trail, order: seq<nat>, pushed: seq<bv64>)
    requires Mirror(children, deck, kids)
    requires |pushed| == |order| && forall k :: 0 <= k < |order| ==> order[k] < |children|
    requires forall k :: 0 <= k < |order| ==> pushed[k] == children[order[k]].tableauHash
    ensures Mirror(Pick(children, order), deck, Trail(Pick(kids.lines, order), Pick(kids.tabs, order), pushed))
  {
    var top := Pick(children, order);
    forall k | 0 <= k < |order|
      ensures top[k].initialDeck == deck && top[k].moves == Pick(kids.lines, order)[k]
      ensures top[k].tableau == Pick(kids.tabs, order)[k] && top[k].tableauHash == pushed[k]
    {
      assert top[k] == children[order[k]];
    }
  }

  lemma AllReachedPick(deck: seq<Card>, kids: Trail, order: seq<nat>, pushed: seq<bv64>, maxDepth: nat)
    requires AllReached(deck, kids, maxDepth)
    requires |pushed| == |order| && forall k :: 0 <= k < |order| ==> order[k] < |kids.lines| && pushed[k] == kids.hashes[order[k]]
    ensures AllReached(deck, Trail(Pick(kids.lines, order), Pick(kids.tabs, order), pushed), maxDepth)
  {
  }

  /** A position as values: consistent, reached by generated moves from the deal of `deck`, within the depth budget. */
  ghost predicate Reached(deck: seq<Card>, ms: seq<Move>, t: Tableau, h: bv64, maxDepth: nat)
  {
    && Consistent(deck, ms, t, h)
    && LegalLine(Deal(deck), ms)
    && |ms| <= maxDepth
  }

  ghost predicate AllReached(deck: seq<Card>, tr: Trail, maxDepth: nat)
  {
    && |tr.tabs| == |tr.lines| && |tr.hashes| == |tr.lines|
    && forall i :: 0 <= i < |tr.lines| ==> Reached(deck, tr.lines[i], tr.tabs[i], tr.hashes[i], maxDepth)
  }

  /** The states of `stack` hold exactly the decks, histories, positions and hashes of `tr`. */
  ghost predicate Mirror(stack: seq<GameState>, deck: seq<Card>, tr: Trail)
    reads stack
  {
    && |tr.lines| == |stack| && |tr.tabs| == |stack| && |tr.hashes| == |stack|
    && forall i :: 0 <= i < |stack| ==>
      && stack[i].initialDeck == deck && stack[i].moves == tr.lines[i]
      && stack[i].tableau == tr.tabs[i] && stack[i].tableauHash == tr.hashes[i]
  }

  lemma AllReachedAppend(deck: seq<Card>, a: Trail, b: Trail, maxDepth: nat)
    requires AllReached(deck, a, maxDepth) && AllReached(deck, b, maxDepth)
    ensures AllReached(deck, Concat(a, b), maxDepth)
  {
    var c := Concat(a, b);
    forall i | 0 <= i < |c.lines|
      ensures Reached(deck, c.lines[i], c.tabs[i], c.hashes[i], maxDepth)
    {
      ConcatAt(a, b, i);
    }
  }

  /** Entry `i` of a concatenation is entry `i` of the first trail, or entry `i - |a.lines|` of the second. */
  lemma ConcatAt(a: Trail, b: Trail, i: nat)
    requires |a.tabs| == |a.lines| && |a.hashes| == |a.lines| && |b.tabs| == |b.lines| && |b.hashes| == |b.lines|
    requires i < |a.lines| + |b.lines|
    ensures var c := Concat(a, b);
      if i < |a.lines| then c.lines[i] == a.lines[i] && c.tabs[i] == a.tabs[i] && c.hashes[i] == a.hashes[i]
      else c.lines[i] == b.lines[i - |a.lines|] && c.tabs[i] == b.tabs[i - |a.lines|] && c.hashes[i] == b.hashes[i - |a.lines|]
  {
  }

  /** Appending hashes that are new and distinct keeps a sequence free of duplicates. */
  lemma NoDuplicatesAppend(a: seq<bv64>, b: seq<bv64>)
    requires NoDuplicates(a) && NoDuplicates(b) && forall k :: 0 <= k < |b| ==> b[k] !in Elements(a)
    ensures NoDuplicates(a + b)
  {
    forall i, j | 0 <= i < j < |a + b|
      ensures (a + b)[i] != (a + b)[j]
    {
      if j >= |a| && i < |a| {
        assert (a + b)[j] == b[j - |a|];
        assert (a + b)[i] in Elements(a);
      }
    }
  }

  /**
   * The states of `stack` are entries of the pushed log, at the increasing
   * indices `idx`: a state pushed later sits higher on the stack.
   */
  ghost predicate OnLog(stack: seq<GameState>, deck: seq<Card>, log: Trail, idx: seq<nat>)
    reads stack
  {
    && |idx| == |stack| && |log.tabs| == |log.lines| && |log.hashes| == |log.lines|
    && (forall i, j :: 0 <= i < j < |idx| ==> idx[i] < idx[j])
    && forall i :: 0 <= i < |stack| ==>
      && idx[i] < |log.lines| && stack[i].initialDeck == deck && stack[i].moves == log.lines[idx[i]]
      && stack[i].tableau == log.tabs[idx[i]] && stack[i].tableauHash == log.hashes[idx[i]]
  }

  /**
   * What the search keeps true of its stack and its visited set. `log`
   * lists every state put on the stack so far, the opening deal first:
   * each is a reached position, no two share a hash, and `visited` is the
   * set of their hashes. The stack holds the log entries at `idx`.
   */
  ghost predicate Frontier(stack: seq<GameState>, visited: set<bv64>, deck: seq<Card>, log: Trail, idx: seq<nat>, maxDepth: nat)
    reads stack
  {
    && |deck| == CARDS_PER_DECK
    && AllReached(deck, log, maxDepth)
    && |log.lines| >= 1 && log.lines[0] == []
    && visited == Elements(log.hashes) && NoDuplicates(log.hashes)
    && OnLog(stack, deck, log, idx)
  }

  /**
   * A state whose visit is over: it is not won, and, below the depth limit,
   * the hash of every position one generated move away is visited.
   */
  ghost predicate Done(t: Tableau, depth: nat, visited: set<bv64>, maxDepth: nat)
  {
    && t.Valid() && !IsWin(t)
    && (depth < maxDepth ==> ChildHashes(t, LegalMoves(t)) <= visited)
  }

  /** Every log entry off the stack has been visited, except possibly the entry `p`. */
  ghost predicate ClosedBut(log: Trail, idx: seq<nat>, p: int, visited: set<bv64>, maxDepth: nat)
  {
    && |log.tabs| == |log.lines|
    && forall k :: 0 <= k < |log.lines| && k !in idx && k != p ==> Done(log.tabs[k], |log.lines[k]|, visited, maxDepth)
  }

  /**
   * `stack.pop()`: the top state comes off the stack. What is left is a
   * frontier, the state taken is the reached log entry `p`, and `p` is the
   * one entry off the stack that may not be visited yet.
   */
  method Pop(stack0: seq<GameState>, ghost visited: set<bv64>, ghost deck: seq<Card>, ghost log: Trail, ghost idx0: seq<nat>,
             ghost maxDepth: nat)
    returns (state: GameState, stack: seq<GameState>, ghost idx: seq<nat>, ghost p: nat)
    requires stack0 != [] && Frontier(stack0, visited, deck, log, idx0, maxDepth) && ClosedBut(log, idx0, -1, visited, maxDepth)
    ensures stack == stack0[..|stack0| - 1] && state == stack0[|stack0| - 1]
    ensures idx == idx0[..|idx0| - 1] && p == idx0[|idx0| - 1]
    ensures Frontier(stack, visited, deck, log, idx, maxDepth) && ClosedBut(log, idx, p, visited, maxDepth)
    ensures p < |log.lines| && state.initialDeck == deck && state.moves == log.lines[p]
    ensures state.tableau == log.tabs[p] && state.tableauHash == log.hashes[p]
    ensures Reached(deck, log.lines[p], log.tabs[p], log.hashes[p], maxDepth)
  {
    var n := |stack0| - 1;
    state, stack := stack0[n], stack0[..n];
    idx, p := idx0[..n], idx0[n];
    FrontierPop(stack0, visited, deck, log, idx0, maxDepth);
    ClosedPop(log, idx0, visited, maxDepth);
  }

  lemma FrontierPop(stack: seq<GameState>, visited: set<bv64>, deck: seq<Card>, log: Trail, idx: seq<nat>, maxDepth: nat)
    requires stack != [] && Frontier(stack, visited, deck, log, idx, maxDepth)
    ensures var n := |stack| - 1; var p := idx[n];
      && Frontier(stack[..n], visited, deck, log, idx[..n], maxDepth)
      && p < |log.lines| && stack[n].initialDeck == deck && stack[n].moves == log.lines[p]
      && stack[n].tableau == log.tabs[p] && stack[n].tableauHash == log.hashes[p]
      && Reached(deck, log.lines[p], log.tabs[p], log.hashes[p], maxDepth)
  {
  }

  lemma ClosedPop(log: Trail, idx: seq<nat>, visited: set<bv64>, maxDepth: nat)
    requires idx != [] && ClosedBut(log, idx, -1, visited, maxDepth)
    ensures ClosedBut(log, idx[..|idx| - 1], idx[|idx| - 1], visited, maxDepth)
  {
    assert idx == idx[..|idx| - 1] + [idx[|idx| - 1]];
  }

  /** Once the entry `p` is visited and the new entries wait on the stack, every entry off the stack is visited. */
  lemma ClosedAfterVisit(log0: Trail, idx0: seq<nat>, p: nat, visited0: set<bv64>, added: Trail,
                         log: Trail, idx: seq<nat>, visited: set<bv64>, maxDepth: nat)
    requires ClosedBut(log0, idx0, p, visited0, maxDepth) && visited0 <= visited
    requires p < |log0.lines| && Done(log0.tabs[p], |log0.lines[p]|, visited, maxDepth)
    requires |added.tabs| == |added.lines|
    requires log == Concat(log0, added) && idx == idx0 + Range(|log0.lines|, |log.lines|)
    ensures ClosedBut(log, idx, -1, visited, maxDepth)
  {
    var n0 := |log0.lines|;
    forall k | n0 <= k < |log.lines|
      ensures k in idx
    {
      assert idx[|idx0| + (k - n0)] == k;
    }
    forall k | 0 <= k < n0 && k !in idx
      ensures Done(log.tabs[k], |log.lines[k]|, visited, maxDepth)
    {
      assert log.tabs[k] == log0.tabs[k] && log.lines[k] == log0.lines[k];
    }
  }

  /** Pushing mirrored new entries on top of a stack on the log puts them at the log's new indices. */
  lemma OnLogExtend(stack0: seq<GameState>, top: seq<GameState>, deck: seq<Card>, log0: Trail, idx0: seq<nat>, added: Trail)
    requires OnLog(stack0, deck, log0, idx0) && Mirror(top, deck, added)
    ensures var n0 := |log0.lines|;
      OnLog(stack0 + top, deck, Concat(log0, added), idx0 + Range(n0, n0 + |added.lines|))
  {
    var n0 := |log0.lines|;
    var stack, log, idx := stack0 + top, Concat(log0, added), idx0 + Range(n0, n0 + |added.lines|);
    forall i | 0 <= i < |stack|
      ensures idx[i] < |log.lines| && stack[i].initialDeck == deck && stack[i].moves == log.lines[idx[i]]
      ensures stack[i].tableau == log.tabs[idx[i]] && stack[i].tableauHash == log.hashes[idx[i]]
    {
      if i < |stack0| {
        assert stack[i] == stack0[i] && idx[i] == idx0[i];
      } else {
        var j := i - |stack0|;
        assert stack[i] == top[j] && idx[i] == n0 + j;
      }
    }
  }

  /** The new entries' histories each extend `line` by one move generated at `t`. */
  ghost predicate ChildLines(added: Trail, line: seq<Move>, t: Tableau)
  {
    && t.Valid()
    && forall k :: 0 <= k < |added.lines| ==>
      |added.lines[k]| == |line| + 1 && added.lines[k][..|line|] == line && added.lines[k][|line|] in LegalMoves(t)
  }

  lemma ChildLinesOf(added: Trail, line: seq<Move>, t: Tableau, moves: seq<Move>, order: seq<nat>)
    requires t.Valid() && moves == LegalMoves(t) && |added.lines| == |order|
    requires forall k :: 0 <= k < |order| ==> order[k] < |moves| && added.lines[k] == line + [moves[order[k]]]
    ensures ChildLines(added, line, t)
  {
    forall k | 0 <= k < |added.lines|
      ensures |added.lines[k]| == |line| + 1 && added.lines[k][..|line|] == line && added.lines[k][|line|] in LegalMoves(t)
    {
      assert added.lines[k] == line + [moves[order[k]]];
    }
  }

  /** A history within a 16-bit depth limit is kept by the `u16` cast. */
  lemma DepthBelowLimit(len: nat, maxDepth: Depth)
    requires len <= maxDepth
    ensures len % 0x1_0000 == len
    ensures len % 0x1_0000 < maxDepth <==> len < maxDepth
  {
  }

  /** A winning state taken off the stack makes a consistent outcome. */
  lemma WinOutcomeConsistent(deck: seq<Card>, line: seq<Move>, tab: Tableau, h: bv64, limits: SearchLimits, nodes: nat)
    requires Reached(deck, line, tab, h, limits.maxDepth) && IsWin(tab) && 1 <= nodes <= limits.maxNodes + 1
    ensures OutcomeConsistent(deck, limits, GameOutcome(deck, true, Some(line), nodes))
  {
  }

  /**
   * The expansion step of the search loop: the children of a reached state
   * below the depth limit whose hashes are new go on the stack and at the
   * end of the log, and the hash of every child is visited afterwards.
   */
  method ExpandNode(state: GameState, moves: seq<Move>, stack0: seq<GameState>, visited0: set<bv64>,
                    ghost deck: seq<Card>, ghost log0: Trail, ghost idx0: seq<nat>,
                    ghost line: seq<Move>, ghost tab: Tableau, ghost maxDepth: nat)
    returns (stack: seq<GameState>, visited: set<bv64>, ghost log: Trail, ghost idx: seq<nat>, ghost added: Trail)
    requires Frontier(stack0, visited0, deck, log0, idx0, maxDepth)
    requires state.initialDeck == deck && state.moves == line && state.tableau == tab
    requires Reached(deck, line, tab, state.tableauHash, maxDepth) && |line| < maxDepth && moves == LegalMoves(tab)
    ensures Frontier(stack, visited, deck, log, idx, maxDepth)
    ensures log == Concat(log0, added) && idx == idx0 + Range(|log0.lines|, |log.lines|)
    ensures |stack| == |stack0| + |added.lines| && stack[..|stack0|] == stack0
    ensures visited == visited0 + Elements(added.hashes)
    ensures visited == visited0 + ChildHashes(tab, moves)
    ensures ChildLines(added, line, tab)
  {
    ghost var order, top;
    stack, visited, order, top, added := PushChildren(state, moves, stack0, visited0, deck, line, tab, maxDepth);
    AllReachedAppend(deck, log0, added, maxDepth);
    NoDuplicatesAppend(log0.hashes, added.hashes);
    ElementsAppend(log0.hashes, added.hashes);
    OnLogExtend(stack0, top, deck, log0, idx0, added);
    ChildLinesOf(added, line, tab, moves, order);
    log := Concat(log0, added);
    idx := idx0 + Range(|log0.lines|, |log.lines|);
  }

  /** The search's opening: the deal of `deck` alone on the stack and in the log, its hash the only one visited. */
  method StartSearch(deck: seq<Card>, ghost maxDepth: nat)
    returns (stack: seq<GameState>, visited: set<bv64>, ghost log: Trail, ghost idx: seq<nat>)
    requires |deck| == CARDS_PER_DECK
    ensures |stack| == 1 && |log.lines| == 1 && Frontier(stack, visited, deck, log, idx, maxDepth)
    ensures ClosedBut(log, idx, -1, visited, maxDepth)
  {
    var initial := new GameState(deck);
    var first := initial.Clone();
    stack, visited := [first], {initial.tableauHash};
    log, idx := Trail([[]], [first.tableau], [first.tableauHash]), [0];
    DealIsSound(deck);
  }

  /**
   * One visited state of the search loop past the node count: a win is
   * reported; otherwise, below the depth limit, its generated moves are
   * expanded and the children with new hashes pushed, after which the hash
   * of every child is visited. At the depth limit, or on a win, nothing is
   * pushed.
   */
  method Visit(state: GameState, stack0: seq<GameState>, visited0: set<bv64>,
               ghost deck: seq<Card>, ghost log0: Trail, ghost idx0: seq<nat>,
               ghost line: seq<Move>, ghost tab: Tableau, maxDepth: Depth)
    returns (win: bool, stack: seq<GameState>, visited: set<bv64>, ghost log: Trail, ghost idx: seq<nat>, ghost added: Trail)
    requires Frontier(stack0, visited0, deck, log0, idx0, maxDepth)
    requires state.initialDeck == deck && state.moves == line && state.tableau == tab
    requires Reached(deck, line, tab, state.tableauHash, maxDepth)
    ensures win <==> IsWin(tab)
    ensures Frontier(stack, visited, deck, log, idx, maxDepth)
    ensures log == Concat(log0, added) && idx == idx0 + Range(|log0.lines|, |log.lines|)
    ensures |stack| == |stack0| + |added.lines| && stack[..|stack0|] == stack0
    ensures visited == visited0 + Elements(added.hashes)
    ensures win || |line| >= maxDepth ==> added == EMPTY_TRAIL
    ensures !win && |line| < maxDepth ==> visited == visited0 + ChildHashes(tab, LegalMoves(tab))
    ensures ChildLines(added, line, tab)
    ensures !win ==> Done(tab, |line|, visited, maxDepth)
  {
    stack, visited, log, idx, added := stack0, visited0, log0, idx0, EMPTY_TRAIL;
    var tableau := state.CurrentTableau();
    win := IsWin(tableau);
    DepthBelowLimit(|line|, maxDepth);
    if win || |state.moves| % 0x1_0000 >= maxDepth {
      NothingPushed(stack0, deck, log0, idx0, line, tab, state.tableauHash, visited0, maxDepth);
      return;
    }
    var moves := GenerateLegalMoves(tableau);
    if moves == [] {
      NothingPushed(stack0, deck, log0, idx0, line, tab, state.tableauHash, visited0, maxDepth);
      return;
    }
    stack, visited, log, idx, added := ExpandNode(state, moves, stack0, visited0, deck, log0, idx0, line, tab, maxDepth);
    ExpandedIsDone(tab, |line|, visited0, visited, maxDepth);
  }

  /** A visit that pushes nothing keeps the log and, on a state that is not won and has no child to push, ends it. */
  lemma NothingPushed(stack0: seq<GameState>, deck: seq<Card>, log0: Trail, idx0: seq<nat>, line: seq<Move>, tab: Tableau, h: bv64,
                      visited0: set<bv64>, maxDepth: nat)
    requires Reached(deck, line, tab, h, maxDepth) && |log0.tabs| == |log0.lines| && |log0.hashes| == |log0.lines|
    ensures stack0[..|stack0|] == stack0 && |stack0| == |stack0| + |EMPTY_TRAIL.lines|
    ensures log0 == Concat(log0, EMPTY_TRAIL) && idx0 == idx0 + Range(|log0.lines|, |log0.lines|)
    ensures visited0 == visited0 + Elements(EMPTY_TRAIL.hashes) && ChildLines(EMPTY_TRAIL, line, tab)
    ensures !IsWin(tab) && (|line| >= maxDepth || LegalMoves(tab) == []) ==> Done(tab, |line|, visited0, maxDepth)
    ensures LegalMoves(tab) == [] ==> visited0 == visited0 + ChildHashes(tab, LegalMoves(tab))
  {
    assert ChildHashes(tab, []) == {};
  }

  /** A state that is not won, once all its children's hashes are visited, is done. */
  lemma ExpandedIsDone(tab: Tableau, depth: nat, visited0: set<bv64>, visited: set<bv64>, maxDepth: nat)
    requires tab.Valid() && visited == visited0 + ChildHashes(tab, LegalMoves(tab))
    ensures !IsWin(tab) ==> Done(tab, depth, visited, maxDepth)
  {
  }

  /**
   * What the search's log of pushed states promises about an outcome: every
   * entry is a reached position, the opening deal first, and no two share a
   * hash; the node count never exceeds the number of pushed states; a
   * winning line is the history of a pushed state, found within the node
   * budget. When the stack ran empty within the budget, every pushed state
   * was visited: none is won, and below the depth limit every position one
   * generated move away from it has the hash of a pushed state.
   */
  ghost predicate SearchRecord(deck: seq<Card>, limits: SearchLimits, o: GameOutcome, log: Trail)
    requires |deck| == CARDS_PER_DECK
  {
    && AllReached(deck, log, limits.maxDepth)
    && |log.lines| >= 1 && log.lines[0] == []
    && NoDuplicates(log.hashes)
    && o.nodesVisited <= |log.lines|
    && (o.winningLine.Some? ==> o.winningLine.value in log.lines && o.nodesVisited <= limits.maxNodes)
    && (!o.isWin && o.nodesVisited <= limits.maxNodes ==>
          && o.nodesVisited == |log.lines|
          && forall k :: 0 <= k < |log.lines| ==> Done(log.tabs[k], |log.lines[k]|, Elements(log.hashes), limits.maxDepth))
  }

  /** The outcome of a won visit, found in the node budget, is consistent and recorded by the log. */
  lemma RecordWin(deck: seq<Card>, limits: SearchLimits, stack: seq<GameState>, visited: set<bv64>, log: Trail, idx: seq<nat>,
                  p: nat, nodes: nat)
    requires Frontier(stack, visited, deck, log, idx, limits.maxDepth)
    requires p < |log.lines| && IsWin(log.tabs[p]) && 1 <= nodes <= |log.lines| && nodes <= limits.maxNodes
    ensures OutcomeConsistent(deck, limits, GameOutcome(deck, true, Some(log.lines[p]), nodes))
    ensures SearchRecord(deck, limits, GameOutcome(deck, true, Some(log.lines[p]), nodes), log)
  {
  }

  /** The outcome of a search that ran out of node budget is recorded by the log. */
  lemma RecordCutoff(deck: seq<Card>, limits: SearchLimits, stack: seq<GameState>, visited: set<bv64>, log: Trail, idx: seq<nat>,
                     nodes: nat)
    requires Frontier(stack, visited, deck, log, idx, limits.maxDepth) && |stack| + nodes == |log.lines| && nodes == limits.maxNodes + 1
    ensures OutcomeConsistent(deck, limits, GameOutcome(deck, false, None, nodes))
    ensures SearchRecord(deck, limits, GameOutcome(deck, false, None, nodes), log)
  {
  }

  /** The outcome of a search whose stack ran empty is recorded by the log. */
  lemma RecordExhausted(deck: seq<Card>, limits: SearchLimits, visited: set<bv64>, log: Trail, idx: seq<nat>, nodes: nat)
    requires Frontier([], visited, deck, log, idx, limits.maxDepth) && nodes == |log.lines| && nodes <= limits.maxNodes
    requires ClosedBut(log, idx, -1, visited, limits.maxDepth)
    ensures OutcomeConsistent(deck, limits, GameOutcome(deck, false, None, nodes))
    ensures SearchRecord(deck, limits, GameOutcome(deck, false, None, nodes), log)
  {
  }

  /**
   * `solve_single_deck_with_config`. The trace level only prints, so it
   * plays no part here. `log` lists the states put on the stack, in the
   * order they were pushed.
   */
  method SolveSingleDeckWithConfig(deck: seq<Card>, cfg: SearchConfig) returns (outcome: GameOutcome, ghost log: Trail)
    requires |deck| == CARDS_PER_DECK
    ensures OutcomeConsistent(deck, cfg.limits, outcome)
    ensures SearchRecord(deck, cfg.limits, outcome, log)
  {
    var maxNodes, maxDepth := cfg.limits.maxNodes, cfg.limits.maxDepth;
    var stack, visited;
    ghost var idx;
    stack, visited, log, idx := StartSearch(deck, maxDepth);
    var nodesVisited: nat := 0;
    while stack != []
      invariant nodesVisited <= maxNodes
      invariant |stack| + nodesVisited == |log.lines|
      invariant Frontier(stack, visited, deck, log, idx, maxDepth)
      invariant ClosedBut(log, idx, -1, visited, maxDepth)
      decreases maxNodes - nodesVisited
    {
      var state;
      ghost var p;
      state, stack, idx, p := Pop(stack, visited, deck, log, idx, maxDepth);
      nodesVisited := nodesVisited + 1;
      if nodesVisited > maxNodes {
        RecordCutoff(deck, cfg.limits, stack, visited, log, idx, nodesVisited);
        outcome := GameOutcome(deck, false, None, nodesVisited);
        return;
      }
      ghost var log0, idx0, visited0 := log, idx, visited;
      var win;
      ghost var added;
      win, stack, visited, log, idx, added := Visit(state, stack, visited, deck, log, idx, log.lines[p], log.tabs[p], maxDepth);
      if win {
        RecordWin(deck, cfg.limits, stack, visited, log, idx, p, nodesVisited);
        outcome := GameOutcome(state.initialDeck, true, Some(state.moves), nodesVisited);
        return;
      }
      ClosedAfterVisit(log0, idx0, p, visited0, added, log, idx, visited, maxDepth);
    }
    RecordExhausted(deck, cfg.limits, visited, log, idx, nodesVisited);
    outcome := GameOutcome(deck, false, None, nodesVisited);
  }

  /** `solve_single_deck_dfs`: the given limits, summary detail. */
  method SolveSingleDeckDfs(deck: seq<Card>, limits: SearchLimits) returns (outcome: GameOutcome, ghost log: Trail)
    requires |deck| == CARDS_PER_DECK
    ensures OutcomeConsistent(deck, limits, outcome)
    ensures SearchRecord(deck, limits, outcome, log)
  {
    outcome, log := SolveSingleDeckWithConfig(deck, SearchConfig(limits, Summary));
  }

  /** `solve_single_deck`: the default limits of 100000 nodes and depth 256. */
  method SolveSingleDeck(deck: seq<Card>) returns (outcome: GameOutcome, ghost log: Trail)
    requires |deck| == CARDS_PER_DECK
    ensures OutcomeConsistent(deck, DEFAULT_LIMITS, outcome)
    ensures SearchRecord(deck, DEFAULT_LIMITS, outcome, log)
  {
    outcome, log := SolveSingleDeckDfs(deck, DEFAULT_LIMITS);
  }
}
