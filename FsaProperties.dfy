/**
  Properties of the CTC and ASG edge lists specified in module Fsa: their
  sizes and layout, the append-only growth of the list, the skip-edge rule,
  the bounds of states and symbols, and reachability of every state.
*/
module FsaProperties {
  import opened Fsa

  // ---------------------------------------------------------------------------
  // CTC: size and layout
  // ---------------------------------------------------------------------------

  /** After k positions the list holds 4 edges per position plus one per skip. */
  lemma {:induction false} CtcBlocksLength(labelSeq: seq<int>, k: nat, numLabels: nat)
    requires k <= |labelSeq|
    ensures |CtcBlocks(labelSeq, k, numLabels)| == BlockOffset(labelSeq, k)
    decreases k
  {
    if k > 0 {
      CtcBlocksLength(labelSeq, k - 1, numLabels);
    }
  }

  /** Edges are only ever appended: the list after j positions is a prefix of
      the list after any later number of positions. */
  lemma {:induction false} CtcBlocksPrefix(labelSeq: seq<int>, j: nat, k: nat, numLabels: nat)
    requires j <= k <= |labelSeq|
    ensures CtcBlocks(labelSeq, j, numLabels) <= CtcBlocks(labelSeq, k, numLabels)
    decreases k
  {
    if j < k {
      CtcBlocksPrefix(labelSeq, j, k - 1, numLabels);
      var before := CtcBlocks(labelSeq, k - 1, numLabels);
      assert before <= before + CtcBlockEdges(labelSeq, k - 1, numLabels);
    }
  }

  /** Total CTC edge count, and the four closing edges at the end of the list. */
  lemma CtcEdgeCount(numLabels: nat, labelSeq: seq<int>)
    requires |labelSeq| >= 1
    ensures var edges := CtcEdges(numLabels, labelSeq);
            var L := |labelSeq|;
            var fin := 2 * L + 1;
            && |edges| == 4 * L + SkipCount(labelSeq, L) + 4
            && edges[|edges| - 4..] == [Arc(fin - 1, fin, numLabels), Arc(fin, fin, numLabels),
                                        Arc(fin - 2, fin, L - 1), Arc(fin - 3, fin, L - 1)]
  {
    CtcBlocksLength(labelSeq, |labelSeq|, numLabels);
  }

  /** Position m's block sits at BlockOffset(m) of the final list: the four
      fixed edges in order, then the skip edge exactly when HasSkip(m), and the
      next block starts right after. */
  lemma CtcPositionEdges(numLabels: nat, labelSeq: seq<int>, m: nat)
    requires m < |labelSeq|
    ensures var edges := CtcEdges(numLabels, labelSeq);
            var o := BlockOffset(labelSeq, m);
            var i := 2 * m;
            && BlockOffset(labelSeq, m + 1) == o + (if HasSkip(labelSeq, m) then 5 else 4)
            && BlockOffset(labelSeq, m + 1) <= |edges|
            && edges[o] == Arc(i, i + 1, numLabels)
            && edges[o + 1] == Arc(i + 1, i + 1, numLabels)
            && edges[o + 2] == Arc(i + 1, i + 2, m)
            && edges[o + 3] == Arc(i + 2, i + 2, m)
            && (HasSkip(labelSeq, m) ==> edges[o + 4] == Arc(i, i + 2, m))
  {
    var before := CtcBlocks(labelSeq, m, numLabels);
    var block := CtcBlockEdges(labelSeq, m, numLabels);
    var i := 2 * m;
    CtcBlocksPrefix(labelSeq, m + 1, |labelSeq|, numLabels);
    CtcBlocksLength(labelSeq, m, numLabels);
    assert CtcBlocks(labelSeq, m + 1, numLabels) == before + block;
    PrefixAt(before, block, CtcEdges(numLabels, labelSeq));
    assert block[0] == Arc(i, i + 1, numLabels) && block[1] == Arc(i + 1, i + 1, numLabels);
    assert block[2] == Arc(i + 1, i + 2, m) && block[3] == Arc(i + 2, i + 2, m);
    assert HasSkip(labelSeq, m) ==> block[4] == Arc(i, i + 2, m);
  }

  /** Where s + t is a prefix of u, t sits in u right after s. */
  lemma PrefixAt(s: seq<Edge>, t: seq<Edge>, u: seq<Edge>)
    requires s + t <= u
    ensures forall d :: 0 <= d < |t| ==> u[|s| + d] == t[d]
  {
    forall d | 0 <= d < |t|
      ensures u[|s| + d] == t[d]
    {
      assert u[|s| + d] == (s + t)[|s| + d];
    }
  }

  // ---------------------------------------------------------------------------
  // CTC: which edges occur
  // ---------------------------------------------------------------------------

  lemma {:induction false} InCtcBlocks(labelSeq: seq<int>, k: nat, numLabels: nat, e: Edge)
    requires k <= |labelSeq|
    ensures e in CtcBlocks(labelSeq, k, numLabels) <==>
            exists m :: 0 <= m < k && e in CtcBlockEdges(labelSeq, m, numLabels)
    decreases k
  {
    if k > 0 {
      InCtcBlocks(labelSeq, k - 1, numLabels, e);
    }
  }

  /** An edge of the CTC list is one of the five block shapes of some position,
      or one of the four closing edges. */
  lemma CtcEdgeCases(numLabels: nat, labelSeq: seq<int>, e: Edge)
    requires |labelSeq| >= 1
    requires e in CtcEdges(numLabels, labelSeq)
    ensures var L := |labelSeq|;
            var fin := 2 * L + 1;
            || (exists m :: 0 <= m < L && e in CtcBlockEdges(labelSeq, m, numLabels))
            || e in [Arc(fin - 1, fin, numLabels), Arc(fin, fin, numLabels),
                     Arc(fin - 2, fin, L - 1), Arc(fin - 3, fin, L - 1)]
  {
    InCtcBlocks(labelSeq, |labelSeq|, numLabels, e);
  }

  /** The structural promises about every CTC edge: both endpoints are states
      of the automaton (below 2*L + 2), nothing enters the start state 0, the
      only edge leaving the final state 2*L + 1 is its blank self-loop, edges
      never lead back to a lower state, every weight is the unit weight, and a
      symbol is the blank numLabels or a position index below L. */
  lemma CtcEdgesWellFormed(numLabels: nat, labelSeq: seq<int>)
    requires |labelSeq| >= 1
    ensures var edges := CtcEdges(numLabels, labelSeq);
            var fin := 2 * |labelSeq| + 1;
            forall j :: 0 <= j < |edges| ==>
              && edges[j].src <= edges[j].dst <= fin
              && edges[j].dst != 0
              && (edges[j].src == fin ==> edges[j] == Arc(fin, fin, numLabels))
              && edges[j].weight == UnitWeight
              && (edges[j].symbol == numLabels || edges[j].symbol < |labelSeq|)
  {
    var edges := CtcEdges(numLabels, labelSeq);
    var L := |labelSeq|;
    var fin := 2 * L + 1;
    forall j | 0 <= j < |edges|
      ensures && edges[j].src <= edges[j].dst <= fin
              && edges[j].dst != 0
              && (edges[j].src == fin ==> edges[j] == Arc(fin, fin, numLabels))
              && edges[j].weight == UnitWeight
              && (edges[j].symbol == numLabels || edges[j].symbol < L)
    {
      var e := edges[j];
      CtcEdgeCases(numLabels, labelSeq, e);
      if exists m :: 0 <= m < L && e in CtcBlockEdges(labelSeq, m, numLabels) {
        var m :| 0 <= m < L && e in CtcBlockEdges(labelSeq, m, numLabels);
        var i := 2 * m;
        assert e in [Arc(i, i + 1, numLabels), Arc(i + 1, i + 1, numLabels), Arc(i + 1, i + 2, m),
                     Arc(i + 2, i + 2, m), Arc(i, i + 2, m)];
      }
    }
  }

  /** The predecessor is Python's label_seq[m - 1] with negative indices
      counted from the end: for m = 0 it is the last label. */
  lemma PredecessorIsNegativeIndex(labelSeq: seq<int>, m: nat)
    requires m < |labelSeq|
    ensures Predecessor(labelSeq, m) == labelSeq[(m - 1) % |labelSeq|]
  {
    if m == 0 {
      assert (m - 1) % |labelSeq| == |labelSeq| - 1;
    } else {
      assert (m - 1) % |labelSeq| == m - 1;
    }
  }

  /** The skip edge of position m is present exactly when labelSeq[m] differs
      from its predecessor (the last label, for m = 0). */
  lemma CtcSkipEdgeIff(numLabels: nat, labelSeq: seq<int>, m: nat)
    requires m < |labelSeq|
    ensures Arc(2 * m, 2 * m + 2, m) in CtcEdges(numLabels, labelSeq) <==> HasSkip(labelSeq, m)
  {
    var skip := Arc(2 * m, 2 * m + 2, m);
    var edges := CtcEdges(numLabels, labelSeq);
    if HasSkip(labelSeq, m) {
      CtcPositionEdges(numLabels, labelSeq, m);
      assert edges[BlockOffset(labelSeq, m) + 4] == skip;
    } else if skip in edges {
      CtcEdgeCases(numLabels, labelSeq, skip);
      assert false;
    }
  }

  /** The skip-edge rule on two labels: both positions get their skip edge
      exactly when the labels differ, so [0, 0] has none and [0, 1] has both
      (position 0 is compared with the last label). */
  lemma CtcPairSkips(numLabels: nat, a: int, b: int)
    ensures Arc(0, 2, 0) in CtcEdges(numLabels, [a, b]) <==> a != b
    ensures Arc(2, 4, 1) in CtcEdges(numLabels, [a, b]) <==> a != b
  {
    var pair := [a, b];
    assert HasSkip(pair, 0) == (a != b) && HasSkip(pair, 1) == (a != b);
    CtcSkipEdgeIff(numLabels, pair, 0);
    CtcSkipEdgeIff(numLabels, pair, 1);
  }

  /** The wrap-around at position 0: in [a, b, a] the first label equals the
      last one, so position 0 never gets a skip edge, while position 1 does
      exactly when b differs from a. */
  lemma CtcWrapAroundSkip(numLabels: nat, a: int, b: int)
    ensures Arc(0, 2, 0) !in CtcEdges(numLabels, [a, b, a])
    ensures Arc(2, 4, 1) in CtcEdges(numLabels, [a, b, a]) <==> a != b
  {
    var triple := [a, b, a];
    assert !HasSkip(triple, 0) && HasSkip(triple, 1) == (a != b);
    CtcSkipEdgeIff(numLabels, triple, 0);
    CtcSkipEdgeIff(numLabels, triple, 1);
  }

  /** Every symbol is at most numLabels exactly when the sequence has at
      most numLabels + 1 positions, because the position index is the symbol.
      Whether label edges stay distinct from the blank is the stronger
      CtcLabelSymbolsBelowBlank. */
  lemma CtcSymbolsWithinAlphabet(numLabels: nat, labelSeq: seq<int>)
    requires |labelSeq| >= 1
    ensures var edges := CtcEdges(numLabels, labelSeq);
            (forall j :: 0 <= j < |edges| ==> edges[j].symbol <= numLabels) <==> |labelSeq| <= numLabels + 1
  {
    var edges := CtcEdges(numLabels, labelSeq);
    CtcEdgesWellFormed(numLabels, labelSeq);
    CtcEdgeCount(numLabels, labelSeq);
    assert edges[|edges| - 2].symbol == |labelSeq| - 1;
  }

  /** Within one position block, the roles and symbols agree: blank edges
      carry numLabels, label edges carry the position m. */
  lemma CtcBlockEdgeRoles(labelSeq: seq<int>, m: nat, numLabels: nat)
    requires m < |labelSeq|
    ensures forall e :: e in CtcBlockEdges(labelSeq, m, numLabels) ==>
              if IsCtcLabelEdge(e, |labelSeq|) then e.symbol == m else e.symbol == numLabels
  {
    var L := |labelSeq|;
    var i := 2 * m;
    assert (i + 1) % 2 == 1 && (i + 2) % 2 == 0 && i % 2 == 0;
    assert i + 1 < 2 * L + 1;
    assert !IsCtcLabelEdge(Arc(i, i + 1, numLabels), L);
    assert !IsCtcLabelEdge(Arc(i + 1, i + 1, numLabels), L);
    assert IsCtcLabelEdge(Arc(i + 1, i + 2, m), L);
    assert IsCtcLabelEdge(Arc(i + 2, i + 2, m), L);
    assert IsCtcLabelEdge(Arc(i, i + 2, m), L);
  }

  /** Every blank edge carries the blank symbol numLabels, and every label
      edge carries a position index below L. */
  lemma CtcEdgeRoles(numLabels: nat, labelSeq: seq<int>)
    requires |labelSeq| >= 1
    ensures var edges := CtcEdges(numLabels, labelSeq);
            forall j :: 0 <= j < |edges| ==>
              if IsCtcLabelEdge(edges[j], |labelSeq|) then edges[j].symbol < |labelSeq|
              else edges[j].symbol == numLabels
  {
    var edges := CtcEdges(numLabels, labelSeq);
    var L := |labelSeq|;
    var fin := 2 * L + 1;
    forall j | 0 <= j < |edges|
      ensures if IsCtcLabelEdge(edges[j], L) then edges[j].symbol < L else edges[j].symbol == numLabels
    {
      var e := edges[j];
      CtcEdgeCases(numLabels, labelSeq, e);
      if exists m :: 0 <= m < L && e in CtcBlockEdges(labelSeq, m, numLabels) {
        var m :| 0 <= m < L && e in CtcBlockEdges(labelSeq, m, numLabels);
        CtcBlockEdgeRoles(labelSeq, m, numLabels);
      } else {
        assert fin % 2 == 1;
        assert e in [Arc(fin - 1, fin, numLabels), Arc(fin, fin, numLabels),
                     Arc(fin - 2, fin, L - 1), Arc(fin - 3, fin, L - 1)];
      }
    }
  }

  /** The label edges are distinguishable from blank edges, that is every
      label edge carries a symbol below numLabels, exactly when the sequence
      has at most numLabels positions.  At L = numLabels + 1 the label edges
      of the last position carry the blank value numLabels. */
  lemma CtcLabelSymbolsBelowBlank(numLabels: nat, labelSeq: seq<int>)
    requires |labelSeq| >= 1
    ensures var edges := CtcEdges(numLabels, labelSeq);
            (forall j :: 0 <= j < |edges| && IsCtcLabelEdge(edges[j], |labelSeq|) ==> edges[j].symbol < numLabels)
            <==> |labelSeq| <= numLabels
  {
    var edges := CtcEdges(numLabels, labelSeq);
    var L := |labelSeq|;
    CtcEdgeRoles(numLabels, labelSeq);
    CtcEdgeCount(numLabels, labelSeq);
    assert edges[|edges| - 2] == Arc(2 * L - 1, 2 * L + 1, L - 1);
    assert IsCtcLabelEdge(edges[|edges| - 2], L);
  }

  /** For a sequence longer than numLabels, position numLabels is shadowed by
      the blank: its label edge into state 2*numLabels + 2 carries the blank
      symbol numLabels, so stripping blanks from a path also strips it. */
  lemma CtcBlankShadowsPosition(numLabels: nat, labelSeq: seq<int>)
    requires numLabels < |labelSeq|
    ensures var e := Arc(2 * numLabels + 1, 2 * numLabels + 2, numLabels);
            && e in CtcEdges(numLabels, labelSeq)
            && IsCtcLabelEdge(e, |labelSeq|)
            && e.symbol == numLabels
  {
    CtcPositionEdges(numLabels, labelSeq, numLabels);
    assert (2 * numLabels + 2) % 2 == 0;
  }

  // ---------------------------------------------------------------------------
  // CTC: reachability
  // ---------------------------------------------------------------------------

  /** Every CTC state below the final one has an edge to its successor state. */
  lemma CtcForwardStep(numLabels: nat, labelSeq: seq<int>, s: nat)
    requires |labelSeq| >= 1
    requires s < 2 * |labelSeq| + 1
    ensures StepsForward(CtcEdges(numLabels, labelSeq), s)
  {
    var edges := CtcEdges(numLabels, labelSeq);
    var L := |labelSeq|;
    if s == 2 * L {
      CtcEdgeCount(numLabels, labelSeq);
      assert edges[|edges| - 4].src == s && edges[|edges| - 4].dst == s + 1;
    } else {
      var m := s / 2;
      CtcPositionEdges(numLabels, labelSeq, m);
      var o := BlockOffset(labelSeq, m);
      if s == 2 * m {
        assert edges[o].src == s && edges[o].dst == s + 1;
      } else {
        assert edges[o + 2].src == s && edges[o + 2].dst == s + 1;
      }
    }
  }

  /** A run of consecutive states joined by edges is a path. */
  lemma SpanIsPath(edges: seq<Edge>, a: nat, b: nat)
    requires a <= b
    requires forall s :: a <= s < b ==> StepsForward(edges, s)
    ensures IsPath(edges, Span(a, b), a, b)
  {
    var p := Span(a, b);
    forall k | 0 <= k < |p| - 1
      ensures Connected(edges, p[k], p[k + 1])
    {
      assert p[k] == a + k && p[k + 1] == a + k + 1;
      assert StepsForward(edges, a + k);
    }
  }

  /** Every state of the CTC acceptor is reachable from the start state, and
      the final state is reachable from every state. */
  lemma CtcAllStatesReachable(numLabels: nat, labelSeq: seq<int>, q: nat)
    requires |labelSeq| >= 1
    requires q < 2 * |labelSeq| + 2
    ensures Reachable(CtcEdges(numLabels, labelSeq), 0, q)
    ensures Reachable(CtcEdges(numLabels, labelSeq), q, 2 * |labelSeq| + 1)
  {
    var edges := CtcEdges(numLabels, labelSeq);
    var fin := 2 * |labelSeq| + 1;
    forall s | 0 <= s < fin
      ensures StepsForward(edges, s)
    {
      CtcForwardStep(numLabels, labelSeq, s);
    }
    SpanIsPath(edges, 0, q);
    SpanIsPath(edges, q, fin);
  }

  // ---------------------------------------------------------------------------
  // ASG
  // ---------------------------------------------------------------------------

  lemma {:induction false} AsgChainLength(k: nat)
    ensures |AsgChain(k)| == 2 * k
    decreases k
  {
    if k > 0 {
      AsgChainLength(k - 1);
    }
  }

  /** Position m contributes edge 2*m, the forward edge (m, m+1, m), and edge
      2*m + 1, the self-loop (m+1, m+1, m); there is nothing else. */
  lemma {:induction false} AsgChainLayout(k: nat, m: nat)
    requires m < k
    ensures |AsgChain(k)| == 2 * k
    ensures AsgChain(k)[2 * m] == Arc(m, m + 1, m)
    ensures AsgChain(k)[2 * m + 1] == Arc(m + 1, m + 1, m)
    decreases k
  {
    AsgChainLength(k);
    AsgChainLength(k - 1);
    if m < k - 1 {
      AsgChainLayout(k - 1, m);
    }
  }

  /** Every ASG edge is a forward step from m to m+1 or a self-loop on m+1,
      labelled with the position m: no blank and no skip edges. */
  lemma AsgEdgeShapes(k: nat)
    ensures forall j :: 0 <= j < |AsgChain(k)| ==>
              && AsgChain(k)[j].weight == UnitWeight
              && AsgChain(k)[j].symbol < k
              && AsgChain(k)[j].dst <= k
              && (|| (AsgChain(k)[j].dst == AsgChain(k)[j].src + 1 && AsgChain(k)[j].symbol == AsgChain(k)[j].src)
                  || (AsgChain(k)[j].dst == AsgChain(k)[j].src && AsgChain(k)[j].symbol + 1 == AsgChain(k)[j].src))
  {
    AsgChainLength(k);
    forall j | 0 <= j < |AsgChain(k)|
      ensures && AsgChain(k)[j].weight == UnitWeight
              && AsgChain(k)[j].symbol < k
              && AsgChain(k)[j].dst <= k
              && (|| (AsgChain(k)[j].dst == AsgChain(k)[j].src + 1 && AsgChain(k)[j].symbol == AsgChain(k)[j].src)
                  || (AsgChain(k)[j].dst == AsgChain(k)[j].src && AsgChain(k)[j].symbol + 1 == AsgChain(k)[j].src))
    {
      AsgChainLayout(k, j / 2);
    }
  }

  /** No ASG edge enters the start state 0. */
  lemma AsgNothingEntersStart(k: nat)
    ensures forall j :: 0 <= j < |AsgChain(k)| ==> AsgChain(k)[j].dst != 0
  {
    AsgEdgeShapes(k);
  }

  /** The reported ASG final state is not free of outgoing edges as the
      convention would have it: whenever numLabels - 1 lies on the chain an
      edge leaves it (its self-loop, or the first forward edge when
      numLabels = 1). */
  lemma AsgStartAndFinalEdges(numLabels: nat, k: nat)
    requires k >= 1 && 1 <= numLabels <= k + 1
    ensures exists j :: 0 <= j < |AsgChain(k)| && AsgChain(k)[j].src == numLabels - 1
  {
    if numLabels == 1 {
      AsgChainLayout(k, 0);
    } else {
      AsgChainLayout(k, numLabels - 2);
    }
  }

  /** With the reported state count numLabels, every ASG endpoint is a state
      exactly when the sequence is shorter than numLabels. */
  lemma AsgEndpointsWithinStates(numLabels: nat, k: nat)
    requires k >= 1
    ensures (forall j :: 0 <= j < |AsgChain(k)| ==> AsgChain(k)[j].src < numLabels && AsgChain(k)[j].dst < numLabels)
            <==> k < numLabels
  {
    AsgEdgeShapes(k);
    AsgChainLayout(k, k - 1);
  }

  /** The blank symbol numLabels never occurs on an ASG edge exactly when the
      sequence has at most numLabels positions. */
  lemma AsgBlankFree(numLabels: nat, k: nat)
    ensures (forall j :: 0 <= j < |AsgChain(k)| ==> AsgChain(k)[j].symbol != numLabels) <==> k <= numLabels
  {
    AsgEdgeShapes(k);
    if numLabels < k {
      AsgChainLayout(k, numLabels);
      assert AsgChain(k)[2 * numLabels].symbol == numLabels;
    }
  }

  /** Along the ASG chain every state a <= k reaches every state b with a <= b <= k. */
  lemma AsgChainRuns(k: nat, a: nat, b: nat)
    requires a <= b <= k
    ensures Reachable(AsgChain(k), a, b)
  {
    forall s | a <= s < b
      ensures StepsForward(AsgChain(k), s)
    {
      AsgChainLayout(k, s);
      assert AsgChain(k)[2 * s].src == s && AsgChain(k)[2 * s].dst == s + 1;
    }
    SpanIsPath(AsgChain(k), a, b);
  }

  /** The ASG chain connects 0 to every state up to k, and each of them to k. */
  lemma AsgChainReachable(k: nat, q: nat)
    requires q <= k
    ensures Reachable(AsgChain(k), 0, q)
    ensures Reachable(AsgChain(k), q, k)
  {
    AsgChainRuns(k, 0, q);
    AsgChainRuns(k, q, k);
  }

  /** A state reached from a different state has an incoming edge. */
  lemma ReachedHasIncoming(edges: seq<Edge>, a: nat, b: nat)
    requires Reachable(edges, a, b) && a != b
    ensures exists j :: 0 <= j < |edges| && edges[j].dst == b
  {
    var p :| IsPath(edges, p, a, b);
    assert Connected(edges, p[|p| - 2], p[|p| - 1]);
  }

  /** The automaton the ASG builder reports has numLabels states with final
      state numLabels - 1.  Every one of its states is reachable from 0 and
      reaches that final state exactly when numLabels <= L + 1: for a shorter
      sequence no edge enters the reported final state. */
  lemma AsgReportedFinalReachable(numLabels: nat, k: nat)
    requires k >= 1 && numLabels >= 1
    ensures (forall q: nat :: q < numLabels ==> Reachable(AsgChain(k), 0, q) && Reachable(AsgChain(k), q, numLabels - 1))
            <==> numLabels <= k + 1
  {
    var fin := numLabels - 1;
    if numLabels <= k + 1 {
      forall q: nat | q < numLabels
        ensures Reachable(AsgChain(k), 0, q) && Reachable(AsgChain(k), q, fin)
      {
        AsgChainRuns(k, 0, q);
        AsgChainRuns(k, q, fin);
      }
    } else {
      if Reachable(AsgChain(k), 0, fin) {
        ReachedHasIncoming(AsgChain(k), 0, fin);
        AsgEdgeShapes(k);
        assert false;
      }
      assert fin < numLabels && !Reachable(AsgChain(k), 0, fin);
    }
  }
}
