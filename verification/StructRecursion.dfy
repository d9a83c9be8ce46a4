/**
 The recursion marking of libsolidity/analysis/DeclarationTypeChecker.cpp: a
 depth-first walk over struct definitions that decides, in one pass, which
 structs can reach a cycle of struct references.
 */
module StructRecursion {

  /** For every struct, the structs each of its members refers to through array
      bases and mapping values; references inside function types do not count. */
  type Graph = map<nat, seq<seq<nat>>>

  predicate IsEdge(g: Graph, a: nat, b: nat) {
    a in g && exists i, j :: 0 <= i < |g[a]| && 0 <= j < |g[a][i]| && g[a][i][j] == b
  }

  predicate Closed(g: Graph) {
    forall a, i, j :: a in g && 0 <= i < |g[a]| && 0 <= j < |g[a][i]| ==> g[a][i][j] in g
  }

  predicate IsPath(g: Graph, p: seq<nat>) {
    p != [] && forall i :: 0 <= i < |p| - 1 ==> IsEdge(g, p[i], p[i + 1])
  }

  ghost predicate Reaches(g: Graph, a: nat, b: nat) {
    exists p :: IsPath(g, p) && p[0] == a && p[|p| - 1] == b
  }

  ghost predicate OnCycle(g: Graph, c: nat) {
    exists p :: IsPath(g, p) && |p| >= 2 && p[0] == c && p[|p| - 1] == c
  }

  /** What the annotation `recursive` is meant to say. */
  ghost predicate CanReachCycle(g: Graph, a: nat) {
    exists c :: Reaches(g, a, c) && OnCycle(g, c)
  }

  // ---------------------------------------------------------------- reachability

  lemma ReachesSelf(g: Graph, a: nat)
    ensures Reaches(g, a, a)
  {
    assert IsPath(g, [a]);
  }

  lemma ReachesStep(g: Graph, a: nat, b: nat, c: nat)
    requires Reaches(g, a, b) && IsEdge(g, b, c)
    ensures Reaches(g, a, c)
  {
    var p :| IsPath(g, p) && p[0] == a && p[|p| - 1] == b;
    var q := p + [c];
    assert IsPath(g, q) && q[0] == a && q[|q| - 1] == c;
  }

  /** A reference back to a struct that leads here closes a cycle. */
  lemma BackEdge(g: Graph, a: nat, b: nat)
    requires Reaches(g, a, b) && IsEdge(g, b, a)
    ensures CanReachCycle(g, a)
  {
    var p :| IsPath(g, p) && p[0] == a && p[|p| - 1] == b;
    var q := p + [a];
    assert IsPath(g, q) && |q| >= 2 && q[0] == a && q[|q| - 1] == a;
    ReachesSelf(g, a);
  }

  lemma InheritCycle(g: Graph, a: nat, b: nat)
    requires IsEdge(g, a, b) && CanReachCycle(g, b)
    ensures CanReachCycle(g, a)
  {
    var c :| Reaches(g, b, c) && OnCycle(g, c);
    var p :| IsPath(g, p) && p[0] == b && p[|p| - 1] == c;
    var q := [a] + p;
    assert IsPath(g, q) && q[0] == a && q[|q| - 1] == c;
  }

  // ---------------------------------------------------------------- what the marks mean

  /** Every struct marked as not recursive refers only to structs marked so
      before it. `rank` records that order. */
  ghost predicate Ranked(g: Graph, marks: map<nat, bool>, rank: map<nat, nat>) {
    forall a, b {:trigger IsEdge(g, a, b)} :: a in marks && !marks[a] && IsEdge(g, a, b) ==>
      b in marks && !marks[b] && a in rank && b in rank && rank[b] < rank[a]
  }

  lemma {:induction false} PathDescends(g: Graph, marks: map<nat, bool>, rank: map<nat, nat>, p: seq<nat>, i: nat)
    requires Ranked(g, marks, rank) && IsPath(g, p) && i < |p| && p[0] in marks && !marks[p[0]]
    ensures p[i] in marks && !marks[p[i]]
    ensures i > 0 ==> p[0] in rank && p[i] in rank && rank[p[i]] < rank[p[0]]
  {
    if i > 0 {
      PathDescends(g, marks, rank, p, i - 1);
      assert IsEdge(g, p[i - 1], p[i]);
    }
  }

  /** Hence none of them can reach a cycle. */
  lemma UnmarkedIsAcyclic(g: Graph, marks: map<nat, bool>, rank: map<nat, nat>, a: nat)
    requires Ranked(g, marks, rank) && a in marks && !marks[a]
    ensures !CanReachCycle(g, a)
  {
    if CanReachCycle(g, a) {
      var c :| Reaches(g, a, c) && OnCycle(g, c);
      var p :| IsPath(g, p) && p[0] == a && p[|p| - 1] == c;
      PathDescends(g, marks, rank, p, |p| - 1);
      var q :| IsPath(g, q) && |q| >= 2 && q[0] == c && q[|q| - 1] == c;
      PathDescends(g, marks, rank, q, |q| - 1);
    }
  }

  predicate Successors(g: Graph, marks: map<nat, bool>, a: nat) {
    a in g && forall i, j :: 0 <= i < |g[a]| && 0 <= j < |g[a][i]| ==> g[a][i][j] in marks
  }

  /** Everything reachable from a struct whose walk is over is marked. */
  lemma {:induction false} ReachableIsMarked(g: Graph, marks: map<nat, bool>, p: seq<nat>, i: nat)
    requires forall a :: a in marks ==> Successors(g, marks, a)
    requires IsPath(g, p) && i < |p| && p[0] in marks
    ensures p[i] in marks
  {
    if i > 0 {
      ReachableIsMarked(g, marks, p, i - 1);
      assert IsEdge(g, p[i - 1], p[i]);
    }
  }

  /** The marks made so far are right. Structs in `open` are still being walked;
      those may only be marked as recursive. */
  ghost predicate Sound(g: Graph, marks: map<nat, bool>, open: set<nat>, rank: map<nat, nat>, clock: nat) {
    && Closed(g) && open <= g.Keys && marks.Keys <= g.Keys
    && (forall a :: a in marks && marks[a] ==> CanReachCycle(g, a))
    && Ranked(g, marks, rank)
    && (forall a :: a in rank ==> rank[a] < clock)
    && (forall a :: a in marks && !marks[a] ==> a in rank)
    && (forall a :: a in open && a in marks ==> marks[a])
    && (forall a :: a in marks && a !in open ==> Successors(g, marks, a))
  }

  lemma SuccessorsKept(g: Graph, marks: map<nat, bool>, a: nat, s: nat, mark: bool)
    requires Successors(g, marks, a)
    ensures Successors(g, marks[s := mark], a)
  {
  }

  lemma MarkOpen(g: Graph, marks: map<nat, bool>, open: set<nat>, rank: map<nat, nat>, clock: nat, s: nat)
    requires Sound(g, marks, open, rank, clock) && s in open && s !in marks && CanReachCycle(g, s)
    ensures Sound(g, marks[s := true], open, rank, clock)
  {
    hide CanReachCycle, Successors, Closed, IsEdge;
    forall a | a in marks && a !in open
      ensures Successors(g, marks[s := true], a)
    {
      SuccessorsKept(g, marks, a, s, true);
    }
  }

  lemma Enter(g: Graph, marks: map<nat, bool>, open: set<nat>, rank: map<nat, nat>, clock: nat, s: nat)
    requires Sound(g, marks, open, rank, clock) && s in g && s !in marks
    ensures Sound(g, marks, open + {s}, rank, clock)
  {
    hide CanReachCycle, Successors, Closed, IsEdge, Ranked;
  }

  /** Finishing a struct that was found to lie on a cycle. */
  lemma LeaveMarked(g: Graph, marks: map<nat, bool>, open: set<nat>, rank: map<nat, nat>, clock: nat, s: nat)
    requires Sound(g, marks, open, rank, clock) && s in marks && Successors(g, marks, s)
    ensures Sound(g, marks, open - {s}, rank, clock)
  {
    hide CanReachCycle, Successors, Closed, IsEdge, Ranked;
  }

  /** Finishing a struct with the mark its members decide. */
  lemma LeaveFresh(g: Graph, marks: map<nat, bool>, open: set<nat>, rank: map<nat, nat>, clock: nat, s: nat, mark: bool)
    requires Sound(g, marks, open, rank, clock) && s in g && s !in marks && Successors(g, marks, s)
    requires mark ==> CanReachCycle(g, s)
    requires !mark ==> forall b :: IsEdge(g, s, b) ==> !marks[b]
    ensures Sound(g, marks[s := mark], open - {s}, rank[s := clock], clock + 1)
  {
    var marks', rank' := marks[s := mark], rank[s := clock];
    forall a | a in marks' && a !in open - {s}
      ensures Successors(g, marks', a)
    {
      SuccessorsKept(g, marks, a, s, mark);
    }
    forall a, b | a in marks' && !marks'[a] && IsEdge(g, a, b)
      ensures b in marks' && !marks'[b] && a in rank' && b in rank' && rank'[b] < rank'[a]
    {
      assert b in marks;
    }
    assert Ranked(g, marks', rank');
    hide CanReachCycle, Successors, Closed, IsEdge, Ranked;
  }

  // ---------------------------------------------------------------- the walk

  class Checker {
    const structs: Graph
    var recursive: map<nat, bool>
    var currentStructsSeen: set<nat>
    var recursiveStructSeen: bool
    ghost var rank: map<nat, nat>
    ghost var clock: nat

    constructor (structs: Graph)
      requires Closed(structs)
      ensures this.structs == structs && Valid() && currentStructsSeen == {} && recursive == map[]
    {
      this.structs := structs;
      recursive, currentStructsSeen, recursiveStructSeen := map[], {}, false;
      rank, clock := map[], 0;
    }

    ghost predicate Valid()
      reads this
    {
      && Sound(structs, recursive, currentStructsSeen, rank, clock)
      && (currentStructsSeen == {} ==> !recursiveStructSeen)
    }

    /** `later` keeps every mark of `earlier`. */
    static predicate Extends(earlier: map<nat, bool>, later: map<nat, bool>) {
      forall a :: a in earlier ==> a in later && later[a] == earlier[a]
    }

    /** `visit(StructDefinition)`. `from` is the struct whose member refers to
        `s`, when there is one. */
    method Visit(s: nat, ghost from: nat)
      requires Valid() && s in structs
      requires currentStructsSeen != {} ==> IsEdge(structs, from, s)
      requires forall a :: a in currentStructsSeen ==> Reaches(structs, a, from)
      modifies this
      ensures Valid() && currentStructsSeen == old(currentStructsSeen)
      ensures Extends(old(recursive), recursive) && s in recursive
      ensures old(currentStructsSeen) != {} ==> recursiveStructSeen == (old(recursiveStructSeen) || recursive[s])
      decreases structs.Keys - currentStructsSeen, 1
    {
      hide CanReachCycle, Reaches, IsEdge, Successors, Sound;
      if s in recursive {
        if currentStructsSeen != {} && recursive[s] {
          recursiveStructSeen := true;
        }
        return;
      }
      if s in currentStructsSeen {
        BackEdge(structs, s, from);
        MarkOpen(structs, recursive, currentStructsSeen, rank, clock, s);
        recursive := recursive[s := true];
        recursiveStructSeen := true;
        return;
      }
      var previousRecursiveStructSeen := recursiveStructSeen;
      ghost var outer := currentStructsSeen;
      forall a | a in currentStructsSeen + {s}
        ensures Reaches(structs, a, s)
      {
        if a == s {
          ReachesSelf(structs, s);
        } else {
          ReachesStep(structs, a, from, s);
        }
      }
      Enter(structs, recursive, currentStructsSeen, rank, clock, s);
      currentStructsSeen := currentStructsSeen + {s};
      var hasRecursiveChild := VisitMembers(s);
      if s !in recursive {
        LeaveFresh(structs, recursive, currentStructsSeen, rank, clock, s, hasRecursiveChild);
        recursive := recursive[s := hasRecursiveChild];
        rank, clock := rank[s := clock], clock + 1;
      } else {
        LeaveMarked(structs, recursive, currentStructsSeen, rank, clock, s);
      }
      recursiveStructSeen := previousRecursiveStructSeen || recursive[s];
      currentStructsSeen := currentStructsSeen - {s};
      if currentStructsSeen == {} {
        recursiveStructSeen := false;
      }
      assert currentStructsSeen == outer;
    }

    ghost predicate Inside(s: nat)
      reads this
    {
      Valid() && s in structs && s in currentStructsSeen && forall a :: a in currentStructsSeen ==>
          Reaches(structs, a, s)
    }

    /** The loop over the members of `s`, with the flag reset for each of them. */
    method VisitMembers(s: nat) returns (hasRecursiveChild: bool)
      requires Inside(s)
      modifies this
      ensures Valid() && currentStructsSeen == old(currentStructsSeen) && Extends(old(recursive), recursive)
      ensures Successors(structs, recursive, s)
      ensures hasRecursiveChild ==> CanReachCycle(structs, s)
      ensures !hasRecursiveChild ==> forall b :: IsEdge(structs, s, b) ==> !recursive[b]
      decreases structs.Keys - currentStructsSeen, 3
    {
      hasRecursiveChild := false;
      for i := 0 to |structs[s]|
        invariant Inside(s) && currentStructsSeen == old(currentStructsSeen) && Extends(old(recursive), recursive)
        invariant forall k, j :: 0 <= k < i && 0 <= j < |structs[s][k]| ==> structs[s][k][j] in recursive
        invariant hasRecursiveChild <==>
                    exists k, j :: 0 <= k < i && 0 <= j < |structs[s][k]| && recursive[structs[s][k][j]]
      {
        ghost var before := recursive;
        VisitMember(s, i);
        if recursiveStructSeen {
          hasRecursiveChild := true;
        }
      }
      if hasRecursiveChild {
        ghost var i, j :| 0 <= i < |structs[s]| && 0 <= j < |structs[s][i]| && recursive[structs[s][i][j]];
        InheritCycle(structs, s, structs[s][i][j]);
      }
    }

    /** One member: every struct its type refers to is visited in turn. */
    method VisitMember(s: nat, i: nat)
      requires Inside(s) && i < |structs[s]|
      modifies this
      ensures Inside(s) && currentStructsSeen == old(currentStructsSeen) && Extends(old(recursive), recursive)
      ensures forall j :: 0 <= j < |structs[s][i]| ==> structs[s][i][j] in recursive
      ensures recursiveStructSeen <==> exists j :: 0 <= j < |structs[s][i]| && recursive[structs[s][i][j]]
      decreases structs.Keys - currentStructsSeen, 2
    {
      recursiveStructSeen := false;
      for j := 0 to |structs[s][i]|
        invariant Inside(s) && currentStructsSeen == old(currentStructsSeen) && Extends(old(recursive), recursive)
        invariant forall k :: 0 <= k < j ==> structs[s][i][k] in recursive
        invariant recursiveStructSeen <==> exists k :: 0 <= k < j && recursive[structs[s][i][k]]
      {
        assert IsEdge(structs, s, structs[s][i][j]);
        Visit(structs[s][i][j], s);
      }
    }

    /** The visits of all struct definitions, one after the other: afterwards each
        of them is marked, and so is everything it can reach; a struct is marked
        as recursive exactly if it can reach a cycle. */
    method VisitAll(definitions: seq<nat>)
      requires Valid() && currentStructsSeen == {} && forall i :: 0 <= i < |definitions| ==> definitions[i] in structs
      modifies this
      ensures Valid() && currentStructsSeen == {}
      ensures forall a :: a in recursive ==> (recursive[a] <==> CanReachCycle(structs, a))
      ensures forall i :: 0 <= i < |definitions| ==> definitions[i] in recursive
      ensures forall a, b :: a in recursive && Reaches(structs, a, b) ==> b in recursive
    {
      hide CanReachCycle, IsEdge, Reaches, Sound;
      for i := 0 to |definitions|
        invariant Valid() && currentStructsSeen == {}
        invariant forall k :: 0 <= k < i ==> definitions[k] in recursive
      {
        Visit(definitions[i], 0);
      }
      MarksAreExact(structs, recursive, rank, clock);
    }
  }

  /** Once no walk is open, the marks are exact and closed under references. */
  lemma MarksAreExact(g: Graph, marks: map<nat, bool>, rank: map<nat, nat>, clock: nat)
    requires Sound(g, marks, {}, rank, clock)
    ensures forall a :: a in marks ==> (marks[a] <==> CanReachCycle(g, a))
    ensures forall a, b :: a in marks && Reaches(g, a, b) ==> b in marks
  {
    forall a | a in marks
      ensures marks[a] <==> CanReachCycle(g, a)
    {
      if !marks[a] {
        UnmarkedIsAcyclic(g, marks, rank, a);
      }
    }
    forall a, b | a in marks && Reaches(g, a, b)
      ensures b in marks
    {
      var p :| IsPath(g, p) && p[0] == a && p[|p| - 1] == b;
      ReachableIsMarked(g, marks, p, |p| - 1);
    }
  }
}
