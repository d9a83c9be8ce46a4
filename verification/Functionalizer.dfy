/**
 The functional-notation printer of libevmasm/Assembly.cpp: items whose
 arguments are still pending are printed as nested expressions. The text
 printed is that of expression trees which linearise to the items fed.
 */
module Functionalizer {
  import opened Wrappers
  import SourceMap

  /** `Operation` carries the name and the argument and result counts of its
      instruction, the other kinds what is printed of their data. */
  datatype Kind =
    | Operation(name: string, args: nat, rets: nat, isDup: bool, isSwap: bool)
    | Push(digits: string)
    | PushString(digits: string)
    | PushTag(number: string)
    | PushData(digits: string)
    | PushSub(path: string)
    | PushSubSize(path: string)
    | PushProgramSize
    | PushLibraryAddress(digits: string)
    | PushDeployTimeAddress
    | PushImmutable(digits: string)
    | Tag(number: string)
    | AssignImmutable(digits: string)

  /** `text` is what `toAssemblyText` gives; `location` is None where it is not valid. */
  datatype Item = Item(kind: Kind, jumpType: SourceMap.JumpType, text: string, location: Option<Location>,
      debugInfo: string)
  datatype Location = Location(sourceName: string, start: int, end: int)

  function Arguments(item: Item): nat {
    if item.kind.Operation? then item.kind.args else if item.kind.AssignImmutable? then 2 else 0
  }

  function ReturnValues(item: Item): nat {
    match item.kind
    case Operation(_, _, rets, _, _) => rets
    case Tag(_) => 0
    case AssignImmutable(_) => 0
    case _ => 1
  }

  predicate CanBeFunctional(item: Item) {
    item.jumpType.Ordinary? &&
    match item.kind
    case Operation(_, _, _, isDup, isSwap) => !isDup && !isSwap
    case Tag(_) => false
    case AssignImmutable(_) => false
    case _ => true
  }

  // ---------------------------------------------------------------- expressions

  /** An item applied to its arguments, the first argument being the one pushed last. */
  datatype Tree = Node(item: Item, args: seq<Tree>)

  function Render(t: Tree): string {
    if t.args == [] then t.item.text else t.item.text + "(" + RenderArgs(t.args) + ")"
  }

  function RenderArgs(ts: seq<Tree>): string
  {
    if ts == [] then ""
    else if |ts| == 1 then Render(ts[0])
    else Render(ts[0]) + ", " + RenderArgs(ts[1..])
  }

  /** An item and the number of arguments printed with it. */
  datatype Step = Step(item: Item, taken: nat)

  /** Execution order: arguments last to first, then the operator. */
  function Linear(t: Tree): (r: seq<Step>)
    ensures r != []
    decreases t, 0
  {
    LinearReversed(t.args, |t.args|) + [Step(t.item, |t.args|)]
  }

  function LinearReversed(ts: seq<Tree>, n: nat): seq<Step>
    requires n <= |ts|
    decreases ts, n
  {
    if n == 0 then [] else Linear(ts[n - 1]) + LinearReversed(ts, n - 1)
  }

  function LinearAll(ts: seq<Tree>): seq<Step> {
    if ts == [] then [] else LinearAll(ts[..|ts| - 1]) + Linear(ts[|ts| - 1])
  }

  /** A nested expression has as many arguments as its operator takes, all of
      them functional and returning exactly one value. */
  predicate Nested(t: Tree) {
    CanBeFunctional(t.item) && |t.args| == Arguments(t.item) &&
    forall i :: 0 <= i < |t.args| ==> Nested(t.args[i]) && ReturnValues(t.args[i].item) == 1
  }

  /** What is printed on a line: a nested expression or an item on its own. */
  predicate Printable(t: Tree) {
    t.args == [] || (Nested(t) && ReturnValues(t.item) <= 1)
  }

  predicate Operand(t: Tree) {
    Nested(t) && ReturnValues(t.item) == 1
  }

  function Rendered(ts: seq<Tree>): (r: seq<string>)
    ensures |r| == |ts| && forall i :: 0 <= i < |ts| ==> r[i] == Render(ts[i])
  {
    seq(|ts|, i requires 0 <= i < |ts| => Render(ts[i]))
  }

  lemma LinearAllSnoc(a: seq<Tree>, t: Tree)
    ensures LinearAll(a + [t]) == LinearAll(a) + Linear(t)
  {
    assert (a + [t])[..|a|] == a;
  }

  lemma {:induction false} LinearAllConcat(a: seq<Tree>, b: seq<Tree>)
    ensures LinearAll(a + b) == LinearAll(a) + LinearAll(b)
  {
    hide Linear;
    if b == [] {
      assert a + b == a;
    } else {
      var init, last := b[..|b| - 1], b[|b| - 1];
      LinearAllConcat(a, init);
      LinearAllSnoc(a + init, last);
      LinearAllSnoc(init, last);
      hide LinearAll;
      assert b == init + [last];
      assert a + b == (a + init) + [last];
    }
  }

  function Reversed(ts: seq<Tree>): (r: seq<Tree>)
    ensures |r| == |ts| && forall i :: 0 <= i < |ts| ==> r[i] == ts[|ts| - 1 - i]
  {
    seq(|ts|, i requires 0 <= i < |ts| => ts[|ts| - 1 - i])
  }

  /** Taking arguments off the end of the pending list keeps the order of items. */
  lemma {:induction false} ReversedLinear(ts: seq<Tree>, n: nat)
    requires n <= |ts|
    ensures LinearReversed(Reversed(ts), n) == LinearAll(ts[|ts| - n..])
  {
    if n > 0 {
      ReversedLinear(ts, n - 1);
      var rest := ts[|ts| - n + 1..];
      assert ts[|ts| - n..] == [ts[|ts| - n]] + rest;
      LinearAllConcat([ts[|ts| - n]], rest);
      assert LinearAll([ts[|ts| - n]]) == Linear(ts[|ts| - n]);
    } else {
      assert ts[|ts|..] == [];
    }
  }

  /** An item applied to the last expressions of a list. */
  function Applied(item: Item, ts: seq<Tree>, keep: nat): Tree
    requires keep <= |ts|
  {
    Node(item, Reversed(ts[keep..]))
  }

  lemma NodeLinear(item: Item, args: seq<Tree>)
    ensures Linear(Node(item, Reversed(args))) == LinearAll(args) + [Step(item, |args|)]
  {
    ReversedLinear(args, |args|);
    assert args[0..] == args;
  }

  lemma {:induction false} RenderArgsSnoc(ts: seq<Tree>, t: Tree)
    ensures RenderArgs(ts + [t]) == if ts == [] then Render(t) else RenderArgs(ts) + ", " + Render(t)
  {
    if ts == [] {
      assert ts + [t] == [t];
    } else if |ts| > 1 {
      RenderArgsSnoc(ts[1..], t);
      assert (ts + [t])[1..] == ts[1..] + [t];
    } else {
      assert (ts + [t])[1..] == [t];
    }
  }

  // ---------------------------------------------------------------- what is printed

  /** The location in force before item `k`. */
  function LocationBefore(items: seq<Item>, k: nat): Option<Location>
    requires k <= |items|
  {
    if k == 0 then None
    else if items[k - 1].location.Some? then items[k - 1].location
    else LocationBefore(items, k - 1)
  }

  /** Item `k` has a location, and it is another one. */
  predicate Moves(items: seq<Item>, k: nat)
    requires k < |items|
  {
    items[k].location.Some? && items[k].location != LocationBefore(items, k)
  }

  /** How many expressions are pending after `n` items: results less arguments
      since the last break. */
  function Pending(items: seq<Item>, infos: map<nat, string>, n: nat): (h: nat)
    requires n <= |items|
    decreases n, 0
  {
    if n > 0 && Nests(items, infos, n - 1) && ReturnValues(items[n - 1]) == 1
    then Height(items, infos, n - 1) - Arguments(items[n - 1]) + 1
    else 0
  }

  /** How many of them item `k` finds: none at a debug info or a new location. */
  function Height(items: seq<Item>, infos: map<nat, string>, k: nat): (h: nat)
    requires k < |items|
    decreases k, 1
  {
    if k in infos || Moves(items, k) then 0 else Pending(items, infos, k)
  }

  /** Item `k` is printed with its arguments. */
  predicate Nests(items: seq<Item>, infos: map<nat, string>, k: nat)
    requires k < |items|
    decreases k, 2
  {
    CanBeFunctional(items[k]) && ReturnValues(items[k]) <= 1 && Arguments(items[k]) <= Height(items, infos, k)
  }

  /** The first `n` items, each with the number of arguments it is printed with:
      all that it takes, or none. */
  function Steps(items: seq<Item>, infos: map<nat, string>, n: nat): (r: seq<Step>)
    requires n <= |items|
    ensures |r| == n
    ensures forall k :: 0 <= k < n ==>
              r[k] == Step(items[k], if Nests(items, infos, k) then Arguments(items[k]) else 0)
  {
    seq(n, k requires 0 <= k < n => Step(items[k], if Nests(items, infos, k) then Arguments(items[k]) else 0))
  }

  /** A line of output: a debug info, a location, or an expression with its debug info. */
  datatype Line = Comment(text: string) | Place(location: Location) | Code(indent: string, text: string, debug: string)

  const UTILITY_FILE := "#utility.yul"

  /** The lines printed before item `k`. */
  function Comments(items: seq<Item>, infos: map<nat, string>, k: nat): seq<Line> {
    if k >= |items| then []
    else
      (if k in infos then [Comment(infos[k])] else []) +
      (if Moves(items, k) && items[k].location.value.sourceName != UTILITY_FILE
       then [Place(items[k].location.value)] else [])
  }

  /** The line of an expression whose operator is item `k`; an item on its own shows its debug info. */
  function LineOf(items: seq<Item>, infos: map<nat, string>, t: Tree, k: nat): Line {
    Code(if t.item.kind.Tag? then "" else "  ", Render(t),
         if k < |items| && Nests(items, infos, k) then "" else t.item.debugInfo)
  }

  /** The lines of these expressions, with the comments before each. */
  function Lines(items: seq<Item>, infos: map<nat, string>, trees: seq<Tree>): seq<Line> {
    if trees == [] then []
    else
      var init, t := trees[..|trees| - 1], trees[|trees| - 1];
      Lines(items, infos, init) + Comments(items, infos, |LinearAll(init)|) +
      [LineOf(items, infos, t, |LinearAll(init)| + |Linear(t)| - 1)]
  }

  /** Some line ends before item `p`. */
  ghost predicate EndsAt(trees: seq<Tree>, p: nat) {
    exists j :: 0 <= j <= |trees| && |LinearAll(trees[..j])| == p
  }

  /** Lines end before each of the first `n` items that finds nothing pending. */
  ghost predicate EndsAtBreaks(items: seq<Item>, infos: map<nat, string>, trees: seq<Tree>, n: nat)
    requires n <= |items|
  {
    forall p :: 0 <= p < n && Height(items, infos, p) == 0 ==> EndsAt(trees, p)
  }

  /** `out` is what is printed of the items: one line for each of the trees that
      linearise to them, each item with as many arguments as it should have. */
  ghost predicate Shows(out: seq<Line>, items: seq<Item>, infos: map<nat, string>, trees: seq<Tree>) {
    && LinearAll(trees) == Steps(items, infos, |items|)
    && out == Lines(items, infos, trees)
    && AllPrintable(trees)
    && EndsAtBreaks(items, infos, trees, |items|)
  }

  ghost predicate Prints(out: seq<Line>, items: seq<Item>, infos: map<nat, string>) {
    exists trees :: Shows(out, items, infos, trees)
  }

  // ---------------------------------------------------------------- the printer

  class Printer {
    var out: seq<Line>
    var pending: seq<string>
    var location: Option<Location>
    /** All items there are, how many have been fed, the trees whose text was
        printed and those whose text is pending. */
    ghost const items: seq<Item>
    ghost const infos: map<nat, string>
    ghost var fed: nat
    ghost var printed: seq<Tree>
    ghost var waiting: seq<Tree>

    /** The text is that of trees which linearise to the items fed, and `shown`. */
    ghost predicate Consistent(shown: seq<Line>)
      reads this
    {
      && fed <= |items|
      && out == Lines(items, infos, printed) + shown
      && pending == Rendered(waiting)
      && LinearAll(printed + waiting) == Steps(items, infos, fed)
      && AllPrintable(printed) && AllPrintable(waiting)
      && AllNest(items, infos, printed, waiting)
      && Quiet(items, infos, |LinearAll(printed)|, fed)
      && EndsAtBreaks(items, infos, printed, fed)
    }

    /** The comments before the first pending expression. */
    ghost function Shown(): seq<Line>
      reads this
    {
      Comments(items, infos, |LinearAll(printed)|)
    }

    ghost predicate Valid()
      reads this
    {
      && Consistent(if waiting == [] then [] else Shown())
      && AllOperands(waiting)
      && |waiting| == Pending(items, infos, fed) && location == LocationBefore(items, fed)
    }

    /** The debug info of the next item has been printed, if it has one. */
    ghost predicate Announced()
      reads this
    {
      && fed < |items| && location == LocationBefore(items, fed)
      && AllOperands(waiting)
      && if fed in infos then waiting == [] && Consistent([Comment(infos[fed])]) else Valid()
    }

    /** All comments of the next item have been printed. */
    ghost predicate Located()
      reads this
    {
      && fed < |items| && location == LocationBefore(items, fed + 1)
      && AllOperands(waiting) && |waiting| == Height(items, infos, fed)
      && Consistent(Shown())
      && (waiting != [] ==> Comments(items, infos, fed) == [])
    }

    constructor (ghost items: seq<Item>, ghost infos: map<nat, string>)
      ensures Valid() && fed == 0 && this.items == items && this.infos == infos && out == []
    {
      this.items, this.infos := items, infos;
      out, pending, location := [], [], None;
      printed, waiting, fed := [], [], 0;
    }

    /** `flush`. */
    method Flush(ghost shown: seq<Line>)
      requires Consistent(shown) && (waiting != [] ==> shown == Shown())
      modifies this
      ensures waiting == [] && fed == old(fed) && location == old(location) && |LinearAll(printed)| == fed
      ensures AllOperands(waiting) && (old(waiting) == [] ==> printed == old(printed))
      ensures Consistent(if old(waiting) == [] then shown else [])
    {
      hide LinearAll, AllPrintable, Render, Lines, Quiet, EndsAtBreaks, Comments, Steps;
      ghost var start := out;
      var i := 0;
      while i < |pending|
        invariant 0 <= i <= |pending|
        invariant unchanged(this`pending, this`waiting, this`fed, this`location, this`printed)
        invariant out == start + PlainLines(pending[..i])
      {
        PlainLinesSnoc(pending[..i], pending[i]);
        assert pending[..i + 1] == pending[..i] + [pending[i]];
        out := out + [Code("  ", pending[i], "")];
        i := i + 1;
      }
      Flushed(items, infos, printed, waiting, fed);
      assert pending[..i] == pending;
      pending := [];
      printed := printed + waiting;
      waiting := [];
      assert printed + waiting == printed;
    }

    /** Switching to the location of the next item, if it is another one. */
    method Locate(item: Item)
      requires Announced() && item == items[fed]
      modifies this
      ensures Located() && fed == old(fed)
    {
      hide LinearAll, Rendered, AllPrintable, AllOperands, Lines, Quiet, EndsAtBreaks, Steps, AllNest;
      LocationNext(items, fed);
      HeightAt(items, infos, fed);
      ghost var comment := if fed in infos then [Comment(infos[fed])] else [];
      if item.location.Some? && item.location != location {
        Flush(if fed in infos then [Comment(infos[fed])] else if waiting == [] then [] else Shown());
        location := item.location;
        if item.location.value.sourceName != UTILITY_FILE {
          out := out + [Place(item.location.value)];
        }
        assert Comments(items, infos, fed) ==
               comment + if item.location.value.sourceName != UTILITY_FILE then [Place(item.location.value)] else [];
      } else {
        assert Comments(items, infos, fed) == comment;
      }
      if waiting == [] {
        NothingWaits(printed, fed);
      }
    }

    lemma NothingWaits(printed: seq<Tree>, fed: nat)
      requires fed <= |items| && LinearAll(printed + []) == Steps(items, infos, fed)
      ensures |LinearAll(printed)| == fed
    {
      assert printed + [] == printed;
    }

    /** `feed`. */
    method Feed(item: Item)
      requires Announced() && item == items[fed]
      modifies this
      ensures Valid() && fed == old(fed) + 1
    {
      hide LinearAll, Rendered, AllPrintable, AllOperands, Render, Lines, Quiet, EndsAtBreaks, Steps, AllNest, Comments;
      Locate(item);
      PendingNext(items, infos, fed);
      if !(CanBeFunctional(item) && ReturnValues(item) <= 1 && Arguments(item) <= |pending|) {
        Flush(Shown());
        out := out + [Code(if item.kind.Tag? then "" else "  ", item.text, item.debugInfo)];
        PrintedAlone(items, infos, printed, fed);
        printed := printed + [Node(item, [])];
        fed := fed + 1;
        assert printed + waiting == printed;
      } else {
        PushExpression(item);
      }
    }

    /** Popping the arguments of an item off the pending expressions into its text. */
    method PopArguments(item: Item) returns (expression: string)
      requires pending == Rendered(waiting) && Arguments(item) <= |pending|
      modifies this`pending
      ensures pending == Rendered(waiting[..|waiting| - Arguments(item)])
      ensures expression == Render(Applied(item, waiting, |waiting| - Arguments(item)))
    {
      hide Render, Arguments, PartialText;
      ghost var args := Reversed(waiting[|waiting| - Arguments(item)..]);
      expression := item.text;
      if Arguments(item) > 0 {
        expression := expression + "(";
        var i := 0;
        NoArguments(item, args);
        while i < Arguments(item)
          invariant 0 <= i <= Arguments(item) == |args|
          invariant pending == Rendered(waiting[..|waiting| - i])
          invariant expression == PartialText(item, args, i)
        {
          NextArgument(item, args, i);
          expression := expression + pending[|pending| - 1];
          pending := pending[..|pending| - 1];
          i := i + 1;
          if i < Arguments(item) {
            expression := expression + ", ";
          }
        }
        expression := expression + ")";
      }
      RenderNode(item, args, expression);
    }

    /** The second half of `feed`: the item takes its arguments from the pending expressions. */
    method PushExpression(item: Item)
      requires Located() && item == items[fed] && Nests(items, infos, fed)
      modifies this
      ensures Valid() && fed == old(fed) + 1
    {
      hide LinearAll, AllPrintable, AllOperands, Render, RenderArgs, Lines, Arguments, CanBeFunctional, ReturnValues;
      hide Quiet, EndsAtBreaks, Steps, AllNest, Comments, Rendered, Pending, Height, Nests, Applied, LocationBefore;
      ghost var keep := ArgumentsThere(items, infos, fed);
      ghost var node, shown := Applied(item, waiting, keep), Shown();
      ghost var now := waiting[..keep] + [node];
      Taken(items, infos, printed, waiting, fed, keep);
      RenderedSnoc(waiting[..keep], node);
      var expression := PopArguments(item);
      pending := pending + [expression];
      waiting := now;
      fed := fed + 1;
      assert Consistent(shown);
      if ReturnValues(item) != 1 {
        Flush(shown);
      }
    }
  }

  /** The loop of `assemblyStream`: every item is printed, in order, as part of
      one expression, with all its arguments where they are pending. */
  method AssemblyStream(items: seq<Item>, debugInfos: map<nat, string>) returns (out: seq<Line>)
    ensures Prints(out, items, debugInfos)
  {
    hide LinearAll, AllPrintable, AllOperands, Rendered, Lines, Quiet, EndsAtBreaks, Steps, AllNest, Comments;
    var f := new Printer(items, debugInfos);
    var i := 0;
    while i < |items|
      invariant 0 <= i <= |items| && fresh(f) && f.Valid() && f.fed == i
      invariant f.items == items && f.infos == debugInfos
    {
      if i in debugInfos {
        f.Flush(if f.waiting == [] then [] else f.Shown());
        f.out := f.out + [Comment(debugInfos[i])];
      }
      f.Feed(items[i]);
      i := i + 1;
    }
    f.Flush(if f.waiting == [] then [] else f.Shown());
    out := f.out;
    assert f.printed + f.waiting == f.printed;
    assert Shows(out, items, debugInfos, f.printed);
  }

  // ---------------------------------------------------------------- steps of the printer

  predicate AllPrintable(ts: seq<Tree>) {
    forall i :: 0 <= i < |ts| ==> Printable(ts[i])
  }

  predicate AllOperands(ts: seq<Tree>) {
    forall i :: 0 <= i < |ts| ==> Operand(ts[i])
  }

  lemma LocationNext(items: seq<Item>, k: nat)
    requires k < |items|
    ensures LocationBefore(items, k + 1) ==
            if items[k].location.Some? then items[k].location else LocationBefore(items, k)
  {
  }

  lemma HeightAt(items: seq<Item>, infos: map<nat, string>, k: nat)
    requires k < |items|
    ensures Height(items, infos, k) == if k in infos || Moves(items, k) then 0 else Pending(items, infos, k)
  {
    hide Pending, Moves;
  }

  /** How many pending expressions an item leaves alone. */
  lemma ArgumentsThere(items: seq<Item>, infos: map<nat, string>, k: nat) returns (keep: nat)
    requires k < |items| && Nests(items, infos, k)
    ensures keep == Height(items, infos, k) - Arguments(items[k])
    ensures Pending(items, infos, k + 1) == if ReturnValues(items[k]) == 1 then keep + 1 else 0
  {
    hide Height, Arguments, ReturnValues, CanBeFunctional;
    PendingNext(items, infos, k);
    keep := Height(items, infos, k) - Arguments(items[k]);
  }

  lemma PendingNext(items: seq<Item>, infos: map<nat, string>, k: nat)
    requires k < |items|
    ensures Pending(items, infos, k + 1) ==
            if Nests(items, infos, k) && ReturnValues(items[k]) == 1
            then Height(items, infos, k) - Arguments(items[k]) + 1
            else 0
  {
    hide Height, Nests, Arguments, ReturnValues;
  }

  /** No comments are due between these places. */
  predicate Quiet(items: seq<Item>, infos: map<nat, string>, first: nat, last: nat) {
    forall p: nat :: first < p < last ==> Comments(items, infos, p) == []
  }

  /** The operator of each waiting expression was printed with its arguments. */
  predicate AllNest(items: seq<Item>, infos: map<nat, string>, printed: seq<Tree>, waiting: seq<Tree>) {
    forall j :: 0 <= j < |waiting| ==> NestsAt(items, infos, waiting[j], |LinearAll(printed + waiting[..j + 1])| - 1)
  }

  predicate NestsAt(items: seq<Item>, infos: map<nat, string>, t: Tree, k: int) {
    0 <= k < |items| && Nests(items, infos, k) && CanBeFunctional(t.item)
  }

  function PlainLines(texts: seq<string>): (r: seq<Line>)
    ensures |r| == |texts|
  {
    seq(|texts|, i requires 0 <= i < |texts| => Code("  ", texts[i], ""))
  }

  lemma PlainLinesSnoc(texts: seq<string>, text: string)
    ensures PlainLines(texts + [text]) == PlainLines(texts) + [Code("  ", text, "")]
  {
  }

  lemma RenderedSnoc(ts: seq<Tree>, t: Tree)
    ensures Rendered(ts + [t]) == Rendered(ts) + [Render(t)]
  {
    hide Render;
  }

  lemma LinesSnoc(items: seq<Item>, infos: map<nat, string>, trees: seq<Tree>, t: Tree)
    ensures Lines(items, infos, trees + [t]) ==
            Lines(items, infos, trees) + Comments(items, infos, |LinearAll(trees)|) +
            [LineOf(items, infos, t, |LinearAll(trees)| + |Linear(t)| - 1)]
  {
    hide LineOf, Comments, LinearAll;
    assert (trees + [t])[..|trees|] == trees;
  }

  lemma {:induction false} LinearGrows(a: seq<Tree>, b: seq<Tree>)
    ensures |LinearAll(a)| <= |LinearAll(a + b)|
    ensures b != [] ==> |LinearAll(a)| < |LinearAll(a + b)|
  {
    hide Linear;
    LinearAllConcat(a, b);
  }

  /** Flushing prints the waiting expressions on lines of their own. */
  lemma {:induction false} FlushedLines(items: seq<Item>, infos: map<nat, string>, printed: seq<Tree>,
      waiting: seq<Tree>, fed: nat, n: nat)
    requires n <= |waiting| && fed <= |items| && |LinearAll(printed + waiting)| == fed
    requires AllNest(items, infos, printed, waiting) && Quiet(items, infos, |LinearAll(printed)|, fed)
    ensures Lines(items, infos, printed + waiting[..n]) ==
            Lines(items, infos, printed) +
            ((if n == 0 then [] else Comments(items, infos, |LinearAll(printed)|)) + PlainLines(Rendered(waiting[..n])))
  {
    hide Lines, LinearAll, Comments, Render, NestsAt, Quiet, AllNest, PlainLines, Rendered;
    if n == 0 {
      assert printed + waiting[..0] == printed;
      NoPlainLines(waiting[..0]);
    } else {
      FlushedLines(items, infos, printed, waiting, fed, n - 1);
      FlushedLine(items, infos, printed, waiting, fed, n - 1);
      var t := waiting[n - 1];
      assert waiting[..n] == waiting[..n - 1] + [t];
      RenderedSnoc(waiting[..n - 1], t);
      PlainLinesSnoc(Rendered(waiting[..n - 1]), Render(t));
      if n == 1 {
        NoPlainLines(waiting[..0]);
      }
    }
  }

  lemma NoPlainLines(none: seq<Tree>)
    requires none == []
    ensures PlainLines(Rendered(none)) == []
  {
  }

  /** Comments come before the first waiting expression only. */
  lemma FlushedLine(items: seq<Item>, infos: map<nat, string>, printed: seq<Tree>, waiting: seq<Tree>, fed: nat, n: nat)
    requires n < |waiting| && fed <= |items| && |LinearAll(printed + waiting)| == fed
    requires AllNest(items, infos, printed, waiting) && Quiet(items, infos, |LinearAll(printed)|, fed)
    ensures Lines(items, infos, printed + waiting[..n + 1]) ==
            Lines(items, infos, printed + waiting[..n]) +
            (if n == 0 then Comments(items, infos, |LinearAll(printed)|) else []) + [Code("  ", Render(waiting[n]), "")]
  {
    hide Lines, LinearAll, Comments, Render, NestsAt, Linear, LineOf;
    var init, t := printed + waiting[..n], waiting[n];
    assert init + [t] == printed + waiting[..n + 1];
    LinesSnoc(items, infos, init, t);
    LinearAllSnoc(init, t);
    assert NestsAt(items, infos, t, |LinearAll(init + [t])| - 1);
    PlainLine(items, infos, t, |LinearAll(init + [t])| - 1);
    LinearGrows(init, waiting[n..]);
    assert init + waiting[n..] == printed + waiting;
    if n > 0 {
      LinearGrows(printed, waiting[..n]);
    } else {
      assert init == printed;
    }
  }

  lemma PlainLine(items: seq<Item>, infos: map<nat, string>, t: Tree, k: nat)
    requires NestsAt(items, infos, t, k)
    ensures LineOf(items, infos, t, k) == Code("  ", Render(t), "")
  {
    hide Render, Nests;
  }

  lemma EndsLater(a: seq<Tree>, b: seq<Tree>, p: nat)
    requires EndsAt(a, p)
    ensures EndsAt(a + b, p)
  {
    hide LinearAll;
    var j :| 0 <= j <= |a| && |LinearAll(a[..j])| == p;
    assert (a + b)[..j] == a[..j];
  }

  lemma Flushed(items: seq<Item>, infos: map<nat, string>, printed: seq<Tree>, waiting: seq<Tree>, fed: nat)
    requires fed <= |items| && LinearAll(printed + waiting) == Steps(items, infos, fed)
    requires AllPrintable(printed) && AllPrintable(waiting)
    requires AllNest(items, infos, printed, waiting) && Quiet(items, infos, |LinearAll(printed)|, fed)
    requires EndsAtBreaks(items, infos, printed, fed)
    ensures Lines(items, infos, printed + waiting) ==
            Lines(items, infos, printed) +
            ((if waiting == [] then [] else Comments(items, infos, |LinearAll(printed)|)) +
             PlainLines(Rendered(waiting)))
    ensures AllPrintable(printed + waiting) && AllPrintable([]) && AllOperands([]) && Rendered([]) == []
    ensures AllNest(items, infos, printed + waiting, []) && Quiet(items, infos, fed, fed)
    ensures EndsAtBreaks(items, infos, printed + waiting, fed) && |LinearAll(printed + waiting)| == fed
  {
    hide Printable, Render, Lines, LinearAll, Comments, EndsAt, Nests;
    FlushedLines(items, infos, printed, waiting, fed, |waiting|);
    assert waiting[..|waiting|] == waiting;
    forall p | 0 <= p < fed && Height(items, infos, p) == 0
      ensures EndsAt(printed + waiting, p)
    {
      EndsLater(printed, waiting, p);
    }
  }

  lemma PrintedAlone(items: seq<Item>, infos: map<nat, string>, printed: seq<Tree>, k: nat)
    requires k < |items| && LinearAll(printed + []) == Steps(items, infos, k) && AllPrintable(printed)
    requires !Nests(items, infos, k) && EndsAtBreaks(items, infos, printed, k)
    ensures var item := items[k]; var more := printed + [Node(item, [])];
            AllPrintable(more) && LinearAll(more) == Steps(items, infos, k + 1) &&
            EndsAtBreaks(items, infos, more, k + 1) && Quiet(items, infos, |LinearAll(more)|, k + 1) &&
            AllNest(items, infos, more, []) &&
            Lines(items, infos, more) == Lines(items, infos, printed) + Comments(items, infos, |LinearAll(printed)|) +
              [Code(if item.kind.Tag? then "" else "  ", item.text, item.debugInfo)]
  {
    hide LinearAll, Printable, Render, Lines, Nests, Comments, EndsAt, Steps;
    var node := Node(items[k], []);
    assert printed + [] == printed;
    LinearAllSnoc(printed, node);
    LoneItem(items[k]);
    LinesSnoc(items, infos, printed, node);
    StepsSnoc(items, infos, k);
    EndsNext(items, infos, printed, node, k);
  }

  lemma StepsSnoc(items: seq<Item>, infos: map<nat, string>, k: nat)
    requires k < |items|
    ensures Steps(items, infos, k + 1) == Steps(items, infos, k) +
            [Step(items[k], if Nests(items, infos, k) then Arguments(items[k]) else 0)]
  {
    hide Nests, Arguments;
  }

  lemma EndsNext(items: seq<Item>, infos: map<nat, string>, printed: seq<Tree>, t: Tree, k: nat)
    requires k < |items| && EndsAtBreaks(items, infos, printed, k) && |LinearAll(printed)| == k
    ensures EndsAtBreaks(items, infos, printed, k + 1) && EndsAtBreaks(items, infos, printed + [t], k + 1)
  {
    hide LinearAll, Height;
    assert printed[..|printed|] == printed;
    assert EndsAt(printed, k);
    forall p | 0 <= p < k + 1 && Height(items, infos, p) == 0
      ensures EndsAt(printed, p) && EndsAt(printed + [t], p)
    {
      EndsLater(printed, [t], p);
    }
  }

  lemma LoneItem(item: Item)
    ensures var node := Node(item, []); Printable(node) && Render(node) == item.text && Linear(node) == [Step(item, 0)]
  {
  }

  function Separator(i: nat, n: nat): string {
    if 0 < i < n then ", " else ""
  }

  /** The text of an application before its argument `i` is added. */
  function PartialText(item: Item, args: seq<Tree>, i: nat): string
    requires i <= |args|
  {
    item.text + "(" + (RenderArgs(args[..i]) + Separator(i, |args|))
  }

  lemma NoArguments(item: Item, args: seq<Tree>)
    ensures PartialText(item, args, 0) == item.text + "("
  {
  }

  lemma NextArgument(item: Item, args: seq<Tree>, i: nat)
    requires i < |args|
    ensures i + 1 < |args| ==> PartialText(item, args, i + 1) == PartialText(item, args, i) + Render(args[i]) + ", "
    ensures i + 1 == |args| ==> PartialText(item, args, i + 1) == PartialText(item, args, i) + Render(args[i])
  {
    hide Render, RenderArgs;
    var before, next := RenderArgs(args[..i]), Render(args[i]);
    var end := Separator(i + 1, |args|);
    RenderArgsSnoc(args[..i], args[i]);
    assert args[..i + 1] == args[..i] + [args[i]];
    NoArguments(item, args);
    if i == 0 {
      assert item.text + "(" + (next + end) == item.text + "(" + next + end;
    } else {
      assert before + ", " + next + end == (before + ", ") + (next + end);
      assert item.text + "(" + ((before + ", ") + (next + end)) == item.text + "(" + (before + ", ") + next + end;
    }
  }

  lemma RenderNode(item: Item, args: seq<Tree>, expression: string)
    requires expression == if args == [] then item.text else PartialText(item, args, |args|) + ")"
    ensures expression == Render(Node(item, args))
  {
    hide RenderArgs;
    assert args[..|args|] == args;
    assert RenderArgs(args) + "" == RenderArgs(args);
  }

  /** Replacing the last pending expressions by one that applies the item to them. */
  lemma TakeArguments(printed: seq<Tree>, waiting: seq<Tree>, item: Item, keep: nat)
    requires keep <= |waiting| && |waiting| - keep == Arguments(item)
    requires CanBeFunctional(item) && ReturnValues(item) <= 1
    requires AllOperands(waiting) && AllPrintable(waiting)
    ensures var node := Node(item, Reversed(waiting[keep..]));
            LinearAll(printed + (waiting[..keep] + [node])) ==
              LinearAll(printed + waiting) + [Step(item, Arguments(item))] &&
            AllPrintable(waiting[..keep] + [node]) &&
            (ReturnValues(item) == 1 ==> AllOperands(waiting[..keep] + [node]))
  {
    var args := waiting[keep..];
    var node := Node(item, Reversed(args));
    TakenLinear(printed, waiting, item, keep);
    forall i | 0 <= i < |node.args| ensures Nested(node.args[i]) && ReturnValues(node.args[i].item) == 1 {
      assert Operand(waiting[|waiting| - 1 - i]);
    }
    hide ReturnValues, Arguments, CanBeFunctional;
  }

  lemma TakenLinear(printed: seq<Tree>, waiting: seq<Tree>, item: Item, keep: nat)
    requires keep <= |waiting|
    ensures LinearAll(printed + (waiting[..keep] + [Node(item, Reversed(waiting[keep..]))])) ==
      LinearAll(printed + waiting) + [Step(item, |waiting| - keep)]
  {
    hide LinearReversed;
    var args := waiting[keep..];
    var node := Node(item, Reversed(args));
    NodeLinear(item, args);
    assert printed + (waiting[..keep] + [node]) == (printed + waiting[..keep]) + [node];
    assert printed + waiting == (printed + waiting[..keep]) + args;
    LinearAllConcat(printed + waiting[..keep], args);
    assert ((printed + waiting[..keep]) + [node])[..|printed| + keep] == printed + waiting[..keep];
  }

  /** An item that takes its arguments leaves the printer in order. */
  lemma Taken(items: seq<Item>, infos: map<nat, string>, printed: seq<Tree>, waiting: seq<Tree>, k: nat, keep: nat)
    requires k < |items| && LinearAll(printed + waiting) == Steps(items, infos, k) && Nests(items, infos, k)
    requires keep <= |waiting| && |waiting| - keep == Arguments(items[k])
    requires |waiting| == Height(items, infos, k)
    requires waiting != [] ==> Comments(items, infos, k) == []
    requires AllNest(items, infos, printed, waiting) && Quiet(items, infos, |LinearAll(printed)|, k)
    requires EndsAtBreaks(items, infos, printed, k) && AllOperands(waiting) && AllPrintable(waiting)
    ensures var now := waiting[..keep] + [Applied(items[k], waiting, keep)];
            LinearAll(printed + now) == Steps(items, infos, k + 1) && AllNest(items, infos, printed, now) &&
            Quiet(items, infos, |LinearAll(printed)|, k + 1) && EndsAtBreaks(items, infos, printed, k + 1) &&
            AllPrintable(now) && (ReturnValues(items[k]) == 1 ==> AllOperands(now))
  {
    hide LinearAll, Comments, Steps, Nests, CanBeFunctional, ReturnValues, Arguments, Linear, LinearReversed, Height;
    hide Reversed, EndsAt, AllOperands, AllPrintable, AllNest, Quiet, EndsAtBreaks;
    var node := Applied(items[k], waiting, keep);
    NestsMeans(items, infos, k);
    TakeArguments(printed, waiting, items[k], keep);
    StepsSnoc(items, infos, k);
    TakenNest(items, infos, printed, waiting, k, keep, node);
    QuietNext(items, infos, printed, waiting, k);
    if waiting == [] {
      assert printed + waiting == printed;
      EndsNext(items, infos, printed, node, k);
    } else {
      EndsStay(items, infos, printed, k);
    }
  }

  lemma QuietNext(items: seq<Item>, infos: map<nat, string>, printed: seq<Tree>, waiting: seq<Tree>, k: nat)
    requires Quiet(items, infos, |LinearAll(printed)|, k) && |LinearAll(printed + waiting)| == k
    requires waiting != [] ==> Comments(items, infos, k) == []
    ensures Quiet(items, infos, |LinearAll(printed)|, k + 1)
  {
    hide LinearAll, Comments;
    assert waiting == [] ==> printed + waiting == printed;
  }

  lemma EndsStay(items: seq<Item>, infos: map<nat, string>, printed: seq<Tree>, k: nat)
    requires k < |items| && EndsAtBreaks(items, infos, printed, k) && Height(items, infos, k) != 0
    ensures EndsAtBreaks(items, infos, printed, k + 1)
  {
    hide Height, EndsAt;
  }

  lemma TakenNest(items: seq<Item>, infos: map<nat, string>, printed: seq<Tree>, waiting: seq<Tree>, k: nat,
      keep: nat, node: Tree)
    requires k < |items| && keep <= |waiting| && NestsAt(items, infos, node, k)
    requires |LinearAll(printed + (waiting[..keep] + [node]))| == k + 1
    requires AllNest(items, infos, printed, waiting)
    ensures AllNest(items, infos, printed, waiting[..keep] + [node])
  {
    hide NestsAt, LinearAll;
    var now := waiting[..keep] + [node];
    forall j | 0 <= j < |now|
      ensures NestsAt(items, infos, now[j], |LinearAll(printed + now[..j + 1])| - 1)
    {
      if j < keep {
        assert now[..j + 1] == waiting[..j + 1];
      } else {
        assert now[..j + 1] == now;
      }
    }
  }

  lemma NestsMeans(items: seq<Item>, infos: map<nat, string>, k: nat)
    requires k < |items| && Nests(items, infos, k)
    ensures CanBeFunctional(items[k]) && ReturnValues(items[k]) <= 1 && Arguments(items[k]) <= Height(items, infos, k)
  {
  }

  /** Results less arguments of the items from `b` on, before `k`. */
  function Balance(items: seq<Item>, b: nat, k: nat): int
    requires b <= k <= |items|
  {
    if k == b then 0 else Balance(items, b, k - 1) + ReturnValues(items[k - 1]) - Arguments(items[k - 1])
  }

  /** What an item finds pending is the balance since the last break. */
  lemma {:induction false} HeightIsBalance(items: seq<Item>, infos: map<nat, string>, b: nat, k: nat)
    requires b <= k < |items| && Height(items, infos, b) == 0
    requires forall j :: b < j <= k ==> Height(items, infos, j) != 0
    ensures Height(items, infos, k) == Balance(items, b, k)
    decreases k
  {
    hide ReturnValues, Arguments, CanBeFunctional, Moves, Height, Pending;
    if b < k {
      HeightIsBalance(items, infos, b, k - 1);
      HeightAt(items, infos, k);
      PendingNext(items, infos, k - 1);
    }
  }

  /** An item is a break for the next one exactly if it is not printed as a pending
      expression: it cannot be functional, does not return one value, or lacks arguments;
      debug infos and new locations are breaks as well. */
  lemma BreaksExactly(items: seq<Item>, infos: map<nat, string>, k: nat)
    requires 0 < k < |items|
    ensures Height(items, infos, k) == 0 <==>
            k in infos || Moves(items, k) || !CanBeFunctional(items[k - 1]) || ReturnValues(items[k - 1]) != 1 ||
            Arguments(items[k - 1]) > Height(items, infos, k - 1)
  {
    hide Moves, CanBeFunctional, ReturnValues, Arguments;
    HeightAt(items, infos, k);
    PendingNext(items, infos, k - 1);
  }

  // ---------------------------------------------------------------- one way to print

  lemma ReversedTwice(ts: seq<Tree>)
    ensures Reversed(Reversed(ts)) == ts
  {
  }

  /** The last step undone: the arguments of the last expression stand on their own again. */
  lemma LastStep(ts: seq<Tree>) returns (rest: seq<Tree>)
    requires ts != []
    ensures var t := ts[|ts| - 1];
            rest == ts[..|ts| - 1] + Reversed(t.args) && LinearAll(ts) == LinearAll(rest) + [Step(t.item, |t.args|)]
  {
    hide Linear;
    var init, t := ts[..|ts| - 1], ts[|ts| - 1];
    rest := init + Reversed(t.args);
    ReversedTwice(t.args);
    NodeLinear(t.item, Reversed(t.args));
    LinearAllConcat(init, Reversed(t.args));
  }

  lemma LastOfTwo(a: seq<Step>, x: Step, b: seq<Step>, y: Step)
    requires a + [x] == b + [y]
    ensures a == b && x == y
  {
    assert (a + [x])[..|a|] == a && (b + [y])[..|b|] == b;
    assert (a + [x])[|a|] == x && (b + [y])[|b|] == y;
  }

  lemma SplitTwo(a: seq<Tree>, x: seq<Tree>, b: seq<Tree>, y: seq<Tree>)
    requires a + x == b + y && |x| == |y|
    ensures a == b && x == y
  {
    assert (a + x)[..|a|] == a && (b + y)[..|b|] == b;
    assert (a + x)[|a|..] == x && (b + y)[|b|..] == y;
  }

  lemma SameLast(ts: seq<Tree>, us: seq<Tree>)
    requires ts != [] && us != []
    requires var t, u := ts[|ts| - 1], us[|us| - 1];
             t.item == u.item && |t.args| == |u.args| &&
             ts[..|ts| - 1] + Reversed(t.args) == us[..|us| - 1] + Reversed(u.args)
    ensures ts == us
  {
    hide Reversed;
    var t, u := ts[|ts| - 1], us[|us| - 1];
    SplitTwo(ts[..|ts| - 1], Reversed(t.args), us[..|us| - 1], Reversed(u.args));
    ReversedTwice(t.args);
    ReversedTwice(u.args);
    assert t == u;
    assert ts == ts[..|ts| - 1] + [t] && us == us[..|us| - 1] + [u];
  }

  lemma NothingLinear(ts: seq<Tree>)
    ensures LinearAll(ts) == [] <==> ts == []
  {
    hide Linear;
  }

  /** Items and their numbers of arguments determine the expressions. */
  lemma {:induction false} TreesUnique(ts: seq<Tree>, us: seq<Tree>)
    requires LinearAll(ts) == LinearAll(us)
    ensures ts == us
    decreases |LinearAll(ts)|
  {
    hide LinearAll, Reversed;
    NothingLinear(ts);
    NothingLinear(us);
    if ts != [] {
      var rest := LastStep(ts);
      var other := LastStep(us);
      LastOfTwo(LinearAll(rest), Step(ts[|ts| - 1].item, |ts[|ts| - 1].args|),
                LinearAll(other), Step(us[|us| - 1].item, |us[|us| - 1].args|));
      TreesUnique(rest, other);
      SameLast(ts, us);
    }
  }

  /** What has to be printed of the items is unique. */
  lemma PrintsOnce(out: seq<Line>, other: seq<Line>, items: seq<Item>, infos: map<nat, string>)
    requires Prints(out, items, infos) && Prints(other, items, infos)
    ensures out == other
  {
    hide LinearAll, Lines, AllPrintable, EndsAtBreaks, Steps;
    var ts :| Shows(out, items, infos, ts);
    var us :| Shows(other, items, infos, us);
    TreesUnique(ts, us);
  }

  // ---------------------------------------------------------------- an example

  const HERE := Location("a.sol", 7, 9)
  const ORDINARY := SourceMap.Ordinary
  const SAMPLE: seq<Item> := [
    Item(Tag("1"), ORDINARY, "tag_1:", Some(HERE), "entry"),
    Item(Push("1"), ORDINARY, "0x1", Some(HERE), ""),
    Item(Push("2"), ORDINARY, "0x2", None, ""),
    Item(Operation("add", 2, 1, false, false), ORDINARY, "add", Some(HERE), "sum"),
    Item(Operation("dup1", 1, 2, true, false), ORDINARY, "dup1", None, ""),
    Item(Push("3"), ORDINARY, "0x3", None, ""),
    Item(Operation("mstore", 2, 0, false, false), ORDINARY, "mstore", None, "kept")]

  const INFOS: map<nat, string> := map[0 := "note", 6 := "end"]

  function Alone(item: Item): Tree {
    Node(item, [])
  }

  const SAMPLE_TREES: seq<Tree> := [
    Alone(SAMPLE[0]), Node(SAMPLE[3], [Alone(SAMPLE[2]), Alone(SAMPLE[1])]), Alone(SAMPLE[4]), Alone(SAMPLE[5]),
    Alone(SAMPLE[6])]

  function SampleComments(k: nat): seq<Line> {
    if k == 0 then [Comment("note"), Place(HERE)] else if k == 6 then [Comment("end")] else []
  }

  lemma SampleSize()
    ensures |SAMPLE| == 7
  {
  }

  lemma SampleMoves(k: nat)
    requires k < 7
    ensures Moves(SAMPLE, k) <==> k == 0
    ensures Comments(SAMPLE, INFOS, k) == SampleComments(k)
  {
    LocationNext(SAMPLE, 0);
    LocationNext(SAMPLE, 1);
    LocationNext(SAMPLE, 2);
    LocationNext(SAMPLE, 3);
    LocationNext(SAMPLE, 4);
    LocationNext(SAMPLE, 5);
  }

  lemma SampleHeights()
    ensures !Nests(SAMPLE, INFOS, 0) && Nests(SAMPLE, INFOS, 1) && Nests(SAMPLE, INFOS, 2) && Nests(SAMPLE, INFOS, 3)
    ensures !Nests(SAMPLE, INFOS, 4) && Nests(SAMPLE, INFOS, 5) && !Nests(SAMPLE, INFOS, 6)
  {
    hide Moves, Comments;
    for k: nat := 0 to 7
      invariant forall j :: 0 <= j < k ==> (Moves(SAMPLE, j) <==> j == 0)
    {
      SampleMoves(k);
    }
    PendingNext(SAMPLE, INFOS, 0);
    PendingNext(SAMPLE, INFOS, 1);
    PendingNext(SAMPLE, INFOS, 2);
    PendingNext(SAMPLE, INFOS, 3);
    PendingNext(SAMPLE, INFOS, 4);
    PendingNext(SAMPLE, INFOS, 5);
  }

  lemma AloneLinear(trees: seq<Tree>, item: Item)
    ensures LinearAll(trees + [Alone(item)]) == LinearAll(trees) + [Step(item, 0)] && Render(Alone(item)) == item.text
  {
    hide LinearAll;
    LinearAllSnoc(trees, Alone(item));
    LoneItem(item);
  }

  lemma SumLinear()
    ensures var sum := SAMPLE_TREES[1];
            Linear(sum) == [Step(SAMPLE[1], 0), Step(SAMPLE[2], 0), Step(SAMPLE[3], 2)] &&
            Render(sum) == "add(0x2, 0x1)"
  {
    var args := SAMPLE_TREES[1].args;
    LoneItem(SAMPLE[1]);
    LoneItem(SAMPLE[2]);
    assert LinearReversed(args, 1) == Linear(args[0]);
    assert RenderArgs(args[1..]) == "0x1";
  }

  lemma SampleSteps()
    ensures Steps(SAMPLE, INFOS, 7) ==
            [Step(SAMPLE[0], 0), Step(SAMPLE[1], 0), Step(SAMPLE[2], 0), Step(SAMPLE[3], 2), Step(SAMPLE[4], 0),
             Step(SAMPLE[5], 0), Step(SAMPLE[6], 0)]
  {
    hide Nests;
    SampleHeights();
  }

  lemma SampleLinear()
    ensures LinearAll(SAMPLE_TREES) == Steps(SAMPLE, INFOS, 7)
    ensures |LinearAll(SAMPLE_TREES[..0])| == 0 && |LinearAll(SAMPLE_TREES[..1])| == 1
    ensures |LinearAll(SAMPLE_TREES[..2])| == 4 && |LinearAll(SAMPLE_TREES[..3])| == 5
    ensures |LinearAll(SAMPLE_TREES[..4])| == 6
  {
    SampleSteps();
    SumLinear();
    NothingLinear([]);
    hide LinearAll, Linear, Steps, Alone;
    var ts := SAMPLE_TREES;
    assert ts[..0] == [];
    AloneLinear([], SAMPLE[0]);
    assert ts[..1] == [] + [ts[0]];
    LinearAllSnoc(ts[..1], ts[1]);
    assert ts[..2] == ts[..1] + [ts[1]];
    AloneLinear(ts[..2], SAMPLE[4]);
    assert ts[..3] == ts[..2] + [ts[2]];
    AloneLinear(ts[..3], SAMPLE[5]);
    assert ts[..4] == ts[..3] + [ts[3]];
    AloneLinear(ts[..4], SAMPLE[6]);
    assert ts == ts[..4] + [ts[4]];
  }

  lemma SampleLine(trees: seq<Tree>, t: Tree, k: nat, text: string, debug: string)
    requires k < 7 && |LinearAll(trees)| + |Linear(t)| == k + 1 && Render(t) == text
    requires debug == if Nests(SAMPLE, INFOS, k) then "" else t.item.debugInfo
    ensures Lines(SAMPLE, INFOS, trees + [t]) ==
            Lines(SAMPLE, INFOS, trees) + SampleComments(|LinearAll(trees)|) +
            [Code(if t.item.kind.Tag? then "" else "  ", text, debug)]
  {
    hide Lines, LinearAll, Linear, Render, Nests, Comments, SAMPLE, SampleComments;
    SampleSize();
    LinesSnoc(SAMPLE, INFOS, trees, t);
    SampleMoves(|LinearAll(trees)|);
  }

  const SAMPLE_LINES: seq<Line> := [
    Comment("note"), Place(HERE), Code("", "tag_1:", "entry"), Code("  ", "add(0x2, 0x1)", ""), Code("  ", "dup1", ""),
    Code("  ", "0x3", ""), Comment("end"), Code("  ", "mstore", "kept")]

  lemma SampleLines()
    ensures Lines(SAMPLE, INFOS, SAMPLE_TREES) == SAMPLE_LINES
  {
    SampleHeights();
    SampleLinear();
    SumLinear();
    hide Lines, LinearAll, Linear, Nests, Steps, Render;
    var ts := SAMPLE_TREES;
    LoneItem(SAMPLE[0]);
    LoneItem(SAMPLE[4]);
    LoneItem(SAMPLE[5]);
    LoneItem(SAMPLE[6]);
    assert ts[..0] == [] && ts[..1] == ts[..0] + [ts[0]] && ts[..2] == ts[..1] + [ts[1]];
    assert ts[..3] == ts[..2] + [ts[2]] && ts[..4] == ts[..3] + [ts[3]] && ts == ts[..4] + [ts[4]];
    assert Lines(SAMPLE, INFOS, []) == [] by { NoLines(); }
    SampleLine(ts[..0], ts[0], 0, "tag_1:", "entry");
    SampleLine(ts[..1], ts[1], 3, "add(0x2, 0x1)", "");
    SampleLine(ts[..2], ts[2], 4, "dup1", "");
    SampleLine(ts[..3], ts[3], 5, "0x3", "");
    SampleLine(ts[..4], ts[4], 6, "mstore", "kept");
  }

  lemma NoLines()
    ensures Lines(SAMPLE, INFOS, []) == []
  {
  }

  /** Whatever is printed of these items are these lines. */
  lemma SampleOutput(out: seq<Line>)
    requires Prints(out, SAMPLE, INFOS)
    ensures out == SAMPLE_LINES
  {
    SampleLinear();
    SampleLines();
    hide LinearAll, Lines, AllPrintable, EndsAtBreaks, Steps, SAMPLE_TREES, SAMPLE_LINES;
    var ts :| Shows(out, SAMPLE, INFOS, ts);
    TreesUnique(ts, SAMPLE_TREES);
  }

  // ---------------------------------------------------------------- reading the text back

  /** `toAssemblyText`. */
  function AssemblyText(kind: Kind, jumpType: SourceMap.JumpType): string {
    BaseText(kind) + JumpText(jumpType)
  }

  function BaseText(kind: Kind): string {
    match kind
    case Operation(name, _, _, _, _) => name
    case Push(digits) => digits
    case PushString(digits) => "data_" + digits
    case PushTag(number) => "tag_" + number
    case PushData(digits) => "data_" + digits
    case PushSub(path) => Call("dataOffset", path)
    case PushSubSize(path) => Call("dataSize", path)
    case PushProgramSize => "bytecodeSize"
    case PushLibraryAddress(digits) => Call("linkerSymbol", "\"" + digits + "\"")
    case PushDeployTimeAddress => Call("deployTimeAddress", "")
    case PushImmutable(digits) => Call("immutable", "\"" + digits + "\"")
    case Tag(number) => "tag_" + number + ":"
    case AssignImmutable(digits) => Call("assignImmutable", "\"" + digits + "\"")
  }

  function JumpText(jumpType: SourceMap.JumpType): string {
    match jumpType
    case IntoFunction => "\t// in"
    case OutOfFunction => "\t// out"
    case Ordinary => ""
  }

  function Call(name: string, inside: string): string {
    name + "(" + inside + ")"
  }

  /** The names that `toAssemblyText` prints with parentheses of their own. */
  const RESERVED: set<string> :=
    {"dataOffset", "dataSize", "linkerSymbol", "deployTimeAddress", "immutable", "assignImmutable"}

  predicate Delimiter(c: char) {
    c == '(' || c == ')' || c == ','
  }

  predicate Plain(text: string) {
    forall i :: 0 <= i < |text| ==> !Delimiter(text[i])
  }

  /** What the instruction table and the printing of numbers guarantee: names and
      numbers are free of delimiters, and no instruction or number is a reserved name. */
  predicate Legible(item: Item) {
    item.text == AssemblyText(item.kind, item.jumpType) &&
    match item.kind
    case Operation(name, _, _, _, _) => Plain(name) && name !in RESERVED
    case Push(digits) => Plain(digits) && digits !in RESERVED
    case PushString(digits) => Plain(digits)
    case PushTag(number) => Plain(number)
    case PushData(digits) => Plain(digits)
    case PushSub(path) => Plain(path)
    case PushSubSize(path) => Plain(path)
    case PushProgramSize => true
    case PushLibraryAddress(digits) => Plain(digits)
    case PushDeployTimeAddress => true
    case PushImmutable(digits) => Plain(digits)
    case Tag(number) => Plain(number)
    case AssignImmutable(digits) => Plain(digits)
  }

  /** A text without parentheses and commas that is no reserved name. */
  predicate PlainText(text: string) {
    Plain(text) && text !in RESERVED
  }

  /** A reserved name with something plain in parentheses and behind them. */
  ghost predicate CallText(text: string) {
    exists name, inside, suffix :: IsCall(text, name, inside, suffix)
  }

  predicate IsCall(text: string, name: string, inside: string, suffix: string) {
    name in RESERVED && Plain(inside) && Plain(suffix) && text == Call(name, inside) + suffix
  }

  lemma PlainConcat(a: string, b: string)
    requires Plain(a) && Plain(b)
    ensures Plain(a + b)
  {
  }

  lemma ReservedNames(name: string)
    requires name in RESERVED
    ensures Plain(name) && |name| >= 5 && name[4] != '_' && name[0] != 't' && name[0] != 'b'
    ensures forall i :: 0 <= i < |name| ==> name[i] != '\t'
  {
  }

  lemma PlainBase(base: string, jumpType: SourceMap.JumpType)
    requires PlainText(base)
    ensures PlainText(base + JumpText(jumpType))
  {
    var text := base + JumpText(jumpType);
    PlainConcat(base, JumpText(jumpType));
    if jumpType.Ordinary? {
      assert text == base;
    } else {
      assert text[|base|] == '\t';
      if text in RESERVED {
        ReservedNames(text);
      }
    }
  }

  /** Legible texts have one of the two forms, the second only where no
      arguments are printed. */
  lemma LegibleText(item: Item)
    requires Legible(item)
    ensures PlainText(item.text) || (CallText(item.text) && (Arguments(item) == 0 || !CanBeFunctional(item)))
  {
    hide Call;
    var base, suffix := BaseText(item.kind), JumpText(item.jumpType);
    match item.kind
    case PushSub(path) => assert IsCall(item.text, "dataOffset", path, suffix);
    case PushSubSize(path) => assert IsCall(item.text, "dataSize", path, suffix);
    case PushLibraryAddress(digits) => assert IsCall(item.text, "linkerSymbol", "\"" + digits + "\"", suffix);
    case PushDeployTimeAddress => assert IsCall(item.text, "deployTimeAddress", "", suffix);
    case PushImmutable(digits) => assert IsCall(item.text, "immutable", "\"" + digits + "\"", suffix);
    case AssignImmutable(digits) => assert IsCall(item.text, "assignImmutable", "\"" + digits + "\"", suffix);
    case _ =>
      PlainKinds(item);
      PlainBase(base, item.jumpType);
  }

  lemma PlainKinds(item: Item)
    requires Legible(item)
    requires item.kind.Operation? || item.kind.Push? || item.kind.PushString? || item.kind.PushTag? ||
      item.kind.PushData?
             || item.kind.PushProgramSize? || item.kind.Tag?
    ensures PlainText(BaseText(item.kind))
  {
    hide RESERVED;
    var base := BaseText(item.kind);
    if item.kind.PushString? || item.kind.PushData? {
      assert base[4] == '_';
    } else if item.kind.PushTag? || item.kind.Tag? {
      assert base[0] == 't';
    } else if item.kind.PushProgramSize? {
      assert base[0] == 'b';
    }
    if base in RESERVED {
      ReservedNames(base);
    }
  }

  /** A tree whose texts have these forms. */
  ghost predicate Readable(t: Tree) {
    (PlainText(t.item.text) || (CallText(t.item.text) && t.args == [])) &&
    forall i :: 0 <= i < |t.args| ==> Readable(t.args[i])
  }

  predicate Stops(s: string) {
    s == "" || Delimiter(s[0])
  }

  function Texts(steps: seq<Step>): seq<string> {
    seq(|steps|, i requires 0 <= i < |steps| => steps[i].item.text)
  }

  predicate SameText(t: Tree, u: Tree) {
    t.item.text == u.item.text && |t.args| == |u.args| &&
    forall i :: 0 <= i < |t.args| ==> SameText(t.args[i], u.args[i])
  }

  lemma NameEnds(a: string, x: string, b: string, y: string)
    requires Plain(a) && Plain(b) && Stops(x) && Stops(y) && a + x == b + y
    ensures a == b && x == y
  {
    assert |a| < |a + x| ==> (a + x)[|a|] == x[0];
    assert |b| < |b + y| ==> (b + y)[|b|] == y[0];
    assert a == (a + x)[..|a|] && b == (b + y)[..|b|];
    assert x == (a + x)[|a|..] && y == (b + y)[|b|..];
  }

  function ArgsText(t: Tree): string {
    if t.args == [] then "" else "(" + RenderArgs(t.args) + ")"
  }

  /** Arguments follow if and only if a parenthesis opens. */
  lemma ArgsMark(t: Tree, s: string)
    requires s == "" || s[0] != '('
    ensures t.args != [] <==> ArgsText(t) + s != "" && (ArgsText(t) + s)[0] == '('
    ensures t.args == [] ==> ArgsText(t) + s == s
  {
  }

  lemma RenderSplits(t: Tree, s: string)
    ensures Render(t) + s == t.item.text + (ArgsText(t) + s)
  {
    hide RenderArgs;
  }

  /** The text of a tree starts with a name, which tells the two forms apart. */
  lemma LeadingName(t: Tree, s: string) returns (name: string, rest: string)
    requires Readable(t) && Stops(s)
    ensures Render(t) + s == name + rest && Plain(name) && Stops(rest)
    ensures name in RESERVED <==> !PlainText(t.item.text)
    ensures PlainText(t.item.text) ==> name == t.item.text && rest == ArgsText(t) + s
    ensures !PlainText(t.item.text) ==> t.args == [] && exists inside, suffix ::
              Plain(inside) && Plain(suffix) && t.item.text == Call(name, inside) + suffix &&
                  rest == "(" + (inside + (")" + (suffix + s)))
  {
    hide RenderArgs, Render, RESERVED;
    RenderSplits(t, s);
    if PlainText(t.item.text) {
      name, rest := t.item.text, ArgsText(t) + s;
    } else {
      var n, inside, suffix :| IsCall(t.item.text, n, inside, suffix);
      ReservedNames(n);
      name, rest := n, "(" + (inside + (")" + (suffix + s)));
      CallSplits(n, inside, suffix, s);
      assert ArgsText(t) + s == s;
    }
  }

  lemma CallSplits(name: string, inside: string, suffix: string, s: string)
    ensures Call(name, inside) + suffix + s == name + ("(" + (inside + (")" + (suffix + s))))
  {
  }

  /** An expression followed by a comma, a parenthesis or nothing can be read
      in one way only. */
  lemma {:induction false} ReadTree(t: Tree, s: string, u: Tree, r: string)
    requires Readable(t) && Readable(u) && Render(t) + s == Render(u) + r
    requires (s == "" || s[0] != '(') && (r == "" || r[0] != '(') && Stops(s) && Stops(r)
    ensures SameText(t, u) && s == r
    decreases t, 0
  {
    hide Render, RenderArgs, RESERVED, PlainText, Call;
    var name, x := LeadingName(t, s);
    var other, y := LeadingName(u, r);
    NameEnds(name, x, other, y);
    if PlainText(t.item.text) {
      ArgsMark(t, s);
      ArgsMark(u, r);
      if t.args != [] {
        assert (ArgsText(t) + s)[1..] == RenderArgs(t.args) + (")" + s);
        assert (ArgsText(u) + r)[1..] == RenderArgs(u.args) + (")" + r);
        ReadArgs(t.args, ")" + s, u.args, ")" + r);
        assert s == (")" + s)[1..] && r == (")" + r)[1..];
      }
    } else {
      var i, k :| Plain(i) && Plain(k) && t.item.text == Call(name, i) + k && x == "(" + (i + (")" + (k + s)));
      var j, l :| Plain(j) && Plain(l) && u.item.text == Call(name, j) + l && x == "(" + (j + (")" + (l + r)));
      ReadCall(i, k, s, j, l, r);
    }
  }

  lemma ReadCall(i: string, k: string, s: string, j: string, l: string, r: string)
    requires Plain(i) && Plain(k) && Plain(j) && Plain(l) && Stops(s) && Stops(r)
    requires "(" + (i + (")" + (k + s))) == "(" + (j + (")" + (l + r)))
    ensures i == j && k == l && s == r
  {
    assert ("(" + (i + (")" + (k + s))))[1..] == i + (")" + (k + s));
    assert ("(" + (j + (")" + (l + r))))[1..] == j + (")" + (l + r));
    NameEnds(i, ")" + (k + s), j, ")" + (l + r));
    assert (")" + (k + s))[1..] == k + s && (")" + (l + r))[1..] == l + r;
    NameEnds(k, s, l, r);
  }

  lemma {:induction false} ReadArgs(ts: seq<Tree>, s: string, us: seq<Tree>, r: string)
    requires ts != [] && us != [] && s != "" && r != "" && s[0] == ')' && r[0] == ')'
    requires forall i :: 0 <= i < |ts| ==> Readable(ts[i])
    requires forall i :: 0 <= i < |us| ==> Readable(us[i])
    requires RenderArgs(ts) + s == RenderArgs(us) + r
    ensures |ts| == |us| && (forall i :: 0 <= i < |ts| ==> SameText(ts[i], us[i])) && s == r
    decreases ts, 1
  {
    hide Render, RenderArgs, Readable, SameText;
    var x := AfterFirst(ts, s);
    var y := AfterFirst(us, r);
    FirstOfArgs(ts, s);
    FirstOfArgs(us, r);
    ReadTree(ts[0], x, us[0], y);
    if |ts| > 1 && |us| > 1 {
      assert x[2..] == RenderArgs(ts[1..]) + s && y[2..] == RenderArgs(us[1..]) + r;
      ReadArgs(ts[1..], s, us[1..], r);
      assert forall i :: 1 <= i < |ts| ==> ts[i] == ts[1..][i - 1] && us[i] == us[1..][i - 1];
    }
  }

  function AfterFirst(ts: seq<Tree>, s: string): string
    requires ts != []
  {
    if |ts| == 1 then s else ", " + RenderArgs(ts[1..]) + s
  }

  lemma FirstOfArgs(ts: seq<Tree>, s: string)
    requires ts != []
    ensures RenderArgs(ts) + s == Render(ts[0]) + AfterFirst(ts, s)
  {
    hide Render;
  }

  lemma {:induction false} SameTextLinear(t: Tree, u: Tree)
    requires SameText(t, u)
    ensures Texts(Linear(t)) == Texts(Linear(u))
    decreases t, 0
  {
    hide LinearReversed;
    SameTextReversed(t.args, u.args, |t.args|);
    TextsConcat(LinearReversed(t.args, |t.args|), [Step(t.item, |t.args|)]);
    TextsConcat(LinearReversed(u.args, |u.args|), [Step(u.item, |u.args|)]);
  }

  lemma {:induction false} SameTextReversed(ts: seq<Tree>, us: seq<Tree>, n: nat)
    requires n <= |ts| == |us| && forall i :: 0 <= i < |ts| ==> SameText(ts[i], us[i])
    ensures Texts(LinearReversed(ts, n)) == Texts(LinearReversed(us, n))
    decreases ts, n
  {
    hide Linear, Texts, SameText;
    if n > 0 {
      SameTextLinear(ts[n - 1], us[n - 1]);
      SameTextReversed(ts, us, n - 1);
      TextsConcat(Linear(ts[n - 1]), LinearReversed(ts, n - 1));
      TextsConcat(Linear(us[n - 1]), LinearReversed(us, n - 1));
    }
  }

  lemma TextsConcat(a: seq<Step>, b: seq<Step>)
    ensures Texts(a + b) == Texts(a) + Texts(b)
  {
  }

  /** The lines printed determine the texts of the items and their order. */
  lemma {:induction false} TreesDetermineItems(ts: seq<Tree>, us: seq<Tree>)
    requires (forall t :: t in ts ==> Readable(t)) && (forall u :: u in us ==> Readable(u))
    requires Rendered(ts) == Rendered(us)
    ensures Texts(LinearAll(ts)) == Texts(LinearAll(us))
    decreases |ts|
  {
    hide Render, Linear, Texts, Readable, SameText;
    if ts != [] {
      var n := |ts| - 1;
      assert Rendered(ts)[n] == Rendered(us)[n];
      ReadTree(ts[n], "", us[n], "");
      SameTextLinear(ts[n], us[n]);
      assert Rendered(ts[..n]) == Rendered(ts)[..n] == Rendered(us)[..n] == Rendered(us[..n]);
      TreesDetermineItems(ts[..n], us[..n]);
      TextsConcat(LinearAll(ts[..n]), Linear(ts[n]));
      TextsConcat(LinearAll(us[..n]), Linear(us[n]));
    }
  }

  predicate AllLegible(steps: seq<Step>) {
    forall i :: 0 <= i < |steps| ==> Legible(steps[i].item)
  }

  lemma LegibleParts(a: seq<Step>, b: seq<Step>)
    requires AllLegible(a + b)
    ensures AllLegible(a) && AllLegible(b)
  {
    forall i | 0 <= i < |a| ensures Legible(a[i].item) {
      assert a[i] == (a + b)[i];
    }
    forall i | 0 <= i < |b| ensures Legible(b[i].item) {
      assert b[i] == (a + b)[|a| + i];
    }
  }

  /** Expressions made of legible items are readable. */
  lemma {:induction false} PrintableReads(t: Tree)
    requires Printable(t) && AllLegible(Linear(t))
    ensures Readable(t)
    decreases t, 0
  {
    hide Legible, LinearReversed, AllLegible;
    LegibleParts(LinearReversed(t.args, |t.args|), [Step(t.item, |t.args|)]);
    LegibleOne(Step(t.item, |t.args|));
    LegibleText(t.item);
    ArgsRead(t.args, |t.args|);
  }

  lemma LegibleOne(step: Step)
    requires AllLegible([step])
    ensures Legible(step.item)
  {
    assert [step][0] == step;
  }

  lemma {:induction false} ArgsRead(ts: seq<Tree>, n: nat)
    requires n <= |ts| && (forall i :: 0 <= i < |ts| ==> Nested(ts[i]) && ReturnValues(ts[i].item) == 1)
    requires AllLegible(LinearReversed(ts, n))
    ensures forall i :: 0 <= i < n ==> Readable(ts[i])
    decreases ts, n
  {
    hide Linear, AllLegible, Readable, Nested;
    if n > 0 {
      LegibleParts(Linear(ts[n - 1]), LinearReversed(ts, n - 1));
      PrintableReads(ts[n - 1]);
      ArgsRead(ts, n - 1);
    }
  }

  lemma {:induction false} AllRead(ts: seq<Tree>)
    requires AllPrintable(ts) && AllLegible(LinearAll(ts))
    ensures forall t :: t in ts ==> Readable(t)
  {
    hide Linear, AllLegible, Readable, Printable;
    if ts != [] {
      var init, last := ts[..|ts| - 1], ts[|ts| - 1];
      LegibleParts(LinearAll(init), Linear(last));
      AllRead(init);
      PrintableReads(last);
    }
  }

  /** The texts of the expressions printed. */
  function CodeTexts(out: seq<Line>): seq<string> {
    if out == [] then []
    else if out[|out| - 1].Code? then CodeTexts(out[..|out| - 1]) + [out[|out| - 1].text]
    else CodeTexts(out[..|out| - 1])
  }

  lemma CodeTextsSnoc(out: seq<Line>, line: Line)
    ensures CodeTexts(out + [line]) == CodeTexts(out) + (if line.Code? then [line.text] else [])
  {
    assert (out + [line])[..|out|] == out;
  }

  lemma CommentsAreNoCode(out: seq<Line>, items: seq<Item>, infos: map<nat, string>, k: nat)
    ensures CodeTexts(out + Comments(items, infos, k)) == CodeTexts(out)
  {
    hide CodeTexts;
    var all := out + Comments(items, infos, k);
    if k < |items| {
      var notes: seq<Line> := if k in infos then [Comment(infos[k])] else [];
      if k in infos {
        CodeTextsSnoc(out, Comment(infos[k]));
      }
      if all != out + notes {
        CodeTextsSnoc(out + notes, Place(items[k].location.value));
        assert all == out + notes + [Place(items[k].location.value)];
      }
      assert notes == [] ==> out + notes == out;
    } else {
      assert all == out;
    }
  }

  lemma {:induction false} LinesTexts(items: seq<Item>, infos: map<nat, string>, trees: seq<Tree>)
    ensures CodeTexts(Lines(items, infos, trees)) == Rendered(trees)
  {
    hide CodeTexts, Comments, LineOf, Render, LinearAll, Linear;
    if trees == [] {
      assert CodeTexts([]) == [] by { NoCodeTexts(); }
    } else {
      var init, t := trees[..|trees| - 1], trees[|trees| - 1];
      var before := Lines(items, infos, init);
      var line := LineOf(items, infos, t, |LinearAll(init)| + |Linear(t)| - 1);
      LinesTexts(items, infos, init);
      CommentsAreNoCode(before, items, infos, |LinearAll(init)|);
      CodeTextsSnoc(before + Comments(items, infos, |LinearAll(init)|), line);
      LineIsCode(items, infos, t, |LinearAll(init)| + |Linear(t)| - 1);
      RenderedSnoc(init, t);
      assert trees == init + [t];
    }
  }

  lemma NoCodeTexts()
    ensures CodeTexts([]) == []
  {
  }

  lemma LineIsCode(items: seq<Item>, infos: map<nat, string>, t: Tree, k: nat)
    ensures var line := LineOf(items, infos, t, k); line.Code? && line.text == Render(t)
  {
  }

  lemma LegibleSteps(items: seq<Item>, infos: map<nat, string>)
    requires forall k :: 0 <= k < |items| ==> Legible(items[k])
    ensures AllLegible(Steps(items, infos, |items|))
  {
    hide Legible, Nests;
  }

  /** The printed lines determine the texts of the items and their order, for
      all items the printer can be given. */
  lemma LinesDetermineItems(out: seq<Line>, items: seq<Item>, infos: map<nat, string>, others: seq<Item>,
      otherInfos: map<nat, string>)
    requires Prints(out, items, infos) && Prints(out, others, otherInfos)
    requires forall k :: 0 <= k < |items| ==> Legible(items[k])
    requires forall k :: 0 <= k < |others| ==> Legible(others[k])
    ensures |items| == |others| && forall k :: 0 <= k < |items| ==> items[k].text == others[k].text
  {
    hide LinearAll, AllPrintable, AllLegible, Rendered, CodeTexts, Lines, Legible, EndsAtBreaks, Nests;
    var ts :| Shows(out, items, infos, ts);
    var us :| Shows(out, others, otherInfos, us);
    LinesTexts(items, infos, ts);
    LinesTexts(others, otherInfos, us);
    LegibleSteps(items, infos);
    LegibleSteps(others, otherInfos);
    AllRead(ts);
    AllRead(us);
    TreesDetermineItems(ts, us);
    var steps, otherSteps := Steps(items, infos, |items|), Steps(others, otherInfos, |others|);
    assert |Texts(steps)| == |Texts(otherSteps)|;
    forall k | 0 <= k < |items|
      ensures items[k].text == others[k].text
    {
      assert Texts(steps)[k] == Texts(otherSteps)[k];
    }
  }
}
