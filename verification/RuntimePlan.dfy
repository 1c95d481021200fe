/** Unrolling a runtime plan tree into the flat list of steps a sequence executes
    (hmi/backend/services/supervisor_sequence.py, `_runtime_plan_to_semantic_steps`). */
module RuntimePlan {
  import opened Wrappers

  datatype Count = NotInteger | Integer(n: int)

  /** A plan node.  `Skill` carries what the conversion of the leaf reads. */
  datatype Node =
    | Sequence(children: seq<Node>)
    | SequenceWithoutChildren
    | Repeat(body: Node, count: Count)
    | Skill(name: string, args: string)
    | Observe(region: string)
    | Unsupported(kind: string)
    | NotAnObject

  datatype Step = SkillStep(ir: string) | ObserveStep(region: string)

  datatype Error =
    | MissingChildren | ChildNotAnObject | MissingBody | CountNotInteger | CountTooSmall | CountTooLarge
    | SkillRejected(name: string) | UnsupportedNode(kind: string)

  datatype Outcome = Steps(steps: seq<Step>) | Failed(error: Error)

  const REPEAT_MAX_COUNT := 100

  function Times(s: seq<Step>, n: nat): seq<Step> {
    if n == 0 then [] else Times(s, n - 1) + s
  }

  function CountError(node: Node): Option<Error>
    requires node.Repeat?
  {
    if node.body == NotAnObject then Some(MissingBody)
    else if node.count == NotInteger then Some(CountNotInteger)
    else if node.count.n < 1 then Some(CountTooSmall)
    else if node.count.n > REPEAT_MAX_COUNT then Some(CountTooLarge)
    else None
  }

  /** What a node that is neither a sequence nor a repetition becomes. */
  function Leaf(node: Node, convert: Node -> Option<string>): Outcome {
    match node
    case Skill(name, _) =>
      (match convert(node)
       case Some(ir) => Steps([SkillStep(ir)])
       case None => Failed(SkillRejected(name)))
    case Observe(region) => Steps([ObserveStep(region)])
    case Unsupported(kind) => Failed(UnsupportedNode(kind))
    case SequenceWithoutChildren => Failed(MissingChildren)
    case _ => Failed(ChildNotAnObject)
  }

  function Width(node: Node): nat {
    if node.Sequence? then |node.children| + 1 else 0
  }

  function Unroll(node: Node, convert: Node -> Option<string>): Outcome
    decreases node, Width(node)
  {
    match node
    case Sequence(children) => UnrollFirst(node, |children|, convert)
    case Repeat(body, count) =>
      if CountError(node).Some? then Failed(CountError(node).value)
      else
        (match Unroll(body, convert)
         case Failed(e) => Failed(e)
         case Steps(s) => Steps(Times(s, count.n)))
    case _ => Leaf(node, convert)
  }

  /** The first n children, in order, stopping at the first that fails. */
  function UnrollFirst(node: Node, n: nat, convert: Node -> Option<string>): Outcome
    requires node.Sequence? && n <= |node.children|
    decreases node, n
  {
    if n == 0 then Steps([])
    else
      match UnrollFirst(node, n - 1, convert)
      case Failed(e) => Failed(e)
      case Steps(s) =>
        match Unroll(node.children[n - 1], convert)
        case Failed(e) => Failed(e)
        case Steps(t) => Steps(s + t)
  }

  // ---- the recursion as it runs ----

  /** What unrolling leaves of the plan: the arguments of every skill it converted are written back,
      and children after the first that fails are not reached. */
  function WriteBack(node: Node, convert: Node -> Option<string>, written: Node -> string): (after: Node)
    ensures after == NotAnObject <==> node == NotAnObject
    ensures node.Sequence? ==> after.Sequence? && |after.children| == |node.children|
    decreases node
  {
    match node
    case Sequence(children) =>
      Sequence(seq(|children|, i requires 0 <= i < |children| =>
        if UnrollFirst(node, i, convert).Steps? then WriteBack(children[i], convert, written) else children[i]))
    case Repeat(body, count) =>
      if CountError(node).Some? then node else Repeat(WriteBack(body, convert, written), count)
    case Skill(name, _) => if convert(node).Some? then Skill(name, written(node)) else node
    case _ => node
  }

  method UnrollPlan(node: Node, convert: Node -> Option<string>, written: Node -> string)
    returns (r: Outcome, after: Node)
    ensures r == Unroll(node, convert)
    ensures after == WriteBack(node, convert, written)
    decreases node, 1
  {
    after := node;
    match node {
      case Sequence(children) =>
        r, after := UnrollChildren(node, convert, written);
      case Repeat(body, count) =>
        if body == NotAnObject {
          return Failed(MissingBody), node;
        }
        if count == NotInteger {
          return Failed(CountNotInteger), node;
        }
        if count.n < 1 {
          return Failed(CountTooSmall), node;
        }
        if count.n > REPEAT_MAX_COUNT {
          return Failed(CountTooLarge), node;
        }
        var left;
        r, left := UnrollPlan(body, convert, written);
        after := Repeat(left, count);
        if r.Steps? {
          r := Steps(Times(r.steps, count.n));
        }
      case Skill(name, _) =>
        r := Leaf(node, convert);
        if r.Steps? {
          after := Skill(name, written(node));
        }
      case _ =>
        r := Leaf(node, convert);
    }
  }

  /** The loop over a sequence's children. */
  method UnrollChildren(node: Node, convert: Node -> Option<string>, written: Node -> string)
    returns (r: Outcome, after: Node)
    requires node.Sequence?
    ensures r == Unroll(node, convert)
    ensures after == WriteBack(node, convert, written)
    decreases node, 0
  {
    hide WriteBack, Unroll, UnrollFirst, Written;
    var steps: seq<Step> := [];
    var plan := node.children;
    FirstNone(node, convert, written);
    for n := 0 to |node.children|
      invariant UnrollFirst(node, n, convert) == Steps(steps)
      invariant |plan| == |node.children| && Written(node, plan, n, convert, written)
    {
      var child, left := UnrollPlan(node.children[n], convert, written);
      FirstNext(node, plan, n, steps, convert, written);
      plan := plan[n := left];
      if child.Failed? {
        FailureStays(node, n + 1, convert);
        WrittenUpTo(node, plan, n + 1, convert, written);
        return child, Sequence(plan);
      }
      steps := steps + child.steps;
    }
    WrittenUpTo(node, plan, |node.children|, convert, written);
    WholeSequence(node, convert);
    return Steps(steps), Sequence(plan);
  }

  lemma FirstNone(node: Node, convert: Node -> Option<string>, written: Node -> string)
    requires node.Sequence?
    ensures UnrollFirst(node, 0, convert) == Steps([]) && Written(node, node.children, 0, convert, written)
  {
    hide WriteBack;
  }

  lemma FirstNext(node: Node, plan: seq<Node>, n: nat, steps: seq<Step>, convert: Node -> Option<string>,
                  written: Node -> string)
    requires node.Sequence? && n < |node.children| && Written(node, plan, n, convert, written)
    requires UnrollFirst(node, n, convert) == Steps(steps)
    ensures |plan| == |node.children| && plan[n] == node.children[n]
    ensures Written(node, plan[n := WriteBack(node.children[n], convert, written)], n + 1, convert, written)
    ensures var child := Unroll(node.children[n], convert);
            UnrollFirst(node, n + 1, convert) == if child.Failed? then child else Steps(steps + child.steps)
  {
    hide WriteBack, Unroll;
  }

  lemma WholeSequence(node: Node, convert: Node -> Option<string>)
    requires node.Sequence?
    ensures Unroll(node, convert) == UnrollFirst(node, |node.children|, convert)
  {
  }

  /** The first n children are written back, the others as they were. */
  ghost predicate Written(node: Node, plan: seq<Node>, n: nat, convert: Node -> Option<string>, written: Node -> string)
    requires node.Sequence?
  {
    && |plan| == |node.children|
    && (forall i | 0 <= i < n && i < |plan| ::
          UnrollFirst(node, i, convert).Steps? && plan[i] == WriteBack(node.children[i], convert, written))
    && (forall i | n <= i < |plan| :: plan[i] == node.children[i])
  }

  lemma WrittenUpTo(node: Node, plan: seq<Node>, n: nat, convert: Node -> Option<string>, written: Node -> string)
    requires node.Sequence? && n <= |node.children| && Written(node, plan, n, convert, written)
    requires n < |node.children| ==> UnrollFirst(node, n, convert).Failed?
    ensures Sequence(plan) == WriteBack(node, convert, written)
  {
    hide UnrollFirst;
    forall i | n <= i < |plan| ensures UnrollFirst(node, i, convert).Failed? {
      FailedAfter(node, n, i, convert);
    }
    assert plan == WriteBack(node, convert, written).children;
  }

  lemma {:induction false} FailedAfter(node: Node, n: nat, m: nat, convert: Node -> Option<string>)
    requires node.Sequence? && n <= m <= |node.children| && UnrollFirst(node, n, convert).Failed?
    ensures UnrollFirst(node, m, convert).Failed?
    decreases m
  {
    if n < m {
      FailedAfter(node, n, m - 1, convert);
    }
  }

  lemma {:induction false} FailureStays(node: Node, n: nat, convert: Node -> Option<string>)
    requires node.Sequence? && n <= |node.children| && UnrollFirst(node, n, convert).Failed?
    ensures Unroll(node, convert) == UnrollFirst(node, n, convert)
    decreases |node.children| - n
  {
    if n < |node.children| {
      FailureStays(node, n + 1, convert);
    }
  }

  /** Converting written-back arguments gives what converting the original ones gave. */
  ghost predicate Stable(convert: Node -> Option<string>, written: Node -> string) {
    forall name, args :: StableAt(convert, written, Skill(name, args))
  }

  predicate StableAt(convert: Node -> Option<string>, written: Node -> string, skill: Node)
    requires skill.Skill?
  {
    convert(skill).Some? ==>
      var again := Skill(skill.name, written(skill));
      convert(again) == convert(skill) && written(again) == written(skill)
  }

  /** Unrolling a plan again, after what the first unrolling wrote into it, gives the same steps or the
      same error and writes nothing new, also when the first unrolling failed halfway. */
  lemma {:induction false} UnrollAgain(node: Node, convert: Node -> Option<string>, written: Node -> string)
    requires Stable(convert, written)
    ensures var after := WriteBack(node, convert, written);
            Unroll(after, convert) == Unroll(node, convert) && WriteBack(after, convert, written) == after
    decreases node
  {
    hide Stable, UnrollFirst;
    var after := WriteBack(node, convert, written);
    match node
    case Sequence(children) =>
      forall i | 0 <= i < |children|
        ensures Unroll(WriteBack(children[i], convert, written), convert) == Unroll(children[i], convert)
        ensures var once := WriteBack(children[i], convert, written); WriteBack(once, convert, written) == once
      {
        UnrollAgain(children[i], convert, written);
      }
      forall n: nat | n <= |children| ensures UnrollFirst(after, n, convert) == UnrollFirst(node, n, convert) {
        FirstAgain(node, n, convert, written);
      }
      assert WriteBack(after, convert, written) == after by {
        assert WriteBack(after, convert, written).children == after.children;
      }
    case Repeat(body, count) =>
      if CountError(node).None? {
        UnrollAgain(body, convert, written);
      }
    case Skill(name, args) =>
      assert StableAt(convert, written, Skill(name, args)) by { StableHolds(convert, written, name, args); }
    case _ =>
  }

  lemma StableHolds(convert: Node -> Option<string>, written: Node -> string, name: string, args: string)
    requires Stable(convert, written)
    ensures StableAt(convert, written, Skill(name, args))
  {
  }

  lemma {:induction false} FirstAgain(node: Node, n: nat, convert: Node -> Option<string>, written: Node -> string)
    requires node.Sequence? && n <= |node.children|
    requires forall i | 0 <= i < |node.children| ::
               Unroll(WriteBack(node.children[i], convert, written), convert) == Unroll(node.children[i], convert)
    ensures UnrollFirst(WriteBack(node, convert, written), n, convert) == UnrollFirst(node, n, convert)
    decreases n
  {
    hide Unroll;
    if n > 0 {
      FirstAgain(node, n - 1, convert, written);
    }
  }

  // ---- a machine for plans ----

  /** An upper bound on the machine's steps. */
  function Work(node: Node): nat
    decreases node, Width(node)
  {
    match node
    case Sequence(children) => 1 + WorkFirst(node, |children|)
    case Repeat(body, count) => 1 + if CountError(node).Some? then 0 else count.n * Work(body)
    case _ => 1
  }

  function WorkFirst(node: Node, n: nat): nat
    requires node.Sequence? && n <= |node.children|
    decreases node, n
  {
    if n == 0 then 0 else WorkFirst(node, n - 1) + Work(node.children[n - 1])
  }

  function Load(stack: seq<Node>): nat {
    if stack == [] then 0 else Work(stack[0]) + Load(stack[1..])
  }

  lemma {:induction false} LoadAppend(a: seq<Node>, b: seq<Node>)
    ensures Load(a + b) == Load(a) + Load(b)
    decreases |a|
  {
    hide Work;
    if a == [] {
      assert a + b == b;
    } else {
      assert (a + b)[1..] == a[1..] + b;
      LoadAppend(a[1..], b);
    }
  }

  lemma {:induction false} LoadChildren(node: Node, n: nat)
    requires node.Sequence? && n <= |node.children|
    ensures Load(node.children[..n]) == WorkFirst(node, n)
  {
    hide Work;
    if n > 0 {
      LoadChildren(node, n - 1);
      var last := [node.children[n - 1]];
      assert node.children[..n] == node.children[..n - 1] + last;
      LoadAppend(node.children[..n - 1], last);
      assert last[1..] == [];
    }
  }

  function Copies(node: Node, n: nat): seq<Node> {
    if n == 0 then [] else [node] + Copies(node, n - 1)
  }

  lemma {:induction false} LoadCopies(node: Node, n: nat)
    ensures Load(Copies(node, n)) == n * Work(node)
  {
    hide Work;
    if n > 0 {
      LoadCopies(node, n - 1);
      assert Copies(node, n)[1..] == Copies(node, n - 1);
      assert n * Work(node) == Work(node) + (n - 1) * Work(node);
    }
  }

  lemma ExpandShrinks(stack: seq<Node>)
    requires stack != []
    ensures stack[0].Sequence? ==> Load(stack[0].children + stack[1..]) < Load(stack)
    ensures stack[0].Repeat? && CountError(stack[0]).None? ==>
              Load(Copies(stack[0].body, stack[0].count.n) + stack[1..]) < Load(stack)
  {
    var node := stack[0];
    if node.Sequence? {
      LoadAppend(node.children, stack[1..]);
      LoadChildren(node, |node.children|);
      assert node.children[..|node.children|] == node.children;
    } else if node.Repeat? && CountError(node).None? {
      LoadAppend(Copies(node.body, node.count.n), stack[1..]);
      LoadCopies(node.body, node.count.n);
    }
  }

  /** A stack machine that never recurses: a sequence is replaced by its children, a repetition by
      copies of its body, and a leaf is emitted. */
  function Execute(stack: seq<Node>, trace: seq<Step>, convert: Node -> Option<string>): Outcome
    decreases Load(stack), |stack|
  {
    if stack == [] then Steps(trace)
    else
      ExpandShrinks(stack);
      var node, rest := stack[0], stack[1..];
      if node.Sequence? then Execute(node.children + rest, trace, convert)
      else if node.Repeat? then
        if CountError(node).Some? then Failed(CountError(node).value)
        else Execute(Copies(node.body, node.count.n) + rest, trace, convert)
      else
        var leaf := Leaf(node, convert);
        if leaf.Failed? then leaf else Execute(rest, trace + leaf.steps, convert)
  }

  function Continue(o: Outcome, rest: seq<Node>, trace: seq<Step>, convert: Node -> Option<string>): Outcome {
    match o
    case Failed(e) => Failed(e)
    case Steps(s) => Execute(rest, trace + s, convert)
  }

  /** Running a node on the machine is unrolling it and going on. */
  lemma {:induction false} MachineNode(node: Node, rest: seq<Node>, trace: seq<Step>, convert: Node -> Option<string>)
    ensures Execute([node] + rest, trace, convert) == Continue(Unroll(node, convert), rest, trace, convert)
    decreases node, Width(node)
  {
    hide Leaf;
    assert ([node] + rest)[1..] == rest;
    match node
    case Sequence(children) =>
      MachineFirst(node, |children|, rest, trace, convert);
      assert children[..|children|] == children;
    case Repeat(body, count) =>
      if CountError(node).None? {
        MachineCopies(body, count.n, rest, trace, convert);
      }
    case _ =>
  }

  lemma {:induction false} MachineFirst(node: Node, n: nat, rest: seq<Node>, trace: seq<Step>,
                                        convert: Node -> Option<string>)
    requires node.Sequence? && n <= |node.children|
    ensures Execute(node.children[..n] + rest, trace, convert) == Continue(UnrollFirst(node, n, convert), rest, trace, convert)
    decreases node, n
  {
    hide Execute, Unroll;
    if n == 0 {
      assert node.children[..0] + rest == rest;
      assert trace + [] == trace;
    } else {
      var child := node.children[n - 1];
      assert node.children[..n] + rest == node.children[..n - 1] + ([child] + rest);
      MachineFirst(node, n - 1, [child] + rest, trace, convert);
      var before := UnrollFirst(node, n - 1, convert);
      if before.Steps? {
        MachineNode(child, rest, trace + before.steps, convert);
        var o := Unroll(child, convert);
        if o.Steps? {
          assert (trace + before.steps) + o.steps == trace + (before.steps + o.steps);
        }
      }
    }
  }

  lemma {:induction false} MachineCopies(body: Node, n: nat, rest: seq<Node>, trace: seq<Step>,
                                         convert: Node -> Option<string>)
    ensures var o := Unroll(body, convert);
            Execute(Copies(body, n) + rest, trace, convert)
            == if n == 0 then Execute(rest, trace, convert)
               else Continue(if o.Failed? then o else Steps(Times(o.steps, n)), rest, trace, convert)
    decreases body, Width(body) + 1, n
  {
    hide Execute, Unroll;
    if n == 0 {
      assert Copies(body, 0) + rest == rest;
    } else {
      var o := Unroll(body, convert);
      FirstCopy(body, n, rest);
      MachineNode(body, Copies(body, n - 1) + rest, trace, convert);
      if o.Steps? {
        MachineCopies(body, n - 1, rest, trace + o.steps, convert);
        FirstOfTimes(trace, o.steps, n);
      }
    }
  }

  lemma FirstCopy(body: Node, n: nat, rest: seq<Node>)
    requires n > 0
    ensures Copies(body, n) + rest == [body] + (Copies(body, n - 1) + rest)
  {
  }

  lemma FirstOfTimes(trace: seq<Step>, s: seq<Step>, n: nat)
    requires n > 0
    ensures (trace + s) + Times(s, n - 1) == trace + Times(s, n)
    ensures n == 1 ==> trace + s == trace + Times(s, 1)
  {
    TimesFront(s, n);
    assert s + [] == s;
  }

  lemma {:induction false} TimesFront(s: seq<Step>, n: nat)
    requires n > 0
    ensures Times(s, n) == s + Times(s, n - 1)
  {
    if n > 1 {
      TimesFront(s, n - 1);
      assert s + Times(s, n - 2) + s == s + (Times(s, n - 2) + s);
    }
  }

  /** The recursive unrolling, which evaluates a repeated body once and copies the result, is the
      trace of the machine, which evaluates it again every time: same steps, same first error. */
  lemma UnrollIsTrace(node: Node, convert: Node -> Option<string>)
    ensures Unroll(node, convert) == Execute([node], [], convert)
  {
    hide Unroll;
    MachineNode(node, [], [], convert);
    assert [node] + [] == [node];
    var o := Unroll(node, convert);
    if o.Steps? {
      assert [] + o.steps == o.steps;
    }
  }

  // ---- when it succeeds, and how long the result is ----

  /** Every repetition is an integer between 1 and 100 over an object, every leaf converts, and no
      node is malformed. */
  predicate WellFormed(node: Node, convert: Node -> Option<string>)
    decreases node
  {
    match node
    case Sequence(children) => forall i | 0 <= i < |children| :: WellFormed(children[i], convert)
    case Repeat(body, count) => count.Integer? && 1 <= count.n <= 100 && WellFormed(body, convert)
    case Skill(_, _) => convert(node).Some?
    case Observe(_) => true
    case _ => false
  }

  /** The leaves, each counted as often as its repetitions say. */
  function WeightedLeaves(node: Node): int
    decreases node, Width(node)
  {
    match node
    case Sequence(children) => WeightedFirst(node, |children|)
    case Repeat(body, Integer(n)) => n * WeightedLeaves(body)
    case Repeat(body, NotInteger) => 0
    case _ => 1
  }

  function WeightedFirst(node: Node, n: nat): int
    requires node.Sequence? && n <= |node.children|
    decreases node, n
  {
    if n == 0 then 0 else WeightedFirst(node, n - 1) + WeightedLeaves(node.children[n - 1])
  }

  lemma {:induction false} TimesLength(s: seq<Step>, n: nat)
    ensures |Times(s, n)| == n * |s|
  {
    if n > 0 {
      TimesLength(s, n - 1);
      assert n * |s| == (n - 1) * |s| + |s|;
    }
  }

  /** Unrolling succeeds exactly on well-formed plans, and then yields one step for every weighted
      leaf. */
  lemma {:induction false} SucceedsExactly(node: Node, convert: Node -> Option<string>)
    ensures Unroll(node, convert).Steps? <==> WellFormed(node, convert)
    ensures WellFormed(node, convert) ==> |Unroll(node, convert).steps| == WeightedLeaves(node)
    decreases node, Width(node)
  {
    match node
    case Sequence(children) => FirstSucceed(node, |children|, convert);
    case Repeat(body, count) =>
      SucceedsExactly(body, convert);
      if CountError(node).None? && Unroll(body, convert).Steps? {
        TimesLength(Unroll(body, convert).steps, count.n);
      }
    case _ =>
  }

  lemma {:induction false} FirstSucceed(node: Node, n: nat, convert: Node -> Option<string>)
    requires node.Sequence? && n <= |node.children|
    ensures UnrollFirst(node, n, convert).Steps? <==> forall i | 0 <= i < n :: WellFormed(node.children[i], convert)
    ensures UnrollFirst(node, n, convert).Steps? ==> |UnrollFirst(node, n, convert).steps| == WeightedFirst(node, n)
    decreases node, n
  {
    hide Unroll, WellFormed, WeightedLeaves;
    if n > 0 {
      FirstSucceed(node, n - 1, convert);
      SucceedsExactly(node.children[n - 1], convert);
    }
  }

  function Leaves(node: Node): nat
    decreases node, Width(node)
  {
    match node
    case Sequence(children) => LeavesFirst(node, |children|)
    case Repeat(body, _) => Leaves(body)
    case _ => 1
  }

  function LeavesFirst(node: Node, n: nat): nat
    requires node.Sequence? && n <= |node.children|
    decreases node, n
  {
    if n == 0 then 0 else LeavesFirst(node, n - 1) + Leaves(node.children[n - 1])
  }

  /** How deeply repetitions nest. */
  function RepeatDepth(node: Node): nat
    decreases node, Width(node)
  {
    match node
    case Sequence(children) => DepthFirst(node, |children|)
    case Repeat(body, _) => RepeatDepth(body) + 1
    case _ => 0
  }

  function DepthFirst(node: Node, n: nat): nat
    requires node.Sequence? && n <= |node.children|
    decreases node, n
  {
    if n == 0 then 0
    else
      var before, last := DepthFirst(node, n - 1), RepeatDepth(node.children[n - 1]);
      if last > before then last else before
  }

  function HundredTo(d: nat): nat {
    if d == 0 then 1 else 100 * HundredTo(d - 1)
  }

  lemma {:induction false} HundredMonotone(d: nat, e: nat)
    requires d <= e
    ensures 1 <= HundredTo(d) <= HundredTo(e)
  {
    if e > d {
      HundredMonotone(d, e - 1);
    } else if d > 0 {
      HundredMonotone(d - 1, d - 1);
    }
  }

  lemma ScaleBound(w: int, leaves: nat, p: nat, q: nat)
    requires w <= leaves * p && p <= q
    ensures w <= leaves * q
  {
    assert leaves * p <= leaves * q;
  }

  /** The result has at most leaves x 100^depth steps: the limit of 100 is on each repetition, not on
      the sequence. */
  lemma {:induction false} LengthBound(node: Node, convert: Node -> Option<string>)
    requires WellFormed(node, convert)
    ensures WeightedLeaves(node) <= Leaves(node) * HundredTo(RepeatDepth(node))
    decreases node, Width(node)
  {
    match node
    case Sequence(children) => FirstBound(node, |children|, convert);
    case Repeat(body, count) =>
      LengthBound(body, convert);
      RepeatBound(count.n, WeightedLeaves(body), Leaves(body), HundredTo(RepeatDepth(body)));
    case _ =>
  }

  lemma RepeatBound(n: nat, w: int, leaves: nat, p: nat)
    requires n <= 100 && w <= leaves * p
    ensures n * w <= leaves * (100 * p)
  {
    var all := leaves * p;
    assert leaves * (100 * p) == 100 * all;
    if w >= 0 {
      assert n * w <= 100 * w;
    }
  }

  lemma {:induction false} FirstBound(node: Node, n: nat, convert: Node -> Option<string>)
    requires node.Sequence? && n <= |node.children|
    requires forall i | 0 <= i < n :: WellFormed(node.children[i], convert)
    ensures WeightedFirst(node, n) <= LeavesFirst(node, n) * HundredTo(DepthFirst(node, n))
    decreases node, n
  {
    hide WellFormed, WeightedLeaves, Leaves, RepeatDepth, HundredTo;
    if n > 0 {
      var child := node.children[n - 1];
      FirstBound(node, n - 1, convert);
      LengthBound(child, convert);
      var p := HundredTo(DepthFirst(node, n));
      HundredMonotone(DepthFirst(node, n - 1), DepthFirst(node, n));
      HundredMonotone(RepeatDepth(child), DepthFirst(node, n));
      ScaleBound(WeightedFirst(node, n - 1), LeavesFirst(node, n - 1), HundredTo(DepthFirst(node, n - 1)), p);
      ScaleBound(WeightedLeaves(child), Leaves(child), HundredTo(RepeatDepth(child)), p);
      assert (LeavesFirst(node, n - 1) + Leaves(child)) * p == LeavesFirst(node, n - 1) * p + Leaves(child) * p;
    }
  }

  /** The bound is reached: repetitions nested d deep around one leaf give 100^d steps. */
  function Nested(d: nat, leaf: Node): Node {
    if d == 0 then leaf else Repeat(Nested(d - 1, leaf), Integer(100))
  }

  lemma {:induction false} NestedReachesBound(d: nat, region: string, convert: Node -> Option<string>)
    ensures var node := Nested(d, Observe(region));
            && node != NotAnObject && WellFormed(node, convert)
            && WeightedLeaves(node) == HundredTo(d) && Leaves(node) == 1 && RepeatDepth(node) == d
  {
    if d > 0 {
      NestedReachesBound(d - 1, region, convert);
    }
  }
}
