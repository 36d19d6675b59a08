/**
 * The rotating author credits. A trigger names a group; the container with the
 * same group name holds the author nodes. While the group's timer runs, every
 * tick moves the first author to the end of the container, so the authors
 * cycle. Hovering or focusing the trigger stops the timer; leaving it starts
 * the timer again, and a reduced-motion preference keeps it from ever running.
 *
 * The repeating timer is the flag `timerActive`; one timer tick is one call of
 * `Rotate`. A DOM node is a value with an identity and an author marker.
 */
module Rotation {
  import opened Wrappers

  datatype Node = Node(id: nat, author: bool)

  predicate Distinct(s: seq<Node>)
  {
    forall i, j :: 0 <= i < j < |s| ==> s[i] != s[j]
  }

  /** `container.querySelectorAll(".joint-author")`: the author children, in document order. */
  function Authors(children: seq<Node>): (a: seq<Node>)
    ensures forall x :: x in a <==> x in children && x.author
    ensures |a| <= |children|
  {
    if children == [] then []
    else (if children[0].author then [children[0]] else []) + Authors(children[1..])
  }

  /** `s` with every occurrence of `x` taken out, the rest in order. */
  function Without(s: seq<Node>, x: Node): (r: seq<Node>)
    ensures x !in r
    ensures forall y :: y != x ==> (y in r <==> y in s)
  {
    if s == [] then []
    else (if s[0] == x then [] else [s[0]]) + Without(s[1..], x)
  }

  /**
   * `container.appendChild(x)`: a node that is already somewhere is moved, so
   * it is taken out of its place and put last.
   */
  function AppendChild(children: seq<Node>, x: Node): (r: seq<Node>)
    ensures |r| >= 1 && r[|r| - 1] == x
    ensures Distinct(children) ==> Distinct(r)
    ensures x in children && Distinct(children) ==> multiset(r) == multiset(children)
    ensures x !in children ==> multiset(r) == multiset(children) + multiset{x}
  {
    AppendChildFacts(children, x);
    Without(children, x) + [x]
  }

  /** The facts `AppendChild` states, about taking `x` out and putting it last. */
  lemma AppendChildFacts(children: seq<Node>, x: Node)
    ensures var r := Without(children, x) + [x];
      && (Distinct(children) ==> Distinct(r))
      && (x in children && Distinct(children) ==> multiset(r) == multiset(children))
      && (x !in children ==> multiset(r) == multiset(children) + multiset{x})
  {
    WithoutMultiset(children, x);
    if Distinct(children) {
      WithoutDistinct(children, x);
      if x in children {
        DistinctCountsOnce(children, x);
      }
    }
  }

  /** `s` left-rotated by `k` places. */
  function RotateLeft(s: seq<Node>, k: nat): seq<Node>
    requires k <= |s|
  {
    s[k..] + s[..k]
  }

  /** `rotate` on a list: fewer than two nodes stay as they are, else the first goes last. */
  function Rotated(s: seq<Node>): (r: seq<Node>)
    ensures |r| == |s| && multiset(r) == multiset(s)
  {
    if |s| < 2 then s
    else
      assert s == [s[0]] + s[1..];
      s[1..] + [s[0]]
  }

  /** The state of one group: its working list, the container's children and its timer. */
  datatype GroupState = GroupState(nodes: seq<Node>, children: seq<Node>, timerActive: bool)

  /** The working list is the author children of the container, which holds each node once. */
  predicate InSync(g: GroupState)
  {
    Distinct(g.children) && g.nodes == Authors(g.children)
  }

  /** `rotate`: fewer than two nodes, nothing happens; else the first node goes last, in both lists. */
  function Tick(g: GroupState): (r: GroupState)
    ensures r.timerActive == g.timerActive
    ensures |g.nodes| < 2 ==> r == g
  {
    if |g.nodes| < 2 then g
    else g.(nodes := Rotated(g.nodes), children := AppendChild(g.children, g.nodes[0]))
  }

  /** `k` timer ticks in a row. */
  function Ticks(g: GroupState, k: nat): GroupState
  {
    if k == 0 then g else Tick(Ticks(g, k - 1))
  }

  /** `startRotation`: reload the working list from the container and set the timer, unless barred. */
  function Start(g: GroupState, reducedMotion: bool): (r: GroupState)
    ensures reducedMotion || g.timerActive ==> r == g
    ensures !reducedMotion ==> r.timerActive
    ensures !reducedMotion && !g.timerActive ==> r.nodes == Authors(g.children)
    ensures r.children == g.children
  {
    if reducedMotion || g.timerActive then g
    else g.(nodes := Authors(g.children), timerActive := true)
  }

  /** `stopRotation`: clear the timer; nothing else changes. */
  function Stop(g: GroupState): (r: GroupState)
    ensures !r.timerActive
    ensures r.nodes == g.nodes && r.children == g.children
  {
    g.(timerActive := false)
  }

  /**
   * The `focusout` handler: restart only when the element receiving focus is
   * not the trigger or inside it (`trigger.contains(null)` is false). Focus
   * moving within the trigger changes nothing; the timer runs afterwards exactly
   * when it ran before or focus left the trigger without a reduced-motion
   * preference; the working list is reloaded exactly when the timer starts.
   */
  function FocusOut(g: GroupState, reducedMotion: bool, related: Option<Node>, trigger: set<Node>): (r: GroupState)
    ensures related.Some? && related.value in trigger ==> r == g
    ensures r.children == g.children
    ensures r.timerActive <==> g.timerActive || (!reducedMotion && !(related.Some? && related.value in trigger))
    ensures !g.timerActive && r.timerActive ==> r.nodes == Authors(g.children)
    ensures g.timerActive || !r.timerActive ==> r.nodes == g.nodes
  {
    if related.Some? && related.value in trigger then g else Start(g, reducedMotion)
  }

  // ---------------------------------------------------------------------------
  // Lemmas

  lemma {:induction false} WithoutDistinct(s: seq<Node>, x: Node)
    requires Distinct(s)
    ensures Distinct(Without(s, x))
  {
    if s != [] {
      WithoutDistinct(s[1..], x);
      var r := Without(s, x);
      var rest := Without(s[1..], x);
      assert s[0] !in s[1..];
      assert s[0] !in rest;
    }
  }

  lemma {:induction false} AuthorsDistinct(s: seq<Node>)
    requires Distinct(s)
    ensures Distinct(Authors(s))
  {
    if s != [] {
      AuthorsDistinct(s[1..]);
      assert s[0] !in s[1..];
    }
  }

  lemma {:induction false} WithoutMultiset(s: seq<Node>, x: Node)
    ensures multiset(Without(s, x)) == multiset(s)[x := 0]
  {
    if s != [] {
      WithoutMultiset(s[1..], x);
      assert s == [s[0]] + s[1..];
    }
  }

  lemma {:induction false} DistinctCountsOnce(s: seq<Node>, x: Node)
    requires Distinct(s) && x in s
    ensures multiset(s)[x] == 1
  {
    var i :| 0 <= i < |s| && s[i] == x;
    assert s == s[..i] + [x] + s[i + 1..];
    assert x !in s[..i] && x !in s[i + 1..];
  }

  lemma {:induction false} AuthorsConcat(a: seq<Node>, b: seq<Node>)
    ensures Authors(a + b) == Authors(a) + Authors(b)
  {
    if a != [] {
      var head := if a[0].author then [a[0]] else [];
      assert (a + b)[0] == a[0];
      assert (a + b)[1..] == a[1..] + b;
      AuthorsConcat(a[1..], b);
      calc {
        Authors(a + b);
        head + Authors(a[1..] + b);
        head + (Authors(a[1..]) + Authors(b));
        (head + Authors(a[1..])) + Authors(b);
        Authors(a) + Authors(b);
      }
    } else {
      assert a + b == b;
    }
  }

  lemma {:induction false} AuthorsWithout(s: seq<Node>, x: Node)
    ensures Authors(Without(s, x)) == Without(Authors(s), x)
  {
    if s != [] {
      AuthorsWithout(s[1..], x);
      var head := if s[0] == x then [] else [s[0]];
      AuthorsConcat(head, Without(s[1..], x));
      var ahead := if s[0].author then [s[0]] else [];
      assert Authors(s) == ahead + Authors(s[1..]);
      WithoutConcat(ahead, Authors(s[1..]), x);
    }
  }

  lemma {:induction false} WithoutConcat(a: seq<Node>, b: seq<Node>, x: Node)
    ensures Without(a + b, x) == Without(a, x) + Without(b, x)
  {
    if a != [] {
      var head := if a[0] == x then [] else [a[0]];
      assert (a + b)[0] == a[0];
      assert (a + b)[1..] == a[1..] + b;
      WithoutConcat(a[1..], b, x);
      calc {
        Without(a + b, x);
        head + Without(a[1..] + b, x);
        head + (Without(a[1..], x) + Without(b, x));
        (head + Without(a[1..], x)) + Without(b, x);
        Without(a, x) + Without(b, x);
      }
    } else {
      assert a + b == b;
    }
  }

  /**
   * `appendChild` keeps the order of the other children: a new node is added at
   * the end, and a node already at position `i` of a container without repeats
   * is moved from there to the end.
   */
  lemma AppendChildOrder(children: seq<Node>, x: Node)
    ensures x !in children ==> AppendChild(children, x) == children + [x]
    ensures forall i :: 0 <= i < |children| && children[i] == x && Distinct(children) ==>
      AppendChild(children, x) == children[..i] + children[i + 1..] + [x]
  {
    if x !in children {
      WithoutAbsent(children, x);
    }
    forall i | 0 <= i < |children| && children[i] == x && Distinct(children)
      ensures AppendChild(children, x) == children[..i] + children[i + 1..] + [x]
    {
      WithoutAt(children, i);
    }
  }

  /** In a sequence without repeats, taking out the element at `i` leaves the rest in order. */
  lemma {:induction false} WithoutAt(s: seq<Node>, i: nat)
    requires Distinct(s) && i < |s|
    ensures Without(s, s[i]) == s[..i] + s[i + 1..]
  {
    if i == 0 {
      WithoutFirst(s);
    } else {
      var x := s[i];
      assert s[0] != x;
      assert Without(s, x) == [s[0]] + Without(s[1..], x);
      assert Distinct(s[1..]) && s[1..][i - 1] == x;
      WithoutAt(s[1..], i - 1);
      assert s[..i] == [s[0]] + s[1..][..i - 1];
      assert s[i + 1..] == s[1..][i..];
    }
  }

  lemma WithoutFirst(s: seq<Node>)
    requires Distinct(s) && s != []
    ensures Without(s, s[0]) == s[1..]
  {
    assert s[0] !in s[1..];
    WithoutAbsent(s[1..], s[0]);
  }

  lemma {:induction false} WithoutAbsent(s: seq<Node>, x: Node)
    requires x !in s
    ensures Without(s, x) == s
  {
    if s != [] {
      WithoutAbsent(s[1..], x);
    }
  }

  /** A rotation keeps the working list equal to the container's author children. */
  lemma {:induction false} TickKeepsSync(g: GroupState)
    requires InSync(g)
    ensures InSync(Tick(g))
  {
    if |g.nodes| >= 2 {
      TickChildrenSync(g.children);
      assert Tick(g).nodes == g.nodes[1..] + [g.nodes[0]];
    }
  }

  /** Moving the first author child last keeps the children distinct and rotates their authors by one. */
  lemma TickChildrenSync(children: seq<Node>)
    requires Distinct(children) && |Authors(children)| >= 1
    ensures var first := Authors(children)[0];
      var c := AppendChild(children, first);
      Distinct(c) && Authors(c) == Authors(children)[1..] + [first]
  {
    var nodes := Authors(children);
    var first := nodes[0];
    var c := Without(children, first);
    assert first in children;
    AuthorsConcat(c, [first]);
    assert Authors([first]) == [first];
    AuthorsWithout(children, first);
    AuthorsDistinct(children);
    WithoutFirst(nodes);
    assert Authors(c + [first]) == nodes[1..] + [first];
  }

  lemma {:induction false} RotatedStep(s: seq<Node>, j: nat)
    requires 2 <= |s| && j < |s|
    ensures Rotated(RotateLeft(s, j)) == RotateLeft(s, if j + 1 == |s| then 0 else j + 1)
  {
    var r := RotateLeft(s, j);
    assert r[0] == s[j];
    if j + 1 < |s| {
      assert r[1..] == s[j + 1..] + s[..j];
      assert s[..j] + [s[j]] == s[..j + 1];
    } else {
      assert r[1..] == s[..j];
      assert s[..j] + [s[j]] == s;
    }
  }

  lemma ModUnique(k: nat, n: nat, q: int, r: int)
    requires n >= 1 && 0 <= r < n && k == q * n + r
    ensures k % n == r
  {
    var d := q - k / n;
    assert d * n == k % n - r;
    if d != 0 {
      MulAwayFromZero(d, n);
    }
  }

  lemma MulAwayFromZero(d: int, n: int)
    requires d != 0 && n >= 1
    ensures d * n >= n || d * n <= -n
  {
    if d > 0 {
      assert d * n == (d - 1) * n + n;
      NonNegativeProduct(d - 1, n);
    } else {
      assert d * n == -((-d - 1) * n) - n;
      NonNegativeProduct(-d - 1, n);
    }
  }

  lemma NonNegativeProduct(a: nat, b: nat)
    ensures a * b >= 0
  {
  }

  /** Counting one more tick advances the remainder by one, wrapping at `n`. */
  lemma ModStep(k: nat, n: nat)
    requires k >= 1 && n >= 1
    ensures (if (k - 1) % n + 1 == n then 0 else (k - 1) % n + 1) == k % n
  {
    var q, r := (k - 1) / n, (k - 1) % n;
    assert k - 1 == q * n + r;
    if r + 1 == n {
      assert k == (q + 1) * n + 0;
      ModUnique(k, n, q + 1, 0);
    } else {
      ModUnique(k, n, q, r + 1);
    }
  }

  /** Ticks keep the working list in sync with the container and leave the timer alone. */
  lemma {:induction false} TicksKeepSync(g: GroupState, k: nat)
    requires InSync(g)
    ensures InSync(Ticks(g, k)) && Ticks(g, k).timerActive == g.timerActive
  {
    if k > 0 {
      TicksKeepSync(g, k - 1);
      TickKeepsSync(Ticks(g, k - 1));
    }
  }

  /** With two nodes or more, a tick moves the first node to the end of the working list and of the container. */
  lemma TickMovesFirstLast(g: GroupState)
    requires |g.nodes| >= 2
    ensures Tick(g).nodes == g.nodes[1..] + [g.nodes[0]]
    ensures |Tick(g).children| >= 1 && Tick(g).children[|Tick(g).children| - 1] == g.nodes[0]
  {
  }

  /** Ticks only reorder the working list: it keeps the same nodes, each as often. */
  lemma {:induction false} TicksKeepNodes(g: GroupState, k: nat)
    ensures multiset(Ticks(g, k).nodes) == multiset(g.nodes)
    decreases k, 1
  {
    if k > 0 {
      TicksKeepNodesStep(g, k);
    }
  }

  /** The multiset after `k - 1` ticks carries over to one tick more. */
  lemma TicksKeepNodesStep(g: GroupState, k: nat)
    requires k >= 1
    ensures multiset(Ticks(g, k).nodes) == multiset(g.nodes)
    decreases k, 0
  {
    TicksKeepNodes(g, k - 1);
    TickKeepsNodes(Ticks(g, k - 1));
  }

  lemma TickKeepsNodes(g: GroupState)
    ensures multiset(Tick(g).nodes) == multiset(g.nodes)
  {
  }

  /** The working list after `k` ticks is the start list left-rotated by `k mod n`. */
  lemma {:induction false} TicksRotateNodes(g: GroupState, k: nat)
    requires |g.nodes| >= 2
    ensures Ticks(g, k).nodes == RotateLeft(g.nodes, k % |g.nodes|)
    decreases k, 1
  {
    if k == 0 {
      TicksRotateBase(g);
    } else {
      TicksRotateStep(g, k);
    }
  }

  lemma TicksRotateBase(g: GroupState)
    requires |g.nodes| >= 2
    ensures Ticks(g, 0).nodes == RotateLeft(g.nodes, 0 % |g.nodes|)
  {
    assert Ticks(g, 0) == g;
    assert RotateLeft(g.nodes, 0) == g.nodes;
  }

  /** One tick after `k - 1` advances the rotation of the working list by one, wrapping at its length. */
  lemma TicksRotateStep(g: GroupState, k: nat)
    requires |g.nodes| >= 2 && k >= 1
    ensures Ticks(g, k).nodes == RotateLeft(g.nodes, k % |g.nodes|)
    decreases k, 0
  {
    var n := |g.nodes|;
    var j := (k - 1) % n;
    TicksRotateNodes(g, k - 1);
    assert Ticks(g, k) == Tick(Ticks(g, k - 1));
    RotatedStep(g.nodes, j);
    ModStep(k, n);
  }

  /**
   * After `k` ticks from an in-sync group of `n >= 2` authors, the working list
   * and the container's author order are both the start order left-rotated by
   * `k mod n`, and the timer is as it was.
   */
  lemma TicksRotate(g: GroupState, k: nat)
    requires InSync(g) && |g.nodes| >= 2
    ensures InSync(Ticks(g, k))
    ensures Ticks(g, k).nodes == RotateLeft(g.nodes, k % |g.nodes|)
    ensures Authors(Ticks(g, k).children) == RotateLeft(g.nodes, k % |g.nodes|)
    ensures Ticks(g, k).timerActive == g.timerActive
  {
    TicksKeepSync(g, k);
    TicksRotateNodes(g, k);
  }

  lemma OneTickOfThree(a: Node, b: Node, c: Node, timer: bool)
    requires a != b && b != c && a != c
    ensures Tick(GroupState([a, b, c], [a, b, c], timer)) == GroupState([b, c, a], [b, c, a], timer)
  {
    assert [a, b, c][1..] == [b, c] && [b, c][1..] == [c] && [c][1..] == [];
    assert Without([c], a) == [c];
    assert Without([b, c], a) == [b, c];
    assert AppendChild([a, b, c], a) == [b, c, a];
    assert Rotated([a, b, c]) == [b, c, a];
  }

  /** The worked example: authors X, Y, Z show as Y, Z, X after one tick and as X, Y, Z after three. */
  lemma ThreeAuthorExample(x: Node, y: Node, z: Node)
    requires x != y && y != z && x != z
    ensures Ticks(GroupState([x, y, z], [x, y, z], true), 1).children == [y, z, x]
    ensures Ticks(GroupState([x, y, z], [x, y, z], true), 3).children == [x, y, z]
  {
    var g := GroupState([x, y, z], [x, y, z], true);
    OneTickOfThree(x, y, z, true);
    OneTickOfThree(y, z, x, true);
    OneTickOfThree(z, x, y, true);
    assert Ticks(g, 1) == GroupState([y, z, x], [y, z, x], true);
    assert Ticks(g, 2) == GroupState([z, x, y], [z, x, y], true);
  }

  /** Stopping twice is stopping once. */
  lemma StopIdempotent(g: GroupState)
    ensures Stop(Stop(g)) == Stop(g)
  {
  }

  /** Under a reduced-motion preference no transition ever sets the timer. */
  lemma ReducedMotionNeverRuns(g: GroupState, related: Option<Node>, trigger: set<Node>)
    requires !g.timerActive
    ensures !Start(g, true).timerActive && !Tick(g).timerActive && !Stop(g).timerActive
    ensures !FocusOut(g, true, related, trigger).timerActive
  {
  }

  // ---------------------------------------------------------------------------
  // The group object and the registry of groups

  class RotationGroup {
    const reducedMotion: bool
    const originalOrder: seq<Node>
    var nodes: seq<Node>
    var children: seq<Node>
    var timerActive: bool

    function State(): GroupState
      reads this
    {
      GroupState(nodes, children, timerActive)
    }

    /** The container holds each node once, and a reduced-motion preference keeps the timer off. */
    ghost predicate Valid()
      reads this
    {
      Distinct(children) && (reducedMotion ==> !timerActive)
    }

    /** Group creation with at least two authors, followed by the first `startRotation`. */
    constructor (container: seq<Node>, reducedMotion: bool)
      requires Distinct(container) && |Authors(container)| >= 2
      ensures Valid()
      ensures this.reducedMotion == reducedMotion
      ensures originalOrder == Authors(container)
      ensures State() == Start(GroupState(Authors(container), container, false), reducedMotion)
      ensures InSync(State()) && timerActive == !reducedMotion
    {
      this.reducedMotion := reducedMotion;
      originalOrder := Authors(container);
      nodes := Authors(container);
      children := container;
      timerActive := false;
      new;
      StartRotation();
    }

    /** One timer tick: `rotate`, which only the running interval calls. */
    method Rotate()
      requires Valid() && timerActive
      modifies this
      ensures Valid()
      ensures State() == Tick(old(State()))
    {
      if |nodes| < 2 {
        return;
      }
      var first := nodes[0];
      nodes := nodes[1..];
      children := AppendChild(children, first);
      nodes := nodes + [first];
    }

    method StartRotation()
      requires Valid()
      modifies this
      ensures Valid()
      ensures State() == Start(old(State()), reducedMotion)
    {
      if reducedMotion {
        return;
      }
      if timerActive {
        return;
      }
      nodes := Authors(children);
      timerActive := true;
    }

    method StopRotation()
      requires Valid()
      modifies this
      ensures Valid()
      ensures State() == Stop(old(State()))
    {
      if timerActive {
        timerActive := false;
      }
    }

    /** `mouseenter` and `focusin` on the trigger. */
    method PointerOrFocusEnter()
      requires Valid()
      modifies this
      ensures Valid()
      ensures State() == Stop(old(State()))
    {
      StopRotation();
    }

    /** `mouseleave` on the trigger. */
    method PointerLeave()
      requires Valid()
      modifies this
      ensures Valid()
      ensures State() == Start(old(State()), reducedMotion)
    {
      StartRotation();
    }

    /** `focusout` on the trigger, with the newly focused element and the trigger's subtree. */
    method FocusLeave(related: Option<Node>, trigger: set<Node>)
      requires Valid()
      modifies this
      ensures Valid()
      ensures State() == FocusOut(old(State()), reducedMotion, related, trigger)
    {
      if !(related.Some? && related.value in trigger) {
        StartRotation();
      }
    }
  }

  /** The rule for creating a group: a container exists and holds at least two authors. */
  predicate Registrable(container: Option<seq<Node>>)
  {
    container.Some? && |Authors(container.value)| >= 2
  }

  /** The names of the triggers whose container exists and holds at least two authors. */
  function Created(triggers: seq<string>, containers: map<string, seq<Node>>): (r: set<string>)
    ensures forall name :: name in r <==> name in triggers && Registrable(if name in containers then Some(containers[name]) else None)
  {
    set name | name in triggers && name in containers && |Authors(containers[name])| >= 2
  }

  class RotationRegistry {
    const reducedMotion: bool
    var groups: map<string, RotationGroup>

    /** The group under `name` was created by the scan, started from the children of its container. */
    ghost predicate StartedFrom(name: string, containers: map<string, seq<Node>>)
      requires name in groups && name in containers
      reads this, groups[name]
    {
      var g := groups[name];
      var c := containers[name];
      && g.Valid()
      && g.reducedMotion == reducedMotion
      && g.originalOrder == Authors(c)
      && g.State() == GroupState(Authors(c), c, !reducedMotion)
    }

    constructor (reducedMotion: bool)
      ensures this.reducedMotion == reducedMotion && groups == map[]
    {
      this.reducedMotion := reducedMotion;
      groups := map[];
    }

    /**
     * One trigger of the page scan: `container` is the element the group name
     * selects, if any. A group is created (and started) only when it has at
     * least two authors; otherwise nothing changes.
     */
    method Register(groupName: string, container: Option<seq<Node>>) returns (registered: bool)
      requires container.Some? ==> Distinct(container.value)
      modifies this
      ensures registered <==> Registrable(container)
      ensures !registered ==> groups == old(groups)
      ensures registered ==>
        && groups.Keys == old(groups.Keys) + {groupName}
        && (forall name :: name in old(groups) && name != groupName ==> groups[name] == old(groups[name]))
        && fresh(groups[groupName])
        && groups[groupName].Valid()
        && groups[groupName].reducedMotion == reducedMotion
        && groups[groupName].originalOrder == Authors(container.value)
        && groups[groupName].State() == GroupState(Authors(container.value), container.value, !reducedMotion)
    {
      if container.None? {
        return false;
      }
      var authors := Authors(container.value);
      if |authors| < 2 {
        return false;
      }
      var g := new RotationGroup(container.value, reducedMotion);
      groups := groups[groupName := g];
      registered := true;
    }

    /**
     * The scan over all triggers, in document order; `containers` maps a group
     * name to the children of the first container that carries it.
     */
    method Scan(triggers: seq<string>, containers: map<string, seq<Node>>)
      requires forall name :: name in containers ==> Distinct(containers[name])
      modifies this
      ensures groups.Keys == old(groups.Keys) + Created(triggers, containers)
      ensures forall name :: name in old(groups) && name !in Created(triggers, containers) ==> groups[name] == old(groups[name])
      ensures forall name :: name in Created(triggers, containers) ==> fresh(groups[name]) && StartedFrom(name, containers)
    {
      var i := 0;
      while i < |triggers|
        invariant 0 <= i <= |triggers|
        invariant groups.Keys == old(groups.Keys) + Created(triggers[..i], containers)
        invariant forall name :: name in old(groups) && name !in Created(triggers[..i], containers) ==> groups[name] == old(groups[name])
        invariant forall name :: name in Created(triggers[..i], containers) ==> fresh(groups[name]) && StartedFrom(name, containers)
      {
        var name := triggers[i];
        var container := if name in containers then Some(containers[name]) else None;
        var _ := Register(name, container);
        assert triggers[..i + 1] == triggers[..i] + [name];
        i := i + 1;
      }
      assert triggers[..i] == triggers;
    }
  }
}
