/** The child-process tracker: which processes belong to a child's tree, over any
    sequence of process tables, when process ids may be recycled. */
module ProcessTracker {
  import opened Common

  type Pid = int

  /** The kernel identity tells a process apart from a later one with its pid. */
  datatype Record = Record(parent: Pid, group: Pid, identity: string, zombie: bool)

  type Table = map<Pid, Record>

  type Tracked = map<Pid, string>

  /** In the table under the identity it is tracked by. */
  predicate Survives(tracked: Tracked, table: Table, p: Pid) {
    p in tracked && p in table && table[p].identity == tracked[p]
  }

  /** Tracked under another identity: the pid was recycled. */
  predicate Recycled(tracked: Tracked, table: Table, p: Pid) {
    p in tracked && p in table && table[p].identity != tracked[p]
  }

  function Survivors(tracked: Tracked, table: Table): set<Pid> {
    set p | p in tracked && Survives(tracked, table, p)
  }

  /** Closed under parenthood, recycled pids aside. */
  ghost predicate Closed(tracked: Tracked, table: Table, s: set<Pid>) {
    forall p :: p in table && table[p].parent in s && !Recycled(tracked, table, p) ==> p in s
  }

  /** The least set that contains the survivors and is closed under parenthood,
      excluding recycled pids. */
  ghost predicate IsTree(tracked: Tracked, table: Table, s: set<Pid>) {
    && Survivors(tracked, table) <= s
    && Closed(tracked, table, s)
    && forall other: set<Pid> :: Survivors(tracked, table) <= other && Closed(tracked, table, other) ==> s <= other
  }

  /** Who belongs to the tree, process by process: one that is in the table, is not
      tracked under another identity, and is tracked or a child of the tree. */
  lemma TreeMembers(tracked: Tracked, table: Table, tree: set<Pid>, p: Pid)
    requires IsTree(tracked, table, tree)
    ensures p in tree <==>
              && p in table && (p in tracked ==> table[p].identity == tracked[p])
              && (p in tracked || table[p].parent in tree)
  {
    if p in tree {
      RecycledStaysOut(tracked, table, tree, p);
      var other := tree - {p};
      if !(p in table && (p in tracked || table[p].parent in tree)) {
        assert Survivors(tracked, table) <= other;
        assert Closed(tracked, table, other);
      }
    }
  }

  lemma TreeIsUnique(tracked: Tracked, table: Table, a: set<Pid>, b: set<Pid>)
    requires IsTree(tracked, table, a) && IsTree(tracked, table, b)
    ensures a == b
  {
    assert a <= b && b <= a;
  }

  /** `setdefault` for every pid of `s`: pids already tracked keep their identity. */
  function Track(tracked: Tracked, table: Table, s: set<Pid>): Tracked {
    map p | p in tracked.Keys + (table.Keys * s) :: if p in tracked then tracked[p] else table[p].identity
  }

  lemma TrackTwice(tracked: Tracked, table: Table, a: set<Pid>, b: set<Pid>)
    ensures Track(Track(tracked, table, a), table, b) == Track(tracked, table, a + b)
  {
  }

  lemma TrackSurvivors(tracked: Tracked, table: Table)
    ensures Track(tracked, table, Survivors(tracked, table)) == tracked
  {
  }

  function GroupMembers(table: Table, group: Option<Pid>): set<Pid> {
    if group.None? then {} else set p | p in table && table[p].group == group.value
  }

  lemma GroupHasMembers(table: Table, group: Pid)
    ensures GroupMembers(table, Some(group)) != {} <==> exists p :: p in table && table[p].group == group
  {
    var members := GroupMembers(table, Some(group));
    if p :| p in table && table[p].group == group {
      assert p in members;
    } else {
      assert forall p :: p !in members;
    }
  }

  /** What is tracked after a capture: the tree and, while the root group is open,
      its members. */
  function AfterCapture(tracked: Tracked, table: Table, tree: set<Pid>, group: Option<Pid>): Tracked {
    Track(tracked, table, tree + GroupMembers(table, group))
  }

  /** Process by process: what was tracked stays as it was, and every new process of
      the tree or the open root group is tracked under the table's identity. */
  ghost predicate Tracks(before: Tracked, table: Table, tree: set<Pid>, group: Option<Pid>, after: Tracked) {
    forall p ::
      && (p in after <==> p in before || (p in table && (p in tree || group == Some(table[p].group))))
      && (p in before ==> p in after && after[p] == before[p])
      && (p in after && p !in before ==> after[p] == table[p].identity)
  }

  lemma CaptureTracks(before: Tracked, table: Table, tree: set<Pid>, group: Option<Pid>)
    ensures Tracks(before, table, tree, group, AfterCapture(before, table, tree, group))
  { }

  /** The sweep's invariant: `matching` lies between the survivors and the tree,
      and all but the children of `parents` have been taken in. */
  ghost predicate Sweeping(tracked: Tracked, table: Table, matching: set<Pid>, parents: set<Pid>) {
    && parents <= matching <= table.Keys
    && Survivors(tracked, table) <= matching
    && (forall p :: p in matching ==> !Recycled(tracked, table, p))
    && (forall p :: p in table && table[p].parent in matching - parents && !Recycled(tracked, table, p) ==>
          p in matching)
    && (forall other: set<Pid> :: Survivors(tracked, table) <= other && Closed(tracked, table, other) ==>
          matching <= other)
  }

  function ChildrenOf(tracked: Tracked, table: Table, parents: set<Pid>): set<Pid> {
    set p | p in table && table[p].parent in parents && !Recycled(tracked, table, p)
  }

  lemma SweepOnce(tracked: Tracked, table: Table, matching: set<Pid>, parents: set<Pid>)
    requires Sweeping(tracked, table, matching, parents)
    ensures var children := ChildrenOf(tracked, table, parents);
            Sweeping(tracked, table, matching + children, children - matching)
  {
    var children := ChildrenOf(tracked, table, parents);
    forall other: set<Pid> | Survivors(tracked, table) <= other && Closed(tracked, table, other)
      ensures matching + children <= other
    {
      assert matching <= other;
    }
  }

  /** Either more of the table matches, or nothing is left to visit. */
  lemma Shrinks(all: set<Pid>, matching: set<Pid>, children: set<Pid>, parents: set<Pid>)
    requires matching <= all && children <= all && parents != {}
    ensures |all - (matching + children)| < |all - matching|
            || (|all - (matching + children)| == |all - matching| && |children - matching| < |parents|)
  {
    var added := children - matching;
    assert all - (matching + children) == (all - matching) - added;
    if added == {} {
      assert (all - matching) - added == all - matching;
      assert |parents| > 0;
    } else {
      assert added <= all - matching;
    }
  }

  lemma SweepStart(tracked: Tracked, table: Table)
    ensures Sweeping(tracked, table, Survivors(tracked, table), Survivors(tracked, table))
  {
  }

  lemma SweepDone(tracked: Tracked, table: Table, matching: set<Pid>)
    requires Sweeping(tracked, table, matching, {})
    ensures IsTree(tracked, table, matching)
  {
    assert matching - {} == matching;
  }

  /** The pids the code recognises as children are those not recycled since the
      capture began: newly tracked ones were tracked from this very table. */
  lemma SameChildren(before: Tracked, table: Table, matching: set<Pid>, p: Pid)
    requires p in table
    ensures var now := Track(before, table, matching);
            (p !in now || now[p] == table[p].identity) <==> !Recycled(before, table, p)
  {
  }

  class ChildProcessTracker {
    var tracked: Tracked
    const rootGroup: Pid
    var rootGroupOpen: bool

    /** Starts from a table in which the root leads its own process group, and
        captures that table at once. */
    constructor (root: Pid, table: Table)
      requires root in table && table[root].group == root
      ensures rootGroup == root
      ensures exists tree :: IsTree(map[root := table[root].identity], table, tree)
                && tracked == AfterCapture(map[root := table[root].identity], table, tree, Some(root))
    {
      tracked := map[root := table[root].identity];
      rootGroup := root;
      rootGroupOpen := true;
      new;
      var tree := Capture(table);
    }

    /** What the tracker's construction accepts: a root that leads a process group
        other than the runner's own; anything else is a cleanup failure. */
    static method Start(root: Pid, ownGroup: Pid, table: Table) returns (tracker: ChildProcessTracker?)
      ensures tracker != null <==> root in table && table[root].group == root && root != ownGroup
      ensures tracker != null ==> fresh(tracker) && tracker.rootGroup == root
      ensures tracker != null ==>
                root in tracker.tracked && tracker.tracked[root] == table[root].identity
    {
      if root !in table || table[root].group != root || table[root].group == ownGroup { return null; }
      tracker := new ChildProcessTracker(root, table);
    }

    /** `capture`: the sweep, then the members of the root's process group while
        it is open.  It terminates on every table, and its matching set is the
        tree. */
    method Capture(table: Table) returns (matching: set<Pid>)
      modifies this
      ensures IsTree(old(tracked), table, matching)
      ensures tracked == AfterCapture(old(tracked), table, matching,
                                      if old(rootGroupOpen) then Some(rootGroup) else None)
      ensures Tracks(old(tracked), table, matching, if old(rootGroupOpen) then Some(rootGroup) else None, tracked)
      ensures rootGroupOpen <==> old(rootGroupOpen) && exists p :: p in table && table[p].group == rootGroup
    {
      hide IsTree, Track, Tracks;
      ghost var before := tracked;
      matching := Sweep(table);
      CaptureTracks(before, table, matching, if rootGroupOpen then Some(rootGroup) else None);
      if rootGroupOpen {
        var members := GroupMembers(table, Some(rootGroup));
        GroupHasMembers(table, rootGroup);
        TrackTwice(before, table, matching, members);
        if members != {} {
          tracked := Track(tracked, table, members);
        } else {
          rootGroupOpen := false;
          assert matching + members == matching;
        }
      } else {
        assert matching + GroupMembers(table, None) == matching;
      }
    }

    /** Breadth first over one process table. */
    method Sweep(table: Table) returns (matching: set<Pid>)
      modifies this`tracked
      ensures IsTree(old(tracked), table, matching)
      ensures tracked == Track(old(tracked), table, matching)
    {
      hide Sweeping, IsTree, Track;
      ghost var before := tracked;
      matching := Survivors(tracked, table);
      var parents := matching;
      TrackSurvivors(tracked, table);
      SweepStart(tracked, table);
      while parents != {}
        invariant Sweeping(before, table, matching, parents)
        invariant matching <= table.Keys
        invariant tracked == Track(before, table, matching)
        decreases |table.Keys - matching|, |parents|
      {
        var children := set p | p in table && table[p].parent in parents
                                       && (p !in tracked || tracked[p] == table[p].identity);
        assert children == ChildrenOf(before, table, parents) by {
          forall p | p in table { SameChildren(before, table, matching, p); }
        }
        SweepOnce(before, table, matching, parents);
        TrackTwice(before, table, matching, children);
        Shrinks(table.Keys, matching, children, parents);
        tracked := Track(tracked, table, children);
        parents := children - matching;
        matching := matching + children;
      }
      SweepDone(before, table, matching);
    }

    /** `_wait_for_child_tree` over the observations it makes: whether the root was
        reaped, and the table; it gives up when they run out.  It stops at the
        first observation at which the root is reaped and no live tracked identity
        remains, and reports success exactly then.  `history` is what was tracked
        before and after each capture. */
    method WaitForChildTree(observations: seq<(bool, Table)>)
      returns (done: bool, seen: nat, ghost history: seq<Tracked>)
      modifies this
      ensures seen <= |observations| && |history| == seen + 1
      ensures history[0] == old(tracked) && history[seen] == tracked
      ensures Captures(history, TablesOf(observations[..seen]))
      ensures if done then seen > 0 && Quiet(observations[seen - 1], history[seen]) else seen == |observations|
      ensures forall i :: 0 < i <= seen && (i < seen || !done) ==> !Quiet(observations[i - 1], history[i])
    {
      hide Captures, Quiet, IsTree, AfterCapture, TablesOf;
      seen, done, history := 0, false, [tracked];
      CapturesNothing(tracked, observations);
      while seen < |observations| && !done
        invariant seen <= |observations| && |history| == seen + 1
        invariant history[0] == old(tracked) && history[seen] == tracked
        invariant Captures(history, TablesOf(observations[..seen]))
        invariant forall i :: 0 < i <= seen && (i < seen || !done) ==> !Quiet(observations[i - 1], history[i])
        invariant done ==> seen > 0 && Quiet(observations[seen - 1], history[seen])
        decreases |observations| - seen, if done then 0 else 1
      {
        var table := observations[seen].1;
        ghost var before, group := tracked, if rootGroupOpen then Some(rootGroup) else None;
        var tree := Capture(table);
        CapturesOneMore(history, observations, seen, tree, group, tracked);
        history := history + [tracked];
        QuietExactly(observations[seen], tracked);
        done := observations[seen].0 && Live(tracked, table) == {};
        seen := seen + 1;
      }
    }
  }

  /** `live_identities`: tracked processes that are still there and not zombies. */
  function Live(tracked: Tracked, table: Table): set<(Pid, string)> {
    set p | p in tracked && Survives(tracked, table, p) && !table[p].zombie :: (p, tracked[p])
  }

  /** The root is reaped, and no tracked process is still there under its identity,
      zombies aside. */
  ghost predicate Quiet(observation: (bool, Table), tracked: Tracked) {
    && observation.0
    && forall p :: p in tracked && p in observation.1 && observation.1[p].identity == tracked[p] ==>
         observation.1[p].zombie
  }

  lemma QuietExactly(observation: (bool, Table), tracked: Tracked)
    ensures Quiet(observation, tracked) <==> observation.0 && Live(tracked, observation.1) == {}
  {
    var live := Live(tracked, observation.1);
    forall p | p in tracked && p in observation.1 && observation.1[p].identity == tracked[p] && !observation.1[p].zombie
      ensures (p, tracked[p]) in live
    { }
    if x :| x in live { assert x.0 in tracked; }
  }

  function TablesOf(observations: seq<(bool, Table)>): (ts: seq<Table>)
    ensures |ts| == |observations|
  {
    seq(|observations|, i requires 0 <= i < |observations| => observations[i].1)
  }

  // ------------------------------------------------------ over many captures

  /** One capture, as a relation on what is tracked. */
  ghost predicate Captured(before: Tracked, table: Table, after: Tracked) {
    exists tree, group :: IsTree(before, table, tree) && after == AfterCapture(before, table, tree, group)
  }

  ghost predicate Captures(history: seq<Tracked>, tables: seq<Table>) {
    && |history| == |tables| + 1
    && forall i :: 0 <= i < |tables| ==> Captured(history[i], tables[i], history[i + 1])
  }

  lemma CapturesNothing(tracked: Tracked, observations: seq<(bool, Table)>)
    ensures Captures([tracked], TablesOf(observations[..0]))
  { }

  lemma CapturesOneMore(
    history: seq<Tracked>, observations: seq<(bool, Table)>, n: nat, tree: set<Pid>, group: Option<Pid>, after: Tracked)
    requires n < |observations| && Captures(history, TablesOf(observations[..n])) && |history| == n + 1
    requires IsTree(history[n], observations[n].1, tree)
    requires after == AfterCapture(history[n], observations[n].1, tree, group)
    ensures Captures(history + [after], TablesOf(observations[..n + 1]))
  {
    assert Captured(history[n], observations[n].1, after);
    hide Captured, IsTree, AfterCapture;
    var ts, more := TablesOf(observations[..n]), TablesOf(observations[..n + 1]);
    assert more == ts + [observations[n].1];
    forall i | 0 <= i < n ensures Captured((history + [after])[i], more[i], (history + [after])[i + 1]) {
      assert Captured(history[i], ts[i], history[i + 1]);
    }
  }

  /** Whatever tables are seen, a tracked pid keeps its identity. */
  lemma {:induction false} IdentityNeverChanges(history: seq<Tracked>, tables: seq<Table>, i: nat, j: nat, p: Pid)
    requires Captures(history, tables) && i <= j < |history| && p in history[i]
    ensures p in history[j] && history[j][p] == history[i][p]
    decreases j - i
  {
    hide IsTree;
    if i < j {
      IdentityNeverChanges(history, tables, i, j - 1, p);
      assert Captured(history[j - 1], tables[j - 1], history[j - 1 + 1]);
    }
  }

  /** A pid tracked under another identity than the table's is not in the tree. */
  lemma RecycledStaysOut(tracked: Tracked, table: Table, tree: set<Pid>, p: Pid)
    requires IsTree(tracked, table, tree)
    ensures p in tracked && p in table && table[p].identity != tracked[p] ==> p !in tree
  {
    if Recycled(tracked, table, p) {
      var other := tree - {p};
      assert Survivors(tracked, table) <= other;
      assert Closed(tracked, table, other);
    }
  }
}
