/** Summing the resource use of a process and everything below it, as the job monitor does. */
module ProcessTree {
  import opened Options

  datatype Proc = Proc(ppid: nat, usage: Usage)

  datatype Usage = Usage(rss: real, cpuSecs: real, cpuPct: real) {
    function Plus(u: Usage): Usage {
      Usage(rss + u.rss, cpuSecs + u.cpuSecs, cpuPct + u.cpuPct)
    }
  }

  const NO_USAGE := Usage(0.0, 0.0, 0.0)

  /** The process table, by pid. */
  type Procs = map<nat, Proc>

  function Kids(children: map<nat, seq<nat>>, pid: nat): seq<nat> {
    if pid in children then children[pid] else []
  }

  ghost predicate Distinct(s: seq<nat>) {
    forall i, j :: 0 <= i < j < |s| ==> s[i] != s[j]
  }

  /** The children of each pid are the processes of the set `of` that name it as their parent, once each. */
  ghost predicate IsChildren(children: map<nat, seq<nat>>, procs: Procs, of: set<nat>) {
    && (forall pid :: Distinct(Kids(children, pid)))
    && forall pid, k :: k in Kids(children, pid) <==> k in of && k in procs && procs[k].ppid == pid
  }

  /** The monitor's loop over the process table. */
  method ChildrenOf(procs: Procs) returns (children: map<nat, seq<nat>>)
    ensures IsChildren(children, procs, procs.Keys)
  {
    children := map[];
    var rest := procs.Keys;
    while rest != {}
      invariant rest <= procs.Keys && IsChildren(children, procs, procs.Keys - rest)
      decreases |rest|
    {
      var pid :| pid in rest;
      var ppid := procs[pid].ppid;
      ghost var before := children;
      children := children[ppid := Kids(children, ppid) + [pid]];
      rest := rest - {pid};
      assert Kids(children, ppid) == Kids(before, ppid) + [pid];
      assert forall p :: p != ppid ==> Kids(children, p) == Kids(before, p);
    }
  }

  // ----- parent chains -----

  /** Following parents n times from k leads to pid, inside the table. */
  ghost predicate ReachesIn(procs: Procs, k: nat, pid: nat, n: nat)
    decreases n
  {
    k in procs && if n == 0 then k == pid else ReachesIn(procs, procs[k].ppid, pid, n - 1)
  }

  ghost predicate Reaches(procs: Procs, k: nat, pid: nat) {
    exists n: nat :: ReachesIn(procs, k, pid, n)
  }

  /** The processes whose parent chain reaches pid. */
  ghost function Tree(procs: Procs, pid: nat): set<nat> {
    set k | k in procs && Reaches(procs, k, pid)
  }

  /** The parent chain of pid comes back to pid. */
  ghost predicate OwnAncestor(procs: Procs, pid: nat) {
    exists n: nat :: n > 0 && ReachesIn(procs, pid, pid, n)
  }

  lemma {:induction false} ReachesStep(procs: Procs, k: nat, pid: nat, c: nat, n: nat)
    requires ReachesIn(procs, k, c, n) && c in procs && procs[c].ppid == pid && pid in procs
    ensures ReachesIn(procs, k, pid, n + 1)
    decreases n
  {
    if n > 0 { ReachesStep(procs, procs[k].ppid, pid, c, n - 1); }
    else { assert ReachesIn(procs, procs[k].ppid, pid, 0); }
  }

  /** A chain that is not empty arrives through one child. */
  lemma {:induction false} LastStep(procs: Procs, k: nat, pid: nat, n: nat) returns (c: nat)
    requires n > 0 && ReachesIn(procs, k, pid, n)
    ensures c in procs && procs[c].ppid == pid && ReachesIn(procs, k, c, n - 1)
    decreases n
  {
    if n == 1 { c := k; } else { c := LastStep(procs, procs[k].ppid, pid, n - 1); }
  }

  /** There is only one way up: the longer of two chains continues the shorter. */
  lemma {:induction false} ChainsAgree(procs: Procs, k: nat, a: nat, b: nat, m: nat, n: nat)
    requires ReachesIn(procs, k, a, m) && ReachesIn(procs, k, b, n) && m <= n
    ensures ReachesIn(procs, a, b, n - m)
    decreases m
  {
    if m > 0 { ChainsAgree(procs, procs[k].ppid, a, b, m - 1, n - 1); }
  }

  /** No process is below two children of the same process. */
  lemma SiblingsAreDisjoint(procs: Procs, a: nat, b: nat)
    requires a in procs && b in procs && a != b
    requires procs[a].ppid == procs[b].ppid && procs[a].ppid in procs && !OwnAncestor(procs, procs[a].ppid)
    ensures Tree(procs, a) !! Tree(procs, b)
  {
    forall k | k in Tree(procs, a) ensures k !in Tree(procs, b) {
      var m: nat :| ReachesIn(procs, k, a, m);
      forall n: nat ensures !ReachesIn(procs, k, b, n) {
        if m <= n {
          NoWayBetweenSiblings(procs, a, b, n - m, k, m);
        } else {
          NoWayBetweenSiblings(procs, b, a, m - n, k, n);
        }
      }
    }
  }

  lemma NoWayBetweenSiblings(procs: Procs, a: nat, b: nat, d: nat, k: nat, m: nat)
    requires a in procs && b in procs && a != b
    requires procs[a].ppid == procs[b].ppid && procs[a].ppid in procs && !OwnAncestor(procs, procs[a].ppid)
    ensures !(ReachesIn(procs, k, a, m) && ReachesIn(procs, k, b, m + d))
  {
    if ReachesIn(procs, k, a, m) && ReachesIn(procs, k, b, m + d) {
      ChainsAgree(procs, k, a, b, m, m + d);
      var pid := procs[a].ppid;
      ReachesStep(procs, pid, pid, b, d - 1);
      assert false;
    }
  }

  /** A child of a process that is not its own ancestor is not its own ancestor either, and its tree is smaller. */
  lemma ChildIsBelow(procs: Procs, c: nat, pid: nat)
    requires c in procs && procs[c].ppid == pid && pid in procs && !OwnAncestor(procs, pid)
    ensures !OwnAncestor(procs, c) && pid !in Tree(procs, c) && Tree(procs, c) < Tree(procs, pid)
  {
    forall n: nat | n > 0 ensures !ReachesIn(procs, c, c, n) {
      if ReachesIn(procs, c, c, n) { ReachesStep(procs, pid, pid, c, n - 1); }
    }
    forall n: nat ensures !ReachesIn(procs, pid, c, n) {
      if ReachesIn(procs, pid, c, n) { ReachesStep(procs, pid, pid, c, n); }
    }
    forall k | k in Tree(procs, c) ensures k in Tree(procs, pid) {
      var n: nat :| ReachesIn(procs, k, c, n);
      ReachesStep(procs, k, pid, c, n);
    }
    assert ReachesIn(procs, pid, pid, 0);
  }

  // ----- sums over sets -----

  ghost function Total(procs: Procs, s: set<nat>): Usage
    requires s <= procs.Keys
  {
    if s == {} then NO_USAGE
    else procs[Pick(s)].usage.Plus(Total(procs, s - {Pick(s)}))
  }

  ghost function Pick(s: set<nat>): (k: nat)
    requires s != {}
    ensures k in s
  {
    var k :| k in s; k
  }

  lemma {:induction false} TotalPlusOne(procs: Procs, s: set<nat>, x: nat)
    requires s <= procs.Keys && x in s
    ensures Total(procs, s) == procs[x].usage.Plus(Total(procs, s - {x}))
    decreases |s|
  {
    var k := Pick(s);
    if k != x {
      TotalPlusOne(procs, s - {k}, x);
      TotalPlusOne(procs, s - {x}, k);
      assert s - {k} - {x} == s - {x} - {k};
    }
  }

  /** The total over no process is zero, and each process of a set adds its memory, its seconds and its percentage. */
  lemma TotalIsASum(procs: Procs, s: set<nat>, x: nat)
    requires s <= procs.Keys
    ensures Total(procs, {}) == Usage(0.0, 0.0, 0.0)
    ensures x in s ==> var u, rest := procs[x].usage, Total(procs, s - {x});
                       Total(procs, s) == Usage(u.rss + rest.rss, u.cpuSecs + rest.cpuSecs, u.cpuPct + rest.cpuPct)
  {
    if x in s { TotalPlusOne(procs, s, x); }
  }

  lemma {:induction false} TotalOfUnion(procs: Procs, s: set<nat>, t: set<nat>)
    requires s <= procs.Keys && t <= procs.Keys && s !! t
    ensures Total(procs, s + t) == Total(procs, s).Plus(Total(procs, t))
    decreases |t|
  {
    if t == {} {
      assert s + t == s;
    } else {
      var x := Pick(t);
      var rest := t - {x};
      TotalOfUnion(procs, s, rest);
      SplitOff(procs, s + t, s + rest, x);
      PlusCommutes(procs[x].usage, Total(procs, s), Total(procs, rest));
    }
  }

  lemma SplitOff(procs: Procs, s: set<nat>, rest: set<nat>, x: nat)
    requires s <= procs.Keys && x in s && rest == s - {x}
    ensures Total(procs, s) == procs[x].usage.Plus(Total(procs, rest))
  {
    TotalPlusOne(procs, s, x);
  }

  lemma PlusCommutes(a: Usage, b: Usage, c: Usage)
    ensures a.Plus(b.Plus(c)) == b.Plus(a.Plus(c))
  {
  }

  // ----- the sum -----

  /** The trees of some children of one process. */
  ghost function Trees(procs: Procs, kids: seq<nat>): set<nat> {
    set k | k in procs && exists i :: 0 <= i < |kids| && Reaches(procs, k, kids[i])
  }

  /** A process tree is its root and the trees of the root's children. */
  lemma TreeIsRootAndKids(procs: Procs, children: map<nat, seq<nat>>, pid: nat)
    requires IsChildren(children, procs, procs.Keys) && pid in procs
    ensures Tree(procs, pid) == {pid} + Trees(procs, Kids(children, pid))
  {
    var kids := Kids(children, pid);
    assert ReachesIn(procs, pid, pid, 0);
    forall k | k in Tree(procs, pid) && k != pid ensures k in Trees(procs, kids) {
      var n: nat :| ReachesIn(procs, k, pid, n);
      var c := LastStep(procs, k, pid, n);
      assert c in kids && Reaches(procs, k, c);
    }
    forall k | k in Trees(procs, kids) ensures k in Tree(procs, pid) {
      var i :| 0 <= i < |kids| && Reaches(procs, k, kids[i]);
      var n: nat :| ReachesIn(procs, k, kids[i], n);
      assert kids[i] in kids;
      ReachesStep(procs, k, pid, kids[i], n);
    }
  }

  /** The trees of some children, and of one more. */
  lemma TreesGrow(procs: Procs, kids: seq<nat>, i: nat)
    requires i < |kids|
    ensures Trees(procs, kids[..i + 1]) == Trees(procs, kids[..i]) + Tree(procs, kids[i])
  {
    forall k | k in Trees(procs, kids[..i + 1]) ensures k in Trees(procs, kids[..i]) + Tree(procs, kids[i]) {
      var j :| 0 <= j < i + 1 && Reaches(procs, k, kids[..i + 1][j]);
      if j < i { assert kids[..i][j] == kids[j]; }
    }
    forall k | k in Trees(procs, kids[..i]) + Tree(procs, kids[i]) ensures k in Trees(procs, kids[..i + 1]) {
      if k in Tree(procs, kids[i]) {
        assert kids[..i + 1][i] == kids[i];
      } else {
        var j :| 0 <= j < i && Reaches(procs, k, kids[..i][j]);
        assert kids[..i + 1][j] == kids[j];
      }
    }
  }

  /** The tree of the next child is disjoint from the root and the trees before it. */
  lemma NextTreeIsDisjoint(procs: Procs, children: map<nat, seq<nat>>, pid: nat, i: nat)
    requires IsChildren(children, procs, procs.Keys) && pid in procs && !OwnAncestor(procs, pid)
    requires i < |Kids(children, pid)|
    ensures var kids := Kids(children, pid);
            {pid} + Trees(procs, kids[..i]) !! Tree(procs, kids[i])
  {
    var kids := Kids(children, pid);
    assert kids[i] in kids;
    ChildIsBelow(procs, kids[i], pid);
    forall k | k in Trees(procs, kids[..i]) ensures k !in Tree(procs, kids[i]) {
      var j :| 0 <= j < i && Reaches(procs, k, kids[..i][j]);
      assert kids[j] in kids;
      SiblingsAreDisjoint(procs, kids[j], kids[i]);
      assert k in Tree(procs, kids[j]);
    }
  }

  lemma NextTreeAdds(procs: Procs, children: map<nat, seq<nat>>, pid: nat, i: nat)
    requires IsChildren(children, procs, procs.Keys) && pid in procs && !OwnAncestor(procs, pid)
    requires i < |Kids(children, pid)|
    ensures var kids := Kids(children, pid);
            && kids[i] in procs && !OwnAncestor(procs, kids[i]) && Tree(procs, kids[i]) < Tree(procs, pid)
            && Total(procs, {pid} + Trees(procs, kids[..i + 1])) ==
               Total(procs, {pid} + Trees(procs, kids[..i])).Plus(Total(procs, Tree(procs, kids[i])))
  {
    var kids := Kids(children, pid);
    assert kids[i] in kids;
    ChildIsBelow(procs, kids[i], pid);
    NextTreeIsDisjoint(procs, children, pid, i);
    TreesGrow(procs, kids, i);
    var before, tree := {pid} + Trees(procs, kids[..i]), Tree(procs, kids[i]);
    TotalOfUnion(procs, before, tree);
    assert before + tree == {pid} + Trees(procs, kids[..i + 1]);
  }

  lemma RootAlone(procs: Procs, kids: seq<nat>, pid: nat)
    requires pid in procs
    ensures Total(procs, {pid} + Trees(procs, kids[..0])) == procs[pid].usage
  {
    TotalPlusOne(procs, {pid}, pid);
    assert {pid} - {pid} == {} && {pid} + Trees(procs, kids[..0]) == {pid};
  }

  /** Unless pid is its own ancestor the sum exists for every known pid, whatever cycles there are elsewhere, and it is
      the sum over exactly the processes whose parent chain reaches that pid. */
  method SumChildren(procs: Procs, children: map<nat, seq<nat>>, pid: nat) returns (r: Option<Usage>)
    requires !OwnAncestor(procs, pid) && IsChildren(children, procs, procs.Keys)
    ensures r == if pid in procs then Some(Total(procs, Tree(procs, pid))) else None
    decreases Tree(procs, pid)
  {
    if pid !in procs { return None; }
    var kids := Kids(children, pid);
    var sum := procs[pid].usage;
    RootAlone(procs, kids, pid);
    for i := 0 to |kids|
      invariant sum == Total(procs, {pid} + Trees(procs, kids[..i]))
    {
      NextTreeAdds(procs, children, pid, i);
      var sc := SumChildren(procs, children, kids[i]);
      if sc == None { return None; }
      sum := sum.Plus(sc.value);
    }
    assert kids[..|kids|] == kids;
    TreeIsRootAndKids(procs, children, pid);
    return Some(sum);
  }

  // ----- when the recursion ends -----

  /** The result of a recursion that may go only so deep. */
  datatype Bounded = TooDeep | Ended(r: Option<Usage>)

  function SumWithin(procs: Procs, children: map<nat, seq<nat>>, pid: nat, depth: nat): Bounded
    decreases depth, 0
  {
    if depth == 0 then TooDeep
    else if pid !in procs then Ended(None)
    else SumKids(procs, children, Kids(children, pid), depth - 1, procs[pid].usage)
  }

  /** The loop over the children that are left. */
  function SumKids(procs: Procs, children: map<nat, seq<nat>>, kids: seq<nat>, depth: nat, sum: Usage): Bounded
    decreases depth, |kids| + 1
  {
    if kids == [] then Ended(Some(sum))
    else
      var sc := SumWithin(procs, children, kids[0], depth);
      if sc == TooDeep || sc.r == None then sc
      else SumKids(procs, children, kids[1..], depth, sum.Plus(sc.r.value))
  }

  /** A process that is its own ancestor has a child that is its own ancestor. */
  lemma CycleGoesOn(procs: Procs, children: map<nat, seq<nat>>, pid: nat) returns (i: nat)
    requires OwnAncestor(procs, pid) && IsChildren(children, procs, procs.Keys)
    ensures pid in procs && i < |Kids(children, pid)| && OwnAncestor(procs, Kids(children, pid)[i])
  {
    var n: nat :| n > 0 && ReachesIn(procs, pid, pid, n);
    var c := LastStep(procs, pid, pid, n);
    assert ReachesIn(procs, c, c, n);
    assert c in Kids(children, pid);
    i :| 0 <= i < |Kids(children, pid)| && Kids(children, pid)[i] == c;
  }

  /** Starting from its children only known processes are met. */
  lemma {:induction false} KnownIsSummed(procs: Procs, children: map<nat, seq<nat>>, pid: nat, depth: nat)
    requires IsChildren(children, procs, procs.Keys) && pid in procs
    ensures var b := SumWithin(procs, children, pid, depth); b == TooDeep || b.r.Some?
    decreases depth, 0
  {
    if depth > 0 {
      var kids := Kids(children, pid);
      assert forall k :: k in kids ==> k in procs;
      KnownKidsAreSummed(procs, children, kids, depth - 1, procs[pid].usage);
    }
  }

  lemma {:induction false} KnownKidsAreSummed(procs: Procs, children: map<nat, seq<nat>>, kids: seq<nat>, depth: nat, sum: Usage)
    requires IsChildren(children, procs, procs.Keys) && forall k :: k in kids ==> k in procs
    ensures var b := SumKids(procs, children, kids, depth, sum); b == TooDeep || b.r.Some?
    decreases depth, |kids| + 1
  {
    if kids != [] {
      KnownIsSummed(procs, children, kids[0], depth);
      var sc := SumWithin(procs, children, kids[0], depth);
      if sc != TooDeep { KnownKidsAreSummed(procs, children, kids[1..], depth, sum.Plus(sc.r.value)); }
    }
  }

  /** Below a process that is its own ancestor every depth is too little. */
  lemma {:induction false} CycleIsTooDeep(procs: Procs, children: map<nat, seq<nat>>, pid: nat, depth: nat)
    requires OwnAncestor(procs, pid) && IsChildren(children, procs, procs.Keys)
    ensures SumWithin(procs, children, pid, depth) == TooDeep
    decreases depth, 0
  {
    if depth > 0 {
      var i := CycleGoesOn(procs, children, pid);
      var kids := Kids(children, pid);
      assert forall k :: k in kids ==> k in procs;
      KidInCycleIsTooDeep(procs, children, kids, i, depth - 1, procs[pid].usage);
    }
  }

  lemma {:induction false} KidInCycleIsTooDeep(procs: Procs, children: map<nat, seq<nat>>, kids: seq<nat>, i: nat, depth: nat, sum: Usage)
    requires IsChildren(children, procs, procs.Keys) && forall k :: k in kids ==> k in procs
    requires i < |kids| && OwnAncestor(procs, kids[i])
    ensures SumKids(procs, children, kids, depth, sum) == TooDeep
    decreases depth, |kids| + 1
  {
    KnownIsSummed(procs, children, kids[0], depth);
    if i == 0 {
      CycleIsTooDeep(procs, children, kids[0], depth);
    } else {
      var sc := SumWithin(procs, children, kids[0], depth);
      if sc != TooDeep { KidInCycleIsTooDeep(procs, children, kids[1..], i - 1, depth, sum.Plus(sc.r.value)); }
    }
  }

  lemma SmallerSet(s: set<nat>, t: set<nat>)
    requires s < t
    ensures |s| < |t|
  {
    assert t == s + (t - s) && t - s != {};
  }

  /** Otherwise a depth beyond the size of the tree is enough. */
  lemma {:induction false} TreeSizeIsEnough(procs: Procs, children: map<nat, seq<nat>>, pid: nat, depth: nat)
    requires !OwnAncestor(procs, pid) && IsChildren(children, procs, procs.Keys) && depth > |Tree(procs, pid)|
    ensures SumWithin(procs, children, pid, depth) == Ended(if pid in procs then Some(Total(procs, Tree(procs, pid))) else None)
    decreases depth, 0
  {
    if pid in procs {
      RootAlone(procs, Kids(children, pid), pid);
      TreeSizeIsEnoughForKids(procs, children, pid, 0, depth - 1);
      assert Kids(children, pid)[0..] == Kids(children, pid);
    }
  }

  lemma {:induction false} TreeSizeIsEnoughForKids(procs: Procs, children: map<nat, seq<nat>>, pid: nat, i: nat, depth: nat)
    requires !OwnAncestor(procs, pid) && IsChildren(children, procs, procs.Keys) && depth >= |Tree(procs, pid)|
    requires pid in procs && i <= |Kids(children, pid)|
    ensures var kids := Kids(children, pid);
            SumKids(procs, children, kids[i..], depth, Total(procs, {pid} + Trees(procs, kids[..i]))) ==
            Ended(Some(Total(procs, Tree(procs, pid))))
    decreases depth, |Kids(children, pid)| - i + 1
  {
    hide Total, OwnAncestor, IsChildren, Tree;
    var kids := Kids(children, pid);
    if i == |kids| {
      assert kids[..i] == kids;
      TreeIsRootAndKids(procs, children, pid);
    } else {
      NextTreeAdds(procs, children, pid, i);
      SmallerSet(Tree(procs, kids[i]), Tree(procs, pid));
      TreeSizeIsEnough(procs, children, kids[i], depth);
      TreeSizeIsEnoughForKids(procs, children, pid, i + 1, depth);
      assert kids[i..][1..] == kids[i + 1..];
    }
  }

  /** Exactly when the recursion of the source comes to an end: if pid is not its own ancestor. */
  lemma SumEndsIff(procs: Procs, children: map<nat, seq<nat>>, pid: nat)
    requires IsChildren(children, procs, procs.Keys)
    ensures (exists depth: nat :: SumWithin(procs, children, pid, depth) != TooDeep) <==> !OwnAncestor(procs, pid)
  {
    if OwnAncestor(procs, pid) {
      forall depth: nat ensures SumWithin(procs, children, pid, depth) == TooDeep {
        CycleIsTooDeep(procs, children, pid, depth);
      }
    } else {
      TreeSizeIsEnough(procs, children, pid, |Tree(procs, pid)| + 1);
    }
  }

  lemma HeadIsIn(s: seq<nat>)
    ensures s == [] || s[0] in s
  {
  }

  /** Two processes that are each other's parents: the sum of either never ends, the sum of a third one does. */
  lemma CycleExample(u: Usage, children: map<nat, seq<nat>>, depth: nat)
    requires var procs: Procs := map[1 := Proc(0, u), 2 := Proc(3, u), 3 := Proc(2, u)];
             IsChildren(children, procs, procs.Keys)
    ensures var procs: Procs := map[1 := Proc(0, u), 2 := Proc(3, u), 3 := Proc(2, u)];
            && SumWithin(procs, children, 2, depth) == TooDeep && SumWithin(procs, children, 3, depth) == TooDeep
            && SumWithin(procs, children, 1, 1) == Ended(Some(u))
  {
    var procs: Procs := map[1 := Proc(0, u), 2 := Proc(3, u), 3 := Proc(2, u)];
    assert ReachesIn(procs, 2, 2, 0) && ReachesIn(procs, 3, 3, 0);
    assert ReachesIn(procs, 3, 2, 1) && ReachesIn(procs, 2, 3, 1);
    assert ReachesIn(procs, 2, 2, 2) && ReachesIn(procs, 3, 3, 2);
    CycleIsTooDeep(procs, children, 2, depth);
    CycleIsTooDeep(procs, children, 3, depth);
    assert forall k :: k in Kids(children, 1) ==> k in procs && procs[k].ppid == 1;
    HeadIsIn(Kids(children, 1));
  }
}
