/** The split of a batch into transactions that compete for the same rows: the
    union-find of components in budget/assign.go. */
module Competition {
  import opened Sums
  import opened Budget
  import opened Arrangements

  // ----- Competition, as a relation -----

  /** Consecutive entries were offered a row in common. */
  ghost predicate Chain(rows: Rows, path: seq<nat>) {
    && path != [] && Below(path, |rows|)
    && forall k :: 0 <= k < |path| - 1 ==> Linked(rows, path[k], path[k + 1])
  }

  /** A chain of shared rows leads from i to j. */
  ghost predicate Connected(rows: Rows, i: nat, j: nat) {
    exists path :: Chain(rows, path) && path[0] == i && path[|path| - 1] == j
  }

  lemma ConnectedSelf(rows: Rows, i: nat)
    requires i < |rows|
    ensures Connected(rows, i, i)
  {
    assert Chain(rows, [i]);
  }

  lemma ConnectedLinked(rows: Rows, i: nat, j: nat)
    requires i < |rows| && j < |rows| && Linked(rows, i, j)
    ensures Connected(rows, i, j)
  {
    assert Chain(rows, [i, j]);
  }

  lemma LinkedSymmetric(rows: Rows, i: nat, j: nat)
    requires i < |rows| && j < |rows| && Linked(rows, i, j)
    ensures Linked(rows, j, i)
  {
  }

  function Reversed(path: seq<nat>): seq<nat> {
    seq(|path|, k requires 0 <= k < |path| => path[|path| - 1 - k])
  }

  lemma ConnectedSymmetric(rows: Rows, i: nat, j: nat)
    requires Connected(rows, i, j)
    ensures Connected(rows, j, i)
  {
    var path :| Chain(rows, path) && path[0] == i && path[|path| - 1] == j;
    var back := Reversed(path);
    forall k | 0 <= k < |back| - 1 ensures Linked(rows, back[k], back[k + 1]) {
      var t := |path| - 2 - k;
      assert back[k] == path[t + 1] && back[k + 1] == path[t];
      LinkedSymmetric(rows, path[t], path[t + 1]);
    }
    assert Chain(rows, back);
  }

  lemma ConnectedTransitive(rows: Rows, i: nat, j: nat, k: nat)
    requires Connected(rows, i, j) && Connected(rows, j, k)
    ensures Connected(rows, i, k)
  {
    var a :| Chain(rows, a) && a[0] == i && a[|a| - 1] == j;
    var b :| Chain(rows, b) && b[0] == j && b[|b| - 1] == k;
    var path := a + b[1..];
    forall t | 0 <= t < |path| - 1 ensures Linked(rows, path[t], path[t + 1]) {
      if t < |a| - 1 {
        assert Linked(rows, a[t], a[t + 1]);
      } else {
        var s := t - (|a| - 1);
        assert path[t] == b[s] && path[t + 1] == b[s + 1];
        assert Linked(rows, b[s], b[s + 1]);
      }
    }
    assert Chain(rows, path);
    assert path[|path| - 1] == k;
  }

  /** A property shared by linked transactions is shared along any chain. */
  lemma {:induction false} SameAlongChain(rows: Rows, path: seq<nat>, root: seq<nat>)
    requires Chain(rows, path) && |root| == |rows|
    requires forall i, j :: 0 <= i < |rows| && 0 <= j < |rows| && Linked(rows, i, j) ==> root[i] == root[j]
    ensures root[path[0]] == root[path[|path| - 1]]
    decreases |path|
  {
    if |path| > 1 {
      assert Linked(rows, path[0], path[1]);
      var rest := path[1..];
      forall k | 0 <= k < |rest| - 1 ensures Linked(rows, rest[k], rest[k + 1]) {
        assert Linked(rows, path[k + 1], path[k + 2]);
      }
      SameAlongChain(rows, rest, root);
    }
  }

  // ----- The forest -----

  /** Element x of the forest: its parent shares its representative, only representatives
      are their own parent, and rank climbs strictly along parents. */
  ghost predicate Node(parent: seq<nat>, root: seq<nat>, rank: seq<nat>, x: nat)
    requires |parent| == |root| == |rank| && x < |root|
  {
    var n := |root|;
    && parent[x] < n && root[x] < n
    && root[root[x]] == root[x] && root[parent[x]] == root[x]
    && (parent[x] == x <==> root[x] == x)
    && (parent[x] != x ==> rank[x] < rank[parent[x]])
  }

  ghost predicate WellRooted(parent: seq<nat>, root: seq<nat>, rank: seq<nat>) {
    && |parent| == |root| == |rank|
    && forall x {:trigger Node(parent, root, rank, x)} :: 0 <= x < |root| ==> Node(parent, root, rank, x)
  }

  lemma HalveKeeps(parent: seq<nat>, root: seq<nat>, rank: seq<nat>, x: nat)
    requires WellRooted(parent, root, rank) && x < |root| && parent[x] != x
    ensures parent[x] < |root| && parent[parent[x]] < |root|
    ensures WellRooted(parent[x := parent[parent[x]]], root, rank)
    ensures rank[x] < rank[parent[parent[x]]] && root[parent[parent[x]]] == root[x]
  {
    assert Node(parent, root, rank, x);
    var y := parent[x];
    assert Node(parent, root, rank, y);
    var parent' := parent[x := parent[y]];
    forall z | 0 <= z < |root| ensures Node(parent', root, rank, z) {
      assert Node(parent, root, rank, z);
    }
  }

  lemma HangKeeps(parent: seq<nat>, root: seq<nat>, rank: seq<nat>, root': seq<nat>, ra: nat, rb: nat)
    requires WellRooted(parent, root, rank) && |root'| == |root|
    requires ra < |root| && rb < |root| && ra != rb && root[ra] == ra && root[rb] == rb
    requires forall x :: 0 <= x < |root| ==> root'[x] == if root[x] == ra then rb else root[x]
    ensures WellRooted(parent[ra := rb], root', rank[rb := rank[ra] + rank[rb] + 1])
  {
    assert Node(parent, root, rank, rb);
    var parent', rank' := parent[ra := rb], rank[rb := rank[ra] + rank[rb] + 1];
    forall x | 0 <= x < |root| ensures Node(parent', root', rank', x) {
      assert Node(parent, root, rank, x);
      assert Node(parent, root, rank, root[x]);
    }
  }

  /** A parent array with path halving. root is what Find answers; rank is why Find stops. */
  class Forest {
    const parent: array<nat>
    ghost var root: seq<nat>
    ghost var rank: seq<nat>

    ghost predicate Valid()
      reads this, parent
    {
      |root| == parent.Length && WellRooted(parent[..], root, rank)
    }

    constructor (n: nat)
      ensures Valid() && fresh(parent)
      ensures parent.Length == n && root == Range(n)
    {
      parent := new nat[n](i => i);
      root := Range(n);
      rank := seq(n, _ => 0);
    }

    /** Returns x's representative, halving the path on the way. No representative changes. */
    method Find(x0: nat) returns (x: nat)
      requires Valid() && x0 < parent.Length
      modifies parent
      ensures Valid() && x < parent.Length && x == root[x0] && root[x] == x
    {
      x := x0;
      ghost var top: int := Max(rank);
      MaxBounds(rank, x);
      while parent[x] != x
        invariant Valid() && x < parent.Length && root[x] == root[x0] && rank[x] <= top
        decreases top - rank[x]
      {
        HalveKeeps(parent[..], root, rank, x);
        MaxBounds(rank, parent[parent[x]]);
        parent[x] := parent[parent[x]];
        x := parent[x];
      }
      assert Node(parent[..], root, rank, x);
    }

    /** Hangs a's tree below b's: the two representatives become one, every other stays. */
    method Union(a: nat, b: nat)
      requires Valid() && a < parent.Length && b < parent.Length
      modifies this`root, this`rank, parent
      ensures Valid()
      ensures forall x :: 0 <= x < parent.Length ==>
                root[x] == if old(root)[x] == old(root)[a] then old(root)[b] else old(root)[x]
    {
      var ra := Find(a);
      var rb := Find(b);
      if ra != rb {
        ghost var was := root;
        ghost var joined: seq<nat> := seq(|was|, x requires 0 <= x < |was| => if was[x] == ra then rb else was[x]);
        HangKeeps(parent[..], root, rank, joined, ra, rb);
        parent[ra] := rb;
        rank := rank[rb := rank[ra] + rank[rb] + 1];
        root := joined;
      }
    }
  }

  ghost function Max(s: seq<nat>): nat {
    if s == [] then 0 else if s[|s| - 1] > Max(s[..|s| - 1]) then s[|s| - 1] else Max(s[..|s| - 1])
  }

  lemma {:induction false} MaxBounds(s: seq<nat>, i: nat)
    requires i < |s|
    ensures s[i] <= Max(s)
    decreases |s|
  {
    if i < |s| - 1 {
      MaxBounds(s[..|s| - 1], i);
    }
  }

  // ----- Splitting a batch -----

  /** Representatives only ever join connected transactions. */
  ghost predicate Sound(rows: Rows, root: seq<nat>) {
    |root| == |rows| && forall i, j :: 0 <= i < |rows| && 0 <= j < |rows| && root[i] == root[j] ==> Connected(rows, i, j)
  }

  /** Every candidate seen so far, rows before i and the first j of row i, is owned by a
      transaction offered the same row and already joined to its own. */
  ghost predicate Owned(rows: Rows, root: seq<nat>, owner: map<string, nat>, i: nat, j: nat)
    requires |root| == |rows|
  {
    && (forall id :: id in owner ==> owner[id] < |rows| && Offered(rows[owner[id]], id))
    && (forall k, a :: 0 <= k < |rows| && 0 <= a < |rows[k]| && (k < i || (k == i && a < j)) ==>
          OwnedBy(root, owner, k, rows[k][a].Id()))
  }

  ghost predicate Offered(row: seq<Candidate>, id: string) {
    exists a :: 0 <= a < |row| && row[a].Id() == id
  }

  ghost predicate OwnedBy(root: seq<nat>, owner: map<string, nat>, k: nat, id: string)
    requires k < |root|
  {
    id in owner && owner[id] < |root| && root[owner[id]] == root[k]
  }

  lemma UnionSound(rows: Rows, root: seq<nat>, root': seq<nat>, a: nat, b: nat)
    requires Sound(rows, root) && a < |rows| && b < |rows| && Linked(rows, a, b)
    requires |root'| == |rows|
    requires forall x :: 0 <= x < |rows| ==> root'[x] == if root[x] == root[a] then root[b] else root[x]
    ensures Sound(rows, root')
  {
    forall i, j | 0 <= i < |rows| && 0 <= j < |rows| && root'[i] == root'[j]
      ensures Connected(rows, i, j)
    {
      if root[i] != root[j] {
        ConnectedLinked(rows, a, b);
        ConnectedSymmetric(rows, a, b);
        if root[i] == root[a] {
          ConnectedTransitive(rows, i, a, b);
          ConnectedTransitive(rows, i, b, j);
        } else {
          ConnectedTransitive(rows, i, b, a);
          ConnectedTransitive(rows, i, a, j);
        }
      }
    }
  }

  /** Joins every two transactions offered one row, in the order the batch lists them. */
  method Join(rows: Rows) returns (forest: Forest)
    ensures fresh(forest) && fresh(forest.parent) && forest.Valid() && forest.parent.Length == |rows|
    ensures forall i, j :: 0 <= i < |rows| && 0 <= j < |rows| ==>
              (forest.root[i] == forest.root[j] <==> Connected(rows, i, j))
  {
    forest := new Forest(|rows|);
    var owner: map<string, nat> := map[];
    forall i | 0 <= i < |rows| ensures Connected(rows, i, i) {
      ConnectedSelf(rows, i);
    }
    var i := 0;
    while i < |rows|
      invariant i <= |rows|
      invariant forest.Valid() && Sound(rows, forest.root) && Owned(rows, forest.root, owner, i, 0)
    {
      owner := JoinRow(rows, forest, owner, i);
      i := i + 1;
    }
    JoinExact(rows, forest.root, owner);
  }

  lemma OwnedAfterUnion(rows: Rows, was: seq<nat>, root: seq<nat>, owner: map<string, nat>, i: nat, j: nat)
    requires |was| == |root| == |rows| && i < |rows| && j < |rows[i]|
    requires Owned(rows, was, owner, i, j) && rows[i][j].Id() in owner
    requires forall x :: 0 <= x < |rows| ==>
               root[x] == if was[x] == was[owner[rows[i][j].Id()]] then was[i] else was[x]
    ensures Owned(rows, root, owner, i, j + 1)
  {
    forall k, a | 0 <= k < |rows| && 0 <= a < |rows[k]| && (k < i || (k == i && a < j + 1))
      ensures OwnedBy(root, owner, k, rows[k][a].Id())
    {
      if k < i || a < j {
        assert OwnedBy(was, owner, k, rows[k][a].Id());
      }
    }
  }

  lemma OwnedAfterClaim(rows: Rows, root: seq<nat>, owner: map<string, nat>, i: nat, j: nat)
    requires |root| == |rows| && i < |rows| && j < |rows[i]|
    requires Owned(rows, root, owner, i, j) && rows[i][j].Id() !in owner
    ensures Owned(rows, root, owner[rows[i][j].Id() := i], i, j + 1)
  {
    var owner' := owner[rows[i][j].Id() := i];
    forall k, a | 0 <= k < |rows| && 0 <= a < |rows[k]| && (k < i || (k == i && a < j + 1))
      ensures OwnedBy(root, owner', k, rows[k][a].Id())
    {
      if k < i || a < j {
        assert OwnedBy(root, owner, k, rows[k][a].Id());
      }
    }
    assert Offered(rows[i], rows[i][j].Id());
  }

  method JoinRow(rows: Rows, forest: Forest, owner0: map<string, nat>, i: nat) returns (owner: map<string, nat>)
    requires i < |rows| && forest.Valid()
    requires Sound(rows, forest.root) && Owned(rows, forest.root, owner0, i, 0)
    modifies forest`root, forest`rank, forest.parent
    ensures forest.Valid() && Sound(rows, forest.root) && Owned(rows, forest.root, owner, i + 1, 0)
  {
    owner := owner0;
    var j := 0;
    while j < |rows[i]|
      invariant j <= |rows[i]|
      invariant forest.Valid() && Sound(rows, forest.root) && Owned(rows, forest.root, owner, i, j)
    {
      var id := rows[i][j].Id();
      ghost var was, had := forest.root, owner;
      if id in owner {
        forest.Union(owner[id], i);
        assert Linked(rows, owner[id], i) by {
          var a :| 0 <= a < |rows[owner[id]]| && rows[owner[id]][a].Id() == id;
        }
        UnionSound(rows, was, forest.root, owner[id], i);
        OwnedAfterUnion(rows, was, forest.root, owner, i, j);
      } else {
        owner := owner[id := i];
        OwnedAfterClaim(rows, was, had, i, j);
      }
      j := j + 1;
    }
  }

  lemma JoinExact(rows: Rows, root: seq<nat>, owner: map<string, nat>)
    requires Sound(rows, root) && Owned(rows, root, owner, |rows|, 0)
    ensures forall i, j :: 0 <= i < |rows| && 0 <= j < |rows| ==> (root[i] == root[j] <==> Connected(rows, i, j))
  {
    forall i, j | 0 <= i < |rows| && 0 <= j < |rows| && Linked(rows, i, j)
      ensures root[i] == root[j]
    {
      var a, b :| 0 <= a < |rows[i]| && 0 <= b < |rows[j]| && rows[i][a].Id() == rows[j][b].Id();
      assert OwnedBy(root, owner, i, rows[i][a].Id()) && OwnedBy(root, owner, j, rows[j][b].Id());
    }
    forall i, j | 0 <= i < |rows| && 0 <= j < |rows| && Connected(rows, i, j)
      ensures root[i] == root[j]
    {
      var path :| Chain(rows, path) && path[0] == i && path[|path| - 1] == j;
      SameAlongChain(rows, path, root);
    }
  }

  /** Each representative met among the first i transactions, with its members in order. */
  ghost predicate Gathered(root: seq<nat>, grouped: map<nat, seq<nat>>, i: nat) {
    && i <= |root|
    && (forall r {:trigger Members(root, grouped[r], r, i)} :: r in grouped ==> Members(root, grouped[r], r, i))
    && (forall x {:trigger InGroup(root, grouped, x)} :: 0 <= x < i ==> InGroup(root, grouped, x))
  }

  ghost predicate InGroup(root: seq<nat>, grouped: map<nat, seq<nat>>, x: nat)
    requires x < |root|
  {
    root[x] in grouped && x in grouped[root[x]]
  }

  ghost predicate Members(root: seq<nat>, members: seq<nat>, r: nat, i: nat) {
    && (forall k :: 0 <= k < |members| ==> members[k] < i && members[k] < |root| && root[members[k]] == r)
    && (forall a, b :: 0 <= a < b < |members| ==> members[a] < members[b])
  }

  lemma GatherStep(root: seq<nat>, grouped: map<nat, seq<nat>>, i: nat)
    requires Gathered(root, grouped, i) && i < |root|
    ensures var had := if root[i] in grouped then grouped[root[i]] else [];
            Gathered(root, grouped[root[i] := had + [i]], i + 1)
  {
    var had := if root[i] in grouped then grouped[root[i]] else [];
    var grouped' := grouped[root[i] := had + [i]];
    forall r | r in grouped' ensures Members(root, grouped'[r], r, i + 1) {
      assert r in grouped ==> Members(root, grouped[r], r, i);
    }
    forall x | 0 <= x < i + 1 ensures InGroup(root, grouped', x) {
      if x == i {
        assert (had + [i])[|had|] == i;
      } else {
        assert InGroup(root, grouped, x);
      }
    }
  }

  /** Group t is the gathered group of representative reps[t]; every representative below i is listed once. */
  ghost predicate Listed(root: seq<nat>, grouped: map<nat, seq<nat>>, groups: seq<seq<nat>>, reps: seq<nat>, place: seq<nat>, i: nat) {
    && |reps| == |groups| && |place| == |root| && i <= |root|
    && (forall t :: 0 <= t < |reps| ==>
          reps[t] < |root| && root[reps[t]] == reps[t] && reps[t] in grouped && groups[t] == grouped[reps[t]]
          && place[reps[t]] == t)
    && (forall x :: 0 <= x < i && root[x] == x ==> place[x] < |reps| && reps[place[x]] == x)
  }

  /** Which group each transaction went to. */
  ghost function GroupOf(root: seq<nat>, place: seq<nat>): seq<nat>
    requires |place| == |root| && Below(root, |root|)
  {
    seq(|root|, x requires 0 <= x < |root| => place[root[x]])
  }

  lemma ListedGroups(root: seq<nat>, grouped: map<nat, seq<nat>>, groups: seq<seq<nat>>, reps: seq<nat>, place: seq<nat>)
    requires Gathered(root, grouped, |root|) && Listed(root, grouped, groups, reps, place, |root|)
    requires Below(root, |root|) && forall x :: 0 <= x < |root| ==> root[root[x]] == root[x]
    ensures Grouping(groups, GroupOf(root, place))
    ensures forall i, j :: 0 <= i < |root| && 0 <= j < |root| ==>
              (GroupOf(root, place)[i] == GroupOf(root, place)[j] <==> root[i] == root[j])
  {
    var groupOf := GroupOf(root, place);
    forall i | 0 <= i < |root|
      ensures groupOf[i] < |groups| && reps[groupOf[i]] == root[i] && i in groups[groupOf[i]]
    {
      assert root[root[i]] == root[i];
      assert InGroup(root, grouped, i);
    }
    forall t | 0 <= t < |groups| ensures Members(root, groups[t], reps[t], |root|) {
      assert reps[t] in grouped;
    }
  }

  lemma LinkedTogether(rows: Rows, groupOf: seq<nat>)
    requires |groupOf| == |rows|
    requires forall i, j :: 0 <= i < |rows| && 0 <= j < |rows| && Connected(rows, i, j) ==> groupOf[i] == groupOf[j]
    ensures Separated(rows, groupOf)
  {
    forall i, j | 0 <= i < |rows| && 0 <= j < |rows| && Linked(rows, i, j) ensures groupOf[i] == groupOf[j] {
      ConnectedLinked(rows, i, j);
    }
  }

  lemma ListedNone(root: seq<nat>, grouped: map<nat, seq<nat>>, place: seq<nat>)
    requires |place| == |root|
    ensures Listed(root, grouped, [], [], place, 0)
  {
  }

  /** One more row has been looked at; if it stands for a group, the group is listed. */
  lemma ListedNext(root: seq<nat>, grouped: map<nat, seq<nat>>, groups: seq<seq<nat>>, reps: seq<nat>, place: seq<nat>, i: nat)
    requires Listed(root, grouped, groups, reps, place, i) && i < |root| && forall t :: 0 <= t < |reps| ==> reps[t] < i
    ensures root[i] != i ==> Listed(root, grouped, groups, reps, place, i + 1)
    ensures root[i] == i && i in grouped ==>
              Listed(root, grouped, groups + [grouped[i]], reps + [i], place[i := |groups|], i + 1)
  {
  }

  /** Groups the batch by competition for rows: two transactions share a group exactly when a
      chain of shared rows links them. */
  method Components(rows: Rows) returns (groups: seq<seq<nat>>, ghost groupOf: seq<nat>)
    ensures |groupOf| == |rows| && Grouping(groups, groupOf)
    ensures forall i, j :: 0 <= i < |rows| && 0 <= j < |rows| ==> (groupOf[i] == groupOf[j] <==> Connected(rows, i, j))
    ensures Separated(rows, groupOf)
  {
    hide Linked, Connected, Grouping, Separated, Listed;
    var forest := Join(rows);
    ghost var root := forest.root;
    var grouped: map<nat, seq<nat>> := map[];
    var i := 0;
    while i < |rows|
      modifies forest.parent
      invariant forest.Valid() && forest.root == root
      invariant Gathered(root, grouped, i)
    {
      var r := forest.Find(i);
      GatherStep(root, grouped, i);
      grouped := grouped[r := (if r in grouped then grouped[r] else []) + [i]];
      i := i + 1;
    }
    groups := [];
    ghost var reps: seq<nat>, place: seq<nat> := [], seq(|rows|, _ => 0);
    i := 0;
    ListedNone(root, grouped, place);
    while i < |rows|
      modifies forest.parent
      invariant forest.Valid() && forest.root == root && i <= |rows| == |place|
      invariant Listed(root, grouped, groups, reps, place, i) && forall t :: 0 <= t < |reps| ==> reps[t] < i
    {
      var r := forest.Find(i);
      assert InGroup(root, grouped, i);
      ListedNext(root, grouped, groups, reps, place, i);
      if r == i {
        groups, reps, place := groups + [grouped[i]], reps + [i], place[i := |groups|];
      }
      i := i + 1;
    }
    forall x | 0 <= x < |rows| ensures root[x] < |rows| && root[root[x]] == root[x] {
      assert Node(forest.parent[..], root, forest.rank, x);
    }
    groupOf := GroupOf(root, place);
    ListedGroups(root, grouped, groups, reps, place);
    LinkedTogether(rows, groupOf);
  }
}
