/** The domain tree shown by the terminal interface: an explicit-stack
    traversal that is total on any recorded parents, cycles included. */
module DomainTree {
  import opened Events
  import opened State
  import opened DomainIds

  datatype Row = Row(id: DomainId, trail: seq<bool>)

  type Domains = map<DomainId, DomainState>

  /** The recorded parent when it is itself a recorded domain. */
  function EffectiveParent(domains: Domains, d: DomainId): Option<DomainId>
    requires d in domains
  {
    match domains[d].parent
    case None => None
    case Some(Root) => None
    case Some(Domain(p)) => if p in domains then Some(p) else None
  }

  lemma EffectiveParentIs(domains: Domains, d: DomainId, p: DomainId)
    requires d in domains
    ensures EffectiveParent(domains, d) == Some(p) <==> p in domains && domains[d].parent == Some(Domain(p))
  {
  }

  ghost function ChildSet(domains: Domains, p: Option<DomainId>): set<DomainId> {
    set d | d in domains && EffectiveParent(domains, d) == p
  }

  type Children = map<Option<DomainId>, seq<DomainId>>

  function Listed(children: Children, p: Option<DomainId>): seq<DomainId> {
    if p in children then children[p] else []
  }

  /** Every domain under its effective parent, ascending. */
  ghost predicate Lists(domains: Domains, children: Children) {
    forall p: Option<DomainId> {:trigger Listed(children, p)} :: (p.Some? ==> p.value in domains) ==>
      Ascending(Listed(children, p)) && Ids(Listed(children, p)) == ChildSet(domains, p)
  }

  /** No domain with the same effective parent has a greater ID. */
  ghost predicate LastSibling(domains: Domains, d: DomainId)
    requires d in domains
  {
    forall c :: c in domains && EffectiveParent(domains, c) == EffectiveParent(domains, d) ==> c <= d
  }

  // ----- collecting the children -----

  /** The domains outside `rest` under their effective parents, in any order. */
  ghost predicate Groups(domains: Domains, rest: set<DomainId>, children: Children) {
    forall p {:trigger Listed(children, p)} ::
      Distinct(Listed(children, p)) && Ids(Listed(children, p)) == ChildSet(domains, p) - rest
  }

  lemma GroupStep(domains: Domains, rest: set<DomainId>, children: Children, d: DomainId)
    requires Groups(domains, rest, children) && rest <= domains.Keys && d in rest
    ensures var p := EffectiveParent(domains, d);
            Groups(domains, rest - {d}, children[p := Listed(children, p) + [d]])
  {
    var p := EffectiveParent(domains, d);
    var siblings := Listed(children, p);
    var children' := children[p := siblings + [d]];
    assert d !in Ids(siblings);
    IdsExtend(siblings, d);
    forall q
      ensures Distinct(Listed(children', q)) && Ids(Listed(children', q)) == ChildSet(domains, q) - (rest - {d})
    {
      if q == p {
        assert ChildSet(domains, p) - (rest - {d}) == (ChildSet(domains, p) - rest) + {d};
      } else {
        assert Listed(children', q) == Listed(children, q);
        assert ChildSet(domains, q) - (rest - {d}) == ChildSet(domains, q) - rest;
      }
    }
  }

  method GroupChildren(domains: Domains) returns (children: Children)
    ensures Groups(domains, {}, children)
  {
    children := map[];
    var rest := domains.Keys;
    while rest != {}
      invariant rest <= domains.Keys && Groups(domains, rest, children)
      decreases rest
    {
      var d :| d in rest;
      GroupStep(domains, rest, children, d);
      var p := EffectiveParent(domains, d);
      children := children[p := Listed(children, p) + [d]];
      rest := rest - {d};
    }
  }

  method SortChildren(grouped: Children) returns (children: Children)
    requires forall p :: p in grouped ==> Distinct(grouped[p])
    ensures children.Keys == grouped.Keys
    ensures forall p :: p in children ==> Ascending(children[p]) && Ids(children[p]) == Ids(grouped[p])
  {
    children := grouped;
    var parents := grouped.Keys;
    while parents != {}
      invariant parents <= children.Keys == grouped.Keys
      invariant forall p :: p in parents ==> children[p] == grouped[p]
      invariant forall p :: p in children && p !in parents ==>
                Ascending(children[p]) && Ids(children[p]) == Ids(grouped[p])
      decreases parents
    {
      var p :| p in parents;
      var sorted := SortDistinct(children[p]);
      children := children[p := sorted];
      parents := parents - {p};
    }
  }

  /** The children of every domain, grouped and then sorted. */
  method CollectChildren(domains: Domains) returns (children: Children)
    ensures Lists(domains, children)
  {
    var grouped := GroupChildren(domains);
    forall p | p in grouped ensures Distinct(grouped[p]) {
      assert Listed(grouped, p) == grouped[p];
    }
    children := SortChildren(grouped);
    forall p: Option<DomainId> | p.Some? ==> p.value in domains
      ensures Ascending(Listed(children, p)) && Ids(Listed(children, p)) == ChildSet(domains, p)
    {
      assert Ids(Listed(children, p)) == Ids(Listed(grouped, p)) == ChildSet(domains, p) - {};
    }
  }

  /** Each domain stands once below the recorded domain that is its parent, or below none. */
  ghost predicate ListsByParent(domains: Domains, children: Children) {
    && (forall d, p :: p in domains ==>
          (d in Listed(children, Some(p)) <==> d in domains && domains[d].parent == Some(Domain(p))))
    && (forall d :: d in Listed(children, None) <==>
          d in domains && !(exists p :: p in domains && domains[d].parent == Some(Domain(p))))
  }

  /** Listing the children is listing by recorded parent. */
  lemma ParentsListed(domains: Domains, children: Children)
    requires Lists(domains, children)
    ensures ListsByParent(domains, children)
  {
    forall d, p | p in domains
      ensures d in Listed(children, Some(p)) <==> d in domains && domains[d].parent == Some(Domain(p))
    {
      ListedBelow(domains, children, d, p);
    }
    forall d
      ensures d in Listed(children, None) <==>
                d in domains && !(exists p :: p in domains && domains[d].parent == Some(Domain(p)))
    {
      ListedAtRoot(domains, children, d);
    }
  }

  lemma ListedBelow(domains: Domains, children: Children, d: DomainId, p: DomainId)
    requires Lists(domains, children) && p in domains
    ensures d in Listed(children, Some(p)) <==> d in domains && domains[d].parent == Some(Domain(p))
  {
    var listed := Listed(children, Some(p));
    assert d in listed <==> d in Ids(listed);
    if d in domains { EffectiveParentIs(domains, d, p); }
  }

  lemma ListedAtRoot(domains: Domains, children: Children, d: DomainId)
    requires Lists(domains, children)
    ensures d in Listed(children, None) <==>
              d in domains && !(exists p :: p in domains && domains[d].parent == Some(Domain(p)))
  {
    var listed := Listed(children, None);
    assert d in listed <==> d in Ids(listed);
    assert d in Ids(listed) <==> d in domains && EffectiveParent(domains, d).None?;
    if d in domains && EffectiveParent(domains, d).Some? {
      EffectiveParentIs(domains, d, EffectiveParent(domains, d).value);
    }
  }

  // ----- what holds for any recorded parents -----

  /** A row starts a tree, or stands below an earlier row for its parent,
      extending that row's trail by its own last-sibling bit. */
  ghost predicate Nested(domains: Domains, output: seq<Row>, r: Row) {
    && r.id in domains
    && |r.trail| >= 1
    && (|r.trail| > 1 ==> exists j :: 0 <= j < |output| && ParentRow(domains, output[j], r))
    && (|r.trail| == 1 ==>
          r.trail[0] || (EffectiveParent(domains, r.id).None? && !LastSibling(domains, r.id)))
  }

  ghost predicate ParentRow(domains: Domains, p: Row, r: Row)
    requires r.id in domains
  {
    && EffectiveParent(domains, r.id) == Some(p.id)
    && |r.trail| == |p.trail| + 1
    && r.trail[..|p.trail|] == p.trail
    && (r.trail[|p.trail|] <==> LastSibling(domains, r.id))
  }

  ghost function RowIds(rows: seq<Row>): set<DomainId> {
    set i | 0 <= i < |rows| :: rows[i].id
  }

  /** The rows so far: distinct, each nested in the rows before it. */
  ghost predicate Placed(domains: Domains, visited: set<DomainId>, output: seq<Row>) {
    && visited == RowIds(output) <= domains.Keys
    && (forall i, j :: 0 <= i < j < |output| ==> output[i].id != output[j].id)
    && (forall i {:trigger output[..i]} :: 0 <= i < |output| ==> Nested(domains, output[..i], output[i]))
  }

  ghost predicate Waiting(domains: Domains, pending: seq<Row>, output: seq<Row>) {
    forall i :: 0 <= i < |pending| ==> Nested(domains, output, pending[i])
  }

  /** Every child of a visited domain is visited or waiting. */
  ghost predicate Closed(domains: Domains, visited: set<DomainId>, pending: seq<Row>) {
    forall c :: c in domains && EffectiveParent(domains, c).Some? && EffectiveParent(domains, c).value in visited ==>
      c in visited || c in RowIds(pending)
  }

  /** The children of a visited row, as they are pushed: the greatest first. */
  function Pushed(descendants: seq<DomainId>, trail: seq<bool>): (rows: seq<Row>)
    ensures |rows| == |descendants|
    ensures forall i :: 0 <= i < |rows| ==> rows[i] == Row(descendants[|rows| - 1 - i], trail + [i == 0])
  {
    seq(|descendants|, i requires 0 <= i < |descendants| => Row(descendants[|descendants| - 1 - i], trail + [i == 0]))
  }

  lemma PushedIds(descendants: seq<DomainId>, trail: seq<bool>)
    ensures RowIds(Pushed(descendants, trail)) == Ids(descendants)
  {
    var rows := Pushed(descendants, trail);
    forall d | d in descendants ensures d in RowIds(rows) {
      var i :| 0 <= i < |descendants| && descendants[i] == d;
      assert rows[|rows| - 1 - i].id == d;
    }
  }

  /** An ascending list's final element is its last sibling, and no other is. */
  lemma LastOfChildren(domains: Domains, p: Option<DomainId>, descendants: seq<DomainId>, i: nat)
    requires Ascending(descendants) && Ids(descendants) == ChildSet(domains, p)
    requires i < |descendants|
    ensures descendants[i] in domains && EffectiveParent(domains, descendants[i]) == p
    ensures LastSibling(domains, descendants[i]) <==> i == |descendants| - 1
  {
    var d, n := descendants[i], |descendants| - 1;
    assert d in Ids(descendants);
    if i < n {
      assert descendants[n] in Ids(descendants);
    } else {
      forall c | c in domains && EffectiveParent(domains, c) == p ensures c <= d {
        assert c in Ids(descendants);
        var k :| 0 <= k < |descendants| && descendants[k] == c;
      }
    }
  }

  lemma NestedGrows(domains: Domains, output: seq<Row>, more: seq<Row>, r: Row)
    requires Nested(domains, output, r)
    ensures Nested(domains, output + more, r)
  {
    if |r.trail| > 1 {
      var j :| 0 <= j < |output| && ParentRow(domains, output[j], r);
      assert (output + more)[j] == output[j];
    }
  }

  lemma VisitPlaces(domains: Domains, visited: set<DomainId>, output: seq<Row>, row: Row)
    requires Placed(domains, visited, output)
    requires Nested(domains, output, row) && row.id !in visited
    ensures Placed(domains, visited + {row.id}, output + [row])
  {
    var output' := output + [row];
    assert RowIds(output') == RowIds(output) + {row.id} by {
      assert forall i :: 0 <= i < |output| ==> output'[i] == output[i];
      assert output'[|output|] == row;
    }
    forall i, j | 0 <= i < j < |output'| ensures output'[i].id != output'[j].id {
      assert i < |output| ==> output'[i].id in RowIds(output);
    }
    forall i | 0 <= i < |output'| ensures Nested(domains, output'[..i], output'[i]) {
      assert output'[..i] == output[..i];
      assert output[..|output|] == output;
    }
  }

  lemma VisitWaits(domains: Domains, pending: seq<Row>, output: seq<Row>, row: Row, descendants: seq<DomainId>)
    requires Waiting(domains, pending, output) && |row.trail| >= 1
    requires Ascending(descendants) && Ids(descendants) == ChildSet(domains, Some(row.id))
    ensures Waiting(domains, pending + Pushed(descendants, row.trail), output + [row])
  {
    var rows := Pushed(descendants, row.trail);
    forall i | 0 <= i < |pending| ensures Nested(domains, output + [row], pending[i]) {
      NestedGrows(domains, output, [row], pending[i]);
    }
    forall i | 0 <= i < |rows| ensures Nested(domains, output + [row], rows[i]) {
      LastOfChildren(domains, Some(row.id), descendants, |rows| - 1 - i);
      assert (output + [row])[|output|] == row;
      assert ParentRow(domains, row, rows[i]);
    }
  }

  lemma RowIdsConcat(a: seq<Row>, b: seq<Row>)
    ensures RowIds(a + b) == RowIds(a) + RowIds(b)
  {
    forall i | 0 <= i < |a| ensures a[i].id in RowIds(a + b) { assert (a + b)[i] == a[i]; }
    forall i | 0 <= i < |b| ensures b[i].id in RowIds(a + b) { assert (a + b)[|a| + i] == b[i]; }
  }

  lemma VisitCloses(domains: Domains, visited: set<DomainId>, pending: seq<Row>, row: Row, descendants: seq<DomainId>)
    requires Closed(domains, visited, pending + [row])
    requires Ids(descendants) == ChildSet(domains, Some(row.id))
    ensures Closed(domains, visited + {row.id}, pending + Pushed(descendants, row.trail))
  {
    RowIdsConcat(pending, [row]);
    RowIdsConcat(pending, Pushed(descendants, row.trail));
    PushedIds(descendants, row.trail);
    assert RowIds([row]) == {row.id} by { assert [row][0].id == row.id; }
  }

  // ----- order, when the recorded parents are acyclic -----

  /** A numbering in which parents come before children; one exists exactly when there is no cycle. */
  ghost predicate IsRank(domains: Domains, rank: map<DomainId, nat>) {
    && domains.Keys <= rank.Keys
    && forall d :: d in domains && EffectiveParent(domains, d).Some? ==>
        rank[EffectiveParent(domains, d).value] < rank[d]
  }

  /** The ancestors of a domain from its root down, itself included. */
  ghost function Path(domains: Domains, rank: map<DomainId, nat>, d: DomainId): (path: seq<DomainId>)
    requires IsRank(domains, rank) && d in domains
    ensures path != []
    decreases rank[d]
  {
    var p := EffectiveParent(domains, d);
    if p.None? then [d] else Path(domains, rank, p.value) + [d]
  }

  /** One last-sibling bit for each domain on the path. */
  ghost function TrailOf(domains: Domains, rank: map<DomainId, nat>, d: DomainId): seq<bool>
    requires IsRank(domains, rank) && d in domains
    decreases rank[d]
  {
    var p := EffectiveParent(domains, d);
    (if p.None? then [] else TrailOf(domains, rank, p.value)) + [LastSibling(domains, d)]
  }

  /** The paths part ways, `a` at the smaller ID. */
  ghost predicate Diverges(a: seq<DomainId>, b: seq<DomainId>, k: nat) {
    k < |a| && k < |b| && a[..k] == b[..k] && a[k] < b[k]
  }

  ghost predicate Before(a: seq<DomainId>, b: seq<DomainId>) {
    exists k: nat :: Diverges(a, b, k)
  }

  /** Preorder: ancestors first, siblings' subtrees by ascending ID. */
  ghost predicate Precedes(a: seq<DomainId>, b: seq<DomainId>) {
    (|a| < |b| && a == b[..|a|]) || Before(a, b)
  }

  lemma BeforeExtends(a: seq<DomainId>, b: seq<DomainId>, x: seq<DomainId>, y: seq<DomainId>)
    requires Before(a, b)
    ensures Before(a + x, b + y)
  {
    var k: nat :| Diverges(a, b, k);
    assert (a + x)[..k] == a[..k] && (b + y)[..k] == b[..k];
    assert Diverges(a + x, b + y, k);
  }

  lemma PrecedesExtends(a: seq<DomainId>, b: seq<DomainId>, y: seq<DomainId>)
    requires Precedes(a, b)
    ensures Precedes(a, b + y)
  {
    if Before(a, b) {
      BeforeExtends(a, b, [], y);
      assert a + [] == a;
    } else {
      assert (b + y)[..|a|] == b[..|a|];
    }
  }

  ghost predicate TrueTrails(domains: Domains, rank: map<DomainId, nat>, rows: seq<Row>)
    requires IsRank(domains, rank)
  {
    forall i :: 0 <= i < |rows| ==> rows[i].id in domains && rows[i].trail == TrailOf(domains, rank, rows[i].id)
  }

  ghost predicate Ordered(domains: Domains, rank: map<DomainId, nat>, output: seq<Row>)
    requires IsRank(domains, rank) && TrueTrails(domains, rank, output)
  {
    forall i, j :: 0 <= i < j < |output| ==>
      Precedes(Path(domains, rank, output[i].id), Path(domains, rank, output[j].id))
  }

  /** The top of the stack, which is last, comes first. */
  ghost predicate Stacked(domains: Domains, rank: map<DomainId, nat>, pending: seq<Row>)
    requires IsRank(domains, rank) && TrueTrails(domains, rank, pending)
  {
    forall i, j :: 0 <= i < j < |pending| ==>
      Before(Path(domains, rank, pending[j].id), Path(domains, rank, pending[i].id))
  }

  ghost predicate Ahead(domains: Domains, rank: map<DomainId, nat>, output: seq<Row>, pending: seq<Row>)
    requires IsRank(domains, rank) && TrueTrails(domains, rank, output) && TrueTrails(domains, rank, pending)
  {
    forall i, j :: 0 <= i < |output| && 0 <= j < |pending| ==>
      Precedes(Path(domains, rank, output[i].id), Path(domains, rank, pending[j].id))
  }

  /** Output rows in preorder with true trails; the waiting rows likewise, and entirely after the output. */
  ghost predicate InOrder(domains: Domains, rank: map<DomainId, nat>, pending: seq<Row>, output: seq<Row>)
    requires IsRank(domains, rank)
  {
    && TrueTrails(domains, rank, output) && TrueTrails(domains, rank, pending)
    && Ordered(domains, rank, output)
    && Stacked(domains, rank, pending)
    && Ahead(domains, rank, output, pending)
  }

  /** Everything from row `from` on lies in the subtree of `root`. */
  ghost predicate Under(domains: Domains, rank: map<DomainId, nat>, rows: seq<Row>, from: nat, root: DomainId)
    requires IsRank(domains, rank) && root in domains
  {
    forall i :: from <= i < |rows| ==>
      rows[i].id in domains && Path(domains, rank, root) <= Path(domains, rank, rows[i].id)
  }

  lemma PopOrder(domains: Domains, rank: map<DomainId, nat>, pending: seq<Row>, output: seq<Row>)
    requires IsRank(domains, rank) && pending != []
    requires InOrder(domains, rank, pending, output)
    ensures InOrder(domains, rank, pending[..|pending| - 1], output)
  {
  }

  /** Siblings part ways at their own IDs. */
  lemma SiblingOrder(up: seq<DomainId>, x: DomainId, y: DomainId)
    requires x < y
    ensures Before(up + [x], up + [y])
  {
    assert (up + [x])[..|up|] == up == (up + [y])[..|up|];
    assert Diverges(up + [x], up + [y], |up|);
  }

  lemma ChildPath(domains: Domains, rank: map<DomainId, nat>, row: Row, descendants: seq<DomainId>, i: nat)
    requires IsRank(domains, rank) && row.id in domains && row.trail == TrailOf(domains, rank, row.id)
    requires Ascending(descendants) && Ids(descendants) == ChildSet(domains, Some(row.id))
    requires i < |descendants|
    ensures var child := Pushed(descendants, row.trail)[i];
            && child.id in domains
            && Path(domains, rank, child.id) == Path(domains, rank, row.id) + [child.id]
            && child.trail == TrailOf(domains, rank, child.id)
  {
    LastOfChildren(domains, Some(row.id), descendants, |descendants| - 1 - i);
  }

  /** The rows of a row's children, as they are pushed. */
  ghost predicate Offspring(domains: Domains, rank: map<DomainId, nat>, row: Row, children: seq<Row>)
    requires IsRank(domains, rank) && row.id in domains
  {
    && (forall k :: 0 <= k < |children| ==>
          children[k].id in domains &&
          Path(domains, rank, children[k].id) == Path(domains, rank, row.id) + [children[k].id])
    && TrueTrails(domains, rank, children)
    && Stacked(domains, rank, children)
  }

  lemma PushedPaths(domains: Domains, rank: map<DomainId, nat>, row: Row, descendants: seq<DomainId>)
    requires IsRank(domains, rank) && row.id in domains && row.trail == TrailOf(domains, rank, row.id)
    requires Ascending(descendants) && Ids(descendants) == ChildSet(domains, Some(row.id))
    ensures var children := Pushed(descendants, row.trail);
            && TrueTrails(domains, rank, children)
            && forall k :: 0 <= k < |children| ==>
                 Path(domains, rank, children[k].id) == Path(domains, rank, row.id) + [children[k].id]
  {
    var children := Pushed(descendants, row.trail);
    forall k | 0 <= k < |children|
      ensures children[k].id in domains && children[k].trail == TrailOf(domains, rank, children[k].id)
      ensures Path(domains, rank, children[k].id) == Path(domains, rank, row.id) + [children[k].id]
    {
      ChildPath(domains, rank, row, descendants, k);
    }
  }

  lemma SiblingsStacked(domains: Domains, rank: map<DomainId, nat>, up: seq<DomainId>, children: seq<Row>)
    requires IsRank(domains, rank) && TrueTrails(domains, rank, children)
    requires forall k :: 0 <= k < |children| ==> Path(domains, rank, children[k].id) == up + [children[k].id]
    requires forall i, j :: 0 <= i < j < |children| ==> children[j].id < children[i].id
    ensures Stacked(domains, rank, children)
  {
    forall i, j | 0 <= i < j < |children|
      ensures Before(Path(domains, rank, children[j].id), Path(domains, rank, children[i].id))
    {
      SiblingOrder(up, children[j].id, children[i].id);
    }
  }

  lemma PushedOffspring(domains: Domains, rank: map<DomainId, nat>, row: Row, descendants: seq<DomainId>)
    requires IsRank(domains, rank) && row.id in domains && row.trail == TrailOf(domains, rank, row.id)
    requires Ascending(descendants) && Ids(descendants) == ChildSet(domains, Some(row.id))
    ensures Offspring(domains, rank, row, Pushed(descendants, row.trail))
  {
    PushedPaths(domains, rank, row, descendants);
    SiblingsStacked(domains, rank, Path(domains, rank, row.id), Pushed(descendants, row.trail));
  }

  /** The children of the row on top of the stack come before everything below it. */
  lemma ChildBefore(up: seq<DomainId>, below: seq<DomainId>, child: DomainId)
    requires Before(up, below)
    ensures Before(up + [child], below)
  {
    BeforeExtends(up, below, [child], []);
    assert below + [] == below;
  }

  lemma StackedConcat(domains: Domains, rank: map<DomainId, nat>, a: seq<Row>, b: seq<Row>)
    requires IsRank(domains, rank) && TrueTrails(domains, rank, a) && TrueTrails(domains, rank, b)
    requires Stacked(domains, rank, a) && Stacked(domains, rank, b)
    requires forall i, j :: 0 <= i < |a| && 0 <= j < |b| ==>
             Before(Path(domains, rank, b[j].id), Path(domains, rank, a[i].id))
    ensures TrueTrails(domains, rank, a + b) && Stacked(domains, rank, a + b)
  {
  }

  lemma StackedBelow(domains: Domains, rank: map<DomainId, nat>, pending: seq<Row>, row: Row)
    requires IsRank(domains, rank)
    requires TrueTrails(domains, rank, pending + [row]) && Stacked(domains, rank, pending + [row])
    ensures TrueTrails(domains, rank, pending) && Stacked(domains, rank, pending) && row.id in domains
    ensures forall i :: 0 <= i < |pending| ==> Before(Path(domains, rank, row.id), Path(domains, rank, pending[i].id))
  {
    var was := pending + [row];
    assert was[|pending|] == row;
    assert forall i :: 0 <= i < |pending| ==> was[i] == pending[i];
  }

  lemma VisitStack(domains: Domains, rank: map<DomainId, nat>, pending: seq<Row>, row: Row, children: seq<Row>)
    requires IsRank(domains, rank)
    requires TrueTrails(domains, rank, pending + [row]) && Stacked(domains, rank, pending + [row])
    requires row.id in domains && Offspring(domains, rank, row, children)
    ensures TrueTrails(domains, rank, pending + children)
    ensures Stacked(domains, rank, pending + children)
  {
    StackedBelow(domains, rank, pending, row);
    forall i, j | 0 <= i < |pending| && 0 <= j < |children|
      ensures Before(Path(domains, rank, children[j].id), Path(domains, rank, pending[i].id))
    {
      ChildBefore(Path(domains, rank, row.id), Path(domains, rank, pending[i].id), children[j].id);
    }
    StackedConcat(domains, rank, pending, children);
  }

  lemma AheadOfChildren(domains: Domains, rank: map<DomainId, nat>, output: seq<Row>, row: Row, children: seq<Row>)
    requires IsRank(domains, rank) && TrueTrails(domains, rank, output)
    requires row.id in domains && row.trail == TrailOf(domains, rank, row.id) && Offspring(domains, rank, row, children)
    requires forall i :: 0 <= i < |output| ==>
               Precedes(Path(domains, rank, output[i].id), Path(domains, rank, row.id))
    ensures TrueTrails(domains, rank, output + [row]) && Ahead(domains, rank, output + [row], children)
  {
    var output' := output + [row];
    forall i, j | 0 <= i < |output'| && 0 <= j < |children|
      ensures Precedes(Path(domains, rank, output'[i].id), Path(domains, rank, children[j].id))
    {
      if i < |output| {
        PrecedesExtends(Path(domains, rank, output[i].id), Path(domains, rank, row.id), [children[j].id]);
      }
    }
  }

  lemma AheadConcat(domains: Domains, rank: map<DomainId, nat>, output: seq<Row>, a: seq<Row>, b: seq<Row>)
    requires IsRank(domains, rank) && TrueTrails(domains, rank, output)
    requires TrueTrails(domains, rank, a) && TrueTrails(domains, rank, b)
    requires Ahead(domains, rank, output, a) && Ahead(domains, rank, output, b)
    ensures TrueTrails(domains, rank, a + b) && Ahead(domains, rank, output, a + b)
  {
  }

  lemma VisitAhead(domains: Domains, rank: map<DomainId, nat>, pending: seq<Row>, output: seq<Row>, row: Row,
                   children: seq<Row>)
    requires IsRank(domains, rank)
    requires InOrder(domains, rank, pending + [row], output)
    requires row.id in domains && row.trail == TrailOf(domains, rank, row.id) && Offspring(domains, rank, row, children)
    ensures TrueTrails(domains, rank, output + [row]) && TrueTrails(domains, rank, pending + children)
    ensures Ahead(domains, rank, output + [row], pending + children)
  {
    var was := pending + [row];
    StackedBelow(domains, rank, pending, row);
    assert was[|pending|] == row && forall i :: 0 <= i < |pending| ==> was[i] == pending[i];
    AheadOfChildren(domains, rank, output, row, children);
    AheadConcat(domains, rank, output + [row], pending, children);
  }

  lemma VisitOutput(domains: Domains, rank: map<DomainId, nat>, pending: seq<Row>, output: seq<Row>, row: Row)
    requires IsRank(domains, rank)
    requires InOrder(domains, rank, pending + [row], output)
    ensures row.id in domains && row.trail == TrailOf(domains, rank, row.id)
    ensures TrueTrails(domains, rank, output + [row])
    ensures Ordered(domains, rank, output + [row])
  {
    assert (pending + [row])[|pending|] == row;
  }

  lemma VisitOrder(domains: Domains, rank: map<DomainId, nat>, pending: seq<Row>, output: seq<Row>, row: Row,
                   descendants: seq<DomainId>)
    requires IsRank(domains, rank)
    requires InOrder(domains, rank, pending + [row], output)
    requires Ascending(descendants) && Ids(descendants) == ChildSet(domains, Some(row.id))
    ensures InOrder(domains, rank, pending + Pushed(descendants, row.trail), output + [row])
  {
    VisitOutput(domains, rank, pending, output, row);
    PushedOffspring(domains, rank, row, descendants);
    VisitStack(domains, rank, pending, row, Pushed(descendants, row.trail));
    VisitAhead(domains, rank, pending, output, row, Pushed(descendants, row.trail));
  }

  // ----- the traversal -----

  ghost predicate InPreorder(domains: Domains, pending: seq<Row>, output: seq<Row>, from: nat, root: DomainId)
    requires root in domains
  {
    forall rank :: IsRank(domains, rank) ==>
      InOrder(domains, rank, pending, output) && Under(domains, rank, output, from, root) &&
      Under(domains, rank, pending, 0, root)
  }

  lemma PopPreorder(domains: Domains, pending: seq<Row>, output: seq<Row>, from: nat, root: DomainId)
    requires root in domains && pending != []
    requires InPreorder(domains, pending, output, from, root)
    ensures InPreorder(domains, pending[..|pending| - 1], output, from, root)
  {
    forall rank | IsRank(domains, rank)
      ensures InOrder(domains, rank, pending[..|pending| - 1], output)
      ensures Under(domains, rank, output, from, root) && Under(domains, rank, pending[..|pending| - 1], 0, root)
    {
      PopOrder(domains, rank, pending, output);
    }
  }

  lemma VisitUnder(domains: Domains, rank: map<DomainId, nat>, pending: seq<Row>, output: seq<Row>, row: Row,
                   children: seq<Row>, from: nat, root: DomainId)
    requires IsRank(domains, rank) && root in domains
    requires Under(domains, rank, output, from, root) && Under(domains, rank, pending + [row], 0, root)
    requires row.id in domains && Offspring(domains, rank, row, children)
    ensures Under(domains, rank, output + [row], from, root)
    ensures Under(domains, rank, pending + children, 0, root)
  {
    var n := |pending|;
    assert (pending + [row])[n] == row;
    forall i | 0 <= i < |pending + children|
      ensures (pending + children)[i].id in domains
      ensures Path(domains, rank, root) <= Path(domains, rank, (pending + children)[i].id)
    {
      if i < n { assert (pending + [row])[i] == pending[i]; }
    }
  }

  lemma VisitPreorder(domains: Domains, pending: seq<Row>, output: seq<Row>, row: Row, descendants: seq<DomainId>,
                      from: nat, root: DomainId)
    requires root in domains
    requires InPreorder(domains, pending + [row], output, from, root)
    requires Ascending(descendants) && Ids(descendants) == ChildSet(domains, Some(row.id))
    ensures InPreorder(domains, pending + Pushed(descendants, row.trail), output + [row], from, root)
  {
    forall rank | IsRank(domains, rank)
      ensures InOrder(domains, rank, pending + Pushed(descendants, row.trail), output + [row])
      ensures Under(domains, rank, output + [row], from, root)
      ensures Under(domains, rank, pending + Pushed(descendants, row.trail), 0, root)
    {
      VisitOutput(domains, rank, pending, output, row);
      VisitOrder(domains, rank, pending, output, row, descendants);
      PushedOffspring(domains, rank, row, descendants);
      VisitUnder(domains, rank, pending, output, row, Pushed(descendants, row.trail), from, root);
    }
  }

  /** A traversal in progress: the rows placed, what is waiting, and their order. */
  ghost predicate Traversing(domains: Domains, visited: set<DomainId>, pending: seq<Row>, output: seq<Row>,
                             from: nat, root: DomainId)
  {
    && root in domains
    && Placed(domains, visited, output)
    && Waiting(domains, pending, output)
    && Closed(domains, visited, pending)
    && InPreorder(domains, pending, output, from, root)
  }

  /** A row seen before is dropped. */
  lemma SkipStep(domains: Domains, visited: set<DomainId>, pending: seq<Row>, output: seq<Row>, from: nat,
                 root: DomainId, row: Row)
    requires Traversing(domains, visited, pending + [row], output, from, root)
    requires row.id in visited
    ensures Traversing(domains, visited, pending, output, from, root)
  {
    PopPreorder(domains, pending + [row], output, from, root);
    assert (pending + [row])[..|pending|] == pending;
    RowIdsConcat(pending, [row]);
    assert RowIds([row]) == {row.id} by { assert [row][0].id == row.id; }
    forall i | 0 <= i < |pending| ensures Nested(domains, output, pending[i]) {
      assert (pending + [row])[i] == pending[i];
    }
  }

  /** A new row is put out and replaced by its children. */
  lemma VisitStep(domains: Domains, visited: set<DomainId>, pending: seq<Row>, output: seq<Row>, from: nat,
                  root: DomainId, row: Row, descendants: seq<DomainId>)
    requires Traversing(domains, visited, pending + [row], output, from, root)
    requires row.id !in visited
    requires Ascending(descendants) && Ids(descendants) == ChildSet(domains, Some(row.id))
    ensures Traversing(domains, visited + {row.id}, pending + Pushed(descendants, row.trail), output + [row], from,
            root)
    ensures row.id in domains
  {
    assert (pending + [row])[|pending|] == row;
    assert Nested(domains, output, row);
    assert Waiting(domains, pending, output) by {
      forall i | 0 <= i < |pending| ensures Nested(domains, output, pending[i]) {
        assert (pending + [row])[i] == pending[i];
      }
    }
    VisitPlaces(domains, visited, output, row);
    VisitWaits(domains, pending, output, row, descendants);
    VisitCloses(domains, visited, pending, row, descendants);
    VisitPreorder(domains, pending, output, row, descendants, from, root);
  }

  /** What is left to do: unvisited domains first, then waiting rows. */
  ghost function Unvisited(domains: Domains, visited: set<DomainId>): set<DomainId> {
    domains.Keys - visited
  }

  /** One turn of the loop: pop a row, and unless it was seen before put it out and push its children. */
  method VisitTop(ghost domains: Domains, children: Children, seen: set<DomainId>, waiting: seq<Row>, rows: seq<Row>,
                  ghost from: nat, ghost root: DomainId)
    returns (visited: set<DomainId>, pending: seq<Row>, output: seq<Row>)
    requires Lists(domains, children) && waiting != []
    requires Traversing(domains, seen, waiting, rows, from, root)
    ensures Traversing(domains, visited, pending, output, from, root)
    ensures rows <= output && seen <= visited && waiting[|waiting| - 1].id in visited
    ensures Unvisited(domains, visited) < Unvisited(domains, seen) ||
            (visited == seen && |pending| < |waiting|)
  {
    var row, rest := waiting[|waiting| - 1], waiting[..|waiting| - 1];
    assert waiting == rest + [row];
    if row.id in seen {
      SkipStep(domains, seen, rest, rows, from, root, row);
      visited, pending, output := seen, rest, rows;
    } else {
      assert Nested(domains, rows, waiting[|waiting| - 1]);
      var descendants := Listed(children, Some(row.id));
      VisitStep(domains, seen, rest, rows, from, root, row, descendants);
      visited := seen + {row.id};
      assert row.id in Unvisited(domains, seen) && row.id !in Unvisited(domains, visited);
      output := rows + [row];
      pending := PushChildren(rest, descendants, row.trail);
    }
  }

  /** The inner `append`: visits everything reachable from one start. */
  method Append(ghost domains: Domains, id: DomainId, trail: seq<bool>, children: Children,
                seen: set<DomainId>, rows: seq<Row>)
    returns (visited: set<DomainId>, output: seq<Row>)
    requires Lists(domains, children)
    requires Traversing(domains, seen, [Row(id, trail)], rows, |rows|, id)
    ensures Traversing(domains, visited, [], output, |rows|, id)
    ensures rows <= output && seen <= visited && id in visited
  {
    visited, output := seen, rows;
    var pending := [Row(id, trail)];
    while pending != []
      invariant Traversing(domains, visited, pending, output, |rows|, id)
      invariant rows <= output && seen <= visited
      invariant id in visited || pending == [Row(id, trail)]
      decreases Unvisited(domains, visited), |pending|
    {
      visited, pending, output := VisitTop(domains, children, visited, pending, output, |rows|, id);
    }
  }

  method PushChildren(rest: seq<Row>, descendants: seq<DomainId>, trail: seq<bool>) returns (pending: seq<Row>)
    ensures pending == rest + Pushed(descendants, trail)
  {
    pending := rest;
    var last := if descendants == [] then 0 else |descendants| - 1;
    for index := |descendants| downto 0
      invariant pending == rest + Pushed(descendants, trail)[..|descendants| - index]
    {
      pending := pending + [Row(descendants[index], trail + [index == last])];
    }
  }

  /** Rows produced so far for the first `n` roots. */
  ghost predicate RootsDone(domains: Domains, roots: seq<DomainId>, n: nat, output: seq<Row>)
    requires n <= |roots|
  {
    forall rank :: IsRank(domains, rank) ==>
      && InOrder(domains, rank, [], output)
      && forall i :: 0 <= i < |output| ==> output[i].id in domains && Path(domains, rank, output[i].id)[0] in roots[..n]
  }

  lemma NextRoot(domains: Domains, roots: seq<DomainId>, n: nat, output: seq<Row>)
    requires Ascending(roots) && Ids(roots) == ChildSet(domains, None)
    requires n < |roots| && RootsDone(domains, roots, n, output)
    ensures roots[n] in domains && EffectiveParent(domains, roots[n]).None?
    ensures LastSibling(domains, roots[n]) <==> n == |roots| - 1
    ensures InPreorder(domains, [Row(roots[n], [n == |roots| - 1])], output, |output|, roots[n])
  {
    var root, row := roots[n], Row(roots[n], [n == |roots| - 1]);
    LastOfChildren(domains, None, roots, n);
    forall rank | IsRank(domains, rank)
      ensures InOrder(domains, rank, [row], output)
      ensures Under(domains, rank, output, |output|, root) && Under(domains, rank, [row], 0, root)
    {
      assert Path(domains, rank, root) == [root];
      forall i | 0 <= i < |output| ensures Precedes(Path(domains, rank, output[i].id), [root]) {
        assert Diverges(Path(domains, rank, output[i].id), [root], 0);
      }
    }
  }

  lemma RootDone(domains: Domains, roots: seq<DomainId>, n: nat, before: seq<Row>, output: seq<Row>)
    requires n < |roots| && RootsDone(domains, roots, n, before)
    requires roots[n] in domains && EffectiveParent(domains, roots[n]).None?
    requires before <= output && InPreorder(domains, [], output, |before|, roots[n])
    ensures RootsDone(domains, roots, n + 1, output)
  {
    assert roots[..n + 1] == roots[..n] + [roots[n]];
    forall rank | IsRank(domains, rank)
      ensures InOrder(domains, rank, [], output)
      ensures forall i :: 0 <= i < |output| ==>
              output[i].id in domains && Path(domains, rank, output[i].id)[0] in roots[..n + 1]
    {
      assert Path(domains, rank, roots[n]) == [roots[n]];
      forall i | 0 <= i < |output|
        ensures output[i].id in domains && Path(domains, rank, output[i].id)[0] in roots[..n + 1]
      {
        if i < |before| { assert output[i] == before[i]; }
      }
    }
  }

  /** Without cycles everything is reached from the roots. */
  lemma {:induction false} AllReached(domains: Domains, rank: map<DomainId, nat>, visited: set<DomainId>, d: DomainId)
    requires IsRank(domains, rank) && d in domains
    requires Closed(domains, visited, []) && ChildSet(domains, None) <= visited
    ensures d in visited
    decreases rank[d]
  {
    var p := EffectiveParent(domains, d);
    if p.None? {
      assert d in ChildSet(domains, None);
    } else {
      AllReached(domains, rank, visited, p.value);
    }
  }

  lemma RootsReach(domains: Domains, visited: set<DomainId>, roots: seq<DomainId>)
    requires Closed(domains, visited, []) && visited <= domains.Keys
    requires Ids(roots) == ChildSet(domains, None) && forall i :: 0 <= i < |roots| ==> roots[i] in visited
    ensures Acyclic(domains) ==> visited == domains.Keys
  {
    assert Ids(roots) <= visited;
    forall rank, d | IsRank(domains, rank) && d in domains ensures d in visited {
      AllReached(domains, rank, visited, d);
    }
  }

  method AppendRoot(ghost domains: Domains, children: Children, roots: seq<DomainId>, index: nat,
                    seen: set<DomainId>, rows: seq<Row>)
    returns (visited: set<DomainId>, output: seq<Row>)
    requires Lists(domains, children) && Ascending(roots) && Ids(roots) == ChildSet(domains, None) && index < |roots|
    requires Placed(domains, seen, rows) && Closed(domains, seen, [])
    requires RootsDone(domains, roots, index, rows)
    ensures Placed(domains, visited, output) && Closed(domains, visited, [])
    ensures seen <= visited && roots[index] in visited
    ensures RootsDone(domains, roots, index + 1, output)
  {
    NextRoot(domains, roots, index, rows);
    StartTraversing(domains, seen, rows, Row(roots[index], [index == |roots| - 1]));
    visited, output := Append(domains, roots[index], [index == |roots| - 1], children, seen, rows);
    RootDone(domains, roots, index, rows, output);
  }

  lemma NoRows(domains: Domains, roots: seq<DomainId>)
    ensures Placed(domains, {}, []) && Closed(domains, {}, []) && RootsDone(domains, roots, 0, [])
  {
  }

  /** The first pass: each root and what it reaches. */
  method AppendRoots(ghost domains: Domains, children: Children, roots: seq<DomainId>)
    returns (visited: set<DomainId>, output: seq<Row>)
    requires Lists(domains, children) && Ascending(roots) && Ids(roots) == ChildSet(domains, None)
    ensures Placed(domains, visited, output) && Closed(domains, visited, [])
    ensures forall i :: 0 <= i < |roots| ==> roots[i] in visited
    ensures RootsDone(domains, roots, |roots|, output)
  {
    output := [];
    visited := {};
    NoRows(domains, roots);
    for index := 0 to |roots|
      invariant Placed(domains, visited, output) && Closed(domains, visited, [])
      invariant forall i :: 0 <= i < index ==> roots[i] in visited
      invariant RootsDone(domains, roots, index, output)
    {
      visited, output := AppendRoot(domains, children, roots, index, visited, output);
    }
  }

  // ----- the part that the roots reach -----

  /** The number of effective ancestors, for a domain whose ancestors end in a root. */
  ghost predicate AtDepth(domains: Domains, d: DomainId, k: nat)
    requires d in domains
    decreases k
  {
    var p := EffectiveParent(domains, d);
    if k == 0 then p.None? else p.Some? && AtDepth(domains, p.value, k - 1)
  }

  ghost predicate Rooted(domains: Domains, d: DomainId) {
    d in domains && exists k: nat :: AtDepth(domains, d, k)
  }

  /** The domains that are neither on nor below a cycle of parents. */
  ghost function RootedPart(domains: Domains): Domains {
    map d | d in domains && Rooted(domains, d) :: domains[d]
  }

  lemma {:induction false} DepthUnique(domains: Domains, d: DomainId, k: nat, m: nat)
    requires d in domains && AtDepth(domains, d, k) && AtDepth(domains, d, m)
    ensures k == m
    decreases k
  {
    if k > 0 && m > 0 { DepthUnique(domains, EffectiveParent(domains, d).value, k - 1, m - 1); }
  }

  lemma RootedUp(domains: Domains, d: DomainId)
    requires d in domains && EffectiveParent(domains, d).Some?
    ensures Rooted(domains, d) <==> Rooted(domains, EffectiveParent(domains, d).value)
  {
    var p := EffectiveParent(domains, d).value;
    if Rooted(domains, d) {
      var k: nat :| AtDepth(domains, d, k);
      assert AtDepth(domains, p, k - 1);
    }
    if Rooted(domains, p) {
      var k: nat :| AtDepth(domains, p, k);
      assert AtDepth(domains, d, k + 1);
    }
  }

  lemma RootIsRooted(domains: Domains, d: DomainId)
    requires d in domains && EffectiveParent(domains, d).None?
    ensures Rooted(domains, d)
  {
    assert AtDepth(domains, d, 0);
  }

  lemma RootedParent(domains: Domains, d: DomainId)
    requires d in RootedPart(domains)
    ensures EffectiveParent(RootedPart(domains), d) == EffectiveParent(domains, d)
  {
    if EffectiveParent(domains, d).Some? { RootedUp(domains, d); }
  }

  /** The part keeps the children of everything in it. */
  lemma RootedChildren(domains: Domains, p: Option<DomainId>)
    requires p.Some? ==> p.value in RootedPart(domains)
    ensures ChildSet(RootedPart(domains), p) == ChildSet(domains, p)
  {
    var part := RootedPart(domains);
    forall d ensures d in ChildSet(part, p) <==> d in ChildSet(domains, p) {
      if d in part { RootedParent(domains, d); }
      if d in ChildSet(domains, p) {
        if p.None? { RootIsRooted(domains, d); } else { RootedUp(domains, d); }
      }
    }
  }

  lemma RootedLists(domains: Domains, children: Children)
    requires Lists(domains, children)
    ensures Lists(RootedPart(domains), children)
  {
    forall p: Option<DomainId> | p.Some? ==> p.value in RootedPart(domains)
      ensures Ascending(Listed(children, p)) && Ids(Listed(children, p)) == ChildSet(RootedPart(domains), p)
    {
      RootedChildren(domains, p);
    }
  }

  ghost function Depth(domains: Domains, d: DomainId): (k: nat)
    requires Rooted(domains, d)
    ensures AtDepth(domains, d, k)
  {
    var k: nat :| AtDepth(domains, d, k);
    k
  }

  lemma RootedAcyclic(domains: Domains)
    ensures Acyclic(RootedPart(domains))
  {
    var part := RootedPart(domains);
    var rank := map d | d in part :: Depth(domains, d);
    forall d | d in part && EffectiveParent(part, d).Some? ensures rank[EffectiveParent(part, d).value] < rank[d] {
      RootedParent(domains, d);
      var p := EffectiveParent(domains, d).value;
      RootedUp(domains, d);
      DepthUnique(domains, p, Depth(domains, p), Depth(domains, d) - 1);
    }
    assert IsRank(part, rank);
  }

  lemma {:induction false} RankedIsRooted(domains: Domains, rank: map<DomainId, nat>, d: DomainId)
    requires IsRank(domains, rank) && d in domains
    ensures Rooted(domains, d)
    decreases rank[d]
  {
    var p := EffectiveParent(domains, d);
    if p.None? {
      RootIsRooted(domains, d);
    } else {
      RankedIsRooted(domains, rank, p.value);
      RootedUp(domains, d);
    }
  }

  /** Without cycles the part is everything. */
  lemma AcyclicAllRooted(domains: Domains)
    requires Acyclic(domains)
    ensures RootedPart(domains) == domains
  {
    var rank :| IsRank(domains, rank);
    forall d | d in domains ensures Rooted(domains, d) { RankedIsRooted(domains, rank, d); }
  }

  lemma RootedLast(domains: Domains, d: DomainId)
    requires d in RootedPart(domains)
    ensures LastSibling(RootedPart(domains), d) <==> LastSibling(domains, d)
  {
    var part, p := RootedPart(domains), EffectiveParent(domains, d);
    RootedParent(domains, d);
    RootedChildren(domains, p);
    forall c ensures c in part && EffectiveParent(part, c) == p <==> c in domains && EffectiveParent(domains, c) == p {
      assert c in ChildSet(part, p) <==> c in ChildSet(domains, p);
    }
  }

  lemma RootedNested(domains: Domains, output: seq<Row>, r: Row)
    requires Nested(RootedPart(domains), output, r)
    ensures Nested(domains, output, r)
  {
    RootedParent(domains, r.id);
    RootedLast(domains, r.id);
    if |r.trail| > 1 {
      var j :| 0 <= j < |output| && ParentRow(RootedPart(domains), output[j], r);
      assert ParentRow(domains, output[j], r);
    }
  }

  lemma RootedPlaced(domains: Domains, output: seq<Row>)
    requires Placed(RootedPart(domains), RootedPart(domains).Keys, output)
    ensures Placed(domains, RootedPart(domains).Keys, output) && Closed(domains, RootedPart(domains).Keys, [])
  {
    var part := RootedPart(domains);
    forall i | 0 <= i < |output| ensures Nested(domains, output[..i], output[i]) {
      RootedNested(domains, output[..i], output[i]);
    }
    forall c | c in domains && EffectiveParent(domains, c).Some? && EffectiveParent(domains, c).value in part.Keys
      ensures c in part.Keys
    {
      RootedUp(domains, c);
    }
  }

  // ----- the whole tree -----

  /** Preorder by ascending ID with true trails, for every ranking of the domains. */
  ghost predicate Preordered(domains: Domains, rows: seq<Row>) {
    forall rank :: IsRank(domains, rank) ==> TrueTrails(domains, rank, rows) && Ordered(domains, rank, rows)
  }

  /** Every domain exactly once, each below its parent's earlier row. First comes everything that
      the roots reach, in preorder by ascending ID whatever cycles there are elsewhere; without
      cycles that is everything. */
  method DomainTree(domains: Domains) returns (output: seq<Row>, ghost rooted: nat)
    ensures Placed(domains, domains.Keys, output)
    ensures rooted <= |output| && RowIds(output[..rooted]) == RootedPart(domains).Keys
    ensures Acyclic(RootedPart(domains)) && Preordered(RootedPart(domains), output[..rooted])
    ensures Acyclic(domains) ==> rooted == |output| && Preordered(domains, output)
  {
    var children := CollectChildren(domains);
    var roots := Listed(children, None);
    ghost var part := RootedPart(domains);
    RootedLists(domains, children);
    RootedAcyclic(domains);
    var visited, rows := AppendRoots(part, children, roots);
    RootsReach(part, visited, roots);
    RootedPlaced(domains, rows);
    if Acyclic(domains) { AcyclicAllRooted(domains); }
    rooted := |rows|;
    visited, output := AppendRest(domains, children, visited, rows);
    assert output[..rooted] == rows;
    RootsPreordered(part, roots, rows);
  }

  lemma RootsPreordered(domains: Domains, roots: seq<DomainId>, rows: seq<Row>)
    requires RootsDone(domains, roots, |roots|, rows)
    ensures Preordered(domains, rows)
  {
  }

  lemma StartTraversing(domains: Domains, visited: set<DomainId>, output: seq<Row>, row: Row)
    requires Placed(domains, visited, output) && Closed(domains, visited, [])
    requires Nested(domains, output, row)
    requires InPreorder(domains, [row], output, |output|, row.id)
    ensures Traversing(domains, visited, [row], output, |output|, row.id)
  {
  }

  ghost predicate Acyclic(domains: Domains) {
    exists rank :: IsRank(domains, rank)
  }

  method AppendNew(domains: Domains, children: Children, id: DomainId, seen: set<DomainId>, rows: seq<Row>)
    returns (visited: set<DomainId>, output: seq<Row>)
    requires Lists(domains, children) && id in domains
    requires Placed(domains, seen, rows) && Closed(domains, seen, [])
    requires Acyclic(domains) ==> id in seen
    ensures Placed(domains, visited, output) && Closed(domains, visited, [])
    ensures seen <= visited && id in visited && rows <= output
    ensures id in seen ==> visited == seen && output == rows
  {
    visited, output := seen, rows;
    if id !in visited {
      CycleTraversing(domains, visited, output, id);
      visited, output := Append(domains, id, [true], children, visited, output);
    }
  }

  /** Whatever the roots do not reach lies on or below a cycle. */
  method AppendRest(domains: Domains, children: Children, seen: set<DomainId>, rows: seq<Row>)
    returns (visited: set<DomainId>, output: seq<Row>)
    requires Lists(domains, children)
    requires Placed(domains, seen, rows) && Closed(domains, seen, [])
    requires Acyclic(domains) ==> seen == domains.Keys
    ensures Placed(domains, visited, output) && visited == domains.Keys
    ensures rows <= output && (Acyclic(domains) ==> output == rows)
  {
    visited, output := seen, rows;
    var ids := SetToSeq(domains.Keys);
    var remaining := SortDistinct(ids);
    for index := 0 to |remaining|
      invariant Placed(domains, visited, output) && Closed(domains, visited, [])
      invariant seen <= visited && rows <= output
      invariant forall i :: 0 <= i < index ==> remaining[i] in visited
      invariant seen == domains.Keys ==> visited == seen && output == rows
    {
      assert remaining[index] in Ids(remaining);
      visited, output := AppendNew(domains, children, remaining[index], visited, output);
    }
    forall d | d in domains ensures d in visited { assert d in Ids(remaining); }
  }

  lemma CycleTraversing(domains: Domains, visited: set<DomainId>, output: seq<Row>, id: DomainId)
    requires Placed(domains, visited, output) && Closed(domains, visited, [])
    requires id in domains && !Acyclic(domains)
    ensures Traversing(domains, visited, [Row(id, [true])], output, |output|, id)
  {
  }

  method SetToSeq(s: set<DomainId>) returns (ids: seq<DomainId>)
    ensures Distinct(ids) && Ids(ids) == s
  {
    ids := [];
    var rest := s;
    while rest != {}
      invariant rest <= s && Ids(ids) == s - rest && Distinct(ids)
      decreases rest
    {
      var d :| d in rest;
      assert d !in Ids(ids);
      IdsExtend(ids, d);
      ids := ids + [d];
      rest := rest - {d};
    }
  }

  // ----- the order determines the rows -----

  lemma DivergenceExcludes(a: seq<DomainId>, b: seq<DomainId>, k: nat)
    requires Diverges(a, b, k)
    ensures !Before(b, a) && !(|b| <= |a| && b == a[..|b|]) && !(|a| <= |b| && a == b[..|a|])
  {
    forall m: nat ensures !Diverges(b, a, m) {
      assert m < k ==> a[m] == a[..k][m] && b[m] == b[..k][m];
      assert k < m <= |a| && m <= |b| ==> a[k] == a[..m][k] && b[k] == b[..m][k];
    }
    assert |b| <= |a| ==> a[..|b|][k] == a[k];
    assert |a| <= |b| ==> b[..|a|][k] == b[k];
  }

  lemma PrecedesAsymmetric(a: seq<DomainId>, b: seq<DomainId>)
    requires Precedes(a, b)
    ensures !Precedes(b, a)
  {
    if Before(a, b) {
      var k: nat :| Diverges(a, b, k);
      DivergenceExcludes(a, b, k);
    } else {
      forall k: nat ensures !Diverges(b, a, k) {
        if Diverges(b, a, k) { DivergenceExcludes(b, a, k); }
      }
    }
  }

  /** A row missing from the common beginning of two listings comes later. */
  lemma LaterRow(a: seq<Row>, b: seq<Row>, i: nat) returns (j: nat)
    requires i < |a| && i < |b| && forall m :: 0 <= m < i ==> a[m] == b[m]
    requires forall m :: 0 <= m < i ==> a[m].id != a[i].id
    requires HasRow(b, a[i].id) && a[i].id != b[i].id
    ensures i < j < |b| && b[j].id == a[i].id
  {
    j :| 0 <= j < |b| && b[j].id == a[i].id;
  }

  /** All domains, each once, with true trails in preorder. */
  ghost predicate Listing(domains: Domains, rank: map<DomainId, nat>, rows: seq<Row>)
    requires IsRank(domains, rank)
  {
    && Complete(domains, rows) && DistinctIds(rows)
    && TrueTrails(domains, rank, rows) && Ordered(domains, rank, rows)
  }

  ghost predicate HasRow(rows: seq<Row>, d: DomainId) {
    exists i :: 0 <= i < |rows| && rows[i].id == d
  }

  ghost predicate Complete(domains: Domains, rows: seq<Row>) {
    forall d {:trigger HasRow(rows, d)} :: d in domains ==> HasRow(rows, d)
  }

  ghost predicate DistinctIds(rows: seq<Row>) {
    forall i, j :: 0 <= i < j < |rows| ==> rows[i].id != rows[j].id
  }

  lemma RowsAgree(domains: Domains, rank: map<DomainId, nat>, a: seq<Row>, b: seq<Row>, i: nat)
    requires IsRank(domains, rank) && Listing(domains, rank, a) && Listing(domains, rank, b)
    requires i < |a| && i < |b| && forall m :: 0 <= m < i ==> a[m] == b[m]
    ensures a[i] == b[i]
  {
    if a[i].id != b[i].id {
      var j := LaterRow(a, b, i);
      var k := LaterRow(b, a, i);
      PrecedesAsymmetric(Path(domains, rank, a[i].id), Path(domains, rank, a[k].id));
      assert false;
    }
  }

  /** Two complete preorder listings of the same domains are equal, so the contract
      of `DomainTree` leaves no choice when parents are acyclic. */
  lemma PreorderUnique(domains: Domains, rank: map<DomainId, nat>, a: seq<Row>, b: seq<Row>)
    requires IsRank(domains, rank) && Listing(domains, rank, a) && Listing(domains, rank, b)
    ensures a == b
  {
    RowCount(domains, a);
    RowCount(domains, b);
    var n := 0;
    while n < |a|
      invariant 0 <= n <= |a| && forall m :: 0 <= m < n ==> a[m] == b[m]
    {
      RowsAgree(domains, rank, a, b, n);
      n := n + 1;
    }
  }

  /** The rows that `DomainTree` returns for the rooted part are its listing. */
  lemma RootedIsListing(domains: Domains, rank: map<DomainId, nat>, output: seq<Row>, rooted: nat)
    requires Placed(domains, domains.Keys, output) && rooted <= |output|
    requires RowIds(output[..rooted]) == RootedPart(domains).Keys && Preordered(RootedPart(domains), output[..rooted])
    requires IsRank(RootedPart(domains), rank)
    ensures Listing(RootedPart(domains), rank, output[..rooted])
  {
    var rows := output[..rooted];
    assert DistinctIds(rows) by { assert forall i :: 0 <= i < rooted ==> rows[i] == output[i]; }
    forall d | d in RootedPart(domains) ensures HasRow(rows, d) { assert d in RowIds(rows); }
  }

  lemma RowCount(domains: Domains, rows: seq<Row>)
    requires Complete(domains, rows) && DistinctIds(rows)
    requires forall i :: 0 <= i < |rows| ==> rows[i].id in domains
    ensures |rows| == |domains.Keys|
  {
    assert RowIds(rows) == domains.Keys by {
      forall d | d in domains ensures d in RowIds(rows) { assert HasRow(rows, d); }
    }
    DistinctRows(rows);
  }

  lemma {:induction false} DistinctRows(rows: seq<Row>)
    requires DistinctIds(rows)
    ensures |RowIds(rows)| == |rows|
  {
    if rows != [] {
      var n := |rows| - 1;
      DistinctRows(rows[..n]);
      assert rows == rows[..n] + [rows[n]];
      RowIdsConcat(rows[..n], [rows[n]]);
      assert RowIds([rows[n]]) == {rows[n].id} by { assert [rows[n]][0].id == rows[n].id; }
    }
  }
}
