/** The organization tree, the scope a caller gets from it, and the policy a target resolves to. */
module Tenants {
  import opened Wrappers

  type OrgId = nat

  datatype Role = SuperAdmin | MspAdmin | OrgAdmin | OrgUser

  datatype Identity = Identity(org: OrgId, role: Role)

  /** The organizations table: the parent column and the order in which the rows were created. */
  datatype Forest = Forest(parent: map<OrgId, Option<OrgId>>, serial: map<OrgId, nat>)

  /** Parents exist, as the foreign key demands, and were created before their children. */
  predicate ValidForest(f: Forest) {
    && f.serial.Keys == f.parent.Keys
    && forall o :: o in f.parent && f.parent[o].Some? ==>
         f.parent[o].value in f.parent && f.serial[f.parent[o].value] < f.serial[o]
  }

  /** An organization followed by its ancestors. */
  function Chain(f: Forest, o: OrgId): (c: seq<OrgId>)
    requires ValidForest(f) && o in f.parent
    ensures |c| > 0 && c[0] == o
    decreases f.serial[o]
  {
    match f.parent[o]
    case None => [o]
    case Some(p) => [o] + Chain(f, p)
  }

  /** `o` is `root` or lies below it. */
  predicate Descends(f: Forest, root: OrgId, o: OrgId)
    requires ValidForest(f)
  {
    o in f.parent && root in Chain(f, o)
  }

  // ---------- chains ----------

  lemma {:induction false} ChainFalls(f: Forest, o: OrgId, i: nat)
    requires ValidForest(f) && o in f.parent && i < |Chain(f, o)|
    ensures Chain(f, o)[i] in f.parent
    ensures Chain(f, Chain(f, o)[i]) == Chain(f, o)[i..]
    ensures i > 0 ==> f.serial[Chain(f, o)[i]] < f.serial[o]
    decreases i
  {
    if i == 0 {
      assert Chain(f, o)[0..] == Chain(f, o);
    } else {
      var p := f.parent[o].value;
      ChainFalls(f, p, i - 1);
      assert Chain(f, o)[i..] == Chain(f, p)[i - 1..];
    }
  }

  lemma ChainDistinct(f: Forest, o: OrgId, i: nat, j: nat)
    requires ValidForest(f) && o in f.parent && i < j < |Chain(f, o)|
    ensures Chain(f, o)[i] != Chain(f, o)[j]
  {
    ChainFalls(f, o, i);
    ChainFalls(f, Chain(f, o)[i], j - i);
    assert Chain(f, o)[i..][j - i] == Chain(f, o)[j];
  }

  /** A walk from child to parent. */
  predicate ParentPath(f: Forest, path: seq<OrgId>) {
    forall i :: 0 <= i < |path| - 1 ==> path[i] in f.parent && f.parent[path[i]] == Some(path[i + 1])
  }

  lemma {:induction false} PathFalls(f: Forest, path: seq<OrgId>)
    requires ValidForest(f) && ParentPath(f, path) && |path| > 1
    ensures path[|path| - 1] in f.parent && f.serial[path[|path| - 1]] < f.serial[path[0]]
    decreases |path|
  {
    assert f.parent[path[0]] == Some(path[1]);
    if |path| > 2 {
      assert ParentPath(f, path[1..]) by {
        forall i | 0 <= i < |path[1..]| - 1
          ensures path[1..][i] in f.parent && f.parent[path[1..][i]] == Some(path[1..][i + 1])
        {
          assert path[1..][i] == path[i + 1];
        }
      }
      PathFalls(f, path[1..]);
    }
  }

  /** No organization is its own proper ancestor. */
  lemma NoCycle(f: Forest, path: seq<OrgId>)
    requires ValidForest(f) && ParentPath(f, path) && |path| > 1
    ensures path[0] != path[|path| - 1]
  {
    PathFalls(f, path);
  }

  // ---------- scopes ----------

  datatype Scope = Scope(superAdmin: bool, org: OrgId, visible: seq<OrgId>) {
    predicate Allows(id: OrgId) {
      superAdmin || id in visible || id == org
    }

    predicate CanAdmin(role: Role, id: OrgId) {
      superAdmin || (Allows(id) && role in {SuperAdmin, MspAdmin, OrgAdmin})
    }
  }

  ghost predicate IsScopeOf(f: Forest, caller: Identity, scope: Scope)
    requires ValidForest(f)
  {
    && scope.superAdmin == (caller.role == SuperAdmin)
    && scope.org == caller.org
    && (!scope.superAdmin ==>
          && (forall i, j :: 0 <= i < j < |scope.visible| ==> scope.visible[i] != scope.visible[j])
          && (forall o :: o in scope.visible <==> Descends(f, caller.org, o)))
  }

  lemma DescendsTrans(f: Forest, a: OrgId, b: OrgId, o: OrgId)
    requires ValidForest(f) && Descends(f, b, o) && Descends(f, a, b)
    ensures Descends(f, a, o)
  {
    var i :| 0 <= i < |Chain(f, o)| && Chain(f, o)[i] == b;
    ChainFalls(f, o, i);
    var j :| 0 <= j < |Chain(f, b)| && Chain(f, b)[j] == a;
    assert Chain(f, o)[i + j] == a;
  }

  /** Two roots of one organization are themselves related. */
  lemma DescendsFork(f: Forest, a: OrgId, b: OrgId, o: OrgId)
    requires ValidForest(f) && Descends(f, a, o) && Descends(f, b, o)
    ensures Descends(f, a, b) || Descends(f, b, a)
  {
    var i :| 0 <= i < |Chain(f, o)| && Chain(f, o)[i] == a;
    var j :| 0 <= j < |Chain(f, o)| && Chain(f, o)[j] == b;
    ChainFalls(f, o, i);
    ChainFalls(f, o, j);
    if i <= j {
      assert Chain(f, a)[j - i] == b;
    } else {
      assert Chain(f, b)[i - j] == a;
    }
  }

  /** The scopes of two callers that are not super admins are nested or disjoint. */
  lemma ScopesNestOrAreDisjoint(f: Forest, a: Identity, b: Identity, s: Scope, t: Scope)
    requires ValidForest(f) && IsScopeOf(f, a, s) && IsScopeOf(f, b, t)
    requires a.role != SuperAdmin && b.role != SuperAdmin
    ensures || (forall o :: s.Allows(o) ==> t.Allows(o))
            || (forall o :: t.Allows(o) ==> s.Allows(o))
            || (forall o :: !s.Allows(o) || !t.Allows(o))
  {
    if o :| s.Allows(o) && t.Allows(o) && a.org != b.org {
      if o in f.parent {
        assert Chain(f, o)[0] == o;
        DescendsFork(f, a.org, b.org, o);
        if Descends(f, a.org, b.org) {
          forall x | t.Allows(x) ensures s.Allows(x) {
            if x != b.org { DescendsTrans(f, a.org, b.org, x); }
          }
        } else {
          forall x | s.Allows(x) ensures t.Allows(x) {
            if x != a.org { DescendsTrans(f, b.org, a.org, x); }
          }
        }
      }
    }
  }

  // ---------- the descendants walk ----------

  predicate AtDepth(f: Forest, root: OrgId, o: OrgId, k: nat)
    requires ValidForest(f)
  {
    o in f.parent && k < |Chain(f, o)| && Chain(f, o)[k] == root
  }

  lemma OneDepth(f: Forest, root: OrgId, o: OrgId, j: nat, k: nat)
    requires ValidForest(f) && AtDepth(f, root, o, j) && AtDepth(f, root, o, k)
    ensures j == k
  {
    if j < k {
      ChainDistinct(f, o, j, k);
    } else if k < j {
      ChainDistinct(f, o, k, j);
    }
  }

  lemma DepthOfChild(f: Forest, root: OrgId, o: OrgId, k: nat)
    requires ValidForest(f) && o in f.parent
    ensures AtDepth(f, root, o, k + 1) <==> f.parent[o].Some? && AtDepth(f, root, f.parent[o].value, k)
  {
  }

  /** Something below level `k` has an ancestor on level `k`. */
  lemma LevelAbove(f: Forest, root: OrgId, o: OrgId, j: nat, k: nat)
    requires ValidForest(f) && AtDepth(f, root, o, j) && k <= j
    ensures AtDepth(f, root, Chain(f, o)[j - k], k)
  {
    ChainFalls(f, o, j - k);
  }

  function Children(f: Forest, level: set<OrgId>): set<OrgId> {
    set o | o in f.parent && f.parent[o].Some? && f.parent[o].value in level
  }

  ghost predicate Level(f: Forest, root: OrgId, k: nat, level: set<OrgId>)
    requires ValidForest(f)
  {
    forall o :: o in level <==> AtDepth(f, root, o, k)
  }

  ghost predicate AllAbove(f: Forest, root: OrgId, k: nat, visible: seq<OrgId>)
    requires ValidForest(f)
  {
    forall o :: o in visible <==> exists i: nat :: i < k && AtDepth(f, root, o, i)
  }

  lemma NextLevel(f: Forest, root: OrgId, k: nat, level: set<OrgId>)
    requires ValidForest(f) && Level(f, root, k, level)
    ensures Level(f, root, k + 1, Children(f, level))
  {
    forall o | o in f.parent ensures o in Children(f, level) <==> AtDepth(f, root, o, k + 1) {
      DepthOfChild(f, root, o, k);
    }
  }

  predicate NoRepeats(visible: seq<OrgId>) {
    forall i, j :: 0 <= i < j < |visible| ==> visible[i] != visible[j]
  }

  /** Appends one level of the recursive query to the result rows, in any order. */
  method AppendLevel(visible: seq<OrgId>, level: set<OrgId>) returns (r: seq<OrgId>)
    requires NoRepeats(visible) && forall o :: o in level ==> o !in visible
    ensures NoRepeats(r)
    ensures forall o :: o in r <==> o in visible || o in level
  {
    r := visible;
    var rest := level;
    while rest != {}
      invariant rest <= level && NoRepeats(r)
      invariant forall o :: o in r <==> o in visible || o in level - rest
      decreases rest
    {
      var o :| o in rest;
      assert o !in r;
      r := r + [o];
      rest := rest - {o};
    }
  }

  /** The recursive query of the scope: own organization, children, their children, and so on.
      It stops because the tree has no cycle, and lists every descendant once. */
  method ScopeForIdentity(f: Forest, caller: Identity) returns (scope: Scope)
    requires ValidForest(f)
    ensures IsScopeOf(f, caller, scope)
  {
    if caller.role == SuperAdmin {
      return Scope(true, caller.org, []);
    }
    var root := caller.org;
    var visible: seq<OrgId> := [];
    var level := if root in f.parent then {root} else {};
    ghost var k: nat := 0;
    forall o ensures o in level <==> AtDepth(f, root, o, 0) {
      if o in f.parent { assert Chain(f, o)[0] == o; }
    }
    while level != {}
      invariant Level(f, root, k, level) && AllAbove(f, root, k, visible) && NoRepeats(visible)
      decreases f.parent.Keys - (set o | o in visible), level != {}
    {
      forall o | o in level ensures o !in visible {
        if i: nat :| i < k && AtDepth(f, root, o, i) {
          OneDepth(f, root, o, i, k);
        }
      }
      var before := visible;
      visible := AppendLevel(visible, level);
      ghost var some :| some in level;
      assert some in f.parent.Keys - (set o | o in before) && some in visible;
      assert f.parent.Keys - (set o | o in visible) < f.parent.Keys - (set o | o in before);
      NextLevel(f, root, k, level);
      level := Children(f, level);
      k := k + 1;
    }
    WalkIsComplete(f, root, k, visible);
    scope := Scope(false, root, visible);
  }

  lemma WalkIsComplete(f: Forest, root: OrgId, k: nat, visible: seq<OrgId>)
    requires ValidForest(f) && Level(f, root, k, {}) && AllAbove(f, root, k, visible)
    ensures forall o :: o in visible <==> Descends(f, root, o)
  {
    forall o | Descends(f, root, o) ensures o in visible {
      var j :| 0 <= j < |Chain(f, o)| && Chain(f, o)[j] == root;
      assert AtDepth(f, root, o, j);
      if j >= k {
        LevelAbove(f, root, o, j, k);
      }
    }
  }

  // ---------- the steps that change the tree ----------

  function Insert(f: Forest, id: OrgId, parent: Option<OrgId>, serial: nat): Forest {
    Forest(f.parent[id := parent], f.serial[id := serial])
  }

  function Remove(f: Forest, id: OrgId): Forest {
    Forest(f.parent - {id}, f.serial - {id})
  }

  predicate IsLeaf(f: Forest, id: OrgId) {
    forall o :: o in f.parent ==> f.parent[o] != Some(id)
  }

  predicate Insertable(f: Forest, id: OrgId, parent: Option<OrgId>, serial: nat) {
    && id !in f.parent
    && (parent.Some? ==> parent.value in f.parent)
    && forall o :: o in f.serial ==> f.serial[o] < serial
  }

  lemma InsertValid(f: Forest, id: OrgId, parent: Option<OrgId>, serial: nat)
    requires ValidForest(f) && Insertable(f, id, parent, serial)
    ensures ValidForest(Insert(f, id, parent, serial))
  {
  }

  lemma {:induction false} InsertKeepsChain(f: Forest, id: OrgId, parent: Option<OrgId>, serial: nat, o: OrgId)
    requires ValidForest(f) && Insertable(f, id, parent, serial) && o in f.parent
    ensures Chain(Insert(f, id, parent, serial), o) == Chain(f, o)
    decreases f.serial[o]
  {
    if f.parent[o].Some? {
      InsertKeepsChain(f, id, parent, serial, f.parent[o].value);
    }
  }

  /** Creating an organization adds it to exactly the scopes that contain its parent, and
      changes no other membership. */
  lemma InsertScopes(f: Forest, id: OrgId, parent: Option<OrgId>, serial: nat, root: OrgId, o: OrgId)
    requires ValidForest(f) && Insertable(f, id, parent, serial)
    ensures Descends(Insert(f, id, parent, serial), root, o) <==>
            if o == id then root == id || (parent.Some? && Descends(f, root, parent.value))
            else Descends(f, root, o)
  {
    var g := Insert(f, id, parent, serial);
    if o == id {
      if parent.Some? {
        InsertKeepsChain(f, id, parent, serial, parent.value);
        assert Chain(g, id) == [id] + Chain(f, parent.value);
      }
    } else if o in f.parent {
      InsertKeepsChain(f, id, parent, serial, o);
    }
  }

  lemma {:induction false} RemoveKeepsChain(f: Forest, id: OrgId, o: OrgId)
    requires ValidForest(f) && IsLeaf(f, id) && o in f.parent && o != id
    ensures id !in Chain(f, o)
    ensures Chain(Remove(f, id), o) == Chain(f, o)
    decreases f.serial[o]
  {
    if f.parent[o].Some? {
      RemoveKeepsChain(f, id, f.parent[o].value);
    }
  }

  /** Deleting a leaf removes it from every scope and changes no other membership. */
  lemma RemoveScopes(f: Forest, id: OrgId, root: OrgId, o: OrgId)
    requires ValidForest(f) && IsLeaf(f, id)
    ensures ValidForest(Remove(f, id))
    ensures Descends(Remove(f, id), root, o) <==> o != id && Descends(f, root, o)
  {
    if o in f.parent && o != id {
      RemoveKeepsChain(f, id, o);
    }
  }

  datatype Outcome = Created | Updated | Deleted | BadRequest | Forbidden | Failed | NotFound

  /** The organizations table and the handlers that write it. */
  class Organizations {
    var parent: map<OrgId, Option<OrgId>>
    var system: set<OrgId>
    var serial: map<OrgId, nat>
    var next: nat

    ghost predicate Valid()
      reads this
    {
      ValidForest(Tree()) && forall o :: o in serial ==> serial[o] < next
    }

    function Tree(): Forest
      reads this
    {
      Forest(parent, serial)
    }

    constructor ()
      ensures Valid() && parent == map[]
    {
      parent, system, serial, next := map[], {}, map[], 0;
    }

    /** `id` is the fresh identifier the database generates; `wellNamed` and `slugFree` tell whether
        name and slug are acceptable and the slug is unused.  The parent a caller below super admin
        names, or its own organization, must lie in its scope. */
    method Create(caller: Identity, id: OrgId, requested: Option<OrgId>, wellNamed: bool, slugFree: bool)
      returns (r: Outcome)
      requires Valid() && id !in parent
      modifies this
      ensures Valid() && system == old(system)
      ensures var up := if caller.role == SuperAdmin || requested.Some? then requested else Some(caller.org);
              && (r == Created ==> Tree() == Insert(old(Tree()), id, up, old(next))
                                   && Insertable(old(Tree()), id, up, old(next)))
              && (r != Created ==> Tree() == old(Tree()))
              && (r == Created <==>
                    && wellNamed && slugFree
                    && (up.Some? ==> up.value in old(parent))
                    && (caller.role == SuperAdmin
                        || (caller.role == MspAdmin && (up == Some(caller.org) || Descends(old(Tree()), caller.org, up.value)))))
    {
      var scope := ScopeForIdentity(Tree(), caller);
      if !scope.superAdmin && caller.role != MspAdmin {
        return Forbidden;
      }
      if !wellNamed {
        return BadRequest;
      }
      var up := requested;
      if !scope.superAdmin {
        var target := if requested.Some? then requested.value else caller.org;
        if !scope.CanAdmin(caller.role, target) {
          return Forbidden;
        }
        up := Some(target);
      }
      if !slugFree || (up.Some? && up.value !in parent) {
        return Failed;
      }
      parent := parent[id := up];
      serial := serial[id := next];
      next := next + 1;
      InsertValid(old(Tree()), id, up, old(next));
      r := Created;
    }

    /** Names, slugs and the active flag may change; the parent never does. */
    method Update(caller: Identity, id: OrgId) returns (r: Outcome)
      requires Valid()
      ensures Valid()
      ensures r == Updated <==>
                id in parent
                && (caller.role == SuperAdmin || (Descends(Tree(), caller.org, id) && caller.role in {MspAdmin, OrgAdmin}))
      ensures r == NotFound ==> id !in parent
    {
      var scope := ScopeForIdentity(Tree(), caller);
      if !scope.CanAdmin(caller.role, id) {
        return Forbidden;
      }
      if id in parent {
        assert Chain(Tree(), id)[0] == id;
      }
      r := if id in parent then Updated else NotFound;
    }

    /** A row with children cannot be deleted: the foreign key restricts it. */
    method Delete(caller: Identity, id: OrgId) returns (r: Outcome)
      requires Valid()
      modifies this
      ensures Valid() && system == old(system)
      ensures r == Deleted <==>
                caller.role == SuperAdmin && id in old(parent) && id !in system && IsLeaf(old(Tree()), id)
      ensures Tree() == if r == Deleted then Remove(old(Tree()), id) else old(Tree())
    {
      if caller.role != SuperAdmin {
        return Forbidden;
      }
      if id !in parent || id in system {
        return NotFound;
      }
      if exists o :: o in parent && parent[o] == Some(id) {
        return Failed;
      }
      RemoveScopes(Tree(), id, id, id);
      parent := parent - {id};
      serial := serial - {id};
      r := Deleted;
    }
  }
}
