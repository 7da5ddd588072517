/**
 Role inheritance as a graph on role names, and the closure the resolver computes over it.
 Nothing here assumes that names or ids are unique, that parents exist, or that parent
 links are acyclic.
 */
module RoleGraph {
  import opened Wrappers

  datatype Role = Role(id: string, name: string, parentId: Option<string>)

  /** The lookup table built from the list of roles; a later role replaces an earlier one. */
  function NameIndex(roles: seq<Role>): (index: map<string, Role>)
    ensures forall n :: n in index ==> index[n] in roles && index[n].name == n
    ensures forall r :: r in roles ==> r.name in index
  {
    if roles == [] then map[]
    else
      var last := roles[|roles| - 1];
      assert roles == roles[..|roles| - 1] + [last];
      NameIndex(roles[..|roles| - 1])[last.name := last]
  }

  /** The first role in the list with the given id. */
  function FindById(roles: seq<Role>, id: string): (found: Option<Role>)
    ensures found.Some? ==> found.value in roles && found.value.id == id
    ensures found.None? ==> forall r :: r in roles ==> r.id != id
  {
    if roles == [] then None
    else if roles[0].id == id then Some(roles[0])
    else FindById(roles[1..], id)
  }

  /** Of several roles with one name the last counts, of several with one id the first. */
  lemma {:induction false} WhichRoleCounts(roles: seq<Role>, i: nat)
    requires i < |roles|
    ensures (forall r :: r in roles[i + 1..] ==> r.name != roles[i].name) ==>
              NameIndex(roles)[roles[i].name] == roles[i]
    ensures (forall r :: r in roles[..i] ==> r.id != roles[i].id) ==>
              FindById(roles, roles[i].id) == Some(roles[i])
  {
    assert roles == roles[..i] + [roles[i]] + roles[i + 1..];
    if forall r :: r in roles[i + 1..] ==> r.name != roles[i].name {
      LastNameCounts(roles[..i], roles[i], roles[i + 1..]);
    }
    if forall r :: r in roles[..i] ==> r.id != roles[i].id {
      FirstIdCounts(roles[..i], roles[i], roles[i + 1..]);
    }
  }

  lemma {:induction false} NameIndexAppend(roles: seq<Role>, last: Role)
    ensures NameIndex(roles + [last]) == NameIndex(roles)[last.name := last]
  {
    assert (roles + [last])[..|roles|] == roles;
  }

  lemma {:induction false} LastNameCounts(before: seq<Role>, role: Role, after: seq<Role>)
    requires forall r :: r in after ==> r.name != role.name
    ensures role.name in NameIndex(before + [role] + after)
    ensures NameIndex(before + [role] + after)[role.name] == role
  {
    if after == [] {
      NameIndexAppend(before, role);
      assert before + [role] + after == before + [role];
    } else {
      var last, rest := after[|after| - 1], after[..|after| - 1];
      assert after == rest + [last];
      assert before + [role] + after == (before + [role] + rest) + [last];
      LastNameCounts(before, role, rest);
      NameIndexAppend(before + [role] + rest, last);
    }
  }

  lemma {:induction false} FirstIdCounts(before: seq<Role>, role: Role, after: seq<Role>)
    requires forall r :: r in before ==> r.id != role.id
    ensures FindById(before + [role] + after, role.id) == Some(role)
  {
    if before != [] {
      assert (before + [role] + after)[1..] == before[1..] + [role] + after;
      FirstIdCounts(before[1..], role, after);
    }
  }

  predicate Known(roles: seq<Role>, name: string) {
    name in NameIndex(roles)
  }

  /** The parent of a role, if it has a non-empty parent id that some role carries. */
  function ParentOf(roles: seq<Role>, role: Role): (parent: Option<Role>)
    ensures parent.Some? ==> parent.value in roles && role.parentId == Some(parent.value.id)
  {
    if role.parentId.None? || role.parentId.value == "" then None
    else FindById(roles, role.parentId.value)
  }

  function ParentName(roles: seq<Role>, name: string): (parent: Option<string>)
    ensures parent.Some? ==> Known(roles, name) && Known(roles, parent.value)
  {
    if !Known(roles, name) then None
    else match ParentOf(roles, NameIndex(roles)[name])
      case None => None
      case Some(p) => Some(p.name)
  }

  ghost predicate UniqueRoles(roles: seq<Role>) {
    forall a, b :: a in roles && b in roles && (a.id == b.id || a.name == b.name) ==> a == b
  }

  /** With unique ids and names, a parent edge is a stored parent link between two rows. */
  lemma {:induction false} ParentNameMeaning(roles: seq<Role>, child: string, parent: string)
    requires UniqueRoles(roles)
    ensures ParentName(roles, child) == Some(parent) <==>
            exists c, p :: c in roles && p in roles && c.name == child && p.name == parent &&
                           c.parentId == Some(p.id) && p.id != ""
  {
    if c, p :|
      && c in roles && p in roles && c.name == child && p.name == parent
      && c.parentId == Some(p.id) && p.id != "" {
      assert NameIndex(roles)[child] == c;
      assert ParentOf(roles, c) == Some(p);
    }
  }

  // ---------------------------------------------------------------------------------------
  // Reachability: the reference meaning of inheritance

  ghost predicate IsPath(roles: seq<Role>, path: seq<string>) {
    && path != []
    && (forall i :: 0 <= i < |path| ==> Known(roles, path[i]))
    && (forall i, j :: 0 <= i < j < |path| && j == i + 1 ==> ParentName(roles, path[i]) == Some(path[j]))
  }

  ghost predicate PathBetween(roles: seq<Role>, path: seq<string>, from: string, to: string) {
    IsPath(roles, path) && path[0] == from && path[|path| - 1] == to
  }

  /** `to` is `from` itself or one of its ancestors, all of them known. */
  ghost predicate Reachable(roles: seq<Role>, from: string, to: string) {
    exists path :: PathBetween(roles, path, from, to)
  }

  lemma {:induction false} ReachableSelf(roles: seq<Role>, name: string)
    requires Known(roles, name)
    ensures Reachable(roles, name, name)
  {
    assert PathBetween(roles, [name], name, name);
  }

  lemma {:induction false} ReachableFromParent(roles: seq<Role>, name: string, parent: string, to: string)
    requires ParentName(roles, name) == Some(parent)
    requires Reachable(roles, parent, to)
    ensures Reachable(roles, name, to)
  {
    var path :| PathBetween(roles, path, parent, to);
    assert PathBetween(roles, [name] + path, name, to);
  }

  // ---------------------------------------------------------------------------------------
  // The closure

  predicate NoDuplicates(s: seq<string>) {
    forall i, j :: 0 <= i < j < |s| ==> s[i] != s[j]
  }

  /** The known names not yet visited: what bounds the recursion on any graph. */
  function Unvisited(roles: seq<Role>, visited: seq<string>): set<string> {
    set n | n in NameIndex(roles).Keys && n !in visited
  }

  /** Appends `name` and then its ancestors, stopping at an unknown or already visited name. */
  function Collect(roles: seq<Role>, visited: seq<string>, name: string): (result: seq<string>)
    ensures visited <= result
    decreases Unvisited(roles, visited)
  {
    if name in visited || !Known(roles, name) then visited
    else
      assert name in Unvisited(roles, visited) && name !in Unvisited(roles, visited + [name]);
      match ParentName(roles, name)
      case None => visited + [name]
      case Some(parent) => Collect(roles, visited + [name], parent)
  }

  function CollectAll(roles: seq<Role>, visited: seq<string>, names: seq<string>): (result: seq<string>)
    ensures visited <= result
    decreases names
  {
    if names == [] then visited
    else CollectAll(roles, Collect(roles, visited, names[0]), names[1..])
  }

  function EffectiveRoles(roles: seq<Role>, names: seq<string>): seq<string> {
    CollectAll(roles, [], names)
  }

  // ---------------------------------------------------------------------------------------
  // The closure is exactly reachability

  /** Visited names are known, distinct, and closed under parents except possibly `pending`. */
  ghost predicate ClosedExcept(roles: seq<Role>, visited: seq<string>, pending: Option<string>) {
    && NoDuplicates(visited)
    && forall n :: n in visited ==>
         && Known(roles, n)
         && (ParentName(roles, n).Some? && ParentName(roles, n) != pending ==> ParentName(roles, n).value in visited)
  }

  lemma {:induction false} CollectExact(roles: seq<Role>, visited: seq<string>, name: string)
    requires ClosedExcept(roles, visited, Some(name))
    ensures ClosedExcept(roles, Collect(roles, visited, name), None)
    ensures Known(roles, name) ==> name in Collect(roles, visited, name)
    ensures forall n :: n in Collect(roles, visited, name) ==> n in visited || Reachable(roles, name, n)
    decreases Unvisited(roles, visited)
  {
    if name in visited || !Known(roles, name) {
    } else {
      assert name in Unvisited(roles, visited) && name !in Unvisited(roles, visited + [name]);
      ReachableSelf(roles, name);
      if ParentName(roles, name).Some? {
        var parent := ParentName(roles, name).value;
        CollectExact(roles, visited + [name], parent);
        forall n | n in Collect(roles, visited, name)
          ensures n in visited || Reachable(roles, name, n)
        {
          if n !in visited && n != name {
            ReachableFromParent(roles, name, parent, n);
          }
        }
      }
    }
  }

  /** A closed set of names contains every ancestor of its members. */
  lemma {:induction false} ClosedContainsPath(roles: seq<Role>, closed: seq<string>, path: seq<string>, i: nat)
    requires ClosedExcept(roles, closed, None)
    requires IsPath(roles, path) && path[0] in closed && i < |path|
    ensures path[i] in closed
  {
    if i > 0 {
      ClosedContainsPath(roles, closed, path, i - 1);
      assert ParentName(roles, path[i - 1]) == Some(path[i]);
    }
  }

  lemma {:induction false} CollectAllExact(roles: seq<Role>, visited: seq<string>, names: seq<string>)
    requires ClosedExcept(roles, visited, None)
    ensures ClosedExcept(roles, CollectAll(roles, visited, names), None)
    ensures forall n :: n in CollectAll(roles, visited, names) ==>
              n in visited || exists d :: d in names && Reachable(roles, d, n)
    ensures forall d :: d in names && Known(roles, d) ==> d in CollectAll(roles, visited, names)
    decreases names
  {
    if names != [] {
      var next := Collect(roles, visited, names[0]);
      CollectExact(roles, visited, names[0]);
      CollectAllExact(roles, next, names[1..]);
      forall n | n in CollectAll(roles, visited, names)
        ensures n in visited || exists d :: d in names && Reachable(roles, d, n)
      {
        if n !in next {
          var d :| d in names[1..] && Reachable(roles, d, n);
          assert d in names;
        } else if n !in visited {
          assert names[0] in names && Reachable(roles, names[0], n);
        }
      }
    }
  }

  ghost predicate Inherited(roles: seq<Role>, names: seq<string>, n: string) {
    exists d :: d in names && Reachable(roles, d, n)
  }

  /**
   For every role table and every request, resolution returns each known name reachable from
   a known requested name, once, and nothing else.
   */
  lemma {:induction false} EffectiveRolesExact(roles: seq<Role>, names: seq<string>)
    ensures NoDuplicates(EffectiveRoles(roles, names))
    ensures forall n :: n in EffectiveRoles(roles, names) <==> Inherited(roles, names, n)
  {
    var result := EffectiveRoles(roles, names);
    CollectAllExact(roles, [], names);
    forall n | Inherited(roles, names, n)
      ensures n in result
    {
      var d :| d in names && Reachable(roles, d, n);
      var path :| PathBetween(roles, path, d, n);
      ClosedContainsPath(roles, result, path, |path| - 1);
    }
  }

  // ---------------------------------------------------------------------------------------
  // The closure laws

  /** Resolution contains every known request, and more requests never give fewer roles. */
  lemma {:induction false} EffectiveRolesExtensiveMonotone(roles: seq<Role>, names: seq<string>, more: seq<string>)
    requires forall n :: n in names ==> n in more
    ensures forall n :: n in names && Known(roles, n) ==> n in EffectiveRoles(roles, names)
    ensures forall n :: n in EffectiveRoles(roles, names) ==> n in EffectiveRoles(roles, more)
  {
    CollectAllExact(roles, [], names);
    EffectiveRolesExact(roles, names);
    EffectiveRolesExact(roles, more);
    forall n | n in EffectiveRoles(roles, names)
      ensures n in EffectiveRoles(roles, more)
    {
      var d :| d in names && Reachable(roles, d, n);
      assert d in more;
    }
  }

  /** Requests made together give what the requests give separately. */
  lemma {:induction false} EffectiveRolesDistribute(roles: seq<Role>, left: seq<string>, right: seq<string>, n: string)
    ensures n in EffectiveRoles(roles, left + right) <==>
            n in EffectiveRoles(roles, left) || n in EffectiveRoles(roles, right)
  {
    EffectiveRolesExact(roles, left);
    EffectiveRolesExact(roles, right);
    EffectiveRolesExact(roles, left + right);
  }

  /** The order and repetition of requests do not matter to the set of roles. */
  lemma {:induction false} EffectiveRolesOrderIndependent(
      roles: seq<Role>, names: seq<string>, permuted: seq<string>, n: string)
    requires forall d :: d in names <==> d in permuted
    ensures n in EffectiveRoles(roles, names) <==> n in EffectiveRoles(roles, permuted)
  {
    EffectiveRolesExtensiveMonotone(roles, names, permuted);
    EffectiveRolesExtensiveMonotone(roles, permuted, names);
  }

  /** Names already visited add nothing. */
  lemma {:induction false} CollectAllVisited(roles: seq<Role>, visited: seq<string>, names: seq<string>)
    requires forall n :: n in names ==> n in visited
    ensures CollectAll(roles, visited, names) == visited
  {
    if names != [] {
      CollectAllVisited(roles, visited, names[1..]);
    }
  }

  lemma {:induction false} CollectAllConcat(roles: seq<Role>, visited: seq<string>, a: seq<string>, b: seq<string>)
    ensures CollectAll(roles, visited, a + b) == CollectAll(roles, CollectAll(roles, visited, a), b)
    decreases a
  {
    if a == [] {
      assert a + b == b;
    } else {
      assert (a + b)[1..] == a[1..] + b;
      CollectAllConcat(roles, Collect(roles, visited, a[0]), a[1..], b);
    }
  }

  /** Resolving a name starts with the name itself whenever it adds anything. */
  lemma {:induction false} CollectStartsWithName(roles: seq<Role>, visited: seq<string>, name: string)
    ensures Collect(roles, visited, name) == visited ||
            (|visited| < |Collect(roles, visited, name)| && Collect(roles, visited, name)[|visited|] == name)
  {
    if name !in visited && Known(roles, name) {
      assert (visited + [name])[|visited|] == name;
      assert visited + [name] <= Collect(roles, visited, name);
    }
  }

  /** If `visited` resolves to itself, so does what one more request makes of it. */
  lemma {:induction false} CollectFixpoint(roles: seq<Role>, visited: seq<string>, name: string)
    requires EffectiveRoles(roles, visited) == visited
    ensures EffectiveRoles(roles, Collect(roles, visited, name)) == Collect(roles, visited, name)
  {
    var result := Collect(roles, visited, name);
    CollectStartsWithName(roles, visited, name);
    if result != visited {
      var added := result[|visited|..];
      assert result == visited + added;
      CollectAllConcat(roles, [], visited, added);
      assert CollectAll(roles, visited, added) == CollectAll(roles, result, added[1..]);
      CollectAllVisited(roles, result, added[1..]);
    }
  }

  lemma {:induction false} CollectAllFixpoint(roles: seq<Role>, visited: seq<string>, names: seq<string>)
    requires EffectiveRoles(roles, visited) == visited
    ensures EffectiveRoles(roles, CollectAll(roles, visited, names)) == CollectAll(roles, visited, names)
    decreases names
  {
    if names != [] {
      CollectFixpoint(roles, visited, names[0]);
      CollectAllFixpoint(roles, Collect(roles, visited, names[0]), names[1..]);
    }
  }

  /** Resolving an already resolved list changes nothing, not even its order. */
  lemma {:induction false} EffectiveRolesIdempotent(roles: seq<Role>, names: seq<string>)
    ensures EffectiveRoles(roles, EffectiveRoles(roles, names)) == EffectiveRoles(roles, names)
  {
    CollectAllFixpoint(roles, [], names);
  }
}
