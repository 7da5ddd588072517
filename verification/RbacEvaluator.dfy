/**
 Wildcard permission matching and the policy decisions built on it.
 A grant is an exact permission, the universal grant "*", or a family "prefix.*".
 */
module RbacEvaluator {

  predicate StartsWith(s: string, prefix: string) {
    prefix <= s
  }

  predicate EndsWith(s: string, suffix: string) {
    |suffix| <= |s| && s[|s| - |suffix|..] == suffix
  }

  predicate MatchPermission(granted: string, required: string) {
    || granted == required
    || granted == "*"
    || (EndsWith(granted, ".*") && StartsWith(required, granted[..|granted| - 2] + "."))
  }

  predicate HasPermission(granted: seq<string>, required: string) {
    exists g :: g in granted && MatchPermission(g, required)
  }

  predicate RequireRole(grantedRoles: seq<string>, requiredRole: string) {
    requiredRole in grantedRoles
  }

  predicate RequirePermission(granted: seq<string>, required: string) {
    HasPermission(granted, required)
  }

  predicate RequireAny(granted: seq<string>, required: seq<string>) {
    exists r :: r in required && HasPermission(granted, r)
  }

  predicate RequireAll(granted: seq<string>, required: seq<string>) {
    forall r :: r in required ==> HasPermission(granted, r)
  }

  predicate Not(granted: seq<string>, forbidden: string) {
    !HasPermission(granted, forbidden)
  }

  // ---------------------------------------------------------------------------------------
  // What a grant means, without reference to suffix slicing

  /** A grant "p.*" covers exactly the strings "p." followed by anything. */
  lemma {:induction false} FamilyMatches(p: string, required: string)
    ensures MatchPermission(p + ".*", required) <==>
            required == p + ".*" || exists rest: string :: required == p + "." + rest
  {
    var g := p + ".*";
    assert g[..|g| - 2] == p && g[|g| - 2..] == ".*";
    if StartsWith(required, p + ".") {
      assert required == p + "." + required[|p| + 1..];
    }
  }

  /** A grant that is neither "*" nor a family covers nothing but itself. */
  lemma {:induction false} PlainMatches(granted: string, required: string)
    requires granted != "*"
    requires forall p: string :: granted != p + ".*"
    ensures MatchPermission(granted, required) <==> granted == required
  {
    if |granted| >= 2 {
      var p := granted[..|granted| - 2];
      assert granted == p + granted[|granted| - 2..];
    }
  }

  // ---------------------------------------------------------------------------------------
  // Matching is a partial order with "*" as its greatest element

  /** A family that covers another family has the shorter (or the same) prefix. */
  lemma {:induction false} FamilyPrefixes(p: string, q: string)
    requires StartsWith(q + ".*", p + ".")
    ensures q == p || StartsWith(q, p + ".")
  {
    var m := q + ".*";
    assert m[|p|] == (p + ".")[|p|] == '.';
    assert m[|q| + 1] == '*';
    if |p| + 1 <= |q| {
      assert q == m[..|q|];
    } else {
      assert m[..|p|] == q && (p + ".")[..|p|] == p;
    }
  }

  lemma {:induction false} MatchTransitive(a: string, b: string, c: string)
    requires MatchPermission(a, b) && MatchPermission(b, c)
    ensures MatchPermission(a, c)
  {
    if a != b && b != c && a != "*" {
      var p := a[..|a| - 2];
      OnlyStarCoversStar(a);
      var q := b[..|b| - 2];
      assert b == q + ".*";
      FamilyPrefixes(p, q);
    }
  }

  lemma {:induction false} MatchAntisymmetric(a: string, b: string)
    requires MatchPermission(a, b) && MatchPermission(b, a)
    ensures a == b
  {
    if a != b {
      OnlyStarCoversStar(a);
      OnlyStarCoversStar(b);
      var p, q := a[..|a| - 2], b[..|b| - 2];
      assert a == p + ".*" && b == q + ".*";
      FamilyPrefixes(p, q);
      FamilyPrefixes(q, p);
    }
  }

  lemma {:induction false} OnlyStarCoversStar(a: string)
    ensures MatchPermission(a, "*") <==> a == "*"
  {
    if |a| >= 2 {
      assert "*"[0] != (a[..|a| - 2] + ".")[0] || |a| > 2;
    }
  }

  /** Reflexive, transitive, antisymmetric, and "*" is above everything. */
  lemma {:induction false} MatchIsPartialOrder()
    ensures forall a :: MatchPermission(a, a) && MatchPermission("*", a)
    ensures forall a, b, c :: MatchPermission(a, b) && MatchPermission(b, c) ==> MatchPermission(a, c)
    ensures forall a, b :: MatchPermission(a, b) && MatchPermission(b, a) ==> a == b
  {
    forall a, b, c | MatchPermission(a, b) && MatchPermission(b, c)
      ensures MatchPermission(a, c)
    {
      MatchTransitive(a, b, c);
    }
    forall a, b | MatchPermission(a, b) && MatchPermission(b, a)
      ensures a == b
    {
      MatchAntisymmetric(a, b);
    }
  }

  // ---------------------------------------------------------------------------------------
  // What the order says about decisions

  ghost predicate Covers(strong: seq<string>, weak: seq<string>) {
    forall g :: g in weak ==> HasPermission(strong, g)
  }

  ghost predicate DecidesAtLeast(strong: seq<string>, weak: seq<string>) {
    forall r :: HasPermission(weak, r) ==> HasPermission(strong, r)
  }

  /**
   One grant list allows everything another allows exactly when it covers the other's
   grants, read as if they were requested permissions.
   */
  lemma {:induction false} CoverageDecides(strong: seq<string>, weak: seq<string>)
    ensures Covers(strong, weak) <==> DecidesAtLeast(strong, weak)
  {
    if Covers(strong, weak) {
      forall r | HasPermission(weak, r)
        ensures HasPermission(strong, r)
      {
        var g :| g in weak && MatchPermission(g, r);
        assert HasPermission(strong, g);
        var h :| h in strong && MatchPermission(h, g);
        MatchTransitive(h, g, r);
      }
    }
    if DecidesAtLeast(strong, weak) {
      forall g | g in weak
        ensures HasPermission(strong, g)
      {
        assert MatchPermission(g, g);
      }
    }
  }

  /** Lists that decide single permissions alike decide every kind of policy alike. */
  lemma {:induction false} SameDecisions(left: seq<string>, right: seq<string>, required: string, several: seq<string>)
    requires DecidesAtLeast(left, right) && DecidesAtLeast(right, left)
    ensures RequirePermission(left, required) == RequirePermission(right, required)
    ensures RequireAny(left, several) == RequireAny(right, several)
    ensures RequireAll(left, several) == RequireAll(right, several)
    ensures Not(left, required) == Not(right, required)
  {
    if RequireAny(left, several) {
      var r :| r in several && HasPermission(left, r);
      assert HasPermission(right, r);
    }
    if RequireAny(right, several) {
      var r :| r in several && HasPermission(right, r);
      assert HasPermission(left, r);
    }
  }

  function Without(granted: seq<string>, i: nat): seq<string>
    requires i < |granted|
  {
    granted[..i] + granted[i + 1..]
  }

  /** Dropping a grant that another kept grant covers changes no decision of any kind. */
  lemma {:induction false} DroppingCoveredGrant(
      granted: seq<string>, i: nat, j: nat, required: string, several: seq<string>)
    requires i < |granted| && j < |granted| && i != j
    requires MatchPermission(granted[j], granted[i])
    ensures RequirePermission(Without(granted, i), required) == RequirePermission(granted, required)
    ensures RequireAny(Without(granted, i), several) == RequireAny(granted, several)
    ensures RequireAll(Without(granted, i), several) == RequireAll(granted, several)
    ensures Not(Without(granted, i), required) == Not(granted, required)
  {
    KeptCoversAll(granted, i, j);
    CoverageDecides(Without(granted, i), granted);
    AllCoversKept(granted, i);
    CoverageDecides(granted, Without(granted, i));
    SameDecisions(Without(granted, i), granted, required, several);
  }

  lemma {:induction false} KeptCoversAll(granted: seq<string>, i: nat, j: nat)
    requires i < |granted| && j < |granted| && i != j
    requires MatchPermission(granted[j], granted[i])
    ensures Covers(Without(granted, i), granted)
  {
    var kept := Without(granted, i);
    KeptGrants(granted, i);
    assert kept[if j < i then j else j - 1] == granted[j];
    forall g | g in granted
      ensures HasPermission(kept, g)
    {
      if g == granted[i] {
        assert granted[j] in kept && MatchPermission(granted[j], g);
      } else {
        assert g in kept && MatchPermission(g, g);
      }
    }
  }

  lemma {:induction false} AllCoversKept(granted: seq<string>, i: nat)
    requires i < |granted|
    ensures Covers(granted, Without(granted, i))
  {
    KeptGrants(granted, i);
    forall g | g in Without(granted, i)
      ensures HasPermission(granted, g)
    {
      assert MatchPermission(g, g);
    }
  }

  lemma {:induction false} KeptGrants(granted: seq<string>, i: nat)
    requires i < |granted|
    ensures forall g :: g in Without(granted, i) ==> g in granted
    ensures forall g :: g in granted && g != granted[i] ==> g in Without(granted, i)
  {
    assert granted == granted[..i] + [granted[i]] + granted[i + 1..];
  }

  ghost predicate Irredundant(granted: seq<string>) {
    forall a, b :: a in granted && b in granted && MatchPermission(a, b) ==> a == b
  }

  /** Grant lists without redundancy that decide alike hold the same grants. */
  lemma {:induction false} IrredundantGrantsAreUnique(left: seq<string>, right: seq<string>, g: string)
    requires Irredundant(left) && Irredundant(right)
    requires forall r :: HasPermission(left, r) <==> HasPermission(right, r)
    ensures g in left <==> g in right
  {
    if g in left { IrredundantGrantKept(left, right, g); }
    if g in right { IrredundantGrantKept(right, left, g); }
  }

  lemma {:induction false} IrredundantGrantKept(left: seq<string>, right: seq<string>, g: string)
    requires Irredundant(left) && g in left
    requires forall r :: HasPermission(left, r) <==> HasPermission(right, r)
    ensures g in right
  {
    assert MatchPermission(g, g) && HasPermission(left, g);
    assert HasPermission(right, g);
    var h :| h in right && MatchPermission(h, g);
    assert MatchPermission(h, h) && HasPermission(right, h);
    assert HasPermission(left, h);
    var k :| k in left && MatchPermission(k, h);
    MatchTransitive(k, h, g);
    MatchAntisymmetric(g, h);
  }
}
