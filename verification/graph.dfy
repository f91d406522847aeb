/** The object graph every repository and mirror cache shares.
 *
 * Object names are content hashes, so one immutable graph describes all stores: a store
 * only decides which of its nodes it holds. A node is a commit or an annotated tag
 * object; a tag object's only parent edge is the commit it points at.
 */
module Graph {
  /** A full object name. The empty string never names an object. */
  type Oid = string

  const NO_OBJECT: Oid := ""

  /** `gen` is a topological numbering, which is what makes the graph acyclic.
      `tags` maps an annotated tag object to its commit. */
  datatype Dag = Dag(parents: map<Oid, set<Oid>>, gen: map<Oid, nat>, tags: map<Oid, Oid>)

  ghost predicate Valid(g: Dag) {
    && NO_OBJECT !in g.parents
    && g.gen.Keys == g.parents.Keys
    && (forall c, p :: c in g.parents && p in g.parents[c] ==> p in g.parents && g.gen[p] < g.gen[c])
    && (forall t :: t in g.tags ==> t in g.parents && g.parents[t] == {g.tags[t]})
    && (forall c, p :: c in g.parents && p in g.parents[c] ==> p !in g.tags)
  }

  type ObjectGraph = g: Dag | Valid(g) ghost witness Dag(map[], map[], map[])

  /** `git rev-parse o^{commit}`. */
  function Peel(g: ObjectGraph, o: Oid): (c: Oid)
    ensures c !in g.tags
    ensures o in g.parents ==> c in g.parents
  {
    if o in g.tags then
      assert g.tags[o] in g.parents[o];
      g.tags[o]
    else o
  }

  /** Everything reachable from `o`, `o` included. */
  function Ancestors(g: ObjectGraph, o: Oid): (r: set<Oid>)
    decreases if o in g.parents then g.gen[o] + 1 else 0
    ensures o in g.parents ==> o in r
    ensures forall a :: a in r ==> a in g.parents && o in g.parents && g.gen[a] <= g.gen[o]
  {
    if o !in g.parents then {} else {o} + set p, a | p in g.parents[o] && a in Ancestors(g, p) :: a
  }

  lemma {:induction false} AncestorsTransitive(g: ObjectGraph, a: Oid, b: Oid, c: Oid)
    requires a in Ancestors(g, b) && b in Ancestors(g, c)
    ensures a in Ancestors(g, c)
    decreases g.gen[c]
  {
    if b != c {
      var p :| p in g.parents[c] && b in Ancestors(g, p);
      AncestorsTransitive(g, a, b, p);
    }
  }

  /** A node's proper ancestors sit strictly below it, so mutual reachability is equality. */
  lemma {:induction false} ProperAncestorIsLower(g: ObjectGraph, a: Oid, b: Oid)
    requires a in Ancestors(g, b) && a != b
    ensures g.gen[a] < g.gen[b] && b !in Ancestors(g, a)
  {
    var p :| p in g.parents[b] && a in Ancestors(g, p);
  }

  /** `git merge-base --is-ancestor a d`, which compares the commits behind both names. */
  predicate IsAncestor(g: ObjectGraph, a: Oid, d: Oid) {
    Peel(g, a) in Ancestors(g, Peel(g, d))
  }

  lemma {:induction false} IsAncestorAntisymmetric(g: ObjectGraph, a: Oid, b: Oid)
    requires IsAncestor(g, a, b) && IsAncestor(g, b, a)
    ensures Peel(g, a) == Peel(g, b)
  {
    if Peel(g, a) != Peel(g, b) { ProperAncestorIsLower(g, Peel(g, a), Peel(g, b)); }
  }

  /** A store that holds an object holds everything it reaches. */
  predicate Closed(g: ObjectGraph, objs: set<Oid>) {
    forall o :: o in objs ==> o in g.parents && Ancestors(g, o) <= objs
  }

  /** The smallest closed store holding `roots`. */
  function Closure(g: ObjectGraph, roots: set<Oid>): set<Oid> {
    set o, a | o in roots && a in Ancestors(g, o) :: a
  }

  lemma ClosureContains(g: ObjectGraph, roots: set<Oid>, o: Oid, a: Oid)
    requires o in roots && a in Ancestors(g, o)
    ensures a in Closure(g, roots)
  {
  }

  lemma {:induction false} ClosureIsClosed(g: ObjectGraph, roots: set<Oid>)
    ensures Closed(g, Closure(g, roots))
    ensures forall o :: o in roots && o in g.parents ==> o in Closure(g, roots)
  {
    forall b, a | b in Closure(g, roots) && a in Ancestors(g, b) ensures a in Closure(g, roots) {
      var o :| o in roots && b in Ancestors(g, o);
      AncestorsTransitive(g, a, b, o);
    }
    forall o | o in roots && o in g.parents ensures o in Closure(g, roots) {
      assert o in Ancestors(g, o);
    }
  }

  lemma ClosureIsLeast(g: ObjectGraph, objs: set<Oid>, roots: set<Oid>)
    requires Closed(g, objs) && roots <= objs
    ensures Closure(g, roots) <= objs
  {
  }

  lemma ClosedUnion(g: ObjectGraph, a: set<Oid>, b: set<Oid>)
    requires Closed(g, a) && Closed(g, b)
    ensures Closed(g, a + b)
  {
  }
}
