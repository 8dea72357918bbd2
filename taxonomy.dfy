/**
 * The category taxonomy as the plugin reads it: a table from term id to category,
 * where a parent id of 0 marks a top-level category, and the hierarchy string that a
 * default WordPress post permalink embeds for a category.
 */
module Taxonomy {

  datatype Category = Category(termId: nat, slug: string, parent: nat)

  type Table = map<nat, Category>

  /** Following `parent` links from `id` reaches 0 within `fuel` steps, through stored categories only. */
  predicate ReachesRoot(t: Table, id: nat, fuel: nat)
    decreases fuel
  {
    id == 0 || (id in t && fuel > 0 && ReachesRoot(t, t[id].parent, fuel - 1))
  }

  /**
   * Every stored category is keyed by its own id and its parent chain ends at the root.
   * A chain through distinct ids has at most |t| links, so the fuel |t| says the
   * chain is acyclic.
   */
  predicate WellFormed(t: Table) {
    && 0 !in t
    && (forall id | id in t :: t[id].termId == id)
    && (forall id {:trigger Rooted(t, id)} | id in t :: Rooted(t, id))
  }

  /** The parent chain of `id` reaches the root within as many steps as there are categories. */
  predicate Rooted(t: Table, id: nat) {
    ReachesRoot(t, id, |t|)
  }

  /** A parent id the table can follow: the root marker or a stored category. */
  predicate Resolvable(t: Table, id: nat) {
    id == 0 || id in t
  }

  /**
   * `get_category_parents($id, false, '/', true)`: the slugs of `id` and all of its
   * ancestors, root first, each followed by '/'.
   */
  function AncestorPath(t: Table, id: nat, fuel: nat): string
    requires ReachesRoot(t, id, fuel)
    decreases fuel
  {
    if id == 0 then "" else AncestorPath(t, t[id].parent, fuel - 1) + t[id].slug + "/"
  }

  /**
   * `chain` lists `id`, its parent, its grandparent and so on up to a top-level
   * category; it is empty for the root marker 0.
   */
  ghost predicate IsAncestry(t: Table, id: nat, chain: seq<nat>) {
    && (chain == [] <==> id == 0)
    && (chain != [] ==> chain[0] == id)
    && (forall i | 0 <= i < |chain| :: chain[i] != 0 && chain[i] in t)
    && (forall i | 0 <= i < |chain| - 1 :: t[chain[i]].parent == chain[i + 1])
    && (chain != [] ==> t[chain[|chain| - 1]].parent == 0)
  }

  /** The ancestry of `id`, collected by following parent links. */
  function Ancestry(t: Table, id: nat, fuel: nat): (chain: seq<nat>)
    requires ReachesRoot(t, id, fuel)
    ensures IsAncestry(t, id, chain)
    decreases fuel
  {
    if id == 0 then [] else [id] + Ancestry(t, t[id].parent, fuel - 1)
  }

  function SlugOf(t: Table, id: nat): string {
    if id in t then t[id].slug else ""
  }

  /** Element k is the slug of the k-th category counted from the root end of the chain, plus '/'. */
  function RootFirstSegments(t: Table, chain: seq<nat>): (parts: seq<string>) {
    seq(|chain|, k requires 0 <= k < |chain| => SlugOf(t, chain[|chain| - 1 - k]) + "/")
  }

  function Flatten(parts: seq<string>): string {
    if parts == [] then "" else parts[0] + Flatten(parts[1..])
  }

  lemma {:induction false} FlattenSnoc(parts: seq<string>, last: string)
    ensures Flatten(parts + [last]) == Flatten(parts) + last
  {
    if parts != [] {
      assert (parts + [last])[1..] == parts[1..] + [last];
      FlattenSnoc(parts[1..], last);
    }
  }

  lemma RootFirstSegmentsCons(t: Table, id: nat, rest: seq<nat>)
    ensures RootFirstSegments(t, [id] + rest) == RootFirstSegments(t, rest) + [SlugOf(t, id) + "/"]
  {
  }

  /**
   * The ancestor path is the concatenation of the chain's slugs, root first,
   * each followed by '/', whatever fuel was enough to compute it.
   */
  lemma {:induction false} AncestorPathRootFirst(t: Table, id: nat, fuel: nat, chain: seq<nat>)
    requires ReachesRoot(t, id, fuel)
    requires IsAncestry(t, id, chain)
    ensures AncestorPath(t, id, fuel) == Flatten(RootFirstSegments(t, chain))
    decreases fuel
  {
    if id != 0 {
      var rest := chain[1..];
      assert IsAncestry(t, t[id].parent, rest) by {
        if rest == [] {
          assert t[chain[0]].parent == 0;
        } else {
          assert t[chain[0]].parent == chain[1];
          assert forall i | 0 <= i < |rest| - 1 :: t[rest[i]].parent == rest[i + 1] by {
            assert forall i | 0 <= i < |rest| :: rest[i] == chain[i + 1];
          }
        }
      }
      AncestorPathRootFirst(t, t[id].parent, fuel - 1, rest);
      assert chain == [id] + rest;
      RootFirstSegmentsCons(t, id, rest);
      FlattenSnoc(RootFirstSegments(t, rest), SlugOf(t, id) + "/");
    }
  }

  /** Enough fuel gives the same path, so the fuel is only a termination device. */
  lemma AncestorPathFuel(t: Table, id: nat, fuel1: nat, fuel2: nat)
    requires ReachesRoot(t, id, fuel1) && ReachesRoot(t, id, fuel2)
    ensures AncestorPath(t, id, fuel1) == AncestorPath(t, id, fuel2)
  {
    var chain := Ancestry(t, id, fuel1);
    AncestorPathRootFirst(t, id, fuel1, chain);
    AncestorPathRootFirst(t, id, fuel2, chain);
  }

  lemma RootedInTable(t: Table, id: nat)
    requires WellFormed(t) && Resolvable(t, id)
    ensures ReachesRoot(t, id, |t|)
  {
    assert Rooted(t, id);
  }

  /**
   * The category hierarchy string of post_link: the leaf's own slug for a top-level
   * category, otherwise the ancestor path of its parent followed by the leaf slug.
   */
  function CategoryHierarchy(t: Table, c: Category): (h: string)
    requires WellFormed(t) && Resolvable(t, c.parent)
    ensures |c.slug| <= |h| && h[|h| - |c.slug|..] == c.slug
    ensures c.parent == 0 <==> h == c.slug
  {
    RootedInTable(t, c.parent);
    if c.parent != 0 then AncestorPath(t, c.parent, |t|) + c.slug else c.slug
  }

  /** The hierarchy string of a category whose parent has ancestry `chain`, spelled out root first. */
  lemma HierarchyRootFirst(t: Table, c: Category, chain: seq<nat>)
    requires WellFormed(t) && Resolvable(t, c.parent)
    requires IsAncestry(t, c.parent, chain)
    ensures CategoryHierarchy(t, c) == Flatten(RootFirstSegments(t, chain)) + c.slug
  {
    RootedInTable(t, c.parent);
    AncestorPathRootFirst(t, c.parent, |t|, chain);
    if c.parent == 0 {
      assert RootFirstSegments(t, chain) == [];
    }
  }
}
