/** The pool hierarchy loaded from the configuration file (package poolmanager).
    `Pools` is modelled as an already-decoded sequence; both lookups are pure
    first-match searches over it, so they cannot change it. */
module PoolManager {

  /** One parent project together with the ordered ids of its child modules. */
  datatype PoolProject = PoolProject(parentName: string, parentId: string, childrenIds: seq<string>)

  /** The parent id of the first pool, in order, that lists `childId` among its
      children; "" when no pool lists it. */
  function ProjectParentId(pools: seq<PoolProject>, childId: string): (parentId: string)
    ensures (forall i | 0 <= i < |pools| :: childId !in pools[i].childrenIds) ==> parentId == ""
    ensures forall i | 0 <= i < |pools| && childId in pools[i].childrenIds ::
              (forall j | 0 <= j < i :: childId !in pools[j].childrenIds) ==> parentId == pools[i].parentId
  {
    if pools == [] then ""
    else if childId in pools[0].childrenIds then pools[0].parentId
    else ProjectParentId(pools[1..], childId)
  }

  /** The children, order preserved, of the first pool whose parent id is
      `parentId`; the empty sequence (Go's nil slice) when there is none. */
  function ProjectChildrenIds(pools: seq<PoolProject>, parentId: string): (childrenIds: seq<string>)
    ensures (forall i | 0 <= i < |pools| :: pools[i].parentId != parentId) ==> childrenIds == []
    ensures forall i | 0 <= i < |pools| && pools[i].parentId == parentId ::
              (forall j | 0 <= j < i :: pools[j].parentId != parentId) ==> childrenIds == pools[i].childrenIds
  {
    if pools == [] then []
    else if pools[0].parentId == parentId then pools[0].childrenIds
    else ProjectChildrenIds(pools[1..], parentId)
  }

  /** No two pools share a parent id: the configuration describes a tree. */
  predicate UniqueParentIds(pools: seq<PoolProject>)
  {
    forall i, j | 0 <= i < j < |pools| :: pools[i].parentId != pools[j].parentId
  }

  /** The index of the first pool listing `childId`, when there is one. */
  lemma {:induction false} FirstPoolListing(pools: seq<PoolProject>, childId: string) returns (k: nat)
    requires ProjectParentId(pools, childId) != ""
    ensures k < |pools| && childId in pools[k].childrenIds
    ensures forall j | 0 <= j < k :: childId !in pools[j].childrenIds
    ensures ProjectParentId(pools, childId) == pools[k].parentId
  {
    if childId in pools[0].childrenIds {
      k := 0;
    } else {
      var k' := FirstPoolListing(pools[1..], childId);
      k := k' + 1;
      assert pools[1..][k'] == pools[k];
      forall j | 0 <= j < k ensures childId !in pools[j].childrenIds {
        if j > 0 { assert pools[1..][j - 1] == pools[j]; }
      }
    }
  }

  /** With unique parent ids the two lookups agree: a module resolved to
      parent `p` is among the children listed for `p`. */
  lemma ParentListsChild(pools: seq<PoolProject>, childId: string)
    requires UniqueParentIds(pools)
    requires ProjectParentId(pools, childId) != ""
    ensures childId in ProjectChildrenIds(pools, ProjectParentId(pools, childId))
  {
    var k := FirstPoolListing(pools, childId);
    var p := pools[k].parentId;
    forall j | 0 <= j < k ensures pools[j].parentId != p { }
  }
}
