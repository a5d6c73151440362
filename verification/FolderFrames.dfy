/**
 Which folders a change of the source tables can affect: for each kind of transaction, every folder
 outside the set that the transaction invalidates keeps all the inputs of its digests.
 */
module FolderFrames {
  import opened Common
  import opened FolderGraph
  import opened FolderDigests

  /** The folders whose membership of document `d`, direct or inherited, may differ between two states. */
  function FoldersAround(s: Sources, s': Sources, tenant: string, d: string): set<string> {
    AncestorFolderIds(ActiveParents(s, tenant),
                      FolderIdsForDocument(s, tenant, d) + FolderIdsForDocument(s', tenant, d))
  }

  /** Only document `d` of `tenant` and its own memberships may differ. */
  ghost predicate DocumentMayDiffer(s: Sources, s': Sources, tenant: string, d: string) {
    && s'.folders == s.folders
    && (forall x | x != d :: x in s.documents <==> x in s'.documents)
    && (forall x | x != d && x in s.documents :: s.documents[x] == s'.documents[x])
    && (forall x | x != d :: x in s.documentIndex <==> x in s'.documentIndex)
    && (forall x | x != d && x in s.documentIndex :: s.documentIndex[x] == s'.documentIndex[x])
    && (forall m | m in s.relations + s'.relations ::
          m.tenant != tenant || m.documentId != d ==> (m in s.relations <==> m in s'.relations))
    && (d in s.documents ==> s.documents[d].tenant == tenant)
    && (d in s'.documents ==> s'.documents[d].tenant == tenant)
  }

  /** A folder that is no ancestor of the old or new folders of `d` does not see `d` at all. */
  lemma {:induction false} NotAMember(s: Sources, s': Sources, tenant: string, d: string, f: string)
    requires s'.folders == s.folders
    requires f !in FoldersAround(s, s', tenant, d)
    ensures d !in DocumentIdsForFolders(s, tenant, SubtreeFolderIds(ActiveParents(s, tenant), f))
    ensures d !in DocumentIdsForFolders(s', tenant, SubtreeFolderIds(ActiveParents(s, tenant), f))
  {
    var g := ActiveParents(s, tenant);
    var direct := FolderIdsForDocument(s, tenant, d) + FolderIdsForDocument(s', tenant, d);
    AncestorsAreReachable(g, direct, f);
    forall m | m in s.relations + s'.relations && m.tenant == tenant && m.documentId == d
      ensures m.folderId !in SubtreeFolderIds(g, f)
    {
      assert m.folderId in direct;
      SubtreeIsReachable(g, f, m.folderId);
    }
  }

  lemma {:induction false} DocumentChangeFrame(s: Sources, s': Sources, tenant: string, d: string, ids: set<string>)
    requires DocumentMayDiffer(s, s', tenant, d)
    requires FoldersAround(s, s', tenant, d) <= ids
    ensures SameOutside(s, s', ids)
  {
    forall f | f !in ids && ActiveFolder(s, f) ensures SameInputs(s, s', s.folders[f].tenant, f) {
      var t := s.folders[f].tenant;
      assert ActiveParents(s, t) == ActiveParents(s', t);
      if t == tenant {
        NotAMember(s, s', tenant, d, f);
      }
      DocumentLookupsAgree(s, s', tenant, d, t, f);
    }
  }

  lemma {:induction false} DocumentLookupsAgree(s: Sources, s': Sources, tenant: string, d: string, t: string,
                                                f: string)
    requires DocumentMayDiffer(s, s', tenant, d) && ActiveParents(s, t) == ActiveParents(s', t)
    requires t == tenant ==>
      && d !in DocumentIdsForFolders(s, t, SubtreeFolderIds(ActiveParents(s, t), f))
      && d !in DocumentIdsForFolders(s', t, SubtreeFolderIds(ActiveParents(s, t), f))
    ensures SameInputs(s, s', t, f)
  {
    var sub := SubtreeFolderIds(ActiveParents(s, t), f);
    MembershipsAgree(s, s', tenant, d, t, sub);
    CurrentRowsAgree(s, s', tenant, d, t, DocumentIdsForFolders(s, t, sub), DocumentIdsForFolders(s', t, sub));
  }

  lemma {:induction false} CurrentRowsAgree(s: Sources, s': Sources, tenant: string, d: string, t: string,
                                            ids: set<string>, ids': set<string>)
    requires DocumentMayDiffer(s, s', tenant, d) && ids - {d} == ids' - {d}
    requires t == tenant ==> d !in ids && d !in ids'
    ensures CurrentDocuments(s, t, ids) == CurrentDocuments(s', t, ids')
    ensures CurrentIndex(s, CurrentDocuments(s, t, ids).Keys) == CurrentIndex(s', CurrentDocuments(s, t, ids).Keys)
  {
    forall x | x != d ensures x in ids <==> x in ids' {
      assert x in ids - {d} <==> x in ids' - {d};
    }
    assert d !in CurrentDocuments(s, t, ids) && d !in CurrentDocuments(s', t, ids');
  }

  lemma {:induction false} MembershipsAgree(s: Sources, s': Sources, tenant: string, d: string, t: string,
                                            sub: set<string>)
    requires DocumentMayDiffer(s, s', tenant, d)
    ensures DocumentIdsForFolders(s, t, sub) - {d} == DocumentIdsForFolders(s', t, sub) - {d}
  {
    forall x | x != d ensures x in DocumentIdsForFolders(s, t, sub) <==> x in DocumentIdsForFolders(s', t, sub) {
      if x in DocumentIdsForFolders(s, t, sub) {
        var m :| m in s.relations && m.tenant == t && m.folderId in sub && m.documentId == x;
        assert m in s'.relations;
      }
      if x in DocumentIdsForFolders(s', t, sub) {
        var m :| m in s'.relations && m.tenant == t && m.folderId in sub && m.documentId == x;
        assert m in s.relations;
      }
    }
  }

  /** The folders that `index_folder` invalidates after the upsert of folder `f`. */
  function AffectedByUpsert(previous: Option<FolderSource>, h: Parents, f: string, row: FolderSource): set<string> {
    if previous.Some? && previous.value.content.parent == row.content.parent then {f}
    else
      var oldParent := if previous.Some? then previous.value.content.parent else None;
      {f} + (if oldParent.Some? then AncestorFolderIds(h, {oldParent.value}) else {}) + AncestorFolderIds(h, {f})
  }

  /**
   Moving or (re)activating a folder invalidates enough: every folder outside the affected set keeps
   its subtree, even though the ancestors of the old parent are read after the write.
   */
  lemma {:induction false} AffectedCoversUpsert(s: Sources, tenant: string, f: string, row: FolderSource, a: string)
    requires row.tenant == tenant && !row.deleted
    requires f in s.folders ==> s.folders[f].tenant == tenant
    requires a !in AffectedByUpsert(CurrentFolder(s, tenant, f),
                                    ActiveParents(s.(folders := s.folders[f := row]), tenant), f, row)
    ensures SubtreeFolderIds(ActiveParents(s, tenant), a)
         == SubtreeFolderIds(ActiveParents(s.(folders := s.folders[f := row]), tenant), a)
  {
    var g := ActiveParents(s, tenant);
    var h := ActiveParents(s.(folders := s.folders[f := row]), tenant);
    assert AgreeExcept(g, h, f);
    var previous := CurrentFolder(s, tenant, f);
    if previous.Some? && previous.value.content.parent == row.content.parent {
      assert g == h;
    } else {
      UpsertKeepsSubtree(g, h, f, a);
    }
  }

  /** Every folder whose subtree has other documents after the upsert than before is in the affected set. */
  lemma {:induction false} MoveInvalidatesEnough(s: Sources, tenant: string, f: string, row: FolderSource, a: string)
    requires row.tenant == tenant && !row.deleted
    requires f in s.folders ==> s.folders[f].tenant == tenant
    requires SubtreeDocuments(s, tenant, a) != SubtreeDocuments(s.(folders := s.folders[f := row]), tenant, a)
    ensures a in AffectedByUpsert(CurrentFolder(s, tenant, f),
                                  ActiveParents(s.(folders := s.folders[f := row]), tenant), f, row)
  {
    var h := ActiveParents(s.(folders := s.folders[f := row]), tenant);
    if a !in AffectedByUpsert(CurrentFolder(s, tenant, f), h, f, row) {
      AffectedCoversUpsert(s, tenant, f, row, a);
    }
  }

  lemma {:induction false} FolderUpsertFrame(s: Sources, s': Sources, tenant: string, f: string, row: FolderSource)
    requires row.tenant == tenant && !row.deleted && s' == s.(folders := s.folders[f := row])
    requires f in s.folders ==> s.folders[f].tenant == tenant
    ensures SameOutside(s, s', AffectedByUpsert(CurrentFolder(s, tenant, f), ActiveParents(s', tenant), f, row))
  {
    var ids := AffectedByUpsert(CurrentFolder(s, tenant, f), ActiveParents(s', tenant), f, row);
    forall a | a !in ids && ActiveFolder(s, a) ensures SameInputs(s, s', s.folders[a].tenant, a) {
      var t := s.folders[a].tenant;
      if t == tenant {
        AffectedCoversUpsert(s, tenant, f, row, a);
      } else {
        assert ActiveParents(s, t) == ActiveParents(s', t);
      }
    }
  }

  lemma {:induction false} FolderDeleteFrame(s: Sources, s': Sources, tenant: string, f: string)
    requires ActiveFolder(s, f) && s.folders[f].tenant == tenant
    requires s' == s.(folders := s.folders[f := s.folders[f].(deleted := true)])
    ensures SameOutside(s, s', AncestorFolderIds(ActiveParents(s, tenant), {f}))
    ensures f in AncestorFolderIds(ActiveParents(s, tenant), {f})
  {
    var g := ActiveParents(s, tenant);
    ClosuresAreActive(g, {f}, f);
    assert ActiveParents(s', tenant) == g - {f};
    forall a | a !in AncestorFolderIds(g, {f}) && ActiveFolder(s, a)
      ensures SameInputs(s, s', s.folders[a].tenant, a)
    {
      var t := s.folders[a].tenant;
      if t == tenant {
        DeleteKeepsSubtree(g, f, a);
      } else {
        assert ActiveParents(s, t) == ActiveParents(s', t);
      }
    }
  }
}
