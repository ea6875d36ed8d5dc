/** The tag list of `useTags`: the raw list as the server sends it, and the derived list
    in which each `parentId` is resolved to the parent's name. */
module Tags {
  import opened Seqs

  datatype RawTag = RawTag(id: string, name: string, parentId: Option<string>, createdAt: string)

  datatype Tag = Tag(id: string, name: string, parent: Option<string>, createdAt: string)

  /** The error an HTTP call rejected with, passed through unchanged by the write operations. */
  datatype CallError = CallError(status: int, message: string)

  /** What one call to the server yields. */
  datatype Reply<T> = Ok(data: T) | Err(error: CallError)

  /** The messages stored in the `error` ref, kept abstract. */
  datatype TagError = FetchFailed | CreateFailed | UpdateFailed | DeleteFailed

  /** `rawTags.findIndex(t => t.id === id)`. */
  function IndexOfId(raw: seq<RawTag>, id: string): (k: int)
    ensures -1 <= k < |raw|
    ensures 0 <= k ==> raw[k].id == id && forall j :: 0 <= j < k ==> raw[j].id != id
    ensures k == -1 ==> forall j :: 0 <= j < |raw| ==> raw[j].id != id
  {
    FindIndex(raw, (t: RawTag) => t.id == id)
  }

  /** `parentId ? rawData.find(t => t.id === parentId)?.name || null : null`:
      an unset or empty id, a missing parent and an empty name all give null. */
  function ParentName(raw: seq<RawTag>, parentId: Option<string>): (r: Option<string>)
    ensures r.Some? ==> parentId.Some? && parentId.value != "" && r.value != ""
    ensures r.Some? ==> exists j :: 0 <= j < |raw| && raw[j].id == parentId.value && raw[j].name == r.value
  {
    if parentId.None? || parentId.value == "" then None
    else
      var k := IndexOfId(raw, parentId.value);
      if k == -1 || raw[k].name == "" then None else Some(raw[k].name)
  }

  /** `transformTags`. */
  function TransformTags(raw: seq<RawTag>): (tags: seq<Tag>)
    ensures |tags| == |raw|
    ensures forall i :: 0 <= i < |raw| ==>
      tags[i].id == raw[i].id && tags[i].name == raw[i].name && tags[i].createdAt == raw[i].createdAt
  {
    seq(|raw|, i requires 0 <= i < |raw| =>
      Tag(raw[i].id, raw[i].name, ParentName(raw, raw[i].parentId), raw[i].createdAt))
  }

  /** A tag's parent is a name exactly when its `parentId` is non-empty and the FIRST tag
      of the list with that id has a non-empty name, which is then the parent. */
  lemma TransformParentIsFirstMatch(raw: seq<RawTag>, i: int, name: string)
    requires 0 <= i < |raw|
    ensures TransformTags(raw)[i].parent == Some(name) <==>
      exists j :: 0 <= j < |raw| && raw[i].parentId == Some(raw[j].id) && raw[j].id != ""
        && raw[j].name == name && name != ""
        && forall k :: 0 <= k < j ==> raw[k].id != raw[j].id
  {
    var t := TransformTags(raw)[i];
    if t.parent == Some(name) {
      var j := IndexOfId(raw, raw[i].parentId.value);
      assert raw[i].parentId == Some(raw[j].id);
    }
    if exists j :: 0 <= j < |raw| && raw[i].parentId == Some(raw[j].id) && raw[j].id != ""
        && raw[j].name == name && name != ""
        && forall k :: 0 <= k < j ==> raw[k].id != raw[j].id
    {
      var j :| 0 <= j < |raw| && raw[i].parentId == Some(raw[j].id) && raw[j].id != ""
        && raw[j].name == name && name != ""
        && forall k :: 0 <= k < j ==> raw[k].id != raw[j].id;
      var k := IndexOfId(raw, raw[j].id);
      assert k == j;
    }
  }

  /** A tag whose `parentId` is null or empty has no parent. */
  lemma TransformParentUnset(raw: seq<RawTag>, i: int)
    requires 0 <= i < |raw|
    requires raw[i].parentId.None? || raw[i].parentId == Some("")
    ensures TransformTags(raw)[i].parent.None?
  {
  }

  /** `rawTags.filter(t => t.id !== id)`. */
  function WithoutId(raw: seq<RawTag>, id: string): (r: seq<RawTag>)
    ensures |r| <= |raw|
    ensures forall i :: 0 <= i < |r| ==> r[i].id != id
  {
    Filter(raw, (t: RawTag) => t.id != id)
  }

  /** Deletion keeps exactly the entries with another id, in their order. */
  lemma WithoutIdExact(raw: seq<RawTag>, id: string, tail: seq<RawTag>)
    ensures forall t :: t in WithoutId(raw, id) <==> t in raw && t.id != id
    ensures WithoutId(raw + tail, id) == WithoutId(raw, id) + WithoutId(tail, id)
  {
    var r := WithoutId(raw, id);
    forall t | t in raw && t.id != id ensures t in r {
      var j :| 0 <= j < |raw| && raw[j] == t;
    }
    forall t | t in r ensures t in raw && t.id != id {
      var j :| 0 <= j < |r| && r[j] == t;
    }
    FilterAppend(raw, tail, (t: RawTag) => t.id != id);
  }

  /** Renaming a tag in place (same id) renames the parent of every tag that points at
      it, which is why the whole derived list is recomputed. */
  lemma RenameReachesChildren(raw: seq<RawTag>, id: string, t: RawTag, i: int)
    requires IndexOfId(raw, id) != -1 && t.id == id && t.name != "" && id != ""
    requires 0 <= i < |raw| && raw[IndexOfId(raw, id) := t][i].parentId == Some(id)
    ensures TransformTags(raw[IndexOfId(raw, id) := t])[i].parent == Some(t.name)
  {
    var k := IndexOfId(raw, id);
    var after := raw[k := t];
    assert IndexOfId(after, id) == k by {
      assert after[k].id == id;
      assert forall j :: 0 <= j < k ==> after[j] == raw[j];
    }
  }

  /** After a deletion, a tag that pointed at the deleted id has no parent any more. */
  lemma DeleteOrphansChildren(raw: seq<RawTag>, id: string, i: int)
    requires 0 <= i < |WithoutId(raw, id)| && WithoutId(raw, id)[i].parentId == Some(id)
    ensures TransformTags(WithoutId(raw, id))[i].parent.None?
  {
    var r := WithoutId(raw, id);
    assert forall j :: 0 <= j < |r| ==> r[j].id != id;
    assert IndexOfId(r, id) == -1;
  }

  /** The refs of `useTags()`. */
  class TagStore {
    var tags: seq<Tag>
    var loading: bool
    var error: Option<TagError>
    var rawTags: seq<RawTag>

    constructor ()
      ensures tags == [] && rawTags == [] && !loading && error == None
      ensures Consistent()
    {
      tags := [];
      loading := false;
      error := None;
      rawTags := [];
    }

    /** The derived list is the transform of the raw list. */
    predicate Consistent()
      reads this
    {
      tags == TransformTags(rawTags)
    }

    /** `fetchTags`: on failure the error is stored, not thrown; `error` is never reset. */
    method FetchTags(reply: Reply<seq<RawTag>>)
      modifies this
      ensures !loading
      ensures reply.Ok? ==> rawTags == reply.data && Consistent() && error == old(error)
      ensures reply.Err? ==>
        rawTags == old(rawTags) && tags == old(tags) && error == Some(FetchFailed)
      ensures old(Consistent()) ==> Consistent()
    {
      loading := true;
      if reply.Ok? {
        rawTags := reply.data;
        tags := TransformTags(reply.data);
      } else {
        error := Some(FetchFailed);
      }
      loading := false;
    }

    /** `createTag`: the server's tag is appended; the result is that tag, or the same
        error rethrown. */
    method CreateTag(reply: Reply<RawTag>) returns (result: Reply<RawTag>)
      modifies this`rawTags, this`tags, this`error
      ensures result == reply
      ensures reply.Ok? ==>
        rawTags == old(rawTags) + [reply.data] && Consistent() && error == old(error)
      ensures reply.Err? ==>
        rawTags == old(rawTags) && tags == old(tags) && error == Some(CreateFailed)
    {
      if reply.Err? {
        error := Some(CreateFailed);
        return reply;
      }
      rawTags := rawTags + [reply.data];
      tags := TransformTags(rawTags);
      return reply;
    }

    /** `updateTag(id)`: the first entry with this id is replaced in place by the
        server's tag; without such an entry neither list changes. */
    method UpdateTag(id: string, reply: Reply<RawTag>) returns (result: Reply<RawTag>)
      modifies this`rawTags, this`tags, this`error
      ensures result == reply
      ensures reply.Ok? ==> error == old(error)
      ensures reply.Ok? && IndexOfId(old(rawTags), id) == -1 ==>
        rawTags == old(rawTags) && tags == old(tags)
      ensures reply.Ok? && IndexOfId(old(rawTags), id) != -1 ==>
        rawTags == old(rawTags)[IndexOfId(old(rawTags), id) := reply.data] && Consistent()
      ensures reply.Err? ==>
        rawTags == old(rawTags) && tags == old(tags) && error == Some(UpdateFailed)
      ensures old(Consistent()) ==> Consistent()
    {
      if reply.Err? {
        error := Some(UpdateFailed);
        return reply;
      }
      var index := IndexOfId(rawTags, id);
      if index != -1 {
        rawTags := rawTags[index := reply.data];
        tags := TransformTags(rawTags);
      }
      return reply;
    }

    /** `deleteTag(id)`: every entry with this id is dropped. */
    method DeleteTag(id: string, reply: Reply<()>) returns (result: Reply<()>)
      modifies this`rawTags, this`tags, this`error
      ensures result == reply
      ensures reply.Ok? ==> rawTags == WithoutId(old(rawTags), id) && Consistent() && error == old(error)
      ensures reply.Err? ==>
        rawTags == old(rawTags) && tags == old(tags) && error == Some(DeleteFailed)
    {
      if reply.Err? {
        error := Some(DeleteFailed);
        return reply;
      }
      rawTags := WithoutId(rawTags, id);
      tags := TransformTags(rawTags);
      return reply;
    }
  }
}
