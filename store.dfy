/** The part of the database the face classifier touches: the tag table and
    the photo tag table, with the two tag lookups it makes. */
module TagStore {
  import opened Records
  import opened Decimal

  /** The tables, and the id the next created tag receives. */
  datatype Store = Store(tags: seq<Tag>, photoTags: seq<PhotoTag>, nextTagId: nat)

  /** Tag ids are positive, below nextTagId, and unique. */
  predicate StoreValid(st: Store)
  {
    1 <= st.nextTagId &&
    (forall i :: 0 <= i < |st.tags| ==> 1 <= st.tags[i].id < st.nextTagId) &&
    (forall i, j :: 0 <= i < j < |st.tags| ==> st.tags[i].id != st.tags[j].id)
  }

  /** The first tag with the given id in the library that is a face tag. */
  function FindFaceTagById(tags: seq<Tag>, id: nat, library: nat): (t: Option<Tag>)
    ensures t.Some? ==> t.value in tags && t.value.id == id && t.value.library == library && t.value.kind == Face
    ensures t.None? ==> forall u :: u in tags ==> !(u.id == id && u.library == library && u.kind == Face)
  {
    if tags == [] then None
    else if tags[0].id == id && tags[0].library == library && tags[0].kind == Face then Some(tags[0])
    else FindFaceTagById(tags[1..], id, library)
  }

  /** `Tag.objects.get(id=key, library=library, type='F')`: None when the
      key is not a number or no such tag exists (both raise). */
  function TagByKey(tags: seq<Tag>, key: string, library: nat): (t: Option<Tag>)
    ensures t.Some? ==> AllDigits(key) && key != [] && t.value in tags &&
                        t.value.id == DecimalValue(key) && t.value.library == library && t.value.kind == Face
    ensures t.None? ==>
      key == [] || !AllDigits(key) ||
      (forall u :: u in tags ==> !(u.id == DecimalValue(key) && u.library == library && u.kind == Face))
  {
    if key != [] && AllDigits(key) then FindFaceTagById(tags, DecimalValue(key), library) else None
  }

  /** The first tag matching every field `get_or_create_tag` looks up by. */
  function FindTag(tags: seq<Tag>, library: nat, name: string, kind: TagType, source: char): (t: Option<Tag>)
    ensures t.Some? ==> t.value in tags && t.value.library == library && t.value.name == name &&
                        t.value.kind == kind && t.value.source == source
    ensures t.None? ==> forall u :: u in tags ==>
      !(u.library == library && u.name == name && u.kind == kind && u.source == source)
  {
    if tags == [] then None
    else if tags[0].library == library && tags[0].name == name && tags[0].kind == kind && tags[0].source == source
    then Some(tags[0])
    else FindTag(tags[1..], library, name, kind, source)
  }

  datatype GotTag = GotTag(tag: Tag, store: Store)

  /** `get_or_create_tag`: the existing tag with these fields, or a new one
      with a fresh id appended to the tag table. */
  function GetOrCreate(st: Store, library: nat, name: string, kind: TagType, source: char): (g: GotTag)
    ensures g.tag.library == library && g.tag.name == name && g.tag.kind == kind && g.tag.source == source
    ensures g.store.photoTags == st.photoTags
    ensures FindTag(st.tags, library, name, kind, source).Some? ==> g.store == st && g.tag in st.tags
    ensures FindTag(st.tags, library, name, kind, source).None? ==>
      g.tag.id == st.nextTagId && g.store.tags == st.tags + [g.tag] && g.store.nextTagId == st.nextTagId + 1
    ensures StoreValid(st) ==> StoreValid(g.store)
  {
    match FindTag(st.tags, library, name, kind, source)
    case Some(t) => GotTag(t, st)
    case None =>
      var t := Tag(st.nextTagId, library, name, kind, source);
      GotTag(t, Store(st.tags + [t], st.photoTags, st.nextTagId + 1))
  }

  /** Looking a tag up by key keeps its answer when tags are appended. */
  lemma {:induction false} TagByKeyStable(tags: seq<Tag>, more: seq<Tag>, key: string, library: nat)
    requires TagByKey(tags, key, library).Some?
    ensures TagByKey(tags + more, key, library) == TagByKey(tags, key, library)
  {
    FindFaceTagByIdPrefix(tags, more, DecimalValue(key), library);
  }

  lemma {:induction false} FindFaceTagByIdPrefix(tags: seq<Tag>, more: seq<Tag>, id: nat, library: nat)
    requires FindFaceTagById(tags, id, library).Some?
    ensures FindFaceTagById(tags + more, id, library) == FindFaceTagById(tags, id, library)
  {
    assert (tags + more)[0] == tags[0];
    if !(tags[0].id == id && tags[0].library == library && tags[0].kind == Face) {
      assert (tags + more)[1..] == tags[1..] + more;
      FindFaceTagByIdPrefix(tags[1..], more, id, library);
    }
  }

  /** The database, as the tagging pass changes it. */
  class Database {
    var tags: seq<Tag>
    var photoTags: seq<PhotoTag>
    var nextTagId: nat

    function State(): Store
      reads this
    {
      Store(tags, photoTags, nextTagId)
    }

    predicate Valid()
      reads this
    {
      StoreValid(State())
    }

    constructor ()
      ensures Valid() && State() == Store([], [], 1)
    {
      tags, photoTags, nextTagId := [], [], 1;
    }

    method GetOrCreateTag(library: nat, name: string, kind: TagType, source: char) returns (t: Tag)
      requires Valid()
      modifies this
      ensures Valid()
      ensures GotTag(t, State()) == GetOrCreate(old(State()), library, name, kind, source)
    {
      var g := GetOrCreate(State(), library, name, kind, source);
      t := g.tag;
      tags, photoTags, nextTagId := g.store.tags, g.store.photoTags, g.store.nextTagId;
    }

    /** `PhotoTag(...).save()`: appends one row. */
    method Save(row: PhotoTag)
      modifies this
      ensures State() == old(State()).(photoTags := old(photoTags) + [row])
    {
      photoTags := photoTags + [row];
    }

    /** `photo.clear_tags(...)`, whose effect on the photo tag table is given
        as a function. */
    method ClearTags(clear: seq<PhotoTag> -> seq<PhotoTag>)
      modifies this
      ensures State() == old(State()).(photoTags := clear(old(photoTags)))
    {
      photoTags := clear(photoTags);
    }
  }
}
