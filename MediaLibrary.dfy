/**
  The media library's keyed tables: every loaded media and every clip is
  stored under its UUID, in two separate tables, and both are searched with
  the same lookup helper.
*/
module MediaLibrary {
  import opened Optional

  /** A QUuid: a 128-bit value. */
  newtype Uuid = x: int | 0 <= x < 0x1_0000_0000_0000_0000_0000_0000_0000_0000

  /**
    The library's two tables. M and C stand for the stored media and clip
    pointers; a missing entry is None, where the source returns NULL.
  */
  datatype Library<M, C> = Library(medias: map<Uuid, M>, clips: map<Uuid, C>)

  /**
    Look a key up in a table: the element stored under uuid, or None when
    the table holds no entry for it. The table is a value and cannot change.
  */
  function GetElementByUuid<T>(container: map<Uuid, T>, uuid: Uuid): (r: Option<T>)
    ensures r.Some? <==> uuid in container
    ensures r.Some? ==> r.value == container[uuid]
  {
    if uuid in container then Some(container[uuid]) else None
  }

  /** A lookup finds exactly the key-element pairs the table holds. */
  lemma LookupMatchesItems<T>(container: map<Uuid, T>, uuid: Uuid, x: T)
    ensures GetElementByUuid(container, uuid) == Some(x) <==> (uuid, x) in container.Items
  {
  }

  /** An element just stored under a key is found under it; other keys see the old table. */
  lemma LookupAfterStore<T>(container: map<Uuid, T>, uuid: Uuid, x: T, other: Uuid)
    ensures GetElementByUuid(container[uuid := x], uuid) == Some(x)
    ensures other != uuid ==> GetElementByUuid(container[uuid := x], other) == GetElementByUuid(container, other)
  {
  }

  /** An element removed under a key is no longer found. */
  lemma LookupAfterRemove<T>(container: map<Uuid, T>, uuid: Uuid)
    ensures GetElementByUuid(container - {uuid}, uuid) == None
  {
  }

  /**
    The two tables are separate: replacing the media table never changes a
    clip lookup, and replacing the clip table never changes a media lookup.
  */
  lemma TablesAreSeparate<M, C>(lib: Library<M, C>, medias: map<Uuid, M>, clips: map<Uuid, C>, uuid: Uuid)
    ensures GetElementByUuid(lib.(medias := medias).clips, uuid) == GetElementByUuid(lib.clips, uuid)
    ensures GetElementByUuid(lib.(clips := clips).medias, uuid) == GetElementByUuid(lib.medias, uuid)
  {
  }
}
