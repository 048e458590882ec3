/** The process-wide name dictionaries: space name to space id, and per space
    id, index name to index id. Each operation takes one lock for one read or
    write; sequentially, they are plain map operations. */
module Dict {
  import opened Base
  import opened Errors

  datatype Dictionaries = Dictionaries(spaces: map<string, u32>, indexes: map<u32, map<string, u32>>)

  /** The state at load time: both maps empty. */
  const Empty: Dictionaries := Dictionaries(map[], map[])

  /** `search_space_id`. */
  function SearchSpaceId(d: Dictionaries, name: string): (r: Option<u32>)
    ensures r.Some? <==> name in d.spaces
    ensures r.Some? ==> r.value == d.spaces[name]
  {
    if name in d.spaces then Some(d.spaces[name]) else None
  }

  /** `search_index_id`: absent when the space has no entry, or has one
      without `indexName`. */
  function SearchIndexId(d: Dictionaries, spaceId: u32, indexName: string): (r: Option<u32>)
    ensures r.Some? <==> spaceId in d.indexes && indexName in d.indexes[spaceId]
    ensures r.Some? ==> r.value == d.indexes[spaceId][indexName]
  {
    if spaceId in d.indexes && indexName in d.indexes[spaceId] then Some(d.indexes[spaceId][indexName])
    else None
  }

  /** `clear_dictionaries`: every lookup misses afterwards. */
  function ClearDictionaries(d: Dictionaries): (r: Dictionaries)
    ensures forall name :: SearchSpaceId(r, name).None?
    ensures forall spaceId, name :: SearchIndexId(r, spaceId, name).None?
  {
    Empty
  }

  /** `add_space_dict_entry`: inserts or overwrites one name; always succeeds. */
  function AddSpaceDictEntry(d: Dictionaries, spaceId: u32, name: string): (r: (Dictionaries, Result<()>))
    ensures r.1 == Ok(())
    ensures SearchSpaceId(r.0, name) == Some(spaceId)
    ensures forall other :: other != name ==> SearchSpaceId(r.0, other) == SearchSpaceId(d, other)
    ensures r.0.indexes == d.indexes
  {
    (d.(spaces := d.spaces[name := spaceId]), Ok(()))
  }

  /** `add_space_index_dict_entry`: creates the space's inner map on first use,
      then inserts or overwrites one index name in it; always succeeds. */
  function AddSpaceIndexDictEntry(d: Dictionaries, spaceId: u32, indexId: u32, name: string): (r: (Dictionaries, Result<()>))
    ensures r.1 == Ok(())
    ensures SearchIndexId(r.0, spaceId, name) == Some(indexId)
    ensures forall other :: other != name ==> SearchIndexId(r.0, spaceId, other) == SearchIndexId(d, spaceId, other)
    ensures forall sid, other :: sid != spaceId ==> SearchIndexId(r.0, sid, other) == SearchIndexId(d, sid, other)
    ensures spaceId in r.0.indexes
    ensures r.0.spaces == d.spaces
  {
    var inner := if spaceId in d.indexes then d.indexes[spaceId] else map[];
    (d.(indexes := d.indexes[spaceId := inner[name := indexId]]), Ok(()))
  }

  /** After a clear, adding one space entry makes exactly that name known. */
  lemma ClearThenAddSpace(d: Dictionaries, spaceId: u32, name: string, other: string)
    ensures var r := AddSpaceDictEntry(ClearDictionaries(d), spaceId, name).0;
      SearchSpaceId(r, other) == if other == name then Some(spaceId) else None
  {
  }

  /** Index names are scoped by space: the same name added under two spaces
      keeps both ids. */
  lemma IndexNamesArePerSpace(d: Dictionaries, s1: u32, s2: u32, i1: u32, i2: u32, name: string)
    requires s1 != s2
    ensures var d1 := AddSpaceIndexDictEntry(d, s1, i1, name).0;
      var d2 := AddSpaceIndexDictEntry(d1, s2, i2, name).0;
      SearchIndexId(d2, s1, name) == Some(i1) && SearchIndexId(d2, s2, name) == Some(i2)
  {
  }

  /** Adding the same entry twice is the same as adding it once. */
  lemma AddIsIdempotent(d: Dictionaries, spaceId: u32, indexId: u32, name: string)
    ensures var d1 := AddSpaceDictEntry(d, spaceId, name).0;
      AddSpaceDictEntry(d1, spaceId, name).0 == d1
    ensures var d1 := AddSpaceIndexDictEntry(d, spaceId, indexId, name).0;
      AddSpaceIndexDictEntry(d1, spaceId, indexId, name).0 == d1
  {
    var d1 := AddSpaceIndexDictEntry(d, spaceId, indexId, name).0;
    var inner := d1.indexes[spaceId];
    assert inner[name := indexId] == inner;
    assert d1.indexes[spaceId := inner] == d1.indexes;
  }
}
