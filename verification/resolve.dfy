/** Space and index name resolution (`get_space_id`, `get_index_id`,
    `get_space_and_index_id`). Every resolution asks the host; the name
    dictionaries are not consulted here. */
module Resolve {
  import opened Base
  import opened Errors
  import opened Host

  function UnknownSpaceMessage(spaceName: string): string {
    "unknown space name! space name=" + spaceName
  }

  function UnknownIndexMessage(spaceName: string, indexName: string): string {
    "unknown index name! space name=" + Quoted(spaceName) + " index name=" + indexName + " "
  }

  /** `get_space_id`: one host lookup; the reserved id means "unknown name". */
  function GetSpaceId(spaceName: string, host: Host): (r: Traced<u32>)
    ensures r.calls == [SpaceIdByName(spaceName)]
    ensures r.result.Ok? <==> host.spaceIdByName(spaceName) != BoxIdNil
    ensures r.result.Ok? ==> r.result.value == host.spaceIdByName(spaceName) && r.result.value != BoxIdNil
    ensures r.result.Err? ==> r.result == MakeError(UnknownSpaceMessage(spaceName), host.lastError)
  {
    var id := host.spaceIdByName(spaceName);
    if id == BoxIdNil then
      Traced(MakeError(UnknownSpaceMessage(spaceName), host.lastError), [SpaceIdByName(spaceName)])
    else
      Traced(Ok(id), [SpaceIdByName(spaceName)])
  }

  /** `get_index_id`: one host lookup of `indexName` within space `spaceId`;
      `spaceName` only labels the error. */
  function GetIndexId(spaceName: string, spaceId: u32, indexName: string, host: Host): (r: Traced<u32>)
    ensures r.calls == [IndexIdByName(spaceId, indexName)]
    ensures r.result.Ok? <==> host.indexIdByName(spaceId, indexName) != BoxIdNil
    ensures r.result.Ok? ==> r.result.value == host.indexIdByName(spaceId, indexName) && r.result.value != BoxIdNil
    ensures r.result.Err? ==> r.result == MakeError(UnknownIndexMessage(spaceName, indexName), host.lastError)
  {
    var id := host.indexIdByName(spaceId, indexName);
    if id == BoxIdNil then
      Traced(MakeError(UnknownIndexMessage(spaceName, indexName), host.lastError), [IndexIdByName(spaceId, indexName)])
    else
      Traced(Ok(id), [IndexIdByName(spaceId, indexName)])
  }

  /** `get_space_and_index_id`: the space first; the index lookup happens only
      when the space resolved, and under the id it resolved to. */
  function GetSpaceAndIndexId(spaceName: string, indexName: string, host: Host): (r: Traced<(u32, u32)>)
    ensures |r.calls| >= 1 && r.calls[0] == SpaceIdByName(spaceName)
    ensures host.spaceIdByName(spaceName) == BoxIdNil ==>
      r == Traced(MakeError(UnknownSpaceMessage(spaceName), host.lastError), [SpaceIdByName(spaceName)])
    ensures host.spaceIdByName(spaceName) != BoxIdNil ==>
      var sid := host.spaceIdByName(spaceName);
      && r.calls == [SpaceIdByName(spaceName), IndexIdByName(sid, indexName)]
      && (r.result.Ok? <==> host.indexIdByName(sid, indexName) != BoxIdNil)
      && (r.result.Ok? ==> r.result.value == (sid, host.indexIdByName(sid, indexName)))
      && (r.result.Err? ==> r.result == MakeError(UnknownIndexMessage(spaceName, indexName), host.lastError))
  {
    var s := GetSpaceId(spaceName, host);
    match s.result
    case Err(e) => Traced(Err(e), s.calls)
    case Ok(spaceId) =>
      var i := GetIndexId(spaceName, spaceId, indexName, host);
      match i.result
      case Err(e) => Traced(Err(e), s.calls + i.calls)
      case Ok(indexId) => Traced(Ok((spaceId, indexId)), s.calls + i.calls)
  }
}
