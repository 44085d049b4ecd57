/** The records the remote catalog returns, as far as the ranking pipeline
    looks at them. A missing key is represented by the default the code
    reads for it (`''` for the title and username, no download link). */
module Tracks {

  datatype Option<T> = None | Some(value: T)

  /** A track's `id`: `NoId` stands for a missing key or a JSON null. */
  datatype Id = NoId | IntId(n: int) | StrId(s: string)

  /** Python truthiness of an `id` value. */
  predicate Truthy(id: Id)
  {
    match id
    case NoId => false
    case IntId(n) => n != 0
    case StrId(s) => s != ""
  }

  /** A track's `playback_count`: missing (read as 0), a value `int()`
      accepts, or one it rejects with an exception. */
  datatype PlayCount = NoCount | Count(n: int) | Unparsable

  /** One track dictionary: its `id`, `title`, `user.username`, whether
      `download_url` is truthy, its `playback_count` and the `_score` key
      the pipeline writes into it (absent until scored). */
  datatype Track = Track(
    id: Id,
    title: string,
    username: string,
    hasDownload: bool,
    plays: PlayCount,
    score: Option<real>)

  /** One element of a parsed JSON payload: a dictionary, or any other
      JSON value (list, string, number, boolean, null). */
  datatype Element = Obj(track: Track) | NonObj

  /** A parsed response body: a JSON array, a JSON object (its values in
      order), or anything else. A failed request (an exception, a
      timeout, or, for `fetch_global`, a non-200 status) is modelled as
      `OtherPayload`, which every fetcher turns into an empty list. */
  datatype Payload =
    | ListPayload(elems: seq<Element>)
    | DictPayload(values: seq<Element>)
    | OtherPayload

  /** No two tracks of `s` share an `id`. */
  ghost predicate DistinctIds(s: seq<Track>)
  {
    forall i, j :: 0 <= i < j < |s| ==> s[i].id != s[j].id
  }
}
