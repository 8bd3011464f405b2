/** The parsed programme guide as the feed generator reads it: the `tv` root with its
    `programme` entries, each with `channel` and `start` attributes and `title` and
    `desc` child lists. */
module Epg {
  import opened Wrappers

  /** The attribute object `p.$` of a programme element. */
  datatype Attributes = Attributes(channel: Option<string>, start: Option<string>)

  /** One `programme` element. `attrs` is `None` when the element has no attributes at
      all; `titles` and `descs` are the texts of its `title` and `desc` children, in
      document order (an absent child list is empty). */
  datatype Programme = Programme(attrs: Option<Attributes>, titles: seq<string>, descs: seq<string>)

  /** The `tv` root element; `programme` is `None` when it has no programme children. */
  datatype Tv = Tv(programme: Option<seq<Programme>>)

  /** The parsed document; `tv` is `None` when the root element is not `tv`. */
  datatype EpgDocument = EpgDocument(tv: Option<Tv>)

  /** Why a run produces no feed. `ParseFailed`: the sanitized text is not a
      well-formed document. `MissingTvRoot`: `result.tv` is undefined, so reading
      `programme` from it throws. `MissingAttributes`: a selected programme has no
      attribute object, so `p.$.channel` throws. */
  datatype Error = ParseFailed | MissingTvRoot | MissingAttributes

  /** `list?.[0]`: the first value of a child list, if there is one. */
  function First(values: seq<string>): (r: Option<string>)
    ensures r.None? <==> values == []
    ensures r.Some? ==> r.value == values[0]
  {
    if values == [] then None else Some(values[0])
  }

  /** `value || fallback`: the value when it is present and not the empty string (the
      only falsy strings in JavaScript), the fallback otherwise. */
  function OrElse(value: Option<string>, fallback: string): (r: string)
    ensures value.Some? && value.value != "" ==> r == value.value
    ensures value.None? || value.value == "" ==> r == fallback
  {
    if value.Some? && value.value != "" then value.value else fallback
  }
}
