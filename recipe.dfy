/** The last step of appv1.py's `generate_recipe`: the decoded model reply is unwrapped
    into the list of plan rows the editor shows. */
module Recipe {
  import opened Wrappers
  import opened Json
  import Extractor

  /** The first list-valued entry of an object, in insertion order. */
  function FirstList(fields: seq<(string, Json)>): (r: Option<Json>)
    ensures r.Some? ==> r.value.List?
    ensures r.Some? ==>
      exists k :: 0 <= k < |fields| && fields[k].1 == r.value && forall j :: 0 <= j < k ==> !fields[j].1.List?
    ensures r.None? ==> forall k :: 0 <= k < |fields| ==> !fields[k].1.List?
  {
    if |fields| == 0 then None
    else if fields[0].1.List? then Some(fields[0].1)
    else
      var r := FirstList(fields[1..]);
      if r.Some? then
        var k :| 0 <= k < |fields| - 1 && fields[1..][k].1 == r.value && forall j :: 0 <= j < k ==> !fields[1..][j].1.List?;
        assert fields[k + 1].1 == r.value;
        r
      else r
  }

  /** A dict holding a list yields its first list; a dict holding none is wrapped as a one-row
      list; anything else is returned as it is. */
  function Unwrap(parsed: Json): (r: Json)
    ensures !parsed.Object? ==> r == parsed
    ensures parsed.Object? ==> r.List?
    ensures parsed.Object? && (forall k :: 0 <= k < |parsed.fields| ==> !parsed.fields[k].1.List?)
            ==> r == List([parsed])
    ensures parsed.Object? ==>
      forall k ::
        (0 <= k < |parsed.fields| && parsed.fields[k].1.List? && forall j :: 0 <= j < k ==> !parsed.fields[j].1.List?)
        ==> r == parsed.fields[k].1
  {
    if !parsed.Object? then parsed
    else
      match FirstList(parsed.fields)
      case Some(v) => v
      case None => List([parsed])
  }

  /** `generate_recipe`: `None` when the model call or the decoding failed, else the unwrapped
      value. The reply is given already decoded; `None` stands for either failure. A reply that
      decodes to JSON `null` is returned as Python's `None` too, which the caller cannot tell
      from a failure. */
  function GenerateRecipe(decoded: Option<Json>): (r: Option<Json>)
    ensures r.None? <==> decoded.None? || decoded.value == Null
    ensures decoded.Some? && decoded.value != Null ==> r == Some(Unwrap(decoded.value))
    ensures r.Some? ==> !r.value.Object?
  {
    match decoded
    case None => None
    case Some(v) => if v == Null then None else Some(Unwrap(v))
  }

  /** Unwrapping is idempotent: a recipe that is already a list is kept. */
  lemma UnwrapIdempotent(parsed: Json)
    ensures Unwrap(Unwrap(parsed)) == Unwrap(parsed)
  {
  }

  /** A dict without lists reads, for the extractor, exactly as before it was wrapped. */
  lemma WrappedDictReadsTheSame(fields: seq<(string, Json)>, name: string)
    requires forall k :: 0 <= k < |fields| ==> !fields[k].1.List?
    ensures Extractor.GetListFromData(Extractor.Value(Unwrap(Object(fields))), name)
         == Extractor.GetListFromData(Extractor.Value(Object(fields)), name)
  {
    assert Unwrap(Object(fields)) == Extractor.Records([fields]);
    Extractor.SingleRecordIsOneRow(fields, name);
  }
}
