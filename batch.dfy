/** What both protocols do with a parsed body (`_generate_json_rpc_messages_from_dict`
    and `_handle_messages`): a JSON list is a batch whose elements are turned
    into messages one at a time, lazily, and dispatched as they come, so an
    element that fails stops the batch after the messages before it. */
module Batch {
  import opened Wrappers
  import opened JsonValue

  /** A Python exception: the name of its type and its text. */
  datatype Exception = Exception(kind: string, text: string)

  /** `f"{type(e).__name__}: {e}"`. */
  function ExceptionText(e: Exception): string {
    e.kind + ": " + e.text
  }

  /** The messages obtained before the first element that fails, and that
      failure, if any. */
  datatype Decoded<M> = Decoded(messages: seq<M>, failure: Option<Exception>)

  /** The generator over the elements of a list, consumed until it raises:
      every element before the first failing one yields its message. */
  function DecodeAll<M>(one: Json -> Result<M, Exception>, items: seq<Json>): (r: Decoded<M>)
    ensures |r.messages| <= |items|
    ensures r.failure.None? <==> |r.messages| == |items|
    ensures forall j :: 0 <= j < |r.messages| ==> one(items[j]) == Success(r.messages[j])
    ensures r.failure.Some? ==> one(items[|r.messages|]) == Failure(r.failure.value)
  {
    if items == [] then Decoded([], None)
    else match one(items[0])
      case Failure(e) => Decoded([], Some(e))
      case Success(m) =>
        var rest := DecodeAll(one, items[1..]);
        Decoded([m] + rest.messages, rest.failure)
  }

  /** A list is decoded element by element, any other value as one message. */
  function DecodeBody<M>(one: Json -> Result<M, Exception>, data: Json): (r: Decoded<M>)
    ensures data.JArray? ==> r == DecodeAll(one, data.items)
    ensures !data.JArray? && one(data).Success? ==> r == Decoded([one(data).value], None)
    ensures !data.JArray? && one(data).Failure? ==> r == Decoded([], Some(one(data).error))
  {
    if data.JArray? then DecodeAll(one, data.items)
    else match one(data)
      case Success(m) => Decoded([m], None)
      case Failure(e) => Decoded([], Some(e))
  }

  /** A batch whose every element is a valid message yields every one of
      them, in order, and no failure. */
  lemma {:induction false} WholeBatch<M>(one: Json -> Result<M, Exception>, items: seq<Json>, ms: seq<M>)
    requires |ms| == |items|
    requires forall j :: 0 <= j < |items| ==> one(items[j]) == Success(ms[j])
    ensures DecodeAll(one, items) == Decoded(ms, None)
    decreases |items|
  {
    if items != [] {
      assert one(items[0]) == Success(ms[0]);
      WholeBatch(one, items[1..], ms[1..]);
      assert ms == [ms[0]] + ms[1..];
    }
  }

  /** A batch whose first invalid element is element `|ms|` yields the
      messages of the elements before it, then the failure of that element. */
  lemma {:induction false} BatchStops<M>(one: Json -> Result<M, Exception>, items: seq<Json>, ms: seq<M>, e: Exception)
    requires |ms| < |items|
    requires forall j :: 0 <= j < |ms| ==> one(items[j]) == Success(ms[j])
    requires one(items[|ms|]) == Failure(e)
    ensures DecodeAll(one, items) == Decoded(ms, Some(e))
    decreases |ms|
  {
    if ms != [] {
      assert one(items[0]) == Success(ms[0]);
      assert items[1..][|ms[1..]|] == items[|ms|];
      BatchStops(one, items[1..], ms[1..], e);
      assert ms == [ms[0]] + ms[1..];
    }
  }
}
