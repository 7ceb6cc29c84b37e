/**
 * `BaseListSchema`: a list of objects is loaded through a schema whose only
 * field is `data` (a nested schema with `many=True`). The incoming list is
 * wrapped as `{'data': list}` before loading, the collection class is built
 * from `data['data']`, and dumping unwraps `data['data']` again.
 */
module ListSchemas {
  import opened Common
  import opened SchemaEngine

  /** The envelope key the list schemas declare. */
  const EnvelopeKey := "data"

  /** The collection classes bound by the list schemas' `Meta.decoding_class`. */
  datatype ListTarget = TokensList | PartnersPerTokenList | ChannelList

  datatype ListSchema = ListSchema(element: Schema, target: ListTarget)

  /** What `decoding_class(list_)` produces; its `data` attribute is the element list. */
  datatype Collection = Collection(cls: ListTarget, items: seq<Record>)

  /** Element-indexed errors, as the nested field reports them under `data`. */
  type ListErrors = map<nat, Errors>

  /** `wrap_data_envelope`: `dict(data=data)`. */
  function WrapEnvelope<T>(xs: seq<T>): map<string, seq<T>> {
    map[EnvelopeKey := xs]
  }

  /** `unwrap_data_envelope`: `data['data']`. */
  function UnwrapEnvelope<T>(env: map<string, seq<T>>): seq<T>
    requires EnvelopeKey in env
  {
    env[EnvelopeKey]
  }

  /** Wrapping yields a one-key map, and unwrapping it returns the list untouched. */
  lemma EnvelopeRoundTrip<T>(xs: seq<T>)
    ensures WrapEnvelope(xs).Keys == {EnvelopeKey}
    ensures UnwrapEnvelope(WrapEnvelope(xs)) == xs
  {
  }

  /** `BaseListSchema.make_object`: `decoding_class(data['data'])`. */
  function MakeListObject(target: ListTarget, data: map<string, seq<Record>>): Collection
    requires EnvelopeKey in data
  {
    Collection(target, data[EnvelopeKey])
  }

  datatype EachOutcome = EachOutcome(records: seq<Record>, errors: ListErrors)

  /** Gathers the per-element results of the nested load: objects in order, errors by index. */
  function Collect(rs: seq<Result<Record, Errors>>): (o: EachOutcome)
    ensures forall k :: k in o.errors ==> k < |rs|
  {
    if rs == [] then EachOutcome([], map[])
    else
      var acc := Collect(rs[..|rs| - 1]);
      match rs[|rs| - 1]
      case Success(rec) => acc.(records := acc.records + [rec])
      case Failure(e) => acc.(errors := acc.errors[|rs| - 1 := e])
  }

  /**
   * Exactly the failing indices carry their element's errors; when none
   * fails, the records are the elements' objects in the same order.
   */
  lemma {:induction false} CollectSpec(rs: seq<Result<Record, Errors>>)
    ensures var o := Collect(rs);
      forall i :: 0 <= i < |rs| ==>
        (i in o.errors <==> rs[i].Failure?) &&
        (i in o.errors ==> o.errors[i] == rs[i].error)
    ensures var o := Collect(rs);
      o.errors == map[] ==> (|o.records| == |rs| &&
        forall i :: 0 <= i < |rs| ==> rs[i] == Success(o.records[i]))
  {
    if rs != [] {
      var init := rs[..|rs| - 1];
      CollectSpec(init);
      assert forall i :: 0 <= i < |init| ==> rs[i] == init[i];
    }
  }

  /** The nested `many=True` load: each element through the element schema, in order. */
  function LoadEach(s: Schema, xs: seq<Payload>, prim: Primitives): (rs: seq<Result<Record, Errors>>)
    ensures |rs| == |xs|
    ensures forall i :: 0 <= i < |xs| ==> rs[i] == LoadObject(s, xs[i], prim)
  {
    seq(|xs|, i requires 0 <= i < |xs| => LoadObject(s, xs[i], prim))
  }

  /**
   * `ListSchema.load(raw_list).data`: wrap, load every element, then build
   * the collection from `data['data']`; one failing element fails it all.
   */
  function ListLoad(ls: ListSchema, xs: seq<Payload>, prim: Primitives): (r: Result<Collection, ListErrors>)
    ensures r.Success? <==> forall i :: 0 <= i < |xs| ==> LoadObject(ls.element, xs[i], prim).Success?
    ensures r.Success? ==> (r.value.cls == ls.target && |r.value.items| == |xs| &&
      forall i :: 0 <= i < |xs| ==> LoadObject(ls.element, xs[i], prim) == Success(r.value.items[i]))
    ensures r.Failure? ==> forall i :: 0 <= i < |xs| ==>
      (i in r.error <==> LoadObject(ls.element, xs[i], prim).Failure?) &&
      (i in r.error ==> r.error[i] == LoadObject(ls.element, xs[i], prim).error)
  {
    var env := WrapEnvelope(xs);
    var rs := LoadEach(ls.element, env[EnvelopeKey], prim);
    CollectSpec(rs);
    var each := Collect(rs);
    if each.errors == map[] then
      Success(MakeListObject(ls.target, map[EnvelopeKey := each.records]))
    else
      assert exists k :: k in each.errors;
      Failure(each.errors)
  }

  /** The nested `many=True` dump: every element in order. */
  function DumpEach(s: Schema, items: seq<Record>, out: Formatter): (r: seq<map<string, Raw>>)
    ensures |r| == |items|
    ensures forall i :: 0 <= i < |items| ==> r[i] == Dump(s, items[i], out)
  {
    if items == [] then [] else [Dump(s, items[0], out)] + DumpEach(s, items[1..], out)
  }

  /** `ListSchema.dump(collection).data`: dump `{'data': items}` then unwrap the envelope. */
  function ListDump(ls: ListSchema, c: Collection, out: Formatter): (r: seq<map<string, Raw>>)
    ensures |r| == |c.items|
    ensures forall i :: 0 <= i < |r| ==> r[i] == Dump(ls.element, c.items[i], out)
  {
    UnwrapEnvelope(map[EnvelopeKey := DumpEach(ls.element, c.items, out)])
  }
}
