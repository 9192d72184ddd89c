/** The memcache adapter. The memcache client is not modelled: each
    operation takes the client's answer to the request it makes. */
module MemCache {
  import opened Wrappers
  import opened CacheErrors
  import opened Values
  import GoStrings
  import GoInt
  import MultiGet

  /** `memcache.Item`: the fields the adapter sets. Expiration is in seconds
      and 32 bits wide. */
  datatype Item = Item(Key: string, Value: seq<GoStrings.byte>, Expiration: int)

  /** CacheWithConninfo. */
  datatype CacheOption = WithConninfo(conninfo: seq<string>)

  /** The adapter's own state; the client handle it also holds is not modelled. */
  class Cache {
    var conninfo: seq<string>

    /** NewMemCacheV2: the options run in order, so the last one decides. */
    constructor (opts: seq<CacheOption>)
      ensures conninfo == if opts == [] then [] else opts[|opts| - 1].conninfo
    {
      conninfo := [];
      new;
      for i := 0 to |opts|
        invariant conninfo == if i == 0 then [] else opts[i - 1].conninfo
      {
        Apply(opts[i]);
      }
    }

    method Apply(o: CacheOption)
      modifies this
      ensures conninfo == o.conninfo
    {
      conninfo := o.conninfo;
    }
  }

  /** `Get(key)`, given the client's answer to `conn.Get(key)`: the item's
      bytes, or the client's error wrapped as MemCacheCurdFailed. */
  function Get(reply: Result<Item, string>): (r: Result<seq<GoStrings.byte>, CacheError>)
    ensures r.Ok? <==> reply.Ok?
    ensures r.Ok? ==> r.value == reply.value.Value
    ensures r.Err? ==> r.error == MemCacheCurdFailed(reply.error)
  {
    match reply
    case Ok(item) => Ok(item.Value)
    case Err(cause) => Err(MemCacheCurdFailed(cause))
  }

  /** `IsExist(key)`: `(err == nil, err)` of Get. */
  function IsExist(reply: Result<Item, string>): (r: (bool, Option<CacheError>))
    ensures r.0 <==> r.1 == None
    ensures r.0 <==> reply.Ok?
    ensures !r.0 ==> r.1 == Some(MemCacheCurdFailed(reply.error))
  {
    var g := Get(reply);
    if g.Ok? then (true, None) else (false, Some(g.error))
  }

  /** `GetMulti(keys)`, given the client's answer to `conn.GetMulti(keys)`:
      one slot per key, holding the bytes of the item returned for it; the
      keys with no item are reported together. */
  method GetMulti(keys: seq<string>, reply: Result<map<string, Item>, string>)
    returns (values: seq<Option<seq<GoStrings.byte>>>, err: Option<CacheError>)
    ensures |values| == |keys|
    ensures reply.Err? ==>
      (forall i :: 0 <= i < |keys| ==> values[i] == None) && err == Some(MemCacheCurdFailed(reply.error))
    ensures reply.Ok? ==>
      var mv := reply.value;
      (forall i :: 0 <= i < |keys| ==> values[i] == if keys[i] in mv then Some(mv[keys[i]].Value) else None) &&
      (err == None <==> forall i :: 0 <= i < |keys| ==> keys[i] in mv) &&
      (err != None ==> err == Some(MultiGetFailed(MultiGet.Message(MultiGet.MissingSegments(keys, mv.Keys)))))
  {
    values := seq(|keys|, _ => None);
    if reply.Err? {
      return values, Some(MemCacheCurdFailed(reply.error));
    }
    var mv := reply.value;
    var keysErr: seq<string> := [];
    for i := 0 to |keys|
      invariant |values| == |keys|
      invariant forall j :: 0 <= j < i ==> values[j] == if keys[j] in mv then Some(mv[keys[j]].Value) else None
      invariant forall j :: i <= j < |keys| ==> values[j] == None
      invariant keysErr == MultiGet.MissingSegments(keys[..i], mv.Keys)
    {
      var ki := keys[i];
      assert keys[..i + 1] == keys[..i] + [ki];
      if ki !in mv {
        keysErr := keysErr + [MultiGet.Segment(ki, MultiGet.NotExist)];
        continue;
      }
      values := values[i := Some(mv[ki].Value)];
    }
    assert keys[..|keys|] == keys;
    if |keysErr| == 0 {
      return values, None;
    }
    return values, Some(MultiGetFailed(MultiGet.Message(keysErr)));
  }

  /** `Put(key, val, timeout)`: the item handed to `conn.Set`, or the refusal
      of a value that is neither bytes nor a string (then nothing is sent).
      The expiration is the timeout in whole seconds, truncated toward zero
      and cast to 32 bits. */
  method Put(key: string, val: Value, timeout: int) returns (r: Result<Item, CacheError>)
    ensures r.Ok? <==> val.Bytes? || val.Str?
    ensures r.Err? ==> r.error == InvalidMemCacheValue
    ensures r.Ok? ==> r.value.Key == key && r.value.Expiration == GoInt.ToInt32(GoInt.Seconds(timeout))
    ensures r.Ok? && val.Bytes? ==> r.value.Value == val.b
    ensures r.Ok? && val.Str? ==> r.value.Value == GoStrings.Utf8(val.s)
  {
    var item := Item(key, [], GoInt.ToInt32(GoInt.Seconds(timeout)));
    if val.Bytes? {
      item := item.(Value := val.b);
    } else if val.Str? {
      item := item.(Value := GoStrings.Utf8(val.s));
    } else {
      return Err(InvalidMemCacheValue);
    }
    return Ok(item);
  }

  /** A timeout of up to 2^31-1 whole seconds (plus less than a second)
      keeps its exact second count as the expiration. */
  lemma WholeSecondsExpiration(seconds: nat, extra: nat)
    requires seconds <= GoInt.MaxInt32 && extra < GoInt.Second
    ensures GoInt.ToInt32(GoInt.Seconds(seconds * GoInt.Second + extra)) == seconds
  {
    assert GoInt.Seconds(seconds * GoInt.Second + extra) == seconds;
  }
}
