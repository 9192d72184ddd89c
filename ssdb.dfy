/** The SSDB adapter. The SSDB client is not modelled: each operation takes
    `conn`, the reply the server gives to each command during that call
    (a status-prefixed list of strings, or a transport failure). */
module Ssdb {
  import opened Wrappers
  import opened CacheErrors
  import opened Values
  import GoInt
  import MultiGet

  /** The commands the adapter sends with `conn.Do`. */
  datatype Command =
    | MultiGet(keys: seq<string>)
    | Set(key: string, value: string)
    | Setx(key: string, value: string, ttl: int)
    | Exists(key: string)
    | Scan(keyStart: string, keyEnd: string, limit: int)
    | MultiDel(keys: seq<string>)

  /** What `conn.Do` gives back: the response strings, or an error. */
  datatype Reply = Response(items: seq<string>) | Failure(cause: string)

  /** CacheWithConninfo. */
  datatype CacheOption = WithConninfo(conninfo: seq<string>)

  /** The adapter's own state; the client handle it also holds is `conn`. */
  class Cache {
    var conninfo: seq<string>

    /** NewSsdbCache: the options run in order, so the last one decides. */
    constructor (opts: seq<CacheOption>)
      ensures conninfo == if opts == [] then [] else opts[|opts| - 1].conninfo
    {
      conninfo := [];
      new;
      for i := 0 to |opts|
        invariant conninfo == if i == 0 then [] else opts[i - 1].conninfo
      {
        Apply(opts[i]);
      }
    }

    method Apply(o: CacheOption)
      modifies this
      ensures conninfo == o.conninfo
    {
      conninfo := o.conninfo;
    }
  }

  // ---------------------------------------------------------------- GetMulti

  /** The first odd index at or after `n`: where the pairing loop stops. */
  function PairsEnd(n: nat): (e: nat)
    ensures e % 2 == 1 && n <= e <= n + 1
  {
    if n % 2 == 1 then n else n + 1
  }

  /** Pair `p` of a response is its elements `2p+1` (a key) and `2p+2` (its
      value); element 0 is the status. `KeyIndexUpTo(resp, h)` is the
      `keyIdx` map once the loop has visited the keys of the first `h` pairs. */
  function KeyIndexUpTo(resp: seq<string>, h: nat): map<string, nat>
    requires 2 * h <= |resp|
    decreases h
  {
    if h == 0 then map[] else KeyIndexUpTo(resp, h - 1)[resp[2 * h - 1] := 2 * h - 1]
  }

  /** The `keyIdx` map the loop builds from the whole response: it visits
      the odd indices below the length, |resp| / 2 of them. */
  function KeyIndex(resp: seq<string>): map<string, nat>
  {
    KeyIndexUpTo(resp, |resp| / 2)
  }

  /** A key is indexed exactly when it is the key of some pair. */
  lemma {:induction false} KeyIndexUpToHas(resp: seq<string>, h: nat, k: string)
    requires 2 * h <= |resp|
    ensures k in KeyIndexUpTo(resp, h) <==> exists p :: 0 <= p < h && resp[2 * p + 1] == k
    decreases h
  {
    if h > 0 {
      KeyIndexUpToHas(resp, h - 1, k);
      assert resp[2 * (h - 1) + 1] == resp[2 * h - 1];
    }
  }

  /** The index kept for a key is that of its last pair: a later pairing
      overwrites an earlier one. `p` is that pair. */
  lemma {:induction false} KeyIndexUpToLast(resp: seq<string>, h: nat, k: string) returns (p: nat)
    requires 2 * h <= |resp| && k in KeyIndexUpTo(resp, h)
    ensures p < h && KeyIndexUpTo(resp, h)[k] == 2 * p + 1 && resp[2 * p + 1] == k
    ensures forall q :: p < q < h ==> resp[2 * q + 1] != k
    decreases h
  {
    if resp[2 * h - 1] == k {
      p := h - 1;
    } else {
      p := KeyIndexUpToLast(resp, h - 1, k);
      assert resp[2 * (h - 1) + 1] == resp[2 * h - 1];
    }
  }

  /** Both facts for the map of the whole response. */
  lemma KeyIndexSpec(resp: seq<string>, k: string)
    ensures k in KeyIndex(resp) <==> exists q :: 0 <= q < |resp| / 2 && resp[2 * q + 1] == k
    ensures k in KeyIndex(resp) ==>
      exists p :: 0 <= p < |resp| / 2 && KeyIndex(resp)[k] == 2 * p + 1 && resp[2 * p + 1] == k &&
        forall q :: p < q < |resp| / 2 ==> resp[2 * q + 1] != k
  {
    KeyIndexUpToHas(resp, |resp| / 2, k);
    if k in KeyIndex(resp) {
      var p := KeyIndexUpToLast(resp, |resp| / 2, k);
    }
  }

  /** Reading `res[keyIdx[k]+1]` for every requested key stays in range: it
      only fails on a response of even length whose last element is a
      requested key. */
  predicate Pairable(keys: seq<string>, resp: seq<string>)
  {
    |resp| % 2 == 0 && |resp| > 0 ==> resp[|resp| - 1] !in keys
  }

  /** The value of a requested key lies inside the response. */
  lemma PairedIndexInRange(keys: seq<string>, resp: seq<string>, k: string)
    requires Pairable(keys, resp) && k in keys && k in KeyIndex(resp)
    ensures KeyIndex(resp)[k] + 1 < |resp|
  {
    var p := KeyIndexUpToLast(resp, |resp| / 2, k);
  }

  /** The value GetMulti puts in the slot of requested key `k`. */
  function PairedValue(keys: seq<string>, resp: seq<string>, k: string): Option<string>
    requires Pairable(keys, resp) && k in keys
  {
    if k in KeyIndex(resp) then
      PairedIndexInRange(keys, resp, k);
      Some(resp[KeyIndex(resp)[k] + 1])
    else None
  }

  /** A requested key's slot is filled exactly when the key is the key of
      some pair, and then with the value of one of its pairs. */
  lemma PairedValueSpec(keys: seq<string>, resp: seq<string>, k: string)
    requires Pairable(keys, resp) && k in keys
    ensures PairedValue(keys, resp, k).Some? <==> exists p :: 0 <= p < |resp| / 2 && resp[2 * p + 1] == k
    ensures PairedValue(keys, resp, k).Some? ==>
      exists p :: 0 <= p < |resp| / 2 && resp[2 * p + 1] == k && resp[2 * p + 2] == PairedValue(keys, resp, k).value
  {
    KeyIndexSpec(resp, k);
  }

  /** A key in several pairs gets the value of its last pair. */
  lemma LastPairingWins(keys: seq<string>, resp: seq<string>, k: string, p: nat)
    requires Pairable(keys, resp) && k in keys
    requires p < |resp| / 2 && resp[2 * p + 1] == k
    requires forall q :: p < q < |resp| / 2 ==> resp[2 * q + 1] != k
    ensures 2 * p + 2 < |resp| && PairedValue(keys, resp, k) == Some(resp[2 * p + 2])
  {
    KeyIndexSpec(resp, k);
    var m := KeyIndexUpToLast(resp, |resp| / 2, k);
    assert m == p;
    PairedIndexInRange(keys, resp, k);
  }

  /** The first loop of GetMulti: each key at an odd index of the response
      is mapped to that index, a later one overwriting an earlier. */
  method IndexKeys(res: seq<string>) returns (keyIdx: map<string, nat>)
    ensures keyIdx == KeyIndex(res)
  {
    var resSize := |res|;
    keyIdx := map[];
    var i := 1;
    ghost var h: nat := 0;
    while i < resSize
      invariant i == 2 * h + 1 && 2 * h <= resSize
      invariant keyIdx == KeyIndexUpTo(res, h)
    {
      keyIdx := keyIdx[res[i] := i];
      i := i + 2;
      h := h + 1;
    }
    assert h == resSize / 2;
  }

  /** The second loop of GetMulti: fills the slot of every requested key
      found in the index and collects a segment for every other. */
  method FillSlots(keys: seq<string>, res: seq<string>, keyIdx: map<string, nat>)
    returns (values: seq<Option<string>>, keysErr: seq<string>)
    requires Pairable(keys, res) && keyIdx == KeyIndex(res)
    ensures |values| == |keys|
    ensures forall i :: 0 <= i < |keys| ==> values[i] == PairedValue(keys, res, keys[i])
    ensures keysErr == MultiGet.MissingSegments(keys, keyIdx.Keys)
  {
    var size := |keys|;
    values := seq(size, _ => None);
    keysErr := [];
    for n := 0 to size
      invariant |values| == size
      invariant forall j :: 0 <= j < n ==> values[j] == PairedValue(keys, res, keys[j])
      invariant forall j :: n <= j < size ==> values[j] == None
      invariant keysErr == MultiGet.MissingSegments(keys[..n], keyIdx.Keys)
    {
      var ki := keys[n];
      assert keys[..n + 1] == keys[..n] + [ki];
      if ki !in keyIdx {
        keysErr := keysErr + [MultiGet.Segment(ki, MultiGet.NotExist)];
        continue;
      }
      PairedIndexInRange(keys, res, ki);
      values := values[n := Some(res[keyIdx[ki] + 1])];
    }
    assert keys[..size] == keys;
  }

  /** `GetMulti(keys)`: one slot per key, each holding the value paired with
      the key in the `multi_get` response; missing keys are reported
      together. A transport failure leaves every slot empty. */
  method GetMulti(keys: seq<string>, conn: Command -> Reply) returns (values: seq<Option<string>>, err: Option<CacheError>)
    requires conn(MultiGet(keys)).Response? ==> Pairable(keys, conn(MultiGet(keys)).items)
    ensures |values| == |keys|
    ensures conn(MultiGet(keys)).Failure? ==>
      (forall i :: 0 <= i < |keys| ==> values[i] == None) &&
      err == Some(SsdbCacheCurdFailed(conn(MultiGet(keys)).cause))
    ensures conn(MultiGet(keys)).Response? ==>
      var resp := conn(MultiGet(keys)).items;
      (forall i :: 0 <= i < |keys| ==> values[i] == PairedValue(keys, resp, keys[i])) &&
      (err == None <==> forall i :: 0 <= i < |keys| ==> keys[i] in KeyIndex(resp)) &&
      (err != None ==> err == Some(MultiGetFailed(MultiGet.Message(MultiGet.MissingSegments(keys, KeyIndex(resp).Keys)))))
  {
    var reply := conn(MultiGet(keys));
    if reply.Failure? {
      values := seq(|keys|, _ => None);
      return values, Some(SsdbCacheCurdFailed(reply.cause));
    }
    var res := reply.items;
    var keyIdx := IndexKeys(res);
    var keysErr;
    values, keysErr := FillSlots(keys, res, keyIdx);
    if |keysErr| != 0 {
      return values, Some(MultiGetFailed(MultiGet.Message(keysErr)));
    }
    return values, None;
  }

  // --------------------------------------------------------------------- Put

  /** `int(timeout / time.Second)` on a platform whose `int` is `ws` bits
      wide: the whole seconds, truncated toward zero, then cut to 32 bits on
      a 32-bit platform. */
  function TtlSeconds(ws: WordSize, timeout: int): (t: int)
    ensures ws == 64 ==> t == GoInt.Seconds(timeout)
    ensures ws == 32 ==> GoInt.MinInt32 <= t <= GoInt.MaxInt32 && (t - GoInt.Seconds(timeout)) % 0x1_0000_0000 == 0
    ensures GoInt.MinInt32 <= GoInt.Seconds(timeout) <= GoInt.MaxInt32 ==> t == GoInt.Seconds(timeout)
  {
    if ws == 32 then GoInt.ToInt32(GoInt.Seconds(timeout)) else GoInt.Seconds(timeout)
  }

  /** The command Put sends for a string value: `set` with no expiry when
      the whole seconds are negative, `setx` with them otherwise. */
  function PutCommand(ws: WordSize, key: string, v: string, timeout: int): (c: Command)
    ensures (c.Set? || c.Setx?) && c.key == key && c.value == v
    ensures c.Set? <==> TtlSeconds(ws, timeout) < 0
    ensures c.Setx? ==> c.ttl == TtlSeconds(ws, timeout) && 0 <= c.ttl
    ensures ws == 64 ==> (c.Set? <==> timeout <= -GoInt.Second)
  {
    var ttl := TtlSeconds(ws, timeout);
    if ttl < 0 then Set(key, v) else Setx(key, v, ttl)
  }

  /** The check of the reply to `set`/`setx`. */
  function PutReplyError(reply: Reply): (err: Option<CacheError>)
    ensures err == None <==> reply.Response? && |reply.items| == 2 && reply.items[0] == "ok"
    ensures reply.Failure? ==> err == Some(SsdbCacheCurdFailed(reply.cause))
    ensures reply.Response? && err != None ==> err == Some(SsdbBadResponse(reply.items))
  {
    match reply
    case Failure(cause) => Some(SsdbCacheCurdFailed(cause))
    case Response(resp) =>
      if |resp| == 2 && resp[0] == "ok" then None else Some(SsdbBadResponse(resp))
  }

  /** `Put(key, val, timeout)`: only string values are stored. */
  function Put(ws: WordSize, key: string, val: Value, timeout: int, conn: Command -> Reply): (err: Option<CacheError>)
    ensures !val.Str? ==> err == Some(InvalidSsdbCacheValue)
    ensures val.Str? ==> (err == None <==>
      var reply := conn(PutCommand(ws, key, val.s, timeout));
      reply.Response? && |reply.items| == 2 && reply.items[0] == "ok")
    ensures val.Str? ==>
      var reply := conn(PutCommand(ws, key, val.s, timeout));
      (reply.Failure? ==> err == Some(SsdbCacheCurdFailed(reply.cause))) &&
      (reply.Response? && err != None ==> err == Some(SsdbBadResponse(reply.items)))
  {
    if !val.Str? then Some(InvalidSsdbCacheValue)
    else PutReplyError(conn(PutCommand(ws, key, val.s, timeout)))
  }

  /** A value that is not a string is refused before the server is asked:
      the outcome does not depend on the server at all. */
  lemma NonStringSendsNothing(ws: WordSize, key: string, val: Value, timeout: int, c1: Command -> Reply, c2: Command -> Reply)
    requires !val.Str?
    ensures Put(ws, key, val, timeout, c1) == Put(ws, key, val, timeout, c2)
  {
  }

  /** A non-negative timeout is sent as its whole seconds with `setx`, when
      those fit the platform's `int`. */
  lemma LongTimeoutUsesSetx(ws: WordSize, key: string, v: string, seconds: nat, extra: nat)
    requires extra < GoInt.Second
    requires ws == 64 || seconds <= GoInt.MaxInt32
    ensures PutCommand(ws, key, v, seconds * GoInt.Second + extra) == Setx(key, v, seconds)
  {
    var c := PutCommand(ws, key, v, seconds * GoInt.Second + extra);
    assert GoInt.Seconds(seconds * GoInt.Second + extra) == seconds;
    assert c.ttl == seconds;
  }

  /** On a 32-bit platform a timeout of 2^31 seconds wraps to a negative
      count, so the value is stored with `set`, without expiry. */
  lemma WrappedTimeoutOn32Bit(key: string, v: string)
    ensures PutCommand(32, key, v, 0x8000_0000 * GoInt.Second) == Set(key, v)
  {
    assert GoInt.Seconds(0x8000_0000 * GoInt.Second) == 0x8000_0000;
  }

  /** A negative timeout shorter than a second truncates to zero seconds and
      is still sent with `setx`. */
  lemma ShortNegativeTimeoutUsesSetx(ws: WordSize, key: string, v: string, timeout: int)
    requires -GoInt.Second < timeout < 0
    ensures PutCommand(ws, key, v, timeout) == Setx(key, v, 0)
  {
    var c := PutCommand(ws, key, v, timeout);
    assert GoInt.Seconds(timeout) == 0;
    assert c.ttl == 0;
  }

  // ----------------------------------------------------------------- IsExist

  /** `IsExist(key)`: the `exists` reply is `[status, "1"]` for a present key. */
  function IsExist(key: string, conn: Command -> Reply): (r: (bool, Option<CacheError>))
    ensures conn(Exists(key)).Failure? ==> r == (false, Some(SsdbCacheCurdFailed(conn(Exists(key)).cause)))
    ensures conn(Exists(key)).Response? ==> r.1 == None
    ensures r.0 <==> var reply := conn(Exists(key)); reply.Response? && |reply.items| == 2 && reply.items[1] == "1"
  {
    match conn(Exists(key))
    case Failure(cause) => (false, Some(SsdbCacheCurdFailed(cause)))
    case Response(resp) => (|resp| == 2 && resp[1] == "1", None)
  }

  // ---------------------------------------------------------------- ClearAll

  /** ClearAll scans 50 keys at a time. */
  const ScanLimit: int := 50

  /** The elements at the odd indices 1, 3, 5, …: the keys of a scan page. */
  function OddElements(s: seq<string>): (r: seq<string>)
    ensures |r| == |s| / 2
    ensures forall k :: 0 <= k < |r| ==> r[k] == s[2 * k + 1]
    decreases |s|
  {
    if |s| < 2 then [] else [s[1]] + OddElements(s[2..])
  }

  /** The inner loop of ClearAll: the keys of one scan page. */
  method PageKeys(page: seq<string>) returns (keys: seq<string>)
    ensures keys == OddElements(page)
  {
    var size := |page|;
    keys := [];
    var i := 1;
    while i < size
      invariant i % 2 == 1 && 1 <= i <= PairsEnd(size)
      invariant |keys| == i / 2
      invariant forall k :: 0 <= k < |keys| ==> keys[k] == page[2 * k + 1]
    {
      keys := keys + [page[i]];
      i := i + 2;
    }
  }

  /** The scan starting after `keyStart` and those following it end within
      `fuel` pages: by a failed scan or delete, or by a page holding only
      the status. A page with no element at all has an empty key list
      deleted; if that delete succeeds the next start would be `resp[-2]`,
      so that case is excluded. */
  predicate ScanEnds(conn: Command -> Reply, keyStart: string, fuel: nat)
    decreases fuel
  {
    var resp := conn(Scan(keyStart, "", ScanLimit));
    resp.Failure? || |resp.items| == 1 ||
    (|resp.items| == 0 && conn(MultiDel([])).Failure?) ||
    (|resp.items| >= 2 && fuel > 0 &&
     (conn(MultiDel(OddElements(resp.items))).Failure? ||
      ScanEnds(conn, resp.items[|resp.items| - 2], fuel - 1)))
  }

  /** The outcome of the ClearAll loop from the scan after `keyStart`, and
      the commands it sends, in order. */
  function Drain(conn: Command -> Reply, keyStart: string, fuel: nat): (r: (Option<CacheError>, seq<Command>))
    requires ScanEnds(conn, keyStart, fuel)
    ensures |r.1| > 0 && r.1[0] == Scan(keyStart, "", ScanLimit)
    decreases fuel
  {
    var scan := Scan(keyStart, "", ScanLimit);
    var resp := conn(scan);
    if resp.Failure? then (Some(SsdbCacheCurdFailed(resp.cause)), [scan])
    else if |resp.items| == 1 then (None, [scan])
    else
      var del := MultiDel(OddElements(resp.items));
      if conn(del).Failure? then (Some(SsdbCacheCurdFailed(conn(del).cause)), [scan, del])
      else
        var rest := Drain(conn, resp.items[|resp.items| - 2], fuel - 1);
        (rest.0, [scan, del] + rest.1)
  }

  /** One turn of the ClearAll loop: a page that is not only the status
      has its keys deleted, and unless that fails the loop goes on after the
      page's last key. */
  lemma DrainDeletes(conn: Command -> Reply, keyStart: string, fuel: nat)
    requires ScanEnds(conn, keyStart, fuel)
    requires conn(Scan(keyStart, "", ScanLimit)).Response? && |conn(Scan(keyStart, "", ScanLimit)).items| != 1
    ensures |conn(Scan(keyStart, "", ScanLimit)).items| >= 2 ==> fuel > 0
    ensures
      var page := conn(Scan(keyStart, "", ScanLimit)).items;
      var del := MultiDel(OddElements(page));
      var d := Drain(conn, keyStart, fuel);
      (conn(del).Failure? ==> d == (Some(SsdbCacheCurdFailed(conn(del).cause)), [Scan(keyStart, "", ScanLimit), del])) &&
      (conn(del).Response? ==>
        |page| >= 2 && fuel > 0 &&
        ScanEnds(conn, page[|page| - 2], fuel - 1) &&
        d == (Drain(conn, page[|page| - 2], fuel - 1).0, [Scan(keyStart, "", ScanLimit), del] + Drain(conn, page[|page| - 2], fuel - 1).1))
  {
  }

  /** A failed delete ends ClearAll with that error. */
  lemma DrainStopsAtDelete(conn: Command -> Reply, keyStart: string, fuel: nat)
    requires ScanEnds(conn, keyStart, fuel)
    requires conn(Scan(keyStart, "", ScanLimit)).Response? && |conn(Scan(keyStart, "", ScanLimit)).items| != 1
    requires conn(MultiDel(OddElements(conn(Scan(keyStart, "", ScanLimit)).items))).Failure?
    ensures
      var del := MultiDel(OddElements(conn(Scan(keyStart, "", ScanLimit)).items));
      Drain(conn, keyStart, fuel) == (Some(SsdbCacheCurdFailed(conn(del).cause)), [Scan(keyStart, "", ScanLimit), del])
  {
  }

  /** A scan page with no element at all has an empty key list deleted;
      within ScanEnds that delete fails and ends ClearAll with its error. */
  lemma EmptyPageDeletesNothing(conn: Command -> Reply, keyStart: string, fuel: nat)
    requires ScanEnds(conn, keyStart, fuel)
    requires conn(Scan(keyStart, "", ScanLimit)).Response? && |conn(Scan(keyStart, "", ScanLimit)).items| == 0
    ensures conn(MultiDel([])).Failure?
    ensures Drain(conn, keyStart, fuel) ==
      (Some(SsdbCacheCurdFailed(conn(MultiDel([])).cause)), [Scan(keyStart, "", ScanLimit), MultiDel([])])
  {
    assert OddElements([]) == [];
  }

  /** The order of the commands ClearAll sends: a scan of 50 keys from a
      start key with no upper bound; unless its page holds only the status,
      a delete of exactly the keys at the page's odd indices; if that
      succeeds, the next scan, from the page's last key; and so on. */
  predicate Protocol(conn: Command -> Reply, s: seq<Command>)
    decreases |s|
  {
    |s| == 0 ||
    (s[0].Scan? && s[0].keyEnd == "" && s[0].limit == ScanLimit &&
     (|s| == 1 ||
      (var page := conn(s[0]);
       page.Response? && |page.items| != 1 && s[1] == MultiDel(OddElements(page.items)) &&
       (|s| == 2 ||
        (conn(s[1]).Response? && |page.items| >= 2 && s[2].Scan? && s[2].keyStart == page.items[|page.items| - 2] &&
         Protocol(conn, s[2..]))))))
  }

  /** ClearAll follows that order. */
  lemma {:induction false} DrainFollowsProtocol(conn: Command -> Reply, keyStart: string, fuel: nat)
    requires ScanEnds(conn, keyStart, fuel)
    ensures Protocol(conn, Drain(conn, keyStart, fuel).1)
    decreases fuel
  {
    var page := conn(Scan(keyStart, "", ScanLimit));
    if page.Response? && |page.items| != 1 {
      DrainDeletes(conn, keyStart, fuel);
      var del := MultiDel(OddElements(page.items));
      if conn(del).Response? {
        var next := page.items[|page.items| - 2];
        DrainFollowsProtocol(conn, next, fuel - 1);
        var s := Drain(conn, keyStart, fuel).1;
        assert s[2..] == Drain(conn, next, fuel - 1).1;
      }
    }
  }

  /** ClearAll succeeds exactly when it ends on a scan page holding only
      the status; otherwise the last command sent failed, and its error is
      the result. */
  lemma {:induction false} DrainOutcome(conn: Command -> Reply, keyStart: string, fuel: nat)
    requires ScanEnds(conn, keyStart, fuel)
    ensures var r := Drain(conn, keyStart, fuel);
      var last := conn(r.1[|r.1| - 1]);
      (r.0 == None <==> |r.1| % 2 == 1 && last.Response?) &&
      (r.0 == None ==> |last.items| == 1) &&
      (r.0 != None ==> last.Failure? && r.0 == Some(SsdbCacheCurdFailed(last.cause)))
    decreases fuel
  {
    var page := conn(Scan(keyStart, "", ScanLimit));
    if page.Response? && |page.items| != 1 {
      DrainDeletes(conn, keyStart, fuel);
      var del := MultiDel(OddElements(page.items));
      if conn(del).Response? {
        var next := page.items[|page.items| - 2];
        DrainOutcome(conn, next, fuel - 1);
        var rest := Drain(conn, next, fuel - 1).1;
        var s := Drain(conn, keyStart, fuel).1;
        assert s[|s| - 1] == rest[|rest| - 1];
      }
    }
  }

  /** The state of the ClearAll loop before it looks at the page `resp` of
      the scan after `keyStart`: `sent` is what it has sent so far, ending
      with that scan, and what remains to be sent and the outcome are those
      of the loop run from `keyStart`. */
  ghost predicate Pending(conn: Command -> Reply, fuel: nat, keyStart: string, f: nat, resp: Reply, sent: seq<Command>)
  {
    ScanEnds(conn, keyStart, f) && resp == conn(Scan(keyStart, "", ScanLimit)) &&
    ScanEnds(conn, "", fuel) &&
    |sent| > 0 && sent[|sent| - 1] == Scan(keyStart, "", ScanLimit) &&
    Drain(conn, "", fuel) == (Drain(conn, keyStart, f).0, sent[..|sent| - 1] + Drain(conn, keyStart, f).1)
  }

  /** A page holding only the status, or a failed delete, ends ClearAll
      with the commands sent so far. */
  lemma PendingStops(conn: Command -> Reply, fuel: nat, keyStart: string, f: nat, resp: Reply, sent: seq<Command>)
    requires Pending(conn, fuel, keyStart, f, resp, sent) && resp.Response?
    ensures |resp.items| == 1 ==> Drain(conn, "", fuel) == (None, sent)
    ensures |resp.items| != 1 && conn(MultiDel(OddElements(resp.items))).Failure? ==>
      var del := MultiDel(OddElements(resp.items));
      Drain(conn, "", fuel) == (Some(SsdbCacheCurdFailed(conn(del).cause)), sent + [del])
  {
    var scan := Scan(keyStart, "", ScanLimit);
    assert sent[..|sent| - 1] + [scan] == sent;
    if |resp.items| != 1 {
      DrainDeletes(conn, keyStart, f);
      var del := MultiDel(OddElements(resp.items));
      assert sent[..|sent| - 1] + [scan, del] == sent + [del];
    }
  }

  /** After a successful delete the loop is pending on the next scan, from
      the page's last key. */
  lemma PendingNext(conn: Command -> Reply, fuel: nat, keyStart: string, f: nat, resp: Reply, sent: seq<Command>)
    requires Pending(conn, fuel, keyStart, f, resp, sent) && resp.Response? && |resp.items| >= 2
    requires conn(MultiDel(OddElements(resp.items))).Response?
    ensures f > 0
    ensures
      var next := resp.items[|resp.items| - 2];
      Pending(conn, fuel, next, f - 1, conn(Scan(next, "", ScanLimit)),
        sent + [MultiDel(OddElements(resp.items)), Scan(next, "", ScanLimit)])
  {
    DrainDeletes(conn, keyStart, f);
    var scan := Scan(keyStart, "", ScanLimit);
    var del := MultiDel(OddElements(resp.items));
    var next := resp.items[|resp.items| - 2];
    var sent' := sent + [del, Scan(next, "", ScanLimit)];
    var rest := Drain(conn, next, f - 1).1;
    assert sent'[..|sent'| - 1] == sent + [del];
    assert sent[..|sent| - 1] + ([scan, del] + rest) == sent + [del] + rest;
  }

  /** One turn of the ClearAll loop, given the page `resp`. */
  method Turn(conn: Command -> Reply, ghost fuel: nat, keyStart: string, ghost f: nat, resp: Reply, sent: seq<Command>)
    returns (stop: bool, err: Option<CacheError>, sent': seq<Command>, next: string, nextResp: Reply, ghost nextF: nat)
    requires Pending(conn, fuel, keyStart, f, resp, sent) && resp.Response?
    ensures stop ==> (err, sent') == Drain(conn, "", fuel)
    ensures !stop ==> nextF < f && Pending(conn, fuel, next, nextF, nextResp, sent')
  {
    PendingStops(conn, fuel, keyStart, f, resp, sent);
    var size := |resp.items|;
    if size == 1 {
      return true, None, sent, "", resp, 0;
    }
    var keys := PageKeys(resp.items);
    var e := conn(MultiDel(keys));
    if e.Failure? {
      return true, Some(SsdbCacheCurdFailed(e.cause)), sent + [MultiDel(keys)], "", resp, 0;
    }
    PendingNext(conn, fuel, keyStart, f, resp, sent);
    next := resp.items[size - 2];
    nextResp := conn(Scan(next, "", ScanLimit));
    return false, None, sent + [MultiDel(keys), Scan(next, "", ScanLimit)], next, nextResp, f - 1;
  }

  /** `ClearAll`: delete every key, one scan page at a time, starting from
      the empty key; returns the outcome and the commands sent. */
  method ClearAll(conn: Command -> Reply, ghost fuel: nat) returns (err: Option<CacheError>, sent: seq<Command>)
    requires ScanEnds(conn, "", fuel)
    ensures (err, sent) == Drain(conn, "", fuel)
  {
    var keyStart := "";
    var resp := conn(Scan(keyStart, "", ScanLimit));
    sent := [Scan(keyStart, "", ScanLimit)];
    ghost var f := fuel;
    assert sent[..0] + Drain(conn, keyStart, f).1 == Drain(conn, keyStart, f).1;
    while resp.Response?
      invariant Pending(conn, fuel, keyStart, f, resp, sent)
      decreases f
    {
      var stop, e, sent', next, nextResp, nextF := Turn(conn, fuel, keyStart, f, resp, sent);
      if stop {
        return e, sent';
      }
      keyStart, resp, sent, f := next, nextResp, sent', nextF;
    }
    assert sent[..|sent| - 1] + [Scan(keyStart, "", ScanLimit)] == sent;
    return Some(SsdbCacheCurdFailed(resp.cause)), sent;
  }

  /** A scan that fails at once ends ClearAll with that error, having sent
      only the scan. */
  lemma FailedFirstScan(conn: Command -> Reply, fuel: nat)
    requires conn(Scan("", "", ScanLimit)).Failure?
    ensures Drain(conn, "", fuel) == (Some(SsdbCacheCurdFailed(conn(Scan("", "", ScanLimit)).cause)), [Scan("", "", ScanLimit)])
  {
  }
}
