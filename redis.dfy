/** The redis adapter. Every cache key is stored under `key + ":" + k`; the
    redis client is not modelled: Scan and ClearAll take the replies the
    server gives to successive SCAN calls, and the reply to DEL. */
module Redis {
  import opened Wrappers
  import opened CacheErrors

  /** The shipped value of the package variable `DefaultKey`, the collection
      name used when no option sets one. The constructor takes the variable's
      current value as a parameter, since a program may reassign it. */
  const DefaultKey: string := "beecacheRedis"

  /** The SCAN count used when no option sets one. */
  const DefaultScanCount: int := 1024

  /** CacheWithScanCount and CacheWithKey. */
  datatype CacheOption = WithScanCount(count: int) | WithKey(key: string)

  /** The two settings of the adapter. */
  datatype Settings = Settings(key: string, scanCount: int)

  /** The settings NewRedisCache starts from, given the current `DefaultKey`. */
  function Defaults(defaultKey: string): Settings
  {
    Settings(defaultKey, DefaultScanCount)
  }

  function ApplyOption(s: Settings, o: CacheOption): Settings
  {
    match o
    case WithScanCount(n) => s.(scanCount := n)
    case WithKey(k) => s.(key := k)
  }

  /** The options applied one after another, first to last. */
  function ApplyOptions(s: Settings, opts: seq<CacheOption>): Settings
    decreases |opts|
  {
    if opts == [] then s else ApplyOptions(ApplyOption(s, opts[0]), opts[1..])
  }

  /** Applying one more option acts on the result of the others. The same
      fold as FileStore.ApplyOptionsLast, over the redis settings. */
  lemma {:induction false} ApplyOptionsLast(s: Settings, opts: seq<CacheOption>, o: CacheOption)
    ensures ApplyOptions(s, opts + [o]) == ApplyOption(ApplyOptions(s, opts), o)
    decreases |opts|
  {
    if opts != [] {
      assert (opts + [o])[1..] == opts[1..] + [o];
      ApplyOptionsLast(ApplyOption(s, opts[0]), opts[1..], o);
    }
  }

  /** The last WithKey decides the collection name, whatever comes before. */
  lemma LastKeyOptionWins(s: Settings, opts: seq<CacheOption>, k: string)
    ensures ApplyOptions(s, opts + [WithKey(k)]).key == k
    ensures ApplyOptions(s, opts + [WithKey(k)]).scanCount == ApplyOptions(s, opts).scanCount
  {
    ApplyOptionsLast(s, opts, WithKey(k));
  }

  /** One SCAN request: cursor, MATCH pattern, COUNT. */
  datatype ScanCall = ScanCall(cursor: nat, pattern: string, count: int)

  /** The answer to one SCAN: the keys and the next cursor, or an error. */
  datatype ScanReply = ScanPage(keys: seq<string>, cursor: nat) | ScanFailure(cause: string)

  /** Among the replies, one ends the iteration: an error or cursor 0. */
  predicate ScanEnds(pages: seq<ScanReply>)
    decreases |pages|
  {
    |pages| > 0 && (pages[0].ScanFailure? || pages[0].cursor == 0 || ScanEnds(pages[1..]))
  }

  /** The keys of the pages, in order. */
  function KeysOf(pages: seq<ScanReply>): (r: seq<string>)
    decreases |pages|
  {
    if pages == [] then []
    else (if pages[0].ScanPage? then pages[0].keys else []) + KeysOf(pages[1..])
  }

  /** The outcome of the Scan loop from `cursor` on, when `pages` are the
      replies to its calls, and the calls it makes. */
  function Collect(pages: seq<ScanReply>, cursor: nat, pattern: string, count: int): (r: (Result<seq<string>, CacheError>, seq<ScanCall>))
    requires ScanEnds(pages)
    ensures 0 < |r.1| <= |pages|
    ensures r.1[0] == ScanCall(cursor, pattern, count)
    decreases |pages|
  {
    var call := ScanCall(cursor, pattern, count);
    match pages[0]
    case ScanFailure(cause) => (Err(RedisClientError(cause)), [call])
    case ScanPage(ks, next) =>
      if next == 0 then (Ok(ks), [call])
      else
        var rest := Collect(pages[1..], next, pattern, count);
        (if rest.0.Ok? then Ok(ks + rest.0.value) else rest.0, [call] + rest.1)
  }

  /** A page with a cursor other than 0 is followed by the call with that
      cursor: its keys come before the rest. */
  lemma CollectStep(pages: seq<ScanReply>, cursor: nat, pattern: string, count: int)
    requires ScanEnds(pages) && pages[0].ScanPage? && pages[0].cursor != 0
    ensures ScanEnds(pages[1..])
    ensures var rest := Collect(pages[1..], pages[0].cursor, pattern, count);
      Collect(pages, cursor, pattern, count) ==
        (if rest.0.Ok? then Ok(pages[0].keys + rest.0.value) else rest.0, [ScanCall(cursor, pattern, count)] + rest.1)
  {
  }

  /** Each call after the first passes on the cursor of the reply before,
      which was a page with a cursor other than 0. */
  predicate FollowsCursors(pages: seq<ScanReply>, calls: seq<ScanCall>, pattern: string, count: int)
    requires |calls| <= |pages|
    decreases |calls|
  {
    |calls| <= 1 ||
    (pages[0].ScanPage? && pages[0].cursor != 0 && calls[1] == ScanCall(pages[0].cursor, pattern, count) &&
     FollowsCursors(pages[1..], calls[1..], pattern, count))
  }

  /** The calls of the Scan loop pass each cursor on. */
  lemma {:induction false} CollectFollowsCursors(pages: seq<ScanReply>, cursor: nat, pattern: string, count: int)
    requires ScanEnds(pages)
    ensures FollowsCursors(pages, Collect(pages, cursor, pattern, count).1, pattern, count)
    decreases |pages|
  {
    if pages[0].ScanPage? && pages[0].cursor != 0 {
      CollectStep(pages, cursor, pattern, count);
      CollectFollowsCursors(pages[1..], pages[0].cursor, pattern, count);
      var calls := Collect(pages, cursor, pattern, count).1;
      assert calls[1..] == Collect(pages[1..], pages[0].cursor, pattern, count).1;
    } else {
      assert |Collect(pages, cursor, pattern, count).1| == 1;
    }
  }

  /** The loop stops at the first reply that is an error or has cursor 0;
      the result is that error, or all keys gathered up to there. */
  lemma {:induction false} CollectStops(pages: seq<ScanReply>, cursor: nat, pattern: string, count: int)
    requires ScanEnds(pages)
    ensures var r := Collect(pages, cursor, pattern, count);
      var last := pages[|r.1| - 1];
      (last.ScanFailure? || last.cursor == 0) &&
      (r.0.Err? <==> last.ScanFailure?) &&
      (r.0.Err? ==> r.0.error == RedisClientError(last.cause)) &&
      (r.0.Ok? ==> r.0.value == KeysOf(pages[..|r.1|]))
    decreases |pages|
  {
    var r := Collect(pages, cursor, pattern, count);
    if pages[0].ScanPage? && pages[0].cursor == 0 {
      assert pages[..1][1..] == [];
    } else if pages[0].ScanPage? {
      CollectStep(pages, cursor, pattern, count);
      CollectStops(pages[1..], pages[0].cursor, pattern, count);
      var rest := Collect(pages[1..], pages[0].cursor, pattern, count);
      assert pages[|r.1| - 1] == pages[1..][|rest.1| - 1];
      var taken := pages[..|r.1|];
      assert taken[0] == pages[0] && taken[1..] == pages[1..][..|rest.1|];
    }
  }

  /** The pattern ClearAll scans for a collection: every key under it. */
  function CollectionPattern(key: string): string
  {
    key + ":*"
  }

  /** The strings a pattern `p*` matches: those starting with `p`. */
  predicate MatchesPrefixGlob(pattern: string, s: string)
    requires |pattern| > 0 && pattern[|pattern| - 1] == '*'
  {
    pattern[..|pattern| - 1] <= s
  }

  /** The adapter: the collection name and the SCAN count. */
  class Cache {
    var key: string
    var scanCount: int

    /** NewRedisCache: the current `DefaultKey` and a count of 1024, then
        the options in order. */
    constructor (defaultKey: string, opts: seq<CacheOption>)
      ensures Settings(key, scanCount) == ApplyOptions(Defaults(defaultKey), opts)
    {
      key := defaultKey;
      scanCount := DefaultScanCount;
      new;
      for i := 0 to |opts|
        invariant ApplyOptions(Settings(key, scanCount), opts[i..]) == ApplyOptions(Defaults(defaultKey), opts)
      {
        assert opts[i..][1..] == opts[i + 1..];
        Apply(opts[i]);
      }
    }

    method Apply(o: CacheOption)
      modifies this
      ensures Settings(key, scanCount) == ApplyOption(old(Settings(key, scanCount)), o)
    {
      match o
      case WithScanCount(n) => scanCount := n;
      case WithKey(k) => key := k;
    }

    /** `associate(k)`: the collection name, a colon, then the key. */
    function Associate(k: string): (r: string)
      reads this
      ensures |r| == |key| + 1 + |k|
      ensures r[..|key|] == key && r[|key|] == ':' && r[|key| + 1..] == k
    {
      key + ":" + k
    }

    /** Different keys are stored under different names. */
    lemma AssociateInjective(a: string, b: string)
      requires Associate(a) == Associate(b)
      ensures a == b
    {
      assert a == Associate(a)[|key| + 1..];
    }

    /** ClearAll's pattern covers every key the adapter stores. */
    lemma AssociatedKeysMatchCollection(k: string)
      ensures MatchesPrefixGlob(CollectionPattern(key), Associate(k))
    {
      var p := CollectionPattern(key);
      assert p[..|p| - 1] == key + ":";
    }

    /** `GetMulti(keys)`: the arguments of the MGET it sends, one associated
        name per key, in order. The MGET answer is returned as the client
        gives it. */
    method GetMulti(keys: seq<string>) returns (args: seq<string>)
      ensures |args| == |keys|
      ensures forall i :: 0 <= i < |keys| ==> args[i] == Associate(keys[i])
    {
      args := [];
      for i := 0 to |keys|
        invariant |args| == i
        invariant forall j :: 0 <= j < i ==> args[j] == Associate(keys[j])
      {
        args := args + [Associate(keys[i])];
      }
    }

    /** `Scan(pattern)`: start at cursor 0, gather each page's keys, stop at
        the first error or at cursor 0. `pages` are the server's replies to
        the calls in turn; `calls` are the calls made. */
    method Scan(pattern: string, pages: seq<ScanReply>) returns (res: Result<seq<string>, CacheError>, calls: seq<ScanCall>)
      requires ScanEnds(pages)
      ensures (res, calls) == Collect(pages, 0, pattern, scanCount)
    {
      var cursor: nat := 0;
      var acc: seq<string> := [];
      calls := [];
      var n := 0;
      assert calls + Collect(pages[n..], cursor, pattern, scanCount).1 == Collect(pages, 0, pattern, scanCount).1 by {
        assert pages[n..] == pages;
      }
      assert forall v: seq<string> :: acc + v == v;
      while true
        invariant 0 <= n < |pages| && ScanEnds(pages[n..])
        invariant var whole := Collect(pages, 0, pattern, scanCount);
          var rest := Collect(pages[n..], cursor, pattern, scanCount);
          whole.1 == calls + rest.1 && whole.0 == if rest.0.Ok? then Ok(acc + rest.0.value) else rest.0
        decreases |pages| - n
      {
        var reply := pages[n];
        calls := calls + [ScanCall(cursor, pattern, scanCount)];
        if reply.ScanFailure? {
          return Err(RedisClientError(reply.cause)), calls;
        }
        if reply.cursor == 0 {
          return Ok(acc + reply.keys), calls;
        }
        CollectStep(pages[n..], cursor, pattern, scanCount);
        assert pages[n..][1..] == pages[n + 1..];
        assert forall v: seq<string> :: acc + (reply.keys + v) == (acc + reply.keys) + v;
        acc := acc + reply.keys;
        cursor := reply.cursor;
        n := n + 1;
      }
    }

    /** `ClearAll`: scan the collection; on success delete what was found,
        if anything. `del` is the server's answer to DEL of those keys
        (an error text, or None). `deleted` is the DEL sent, if any. */
    method ClearAll(pages: seq<ScanReply>, del: seq<string> -> Option<string>)
      returns (err: Option<CacheError>, calls: seq<ScanCall>, deleted: Option<seq<string>>)
      requires ScanEnds(pages)
      ensures var r := Collect(pages, 0, CollectionPattern(key), scanCount);
        calls == r.1 &&
        (r.0.Err? ==> err == Some(r.0.error) && deleted == None) &&
        (r.0.Ok? && r.0.value == [] ==> err == None && deleted == None) &&
        (r.0.Ok? && r.0.value != [] ==>
          deleted == Some(r.0.value) &&
          err == if del(r.0.value).Some? then Some(RedisClientError(del(r.0.value).value)) else None)
    {
      var cachedKeys;
      cachedKeys, calls := Scan(CollectionPattern(key), pages);
      deleted := None;
      if cachedKeys.Err? {
        return Some(cachedKeys.error), calls, deleted;
      }
      if |cachedKeys.value| > 0 {
        deleted := Some(cachedKeys.value);
        var e := del(cachedKeys.value);
        if e.Some? {
          return Some(RedisClientError(e.value)), calls, deleted;
        }
      }
      return None, calls, deleted;
    }
  }

  /** Two pages, the first pointing on to cursor 2: both are requested, and
      their keys come back in order. */
  lemma TwoPageScan(a: seq<string>, b: seq<string>, pattern: string, count: int)
    ensures var pages := [ScanPage(a, 2), ScanPage(b, 0)];
      ScanEnds(pages) &&
      Collect(pages, 0, pattern, count) == (Ok(a + b), [ScanCall(0, pattern, count), ScanCall(2, pattern, count)])
  {
    var pages := [ScanPage(a, 2), ScanPage(b, 0)];
    CollectStep(pages, 0, pattern, count);
    assert pages[1..] == [ScanPage(b, 0)];
    assert Collect(pages[1..], 2, pattern, count) == (Ok(b), [ScanCall(2, pattern, count)]);
    assert [ScanCall(0, pattern, count)] + [ScanCall(2, pattern, count)] == [ScanCall(0, pattern, count), ScanCall(2, pattern, count)];
  }
}
