/** The file cache adapter: each key is kept in its own file, named after the
    MD5 of the key, holding the value and its expiry. The files underneath
    CachePath are modelled as a map from file name to stored item; "now" is a
    parameter (nanoseconds on one clock). */
module FileStore {
  import opened Wrappers
  import opened CacheErrors
  import opened Values
  import Counter
  import GoStrings
  import GoInt
  import MultiGet

  /** A hex-encoded MD5 sum: 32 characters. */
  type Digest = s: string | |s| == 32 witness "00000000000000000000000000000000"

  /** FileCacheItem: what one cache file holds. Times in nanoseconds. */
  datatype FileCacheItem = FileCacheItem(Data: Value, Lastaccess: int, Expired: int)

  /** The horizon of an item kept "forever": 86400 * 365 * 10 seconds. */
  const TenYears: int := 86400 * 365 * 10 * GoInt.Second

  /** The four settings of a FileCache. */
  datatype FileCacheConfig = FileCacheConfig(CachePath: string, FileSuffix: string, DirectoryLevel: int, EmbedExpiry: int)

  /** The package-level settings as shipped: directory "cache", suffix ".bin",
      two directory levels, and an embed expiry of zero (whole seconds). */
  const DefaultConfig: FileCacheConfig := FileCacheConfig("cache", ".bin", 2, 0)

  /** The option functions FileCacheWith...; each sets one field. */
  datatype FileCacheOption =
    | WithCachePath(cachePath: string)
    | WithFileSuffix(fileSuffix: string)
    | WithDirectoryLevel(directoryLevel: int)
    | WithEmbedExpiry(embedExpiry: int)

  function ApplyOption(c: FileCacheConfig, o: FileCacheOption): FileCacheConfig
  {
    match o
    case WithCachePath(p) => c.(CachePath := p)
    case WithFileSuffix(s) => c.(FileSuffix := s)
    case WithDirectoryLevel(l) => c.(DirectoryLevel := l)
    case WithEmbedExpiry(e) => c.(EmbedExpiry := e)
  }

  /** The options applied one after another, first to last. */
  function ApplyOptions(c: FileCacheConfig, opts: seq<FileCacheOption>): FileCacheConfig
    decreases |opts|
  {
    if opts == [] then c else ApplyOptions(ApplyOption(c, opts[0]), opts[1..])
  }

  /** Applying one more option acts on the result of the others: the last
      option that sets a field decides it. */
  lemma {:induction false} ApplyOptionsLast(c: FileCacheConfig, opts: seq<FileCacheOption>, o: FileCacheOption)
    ensures ApplyOptions(c, opts + [o]) == ApplyOption(ApplyOptions(c, opts), o)
    decreases |opts|
  {
    if opts != [] {
      assert (opts + [o])[1..] == opts[1..] + [o];
      ApplyOptionsLast(ApplyOption(c, opts[0]), opts[1..], o);
    }
  }

  /** `filepath.Join` on names without "." or ".." elements: empty parts are
      dropped and the rest joined with "/". */
  function PathJoin(parts: seq<string>): string
    decreases |parts|
  {
    if parts == [] then ""
    else
      var init := PathJoin(parts[..|parts| - 1]);
      var last := parts[|parts| - 1];
      if last == "" then init else if init == "" then last else init + "/" + last
  }

  /** The directory `getCacheFileName` makes sure exists: CachePath, joined
      with the first one or two digit pairs of the digest at levels 1 and 2. */
  function CacheDir(cachePath: string, directoryLevel: int, h: Digest): string
  {
    if directoryLevel == 2 then PathJoin([cachePath, h[0..2], h[2..4]])
    else if directoryLevel == 1 then PathJoin([cachePath, h[0..2]])
    else cachePath
  }

  /** `getCacheFileName`: where the item for a key with digest `h` lives,
      written as one join of all its parts. */
  function CacheFileName(cachePath: string, fileSuffix: string, directoryLevel: int, h: Digest): string
  {
    if directoryLevel == 2 then PathJoin([cachePath, h[0..2], h[2..4], h + fileSuffix])
    else if directoryLevel == 1 then PathJoin([cachePath, h[0..2], h + fileSuffix])
    else PathJoin([cachePath, h + fileSuffix])
  }

  /** CachePath followed by a separator, or nothing for an empty CachePath. */
  function DirPrefix(cachePath: string): string
  {
    if cachePath == "" then "" else cachePath + "/"
  }

  /** A single part is its own join. */
  lemma PathJoinOne(a: string)
    ensures PathJoin([a]) == a
  {
    assert [a][..0] == [];
  }

  /** Joining one more non-empty part adds a separator unless nothing came
      before. */
  lemma PathJoinAppend(parts: seq<string>, last: string)
    requires last != ""
    ensures PathJoin(parts + [last]) == DirPrefix(PathJoin(parts)) + last
  {
    assert (parts + [last])[..|parts|] == parts;
  }

  lemma PathJoinTwo(c: string, a: string)
    requires a != ""
    ensures PathJoin([c, a]) == DirPrefix(c) + a
  {
    PathJoinOne(c);
    assert [c, a] == [c] + [a];
    PathJoinAppend([c], a);
  }

  lemma PathJoinThree(c: string, a: string, b: string)
    requires a != "" && b != ""
    ensures PathJoin([c, a, b]) == DirPrefix(c) + a + "/" + b
  {
    PathJoinTwo(c, a);
    assert [c, a, b] == [c, a] + [b];
    PathJoinAppend([c, a], b);
  }

  lemma PathJoinFour(c: string, a: string, b: string, n: string)
    requires a != "" && b != "" && n != ""
    ensures PathJoin([c, a, b, n]) == DirPrefix(c) + a + "/" + b + "/" + n
  {
    PathJoinThree(c, a, b);
    assert [c, a, b, n] == [c, a, b] + [n];
    PathJoinAppend([c, a, b], n);
  }

  /** The layout: level 2 is CachePath/h[0:2]/h[2:4]/h+suffix, level 1 is
      CachePath/h[0:2]/h+suffix, any other level CachePath/h+suffix. */
  lemma FileNameLayout(cachePath: string, fileSuffix: string, directoryLevel: int, h: Digest)
    ensures directoryLevel == 2 ==>
      CacheFileName(cachePath, fileSuffix, directoryLevel, h) == DirPrefix(cachePath) + h[0..2] + "/" + h[2..4] + "/" + (h + fileSuffix)
    ensures directoryLevel == 1 ==>
      CacheFileName(cachePath, fileSuffix, directoryLevel, h) == DirPrefix(cachePath) + h[0..2] + "/" + (h + fileSuffix)
    ensures directoryLevel != 1 && directoryLevel != 2 ==>
      CacheFileName(cachePath, fileSuffix, directoryLevel, h) == DirPrefix(cachePath) + (h + fileSuffix)
  {
    if directoryLevel == 2 {
      PathJoinFour(cachePath, h[0..2], h[2..4], h + fileSuffix);
    } else if directoryLevel == 1 {
      PathJoinThree(cachePath, h[0..2], h + fileSuffix);
    } else {
      PathJoinTwo(cachePath, h + fileSuffix);
    }
  }

  /** Under the shipped settings a key's file lies two digit-pair
      directories below "cache" and ends in ".bin", and a zero timeout
      keeps the item for ten years. */
  lemma ShippedSettings(h: Digest, now: int)
    ensures CacheFileName(DefaultConfig.CachePath, DefaultConfig.FileSuffix, DefaultConfig.DirectoryLevel, h) ==
      "cache/" + h[0..2] + "/" + h[2..4] + "/" + h + ".bin"
    ensures ExpiryFor(0, DefaultConfig.EmbedExpiry, now) == now + TenYears
  {
    FileNameLayout(DefaultConfig.CachePath, DefaultConfig.FileSuffix, DefaultConfig.DirectoryLevel, h);
    assert "cache/" + h[0..2] + "/" + h[2..4] + "/" + (h + ".bin") == "cache/" + h[0..2] + "/" + h[2..4] + "/" + h + ".bin";
  }

  /** The file lies in CacheDir: joining the directory and then the file
      name gives the same path. */
  lemma FileInCacheDir(cachePath: string, fileSuffix: string, directoryLevel: int, h: Digest)
    ensures CacheFileName(cachePath, fileSuffix, directoryLevel, h) ==
      PathJoin([CacheDir(cachePath, directoryLevel, h), h + fileSuffix])
  {
    FileNameLayout(cachePath, fileSuffix, directoryLevel, h);
    var dir := CacheDir(cachePath, directoryLevel, h);
    PathJoinTwo(dir, h + fileSuffix);
    if directoryLevel == 2 {
      PathJoinThree(cachePath, h[0..2], h[2..4]);
    } else if directoryLevel == 1 {
      PathJoinTwo(cachePath, h[0..2]);
    }
  }

  /** Keys whose digests differ are kept in different files. */
  lemma DistinctDigestsDistinctFiles(cachePath: string, fileSuffix: string, directoryLevel: int, h1: Digest, h2: Digest)
    requires h1 != h2
    ensures CacheFileName(cachePath, fileSuffix, directoryLevel, h1) != CacheFileName(cachePath, fileSuffix, directoryLevel, h2)
  {
    FileNameLayout(cachePath, fileSuffix, directoryLevel, h1);
    FileNameLayout(cachePath, fileSuffix, directoryLevel, h2);
    var f1 := CacheFileName(cachePath, fileSuffix, directoryLevel, h1);
    var f2 := CacheFileName(cachePath, fileSuffix, directoryLevel, h2);
    var e := |f1| - |fileSuffix|;
    assert f1[e - 32..e] == h1;
    if |f1| == |f2| {
      assert f2[e - 32..e] == h2;
    }
  }

  /** When an item written now with `timeout` expires. */
  function ExpiryFor(timeout: int, embedExpiry: int, now: int): (r: int)
    ensures timeout == embedExpiry ==> r - now == TenYears
    ensures timeout != embedExpiry ==> r - now == timeout
    ensures now < r <==> timeout == embedExpiry || timeout > 0
  {
    if timeout == embedExpiry then now + TenYears else now + timeout
  }

  /** `Get`'s reading of the file `fn`. */
  function ReadItem(files: map<string, FileCacheItem>, fn: string, now: int): (r: Result<Value, CacheError>)
    ensures r.Ok? <==> fn in files && now <= files[fn].Expired
    ensures r.Ok? ==> r.value == files[fn].Data
    ensures r == Err(KeyExpired) <==> fn in files && files[fn].Expired < now
    ensures fn !in files ==> r == Err(ReadFileCacheContentFailed(fn))
  {
    if fn !in files then Err(ReadFileCacheContentFailed(fn))
    else if files[fn].Expired < now then Err(KeyExpired)
    else Ok(files[fn].Data)
  }

  /** An item just written is read back until it expires. */
  lemma PutThenRead(files: map<string, FileCacheItem>, fn: string, v: Value, timeout: int, embedExpiry: int, now: int, later: int)
    ensures var written := files[fn := FileCacheItem(v, now, ExpiryFor(timeout, embedExpiry, now))];
      ReadItem(written, fn, later) ==
        if later <= ExpiryFor(timeout, embedExpiry, now) then Ok(v) else Err(KeyExpired)
  {
  }

  /** With the embed expiry as timeout the item outlives any reading within ten years. */
  lemma ForeverPut(files: map<string, FileCacheItem>, fn: string, v: Value, embedExpiry: int, now: int, later: int)
    requires later <= now + TenYears
    ensures ReadItem(files[fn := FileCacheItem(v, now, ExpiryFor(embedExpiry, embedExpiry, now))], fn, later) == Ok(v)
  {
  }

  /** The value as a GetMulti slot: nil when the read failed. */
  function Slot(r: Result<Value, CacheError>): Option<Value>
  {
    if r.Ok? then Some(r.value) else None
  }

  datatype Step = Up | Down

  /** `Incr`/`Decr`: read, step, write back with the embed expiry. The new
      file map and the error. */
  function UpdateCounter(files: map<string, FileCacheItem>, fn: string, now: int, embedExpiry: int, ws: WordSize, step: Step)
    : (r: (map<string, FileCacheItem>, Option<CacheError>))
    ensures ReadItem(files, fn, now).Err? ==> r == (files, Some(ReadItem(files, fn, now).error))
    ensures ReadItem(files, fn, now).Ok? ==>
      var v := ReadItem(files, fn, now).value;
      var s := if step == Up then Counter.Incr(ws, v) else Counter.Decr(ws, v);
      s.Err? ==> r == (files, Some(s.error))
    ensures r.1 != None ==> r.0 == files
    ensures r.1 == None <==>
      fn in files && now <= files[fn].Expired &&
      (if step == Up then Counter.Incr(ws, files[fn].Data).Ok? else Counter.Decr(ws, files[fn].Data).Ok?)
    ensures r.1 == None ==>
      && fn in r.0
      && r.0 == files[fn := FileCacheItem(r.0[fn].Data, now, now + TenYears)]
      && SameKind(r.0[fn].Data, files[fn].Data)
      && r.0[fn].Data.n == files[fn].Data.n + (if step == Up then 1 else -1)
  {
    match ReadItem(files, fn, now)
    case Err(e) => (files, Some(e))
    case Ok(v) =>
      var next := if step == Up then Counter.Incr(ws, v) else Counter.Decr(ws, v);
      match next
      case Err(e) => (files, Some(e))
      case Ok(nv) => (files[fn := FileCacheItem(nv, now, ExpiryFor(embedExpiry, embedExpiry, now))], None)
  }

  /** A successful Incr followed, within ten years, by a Decr restores the
      stored value and its kind; the item is then kept for ten years more. */
  lemma IncrThenDecrRestores(files: map<string, FileCacheItem>, fn: string, now: int, later: int, embedExpiry: int, ws: WordSize)
    requires fn in files && Representable(ws, files[fn].Data)
    requires UpdateCounter(files, fn, now, embedExpiry, ws, Up).1 == None
    requires later <= now + TenYears
    ensures var after := UpdateCounter(files, fn, now, embedExpiry, ws, Up).0;
      UpdateCounter(after, fn, later, embedExpiry, ws, Down) ==
        (files[fn := FileCacheItem(files[fn].Data, later, later + TenYears)], None)
  {
    var v := files[fn].Data;
    Counter.IncrThenDecr(ws, v);
    var nv := Counter.Incr(ws, v).value;
    var after := files[fn := FileCacheItem(nv, now, now + TenYears)];
    assert UpdateCounter(files, fn, now, embedExpiry, ws, Up).0 == after;
    assert ReadItem(after, fn, later) == Ok(nv);
    assert after[fn := FileCacheItem(v, later, later + TenYears)] == files[fn := FileCacheItem(v, later, later + TenYears)];
  }

  class FileCache {
    var CachePath: string
    var FileSuffix: string
    var DirectoryLevel: int
    var EmbedExpiry: int
    /** The cache files: file name to the item it holds. */
    var files: map<string, FileCacheItem>
    /** The hex MD5 of a key. */
    const md5: string -> Digest
    /** The text `err.Error()` gives for an error. */
    const errorText: CacheError -> string
    /** The platform's `strconv.IntSize`. */
    const intSize: WordSize

    function Config(): FileCacheConfig
      reads this
    {
      FileCacheConfig(CachePath, FileSuffix, DirectoryLevel, EmbedExpiry)
    }

    /** `NewFileCache`: every setting at its zero value, over the files `disk` already holds. */
    constructor (md5: string -> Digest, errorText: CacheError -> string, intSize: WordSize, disk: map<string, FileCacheItem>)
      ensures Config() == FileCacheConfig("", "", 0, 0)
      ensures files == disk && this.md5 == md5 && this.errorText == errorText && this.intSize == intSize
    {
      CachePath, FileSuffix, DirectoryLevel, EmbedExpiry := "", "", 0, 0;
      files := disk;
      this.md5, this.errorText, this.intSize := md5, errorText, intSize;
    }

    /** `NewFileCacheV2`: the package-level settings `globals`, then each option in turn. */
    constructor V2(md5: string -> Digest, errorText: CacheError -> string, intSize: WordSize,
                   disk: map<string, FileCacheItem>, globals: FileCacheConfig, opts: seq<FileCacheOption>)
      ensures Config() == ApplyOptions(globals, opts)
      ensures files == disk && this.md5 == md5 && this.errorText == errorText && this.intSize == intSize
    {
      CachePath, FileSuffix, DirectoryLevel := globals.CachePath, globals.FileSuffix, globals.DirectoryLevel;
      EmbedExpiry := globals.EmbedExpiry;
      files := disk;
      this.md5, this.errorText, this.intSize := md5, errorText, intSize;
      new;
      for i := 0 to |opts|
        invariant ApplyOptions(Config(), opts[i..]) == ApplyOptions(globals, opts)
        invariant files == disk
      {
        assert opts[i..][1..] == opts[i + 1..];
        Apply(opts[i]);
      }
    }

    /** Runs one option function on this cache. */
    method Apply(o: FileCacheOption)
      modifies this
      ensures Config() == ApplyOption(old(Config()), o)
      ensures files == old(files)
    {
      match o
      case WithCachePath(p) => CachePath := p;
      case WithFileSuffix(s) => FileSuffix := s;
      case WithDirectoryLevel(l) => DirectoryLevel := l;
      case WithEmbedExpiry(e) => EmbedExpiry := e;
    }

    /** `getCacheFileName(key)`: the key's file, inside the directory made
        for it from CachePath and the key's digest. */
    function FileName(key: string): (r: string)
      reads this
      ensures r == PathJoin([CacheDir(CachePath, DirectoryLevel, md5(key)), md5(key) + FileSuffix])
    {
      FileInCacheDir(CachePath, FileSuffix, DirectoryLevel, md5(key));
      CacheFileName(CachePath, FileSuffix, DirectoryLevel, md5(key))
    }

    /** `Get(key)` at time `now`. */
    function Get(key: string, now: int): (r: Result<Value, CacheError>)
      reads this
      ensures r.Ok? <==> FileName(key) in files && now <= files[FileName(key)].Expired
      ensures r.Ok? ==> r.value == files[FileName(key)].Data
      ensures r == Err(KeyExpired) <==> FileName(key) in files && files[FileName(key)].Expired < now
      ensures FileName(key) !in files ==> r == Err(ReadFileCacheContentFailed(FileName(key)))
    {
      ReadItem(files, FileName(key), now)
    }

    /** The `key [k] error: …` texts of the keys whose Get fails, in key order. */
    function FailureSegments(keys: seq<string>, now: int): (r: seq<string>)
      reads this
      ensures r == [] <==> forall i :: 0 <= i < |keys| ==> Get(keys[i], now).Ok?
    {
      if keys == [] then []
      else
        var k := keys[|keys| - 1];
        var g := Get(k, now);
        FailureSegments(keys[..|keys| - 1], now)
          + (if g.Err? then [MultiGet.Segment(k, errorText(g.error))] else [])
    }

    /** Every failing key has its segment. */
    lemma {:induction false} FailingKeyHasSegment(keys: seq<string>, now: int, i: nat)
      requires i < |keys| && Get(keys[i], now).Err?
      ensures MultiGet.Segment(keys[i], errorText(Get(keys[i], now).error)) in FailureSegments(keys, now)
      decreases |keys|
    {
      if i < |keys| - 1 {
        assert keys[..|keys| - 1][i] == keys[i];
        FailingKeyHasSegment(keys[..|keys| - 1], now, i);
      }
    }

    /** The aggregate error names every key whose Get fails. */
    lemma FailureMessageMentionsKeys(keys: seq<string>, now: int, i: nat)
      requires i < |keys| && Get(keys[i], now).Err?
      ensures GoStrings.Mentions(MultiGet.Message(FailureSegments(keys, now)), keys[i])
    {
      FailingKeyHasSegment(keys, now, i);
      MultiGet.MessageMentionsKey(FailureSegments(keys, now), keys[i], errorText(Get(keys[i], now).error));
    }

    /** The outcome of Get for each key, in key order. */
    function Outcomes(keys: seq<string>, now: int): (r: seq<Result<Value, CacheError>>)
      reads this
      ensures |r| == |keys|
    {
      if keys == [] then [] else Outcomes(keys[..|keys| - 1], now) + [Get(keys[|keys| - 1], now)]
    }

    lemma {:induction false} OutcomeOf(keys: seq<string>, now: int, i: nat)
      requires i < |keys|
      ensures Outcomes(keys, now)[i] == Get(keys[i], now)
      decreases |keys|
    {
      if i < |keys| - 1 {
        assert keys[..|keys| - 1][i] == keys[i];
        OutcomeOf(keys[..|keys| - 1], now, i);
      }
    }

    /** `GetMulti(keys)`: one slot per key, nil where Get fails; an error iff some Get fails. */
    method GetMulti(keys: seq<string>, now: int) returns (values: seq<Option<Value>>, err: Option<CacheError>)
      ensures |values| == |keys|
      ensures forall i :: 0 <= i < |keys| ==> values[i] == Slot(Get(keys[i], now))
      ensures err == None <==> forall i :: 0 <= i < |keys| ==> Get(keys[i], now).Ok?
      ensures err != None ==> err == Some(MultiGetFailed(MultiGet.Message(FailureSegments(keys, now))))
    {
      var rc: seq<Option<Value>> := seq(|keys|, _ => None);
      var keysErr: seq<string> := [];
      ghost var outs: seq<Result<Value, CacheError>> := [];
      for i := 0 to |keys|
        invariant |rc| == |keys| && outs == Outcomes(keys[..i], now)
        invariant forall j :: 0 <= j < i ==> rc[j] == Slot(outs[j])
        invariant forall j :: i <= j < |keys| ==> rc[j] == None
        invariant keysErr == FailureSegments(keys[..i], now)
      {
        assert keys[..i + 1][..i] == keys[..i];
        var val := Get(keys[i], now);
        outs := outs + [val];
        if val.Err? {
          keysErr := keysErr + [MultiGet.Segment(keys[i], errorText(val.error))];
          continue;
        }
        rc := rc[i := Some(val.value)];
      }
      assert keys[..|keys|] == keys;
      forall i | 0 <= i < |keys|
        ensures rc[i] == Slot(Get(keys[i], now))
      {
        OutcomeOf(keys, now, i);
      }
      values := rc;
      if |keysErr| == 0 {
        err := None;
      } else {
        err := Some(MultiGetFailed(MultiGet.Message(keysErr)));
      }
    }

    /** `Put(key, val, timeout)`: the item expires ten years from now when
        `timeout` equals EmbedExpiry (compared as raw integers), else `timeout` from now. */
    method Put(key: string, val: Value, timeout: int, now: int)
      modifies this`files
      ensures files == old(files)[FileName(key) := FileCacheItem(val, now, ExpiryFor(timeout, EmbedExpiry, now))]
    {
      var item := FileCacheItem(val, 0, 0);
      if timeout == EmbedExpiry {
        item := item.(Expired := now + TenYears);
      } else {
        item := item.(Expired := now + timeout);
      }
      item := item.(Lastaccess := now);
      var fn := FileName(key);
      files := files[fn := item];
    }

    /** `Delete(key)`: removes the key's file if there is one; never fails. */
    method Delete(key: string) returns (err: Option<CacheError>)
      modifies this`files
      ensures err == None
      ensures files == old(files) - {FileName(key)}
      ensures FileName(key) !in old(files) ==> files == old(files)
    {
      var fn := FileName(key);
      if fn in files {
        files := files - {fn};
      }
      err := None;
    }

    /** `Incr(key)`. */
    method Incr(key: string, now: int) returns (err: Option<CacheError>)
      modifies this`files
      ensures (files, err) == UpdateCounter(old(files), FileName(key), now, EmbedExpiry, intSize, Up)
    {
      var data := Get(key, now);
      if data.Err? {
        return Some(data.error);
      }
      var val := Counter.Incr(intSize, data.value);
      if val.Err? {
        return Some(val.error);
      }
      Put(key, val.value, EmbedExpiry, now);
      return None;
    }

    /** `Decr(key)`. */
    method Decr(key: string, now: int) returns (err: Option<CacheError>)
      modifies this`files
      ensures (files, err) == UpdateCounter(old(files), FileName(key), now, EmbedExpiry, intSize, Down)
    {
      var data := Get(key, now);
      if data.Err? {
        return Some(data.error);
      }
      var val := Counter.Decr(intSize, data.value);
      if val.Err? {
        return Some(val.error);
      }
      Put(key, val.value, EmbedExpiry, now);
      return None;
    }

    /** `IsExist(key)`: whether the key's file exists. */
    function IsExist(key: string): (b: bool)
      reads this
      ensures b ==> forall now :: Get(key, now).Ok? || Get(key, now) == Err(KeyExpired)
      ensures !b ==> forall now :: Get(key, now) == Err(ReadFileCacheContentFailed(FileName(key)))
    {
      FileName(key) in files
    }

    /** An expired item still exists: only a missing file makes IsExist false. */
    lemma IsExistIgnoresExpiry(key: string, now: int)
      ensures IsExist(key) <==> Get(key, now).Ok? || Get(key, now) == Err(KeyExpired)
    {
    }

    /** `ClearAll`: not implemented by the file adapter; removes nothing. */
    method ClearAll() returns (err: Option<CacheError>)
      ensures err == None
    {
      err := None;
    }
  }
}
