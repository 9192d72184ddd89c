/** The error kinds the cache and its adapters return. Each kind carries the
    data its message is built from; the wording of the messages themselves
    belongs to the error library and is not part of this model. */
module CacheErrors {

  datatype CacheError =
    /** the stored item's expiry lies before "now" */
    | KeyExpired
    /** incr/decr on a value that is not one of the six integer kinds */
    | NotIntegerType
    | IncrementOverflow
    | DecrementOverflow
    /** the cache file could not be read (for one, it does not exist) */
    | ReadFileCacheContentFailed(filename: string)
    /** the aggregate of a GetMulti: the per-key segments joined by "; " */
    | MultiGetFailed(message: string)
    /** a failed ssdb command, wrapping the client's error */
    | SsdbCacheCurdFailed(cause: string)
    /** ssdb stores strings only */
    | InvalidSsdbCacheValue
    /** an ssdb reply of the wrong shape */
    | SsdbBadResponse(response: seq<string>)
    /** a failed memcache call, wrapping the client's error */
    | MemCacheCurdFailed(cause: string)
    /** memcache stores strings and byte slices only */
    | InvalidMemCacheValue
    /** an error of the redis client, passed through unchanged */
    | RedisClientError(cause: string)
}
