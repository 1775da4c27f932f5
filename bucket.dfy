/** One bucket of a bucket aggregation's response. */
module Buckets {
  import opened Php
  import PartialResponses

  /** A bucket keeps the raw body it was built from. */
  datatype Bucket = Bucket(body: Entries) {

    /** `getKey()`: the bucket's `key` entry, null when it is not set. */
    function GetKey(): (r: Value)
      ensures r != Null <==> IsSet(body, StrKey("key"))
      ensures r != Null ==> (StrKey("key"), r) in body
    {
      PartialResponses.Get(body, "key")
    }

    /** `getDocCount()`: the bucket's `doc_count` entry, null when it is not
        set. */
    function GetDocCount(): (r: Value)
      ensures r != Null <==> IsSet(body, StrKey("doc_count"))
      ensures r != Null ==> (StrKey("doc_count"), r) in body
    {
      PartialResponses.Get(body, "doc_count")
    }
  }
}
