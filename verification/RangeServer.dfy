/** What an HTTP range server may answer, and what honesty means (RFC 9110 sections 14.4 and 15.3.7). */
module RangeServer {
  import opened Options

  type Bytes = seq<bv8>

  datatype ContentRange = ContentRange(first: nat, last: nat, total: nat)
  datatype ContentLength = Absent | Length(n: int) | Malformed

  /** A failed request, or a reply whose body arrives in chunks and may break off. */
  datatype Reply =
    | NetworkFailure
    | Reply(https: bool, identityEncoding: bool, status: int, range: Option<ContentRange>, etag: string,
            contentLength: ContentLength, chunks: seq<Bytes>, broken: bool)

  function Flatten(chunks: seq<Bytes>): Bytes {
    if chunks == [] then [] else chunks[0] + Flatten(chunks[1..])
  }

  /** `body` agrees with the source from `at` as far as both reach, up to `last`. */
  ghost predicate Agrees(body: Bytes, source: Bytes, at: nat, last: int) {
    forall k | 0 <= k < |body| && at + k <= last && at + k < |source| :: body[k] == source[at + k]
  }

  /** A partial reply carries the bytes of the range it names; it may stop early or run over. */
  ghost predicate Honest(reply: Reply, source: Bytes) {
    reply.Reply? && reply.status == 206 && reply.range.Some? && reply.range.value.total == |source| ==>
      Agrees(Flatten(reply.chunks), source, reply.range.value.first, reply.range.value.last)
  }

  lemma AgreesSplit(head: Bytes, tail: Bytes, source: Bytes, at: nat, last: int)
    requires Agrees(head + tail, source, at, last)
    ensures Agrees(head, source, at, last) && Agrees(tail, source, at + |head|, last)
  {
    forall k | 0 <= k < |head| && at + k <= last && at + k < |source| ensures head[k] == source[at + k] {
      assert (head + tail)[k] == head[k];
    }
    forall k | 0 <= k < |tail| && at + |head| + k <= last && at + |head| + k < |source|
      ensures tail[k] == source[at + |head| + k]
    {
      assert (head + tail)[|head| + k] == tail[k];
    }
  }
}
