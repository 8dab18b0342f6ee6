/** The sequential component download: four attempts, a resumable partial file, verified publication. */
module VerifiedDownload {
  import opened Options
  import opened RangeServer

  const ATTEMPTS := 4

  type Digest = string

  datatype Source = Source(id: string, url: string, https: bool, expectedBytes: int, expectedSha256: Digest,
                           digestWellFormed: bool,
                           needsCredential: bool)

  datatype Metadata = Metadata(source: Source, etag: string)

  /** Refused: no request is sent. GaveUp: an error reached the caller after the retry loop started. */
  datatype Outcome = Done | Refused | GaveUp

  /** How one attempt ended: normally, by an error the loop catches, or by one it does not. */
  datatype Attempt = Finished | Caught | Escaped

  /** How one round of the loop ended. */
  datatype Step = Published | Stopped | Again

  predicate Verified(source: Source, sha256: Bytes -> Digest, file: Bytes) {
    |file| == source.expectedBytes && sha256(file) == source.expectedSha256
  }

  /**
   A full reply is honest when its body follows the source from the start; a partial one when it keeps to its range.
   */
  ghost predicate HonestReply(reply: Reply, content: Bytes) {
    && Honest(reply, content)
    && (reply.Reply? && reply.status == 206 && reply.range.Some? ==>
          reply.range.value.first + |Flatten(reply.chunks)| <= reply.range.value.last + 1)
    && (reply.Reply? && reply.status == 200 ==> Agrees(Flatten(reply.chunks), content, 0, |content| - 1))
  }

  /** What a reply is good for. */
  datatype Use =
    | Ignored  // changes nothing and is caught: an error, another coding, status, range or length
    | Changed  // names another entity tag, so what is there goes
    | Escapes  // declares a length that is no number, which nothing catches
    | Appends  // continues what is there
    | Restarts // is the whole file

  function UseOf(source: Source, offset: nat, priorEtag: string, reply: Reply): Use {
    if reply.NetworkFailure? || !reply.identityEncoding then Ignored
    else if reply.status == 206 then
      if reply.range.None? then Ignored
      else if reply.range.value.first != offset || reply.range.value.total != source.expectedBytes then Ignored
      else if priorEtag != "" && reply.etag != "" && priorEtag != reply.etag then Changed
      else if offset > 0 then Appends else Restarts
    else if reply.status != 200 then Ignored
    else match reply.contentLength
         case Malformed => Escapes
         case Absent => Restarts
         case Length(n) => if n == source.expectedBytes then Restarts else Ignored
  }

  /** What the file holds after a body: whole chunks up to an empty one, the last of which may run over. */
  function Written(start: Bytes, chunks: seq<Bytes>, limit: int): Bytes
    decreases |chunks|
  {
    if chunks == [] || chunks[0] == [] then start
    else if |start| + |chunks[0]| > limit then start + chunks[0]
    else Written(start + chunks[0], chunks[1..], limit)
  }

  lemma WrittenStep(start: Bytes, chunks: seq<Bytes>, k: nat, limit: int)
    requires k < |chunks|
    ensures Written(start, chunks[k..], limit)
         == if chunks[k] == [] then start
            else if |start + chunks[k]| > limit then start + chunks[k]
            else Written(start + chunks[k], chunks[k + 1..], limit)
  {
    assert chunks[k..][1..] == chunks[k + 1..];
  }

  lemma WrittenEnd(start: Bytes, chunks: seq<Bytes>, limit: int)
    ensures chunks == [] ==> Written(start, chunks, limit) == start
  {}

  lemma {:induction false} WrittenAll(start: Bytes, chunks: seq<Bytes>, limit: int)
    requires (forall chunk | chunk in chunks :: chunk != []) && |start| + |Flatten(chunks)| <= limit
    ensures Written(start, chunks, limit) == start + Flatten(chunks)
    decreases |chunks|
  {
    if chunks != [] {
      assert chunks[0] in chunks && forall chunk | chunk in chunks[1..] :: chunk in chunks;
      WrittenAll(start + chunks[0], chunks[1..], limit);
      assert (start + chunks[0]) + Flatten(chunks[1..]) == start + (chunks[0] + Flatten(chunks[1..]));
    }
  }

  /** A reply whose body, in chunks without a gap and to the end, completes what is there or is the whole file. */
  predicate Whole(source: Source, offset: nat, priorEtag: string, reply: Reply) {
    && reply.Reply? && reply.identityEncoding && !reply.broken && (forall chunk | chunk in reply.chunks :: chunk != [])
    && (|| (reply.status == 200 && |Flatten(reply.chunks)| == source.expectedBytes
            && (reply.contentLength == Absent || reply.contentLength == Length(source.expectedBytes)))
        || (reply.status == 206 && reply.range.Some? && reply.range.value.first == offset
            && reply.range.value.total == source.expectedBytes
            && offset + |Flatten(reply.chunks)| == source.expectedBytes
            && (priorEtag == "" || reply.etag == "" || priorEtag == reply.etag)))
  }

  lemma WholeIsUsed(source: Source, left: Bytes, priorEtag: string, reply: Reply)
    requires Whole(source, |left|, priorEtag, reply)
    ensures UseOf(source, |left|, priorEtag, reply) in {Appends, Restarts}
    ensures Written(if UseOf(source, |left|, priorEtag, reply) == Appends then left else [], reply.chunks,
                    source.expectedBytes) == Filled(left, reply)
  {
    WrittenAll([], reply.chunks, source.expectedBytes);
    if reply.status == 206 { WrittenAll(left, reply.chunks, source.expectedBytes); }
    assert [] + Flatten(reply.chunks) == Flatten(reply.chunks);
    assert |left| == 0 ==> left + Flatten(reply.chunks) == Flatten(reply.chunks);
  }

  /** The file a whole reply makes of what is there. */
  function Filled(left: Bytes, reply: Reply): Bytes
    requires reply.Reply?
  {
    if reply.status == 206 then left + Flatten(reply.chunks) else Flatten(reply.chunks)
  }

  /** The first reply that arrives is whole and makes the file the digest asks for. */
  predicate ServedAt(source: Source, sha256: Bytes -> Digest, left: Bytes, priorEtag: string, replies: seq<Reply>,
                     k: nat) {
    && k < |replies| && Whole(source, |left|, priorEtag, replies[k])
    && Verified(source, sha256, Filled(left, replies[k]))
    && forall j | 0 <= j < k :: UseOf(source, |left|, priorEtag, replies[j]) == Ignored
  }

  /** The first reply that is not ignored declares a length that is no number. */
  predicate EscapesAt(source: Source, offset: nat, priorEtag: string, replies: seq<Reply>, k: nat) {
    && k < |replies| && UseOf(source, offset, priorEtag, replies[k]) == Escapes
    && forall j | 0 <= j < k :: UseOf(source, offset, priorEtag, replies[j]) == Ignored
  }

  /** How a round goes on from what is there; `kept` says that the files were left alone. */
  ghost predicate Proceeds(source: Source, sha256: Bytes -> Digest, left: Bytes, priorEtag: string, reply: Reply,
                           step: Step, offset: Option<nat>, etag: string, target: Option<Bytes>,
                           partial: Option<Bytes>, metadata: Option<Metadata>, kept: bool) {
    && offset == Some(|left|)
    && match UseOf(source, |left|, priorEtag, reply)
       case Ignored => step == Again && Held(partial) == left && kept
                       && etag == if partial.None? then "" else priorEtag
       case Changed => step == Again && etag == "" && partial.None? && metadata.None?
       case Escapes => step == Stopped && Held(partial) == left && kept
       case use =>
         var file := Written(if use == Appends then left else [], reply.chunks, source.expectedBytes);
         if |file| < source.expectedBytes then
           && step == Again && partial == Some(file) && metadata == Some(Metadata(source, etag))
           && etag == (if reply.etag == "" then priorEtag else reply.etag)
         else
           && partial.None? && metadata.None?
           && if |file| == source.expectedBytes && sha256(file) == source.expectedSha256
              then step == Published && target == Some(file) else step == Again && etag == ""
  }

  /** The first `n` replies were ignored, or something else came before a whole or an escaping one. */
  ghost predicate Undecided(source: Source, sha256: Bytes -> Digest, left: Bytes, priorEtag: string,
                            replies: seq<Reply>, n: nat, partial: Option<Bytes>, etag: string)
    requires n <= |replies|
  {
    && ((forall j | 0 <= j < n :: UseOf(source, |left|, priorEtag, replies[j]) == Ignored) ==>
          Held(partial) == left && etag == priorEtag && (partial.None? ==> priorEtag == ""))
    && forall k | 0 <= k < n ::
         !ServedAt(source, sha256, left, priorEtag, replies, k) && !EscapesAt(source, |left|, priorEtag, replies, k)
  }

  lemma NothingDecided(source: Source, sha256: Bytes -> Digest, left: Bytes, priorEtag: string, replies: seq<Reply>,
                       partial: Option<Bytes>)
    requires left == Held(partial) && (partial.None? ==> priorEtag == "")
    ensures Undecided(source, sha256, left, priorEtag, replies, 0, partial, priorEtag)
  {}

  lemma AllUndecided(source: Source, sha256: Bytes -> Digest, left: Bytes, priorEtag: string, replies: seq<Reply>,
                     partial: Option<Bytes>, etag: string)
    requires Undecided(source, sha256, left, priorEtag, replies, |replies|, partial, etag)
    ensures forall k | 0 <= k < |replies| ::
              && !ServedAt(source, sha256, left, priorEtag, replies, k)
              && !EscapesAt(source, |left|, priorEtag, replies, k)
  {}

  /** What one more round decides. */
  lemma RoundDecides(source: Source, sha256: Bytes -> Digest, left: Bytes, priorEtag: string, replies: seq<Reply>,
                     n: nat, before: Option<Bytes>, prior: string, step: Step, offset: Option<nat>, etag: string,
                     target: Option<Bytes>, partial: Option<Bytes>, metadata: Option<Metadata>, kept: bool)
    requires n < |replies| && Undecided(source, sha256, left, priorEtag, replies, n, before, prior)
    requires Proceeds(source, sha256, Held(before), prior, replies[n], step, offset, etag, target, partial, metadata,
                      partial == before && kept)
    ensures offset.Some?
    ensures step == Again ==> Undecided(source, sha256, left, priorEtag, replies, n + 1, partial, etag)
    ensures step == Stopped ==>
              forall k | 0 <= k < |replies| ::
                !ServedAt(source, sha256, left, priorEtag, replies, k)
                && (EscapesAt(source, |left|, priorEtag, replies, k) ==> k == n)
    ensures step == Published ==>
              forall k | 0 <= k < |replies| ::
                !EscapesAt(source, |left|, priorEtag, replies, k)
                && (ServedAt(source, sha256, left, priorEtag, replies, k) ==>
                      target == Some(Filled(left, replies[k])))
  {
    hide UseOf, Whole, Written, Filled;
    if Whole(source, |left|, priorEtag, replies[n]) { WholeIsUsed(source, left, priorEtag, replies[n]); }
  }

  function Held(partial: Option<Bytes>): Bytes { if partial.Some? then partial.value else [] }

  class Files {
    var target: Option<Bytes>
    var partial: Option<Bytes>
    var metadata: Option<Metadata>

    constructor (target: Option<Bytes>, partial: Option<Bytes>, metadata: Option<Metadata>)
      ensures this.target == target && this.partial == partial && this.metadata == metadata
    {
      this.target, this.partial, this.metadata := target, partial, metadata;
    }

    /** What an earlier run may leave for this source: nothing, or a shorter file whose metadata names the source. */
    ghost predicate Resumable(source: Source)
      reads this
    {
      partial.Some? && |partial.value| < source.expectedBytes && metadata.Some? && metadata.value.source == source
    }

    /** A leftover of full length, still to be settled. */
    ghost predicate FullLeftover(source: Source)
      reads this
    {
      partial.Some? && |partial.value| == source.expectedBytes && metadata.Some? && metadata.value.source == source
    }

    ghost predicate Clean()
      reads this
    {
      partial.None? && metadata.None?
    }

    ghost predicate FollowsSource(content: Bytes)
      reads this
    {
      partial.Some? ==> partial.value <= content
    }

    method DiscardPartial()
      modifies this`partial, this`metadata
      ensures Clean()
    {
      partial, metadata := None, None;
    }

    /** Chunks are written before the length is checked, so the file may run over and is then refused. */
    method WriteBody(source: Source, append: bool, chunks: seq<Bytes>, ghost content: Bytes) returns (overflow: bool)
      requires source.expectedBytes >= 0 && (append ==> partial.Some? && |partial.value| <= source.expectedBytes)
      modifies this`partial
      ensures partial.Some?
      ensures overflow <==> |partial.value| > source.expectedBytes
      ensures partial.value == Written(if append then old(partial).value else [], chunks, source.expectedBytes)
      ensures (|content| == source.expectedBytes && (append ==> old(partial).value <= content)
               && Agrees(Flatten(chunks), content, if append then |old(partial).value| else 0, |content| - 1)
               && |partial.value| <= source.expectedBytes)
              ==> partial.value <= content
    {
      if !append { partial := Some([]); }
      overflow := false;
      ghost var honest := |content| == source.expectedBytes && partial.value <= content
                          && Agrees(Flatten(chunks), content, |partial.value|, |content| - 1);
      hide Written;
      assert chunks[0..] == chunks;
      ghost var written := Written(partial.value, chunks, source.expectedBytes);
      var k := 0;
      while k < |chunks| && !overflow
        invariant 0 <= k <= |chunks| && partial.Some?
        invariant overflow <==> |partial.value| > source.expectedBytes
        invariant written == if overflow then partial.value
                             else Written(partial.value, chunks[k..], source.expectedBytes)
        invariant honest && !overflow ==> partial.value <= content
        invariant honest && !overflow ==> Agrees(Flatten(chunks[k..]), content, |partial.value|, |content| - 1)
      {
        var chunk := chunks[k];
        WrittenStep(partial.value, chunks, k, source.expectedBytes);
        if |chunk| == 0 { return; }
        assert chunks[k..] == [chunk] + chunks[k + 1..];
        if honest { AgreesSplit(chunk, Flatten(chunks[k + 1..]), content, |partial.value|, |content| - 1); }
        ghost var before := partial.value;
        partial := Some(partial.value + chunk);
        if |partial.value| > source.expectedBytes {
          overflow := true;
        } else if honest {
          ExtendPrefix(before, chunk, content);
        }
        k := k + 1;
      }
      WrittenEnd(partial.value, chunks[k..], source.expectedBytes);
    }

    /** One request: validation of the reply, metadata, body. */
    method TryOnce(source: Source, reply: Reply, offset: nat, priorEtag: string, ghost content: Bytes)
      returns (end: Attempt, etag: string)
      requires 0 <= offset < source.expectedBytes
      requires if partial.Some? then Resumable(source) && offset == |partial.value| else offset == 0 && Clean()
      modifies this`partial, this`metadata
      ensures partial.None? ==> Clean()
      ensures partial.Some? ==> metadata.Some? && metadata.value.source == source
      ensures match UseOf(source, offset, priorEtag, reply)
              case Ignored => end == Caught && etag == priorEtag && partial == old(partial) && metadata == old(metadata)
              case Changed => end == Caught && etag == "" && Clean()
              case Escapes => end == Escaped && partial == old(partial) && metadata == old(metadata)
              case use =>
                var left := if use == Appends then Held(old(partial)) else [];
                && etag == (if reply.etag == "" then priorEtag else reply.etag)
                && metadata == Some(Metadata(source, etag))
                && partial == Some(Written(left, reply.chunks, source.expectedBytes))
                && (end == Finished <==> !reply.broken && |partial.value| <= source.expectedBytes)
                && (end == Caught <==> end != Finished)
      ensures (|content| == source.expectedBytes && old(FollowsSource(content)) && HonestReply(reply, content)
               && partial.Some? && |partial.value| <= source.expectedBytes)
              ==> partial.value <= content
    {
      etag := priorEtag;
      if reply.NetworkFailure? { return Caught, etag; }
      if !reply.identityEncoding { return Caught, etag; }
      var append := offset > 0 && reply.status == 206;
      if reply.status == 206 {
        if reply.range.None? || reply.range.value.first != offset || reply.range.value.total != source.expectedBytes {
          return Caught, etag;
        }
        if priorEtag != "" && reply.etag != "" && reply.etag != priorEtag {
          DiscardPartial();
          return Caught, "";
        }
      } else if reply.status == 200 {
        if reply.contentLength == Malformed { return Escaped, etag; }
        if reply.contentLength.Length? && reply.contentLength.n != source.expectedBytes { return Caught, etag; }
      } else {
        return Caught, etag;
      }
      etag := if reply.etag != "" then reply.etag else priorEtag;
      metadata := Some(Metadata(source, etag));
      if |content| == source.expectedBytes && HonestReply(reply, content) && reply.status == 206 {
        RangeReachesEnd(reply, content, offset);
      }
      var overflow := WriteBody(source, append, reply.chunks, content);
      end := if overflow || reply.broken then Caught else Finished;
    }

    /** Publishes a full verified partial; discards a full unverified or an oversized one; keeps a shorter one. */
    method Settle(source: Source, sha256: Bytes -> Digest) returns (published: bool)
      requires target.None? && source.expectedBytes > 0
      modifies this
      ensures published <==> old(partial.Some? && Verified(source, sha256, partial.value))
      ensures published ==> target == old(partial) && Clean()
      ensures !published ==> target.None?
      ensures !published && old(partial.Some? && |partial.value| < source.expectedBytes) ==>
                partial == old(partial) && metadata == old(metadata)
      ensures !published && old(partial.Some? && |partial.value| >= source.expectedBytes) ==> Clean()
      ensures old(partial.None?) ==> partial.None? && metadata == old(metadata)
    {
      published := false;
      var actual := if partial.Some? then |partial.value| else 0;
      if actual == source.expectedBytes {
        if sha256(partial.value) == source.expectedSha256 {
          target, partial, metadata := partial, None, None;
          return true;
        }
        DiscardPartial();
      } else if actual > source.expectedBytes {
        DiscardPartial();
      }
    }

    /** Keeps a leftover partial only when its metadata names this source and it is not too long. */
    method OpenLeftover(source: Source) returns (etag: string)
      modifies this`partial, this`metadata
      ensures if old(partial.Some? && |partial.value| <= source.expectedBytes && metadata.Some?
                     && metadata.value.source == source)
              then partial == old(partial) && metadata == old(metadata) && etag == metadata.value.etag
              else Clean() && etag == ""
    {
      etag := "";
      if partial.Some? {
        if metadata.None? || metadata.value.source != source || |partial.value| > source.expectedBytes {
          DiscardPartial();
        } else {
          etag := metadata.value.etag;
        }
      } else {
        metadata := None;
      }
    }

    /** One round of the loop: a full leftover is settled first, then a request is sent and what it left is settled. */
    method Round(source: Source, sha256: Bytes -> Digest, reply: Reply, hasCredential: bool, priorEtag: string,
                 ghost content: Bytes)
      returns (step: Step, offset: Option<nat>, etag: string)
      requires source.expectedBytes > 0 && target.None? && (Clean() || Resumable(source) || FullLeftover(source))
      modifies this
      ensures step == Published ==> target.Some? && Verified(source, sha256, target.value) && Clean()
      ensures step != Published ==> target.None? && (Clean() || Resumable(source))
      ensures step == Again ==> offset.Some? && (hasCredential || !source.needsCredential)
      ensures old(FullLeftover(source)) && Verified(source, sha256, old(partial).value) ==>
                step == Published && target == old(partial)
      ensures !hasCredential && source.needsCredential ==>
                offset.None? && (step == Stopped || old(FullLeftover(source)))
      ensures (hasCredential || !source.needsCredential)
              && !(old(FullLeftover(source)) && Verified(source, sha256, old(partial).value)) ==>
                var full := old(FullLeftover(source));
                Proceeds(source, sha256, if full then [] else Held(old(partial)), if full then "" else priorEtag, reply,
                         step, offset, etag, target, partial, metadata,
                         full || (partial == old(partial) && metadata == old(metadata)))
      ensures old(Resumable(source)) && (hasCredential || !source.needsCredential) ==>
                offset == Some(|old(partial).value|)
      ensures |content| == source.expectedBytes && Verified(source, sha256, content) && HonestReply(reply, content)
              && old(FollowsSource(content)) && !old(FullLeftover(source))
              ==> FollowsSource(content) && (step == Published ==> target == Some(content))
    {
      hide HonestReply;
      etag := priorEtag;
      offset := None;
      ghost var full := FullLeftover(source);
      if partial.Some? && |partial.value| == source.expectedBytes {
        var published := Settle(source, sha256);
        if published { return Published, None, etag; }
        etag := "";
      }
      if source.needsCredential && !hasCredential { return Stopped, None, etag; }
      var from := if partial.Some? then |partial.value| else 0;
      offset := Some(from);
      var end: Attempt;
      end, etag := TryOnce(source, reply, from, etag, content);
      if end == Escaped { return Stopped, offset, etag; }
      if partial.Some? { FullPrefix(partial.value, content); }
      var published := Settle(source, sha256);
      if published { return Published, offset, etag; }
      if partial.None? { etag := ""; }
      step := Again;
    }

    /** The retry loop, over what OpenLeftover kept. */
    method RunAttempts(source: Source, sha256: Bytes -> Digest, replies: seq<Reply>, hasCredential: bool,
                       priorEtag: string, ghost content: Bytes)
      returns (r: Outcome, offsets: seq<nat>)
      requires |replies| == ATTEMPTS && source.expectedBytes > 0 && target.None?
      requires if Clean() then priorEtag == "" else Resumable(source) || FullLeftover(source)
      modifies this
      ensures r != Refused && |offsets| <= ATTEMPTS
      ensures r == Done ==> target.Some? && Verified(source, sha256, target.value) && Clean()
      ensures r == GaveUp ==> target.None? && (Clean() || Resumable(source))
      ensures old(Resumable(source)) && (hasCredential || !source.needsCredential) ==>
                offsets != [] && offsets[0] == |old(partial).value|
      ensures |content| == source.expectedBytes && Verified(source, sha256, content)
              && (forall reply | reply in replies :: HonestReply(reply, content))
              && old(FollowsSource(content)) && !old(FullLeftover(source))
              ==> FollowsSource(content) && (r == Done ==> target == Some(content))
      ensures !old(FullLeftover(source)) && (hasCredential || !source.needsCredential) ==>
                forall k | 0 <= k < ATTEMPTS
                           && ServedAt(source, sha256, Held(old(partial)), priorEtag, replies, k) ::
                  r == Done && target == Some(Filled(Held(old(partial)), replies[k]))
      ensures !old(FullLeftover(source)) && (hasCredential || !source.needsCredential) ==>
                forall k | 0 <= k < ATTEMPTS && EscapesAt(source, |Held(old(partial))|, priorEtag, replies, k) ::
                  r == GaveUp && |offsets| == k + 1
      ensures old(FullLeftover(source)) && Verified(source, sha256, old(partial).value) ==>
                r == Done && target == old(partial)
    {
      hide HonestReply, Whole, Filled, Verified, Undecided, Proceeds, UseOf, Written;
      offsets := [];
      ghost var honest := |content| == source.expectedBytes && Verified(source, sha256, content)
                          && (forall reply | reply in replies :: HonestReply(reply, content))
                          && FollowsSource(content) && !FullLeftover(source);
      ghost var resuming, left := Resumable(source), Held(partial);
      ghost var served := !FullLeftover(source) && (hasCredential || !source.needsCredential);
      var attempt, etag := 0, priorEtag;
      NothingDecided(source, sha256, left, priorEtag, replies, partial);
      while attempt < ATTEMPTS
        invariant 0 <= attempt <= ATTEMPTS && |offsets| <= attempt && target.None?
        invariant attempt == 0 ==> partial == old(partial) && metadata == old(metadata)
        invariant served ==> Undecided(source, sha256, left, priorEtag, replies, attempt, partial, etag)
        invariant served && attempt > 0 ==> !FullLeftover(source)
        invariant served ==> |offsets| == attempt
        invariant Clean() || Resumable(source) || (attempt == 0 && FullLeftover(source))
        invariant attempt > 0 && old(FullLeftover(source)) ==> !Verified(source, sha256, left)
        invariant honest ==> FollowsSource(content) && !FullLeftover(source)
        invariant resuming && attempt > 0 && (hasCredential || !source.needsCredential) ==>
                    offsets != [] && offsets[0] == |left|
      {
        var step: Step, offset: Option<nat>;
        assert honest ==> HonestReply(replies[attempt], content);
        ghost var before, stored, prior := partial, metadata, etag;
        step, offset, etag := Round(source, sha256, replies[attempt], hasCredential, etag, content);
        if offset.Some? { offsets := offsets + [offset.value]; }
        if served {
          RoundDecides(source, sha256, left, priorEtag, replies, attempt, before, prior, step, offset, etag, target,
                       partial, metadata, metadata == stored);
        }
        if step == Published { return Done, offsets; }
        if step == Stopped { return GaveUp, offsets; }
        attempt := attempt + 1;
      }
      if served { AllUndecided(source, sha256, left, priorEtag, replies, partial, etag); }
      if partial.None? { metadata := None; }
      r := GaveUp;
    }

    /**
     For a positive length: at most four requests; the target appears only verified; giving up leaves no target and
     either nothing or a strictly shorter partial that the next run resumes at exactly its length.  A first reply that
     is whole completes it.
     */
    method Download(source: Source, sha256: Bytes -> Digest, replies: seq<Reply>, hasCredential: bool,
                    ghost content: Bytes)
      returns (r: Outcome, offsets: seq<nat>)
      requires |replies| == ATTEMPTS && source.expectedBytes > 0
      modifies this
      ensures |offsets| <= 4
      ensures r == Refused <==> !source.digestWellFormed || !source.https || old(target).Some?
      ensures r == Refused ==> target == old(target) && partial == old(partial) && metadata == old(metadata)
                               && offsets == []
      ensures r == Done ==> target.Some? && Verified(source, sha256, target.value) && Clean()
      ensures r == GaveUp ==> target.None? && (Clean() || Resumable(source))
      ensures r != Refused && old(Resumable(source)) && (hasCredential || !source.needsCredential)
              ==> offsets != [] && offsets[0] == |old(partial).value|
      ensures (|content| == source.expectedBytes && Verified(source, sha256, content) && r != Refused
               && (forall reply | reply in replies :: HonestReply(reply, content))
               && (old(Resumable(source)) ==> old(FollowsSource(content)))
               && !old(partial.Some? && |partial.value| == source.expectedBytes))
              ==> FollowsSource(content) && (r == Done ==> target == Some(content))
      ensures r != Refused && (hasCredential || !source.needsCredential) && !old(FullLeftover(source)) ==>
                var left := if old(Resumable(source)) then old(partial).value else [];
                var priorEtag := if old(Resumable(source)) then old(metadata).value.etag else "";
                forall k | 0 <= k < ATTEMPTS && ServedAt(source, sha256, left, priorEtag, replies, k) ::
                  r == Done && target == Some(Filled(left, replies[k]))
      ensures r != Refused && (hasCredential || !source.needsCredential) && !old(FullLeftover(source)) ==>
                var left := if old(Resumable(source)) then old(partial).value else [];
                var priorEtag := if old(Resumable(source)) then old(metadata).value.etag else "";
                forall k | 0 <= k < ATTEMPTS && EscapesAt(source, |left|, priorEtag, replies, k) ::
                  r == GaveUp && |offsets| == k + 1
      ensures r != Refused && old(FullLeftover(source)) && Verified(source, sha256, old(partial).value) ==>
                r == Done && target == old(partial)
    {
      hide HonestReply, Whole, Filled, Verified, ServedAt, EscapesAt;
      if source.expectedBytes < 0 || !source.digestWellFormed { return Refused, []; }
      if !source.https { return Refused, []; }
      if target.Some? { return Refused, []; }
      ghost var resuming, full := Resumable(source), FullLeftover(source);
      var etag := OpenLeftover(source);
      assert FullLeftover(source) == full && Resumable(source) == resuming;
      ghost var left := Held(partial);
      assert !full ==> left == if resuming then old(partial).value else [];
      assert !full ==> etag == if resuming then old(metadata).value.etag else "";
      r, offsets := RunAttempts(source, sha256, replies, hasCredential, etag, content);
    }

    /** Two runs in a row: the second starts with a request at exactly the length the first one left. */
    method Resume(source: Source, sha256: Bytes -> Digest, first: seq<Reply>, second: seq<Reply>, hasCredential: bool)
      returns (left: Option<Bytes>, offsets: seq<nat>)
      requires |first| == |second| == ATTEMPTS && source.expectedBytes > 0 && source.digestWellFormed && source.https
               && target.None?
      requires hasCredential || !source.needsCredential
      modifies this
      ensures left.Some? ==> |left.value| < source.expectedBytes && offsets != [] && offsets[0] == |left.value|
      ensures target.Some? ==> Verified(source, sha256, target.value)
    {
      var r, _ := Download(source, sha256, first, hasCredential, []);
      left := partial;
      if r == Done {
        offsets := [];
      } else {
        r, offsets := Download(source, sha256, second, hasCredential, []);
      }
    }
  }

  lemma FullPrefix(part: Bytes, content: Bytes)
    ensures part <= content && |part| == |content| ==> part == content
  {
    if part <= content && |part| == |content| { assert content[..|part|] == content; }
  }

  lemma ExtendPrefix(part: Bytes, chunk: Bytes, content: Bytes)
    requires part <= content && Agrees(chunk, content, |part|, |content| - 1) && |part| + |chunk| <= |content|
    ensures part + chunk <= content
  {
    forall k | 0 <= k < |part + chunk| ensures (part + chunk)[k] == content[k] {
      if k >= |part| { assert chunk[k - |part|] == content[k]; }
    }
  }

  /** The last byte a partial reply names is not checked; an honest one still only carries source bytes. */
  lemma RangeReachesEnd(reply: Reply, content: Bytes, offset: nat)
    requires HonestReply(reply, content) && reply.Reply? && reply.status == 206 && reply.range.Some?
    requires reply.range.value.first == offset && reply.range.value.total == |content|
    ensures Agrees(Flatten(reply.chunks), content, offset, |content| - 1)
  {}
}
