/** The segmented wheel download: resumable part files, a retry loop per segment, verified assembly. */
module SegmentedDownload {
  import opened Options
  import opened RangeServer
  import opened SegmentTiling

  const ATTEMPTS := 4

  type Digest = string

  /** What the metadata file records; leftover parts are kept only when it matches. */
  datatype Identity = Identity(id: string, url: string, expectedBytes: nat, expectedSha256: Digest, segments: nat,
                               etag: string)

  ghost predicate IsPlan(plan: Identity)
    ensures IsPlan(plan) ==> plan.segments > 0
  {
    plan.expectedBytes > 0 && exists declared: int ::
      declared <= MAX_SEGMENTS && plan.segments == SegmentCount(declared, plan.expectedBytes)
  }

  function First(plan: Identity, i: nat): nat
    requires plan.segments > 0
  {
    Start(plan.expectedBytes, plan.segments, i)
  }

  function Past(plan: Identity, i: nat): nat
    requires plan.segments > 0
  {
    End(plan.expectedBytes, plan.segments, i)
  }

  lemma PlanTiles(plan: Identity, i: nat)
    requires IsPlan(plan) && i < plan.segments
    ensures First(plan, i) < Past(plan, i) <= plan.expectedBytes
    ensures if i + 1 < plan.segments then Past(plan, i) == First(plan, i + 1) else Past(plan, i) == plan.expectedBytes
  {
    var declared: int :| declared <= MAX_SEGMENTS && plan.segments == SegmentCount(declared, plan.expectedBytes);
    SegmentsTile(declared, plan.expectedBytes, i);
  }

  ghost function Slice(plan: Identity, source: Bytes, i: nat): (slice: Bytes)
    requires IsPlan(plan) && i < plan.segments && |source| == plan.expectedBytes
    ensures |slice| == Past(plan, i) - First(plan, i)
  {
    PlanTiles(plan, i);
    source[First(plan, i)..Past(plan, i)]
  }

  /** Every part file is a prefix of its slice. */
  ghost predicate PartsArePrefixes(plan: Identity, source: Bytes, parts: map<nat, Bytes>)
    requires IsPlan(plan) && |source| == plan.expectedBytes
  {
    forall i | i in parts && i < plan.segments :: parts[i] <= Slice(plan, source, i)
  }

  lemma PrefixGrows(plan: Identity, source: Bytes, i: nat, part: Bytes, chunk: Bytes)
    requires IsPlan(plan) && i < plan.segments && |source| == plan.expectedBytes
    requires part <= Slice(plan, source, i) && |part| + |chunk| <= Past(plan, i) - First(plan, i)
    requires Agrees(chunk, source, First(plan, i) + |part|, Past(plan, i) - 1)
    ensures part + chunk <= Slice(plan, source, i)
  {
    PlanTiles(plan, i);
    var slice := Slice(plan, source, i);
    forall k | 0 <= k < |part + chunk| ensures (part + chunk)[k] == slice[k] {
      if k >= |part| { assert chunk[k - |part|] == source[First(plan, i) + k]; } else { assert part[k] == slice[k]; }
    }
  }

  // ---------------------------------------------------------------- all writers at once

  /** An open response: the length the writer has counted and the chunks it has not read. */
  datatype Writer = Writer(downloaded: nat, rest: seq<Bytes>)

  datatype Disk = Disk(parts: map<nat, Bytes>, writers: map<nat, Writer>)

  datatype Event =
    | Trim(i: nat)                 // an oversized part is removed before the first attempt
    | Open(i: nat, reply: Reply)   // an accepted reply opens the part for append, or anew when it is empty
    | Read(i: nat)                 // one chunk is read and, if it fits, written; an empty one ends the body
    | Close(i: nat)                // end of body, network error, or overflow
    | Kill                         // the process dies; the files stay
    | Wipe                         // another identity, or a failed assembly, removes the directory

  function PartLength(parts: map<nat, Bytes>, i: nat): nat { if i in parts then |parts[i]| else 0 }

  /** A reply over HTTPS that names exactly the requested range and the recorded entity tag. */
  predicate Answers(plan: Identity, i: nat, offset: nat, reply: Reply)
    requires plan.segments > 0
  {
    && reply.Reply? && reply.https && reply.status == 206
    && First(plan, i) + offset < Past(plan, i)
    && reply.range == Some(ContentRange(First(plan, i) + offset, Past(plan, i) - 1, plan.expectedBytes))
    && (plan.etag != "" ==> reply.etag == plan.etag)
  }

  predicate Accepted(plan: Identity, i: nat, offset: nat, reply: Reply)
    requires plan.segments > 0
  {
    && Answers(plan, i, offset, reply)
    && (reply.contentLength == Absent || reply.contentLength == Length(Past(plan, i) - First(plan, i) - offset))
  }

  /** A length that is no number raises an error that the retry loop does not catch. */
  predicate Escapes(plan: Identity, i: nat, offset: nat, reply: Reply)
    requires plan.segments > 0
  {
    Answers(plan, i, offset, reply) && reply.contentLength == Malformed
  }

  function Next(plan: Identity, d: Disk, e: Event): Disk
    requires plan.segments > 0
  {
    match e
    case Trim(i) =>
      if i in d.parts && i !in d.writers
         && |d.parts[i]| > Past(plan, i) - First(plan, i) then d.(parts := d.parts - {i}) else d
    case Open(i, reply) =>
      var offset := PartLength(d.parts, i);
      if i >= plan.segments || i in d.writers || !Accepted(plan, i, offset, reply) then d
      else Disk(if offset == 0 then d.parts[i := []] else d.parts, d.writers[i := Writer(offset, reply.chunks)])
    case Read(i) =>
      if i !in d.writers || d.writers[i].rest == [] then d
      else
        var w := d.writers[i];
        var chunk, rest := w.rest[0], w.rest[1..];
        if chunk == [] || w.downloaded + |chunk| > Past(plan, i) - First(plan, i) then d.(writers := d.writers - {i})
        else Disk(d.parts[i := (if i in d.parts then d.parts[i] else []) + chunk],
                  d.writers[i := Writer(w.downloaded + |chunk|, rest)])
    case Close(i) => d.(writers := d.writers - {i})
    case Kill => d.(writers := map[])
    case Wipe => Disk(map[], map[])
  }

  ghost predicate WriterOk(plan: Identity, source: Bytes, i: nat, part: Bytes, w: Writer)
    requires plan.segments > 0
  {
    w.downloaded == |part| && Agrees(Flatten(w.rest), source, First(plan, i) + |part|, Past(plan, i) - 1)
  }

  ghost predicate WritersInStep(plan: Identity, source: Bytes, d: Disk)
    requires plan.segments > 0
  {
    forall i | i in d.writers :: i < plan.segments && i in d.parts
                                 && WriterOk(plan, source, i, d.parts[i], d.writers[i])
  }

  ghost predicate DiskOk(plan: Identity, source: Bytes, d: Disk)
    requires IsPlan(plan) && |source| == plan.expectedBytes
  {
    PartsArePrefixes(plan, source, d.parts) && WritersInStep(plan, source, d)
  }

  lemma OpenKeeps(plan: Identity, source: Bytes, d: Disk, i: nat, reply: Reply)
    requires IsPlan(plan) && |source| == plan.expectedBytes && DiskOk(plan, source, d) && Honest(reply, source)
    ensures DiskOk(plan, source, Next(plan, d, Open(i, reply)))
  {
    hide First, Past, IsPlan, Agrees;
    var d' := Next(plan, d, Open(i, reply));
    if d' != d {
      var part := d'.parts[i];
      assert part <= Slice(plan, source, i);
      assert WriterOk(plan, source, i, part, d'.writers[i]);
    }
  }

  lemma ReadOne(plan: Identity, source: Bytes, i: nat, part: Bytes, w: Writer)
    requires IsPlan(plan) && |source| == plan.expectedBytes && i < plan.segments && w.rest != []
    requires part <= Slice(plan, source, i) && WriterOk(plan, source, i, part, w)
    requires w.downloaded + |w.rest[0]| <= Past(plan, i) - First(plan, i)
    ensures part + w.rest[0] <= Slice(plan, source, i)
    ensures WriterOk(plan, source, i, part + w.rest[0], Writer(w.downloaded + |w.rest[0]|, w.rest[1..]))
  {
    hide First, Past, IsPlan, Slice;
    AgreesSplit(w.rest[0], Flatten(w.rest[1..]), source, First(plan, i) + |part|, Past(plan, i) - 1);
    PrefixGrows(plan, source, i, part, w.rest[0]);
  }

  lemma ReadKeeps(plan: Identity, source: Bytes, d: Disk, i: nat)
    requires IsPlan(plan) && |source| == plan.expectedBytes && DiskOk(plan, source, d)
    ensures DiskOk(plan, source, Next(plan, d, Read(i)))
  {
    hide First, Past, IsPlan, Slice, WriterOk;
    if i in d.writers && d.writers[i].rest != [] {
      var w := d.writers[i];
      assert WriterOk(plan, source, i, d.parts[i], w);
      if w.downloaded + |w.rest[0]| <= Past(plan, i) - First(plan, i) { ReadOne(plan, source, i, d.parts[i], w); }
    }
  }

  /** Any interleaving of segment threads, retries and crashes keeps every part a prefix of its slice. */
  lemma NextKeepsPrefixes(plan: Identity, source: Bytes, d: Disk, e: Event)
    requires IsPlan(plan) && |source| == plan.expectedBytes && DiskOk(plan, source, d)
    requires e.Open? ==> Honest(e.reply, source)
    ensures DiskOk(plan, source, Next(plan, d, e))
  {
    hide First, Past, IsPlan, Slice, WriterOk;
    match e
    case Open(i, reply) => OpenKeeps(plan, source, d, i, reply);
    case Read(i) => ReadKeeps(plan, source, d, i);
    case _ =>
  }

  ghost function Run(plan: Identity, d: Disk, events: seq<Event>): Disk
    requires plan.segments > 0
    decreases |events|
  {
    if events == [] then d else Run(plan, Next(plan, d, events[0]), events[1..])
  }

  lemma {:induction false} RunKeepsPrefixes(plan: Identity, source: Bytes, d: Disk, events: seq<Event>)
    requires IsPlan(plan) && |source| == plan.expectedBytes && DiskOk(plan, source, d)
    requires forall e | e in events && e.Open? :: Honest(e.reply, source)
    ensures DiskOk(plan, source, Run(plan, d, events))
    decreases |events|
  {
    if events != [] {
      NextKeepsPrefixes(plan, source, d, events[0]);
      RunKeepsPrefixes(plan, source, Next(plan, d, events[0]), events[1..]);
    }
  }

  // ---------------------------------------------------------------- assembly

  function Joined(parts: map<nat, Bytes>, count: nat): Bytes {
    if count == 0 then [] else Joined(parts, count - 1) + (if count - 1 in parts then parts[count - 1] else [])
  }

  ghost predicate Complete(plan: Identity, parts: map<nat, Bytes>)
    requires plan.segments > 0
  {
    forall i: nat | i < plan.segments :: i in parts && |parts[i]| == Past(plan, i) - First(plan, i)
  }

  function Bound(plan: Identity, count: nat): nat
    requires plan.segments > 0
  {
    if count == 0 then 0 else Past(plan, count - 1)
  }

  lemma BoundIsFirst(plan: Identity, i: nat)
    requires IsPlan(plan) && i < plan.segments
    ensures Bound(plan, i) == First(plan, i)
  {
    if i > 0 { PlanTiles(plan, i - 1); } else { assert First(plan, 0) == 0; }
  }

  lemma PartIsSlice(plan: Identity, source: Bytes, parts: map<nat, Bytes>, i: nat)
    requires IsPlan(plan) && |source| == plan.expectedBytes && i < plan.segments
    requires PartsArePrefixes(plan, source, parts) && Complete(plan, parts)
    ensures First(plan, i) <= Past(plan, i) <= |source| && i in parts
            && parts[i] == source[First(plan, i)..Past(plan, i)]
  {
    hide First, Past, IsPlan;
    PlanTiles(plan, i);
    assert parts[i] <= Slice(plan, source, i);
  }

  lemma {:induction false} JoinedIsPrefix(plan: Identity, source: Bytes, parts: map<nat, Bytes>, count: nat)
    requires IsPlan(plan) && |source| == plan.expectedBytes
    requires PartsArePrefixes(plan, source, parts) && Complete(plan, parts) && count <= plan.segments
    ensures Bound(plan, count) <= |source| && Joined(parts, count) == source[..Bound(plan, count)]
  {
    hide First, Past, IsPlan, PartsArePrefixes, Complete;
    if count > 0 {
      var i := count - 1;
      PlanTiles(plan, i);
      BoundIsFirst(plan, i);
      JoinedIsPrefix(plan, source, parts, i);
      PartIsSlice(plan, source, parts, i);
      assert source[..First(plan, i)] + source[First(plan, i)..Past(plan, i)] == source[..Past(plan, i)];
    }
  }

  /** Complete parts of an honest source assemble to exactly the source. */
  lemma AssemblyIsSource(plan: Identity, source: Bytes, parts: map<nat, Bytes>)
    requires IsPlan(plan) && |source| == plan.expectedBytes
    requires PartsArePrefixes(plan, source, parts) && Complete(plan, parts)
    ensures Joined(parts, plan.segments) == source
  {
    JoinedIsPrefix(plan, source, parts, plan.segments);
    PlanTiles(plan, plan.segments - 1);
    assert source[..|source|] == source;
  }

  // ---------------------------------------------------------------- one attempt as a run of events

  function Reads(i: nat, n: nat): seq<Event> {
    if n == 0 then [] else [Read(i)] + Reads(i, n - 1)
  }

  lemma ReadStep(plan: Identity, d: Disk, i: nat)
    requires plan.segments > 0 && i in d.writers && i in d.parts && d.writers[i].downloaded == |d.parts[i]|
    ensures var part, rest, size := d.parts[i], d.writers[i].rest, Past(plan, i) - First(plan, i);
            var d' := Next(plan, d, Read(i));
            if rest == [] then d' == d && Fitting(rest, size - |part|) == []
            else if rest[0] == [] || |part| + |rest[0]| > size then
              d' == Disk(d.parts, d.writers - {i}) && Fitting(rest, size - |part|) == []
            else
              && d' == Disk(d.parts[i := part + rest[0]], d.writers[i := Writer(|part + rest[0]|, rest[1..])])
              && Fitting(rest, size - |part|) == rest[0] + Fitting(rest[1..], size - |part + rest[0]|)
  {
    hide First, Past;
  }

  /** Reading a body to its end writes the whole chunks that fit, to the own part only. */
  lemma {:induction false} ReadsWrite(plan: Identity, d: Disk, i: nat, n: nat)
    requires plan.segments > 0 && i in d.writers && i in d.parts && d.writers[i].downloaded == |d.parts[i]|
    requires n >= |d.writers[i].rest|
    ensures var w := d.writers[i];
            var d' := Run(plan, d, Reads(i, n));
            && d'.parts == d.parts[i := d.parts[i] + Fitting(w.rest, Past(plan, i) - First(plan, i) - |d.parts[i]|)]
            && d'.writers - {i} == d.writers - {i}
    decreases n
  {
    hide First, Past, Next, Fitting;
    var part, rest := d.parts[i], d.writers[i].rest;
    ReadStep(plan, d, i);
    assert part + [] == part;
    if n > 0 {
      var d1 := Next(plan, d, Read(i));
      assert Reads(i, n)[0] == Read(i) && Reads(i, n)[1..] == Reads(i, n - 1);
      if i !in d1.writers {
        ReadsNothing(plan, d1, i, n - 1);
      } else {
        ReadsWrite(plan, d1, i, n - 1);
        if rest != [] {
          var more := Fitting(rest[1..], Past(plan, i) - First(plan, i) - |d1.parts[i]|);
          assert (part + rest[0]) + more == part + (rest[0] + more);
        }
      }
    }
  }

  lemma {:induction false} ReadsNothing(plan: Identity, d: Disk, i: nat, n: nat)
    requires plan.segments > 0 && i !in d.writers
    ensures Run(plan, d, Reads(i, n)) == d
  {
    if n > 0 {
      assert Reads(i, n)[1..] == Reads(i, n - 1);
      ReadsNothing(plan, d, i, n - 1);
    }
  }

  lemma {:induction false} RunAppends(plan: Identity, d: Disk, first: seq<Event>, second: seq<Event>)
    requires plan.segments > 0
    ensures Run(plan, d, first + second) == Run(plan, Run(plan, d, first), second)
    decreases |first|
  {
    if first == [] {
      assert first + second == second;
    } else {
      assert (first + second)[1..] == first[1..] + second;
      RunAppends(plan, Next(plan, d, first[0]), first[1..], second);
    }
  }

  /**
   One whole attempt of a segment: a reply that names the rest and declares no other length is written as far as it
   fits, any other changes nothing; no other segment's part or writer is touched.
   */
  lemma AttemptAsEvents(plan: Identity, d: Disk, i: nat, reply: Reply)
    requires IsPlan(plan) && i < plan.segments && i !in d.writers && reply.Reply?
    requires PartLength(d.parts, i) < Past(plan, i) - First(plan, i)
    ensures var offset, left := PartLength(d.parts, i), Leftover(plan, d.parts, i);
            var d' := Run(plan, d, [Open(i, reply)] + (Reads(i, |reply.chunks|) + [Close(i)]));
            && d'.writers == d.writers
            && d'.parts == if !Useless(plan, i, offset, reply) && reply.contentLength != Malformed
                           then d.parts[i := left + Fitting(reply.chunks, Past(plan, i) - First(plan, i) - offset)]
                           else d.parts
  {
    hide First, Past, IsPlan, Useless, Accepted, Escapes;
    var offset, n := PartLength(d.parts, i), |reply.chunks|;
    AcceptedExactly(plan, i, offset, reply);
    RunAppends(plan, d, [Open(i, reply)], Reads(i, n) + [Close(i)]);
    var d1 := Next(plan, d, Open(i, reply));
    assert [Open(i, reply)][1..] == [] && Run(plan, d, [Open(i, reply)]) == d1;
    RunAppends(plan, d1, Reads(i, n), [Close(i)]);
    if i in d1.writers {
      ReadsWrite(plan, d1, i, n);
    } else {
      ReadsNothing(plan, d1, i, n);
    }
    var d2 := Run(plan, d1, Reads(i, n));
    assert [Close(i)][1..] == [] && Run(plan, d2, [Close(i)]) == Next(plan, d2, Close(i));
    assert d2.writers - {i} == d.writers;
  }

  lemma AcceptedExactly(plan: Identity, i: nat, offset: nat, reply: Reply)
    requires IsPlan(plan) && i < plan.segments && offset < Past(plan, i) - First(plan, i)
    ensures Accepted(plan, i, offset, reply)
       <==> !Useless(plan, i, offset, reply) && reply.contentLength != Malformed
  {
    hide First, Past, IsPlan;
  }

  /** A part is trimmed exactly when it is too long and nobody writes to it; a death and a wipe end every writer. */
  lemma OtherEvents(plan: Identity, d: Disk, i: nat)
    requires plan.segments > 0
    ensures Next(plan, d, Trim(i)).parts
         == if i in d.parts && |d.parts[i]| > Past(plan, i) - First(plan, i) && i !in d.writers
            then d.parts - {i} else d.parts
    ensures i !in d.writers ==> Leftover(plan, Next(plan, d, Trim(i)).parts, i) == Leftover(plan, d.parts, i)
    ensures Next(plan, d, Kill) == Disk(d.parts, map[]) && Next(plan, d, Wipe) == Disk(map[], map[])
  {
    hide First, Past;
  }

  // ---------------------------------------------------------------- the program

  /** The body of an accepted honest reply continues the part. */
  lemma AcceptedAgrees(plan: Identity, i: nat, offset: nat, reply: Reply, source: Bytes)
    requires plan.segments > 0 && |source| == plan.expectedBytes && Accepted(plan, i, offset, reply)
             && Honest(reply, source)
    ensures Agrees(Flatten(reply.chunks), source, First(plan, i) + offset, Past(plan, i) - 1)
  {}

  lemma NothingYet(plan: Identity, source: Bytes, i: nat)
    requires IsPlan(plan) && i < plan.segments && |source| == plan.expectedBytes
    ensures [] <= Slice(plan, source, i)
  {}

  datatype Outcome = Done | Failed

  /** How one request ended: with a whole part, to be tried again, or with an error the loop does not catch. */
  datatype Attempt = Whole | Again | Raised

  // ---------------------------------------------------------------- which replies make progress

  /** What a run starts from: the part, unless it is too long. */
  function Leftover(plan: Identity, parts: map<nat, Bytes>, i: nat): (left: Bytes)
    requires plan.segments > 0
  {
    if i in parts && |parts[i]| <= Past(plan, i) - First(plan, i) then parts[i] else []
  }

  /** HTTPS 206 for exactly the bytes from `offset` to the end of the segment, under the recorded entity tag. */
  predicate NamesTheRest(plan: Identity, i: nat, offset: nat, reply: Reply)
    requires plan.segments > 0
  {
    && reply.Reply? && reply.https && reply.status == 206 && reply.range.Some?
    && reply.range.value.first == First(plan, i) + offset && reply.range.value.last + 1 == Past(plan, i)
    && reply.range.value.total == plan.expectedBytes
    && (plan.etag == "" || plan.etag == reply.etag)
  }

  /** Such a reply with no declared length or the right one, whose chunks carry exactly those bytes to the end. */
  predicate Delivers(plan: Identity, i: nat, offset: nat, reply: Reply)
    requires plan.segments > 0
  {
    && NamesTheRest(plan, i, offset, reply) && !reply.broken
    && offset + |Flatten(reply.chunks)| == Past(plan, i) - First(plan, i)
    && (forall chunk | chunk in reply.chunks :: chunk != [])
    && (reply.contentLength.Length? ==> offset + reply.contentLength.n == Past(plan, i) - First(plan, i))
    && !reply.contentLength.Malformed?
  }

  /** No reply, one for something else, or one that declares another length. */
  predicate Useless(plan: Identity, i: nat, offset: nat, reply: Reply)
    requires plan.segments > 0
  {
    || !NamesTheRest(plan, i, offset, reply)
    || (reply.contentLength.Length? && offset + reply.contentLength.n != Past(plan, i) - First(plan, i))
  }

  /** The first useful reply is a delivery. */
  predicate ServedAt(plan: Identity, i: nat, offset: nat, replies: seq<Reply>, k: nat)
    requires plan.segments > 0
  {
    && k < |replies| && Delivers(plan, i, offset, replies[k])
    && forall j | 0 <= j < k :: Useless(plan, i, offset, replies[j])
  }

  /** The first useful reply declares a length that is no number. */
  predicate RaisedAt(plan: Identity, i: nat, offset: nat, replies: seq<Reply>, k: nat)
    requires plan.segments > 0
  {
    && k < |replies| && NamesTheRest(plan, i, offset, replies[k]) && replies[k].contentLength == Malformed
    && forall j | 0 <= j < k :: Useless(plan, i, offset, replies[j])
  }

  /** How the first useful reply of a segment decides it; `parts` is the directory afterwards. */
  ghost predicate Progresses(plan: Identity, i: nat, left: Bytes, parts: map<nat, Bytes>, replies: seq<Reply>,
                             r: Outcome, requests: nat)
    requires plan.segments > 0
  {
    var missing := Past(plan, i) - First(plan, i) - |left|;
    && (missing == 0 ==> r == Done && requests == 0 && i in parts && parts[i] == left)
    && (missing > 0 ==>
          && (forall k | 0 <= k < |replies| && ServedAt(plan, i, |left|, replies, k) ::
                r == Done && requests == k + 1 && i in parts && parts[i] == left + Flatten(replies[k].chunks))
          && (forall k | 0 <= k < |replies| && RaisedAt(plan, i, |left|, replies, k) ::
                r == Failed && requests == k + 1 && (i in parts ==> parts[i] == left))
          && ((forall reply | reply in replies :: Useless(plan, i, |left|, reply)) ==>
                r == Failed && (i in parts ==> parts[i] == left)))
  }

  ghost predicate Served(plan: Identity, i: nat, left: Bytes, replies: seq<Reply>)
    requires plan.segments > 0
  {
    |left| == Past(plan, i) - First(plan, i) || exists k: nat :: ServedAt(plan, i, |left|, replies, k)
  }

  /** The first `n` replies were no use, or something else came before the first useful one. */
  ghost predicate Undecided(plan: Identity, i: nat, left: Bytes, parts: map<nat, Bytes>, replies: seq<Reply>, n: nat)
    requires plan.segments > 0 && n <= |replies|
  {
    && |left| < Past(plan, i) - First(plan, i)
    && ((forall j | 0 <= j < n :: Useless(plan, i, |left|, replies[j])) ==>
          if i in parts then parts[i] == left else left == [])
    && forall k | 0 <= k < n :: !ServedAt(plan, i, |left|, replies, k) && !RaisedAt(plan, i, |left|, replies, k)
  }

  lemma WholeAlready(plan: Identity, i: nat, parts: map<nat, Bytes>, replies: seq<Reply>)
    requires IsPlan(plan) && i < plan.segments
    ensures i in parts && |parts[i]| == Past(plan, i) - First(plan, i) ==>
              Progresses(plan, i, Leftover(plan, parts, i), parts, replies, Done, 0)
  {
    hide First, Past;
  }

  lemma NothingDecided(plan: Identity, i: nat, left: Bytes, parts: map<nat, Bytes>, replies: seq<Reply>)
    requires plan.segments > 0 && |left| < Past(plan, i) - First(plan, i)
    requires if i in parts then parts[i] == left else left == []
    ensures Undecided(plan, i, left, parts, replies, 0)
  {}

  lemma EndsFull(plan: Identity, i: nat, left: Bytes, parts: map<nat, Bytes>, replies: seq<Reply>, n: nat)
    requires plan.segments > 0 && n <= |replies| && Undecided(plan, i, left, parts, replies, n)
    requires i in parts && |parts[i]| == Past(plan, i) - First(plan, i)
    ensures Progresses(plan, i, left, parts, replies, Done, n)
  {
    hide First, Past, Useless, Delivers, NamesTheRest;
    if forall j | 0 <= j < n :: Useless(plan, i, |left|, replies[j]) {
      assert false;
    }
    var j :| 0 <= j < n && !Useless(plan, i, |left|, replies[j]);
    assert replies[j] in replies;
  }

  lemma EndsUndecided(plan: Identity, i: nat, left: Bytes, parts: map<nat, Bytes>, replies: seq<Reply>)
    requires plan.segments > 0 && Undecided(plan, i, left, parts, replies, |replies|)
    ensures Progresses(plan, i, left, parts, replies, Failed, |replies|)
  {
    hide First, Past, Useless, Delivers, NamesTheRest;
    if forall reply | reply in replies :: Useless(plan, i, |left|, reply) {
      assert forall j | 0 <= j < |replies| :: replies[j] in replies;
    }
  }

  /** What one more attempt decides. */
  lemma AttemptDecides(plan: Identity, i: nat, left: Bytes, before: map<nat, Bytes>, parts: map<nat, Bytes>,
                       replies: seq<Reply>, n: nat, end: Attempt)
    requires plan.segments > 0 && n < |replies| && Undecided(plan, i, left, before, replies, n)
    requires end == Raised <==> NamesTheRest(plan, i, PartLength(before, i), replies[n])
                                && replies[n].contentLength == Malformed
    requires end == Raised || Useless(plan, i, PartLength(before, i), replies[n]) ==> parts == before
    requires Useless(plan, i, PartLength(before, i), replies[n]) ==> end == Again
    requires Delivers(plan, i, PartLength(before, i), replies[n]) ==>
               end == Whole && i in parts && parts[i] == Leftover(plan, before, i) + Flatten(replies[n].chunks)
    ensures match end
            case Again => Undecided(plan, i, left, parts, replies, n + 1)
            case Whole => Progresses(plan, i, left, parts, replies, Done, n + 1)
            case Raised => Progresses(plan, i, left, parts, replies, Failed, n + 1)
  {
    hide First, Past, Useless, Delivers, NamesTheRest, Flatten;
    if forall j | 0 <= j < n :: Useless(plan, i, |left|, replies[j]) {
      assert PartLength(before, i) == |left| && Leftover(plan, before, i) == left;
    }
    assert replies[n] in replies;
  }

  ghost predicate AllServed(plan: Identity, parts: map<nat, Bytes>, replies: nat -> seq<Reply>)
    requires plan.segments > 0
  {
    forall i: nat | i < plan.segments :: Served(plan, i, Leftover(plan, parts, i), replies(i))
  }

  lemma ServedIsDone(plan: Identity, i: nat, left: Bytes, parts: map<nat, Bytes>, replies: seq<Reply>, r: Outcome,
                     requests: nat)
    requires plan.segments > 0 && Progresses(plan, i, left, parts, replies, r, requests)
    requires Served(plan, i, left, replies)
    ensures r == Done
  {
    hide First, Past, Delivers, Useless, Flatten;
    if |left| != Past(plan, i) - First(plan, i) {
      var k: nat :| ServedAt(plan, i, |left|, replies, k);
      ServedIsShort(plan, i, |left|, replies, k);
    }
  }

  lemma ServedIsShort(plan: Identity, i: nat, offset: nat, replies: seq<Reply>, k: nat)
    requires plan.segments > 0 && ServedAt(plan, i, offset, replies, k)
    ensures offset <= Past(plan, i) - First(plan, i) && k < |replies|
  {
    hide First, Past;
  }

  lemma AcceptedReplies(plan: Identity, i: nat, offset: nat, reply: Reply)
    requires plan.segments > 0 && Accepted(plan, i, offset, reply)
    ensures reply.Reply? && !Escapes(plan, i, offset, reply)
  {}

  lemma Escaping(plan: Identity, i: nat, offset: nat, reply: Reply)
    requires IsPlan(plan) && i < plan.segments && offset < Past(plan, i) - First(plan, i)
    ensures Escapes(plan, i, offset, reply)
       <==> NamesTheRest(plan, i, offset, reply) && reply.contentLength == Malformed
  {
    hide First, Past, IsPlan;
  }

  lemma DeliveredWhole(plan: Identity, i: nat, part: Bytes, reply: Reply)
    requires plan.segments > 0 && Delivers(plan, i, |part|, reply)
    ensures !reply.broken && Fitting(reply.chunks, Past(plan, i) - First(plan, i) - |part|) == Flatten(reply.chunks)
    ensures |part + Flatten(reply.chunks)| == Past(plan, i) - First(plan, i)
  {
    hide First, Past;
    FittingAll(reply.chunks, Past(plan, i) - First(plan, i) - |part|);
  }

  lemma Usefulness(plan: Identity, i: nat, offset: nat, reply: Reply)
    requires IsPlan(plan) && i < plan.segments && offset < Past(plan, i) - First(plan, i)
    ensures Delivers(plan, i, offset, reply) ==> Accepted(plan, i, offset, reply) && !Escapes(plan, i, offset, reply)
    ensures Useless(plan, i, offset, reply) ==> !Accepted(plan, i, offset, reply) && !Escapes(plan, i, offset, reply)
    ensures !(Delivers(plan, i, offset, reply) && Useless(plan, i, offset, reply))
  {
    hide First, Past, IsPlan;
  }

  /** What is written of a body: whole chunks up to an empty one or the first that does not fit. */
  function Fitting(chunks: seq<Bytes>, room: int): Bytes {
    if chunks == [] || chunks[0] == [] || |chunks[0]| > room then []
    else chunks[0] + Fitting(chunks[1..], room - |chunks[0]|)
  }

  lemma {:induction false} FittingAll(chunks: seq<Bytes>, room: int)
    requires (forall chunk | chunk in chunks :: chunk != []) && |Flatten(chunks)| <= room
    ensures Fitting(chunks, room) == Flatten(chunks)
  {
    if chunks != [] {
      assert chunks[0] in chunks && forall chunk | chunk in chunks[1..] :: chunk in chunks;
      FittingAll(chunks[1..], room - |chunks[0]|);
    }
  }

  lemma NothingFits(chunks: seq<Bytes>, room: int)
    ensures chunks == [] ==> Fitting(chunks, room) == []
  {}

  lemma FittingStep(chunks: seq<Bytes>, k: nat, part: Bytes, size: int)
    requires k < |chunks|
    ensures var chunk := chunks[k];
            part + Fitting(chunks[k..], size - |part|)
            == if chunk == [] || |part| + |chunk| > size then part
            else (part + chunk) + Fitting(chunks[k + 1..], size - |part + chunk|)
  {
    assert chunks[k..][1..] == chunks[k + 1..];
  }

  /** The files beside the target: the parts directory with its metadata, and the target itself. */
  class Workspace {
    var target: Option<Bytes>
    var identity: Option<Identity>
    var parts: map<nat, Bytes>

    constructor (target: Option<Bytes>, identity: Option<Identity>, parts: map<nat, Bytes>)
      ensures this.target == target && this.identity == identity && this.parts == parts
    {
      this.target, this.identity, this.parts := target, identity, parts;
    }

    /** One accepted body, chunk by chunk; an overflowing chunk is refused before it is written. */
    method WriteBody(plan: Identity, i: nat, chunks: seq<Bytes>, ghost source: Bytes)
      requires IsPlan(plan) && i < plan.segments && i in parts
      requires |parts[i]| <= Past(plan, i) - First(plan, i)
      modifies this`parts
      ensures parts.Keys == old(parts.Keys) && forall j | j in parts && j != i :: parts[j] == old(parts[j])
      ensures |parts[i]| <= Past(plan, i) - First(plan, i)
      ensures parts[i] == old(parts[i]) + Fitting(chunks, Past(plan, i) - First(plan, i) - |old(parts[i])|)
      ensures |source| == plan.expectedBytes && old(parts[i]) <= Slice(plan, source, i)
              && Agrees(Flatten(chunks), source, First(plan, i) + |old(parts[i])|, Past(plan, i) - 1)
              ==> parts[i] <= Slice(plan, source, i)
    {
      hide IsPlan, Slice, Agrees, First, Past, Fitting;
      PlanTiles(plan, i);
      ghost var size := Past(plan, i) - First(plan, i);
      ghost var written := parts[i] + Fitting(chunks, size - |parts[i]|);
      var k := 0;
      ghost var given := |source| == plan.expectedBytes && parts[i] <= Slice(plan, source, i)
                         && Agrees(Flatten(chunks), source, First(plan, i) + |parts[i]|, Past(plan, i) - 1);
      assert chunks[0..] == chunks;
      while k < |chunks|
        invariant 0 <= k <= |chunks|
        invariant parts.Keys == old(parts.Keys) && forall j | j in parts && j != i :: parts[j] == old(parts[j])
        invariant |parts[i]| <= size && written == parts[i] + Fitting(chunks[k..], size - |parts[i]|)
        invariant given ==> parts[i] <= Slice(plan, source, i)
        invariant given ==> Agrees(Flatten(chunks[k..]), source, First(plan, i) + |parts[i]|, Past(plan, i) - 1)
      {
        var chunk := chunks[k];
        FittingStep(chunks, k, parts[i], size);
        if |chunk| == 0 || |parts[i]| + |chunk| > Past(plan, i) - First(plan, i) { return; }
        assert chunks[k..] == [chunk] + chunks[k + 1..];
        if given {
          AgreesSplit(chunk, Flatten(chunks[k + 1..]), source, First(plan, i) + |parts[i]|, Past(plan, i) - 1);
          PrefixGrows(plan, source, i, parts[i], chunk);
        }
        parts := parts[i := parts[i] + chunk];
        k := k + 1;
      }
      NothingFits(chunks[k..], size - |parts[i]|);
    }

    /** One request for the rest of the segment: validation of the reply, then its body. */
    method AttemptOnce(plan: Identity, i: nat, reply: Reply, ghost source: Bytes) returns (end: Attempt)
      requires IsPlan(plan) && i < plan.segments && PartLength(parts, i) < Past(plan, i) - First(plan, i)
      modifies this`parts
      ensures forall j | j != i :: (j in parts <==> j in old(parts)) && (j in parts ==> parts[j] == old(parts[j]))
      ensures i in parts ==> |parts[i]| <= Past(plan, i) - First(plan, i)
      ensures end == Whole ==> i in parts && |parts[i]| == Past(plan, i) - First(plan, i)
      ensures end == Raised <==>
              NamesTheRest(plan, i, PartLength(old(parts), i), reply) && reply.contentLength == Malformed
      ensures end == Raised ==> reply.Reply? && reply.contentLength == Malformed
      ensures end == Raised || Useless(plan, i, PartLength(old(parts), i), reply) ==> parts == old(parts)
      ensures Useless(plan, i, PartLength(old(parts), i), reply) ==> end == Again
      ensures Delivers(plan, i, PartLength(old(parts), i), reply) ==>
                end == Whole && i in parts && parts[i] == Leftover(plan, old(parts), i) + Flatten(reply.chunks)
      ensures |source| == plan.expectedBytes && (i in old(parts) ==> old(parts[i]) <= Slice(plan, source, i))
              && Honest(reply, source)
              ==> (i in parts ==> parts[i] <= Slice(plan, source, i))
    {
      hide IsPlan, Slice, Honest, Agrees, Accepted, Escapes, Useless, Delivers, First, Past;
      var offset := PartLength(parts, i);
      Usefulness(plan, i, offset, reply);
      Escaping(plan, i, offset, reply);
      if Escapes(plan, i, offset, reply) { return Raised; }
      if !Accepted(plan, i, offset, reply) { return Again; }
      AcceptedReplies(plan, i, offset, reply);
      if offset == 0 { parts := parts[i := []]; }
      if |source| == plan.expectedBytes && Honest(reply, source) {
        AcceptedAgrees(plan, i, offset, reply, source);
        NothingYet(plan, source, i);
      }
      ghost var part := parts[i];
      WriteBody(plan, i, reply.chunks, source);
      if Delivers(plan, i, offset, reply) { DeliveredWhole(plan, i, part, reply); }
      end := if !reply.broken && |parts[i]| == Past(plan, i) - First(plan, i) then Whole else Again;
    }

    /** download_segment: resumes its own part, sends at most four requests, touches no other part. */
    method DownloadSegment(plan: Identity, i: nat, replies: seq<Reply>, ghost source: Bytes)
      returns (r: Outcome, requests: nat)
      requires IsPlan(plan) && i < plan.segments && |replies| == ATTEMPTS
      modifies this`parts
      ensures requests <= 4
      ensures r == Failed && requests < 4 ==>
                requests > 0 && replies[requests - 1].Reply? && replies[requests - 1].contentLength == Malformed
      ensures forall j | j != i :: (j in parts <==> j in old(parts)) && (j in parts ==> parts[j] == old(parts[j]))
      ensures r == Done ==> i in parts && |parts[i]| == Past(plan, i) - First(plan, i)
      ensures Progresses(plan, i, Leftover(plan, old(parts), i), parts, replies, r, requests)
      ensures |source| == plan.expectedBytes && (i in old(parts) ==> old(parts[i]) <= Slice(plan, source, i))
              && (forall reply | reply in replies :: Honest(reply, source))
              ==> (i in parts ==> parts[i] <= Slice(plan, source, i))
                  && (r == Done ==> parts[i] == Slice(plan, source, i))
    {
      hide IsPlan, Slice, Honest, Useless, Delivers, NamesTheRest, First, Past, Flatten, Undecided, Progresses;
      PlanTiles(plan, i);
      requests := 0;
      var expected := Past(plan, i) - First(plan, i);
      ghost var honest := |source| == plan.expectedBytes && (i in parts ==> parts[i] <= Slice(plan, source, i))
                          && (forall reply | reply in replies :: Honest(reply, source));
      ghost var left := Leftover(plan, parts, i);
      WholeAlready(plan, i, parts, replies);
      if i in parts && |parts[i]| == expected { return Done, 0; }
      if i in parts && |parts[i]| > expected { parts := parts - {i}; }
      NothingDecided(plan, i, left, parts, replies);
      var attempt := 0;
      while attempt < ATTEMPTS
        invariant 0 <= attempt <= ATTEMPTS && requests == attempt
        invariant forall j | j != i :: (j in parts <==> j in old(parts)) && (j in parts ==> parts[j] == old(parts[j]))
        invariant i in parts ==> |parts[i]| <= expected
        invariant honest && i in parts ==> parts[i] <= Slice(plan, source, i)
        invariant Undecided(plan, i, left, parts, replies, attempt)
      {
        var offset := PartLength(parts, i);
        if First(plan, i) + offset > Past(plan, i) - 1 {
          EndsFull(plan, i, left, parts, replies, attempt);
          return Done, requests;
        }
        requests := requests + 1;
        ghost var before := parts;
        var end := AttemptOnce(plan, i, replies[attempt], source);
        AttemptDecides(plan, i, left, before, parts, replies, attempt, end);
        if end == Raised { return Failed, requests; }
        if end == Whole { return Done, requests; }
        attempt := attempt + 1;
      }
      EndsUndecided(plan, i, left, parts, replies);
      r := Failed;
    }

    /** All segments in one schedule; NextKeepsPrefixes covers the others. */
    method DownloadParts(plan: Identity, replies: nat -> seq<Reply>, ghost source: Bytes) returns (r: Outcome)
      requires IsPlan(plan) && forall i :: |replies(i)| == ATTEMPTS
      modifies this`parts
      ensures r == Done ==> Complete(plan, parts)
      ensures AllServed(plan, old(parts), replies) ==> r == Done
      ensures |source| == plan.expectedBytes && PartsArePrefixes(plan, source, old(parts))
              && (forall i, reply | reply in replies(i) :: Honest(reply, source))
              ==> PartsArePrefixes(plan, source, parts)
    {
      hide Served, Progresses;
      ghost var honest := |source| == plan.expectedBytes && PartsArePrefixes(plan, source, parts)
                          && (forall j, reply | reply in replies(j) :: Honest(reply, source));
      var i := 0;
      r := Done;
      while i < plan.segments
        invariant 0 <= i <= plan.segments
        invariant r == Done ==> forall j: nat | j < i :: j in parts && |parts[j]| == Past(plan, j) - First(plan, j)
        invariant honest ==> PartsArePrefixes(plan, source, parts)
        invariant forall j | j >= i :: (j in parts <==> j in old(parts)) && (j in parts ==> parts[j] == old(parts[j]))
        invariant AllServed(plan, old(parts), replies) ==> r == Done
      {
        ghost var left := Leftover(plan, parts, i);
        var one, requests := DownloadSegment(plan, i, replies(i), source);
        if Served(plan, i, left, replies(i)) { ServedIsDone(plan, i, left, parts, replies(i), one, requests); }
        if one == Failed { r := Failed; }
        i := i + 1;
      }
    }

    /** Reads the parts in index order into the partial file. */
    method Assemble(count: nat) returns (written: Bytes)
      ensures written == Joined(parts, count)
    {
      written := [];
      for index := 0 to count
        invariant written == Joined(parts, index)
      {
        if index in parts { written := written + parts[index]; }
      }
    }

    /**
     The whole download.  Whatever the server sends, the target holds verified bytes or nothing; with an
     honest server a failure only ever means an unfinished segment, and keeps the parts for the next run.
     */
    method Download(plan: Identity, sha256: Bytes -> Digest, replies: nat -> seq<Reply>, ghost source: Bytes)
      returns (r: Outcome)
      requires IsPlan(plan) && forall i :: |replies(i)| == ATTEMPTS
      modifies this
      ensures r == Done ==> target.Some? && |target.value| == plan.expectedBytes
                            && sha256(target.value) == plan.expectedSha256
      ensures r == Failed ==> target == None
      ensures old(target.Some? && |target.value| == plan.expectedBytes && sha256(target.value) == plan.expectedSha256)
              ==> r == Done && target == old(target) && parts == old(parts) && identity == old(identity)
      ensures r == Failed ==> identity == Some(plan) || (identity.None? && parts == map[])
      ensures r == Failed && AllServed(plan, if old(identity) == Some(plan) then old(parts) else map[], replies) ==>
                identity.None? && parts == map[]
      ensures r == Done && target != old(target) ==> identity.None? && parts == map[]
      ensures (|source| == plan.expectedBytes && sha256(source) == plan.expectedSha256
               && (forall i, reply | reply in replies(i) :: Honest(reply, source))
               && (old(identity) == Some(plan) ==> PartsArePrefixes(plan, source, old(parts))))
              ==> (if r == Done then target == old(target) || target == Some(source)
                   else identity == Some(plan) && PartsArePrefixes(plan, source, parts))
                  && (AllServed(plan, if old(identity) == Some(plan) then old(parts) else map[], replies) ==> r == Done)
    {
      hide AllServed;
      if target.Some? && |target.value| == plan.expectedBytes && sha256(target.value) == plan.expectedSha256 {
        return Done;
      }
      target := None;
      if identity != Some(plan) { parts := map[]; }
      identity := Some(plan);
      r := DownloadParts(plan, replies, source);
      if r == Failed { return; }
      var written := Assemble(plan.segments);
      if |source| == plan.expectedBytes && PartsArePrefixes(plan, source, parts) {
        AssemblyIsSource(plan, source, parts);
      }
      if |written| != plan.expectedBytes || sha256(written) != plan.expectedSha256 {
        parts, identity := map[], None;
        return Failed;
      }
      target, parts, identity := Some(written), map[], None;
    }
  }
}
