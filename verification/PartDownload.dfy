/** The validation downloader: range plan with an early break, unguarded appends, digest before publication. */
module PartDownload {
  import opened Options
  import opened RangeServer
  import opened SegmentTiling

  type Digest = string

  /** A partial reply carries the bytes of the range it names; the total is not looked at here. */
  ghost predicate Truthful(reply: Reply, source: Bytes) {
    reply.Reply? && reply.status == 206 && reply.range.Some? ==>
      Agrees(Flatten(reply.chunks), source, reply.range.value.first, reply.range.value.last)
  }

  function Size(r: Range): int { r.last - r.first + 1 }

  predicate Inside(r: Range, n: nat) { 0 <= r.first <= r.last < n }

  /** As far as it counts, a part follows its range; bytes past the range only make it too long. */
  ghost predicate Follows(part: Bytes, r: Range, source: Bytes) {
    forall k | 0 <= k < |part| && r.first + k <= r.last && 0 <= r.first + k < |source| :: part[k] == source[r.first + k]
  }

  lemma FollowsGrows(part: Bytes, body: Bytes, r: Range, source: Bytes)
    requires Inside(r, |source|) && Follows(part, r, source) && Agrees(body, source, r.first + |part|, r.last)
    ensures Follows(part + body, r, source)
  {
    forall k | 0 <= k < |part + body| && r.first + k <= r.last && r.first + k < |source|
      ensures (part + body)[k] == source[r.first + k]
    {
      if k >= |part| { assert body[k - |part|] == source[r.first + |part| + (k - |part|)]; }
    }
  }

  lemma FollowsWhole(part: Bytes, r: Range, source: Bytes)
    requires Inside(r, |source|) && Follows(part, r, source) && |part| == Size(r)
    ensures part == source[r.first..r.last + 1]
  {}

  function Joined(ranges: seq<Range>, parts: map<nat, Bytes>, count: nat): Bytes {
    if count == 0 then [] else Joined(ranges, parts, count - 1) + (if count - 1 in parts then parts[count - 1] else [])
  }

  lemma TilesInside(ranges: seq<Range>, n: nat, i: nat)
    requires Tiles(ranges, n) && i < |ranges|
    ensures Inside(ranges[i], n)
    decreases |ranges| - i
  {
    TilesStart(ranges, n, i);
    if i + 1 < |ranges| { TilesInside(ranges, n, i + 1); }
  }

  lemma {:induction false} TilesStart(ranges: seq<Range>, n: nat, i: nat)
    requires Tiles(ranges, n) && i < |ranges|
    ensures ranges[i].first >= 0
  {
    if i == 0 {
      assert ranges[0].first == 0;
    } else {
      TilesStart(ranges, n, i - 1);
      assert ranges[i].first == ranges[i - 1].last + 1 && ranges[i - 1].first <= ranges[i - 1].last;
    }
  }

  function Upto(ranges: seq<Range>, count: nat): int
    requires count <= |ranges|
  {
    if count == 0 then 0 else ranges[count - 1].last + 1
  }

  lemma UptoFirst(ranges: seq<Range>, n: nat, i: nat)
    requires Tiles(ranges, n) && i < |ranges|
    ensures Upto(ranges, i) == ranges[i].first && Upto(ranges, |ranges|) == n
  {}

  /** Whole parts that follow their ranges. */
  ghost predicate WholeParts(ranges: seq<Range>, parts: map<nat, Bytes>, source: Bytes, count: nat)
    requires count <= |ranges|
  {
    forall i | 0 <= i < count :: i in parts && |parts[i]| == Size(ranges[i]) && Follows(parts[i], ranges[i], source)
  }

  lemma {:induction false} JoinedIsPrefix(ranges: seq<Range>, parts: map<nat, Bytes>, source: Bytes, count: nat)
    requires Tiles(ranges, |source|) && count <= |ranges| && WholeParts(ranges, parts, source, count)
    ensures 0 <= Upto(ranges, count) <= |source| && Joined(ranges, parts, count) == source[..Upto(ranges, count)]
  {
    hide Follows, Tiles;
    if count > 0 {
      var r := ranges[count - 1];
      TilesInside(ranges, |source|, count - 1);
      UptoFirst(ranges, |source|, count - 1);
      JoinedIsPrefix(ranges, parts, source, count - 1);
      FollowsWhole(parts[count - 1], r, source);
      assert source[..r.first] + source[r.first..r.last + 1] == source[..r.last + 1];
    }
  }

  /** Whole parts of truthful replies join to the source. */
  lemma JoinedIsSource(ranges: seq<Range>, parts: map<nat, Bytes>, source: Bytes)
    requires Tiles(ranges, |source|) && WholeParts(ranges, parts, source, |ranges|)
    ensures Joined(ranges, parts, |ranges|) == source
  {
    hide WholeParts;
    JoinedIsPrefix(ranges, parts, source, |ranges|);
    if |ranges| > 0 { UptoFirst(ranges, |source|, 0); }
    assert source[..|source|] == source;
  }

  // ---------------------------------------------------------------- which replies make progress

  function Held(parts: map<nat, Bytes>, i: nat): Bytes { if i in parts then parts[i] else [] }

  /** A partial reply for exactly the bytes of the range from `offset` on. */
  predicate NamesTheRest(r: Range, offset: nat, reply: Reply) {
    && reply.Reply? && reply.status == 206 && reply.range.Some?
    && reply.range.value.first - offset == r.first && reply.range.value.last == r.last
  }

  /** The first reply that names the rest brings all of it. */
  predicate ServedAt(r: Range, offset: nat, replies: seq<Reply>, k: nat) {
    && k < |replies| && NamesTheRest(r, offset, replies[k]) && !replies[k].broken
    && r.first + offset + |Flatten(replies[k].chunks)| == r.last + 1
    && forall j | 0 <= j < k :: !NamesTheRest(r, offset, replies[j])
  }

  ghost predicate Served(r: Range, offset: nat, replies: seq<Reply>) {
    (r.first + offset == r.last + 1 && replies != []) || exists k: nat :: ServedAt(r, offset, replies, k)
  }

  /** How the first useful reply decides a part; `parts` is the folder afterwards. */
  ghost predicate Progresses(i: nat, r: Range, left: Bytes, parts: map<nat, Bytes>, replies: seq<Reply>, ok: bool) {
    var missing := r.last + 1 - r.first - |left|;
    && (missing == 0 ==> (ok <==> replies != []) && Held(parts, i) == left)
    && (missing < 0 ==> !ok && Held(parts, i) == left)
    && (missing > 0 ==>
          && (forall k | 0 <= k < |replies| && ServedAt(r, |left|, replies, k) ::
                ok && Held(parts, i) == left + Flatten(replies[k].chunks))
          && ((forall reply | reply in replies :: !NamesTheRest(r, |left|, reply)) ==> !ok && Held(parts, i) == left))
  }

  lemma ServedSucceeds(i: nat, r: Range, left: Bytes, parts: map<nat, Bytes>, replies: seq<Reply>, ok: bool)
    requires Progresses(i, r, left, parts, replies, ok) && Served(r, |left|, replies)
    ensures ok
  {
    hide NamesTheRest, Flatten;
    if !(r.first + |left| == r.last + 1 && replies != []) {
      var k: nat :| ServedAt(r, |left|, replies, k);
    }
  }

  class Folder {
    var output: Option<Bytes>
    var parts: map<nat, Bytes>

    /** One request of download_part: appends whatever a reply for the rest of the range brings. */
    method AttemptOnce(i: nat, r: Range, reply: Reply, ghost source: Bytes) returns (done: bool)
      requires Inside(r, |source|) && r.first + |Held(parts, i)| <= r.last
      modifies `parts
      ensures forall j | j != i :: (j in parts <==> j in old(parts)) && (j in parts ==> parts[j] == old(parts[j]))
      ensures done ==> i in parts && |parts[i]| == Size(r)
      ensures !NamesTheRest(r, |Held(old(parts), i)|, reply) ==> !done && parts == old(parts)
      ensures NamesTheRest(r, |Held(old(parts), i)|, reply) ==>
                && i in parts && parts[i] == Held(old(parts), i) + Flatten(reply.chunks)
                && (done <==> !reply.broken && r.first + |parts[i]| == r.last + 1)
      ensures (i in old(parts) ==> Follows(old(parts)[i], r, source)) && Truthful(reply, source) ==>
                i in parts ==> Follows(parts[i], r, source)
    {
      hide Follows, Agrees, Flatten;
      var existing := if i in parts then |parts[i]| else 0;
      done := false;
      if reply.Reply? && reply.status == 206 && reply.range.Some?
         && reply.range.value.first == r.first + existing && reply.range.value.last == r.last
      {
        ghost var before := if i in parts then parts[i] else [];
        var body := Flatten(reply.chunks);
        NothingFollows(r, source);
        if Follows(before, r, source) && Truthful(reply, source) { FollowsGrows(before, body, r, source); }
        parts := parts[i := (if i in parts then parts[i] else []) + body];
        done := !reply.broken && |parts[i]| == Size(r);
      }
    }

    /** download_part: one request after the other, and failure once a part is longer than its range. */
    method DownloadPart(i: nat, r: Range, replies: seq<Reply>, ghost source: Bytes) returns (ok: bool)
      requires Inside(r, |source|)
      modifies `parts
      ensures ok ==> i in parts && |parts[i]| == Size(r)
      ensures forall j | j != i :: (j in parts <==> j in old(parts)) && (j in parts ==> parts[j] == old(parts[j]))
      ensures Progresses(i, r, Held(old(parts), i), parts, replies, ok)
      ensures (i in old(parts) ==> Follows(old(parts)[i], r, source))
              && (forall reply | reply in replies :: Truthful(reply, source))
              ==> i in parts ==> Follows(parts[i], r, source)
    {
      hide Follows, Agrees, Flatten, NamesTheRest, Truthful;
      ghost var truthful := (i in parts ==> Follows(parts[i], r, source)) && forall reply | reply in replies ::
                              Truthful(reply, source);
      ghost var left := Held(parts, i);
      var attempt := 0;
      while attempt < |replies|
        invariant 0 <= attempt <= |replies|
        invariant forall j | j != i :: (j in parts <==> j in old(parts)) && (j in parts ==> parts[j] == old(parts[j]))
        invariant truthful && i in parts ==> Follows(parts[i], r, source)
        invariant (forall j | 0 <= j < attempt :: !NamesTheRest(r, |left|, replies[j])) ==> parts == old(parts)
        invariant r.last + 1 - r.first <= |left| ==> attempt == 0
        invariant forall k | 0 <= k < attempt :: !ServedAt(r, |left|, replies, k)
      {
        var existing := if i in parts then |parts[i]| else 0;
        if existing == Size(r) { return i in parts; }
        if existing > Size(r) { return false; }
        assert truthful ==> Truthful(replies[attempt], source);
        var done := AttemptOnce(i, r, replies[attempt], source);
        if done { return true; }
        attempt := attempt + 1;
      }
      ok := false;
    }

    /**
     download_verified: an existing output is reused or refused, never overwritten; a new one is published only
     verified.
     */
    method DownloadVerified(requested: int, expectedSize: nat, expectedSha256: Digest, sha256: Bytes -> Digest,
                            replies: nat -> seq<Reply>, ghost source: Bytes)
      returns (ok: bool, ghost planned: seq<Range>)
      requires |source| == expectedSize
      modifies this
      ensures ok ==> output.Some? && |output.value| == expectedSize && sha256(output.value) == expectedSha256
      ensures old(output).Some? || !ok ==> output == old(output)
      ensures ok && old(output).None? ==>
                && Tiles(planned, expectedSize) && output == Some(Joined(planned, parts, |planned|))
                && forall i | 0 <= i < |planned| :: i in parts && planned[i].first + |parts[i]| == planned[i].last + 1
      ensures old(output).Some? ==>
                (ok <==> |old(output).value| == expectedSize && sha256(old(output).value) == expectedSha256)
      ensures old(output).None? && expectedSize > 0 && sha256(source) == expectedSha256
              && (forall i, reply | reply in replies(i) :: Truthful(reply, source))
              && (forall i | i in old(parts) :: Follows(old(parts)[i], Planned(requested, expectedSize, i), source))
              && (forall i: nat
                    | Planned(requested, expectedSize, i).first <= Planned(requested, expectedSize, i).last ::
                    Served(Planned(requested, expectedSize, i), |Held(old(parts), i)|, replies(i)))
              ==> ok
      ensures ok && old(output).None? && (forall i, reply | reply in replies(i) :: Truthful(reply, source))
              && (forall i | i in old(parts) :: Follows(old(parts)[i], Planned(requested, expectedSize, i), source))
              ==> output == Some(source)
    {
      hide Follows, Truthful, Planned, Tiles, Progresses, Served;
      planned := [];
      if output.Some? {
        ok := |output.value| == expectedSize && sha256(output.value) == expectedSha256;
        return;
      }
      var ranges := PlanRanges(requested, expectedSize);
      planned := ranges;
      if ranges == [] { NothingTilesNothing(ranges, expectedSize); }
      if ranges == [] { return false, planned; } // no pool can be made for an empty file
      ghost var truthful := (forall i, reply | reply in replies(i) :: Truthful(reply, source))
                            && forall i | i in parts :: Follows(parts[i], Planned(requested, expectedSize, i), source);
      ok := true;
      var i := 0;
      while i < |ranges|
        invariant 0 <= i <= |ranges| && output == old(output)
        invariant forall j | j >= i :: (j in parts <==> j in old(parts)) && (j in parts ==> parts[j] == old(parts[j]))
        invariant !ok ==> exists j: nat | j < i ::
                      && Planned(requested, expectedSize, j).first <= Planned(requested, expectedSize, j).last
                      && !Served(Planned(requested, expectedSize, j), |Held(old(parts), j)|, replies(j))
        invariant ok ==> forall j | 0 <= j < i :: j in parts && |parts[j]| == Size(ranges[j])
        invariant truthful ==> forall j | j in parts && j < |ranges| :: Follows(parts[j], ranges[j], source)
      {
        TilesInside(ranges, expectedSize, i);
        ghost var left := Held(parts, i);
        var one := DownloadPart(i, ranges[i], replies(i), source);
        if Served(ranges[i], |left|, replies(i)) { ServedSucceeds(i, ranges[i], left, parts, replies(i), one); }
        ok := ok && one;
        i := i + 1;
      }
      if !ok { return; }
      var written := [];
      for index := 0 to |ranges|
        invariant written == Joined(ranges, parts, index)
      {
        written := written + parts[index];
      }
      if truthful { JoinedIsSource(ranges, parts, source); }
      if |written| != expectedSize || sha256(written) != expectedSha256 { return false, planned; }
      output := Some(written);
    }
  }

  lemma NothingTilesNothing(ranges: seq<Range>, n: nat)
    requires Tiles(ranges, n) && ranges == []
    ensures n == 0
  {}

  lemma NothingFollows(r: Range, source: Bytes)
    ensures Follows([], r, source)
  {}
}
