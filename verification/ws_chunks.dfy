/** Whether it matters how a stream is cut into reads. It does not, unless a handler hangs up with
    messages behind it in the same read: those are still handed on, and would not have been read had
    the cut come before them. */
module WsChunks {
  import opened WsFrame
  import opened WsRead

  lemma HungUpStays(log: seq<Event>, longer: seq<Event>)
    requires HungUp(log) && log <= longer
    ensures HungUp(longer)
  {
    var i :| 0 <= i < |log| && log[i] == HangUp;
    assert longer[i] == HangUp;
  }

  /** A history that reading can have left behind. */
  ghost predicate Proper(o: Outcome) {
    ClosedOnce(o.log) && if o.Open? then NeverClosed(o.log) else Finished(o.log)
  }

  lemma FeedGrows(sv: Server, o: Outcome, b: seq<Byte>)
    requires Proper(o)
    ensures Proper(Feed(sv, o, b)) && o.log <= Feed(sv, o, b).log
  {
    hide Run, ClosedOnce, NeverClosed, Finished;
    if o.Open? {
      CloseIsLast(sv, o.asm, o.log, o.rest + b);
    }
  }

  /** Reading a and then b is reading both at once. */
  lemma FeedTwice(sv: Server, o: Outcome, a: seq<Byte>, b: seq<Byte>)
    ensures Feed(sv, Feed(sv, o, a), b) == Feed(sv, o, a + b)
  {
    hide Run;
    if o.Open? {
      RunResumes(sv, o.asm, o.log, o.rest + a, b);
      assert o.rest + a + b == o.rest + (a + b);
    }
  }

  /** The logs of two reads and of one agree exactly when nobody hung up in the first, or nothing would
      have come of the second. */
  lemma CutInTwo(sv: Server, o: Outcome, a: seq<Byte>, b: seq<Byte>)
    requires !HungUp(o.log)
    ensures var m, whole := Feed(sv, o, a), Feed(sv, o, a + b);
            && (!HungUp(m.log) ==> FeedAll(sv, o, [a, b]) == whole)
            && (FeedAll(sv, o, [a, b]).log == whole.log <==> (HungUp(m.log) ==> Feed(sv, m, b).log == m.log))
  {
    hide Feed, HungUp;
    FeedTwice(sv, o, a, b);
    assert [a] + [b] == [a, b];
    FeedFirst(sv, o, a);
    FeedAllSnoc(sv, o, [a], b);
  }

  // ---------------------------------------------------------------- any number of reads

  lemma ConcatMore(chunks: seq<seq<Byte>>, b: seq<Byte>)
    ensures Concat(chunks + [b]) == Concat(chunks) + b
    decreases |chunks|
  {
    if chunks == [] {
      assert [b][1..] == [];
      assert chunks + [b] == [b] && [] + b == b + [];
    } else {
      assert (chunks + [b])[1..] == chunks[1..] + [b];
      ConcatMore(chunks[1..], b);
      assert chunks[0] + (Concat(chunks[1..]) + b) == chunks[0] + Concat(chunks[1..]) + b;
    }
  }

  /** Reading stops after the chunk in which somebody hangs up; up to there, cuts do not matter. */
  lemma {:induction false} ReadsUntilHangUp(sv: Server, o: Outcome, chunks: seq<seq<Byte>>) returns (k: nat)
    requires Proper(o) && !HungUp(o.log) && chunks != []
    ensures 0 < k <= |chunks| && FeedAll(sv, o, chunks) == Feed(sv, o, Concat(chunks[..k]))
    ensures k < |chunks| ==> HungUp(FeedAll(sv, o, chunks).log)
    decreases |chunks|
  {
    hide Feed, HungUp, Proper, FeedAll, Concat;
    var n := |chunks| - 1;
    var before, last := chunks[..n], chunks[n];
    assert before + [last] == chunks;
    ConcatMore(before, last);
    FeedAllSnoc(sv, o, before, last);
    if n == 0 {
      k := 1;
      FeedFirst(sv, o, last);
      NoChunks();
      assert before == [] && [] + last == last;
      assert chunks[..k] == chunks;
    } else {
      k := ReadsUntilHangUp(sv, o, before);
      if HungUp(FeedAll(sv, o, before).log) {
        assert chunks[..k] == before[..k];
      } else {
        assert before[..k] == before;
        FeedTwice(sv, o, Concat(before), last);
        k := |chunks|;
        assert chunks[..k] == chunks;
      }
    }
  }

  lemma NoChunks()
    ensures Concat([]) == []
  {
  }

  lemma ConcatSplit(chunks: seq<seq<Byte>>, k: nat)
    requires k <= |chunks|
    ensures Concat(chunks) == Concat(chunks[..k]) + Concat(chunks[k..])
    decreases k
  {
    if k == 0 {
      assert chunks[0..] == chunks && [] + Concat(chunks) == Concat(chunks);
    } else {
      ConcatSplit(chunks[1..], k - 1);
      assert chunks[..k][1..] == chunks[1..][..k - 1] && chunks[1..][k - 1..] == chunks[k..];
    }
  }

  /** However a stream is cut into reads, empty ones and bytes pipelined behind the handshake (the rest
      of o) included: what happens is a beginning of what one read of all of it would do, the whole of
      it unless somebody hangs up, and then the connection ends up where one read would leave it. */
  lemma ChunkingIndependence(sv: Server, o: Outcome, chunks: seq<seq<Byte>>)
    requires Proper(o) && !HungUp(o.log) && chunks != []
    ensures var whole := Feed(sv, o, Concat(chunks));
            && FeedAll(sv, o, chunks).log <= whole.log
            && (!HungUp(whole.log) ==> FeedAll(sv, o, chunks) == whole)
            && (FeedAll(sv, o, chunks) == whole || HungUp(FeedAll(sv, o, chunks).log))
  {
    hide Feed, HungUp, Proper, FeedAll, Concat;
    var k := ReadsUntilHangUp(sv, o, chunks);
    ConcatSplit(chunks, k);
    var m := FeedAll(sv, o, chunks);
    FeedGrows(sv, o, Concat(chunks[..k]));
    FeedGrows(sv, m, Concat(chunks[k..]));
    FeedTwice(sv, o, Concat(chunks[..k]), Concat(chunks[k..]));
    if k == |chunks| {
      assert chunks[..k] == chunks;
    } else {
      HungUpStays(m.log, Feed(sv, o, Concat(chunks)).log);
    }
  }

  /** Nothing is handed on after somebody has hung up. */
  ghost predicate HangUpLast(log: seq<Event>) {
    HungUp(log) ==> log[|log| - 1] == HangUp
  }

  lemma HangUpEnds(log: seq<Event>, longer: seq<Event>)
    requires HungUp(log) && log <= longer && ClosedOnce(longer) && HangUpLast(longer)
    ensures log == longer
  {
    HungUpStays(log, longer);
    var i :| 0 <= i < |log| && log[i] == HangUp;
    assert longer[i].HangUp? && !longer[|longer| - 1].Dispatch?;
  }

  /** What is in order for one read is the same for every cut of it. */
  lemma CutDoesNotMatter(sv: Server, o: Outcome, one: seq<seq<Byte>>, other: seq<seq<Byte>>)
    requires Proper(o) && !HungUp(o.log) && one != [] && other != [] && Concat(one) == Concat(other)
    requires HangUpLast(Feed(sv, o, Concat(one)).log)
    ensures FeedAll(sv, o, one).log == FeedAll(sv, o, other).log == Feed(sv, o, Concat(one)).log
    ensures !HungUp(Feed(sv, o, Concat(one)).log) ==> FeedAll(sv, o, one) == FeedAll(sv, o, other)
  {
    SameLog(sv, o, one);
    SameLog(sv, o, other);
    ChunkingIndependence(sv, o, one);
    ChunkingIndependence(sv, o, other);
  }

  lemma SameLog(sv: Server, o: Outcome, chunks: seq<seq<Byte>>)
    requires Proper(o) && !HungUp(o.log) && chunks != [] && HangUpLast(Feed(sv, o, Concat(chunks)).log)
    ensures FeedAll(sv, o, chunks).log == Feed(sv, o, Concat(chunks)).log
  {
    hide Feed, HungUp, HangUpLast, FeedAll, Concat;
    ChunkingIndependence(sv, o, chunks);
    FeedGrows(sv, o, Concat(chunks));
    var whole := Feed(sv, o, Concat(chunks));
    if FeedAll(sv, o, chunks) != whole {
      HangUpEnds(FeedAll(sv, o, chunks).log, whole.log);
    }
  }

  // ---------------------------------------------------------------- and exactly when it matters

  /** Somewhere in the bytes is the end of the frame whose handler hangs up. */
  lemma {:induction false} HangUpPoint(sv: Server, asm: Assembly, log: seq<Event>, b: seq<Byte>) returns (n: nat)
    requires !HungUp(log) && HungUp(Run(sv, asm, log, b).log)
    ensures n <= |b| && HungUp(Run(sv, asm, log, b[..n]).log) && HangUpLast(Run(sv, asm, log, b[..n]).log)
    decreases |b|
  {
    hide HeaderOf, Run, First, FrameEnd, HungUp, HangUpLast;
    if WholeFrame(b, sv.maxFrame) {
      RunStep(sv, asm, log, b);
      var end, o := FrameEnd(b, sv.maxFrame), First(sv, asm, log, b);
      assert b[..end] + b[end..] == b;
      if HungUp(o.log) {
        n := end;
        FirstHangsUpLast(sv, asm, log, b);
        OneFrameRuns(sv, asm, log, b);
      } else if o.Open? {
        var m := HangUpPoint(sv, o.asm, o.log, b[end..]);
        n := end + m;
        FrameThen(sv, asm, log, b, n);
        assert b[..n][end..] == b[end..][..m];
      }
    } else {
      RunStops(sv, asm, log, b);
      n := 0;
      EndedHangsNot(log);
    }
  }

  lemma EndedHangsNot(log: seq<Event>)
    requires !HungUp(log)
    ensures forall reason :: !HungUp(Ended(log, reason).log)
  {
    forall reason
      ensures !HungUp(log + [Close(reason)])
    {
      HungUpMore(log, Close(reason));
    }
  }

  /** A frame whose handler hangs up does nothing more. */
  lemma FirstHangsUpLast(sv: Server, asm: Assembly, log: seq<Event>, b: seq<Byte>)
    requires WholeFrame(b, sv.maxFrame) && !HungUp(log) && HungUp(First(sv, asm, log, b).log)
    ensures HangUpLast(First(sv, asm, log, b).log)
  {
    hide HeaderOf, Unmask, Told, Ended, HungUp;
    HeaderBounds(b, sv.maxFrame);
    var h, hlen := HeaderOf(b, sv.maxFrame).h, HeaderOf(b, sv.maxFrame).hlen;
    var payload := Unmask(b[hlen..hlen + h.length], h.mask);
    EndedHangsNot(log);
    HungUpMore(log, Pong(payload));
    ToldHangsUpLast(sv, log, payload);
    ToldHangsUpLast(sv, log, asm.msg + payload);
  }

  lemma ToldHangsUpLast(sv: Server, log: seq<Event>, message: seq<Byte>)
    requires !HungUp(log)
    ensures HangUpLast(Told(sv, IDLE, log, message).log)
  {
    hide HungUp;
    var told := log + [Dispatch(message)];
    HungUpMore(log, Dispatch(message));
    HungUpMore(told, HangUp);
    HungUpMore(told, Close(Policy));
  }

  lemma PrefixFrame(b: seq<Byte>, n: nat, maxFrame: nat)
    requires WholeFrame(b, maxFrame) && FrameEnd(b, maxFrame) <= n <= |b|
    ensures HeaderOf(b[..n], maxFrame) == HeaderOf(b, maxFrame) && WholeFrame(b[..n], maxFrame)
  {
    HeaderBounds(b, maxFrame);
    var hlen := HeaderOf(b, maxFrame).hlen;
    assert b[..n][2..hlen - 4] == b[2..hlen - 4] && b[..n][hlen - 4..hlen] == b[hlen - 4..hlen];
  }

  lemma FrameThen(sv: Server, asm: Assembly, log: seq<Event>, b: seq<Byte>, n: nat)
    requires WholeFrame(b, sv.maxFrame) && FrameEnd(b, sv.maxFrame) <= n <= |b|
    ensures var end := FrameEnd(b, sv.maxFrame);
            Run(sv, asm, log, b[..n]) == match First(sv, asm, log, b)
                                         case Shut(l) => Shut(l)
                                         case Open(a, l, _) => Run(sv, a, l, b[..n][end..])
  {
    hide Run, First;
    PrefixFrame(b, n, sv.maxFrame);
    RunStep(sv, asm, log, b[..n]);
    WholeFrameStable(sv, asm, log, b[..n], b[n..]);
    assert b[..n] + b[n..] == b;
  }

  lemma OneFrameRuns(sv: Server, asm: Assembly, log: seq<Event>, b: seq<Byte>)
    requires WholeFrame(b, sv.maxFrame)
    ensures Run(sv, asm, log, b[..FrameEnd(b, sv.maxFrame)]).log == First(sv, asm, log, b).log
  {
    hide Run, First, HeaderOf;
    var end := FrameEnd(b, sv.maxFrame);
    FrameThen(sv, asm, log, b, end);
    assert b[..end][end..] == [];
    var o := First(sv, asm, log, b);
    if o.Open? {
      NothingRuns(sv, o.asm, o.log);
    }
  }

  lemma NothingRuns(sv: Server, asm: Assembly, log: seq<Event>)
    ensures Run(sv, asm, log, []) == Open(asm, log, [])
  {
  }

  ghost predicate EveryCutAgrees(sv: Server, o: Outcome, s: seq<Byte>) {
    forall chunks :: chunks != [] && Concat(chunks) == s ==> FeedAll(sv, o, chunks).log == Feed(sv, o, s).log
  }

  /** From wherever reading has come to, every cut of what follows does the same if and only if one read
      of all of it hands nothing on after a handler has hung up. */
  lemma CutsAgreeExactly(sv: Server, o: Outcome, s: seq<Byte>)
    requires Proper(o) && !HungUp(o.log) && Feed(sv, o, []) == o
    ensures EveryCutAgrees(sv, o, s) <==> HangUpLast(Feed(sv, o, s).log)
  {
    hide Feed, FeedAll, HungUp, HangUpLast, Proper, Concat;
    if HangUpLast(Feed(sv, o, s).log) {
      forall chunks | chunks != [] && Concat(chunks) == s
        ensures FeedAll(sv, o, chunks).log == Feed(sv, o, s).log
      {
        SameLog(sv, o, chunks);
      }
    } else {
      var n := LateCut(sv, o, s);
      var a, b := s[..n], s[n..];
      assert a + b == s;
      CutInTwo(sv, o, a, b);
      TwoChunks(a, b);
      assert FeedAll(sv, o, [a, b]).log != Feed(sv, o, s).log;
    }
  }

  lemma TwoChunks(a: seq<Byte>, b: seq<Byte>)
    ensures Concat([a, b]) == a + b
  {
    assert [a, b][1..] == [b] && [b][1..] == [];
    assert Concat([b]) == b + Concat([]) == b;
  }

  /** The cut right behind the frame whose handler hangs up misses what comes after it. */
  lemma LateCut(sv: Server, o: Outcome, s: seq<Byte>) returns (n: nat)
    requires Proper(o) && !HungUp(o.log) && Feed(sv, o, []) == o && !HangUpLast(Feed(sv, o, s).log)
    ensures n <= |s| && HungUp(Feed(sv, o, s[..n]).log)
    ensures Feed(sv, Feed(sv, o, s[..n]), s[n..]).log != Feed(sv, o, s[..n]).log
  {
    hide Run, HungUp, HangUpLast, ClosedOnce, NeverClosed, Finished;
    NotLast(Feed(sv, o, s).log);
    var b := o.rest + s;
    var m := HangUpPoint(sv, o.asm, o.log, b);
    if m <= |o.rest| {
      assert b[..m] + o.rest[m..] == o.rest + [];
      RunResumes(sv, o.asm, o.log, b[..m], o.rest[m..]);
      CloseIsLast(sv, o.asm, o.log, b[..m]);
      FeedGrows(sv, Run(sv, o.asm, o.log, b[..m]), o.rest[m..]);
      HungUpStays(Run(sv, o.asm, o.log, b[..m]).log, o.log);
    }
    n := m - |o.rest|;
    assert b[..m] == o.rest + s[..n] && s[..n] + s[n..] == s;
    FeedTwice(sv, o, s[..n], s[n..]);
  }

  lemma NotLast(log: seq<Event>)
    requires !HangUpLast(log)
    ensures HungUp(log)
  {
  }
}
