/** When overflow makes the collector forget something, as a condition on the messages alone. */
module CollectorOverflow {
  import opened Options
  import opened Words
  import opened FrameMessages
  import opened Collector
  import opened CollectorRuns

  /** The newest id the reference has fired, -1 before the first. */
  function LastFired(cfg: Config, h: History): int {
    if h == [] then -1
    else if ReferenceFires(cfg, h).Some? then ReferenceFires(cfg, h).value.id
    else LastFired(cfg, Butlast(h))
  }

  /** The ids above the newest completed one for which a message has arrived. */
  function OpenIds(cfg: Config, h: History): set<uint32> {
    set i | 0 <= i < |h| && h[i].kind in cfg.deps && UserId(cfg, h[i]) > LastFired(cfg, h) :: UserId(cfg, h[i])
  }

  /** At every point of the run so far, at most twelve ids were open. */
  predicate AtMostTwelveOpen(cfg: Config, h: History) {
    |OpenIds(cfg, h)| <= OVERFLOW_SIZE && (h != [] ==> AtMostTwelveOpen(cfg, Butlast(h)))
  }

  /** As long as nothing was trimmed, exactly the open ids are pending. */
  ghost predicate PendingIsOpen(cfg: Config, h: History) {
    && PendingAfter(cfg, h).Keys == OpenIds(cfg, h)
    && LastFired(cfg, h) >= -1
    && (LastFired(cfg, h) >= 0 ==> LastFired(cfg, h) < TWO_TO_32 && Closed(cfg, h, LastFired(cfg, h)))
  }

  lemma OpenIdsSnoc(cfg: Config, h: History, m: Message)
    requires LastFired(cfg, h + [m]) >= LastFired(cfg, h)
    ensures
      var last := LastFired(cfg, h + [m]);
      OpenIds(cfg, h + [m])
      == (set id | id in OpenIds(cfg, h) && id > last)
         + if m.kind in cfg.deps && UserId(cfg, m) > last then {UserId(cfg, m)} else {}
  {
    hide LastFired, UserId;
    var g, last := h + [m], LastFired(cfg, h + [m]);
    assert g[|h|] == m && forall i :: 0 <= i < |h| ==> g[i] == h[i];
    forall id | id in OpenIds(cfg, h) && id > last ensures id in OpenIds(cfg, g) {
      var i :| 0 <= i < |h| && h[i].kind in cfg.deps && UserId(cfg, h[i]) > LastFired(cfg, h)
              && UserId(cfg, h[i]) == id;
      assert g[i] == h[i];
    }
    if m.kind in cfg.deps && UserId(cfg, m) > last {
      assert UserId(cfg, g[|h|]) in OpenIds(cfg, g);
    }
  }

  /** A message of a required type is for an id above the newest completed one. */
  lemma WantedIsAbove(cfg: Config, h: History, m: Message)
    requires Ordered(cfg, h + [m]) && PendingIsOpen(cfg, h) && m.kind in cfg.deps
    ensures UserId(cfg, m) > LastFired(cfg, h)
  {
    if LastFired(cfg, h) >= 0 {
      PastSendsNoMore(cfg, h, m, LastFired(cfg, h));
    }
  }

  /** What the last message does to the newest completed id, while nothing was trimmed. */
  lemma LastFiredSnoc(cfg: Config, h: History, m: Message)
    requires Ordered(cfg, h + [m]) && AllAgree(cfg, h) && Trimmed(cfg, h) == {}
    ensures LastFired(cfg, h + [m]) == if Fires(cfg, h + [m]).Some? then UserId(cfg, m) else LastFired(cfg, h)
    ensures Fires(cfg, h + [m]).Some? ==> m.kind in cfg.deps
  {
    assert Butlast(h + [m]) == h && Last(h + [m]) == m;
    FiresLikeReferenceStep(cfg, h, m);
    hide Ordered, AllAgree, Fires, Trimmed, Complete, Arrived;
  }

  /** A message that fires leaves the newer open ids. */
  lemma OpenAfterFire(cfg: Config, h: History, m: Message)
    requires Ordered(cfg, h + [m]) && AllAgree(cfg, h) && PendingIsOpen(cfg, h) && Trimmed(cfg, h) == {}
    requires Fires(cfg, h + [m]).Some?
    ensures Trimmed(cfg, h + [m]) == {} && PendingIsOpen(cfg, h + [m])
  {
    hide Ordered, AllAgree, Fires, Trimmed, LastFired, UserId, OpenIds, PendingAfter, Closed;
    var id := UserId(cfg, m);
    LastFiredSnoc(cfg, h, m);
    FiredIsClosed(cfg, h, m, id);
    WantedIsAbove(cfg, h, m);
    OpenIdsSnoc(cfg, h, m);
    forall x: uint32 ensures x in PendingAfter(cfg, h + [m]) <==> x in OpenIds(cfg, h + [m]) {
      PendingAfterFire(cfg, h, m, x);
    }
    PendingAfterFire(cfg, h, m, id);
  }

  lemma FilingStep(cfg: Config, h: History, m: Message)
    requires Fires(cfg, h + [m]).None? && m.kind in cfg.deps
    ensures
      var filed := Filed(cfg, PendingAfter(cfg, h), m);
      && PendingAfter(cfg, h + [m]) == Reduced(filed)
      && Trimmed(cfg, h + [m]) == Trimmed(cfg, h) + (filed.Keys - Reduced(filed).Keys)
      && filed.Keys == PendingAfter(cfg, h).Keys + {UserId(cfg, m)}
  {
    assert Butlast(h + [m]) == h && Last(h + [m]) == m;
    hide UserId, Reduced, DelayOf;
  }

  lemma FiledAreOpen(cfg: Config, h: History, m: Message)
    requires Ordered(cfg, h + [m]) && AllAgree(cfg, h) && PendingIsOpen(cfg, h) && Trimmed(cfg, h) == {}
    requires Fires(cfg, h + [m]).None? && m.kind in cfg.deps
    ensures Filed(cfg, PendingAfter(cfg, h), m).Keys == OpenIds(cfg, h + [m])
    ensures LastFired(cfg, h + [m]) == LastFired(cfg, h)
  {
    hide Ordered, AllAgree, Fires, Trimmed, LastFired, UserId, OpenIds, PendingAfter, Closed, Reduced, Filed;
    LastFiredSnoc(cfg, h, m);
    WantedIsAbove(cfg, h, m);
    OpenIdsSnoc(cfg, h, m);
    FilingStep(cfg, h, m);
    OpenAreAbove(cfg, h);
    var open := set id | id in OpenIds(cfg, h) && id > LastFired(cfg, h);
    assert open == OpenIds(cfg, h);
  }

  /** Filing opens the id of the message; with more than twelve open, and only then, something is dropped. */
  lemma OpenAfterFiling(cfg: Config, h: History, m: Message)
    requires Ordered(cfg, h + [m]) && AllAgree(cfg, h) && PendingIsOpen(cfg, h) && Trimmed(cfg, h) == {}
    requires Fires(cfg, h + [m]).None? && m.kind in cfg.deps
    ensures Trimmed(cfg, h + [m]) == {} <==> |OpenIds(cfg, h + [m])| <= OVERFLOW_SIZE
    ensures Trimmed(cfg, h + [m]) == {} ==> PendingIsOpen(cfg, h + [m])
  {
    hide Ordered, AllAgree, Fires, Trimmed, LastFired, UserId, OpenIds, PendingAfter, Closed, Reduced, Filed;
    var filed := Filed(cfg, PendingAfter(cfg, h), m);
    FiledAreOpen(cfg, h, m);
    FilingStep(cfg, h, m);
    var dropped := filed.Keys - Reduced(filed).Keys;
    var none: set<uint32> := {};
    assert none + dropped == dropped;
    assert |filed| == |filed.Keys|;
    DropsIffOverflow(filed);
    if LastFired(cfg, h) >= 0 {
      ClosedGrows(cfg, h, m, LastFired(cfg, h));
    }
  }

  lemma OpenAreAbove(cfg: Config, h: History)
    ensures forall id <- OpenIds(cfg, h) :: id > LastFired(cfg, h)
  {
  }

  lemma DropsIffOverflow(m: Pending)
    ensures m.Keys - Reduced(m).Keys == {} <==> |m| <= OVERFLOW_SIZE
    ensures |m| <= OVERFLOW_SIZE ==> Reduced(m) == m
  {
    if |m| > OVERFLOW_SIZE {
      DropSmallestKeepsNewest(m, |m| - SIZE_AFTER_REDUCTION);
      hide DropSmallest;
      var kept := Reduced(m).Keys;
      assert m.Keys * kept == kept;
      assert |m| == |m.Keys| && |Reduced(m)| == |kept| < |m|;
      assert |m.Keys - kept| == |m.Keys| - |kept|;
    }
  }

  /** A message of another type changes nothing. */
  lemma OpenAfterUnwanted(cfg: Config, h: History, m: Message)
    requires PendingIsOpen(cfg, h) && m.kind !in cfg.deps
    ensures Trimmed(cfg, h + [m]) == Trimmed(cfg, h) && PendingIsOpen(cfg, h + [m])
    ensures OpenIds(cfg, h + [m]) == OpenIds(cfg, h)
  {
    UnwantedIsIgnored(cfg, h, m);
    hide LastFired, OpenIds, PendingAfter, Trimmed, Closed, UserId;
    UnwantedOpensNothing(cfg, h, m);
    if LastFired(cfg, h) >= 0 {
      ClosedGrows(cfg, h, m, LastFired(cfg, h));
    }
  }

  lemma UnwantedOpensNothing(cfg: Config, h: History, m: Message)
    requires m.kind !in cfg.deps && LastFired(cfg, h + [m]) == LastFired(cfg, h)
    ensures OpenIds(cfg, h + [m]) == OpenIds(cfg, h)
  {
    hide LastFired, UserId;
    OpenIdsSnoc(cfg, h, m);
    OpenAreAbove(cfg, h);
    hide OpenIds;
    var open := set id | id in OpenIds(cfg, h) && id > LastFired(cfg, h);
    assert open == OpenIds(cfg, h);
  }

  lemma UnwantedIsIgnored(cfg: Config, h: History, m: Message)
    requires m.kind !in cfg.deps
    ensures Trimmed(cfg, h + [m]) == Trimmed(cfg, h) && PendingAfter(cfg, h + [m]) == PendingAfter(cfg, h)
    ensures LastFired(cfg, h + [m]) == LastFired(cfg, h)
  {
    assert Butlast(h + [m]) == h && Last(h + [m]) == m;
    hide Arrived, Complete, UserId, Reduced;
  }

  /**
   * The exact condition: in an ordered run overflow never drops anything exactly if at no point more than
   * twelve ids above the newest completed one have a message.
   */
  lemma {:induction false} NothingTrimmedIff(cfg: Config, h: History)
    requires Ordered(cfg, h)
    ensures Trimmed(cfg, h) == {} <==> AtMostTwelveOpen(cfg, h)
    ensures Trimmed(cfg, h) == {} ==> PendingIsOpen(cfg, h)
  {
    if h != [] {
      var p, m := Butlast(h), Last(h);
      assert h == p + [m];
      OrderedPrefix(cfg, p, m);
      NothingTrimmedIff(cfg, p);
      TrimmedMonotone(cfg, p, m);
      if Trimmed(cfg, p) == {} {
        RunAgrees(cfg, p);
        NothingTrimmedStep(cfg, p, m);
      }
    }
  }

  lemma NothingTrimmedStep(cfg: Config, h: History, m: Message)
    requires Ordered(cfg, h + [m]) && AllAgree(cfg, h) && PendingIsOpen(cfg, h) && Trimmed(cfg, h) == {}
    ensures Trimmed(cfg, h + [m]) == {} <==> |OpenIds(cfg, h + [m])| <= OVERFLOW_SIZE
    ensures Trimmed(cfg, h + [m]) == {} ==> PendingIsOpen(cfg, h + [m])
  {
    hide PendingIsOpen, Trimmed, OpenIds, Ordered, Fires, AllAgree;
    PendingFits(cfg, h);
    if m.kind !in cfg.deps {
      OpenAfterUnwanted(cfg, h, m);
    } else if Fires(cfg, h + [m]).Some? {
      OpenAfterFire(cfg, h, m);
      PendingFits(cfg, h + [m]);
    } else {
      OpenAfterFiling(cfg, h, m);
    }
  }

  lemma PendingFits(cfg: Config, h: History)
    ensures PendingIsOpen(cfg, h) ==> |OpenIds(cfg, h)| <= OVERFLOW_SIZE
  {
    PendingInvariant(cfg, h);
    assert |PendingAfter(cfg, h)| == |PendingAfter(cfg, h).Keys|;
  }

  // ----- What this means for the log -----

  /** While at most twelve ids are open, the pruned collector is indistinguishable from one that never discards. */
  lemma PrunedIsUnbounded(cfg: Config, h: History)
    requires Ordered(cfg, h) && AtMostTwelveOpen(cfg, h)
    ensures FireLog(cfg, h) == ReferenceLog(cfg, h)
  {
    NothingTrimmedIff(cfg, h);
    LogsAreEqualIff(cfg, h);
  }

  lemma {:induction false} CompleteIsLogged(cfg: Config, h: History, id: uint32)
    requires cfg.deps != {} && Complete(cfg, h, id)
    ensures exists f :: f in ReferenceLog(cfg, h) && f.id == id
  {
    if h != [] {
      var p, m := Butlast(h), Last(h);
      assert h == p + [m];
      if Complete(cfg, p, id) {
        CompleteIsLogged(cfg, p, id);
        var f :| f in ReferenceLog(cfg, p) && f.id == id;
        assert f in ReferenceLog(cfg, h);
      } else {
        assert !Wanted(cfg, m, id) ==> Arrived(cfg, h, id) == Arrived(cfg, p, id);
        assert Wanted(cfg, m, id);
        var f := ReferenceFires(cfg, h).value;
        assert f in AsList(ReferenceFires(cfg, h)) && f in ReferenceLog(cfg, h);
      }
    }
  }

  /** What is trimmed had a message. */
  lemma {:induction false} TrimmedHadMessage(cfg: Config, h: History, id: uint32)
    requires id in Trimmed(cfg, h)
    ensures exists m :: m in h && Wanted(cfg, m, id)
  {
    var p, m := Butlast(h), Last(h);
    assert h == p + [m];
    assert id in Trimmed(cfg, p) || (id in Filed(cfg, PendingAfter(cfg, p), m) && m.kind in cfg.deps);
    hide Trimmed, PendingAfter, Reduced, Fires;
    if id in Trimmed(cfg, p) {
      TrimmedHadMessage(cfg, p, id);
      var x :| x in p && Wanted(cfg, x, id);
      assert x in h;
    } else if id != UserId(cfg, m) {
      assert id in PendingAfter(cfg, p);
      PendingHadMessage(cfg, p, id);
      var x :| x in p && Wanted(cfg, x, id);
      assert x in h;
    } else {
      assert m in h && Wanted(cfg, m, id);
    }
  }

  lemma {:induction false} PendingHadMessage(cfg: Config, h: History, id: uint32)
    requires id in PendingAfter(cfg, h)
    ensures exists m :: m in h && Wanted(cfg, m, id)
  {
    var p, m := Butlast(h), Last(h);
    assert h == p + [m];
    if id in PendingAfter(cfg, p) {
      PendingHadMessage(cfg, p, id);
      var x :| x in p && Wanted(cfg, x, id);
      assert x in h;
    } else {
      ReducedIsPart(Filed(cfg, PendingAfter(cfg, p), m));
      assert m in h && Wanted(cfg, m, id);
    }
  }

  /**
   * If every id that has a message completes in the end, the two logs are equal exactly if at no point more
   * than twelve ids were open.
   */
  lemma LogsOfFinishedRunsAreEqualIff(cfg: Config, h: History)
    requires Ordered(cfg, h)
    requires forall m :: m in h && m.kind in cfg.deps ==> Complete(cfg, h, UserId(cfg, m))
    ensures FireLog(cfg, h) == ReferenceLog(cfg, h) <==> AtMostTwelveOpen(cfg, h)
  {
    hide FireLog, AtMostTwelveOpen, Ordered, Complete, Trimmed, ReferenceLog;
    NothingTrimmedIff(cfg, h);
    LogsAreEqualIff(cfg, h);
    if Trimmed(cfg, h) != {} {
      var id := Any(Trimmed(cfg, h));
      TrimmedHadMessage(cfg, h, id);
      var m :| m in h && Wanted(cfg, m, id);
      CompleteIsLogged(cfg, h, id);
    }
  }

  // ----- A run in which a frame is lost -----

  const TwoTypes := Config({0, 1}, [])

  /** Frames 1 to k of the first type. */
  function Frames(k: nat): History
    requires k < 100
  {
    if k == 0 then [] else Frames(k - 1) + [Message(0, k, 0)]
  }

  lemma {:induction false} FramesAre(k: nat)
    requires k < 100
    ensures |Frames(k)| == k && forall i :: 0 <= i < k ==> Frames(k)[i] == Message(0, i + 1, 0)
  {
    if k > 0 {
      FramesAre(k - 1);
    }
  }

  lemma {:induction false} FirstFrameArrived(k: nat)
    requires 0 < k < 100
    ensures Arrived(TwoTypes, Frames(k), 1) == [Message(0, 1, 0)]
  {
    assert Butlast(Frames(k)) == Frames(k - 1);
    if k > 1 {
      FirstFrameArrived(k - 1);
    }
  }

  /** k frames of which the first still pends. */
  predicate PendTo(m: Pending, k: nat) {
    |m| == k && (k > 0 ==> 1 in m) && forall id <- m :: 1 <= id <= k
  }

  lemma {:induction false} FramesPend(k: nat)
    requires k <= 12
    ensures PendTo(PendingAfter(TwoTypes, Frames(k)), k)
    decreases k
  {
    hide PendingAfter, Frames, PendTo, Handle;
    if k == 0 {
      NothingPends();
    } else {
      FramesPend(k - 1);
      LastFrame(k);
      PendingSnoc(Frames(k));
      OneMorePends(PendingAfter(TwoTypes, Frames(k - 1)), k);
    }
  }

  lemma NothingPends()
    ensures PendTo(PendingAfter(TwoTypes, Frames(0)), 0)
  {
  }

  lemma LastFrame(k: nat)
    requires 0 < k < 100
    ensures Frames(k) != [] && Butlast(Frames(k)) == Frames(k - 1) && Last(Frames(k)) == Message(0, k, 0)
  {
  }

  lemma OneMorePends(m: Pending, k: uint32)
    requires 0 < k <= 12 && PendTo(m, k - 1)
    ensures PendTo(Handle(TwoTypes, m, Message(0, k, 0)).pending, k)
  {
    FrameIsFiled(m, k);
    hide Filed, Handle;
  }

  /** A frame that is not pending yet is only filed. */
  lemma FrameIsFiled(m: Pending, k: uint32)
    requires k !in m
    ensures
      var filed := Filed(TwoTypes, m, Message(0, k, 0));
      && filed.Keys == m.Keys + {k} && |filed| == |m| + 1
      && Handle(TwoTypes, m, Message(0, k, 0)) == Outcome(Reduced(filed), None)
  {
    var filed := Filed(TwoTypes, m, Message(0, k, 0));
    assert 1 !in filed[k].flags;
    assert |filed| == |filed.Keys| && |m| == |m.Keys|;
  }

  /** The thirteenth frame makes the collector forget the first. */
  lemma FirstFrameIsTrimmed()
    ensures 1 !in PendingAfter(TwoTypes, Frames(13))
  {
    hide PendingAfter, DropSmallest, Filed, Handle;
    var m := PendingAfter(TwoTypes, Frames(12));
    FramesPend(12);
    FrameIsFiled(m, 13);
    var filed := Filed(TwoTypes, m, Message(0, 13, 0));
    LastFrame(13);
    PendingSnoc(Frames(13));
    hide Frames, Filed;
    DropSmallestKeepsNewest(filed, 7);
    var kept := DropSmallest(filed, 7);
    assert filed.Keys * kept.Keys == kept.Keys;
    assert |filed.Keys - kept.Keys| == |filed| - |kept|;
    var gone := Any(filed.Keys - kept.Keys);
    assert 1 in kept ==> gone < 1;
  }

  lemma PendingSnoc(h: History)
    requires h != []
    ensures PendingAfter(TwoTypes, h) == Handle(TwoTypes, PendingAfter(TwoTypes, Butlast(h)), Last(h)).pending
  {
  }

  /**
   * Thirteen frames of one type, then frame 1 of the other, is an ordered run: the reference fires frame 1
   * on the last message, and the collector does not.
   */
  lemma LateFrameIsLost()
    ensures
      var h := Frames(13) + [Message(1, 1, 0)];
      && Ordered(TwoTypes, h)
      && ReferenceFires(TwoTypes, h) == Some(Fire(1, [Message(0, 1, 0), Message(1, 1, 0)]))
      && Fires(TwoTypes, h) == None
      && FireLog(TwoTypes, h) != ReferenceLog(TwoTypes, h)
  {
    hide Ordered, Frames, Fires, ReferenceFires;
    LateIsOrdered();
    LastMessageCompletes();
    CollectorIsSilent();
    LogsDiffer(Frames(13) + [Message(1, 1, 0)]);
  }

  lemma LateIsOrdered()
    ensures Ordered(TwoTypes, Frames(13) + [Message(1, 1, 0)])
  {
    var h := Frames(13) + [Message(1, 1, 0)];
    FramesAre(13);
    hide Frames, UserId;
    forall i, j | 0 <= i < j < |h| ensures InOrder(TwoTypes, h, i, j) {
      assert h[i] == Message(0, i + 1, 0);
      FiledPlainly(h[i]);
      FiledPlainly(h[j]);
    }
  }

  lemma FiledPlainly(m: Message)
    ensures UserId(TwoTypes, m) == m.frame
  {
  }

  lemma CollectorIsSilent()
    ensures Fires(TwoTypes, Frames(13) + [Message(1, 1, 0)]) == None
  {
    hide Frames, PendingAfter;
    var h := Frames(13) + [Message(1, 1, 0)];
    assert Butlast(h) == Frames(13) && Last(h) == Message(1, 1, 0);
    FirstFrameIsTrimmed();
    var filed := Filed(TwoTypes, PendingAfter(TwoTypes, Frames(13)), Message(1, 1, 0));
    assert 0 !in filed[1].flags;
  }

  lemma LastMessageCompletes()
    ensures
      var h := Frames(13) + [Message(1, 1, 0)];
      ReferenceFires(TwoTypes, h) == Some(Fire(1, [Message(0, 1, 0), Message(1, 1, 0)]))
  {
    FirstFrameArrived(13);
    hide Frames, Arrived, ReferenceFires;
    CompletesPair(Frames(13));
  }

  /** The second type of frame 1 arrives, of which only the first is there. */
  lemma CompletesPair(before: History)
    requires Arrived(TwoTypes, before, 1) == [Message(0, 1, 0)]
    ensures ReferenceFires(TwoTypes, before + [Message(1, 1, 0)])
         == Some(Fire(1, [Message(0, 1, 0), Message(1, 1, 0)]))
  {
    var a, b := Message(0, 1, 0), Message(1, 1, 0);
    var h := before + [b];
    assert Butlast(h) == before && Last(h) == b;
    FiledPlainly(b);
    assert Arrived(TwoTypes, h, 1) == [a, b];
    KindsOfPair(a, b);
    hide Arrived, Kinds;
  }

  lemma KindsOfPair(a: Message, b: Message)
    requires a.kind == 0 && b.kind == 1
    ensures Kinds([a]) == {0} && Kinds([a, b]) == {0, 1} && 1 !in Kinds([a])
  {
    assert [a, b][..1] == [a] && [a][..0] == [];
  }

  lemma LogsDiffer(h: History)
    requires h != [] && Ordered(TwoTypes, h)
    requires ReferenceFires(TwoTypes, h).Some? && Fires(TwoTypes, h).None?
    ensures FireLog(TwoTypes, h) != ReferenceLog(TwoTypes, h)
  {
    hide Fires, ReferenceFires, Ordered, Trimmed;
    LogsAreEqualIff(TwoTypes, h);
    FiresLikeReference(TwoTypes, h);
    var f := ReferenceFires(TwoTypes, h).value;
    var p, m := Butlast(h), Last(h);
    assert h == p + [m];
    TrimmedMonotone(TwoTypes, p, m);
    assert f in AsList(ReferenceFires(TwoTypes, h)) && f in ReferenceLog(TwoTypes, h);
  }
}
