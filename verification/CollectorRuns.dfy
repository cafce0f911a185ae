/** Whole runs of the collector, against a reference that never discards a message. */
module CollectorRuns {
  import opened Options
  import opened Words
  import opened FrameMessages
  import opened Collector

  type History = seq<Message>

  function Butlast<T>(s: seq<T>): seq<T>
    requires s != []
  {
    s[..|s| - 1]
  }

  function Last<T>(s: seq<T>): T
    requires s != []
  {
    s[|s| - 1]
  }

  // ----- The reference: a function of the messages received so far, with no state to prune -----

  predicate Wanted(cfg: Config, m: Message, id: uint32) {
    m.kind in cfg.deps && UserId(cfg, m) == id
  }

  /** Every message ever received for id, in order of arrival. */
  function Arrived(cfg: Config, h: History, id: uint32): seq<Message> {
    if h == [] then []
    else Arrived(cfg, Butlast(h), id) + if Wanted(cfg, Last(h), id) then [Last(h)] else []
  }

  predicate Complete(cfg: Config, h: History, id: uint32) {
    Kinds(Arrived(cfg, h, id)) == cfg.deps
  }

  /** The reference fires on the message that completes its id. */
  function ReferenceFires(cfg: Config, h: History): Option<Fire>
    requires h != []
  {
    var id := UserId(cfg, Last(h));
    if Last(h).kind in cfg.deps && Complete(cfg, h, id) && !Complete(cfg, Butlast(h), id)
    then Some(Fire(id, Arrived(cfg, h, id)))
    else None
  }

  // ----- Runs of the collector -----

  function PendingAfter(cfg: Config, h: History): Pending {
    if h == [] then map[] else Handle(cfg, PendingAfter(cfg, Butlast(h)), Last(h)).pending
  }

  function Fires(cfg: Config, h: History): Option<Fire>
    requires h != []
  {
    Handle(cfg, PendingAfter(cfg, Butlast(h)), Last(h)).fired
  }

  /** The ids that overflow made the collector forget on the last message. */
  function TrimmedBy(cfg: Config, h: History): set<uint32>
    requires h != []
  {
    var filed := Filed(cfg, PendingAfter(cfg, Butlast(h)), Last(h));
    if Last(h).kind in cfg.deps && Fires(cfg, h).None? then filed.Keys - Reduced(filed).Keys else {}
  }

  function Trimmed(cfg: Config, h: History): set<uint32> {
    if h == [] then {} else Trimmed(cfg, Butlast(h)) + TrimmedBy(cfg, h)
  }

  /** Each required message type arrives with strictly increasing ids, in any interleaving of the types. */
  ghost predicate Ordered(cfg: Config, h: History) {
    forall i, j :: 0 <= i < j < |h| ==> InOrder(cfg, h, i, j)
  }

  predicate InOrder(cfg: Config, h: History, i: nat, j: nat)
    requires i < j < |h|
  {
    h[i].kind == h[j].kind && h[j].kind in cfg.deps ==> UserId(cfg, h[i]) < UserId(cfg, h[j])
  }

  /** A message of this type has arrived for id or for a newer one. */
  ghost predicate Past(cfg: Config, h: History, kind: MsgType, id: uint32) {
    exists i :: 0 <= i < |h| && h[i].kind == kind && UserId(cfg, h[i]) >= id
  }

  /** No further message for id can arrive. */
  ghost predicate Closed(cfg: Config, h: History, id: uint32) {
    forall kind :: kind in cfg.deps ==> Past(cfg, h, kind, id)
  }

  // ----- What holds after every message, in any order of arrival -----

  ghost predicate EntryOk(cfg: Config, id: uint32, e: GroupMessage) {
    && e.list != []
    && e.flags == Kinds(e.list)
    && e.flags < cfg.deps
    && forall m :: m in e.list ==> Wanted(cfg, m, id)
  }

  ghost predicate PendingOk(cfg: Config, m: Pending) {
    && |m| <= OVERFLOW_SIZE
    && forall id :: id in m ==> EntryOk(cfg, id, m[id])
  }

  lemma KindsSnoc(list: seq<Message>, m: Message)
    ensures Kinds(list + [m]) == Kinds(list) + {m.kind}
  {
    assert (list + [m])[..|list|] == list;
  }

  lemma {:induction false} KindsHasEach(list: seq<Message>, i: nat)
    requires i < |list|
    ensures list[i].kind in Kinds(list)
  {
    if i < |list| - 1 {
      KindsHasEach(list[..|list| - 1], i);
    }
  }

  lemma EntryGrows(cfg: Config, id: uint32, e: GroupMessage, msg: Message)
    requires e == GroupMessage({}, []) || EntryOk(cfg, id, e)
    requires Wanted(cfg, msg, id)
    requires e.flags + {msg.kind} != cfg.deps
    ensures EntryOk(cfg, id, GroupMessage(e.flags + {msg.kind}, e.list + [msg]))
  {
    KindsSnoc(e.list, msg);
  }

  lemma FiledSize(cfg: Config, m: Pending, msg: Message)
    ensures |Filed(cfg, m, msg)| <= |m| + 1
  {
    assert Filed(cfg, m, msg).Keys == m.Keys + {UserId(cfg, msg)};
    assert |m.Keys + {UserId(cfg, msg)}| <= |m.Keys| + 1;
  }

  /** Filing a message: every entry is in order, except that the message's own may be complete. */
  lemma FiledEntries(cfg: Config, m: Pending, msg: Message)
    requires PendingOk(cfg, m) && msg.kind in cfg.deps
    ensures var filed := Filed(cfg, m, msg);
            && (forall id :: id in filed && id != UserId(cfg, msg) ==> EntryOk(cfg, id, filed[id]))
            && (filed[UserId(cfg, msg)].flags != cfg.deps ==> EntryOk(cfg, UserId(cfg, msg), filed[UserId(cfg, msg)]))
  {
    var id := UserId(cfg, msg);
    if Filed(cfg, m, msg)[id].flags != cfg.deps {
      EntryGrows(cfg, id, if id in m then m[id] else GroupMessage({}, []), msg);
    }
  }

  lemma ReducedEntries(cfg: Config, filed: Pending)
    requires |filed| <= OVERFLOW_SIZE + 1
    requires forall id :: id in filed ==> EntryOk(cfg, id, filed[id])
    ensures PendingOk(cfg, Reduced(filed))
  {
    if |filed| > OVERFLOW_SIZE {
      DropSmallestKeepsNewest(filed, |filed| - SIZE_AFTER_REDUCTION);
    }
  }

  lemma NewerEntries(cfg: Config, filed: Pending, id: uint32)
    requires id in filed && |filed| <= OVERFLOW_SIZE + 1
    requires forall i :: i in filed && i != id ==> EntryOk(cfg, i, filed[i])
    ensures PendingOk(cfg, Newer(filed, id))
  {
    assert Newer(filed, id).Keys <= filed.Keys - {id};
    SubsetSize(Newer(filed, id).Keys, filed.Keys - {id});
  }

  lemma HandleKeepsPendingOk(cfg: Config, m: Pending, msg: Message)
    requires PendingOk(cfg, m)
    ensures PendingOk(cfg, Handle(cfg, m, msg).pending)
  {
    if msg.kind in cfg.deps {
      var id := UserId(cfg, msg);
      var filed := Filed(cfg, m, msg);
      FiledEntries(cfg, m, msg);
      FiledSize(cfg, m, msg);
      if filed[id].flags == cfg.deps {
        NewerEntries(cfg, filed, id);
      } else {
        ReducedEntries(cfg, filed);
      }
    }
  }

  lemma {:induction false} SubsetSize<T>(a: set<T>, b: set<T>)
    requires a <= b
    ensures |a| <= |b|
  {
    assert b == a + (b - a);
  }

  /**
   * Over every run: at most 12 ids are pending, and every pending entry holds exactly messages of
   * its own id, with the union of their bits as its flags, and that union is not yet complete.
   */
  lemma {:induction false} PendingInvariant(cfg: Config, h: History)
    ensures PendingOk(cfg, PendingAfter(cfg, h))
  {
    if h != [] {
      PendingInvariant(cfg, Butlast(h));
      HandleKeepsPendingOk(cfg, PendingAfter(cfg, Butlast(h)), Last(h));
    }
  }

  // ----- Ordered runs: the pruned collector against the reference -----

  /** A trimmed id has lost a type for good: that type has moved on, and its bit is not set any more. */
  ghost predicate LostKind(cfg: Config, h: History, m: Pending, id: uint32, kind: MsgType) {
    kind in cfg.deps && Past(cfg, h, kind, id) && (id in m ==> kind !in m[id].flags)
  }

  ghost predicate TrimmedIsLost(cfg: Config, h: History, m: Pending, id: uint32) {
    exists kind :: LostKind(cfg, h, m, id, kind)
  }

  /** How the pending map stands to the reference for one id. */
  ghost predicate Agrees(cfg: Config, h: History, m: Pending, trimmed: set<uint32>, id: uint32) {
    if id in trimmed then TrimmedIsLost(cfg, h, m, id)
    else if id in m then m[id] == GroupMessage(Kinds(Arrived(cfg, h, id)), Arrived(cfg, h, id))
    else Arrived(cfg, h, id) == [] || Closed(cfg, h, id)
  }

  lemma PastGrows(cfg: Config, h: History, m: Message, kind: MsgType, id: uint32)
    requires Past(cfg, h, kind, id)
    ensures Past(cfg, h + [m], kind, id)
  {
    var i :| 0 <= i < |h| && h[i].kind == kind && UserId(cfg, h[i]) >= id;
    assert (h + [m])[i] == h[i];
  }

  lemma ClosedGrows(cfg: Config, h: History, m: Message, id: uint32)
    requires Closed(cfg, h, id)
    ensures Closed(cfg, h + [m], id)
  {
    forall kind | kind in cfg.deps
      ensures Past(cfg, h + [m], kind, id)
    {
      PastGrows(cfg, h, m, kind, id);
    }
  }

  /** In an ordered run a type that is past an id sends nothing more for it. */
  lemma PastSendsNoMore(cfg: Config, h: History, m: Message, id: uint32)
    requires Ordered(cfg, h + [m])
    requires m.kind in cfg.deps && Past(cfg, h, m.kind, id)
    ensures UserId(cfg, m) > id
  {
    var i :| 0 <= i < |h| && h[i].kind == m.kind && UserId(cfg, h[i]) >= id;
    var g := h + [m];
    assert InOrder(cfg, g, i, |h|);
    assert g[i] == h[i] && g[|h|] == m;
  }

  lemma OrderedPrefix(cfg: Config, h: History, m: Message)
    requires Ordered(cfg, h + [m])
    ensures Ordered(cfg, h)
  {
    var g := h + [m];
    forall i, j | 0 <= i < j < |h|
      ensures InOrder(cfg, h, i, j)
    {
      assert InOrder(cfg, g, i, j);
      assert g[i] == h[i] && g[j] == h[j];
    }
  }

  /** Every message the reference has for an id witnesses its type being past that id. */
  lemma {:induction false} ArrivedIsPast(cfg: Config, h: History, id: uint32, kind: MsgType)
    requires kind in Kinds(Arrived(cfg, h, id))
    ensures kind in cfg.deps && Past(cfg, h, kind, id)
  {
    if h != [] {
      assert h == Butlast(h) + [Last(h)];
      var earlier := Arrived(cfg, Butlast(h), id);
      KindsSnoc(earlier, Last(h));
      assert earlier + [] == earlier;
      if kind in Kinds(earlier) {
        ArrivedIsPast(cfg, Butlast(h), id, kind);
        PastGrows(cfg, Butlast(h), Last(h), kind, id);
      } else {
        assert h[|h| - 1] == Last(h);
      }
    }
  }

  lemma ArrivedSnoc(cfg: Config, h: History, m: Message, id: uint32)
    ensures Arrived(cfg, h + [m], id) == Arrived(cfg, h, id) + if Wanted(cfg, m, id) then [m] else []
  {
    assert Butlast(h + [m]) == h;
  }

  /** What is known before a message arrives. */
  ghost predicate AllAgree(cfg: Config, h: History) {
    && PendingOk(cfg, PendingAfter(cfg, h))
    && forall id: uint32 :: Agrees(cfg, h, PendingAfter(cfg, h), Trimmed(cfg, h), id)
  }

  /** What the filed entry of the message's own id holds, unless that id was trimmed. */
  lemma FiledIsArrived(cfg: Config, h: History, m: Message)
    requires Ordered(cfg, h + [m]) && AllAgree(cfg, h)
    requires m.kind in cfg.deps && UserId(cfg, m) !in Trimmed(cfg, h)
    ensures var id := UserId(cfg, m);
            && Filed(cfg, PendingAfter(cfg, h), m)[id]
               == GroupMessage(Kinds(Arrived(cfg, h + [m], id)), Arrived(cfg, h + [m], id))
            && !Complete(cfg, h, id)
  {
    var id := UserId(cfg, m);
    var before := PendingAfter(cfg, h);
    assert Agrees(cfg, h, before, Trimmed(cfg, h), id);
    ArrivedSnoc(cfg, h, m, id);
    KindsSnoc(Arrived(cfg, h, id), m);
    if id in before {
      assert EntryOk(cfg, id, before[id]);
    } else {
      if Closed(cfg, h, id) {
        PastSendsNoMore(cfg, h, m, id);
      }
      assert Arrived(cfg, h, id) == [];
      assert m.kind !in Kinds([]);
    }
  }

  /** A trimmed id can never be complete again. */
  lemma TrimmedStaysIncomplete(cfg: Config, h: History, m: Message)
    requires Ordered(cfg, h + [m]) && AllAgree(cfg, h)
    requires m.kind in cfg.deps && UserId(cfg, m) in Trimmed(cfg, h)
    ensures Filed(cfg, PendingAfter(cfg, h), m)[UserId(cfg, m)].flags != cfg.deps
  {
    var id := UserId(cfg, m);
    var before := PendingAfter(cfg, h);
    assert Agrees(cfg, h, before, Trimmed(cfg, h), id);
    var kind :| LostKind(cfg, h, before, id, kind);
    if kind == m.kind {
      PastSendsNoMore(cfg, h, m, id);
    }
    assert kind !in Filed(cfg, before, m)[id].flags;
  }

  /** The collector fires on m exactly when the reference does and the id was never trimmed. */
  lemma FiresLikeReferenceStep(cfg: Config, h: History, m: Message)
    requires Ordered(cfg, h + [m]) && AllAgree(cfg, h)
    ensures var r := ReferenceFires(cfg, h + [m]);
            Fires(cfg, h + [m]) == if r.Some? && r.value.id !in Trimmed(cfg, h) then r else None
  {
    assert Butlast(h + [m]) == h && Last(h + [m]) == m;
    if m.kind in cfg.deps {
      if UserId(cfg, m) in Trimmed(cfg, h) {
        TrimmedStaysIncomplete(cfg, h, m);
      } else {
        FiledIsArrived(cfg, h, m);
      }
    }
  }

  /** A message that does not concern id leaves what is known about id. */
  lemma OtherIdAgrees(cfg: Config, h: History, m: Message, id: uint32)
    requires Ordered(cfg, h + [m]) && AllAgree(cfg, h)
    requires m.kind !in cfg.deps || id != UserId(cfg, m)
    requires var after := PendingAfter(cfg, h + [m]);
             id in after <==> id in PendingAfter(cfg, h)
    requires var after := PendingAfter(cfg, h + [m]);
             id in after ==> after[id] == PendingAfter(cfg, h)[id]
    requires id in Trimmed(cfg, h + [m]) <==> id in Trimmed(cfg, h)
    ensures Agrees(cfg, h + [m], PendingAfter(cfg, h + [m]), Trimmed(cfg, h + [m]), id)
  {
    var before := PendingAfter(cfg, h);
    var after := PendingAfter(cfg, h + [m]);
    assert Agrees(cfg, h, before, Trimmed(cfg, h), id);
    ArrivedSnoc(cfg, h, m, id);
    assert Arrived(cfg, h + [m], id) == Arrived(cfg, h, id);
    if id in Trimmed(cfg, h) {
      var kind :| LostKind(cfg, h, before, id, kind);
      PastGrows(cfg, h, m, kind, id);
      assert LostKind(cfg, h + [m], after, id, kind);
    } else if id !in before && Closed(cfg, h, id) {
      ClosedGrows(cfg, h, m, id);
    }
  }

  lemma CompleteIsClosed(cfg: Config, h: History, id: uint32, older: uint32)
    requires Complete(cfg, h, id) && older <= id
    ensures Closed(cfg, h, older)
  {
    forall kind | kind in cfg.deps
      ensures Past(cfg, h, kind, older)
    {
      ArrivedIsPast(cfg, h, id, kind);
      var i :| 0 <= i < |h| && h[i].kind == kind && UserId(cfg, h[i]) >= id;
      assert UserId(cfg, h[i]) >= older;
    }
  }

  lemma TrimmedMonotone(cfg: Config, h: History, m: Message)
    ensures Trimmed(cfg, h) <= Trimmed(cfg, h + [m])
  {
    assert Butlast(h + [m]) == h;
  }

  /** The step that fires: ids up to the fired one are erased, and none of them can complete any more. */
  lemma FiredIsClosed(cfg: Config, h: History, m: Message, id: uint32)
    requires Ordered(cfg, h + [m]) && AllAgree(cfg, h)
    requires Fires(cfg, h + [m]).Some? && id <= UserId(cfg, m)
    ensures m.kind in cfg.deps && Closed(cfg, h + [m], id)
  {
    assert Butlast(h + [m]) == h && Last(h + [m]) == m;
    FiresLikeReferenceStep(cfg, h, m);
    CompleteIsClosed(cfg, h + [m], UserId(cfg, m), id);
  }

  lemma FiringKeepsNewer(cfg: Config, before: Pending, m: Message, id: uint32)
    requires Handle(cfg, before, m).fired.Some?
    ensures var after := Handle(cfg, before, m).pending;
            && (id in after <==> id in before && id > UserId(cfg, m))
            && (id in after ==> after[id] == before[id])
  {
    assert Handle(cfg, before, m).pending == Newer(Filed(cfg, before, m), UserId(cfg, m));
  }

  lemma PendingAfterFire(cfg: Config, h: History, m: Message, id: uint32)
    requires Fires(cfg, h + [m]).Some?
    ensures Trimmed(cfg, h + [m]) == Trimmed(cfg, h)
    ensures id in PendingAfter(cfg, h + [m]) <==> id in PendingAfter(cfg, h) && id > UserId(cfg, m)
    ensures id in PendingAfter(cfg, h + [m]) ==> PendingAfter(cfg, h + [m])[id] == PendingAfter(cfg, h)[id]
  {
    assert Butlast(h + [m]) == h && Last(h + [m]) == m;
    FiringKeepsNewer(cfg, PendingAfter(cfg, h), m, id);
  }

  lemma AgreesAfterFire(cfg: Config, h: History, m: Message, id: uint32)
    requires Ordered(cfg, h + [m]) && AllAgree(cfg, h)
    requires Fires(cfg, h + [m]).Some?
    ensures Agrees(cfg, h + [m], PendingAfter(cfg, h + [m]), Trimmed(cfg, h + [m]), id)
  {
    PendingAfterFire(cfg, h, m, id);
    if id <= UserId(cfg, m) {
      FiredIsClosed(cfg, h, m, id);
      if id in Trimmed(cfg, h) {
        assert LostKind(cfg, h + [m], PendingAfter(cfg, h + [m]), id, m.kind);
      }
    } else {
      OtherIdAgrees(cfg, h, m, id);
    }
  }

  /** The id of the message itself, when nothing fires and the entry stays. */
  lemma AgreesAtOwnId(cfg: Config, h: History, m: Message)
    requires Ordered(cfg, h + [m]) && AllAgree(cfg, h)
    requires m.kind in cfg.deps
    requires Fires(cfg, h + [m]).None?
    requires UserId(cfg, m) in PendingAfter(cfg, h + [m])
    requires PendingAfter(cfg, h + [m])[UserId(cfg, m)] == Filed(cfg, PendingAfter(cfg, h), m)[UserId(cfg, m)]
    requires UserId(cfg, m) in Trimmed(cfg, h + [m]) <==> UserId(cfg, m) in Trimmed(cfg, h)
    ensures Agrees(cfg, h + [m], PendingAfter(cfg, h + [m]), Trimmed(cfg, h + [m]), UserId(cfg, m))
  {
    var id := UserId(cfg, m);
    var before := PendingAfter(cfg, h);
    var after := PendingAfter(cfg, h + [m]);
    assert Agrees(cfg, h, before, Trimmed(cfg, h), id);
    ArrivedSnoc(cfg, h, m, id);
    KindsSnoc(Arrived(cfg, h, id), m);
    if id in Trimmed(cfg, h) {
      var kind :| LostKind(cfg, h, before, id, kind);
      if kind == m.kind {
        PastSendsNoMore(cfg, h, m, id);
      }
      PastGrows(cfg, h, m, kind, id);
      assert LostKind(cfg, h + [m], after, id, kind);
    } else if id !in before && Closed(cfg, h, id) {
      PastSendsNoMore(cfg, h, m, id);
    }
  }

  /** An id that overflow drops had a message, so that message's type never comes back for it. */
  lemma DroppedIsLost(cfg: Config, h: History, m: Message, id: uint32)
    requires Ordered(cfg, h + [m]) && AllAgree(cfg, h)
    requires id in TrimmedBy(cfg, h + [m])
    ensures TrimmedIsLost(cfg, h + [m], PendingAfter(cfg, h + [m]), id)
  {
    var g := h + [m];
    assert Butlast(g) == h && Last(g) == m;
    var before := PendingAfter(cfg, h);
    var after := PendingAfter(cfg, g);
    var filed := Filed(cfg, before, m);
    assert after == Reduced(filed) && id !in after;
    if id == UserId(cfg, m) {
      assert g[|h|] == m;
      assert LostKind(cfg, g, after, id, m.kind);
    } else {
      assert id in before;
      assert Agrees(cfg, h, before, Trimmed(cfg, h), id);
      if id in Trimmed(cfg, h) {
        var kind :| LostKind(cfg, h, before, id, kind);
        PastGrows(cfg, h, m, kind, id);
        assert LostKind(cfg, g, after, id, kind);
      } else {
        var first := Arrived(cfg, h, id)[0];
        KindsHasEach(Arrived(cfg, h, id), 0);
        ArrivedIsPast(cfg, h, id, first.kind);
        PastGrows(cfg, h, m, first.kind, id);
        assert LostKind(cfg, g, after, id, first.kind);
      }
    }
  }

  lemma AgreesAfterQuietStep(cfg: Config, h: History, m: Message, id: uint32)
    requires Ordered(cfg, h + [m]) && AllAgree(cfg, h)
    requires Fires(cfg, h + [m]).None?
    ensures Agrees(cfg, h + [m], PendingAfter(cfg, h + [m]), Trimmed(cfg, h + [m]), id)
  {
    var g := h + [m];
    assert Butlast(g) == h && Last(g) == m;
    if m.kind !in cfg.deps {
      OtherIdAgrees(cfg, h, m, id);
    } else {
      var filed := Filed(cfg, PendingAfter(cfg, h), m);
      assert PendingAfter(cfg, g) == Reduced(filed);
      if |filed| > OVERFLOW_SIZE {
        DropSmallestKeepsNewest(filed, |filed| - SIZE_AFTER_REDUCTION);
      }
      if id in TrimmedBy(cfg, g) {
        DroppedIsLost(cfg, h, m, id);
      } else if id == UserId(cfg, m) {
        AgreesAtOwnId(cfg, h, m);
      } else {
        OtherIdAgrees(cfg, h, m, id);
      }
    }
  }

  lemma {:induction false} RunAgrees(cfg: Config, h: History)
    requires Ordered(cfg, h)
    ensures AllAgree(cfg, h)
  {
    PendingInvariant(cfg, h);
    if h != [] {
      var p, m := Butlast(h), Last(h);
      assert h == p + [m];
      OrderedPrefix(cfg, p, m);
      RunAgrees(cfg, p);
      forall id: uint32
        ensures Agrees(cfg, h, PendingAfter(cfg, h), Trimmed(cfg, h), id)
      {
        if Fires(cfg, h).Some? {
          AgreesAfterFire(cfg, p, m, id);
        } else {
          AgreesAfterQuietStep(cfg, p, m, id);
        }
      }
    } else {
      forall id: uint32
        ensures Agrees(cfg, h, PendingAfter(cfg, h), Trimmed(cfg, h), id)
      {
        assert Arrived(cfg, h, id) == [];
      }
    }
  }

  /**
   * The collector fires on a message exactly when the reference fires on it and overflow never
   * dropped that id before; the id and the list of messages are then the reference's own.
   */
  lemma FiresLikeReference(cfg: Config, h: History)
    requires h != [] && Ordered(cfg, h)
    ensures var r := ReferenceFires(cfg, h);
            Fires(cfg, h) == if r.Some? && r.value.id !in Trimmed(cfg, Butlast(h)) then r else None
  {
    assert h == Butlast(h) + [Last(h)];
    OrderedPrefix(cfg, Butlast(h), Last(h));
    RunAgrees(cfg, Butlast(h));
    FiresLikeReferenceStep(cfg, Butlast(h), Last(h));
  }

  // ----- The logs of a whole run -----

  function AsList<T>(o: Option<T>): seq<T> {
    if o.Some? then [o.value] else []
  }

  function FireLog(cfg: Config, h: History): seq<Fire> {
    if h == [] then [] else FireLog(cfg, Butlast(h)) + AsList(Fires(cfg, h))
  }

  function ReferenceLog(cfg: Config, h: History): seq<Fire> {
    if h == [] then [] else ReferenceLog(cfg, Butlast(h)) + AsList(ReferenceFires(cfg, h))
  }

  /** The log without the calls for the given ids. */
  function Without(log: seq<Fire>, ids: set<uint32>): seq<Fire> {
    if log == [] then []
    else Without(Butlast(log), ids) + if Last(log).id in ids then [] else [Last(log)]
  }

  lemma WithoutSnoc(log: seq<Fire>, f: Fire, ids: set<uint32>)
    ensures Without(log + [f], ids) == Without(log, ids) + if f.id in ids then [] else [f]
  {
    assert Butlast(log + [f]) == log;
  }

  lemma {:induction false} WithoutKeeps(log: seq<Fire>, ids: set<uint32>, i: nat)
    requires i < |log| && log[i].id !in ids
    ensures log[i] in Without(log, ids)
  {
    if i < |log| - 1 {
      WithoutKeeps(Butlast(log), ids, i);
    }
  }

  /** Two sets of ids that differ on no id of the log leave the same log. */
  lemma {:induction false} WithoutSame(log: seq<Fire>, a: set<uint32>, b: set<uint32>)
    requires forall f :: f in log ==> (f.id in a <==> f.id in b)
    ensures Without(log, a) == Without(log, b)
  {
    if log != [] {
      WithoutSame(Butlast(log), a, b);
    }
  }

  /** A fired id is finished: nothing is pending for it, nothing more can arrive, it was never trimmed. */
  ghost predicate Finished(cfg: Config, h: History, id: uint32) {
    && Closed(cfg, h, id)
    && id !in PendingAfter(cfg, h)
    && id !in Trimmed(cfg, h)
  }

  lemma ReducedIsPart(m: Pending)
    ensures forall id :: id in Reduced(m) ==> id in m
  {
    if |m| > OVERFLOW_SIZE {
      DropSmallestKeepsNewest(m, |m| - SIZE_AFTER_REDUCTION);
    }
  }

  /** A message adds no id but its own. */
  lemma HandleAddsItsOwn(cfg: Config, m: Pending, msg: Message, id: uint32)
    requires id !in m && (msg.kind in cfg.deps ==> UserId(cfg, msg) != id)
    ensures id !in Handle(cfg, m, msg).pending
    ensures msg.kind in cfg.deps ==> id !in Filed(cfg, m, msg)
  {
    ReducedIsPart(Filed(cfg, m, msg));
    hide Reduced;
  }

  lemma RunSnoc(cfg: Config, h: History, m: Message)
    ensures PendingAfter(cfg, h + [m]) == Handle(cfg, PendingAfter(cfg, h), m).pending
    ensures forall id ::
      id in Trimmed(cfg, h + [m]) ==>
        id in Trimmed(cfg, h) || (m.kind in cfg.deps && id in Filed(cfg, PendingAfter(cfg, h), m))
  {
    assert Butlast(h + [m]) == h && Last(h + [m]) == m;
    hide Handle, Filed, Reduced, Fires;
  }

  /** An id that nothing is filed under stays absent, whatever a message does. */
  lemma AbsentStays(cfg: Config, h: History, m: Message, id: uint32)
    requires id !in PendingAfter(cfg, h) && id !in Trimmed(cfg, h)
    requires m.kind in cfg.deps ==> UserId(cfg, m) != id
    ensures id !in PendingAfter(cfg, h + [m]) && id !in Trimmed(cfg, h + [m])
  {
    RunSnoc(cfg, h, m);
    hide PendingAfter, Trimmed, Handle, Filed;
    HandleAddsItsOwn(cfg, PendingAfter(cfg, h), m, id);
  }

  lemma FinishedStays(cfg: Config, h: History, m: Message, id: uint32)
    requires Ordered(cfg, h + [m]) && Finished(cfg, h, id)
    ensures Finished(cfg, h + [m], id)
  {
    ClosedGrows(cfg, h, m, id);
    if m.kind in cfg.deps {
      PastSendsNoMore(cfg, h, m, id);
    }
    AbsentStays(cfg, h, m, id);
  }

  lemma FiredIsFinished(cfg: Config, h: History, m: Message)
    requires Ordered(cfg, h + [m]) && AllAgree(cfg, h)
    requires Fires(cfg, h + [m]).Some?
    ensures Fires(cfg, h + [m]).value.id == UserId(cfg, m)
    ensures Finished(cfg, h + [m], UserId(cfg, m))
  {
    var id := UserId(cfg, m);
    assert Butlast(h + [m]) == h && Last(h + [m]) == m;
    FiresLikeReferenceStep(cfg, h, m);
    FiredIsClosed(cfg, h, m, id);
    PendingAfterFire(cfg, h, m, id);
  }

  lemma LogSnoc(cfg: Config, h: History, m: Message)
    ensures FireLog(cfg, h + [m]) == FireLog(cfg, h) + AsList(Fires(cfg, h + [m]))
  {
    assert Butlast(h + [m]) == h;
  }

  /** The newest log entry is the one the last message fired, and every type is past older entries. */
  lemma NewestEntry(cfg: Config, h: History, m: Message)
    requires Ordered(cfg, h + [m]) && Fires(cfg, h + [m]).Some?
    ensures m.kind in cfg.deps
    ensures Fires(cfg, h + [m]).value.id == UserId(cfg, m) && Finished(cfg, h + [m], UserId(cfg, m))
  {
    OrderedPrefix(cfg, h, m);
    RunAgrees(cfg, h);
    FiredIsFinished(cfg, h, m);
    FiredIsClosed(cfg, h, m, UserId(cfg, m));
  }

  lemma {:induction false} LoggedIsFinished(cfg: Config, h: History, i: nat)
    requires Ordered(cfg, h) && i < |FireLog(cfg, h)|
    ensures Finished(cfg, h, FireLog(cfg, h)[i].id)
    decreases |h|
  {
    var p, m := Butlast(h), Last(h);
    assert h == p + [m];
    OrderedPrefix(cfg, p, m);
    LogSnoc(cfg, p, m);
    if i < |FireLog(cfg, p)| {
      LoggedIsFinished(cfg, p, i);
      FinishedStays(cfg, p, m, FireLog(cfg, p)[i].id);
    } else {
      NewestEntry(cfg, p, m);
    }
  }

  lemma NewestIsGreatest(cfg: Config, h: History, m: Message, id: uint32)
    requires Ordered(cfg, h + [m]) && Fires(cfg, h + [m]).Some? && Finished(cfg, h, id)
    ensures id < Fires(cfg, h + [m]).value.id
  {
    NewestEntry(cfg, h, m);
    PastSendsNoMore(cfg, h, m, id);
  }

  /** Fires come in strictly increasing id order, so no id fires twice. */
  lemma {:induction false} FiresIncrease(cfg: Config, h: History, i: nat, j: nat)
    requires Ordered(cfg, h) && i < j < |FireLog(cfg, h)|
    ensures FireLog(cfg, h)[i].id < FireLog(cfg, h)[j].id
    decreases |h|
  {
    var p, m := Butlast(h), Last(h);
    assert h == p + [m];
    OrderedPrefix(cfg, p, m);
    LogSnoc(cfg, p, m);
    if j < |FireLog(cfg, p)| {
      FiresIncrease(cfg, p, i, j);
    } else {
      LoggedIsFinished(cfg, p, i);
      NewestIsGreatest(cfg, p, m, FireLog(cfg, p)[i].id);
    }
  }

  /** What the last message trims was never logged. */
  lemma NewlyTrimmedNotLogged(cfg: Config, h: History, m: Message, f: Fire)
    requires Ordered(cfg, h + [m]) && f in FireLog(cfg, h)
    ensures f.id !in Trimmed(cfg, h + [m])
  {
    var i :| 0 <= i < |FireLog(cfg, h)| && FireLog(cfg, h)[i] == f;
    OrderedPrefix(cfg, h, m);
    LoggedIsFinished(cfg, h, i);
    FinishedStays(cfg, h, m, f.id);
  }

  /**
   * The main result, for every ordered run of any length: the log of the pruned collector is the
   * log of the reference minus the ids that overflow dropped; same ids, same order, same lists.
   */
  lemma {:induction false} LogIsReferenceWithoutTrimmed(cfg: Config, h: History)
    requires Ordered(cfg, h)
    ensures FireLog(cfg, h) == Without(ReferenceLog(cfg, h), Trimmed(cfg, h))
  {
    if h != [] {
      var p, m := Butlast(h), Last(h);
      assert h == p + [m];
      OrderedPrefix(cfg, p, m);
      LogIsReferenceWithoutTrimmed(cfg, p);
      var log := ReferenceLog(cfg, p);
      TrimmedMonotone(cfg, p, m);
      forall f | f in log
        ensures f.id in Trimmed(cfg, p) <==> f.id in Trimmed(cfg, h)
      {
        if f.id !in Trimmed(cfg, p) {
          var i :| 0 <= i < |log| && log[i] == f;
          WithoutKeeps(log, Trimmed(cfg, p), i);
          NewlyTrimmedNotLogged(cfg, p, m, f);
        }
      }
      WithoutSame(log, Trimmed(cfg, p), Trimmed(cfg, h));
      LogStep(cfg, p, m);
    }
  }

  /** Whether one step is logged by both, by the reference alone, or by neither. */
  lemma StepIsLogged(cfg: Config, h: History, m: Message)
    requires Ordered(cfg, h + [m])
    ensures var r := ReferenceFires(cfg, h + [m]);
            Fires(cfg, h + [m]) == if r.Some? && r.value.id !in Trimmed(cfg, h + [m]) then r else None
  {
    OrderedPrefix(cfg, h, m);
    RunAgrees(cfg, h);
    FiresLikeReferenceStep(cfg, h, m);
    TrimmedMonotone(cfg, h, m);
    if Fires(cfg, h + [m]).Some? {
      FiredIsFinished(cfg, h, m);
    }
  }

  lemma LogStep(cfg: Config, h: History, m: Message)
    requires Ordered(cfg, h + [m])
    requires FireLog(cfg, h) == Without(ReferenceLog(cfg, h), Trimmed(cfg, h + [m]))
    ensures FireLog(cfg, h + [m]) == Without(ReferenceLog(cfg, h + [m]), Trimmed(cfg, h + [m]))
  {
    var g := h + [m];
    var r := ReferenceFires(cfg, g);
    assert ReferenceLog(cfg, g) == ReferenceLog(cfg, h) + AsList(r) by { assert Butlast(g) == h; }
    assert FireLog(cfg, g) == FireLog(cfg, h) + AsList(Fires(cfg, g)) by { assert Butlast(g) == h; }
    StepIsLogged(cfg, h, m);
    if r.Some? {
      WithoutSnoc(ReferenceLog(cfg, h), r.value, Trimmed(cfg, g));
    } else {
      assert ReferenceLog(cfg, g) == ReferenceLog(cfg, h);
    }
  }

  lemma {:induction false} WithoutIsAllIff(log: seq<Fire>, ids: set<uint32>)
    ensures |Without(log, ids)| <= |log|
    ensures Without(log, ids) == log <==> forall f :: f in log ==> f.id !in ids
  {
    if log != [] {
      var rest, f := Butlast(log), Last(log);
      assert log == rest + [f];
      WithoutSnoc(rest, f, ids);
      WithoutIsAllIff(rest, ids);
      assert forall x :: x in log <==> x in rest || x == f;
      if f.id in ids {
        assert |Without(log, ids)| < |log|;
      } else {
        assert Without(log, ids) == Without(rest, ids) + [f];
        assert Without(log, ids) == log <==> Without(rest, ids) == rest by {
          assert Butlast(Without(log, ids)) == Without(rest, ids);
        }
      }
    }
  }

  /** The pruned collector is indistinguishable from the reference exactly when no id that completes was trimmed. */
  lemma LogsAreEqualIff(cfg: Config, h: History)
    requires Ordered(cfg, h)
    ensures FireLog(cfg, h) == ReferenceLog(cfg, h)
       <==> forall f :: f in ReferenceLog(cfg, h) ==> f.id !in Trimmed(cfg, h)
  {
    hide Ordered, FireLog, ReferenceLog, Trimmed;
    LogIsReferenceWithoutTrimmed(cfg, h);
    WithoutIsAllIff(ReferenceLog(cfg, h), Trimmed(cfg, h));
  }

  // ----- Messages of other types -----

  /** The messages that a group is sent when only messages of its own types are. */
  function WantedOnly(cfg: Config, h: History): History {
    if h == [] then [] else WantedOnly(cfg, Butlast(h)) + if Last(h).kind in cfg.deps then [Last(h)] else []
  }

  /** A group that is sent every message ends and fires as one that is sent only what it waits for. */
  lemma {:induction false} OthersChangeNothing(cfg: Config, h: History)
    ensures PendingAfter(cfg, h) == PendingAfter(cfg, WantedOnly(cfg, h))
    ensures FireLog(cfg, h) == FireLog(cfg, WantedOnly(cfg, h))
  {
    if h != [] {
      OthersChangeNothing(cfg, Butlast(h));
      var w := WantedOnly(cfg, Butlast(h));
      if Last(h).kind in cfg.deps {
        assert Butlast(w + [Last(h)]) == w && Last(w + [Last(h)]) == Last(h);
      } else {
        assert w + [] == w;
        assert Fires(cfg, h) == None;
      }
    }
  }

  // ----- The thread -----

  /** The group's thread: takes its queue message by message. */
  method HandleQueue(group: AnalyzerGroup, queue: seq<Message>) returns (fires: seq<Fire>)
    requires group.pending == map[]
    modifies group`pending
    ensures group.pending == PendingAfter(group.Cfg(), queue)
    ensures fires == FireLog(group.Cfg(), queue)
  {
    fires := [];
    for i := 0 to |queue|
      invariant group.pending == PendingAfter(group.Cfg(), queue[..i])
      invariant fires == FireLog(group.Cfg(), queue[..i])
    {
      assert Butlast(queue[..i + 1]) == queue[..i] && Last(queue[..i + 1]) == queue[i];
      var _, fired := group.MsgHandle(Some(queue[i]));
      fires := fires + AsList(fired);
    }
    assert queue[..|queue|] == queue;
  }
}
