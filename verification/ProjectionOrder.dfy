/** Order matters: which fills of a key ever reach its position.

    A projection that reads the current ledger applies a fill exactly when no later fill of
    the same key was projected before it, so projecting the fills of a key one after the
    other succeeds for all of them exactly when they are taken in execution order. */
module ProjectionOrder {
  import opened Outcomes
  import opened LedgerTables
  import opened AverageCost
  import opened LedgerInvariant
  import opened LedgerSteps
  import opened LedgerReplay
  import opened LedgerProgress
  import opened LedgerKeys
  import PP = PositionProjection

  // ---------------------------------------------------------------------------
  // One call that reads the current ledger
  // ---------------------------------------------------------------------------

  /** One projection attempt whose reads all see the current ledger. */
  function FreshProjection(db: Ledger, fillId: FillId, positionId: PositionId, eventId: EventId, pick: nat)
    : (Ledger, PP.Attempt)
  {
    PP.ProjectOnceResult(db, db, db, db, fillId, positionId, eventId, pick)
  }

  /** The average after this fill has no more digits than the calculation keeps. */
  ghost predicate Representable(db: Ledger, key: PositionKey, f: Fill)
    requires f.quantity > 0
  {
    match FindOpen(db, key)
    case None => f.price < OPENING_LIMIT
    case Some(id) =>
      AveragePrice(db.positions[id].quantity, db.positions[id].averageCost, f.quantity, f.price) < INCREASE_LIMIT
  }

  /** A fill belongs to one key only. */
  lemma OneKey(db: Ledger, f: Fill, a: PositionKey, b: PositionKey)
    requires Belongs(db, f, a) && Belongs(db, f, b)
    ensures a == b
  {
  }

  /** In terms of the one position a key can have. */
  lemma OvertakenByPosition(db: Ledger, f: Fill, key: PositionKey, p: PositionId)
    requires Inv(db) && f in db.fills && Belongs(db, f, key)
    requires p in db.positions && db.positions[p].key == key
    ensures FindOpen(db, key) == Some(p)
    ensures Overtaken(db, f) <==> FindEventByFill(db.events, f.id).None? && f.executedAt < db.positions[p].updatedAt
  {
    hide IntentsOk, OrdersOk, FillsOk, EventsOk, PositionOk;
    OpenIdsOfKey(db, key);
    assert OpenIds(db, key) == {p};
    if Overtaken(db, f) {
      var q :| q in db.positions && Belongs(db, f, db.positions[q].key)
               && f.executedAt < db.positions[q].updatedAt;
      OneKey(db, f, key, db.positions[q].key);
    }
  }

  lemma NotOvertakenUnopened(db: Ledger, f: Fill, key: PositionKey)
    requires Inv(db) && Belongs(db, f, key) && FindOpen(db, key).None?
    ensures !Overtaken(db, f)
  {
    hide IntentsOk, OrdersOk, FillsOk, EventsOk, PositionOk;
    OpenIdsOfKey(db, key);
    assert OpenIds(db, key) == {};
  }

  /** A fresh attempt with new identifiers applies a fill exactly when the fill is not
      projected yet, its average can be represented and no later fill of its key came first. */
  lemma FreshProjectionAppliesIff(
    db: Ledger, f: Fill, key: PositionKey, positionId: PositionId, eventId: EventId, pick: nat)
    requires Inv(db) && f in db.fills && Belongs(db, f, key)
    requires positionId !in db.positions && forall e :: e in db.events ==> e.id != eventId
    ensures f.quantity > 0
    ensures FreshProjection(db, f.id, positionId, eventId, pick).1.Applied?
            <==> FindEventByFill(db.events, f.id).None? && Representable(db, key, f) && !Overtaken(db, f)
  {
    hide Inv, Extends, Belongs, Overtaken, AveragePrice, PP.LoadSource, PP.PlanProjection, PP.ApplyProjection;
    FillIsProjectable(db, f);
    OneKey(db, f, key, PP.KeyOf(PP.LoadSource(db, f.id).value));
    if FindEventByFill(db.events, f.id).None? {
      SelfExtends(db);
      ProjectionAppliesIff(db, db, db, db, f, positionId, eventId, pick);
      if FindOpen(db, key).None? {
        NotOvertakenUnopened(db, f, key);
      } else {
        var p := FindOpen(db, key).value;
        assert p in OpenIds(db, key);
        OvertakenByPosition(db, f, key, p);
      }
    }
  }

  // ---------------------------------------------------------------------------
  // What an applied attempt leaves behind
  // ---------------------------------------------------------------------------

  /** The ledger after a fill went into the position p of its key. */
  ghost predicate WentInto(
    db: Ledger, after: Ledger, f: Fill, key: PositionKey, p: PositionId, positionId: PositionId, e: Event)
  {
    && (p == positionId || p in db.positions)
    && p in after.positions
    && after == db.(positions := db.positions[p := after.positions[p]], events := db.events + [e])
    && after.positions[p].key == key && after.positions[p].updatedAt == f.executedAt
    && e.fillId == f.id
  }

  lemma AppliedOpening(
    view: Ledger, db: Ledger, s: PP.Source, write: PP.ProjectionWrite, positionId: PositionId,
    eventId: EventId, pick: nat)
    requires s.fill.quantity > 0
    requires PP.PlanProjection(view, s, positionId, eventId) == Ok(write) && write.OpenPosition?
    requires PP.ApplyProjection(db, write, pick).1.Applied?
    ensures WentInto(db, PP.ApplyProjection(db, write, pick).0, s.fill, PP.KeyOf(s), positionId, positionId,
                     write.event)
    ensures write.event.id == eventId
  {
    hide PP.ApplyProjection, PP.PlanProjection, BuyPosition;
    var held := OpeningPlanned(view, s, write, positionId, eventId);
    OpenedIs(db, positionId, write.position, write.event, pick);
  }

  lemma AppliedIncrease(
    view: Ledger, db: Ledger, s: PP.Source, write: PP.ProjectionWrite, positionId: PositionId,
    eventId: EventId, pick: nat)
    requires s.fill.quantity > 0 && Extends(view, db)
    requires PP.PlanProjection(view, s, positionId, eventId) == Ok(write) && write.IncreasePosition?
    requires PP.ApplyProjection(db, write, pick).1.Applied?
    ensures WentInto(db, PP.ApplyProjection(db, write, pick).0, s.fill, PP.KeyOf(s), write.event.positionId,
                     positionId, write.event)
    ensures write.event.id == eventId
  {
    hide PP.ApplyProjection, PP.PlanProjection, BuyPosition, Extends;
    IncreasedIs(view, db, s, write, positionId, eventId, pick);
  }

  /** Whatever the attempt had read, an applied one puts the fill into the position of its
      key, whose last update is then the execution time of that fill. */
  lemma AppliedIs(
    eventView: Ledger, sourceView: Ledger, positionView: Ledger, db: Ledger, g: Fill, key: PositionKey,
    positionId: PositionId, eventId: EventId, pick: nat)
    returns (p: PositionId, e: Event)
    requires Inv(db) && Extends(sourceView, db) && Extends(positionView, db)
    requires g in db.fills && Belongs(db, g, key)
    requires PP.ProjectOnceResult(eventView, sourceView, positionView, db, g.id, positionId, eventId,
                                  pick).1.Applied?
    ensures var after := PP.ProjectOnceResult(eventView, sourceView, positionView, db, g.id, positionId,
                                              eventId, pick).0;
            WentInto(db, after, g, key, p, positionId, e)
    ensures e.id == eventId
  {
    hide Inv, Extends, Belongs, PP.LoadSource, PP.PlanProjection, PP.ApplyProjection, WentInto;
    var s := PP.LoadSource(sourceView, g.id).value;
    SourceStays(sourceView, db, g.id);
    StoredFill(db, g);
    FillIsProjectable(db, g);
    OneKey(db, g, key, PP.KeyOf(s));
    var write := PP.PlanProjection(positionView, s, positionId, eventId).value;
    e := write.event;
    if write.OpenPosition? {
      p := positionId;
      AppliedOpening(positionView, db, s, write, positionId, eventId, pick);
    } else {
      p := write.event.positionId;
      AppliedIncrease(positionView, db, s, write, positionId, eventId, pick);
    }
  }

  lemma StoredFill(db: Ledger, g: Fill)
    requires Inv(db) && g in db.fills
    ensures FindFill(db.fills, g.id) == Some(g)
  {
    FillLookup(db.fills, g);
  }

  // ---------------------------------------------------------------------------
  // A later fill first
  // ---------------------------------------------------------------------------

  lemma WentPast(
    db: Ledger, after: Ledger, f: Fill, g: Fill, key: PositionKey, p: PositionId, positionId: PositionId,
    e: Event)
    requires Inv(db) && f in db.fills && g in db.fills && Belongs(db, f, key)
    requires FindEventByFill(db.events, f.id).None? && f.executedAt < g.executedAt
    requires WentInto(db, after, g, key, p, positionId, e)
    ensures Overtaken(after, f)
  {
    hide Inv;
    StoredFill(db, f);
    StoredFill(db, g);
    AppendEvent(db.events, e);
  }

  /** Projecting a later fill of the same key first overtakes every earlier one that is
      stored and not projected yet. */
  lemma LaterFirstOvertakes(
    eventView: Ledger, sourceView: Ledger, positionView: Ledger, db: Ledger, f: Fill, g: Fill,
    key: PositionKey, positionId: PositionId, eventId: EventId, pick: nat)
    requires Inv(db) && Extends(sourceView, db) && Extends(positionView, db)
    requires f in db.fills && g in db.fills && Belongs(db, f, key) && Belongs(db, g, key)
    requires FindEventByFill(db.events, f.id).None? && f.executedAt < g.executedAt
    requires PP.ProjectOnceResult(eventView, sourceView, positionView, db, g.id, positionId, eventId,
                                  pick).1.Applied?
    ensures Overtaken(PP.ProjectOnceResult(eventView, sourceView, positionView, db, g.id, positionId, eventId,
                                           pick).0, f)
  {
    hide Inv, Extends, PP.ProjectOnceResult;
    var p, e := AppliedIs(eventView, sourceView, positionView, db, g, key, positionId, eventId, pick);
    var after := PP.ProjectOnceResult(eventView, sourceView, positionView, db, g.id, positionId, eventId, pick).0;
    WentPast(db, after, f, g, key, p, positionId, e);
  }

  // ---------------------------------------------------------------------------
  // All the fills of a key
  // ---------------------------------------------------------------------------

  ghost predicate Projected(db: Ledger, f: Fill) {
    FindEventByFill(db.events, f.id).Some?
  }

  /** One fresh attempt for each fill, in the given order; a failed one is passed over. */
  function ProjectAll(db: Ledger, fills: seq<Fill>, positionIds: seq<PositionId>, eventIds: seq<EventId>)
    : Ledger
    requires |fills| == |positionIds| == |eventIds|
    decreases |fills|
  {
    if fills == [] then db
    else
      ProjectAll(FreshProjection(db, fills[0].id, positionIds[0], eventIds[0], 0).0, fills[1..],
                 positionIds[1..], eventIds[1..])
  }

  ghost predicate Distinct<T>(ids: seq<T>) {
    forall i, j :: 0 <= i < j < |ids| ==> ids[i] != ids[j]
  }

  /** The identifiers the calls would generate are not in use. */
  ghost predicate NewIds(db: Ledger, positionIds: seq<PositionId>, eventIds: seq<EventId>) {
    && Distinct(positionIds) && (forall p :: p in db.positions ==> p !in positionIds)
    && Distinct(eventIds) && (forall e :: e in db.events ==> e.id !in eventIds)
  }

  /** Different stored fills of one key that no event has projected. */
  ghost predicate Waiting(db: Ledger, key: PositionKey, fills: seq<Fill>) {
    && Distinct(fills)
    && forall f :: f in fills ==> f in db.fills && Belongs(db, f, key) && !Projected(db, f)
  }

  /** No price has more digits than the calculation keeps. */
  ghost predicate PricesFit(db: Ledger, key: PositionKey, fills: seq<Fill>) {
    && (forall f :: f in fills ==> f.price < INCREASE_LIMIT)
    && (fills != [] && FindOpen(db, key).None? ==> fills[0].price < OPENING_LIMIT)
  }

  ghost predicate InExecutionOrder(fills: seq<Fill>) {
    forall i, j :: 0 <= i < j < |fills| ==> fills[i].executedAt <= fills[j].executedAt
  }

  /** A stored average is one the calculation could represent. */
  lemma AverageFits(db: Ledger, p: PositionId)
    requires Inv(db) && p in db.positions
    ensures db.positions[p].averageCost < INCREASE_LIMIT
  {
    assert PositionOk(db, p);
    var events := EventsOf(db.events, p);
    assert EventOk(db, db.positions[p].key, events, |events| - 1);
    hide Inv, Belongs, AveragePrice;
  }

  lemma PriceFitsAverage(db: Ledger, key: PositionKey, f: Fill)
    requires Inv(db) && f.quantity > 0 && PricesFit(db, key, [f])
    ensures Representable(db, key, f)
  {
    hide Inv, AveragePrice;
    assert f in [f];
    if FindOpen(db, key).Some? {
      var p := FindOpen(db, key).value;
      assert p in OpenIds(db, key);
      AverageFits(db, p);
    }
  }

  /** Calls for other fills leave a fill as unprojected as it was. */
  lemma {:induction false} OnlyTheseProjected(
    db: Ledger, fills: seq<Fill>, positionIds: seq<PositionId>, eventIds: seq<EventId>, f: Fill)
    requires |fills| == |positionIds| == |eventIds|
    requires forall g :: g in fills ==> g.id != f.id
    ensures Projected(ProjectAll(db, fills, positionIds, eventIds), f) <==> Projected(db, f)
    decreases |fills|
  {
    if fills != [] {
      var next := FreshProjection(db, fills[0].id, positionIds[0], eventIds[0], 0);
      OtherStays(db, fills[0].id, positionIds[0], eventIds[0], f);
      hide FreshProjection;
      OnlyTheseProjected(next.0, fills[1..], positionIds[1..], eventIds[1..], f);
    }
  }

  lemma OtherStays(db: Ledger, fillId: FillId, positionId: PositionId, eventId: EventId, f: Fill)
    requires fillId != f.id
    ensures Projected(FreshProjection(db, fillId, positionId, eventId, 0).0, f) <==> Projected(db, f)
  {
    hide PP.ProjectOnceResult;
    if FreshProjection(db, fillId, positionId, eventId, 0).1.Applied? {
      var e := ProjectWrites(db, db, db, db, fillId, positionId, eventId, 0);
      AppendEvent(db.events, e);
    } else {
      RefusedProjection(db, db, db, db, fillId, positionId, eventId, 0);
    }
  }

  /** An applied first attempt leaves the others waiting, and overtakes exactly those that
      were executed before it. */
  lemma FirstApplied(
    db: Ledger, key: PositionKey, fills: seq<Fill>, positionIds: seq<PositionId>, eventIds: seq<EventId>)
    requires fills != [] && |fills| == |positionIds| == |eventIds|
    requires Inv(db) && Waiting(db, key, fills) && NewIds(db, positionIds, eventIds) && PricesFit(db, key, fills)
    requires FreshProjection(db, fills[0].id, positionIds[0], eventIds[0], 0).1.Applied?
    ensures var next := FreshProjection(db, fills[0].id, positionIds[0], eventIds[0], 0).0;
            && Inv(next) && next.fills == db.fills && Projected(next, fills[0])
            && Waiting(next, key, fills[1..]) && NewIds(next, positionIds[1..], eventIds[1..])
            && PricesFit(next, key, fills[1..])
            && forall f :: f in fills[1..] ==> (Overtaken(next, f) <==> f.executedAt < fills[0].executedAt)
  {
    hide Inv, Extends, Overtaken, PP.ProjectOnceResult;
    var first := fills[0];
    var next := FreshProjection(db, first.id, positionIds[0], eventIds[0], 0).0;
    SelfExtends(db);
    assert first in fills;
    var p, e := AppliedIs(db, db, db, db, first, key, positionIds[0], eventIds[0], 0);
    ProjectOnceKeeps(db, db, db, db, first.id, positionIds[0], eventIds[0], 0);
    AppendEvent(db.events, e);
    StoredFill(db, first);
    forall f | f in fills[1..]
      ensures f in db.fills && Belongs(next, f, key) && !Projected(next, f)
      ensures Overtaken(next, f) <==> f.executedAt < first.executedAt
      ensures FindOpen(next, key) == Some(p)
    {
      StoredFill(db, f);
      OvertakenByPosition(next, f, key, p);
    }
  }

  /** Fills no older than one that is not overtaken are not overtaken either. */
  lemma LaterNotOvertaken(db: Ledger, key: PositionKey, f: Fill, g: Fill)
    requires Inv(db) && f in db.fills && Belongs(db, f, key) && Belongs(db, g, key)
    requires !Projected(db, f) && !Overtaken(db, f) && f.executedAt <= g.executedAt
    ensures !Overtaken(db, g)
  {
    hide Inv, Overtaken, Belongs;
    if FindOpen(db, key).None? {
      NotOvertakenUnopened(db, g, key);
    } else {
      var p := FindOpen(db, key).value;
      assert p in OpenIds(db, key);
      OvertakenByPosition(db, f, key, p);
      if g in db.fills {
        OvertakenByPosition(db, g, key, p);
      } else {
        StoredWhenOvertaken(db, g);
      }
    }
  }

  lemma StoredWhenOvertaken(db: Ledger, g: Fill)
    ensures Overtaken(db, g) ==> g in db.fills
  {
  }

  lemma FirstAppliesIff(
    db: Ledger, key: PositionKey, fills: seq<Fill>, positionId: PositionId, eventId: EventId)
    requires fills != [] && Inv(db) && Waiting(db, key, fills) && PricesFit(db, key, fills)
    requires positionId !in db.positions && forall e :: e in db.events ==> e.id != eventId
    ensures FreshProjection(db, fills[0].id, positionId, eventId, 0).1.Applied? <==> !Overtaken(db, fills[0])
  {
    hide Inv, Overtaken, FreshProjection, Belongs, Representable;
    assert fills[0] in fills;
    FreshProjectionAppliesIff(db, fills[0], key, positionId, eventId, 0);
    PriceFitsAverage(db, key, fills[0]);
  }

  lemma NotApplied(db: Ledger, fillId: FillId, positionId: PositionId, eventId: EventId)
    requires !FreshProjection(db, fillId, positionId, eventId, 0).1.Applied?
    ensures FreshProjection(db, fillId, positionId, eventId, 0).0 == db
  {
    RefusedProjection(db, db, db, db, fillId, positionId, eventId, 0);
  }

  /** Waiting fills have different identifiers. */
  lemma NotAmongRest(db: Ledger, key: PositionKey, fills: seq<Fill>)
    requires fills != [] && Inv(db) && Waiting(db, key, fills)
    ensures forall f :: f in fills[1..] ==> f.id != fills[0].id
  {
    hide Inv, Belongs;
    assert fills[0] in fills;
    StoredFill(db, fills[0]);
    forall f | f in fills[1..]
      ensures f.id != fills[0].id
    {
      StoredFill(db, f);
    }
  }

  lemma OrderOfRest(fills: seq<Fill>)
    requires fills != []
    ensures InExecutionOrder(fills)
            <==> InExecutionOrder(fills[1..]) && forall f :: f in fills[1..] ==> fills[0].executedAt <= f.executedAt
  {
    var rest := fills[1..];
    if InExecutionOrder(rest) && forall f :: f in rest ==> fills[0].executedAt <= f.executedAt {
      forall i, j | 0 <= i < j < |fills|
        ensures fills[i].executedAt <= fills[j].executedAt
      {
        assert fills[j] == rest[j - 1] && rest[j - 1] in rest;
        if i > 0 {
          assert fills[i] == rest[i - 1];
        }
      }
    }
  }

  /** Projecting waiting fills of one key one after the other projects all of them exactly
      when none of them is overtaken already and they are taken in execution order. */
  lemma {:induction false} AllProjectedIff(
    db: Ledger, key: PositionKey, fills: seq<Fill>, positionIds: seq<PositionId>, eventIds: seq<EventId>)
    requires |fills| == |positionIds| == |eventIds|
    requires Inv(db) && Waiting(db, key, fills) && NewIds(db, positionIds, eventIds) && PricesFit(db, key, fills)
    ensures (forall f :: f in fills ==> Projected(ProjectAll(db, fills, positionIds, eventIds), f))
            <==> (forall f :: f in fills ==> !Overtaken(db, f)) && InExecutionOrder(fills)
    decreases |fills|
  {
    hide Inv, Overtaken, FreshProjection, Belongs, Projected;
    if fills != [] {
      var first, rest := fills[0], fills[1..];
      assert first in fills && fills == [first] + rest;
      var (next, attempt) := FreshProjection(db, first.id, positionIds[0], eventIds[0], 0);
      var done := ProjectAll(next, rest, positionIds[1..], eventIds[1..]);
      FirstAppliesIff(db, key, fills, positionIds[0], eventIds[0]);
      NotAmongRest(db, key, fills);
      OnlyTheseProjected(next, rest, positionIds[1..], eventIds[1..], first);
      if attempt.Applied? {
        FirstApplied(db, key, fills, positionIds, eventIds);
        AllProjectedIff(next, key, rest, positionIds[1..], eventIds[1..]);
        forall f | f in rest && first.executedAt <= f.executedAt
          ensures !Overtaken(db, f)
        {
          LaterNotOvertaken(db, key, first, f);
        }
        OrderOfRest(fills);
      } else {
        NotApplied(db, first.id, positionIds[0], eventIds[0]);
      }
    }
  }

  /** A projection writes no table but positions and events. */
  lemma {:induction false} ProjectAllTouches(
    db: Ledger, fills: seq<Fill>, positionIds: seq<PositionId>, eventIds: seq<EventId>)
    requires |fills| == |positionIds| == |eventIds|
    ensures var after := ProjectAll(db, fills, positionIds, eventIds);
            after == db.(positions := after.positions, events := after.events)
    decreases |fills|
  {
    hide PP.ProjectOnceResult;
    if fills != [] {
      ProjectTouches(db, db, db, db, fills[0].id, positionIds[0], eventIds[0], 0);
      ProjectAllTouches(FreshProjection(db, fills[0].id, positionIds[0], eventIds[0], 0).0, fills[1..],
                        positionIds[1..], eventIds[1..]);
    }
  }

  /** When everything that still waits for a key is projected in execution order, and nothing
      of it came too late before, every stored fill of the key ends up with its event. */
  lemma KeyIsComplete(
    db: Ledger, key: PositionKey, fills: seq<Fill>, positionIds: seq<PositionId>, eventIds: seq<EventId>)
    requires |fills| == |positionIds| == |eventIds|
    requires Inv(db) && Waiting(db, key, fills) && NewIds(db, positionIds, eventIds) && PricesFit(db, key, fills)
    requires forall f :: f in db.fills && Belongs(db, f, key) ==> Projected(db, f) || f in fills
    requires (forall f :: f in fills ==> !Overtaken(db, f)) && InExecutionOrder(fills)
    ensures var after := ProjectAll(db, fills, positionIds, eventIds);
            && after.fills == db.fills
            && forall f :: f in after.fills && Belongs(after, f, key) ==> Projected(after, f)
  {
    hide Inv, Overtaken, Projected;
    var after := ProjectAll(db, fills, positionIds, eventIds);
    ProjectAllTouches(db, fills, positionIds, eventIds);
    AllProjectedIff(db, key, fills, positionIds, eventIds);
    forall f | f in db.fills && Belongs(after, f, key)
      ensures Projected(after, f)
    {
      assert Belongs(db, f, key);
      if f !in fills {
        forall g | g in fills
          ensures g.id != f.id
        {
          StoredFill(db, f);
          StoredFill(db, g);
        }
        OnlyTheseProjected(db, fills, positionIds, eventIds, f);
      }
    }
  }
}
