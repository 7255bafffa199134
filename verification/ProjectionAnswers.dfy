/** Every answer a projection can give in a reachable ledger, and what lost races answer. */
module ProjectionAnswers {
  import opened Outcomes
  import opened LedgerTables
  import opened AverageCost
  import opened LedgerInvariant
  import opened LedgerSteps
  import opened LedgerReplay
  import opened LedgerProgress
  import PP = PositionProjection
  import opened ProjectionOrder

  lemma EventHasFill(db: Ledger, e: Event)
    requires Inv(db) && e in db.events
    ensures FindFill(db.fills, e.fillId).Some?
  {
    var events := EventsOf(db.events, e.positionId);
    EventsOfAreRows(db.events, e.positionId);
    assert PositionOk(db, e.positionId);
    var k :| 0 <= k < |events| && events[k] == e;
    assert EventOk(db, db.positions[e.positionId].key, events, k);
  }

  lemma NewNotProjected(db: Ledger, f: Fill)
    requires Inv(db) && forall g :: g in db.fills ==> g.id != f.id
    ensures !Projected(db, f)
  {
    hide Inv;
    EventFound(db.events, f.id);
    FillFound(db.fills, f.id);
    if Projected(db, f) {
      EventHasFill(db, FindEventByFill(db.events, f.id).value);
    }
  }

  lemma SourceGiven(db: Ledger, f: Fill, positionId: PositionId, eventId: EventId, pick: nat)
    requires FindEventByFill(db.events, f.id).None? && PP.LoadSource(db, f.id).Ok?
    requires PP.LoadSource(db, f.id).value.fill.quantity > 0
    ensures var planned := PP.PlanProjection(db, PP.LoadSource(db, f.id).value, positionId, eventId);
            planned.Err? ==> FreshProjection(db, f.id, positionId, eventId, pick).1 == PP.Failed(planned.error)
  {
  }

  lemma PlanRefusals(db: Ledger, s: PP.Source, positionId: PositionId, eventId: EventId)
    requires s.fill.quantity > 0
    ensures var planned, open := PP.PlanProjection(db, s, positionId, eventId), FindOpen(db, PP.KeyOf(s));
            && (open.Some? ==> open.value in db.positions)
            && (if open.Some? && s.fill.executedAt < db.positions[open.value].updatedAt
                then planned == Err(PP.InvalidFill("fill_precedes_position"))
                else if !Representable(db, PP.KeyOf(s), s.fill)
                then planned == Err(PP.InvalidFill("calculation_failed"))
                else planned.Ok?)
  {
    hide AveragePrice;
    if FindOpen(db, PP.KeyOf(s)).Some? {
      assert FindOpen(db, PP.KeyOf(s)).value in OpenIds(db, PP.KeyOf(s));
    }
  }

  /** Every answer of a fresh attempt with new identifiers on a stored fill. */
  lemma FreshProjectionAnswers(
    db: Ledger, f: Fill, key: PositionKey, positionId: PositionId, eventId: EventId, pick: nat)
    requires Inv(db) && f in db.fills && Belongs(db, f, key)
    requires positionId !in db.positions && forall e :: e in db.events ==> e.id != eventId
    ensures f.quantity > 0
    ensures var attempt := FreshProjection(db, f.id, positionId, eventId, pick).1;
            match FindEventByFill(db.events, f.id)
            case Some(e) =>
              attempt == PP.AlreadyApplied(PP.ProjectionResult(f.id, e.positionId, e.id, e.kind, e.quantityAfter,
                                                               e.averageAfter, e.sequence))
            case None =>
              if Overtaken(db, f) then attempt == PP.Failed(PP.InvalidFill("fill_precedes_position"))
              else if !Representable(db, key, f) then attempt == PP.Failed(PP.InvalidFill("calculation_failed"))
              else attempt.Applied? && attempt.result.fillId == f.id && attempt.result.eventId == eventId
  {
    hide Inv, Extends, Belongs, Overtaken, Representable, PP.LoadSource, PP.PlanProjection, PP.ApplyProjection;
    EventFound(db.events, f.id);
    FreshProjectionAppliesIff(db, f, key, positionId, eventId, pick);
    if FindEventByFill(db.events, f.id).None? {
      FillIsProjectable(db, f);
      var s := PP.LoadSource(db, f.id).value;
      OneKey(db, f, key, PP.KeyOf(s));
      PlanRefusals(db, s, positionId, eventId);
      SourceGiven(db, f, positionId, eventId, pick);
      if FindOpen(db, key).None? {
        NotOvertakenUnopened(db, f, key);
      } else {
        KeyOfOpen(db, key);
        OvertakenByPosition(db, f, key, FindOpen(db, key).value);
      }
      if !Overtaken(db, f) && Representable(db, key, f) {
        SelfExtends(db);
        var p, e := AppliedIs(db, db, db, db, f, key, positionId, eventId, pick);
        var written := ProjectWrites(db, db, db, db, f.id, positionId, eventId, pick);
        SameEvent(db, FreshProjection(db, f.id, positionId, eventId, pick).0, e, written);
      }
    }
  }

  lemma KeyOfOpen(db: Ledger, key: PositionKey)
    requires FindOpen(db, key).Some?
    ensures FindOpen(db, key).value in db.positions && db.positions[FindOpen(db, key).value].key == key
  {
    assert FindOpen(db, key).value in OpenIds(db, key);
  }

  lemma SameEvent(db: Ledger, after: Ledger, a: Event, b: Event)
    requires after.events == db.events + [a] && after.events == db.events + [b]
    ensures a == b
  {
    assert after.events[|db.events|] == a;
  }

  /** A fill that is not stored. */
  lemma UnknownFillAnswer(db: Ledger, fillId: FillId, positionId: PositionId, eventId: EventId, pick: nat)
    requires Inv(db) && forall f :: f in db.fills ==> f.id != fillId
    ensures FreshProjection(db, fillId, positionId, eventId, pick).1 == PP.Failed(PP.FillNotFound)
  {
    hide Inv;
    EventFound(db.events, fillId);
    FillFound(db.fills, fillId);
    if FindEventByFill(db.events, fillId).Some? {
      EventHasFill(db, FindEventByFill(db.events, fillId).value);
    }
  }

  lemma OpeningRaced(
    view: Ledger, db: Ledger, s: PP.Source, positionId: PositionId, eventId: EventId, pick: nat)
    requires s.fill.quantity > 0 && FindOpen(view, PP.KeyOf(s)).None?
    requires PP.PlanProjection(view, s, positionId, eventId).Ok?
    requires OpenIds(db, PP.KeyOf(s)) != {} && positionId !in db.positions
    ensures PP.ApplyProjection(db, PP.PlanProjection(view, s, positionId, eventId).value, pick).1
            == PP.Raced(OpenPositionKey)
  {
    hide BuyPosition, FindOpen, OpenIds;
    assert [] + [OpenPositionKey] == [OpenPositionKey];
  }

  lemma SequenceUsed(db: Ledger, p: PositionId, sequence: nat)
    requires Inv(db) && p in db.positions && 0 < sequence <= db.positions[p].version
    ensures exists e :: e in db.events && e.positionId == p && e.sequence == sequence
  {
    assert PositionOk(db, p);
    var events := EventsOf(db.events, p);
    EventsOfAreRows(db.events, p);
    assert EventOk(db, db.positions[p].key, events, sequence - 1);
    assert events[sequence - 1] in events;
  }

  lemma IncreaseRaced(db: Ledger, event: Event, t: BuyTransition, pick: nat)
    requires event.positionId in db.positions && FindFill(db.fills, event.fillId).Some?
    requires FindEventByFill(db.events, event.fillId).None? && forall e :: e in db.events ==> e.id != event.id
    requires exists e :: e in db.events && e.positionId == event.positionId && e.sequence == event.sequence
    ensures PP.ApplyProjection(db, PP.IncreasePosition(event, t), pick).1 == PP.Raced(EventPositionSequence)
  {
    EventFound(db.events, event.fillId);
    assert [] + [] + [EventPositionSequence] == [EventPositionSequence];
  }

  /** The position this attempt planned against has moved on, or has only now been opened. */
  ghost predicate Overrun(view: Ledger, db: Ledger, key: PositionKey) {
    match FindOpen(view, key)
    case None => OpenIds(db, key) != {}
    case Some(id) =>
      id in view.positions && id in db.positions && view.positions[id].version < db.positions[id].version
  }

  /** A projection that loses the race for its position, for another fill, never fails in the
      guarded update: a unique key stops it, and the re-read, which finds no event for the
      fill, turns that into a concurrency error.  Had the race been for this very fill, the
      re-read would report the event it finds. */
  lemma LostRaceAnswers(
    eventView: Ledger, sourceView: Ledger, positionView: Ledger, db: Ledger, reread: Ledger, f: Fill,
    positionId: PositionId, eventId: EventId, pick: nat)
    requires Inv(sourceView) && Inv(db) && Extends(sourceView, db) && Extends(positionView, db)
    requires f in sourceView.fills && FindEventByFill(eventView.events, f.id).None?
    requires !Projected(db, f) && positionId !in db.positions && forall e :: e in db.events ==> e.id != eventId
    requires PP.LoadSource(sourceView, f.id).Ok?
    requires var s := PP.LoadSource(sourceView, f.id).value;
             && s.fill.quantity > 0
             && PP.PlanProjection(positionView, s, positionId, eventId).Ok?
             && Overrun(positionView, db, PP.KeyOf(s))
    ensures var first :=
              PP.ProjectOnceResult(eventView, sourceView, positionView, db, f.id, positionId, eventId, pick).1;
            && (first == PP.Raced(OpenPositionKey) || first == PP.Raced(EventPositionSequence))
            && PP.ResolveDuplicate(reread, f.id, first.constraint)
               == match FindEventByFill(reread.events, f.id)
                  case None => PP.Failed(PP.Concurrency)
                  case Some(e) =>
                    PP.AlreadyApplied(PP.ProjectionResult(f.id, e.positionId, e.id, e.kind, e.quantityAfter,
                                                          e.averageAfter, e.sequence))
  {
    hide Inv, Extends, PP.LoadSource, PP.PlanProjection, PP.ApplyProjection, FindOpen, AveragePrice;
    EventFound(reread.events, f.id);
    SourceStays(sourceView, db, f.id);
    FillsGrow(sourceView, db, f);
    SourceRow(sourceView, db, f);
    var s := PP.LoadSource(sourceView, f.id).value;
    if FindOpen(positionView, PP.KeyOf(s)).None? {
      OpeningRaced(positionView, db, s, positionId, eventId, pick);
    } else {
      var id := FindOpen(positionView, PP.KeyOf(s)).value;
      IncreasePlanned(positionView, s, id, positionId, eventId);
      SequenceUsed(db, id, positionView.positions[id].version + 1);
      var write := PP.PlanProjection(positionView, s, positionId, eventId).value;
      IncreaseRaced(db, write.event, write.transition, pick);
    }
  }

  lemma UsedEventId(db: Ledger, event: Event, pick: nat)
    requires event.positionId in db.positions && FindFill(db.fills, event.fillId).Some?
    requires FindEventByFill(db.events, event.fillId).None? && exists e :: e in db.events && e.id == event.id
    requires forall e :: e in db.events ==> !(e.positionId == event.positionId && e.sequence == event.sequence)
    ensures AddEvent(db, event, pick) == Err(Duplicate(PrimaryKey))
  {
    EventFound(db.events, event.fillId);
    assert [PrimaryKey] + [] + [] == [PrimaryKey];
  }

  lemma UsedEventIdOpening(db: Ledger, id: PositionId, row: Position, event: Event, pick: nat)
    requires Inv(db) && id !in db.positions && event.positionId == id && event.sequence == 1
    requires OpenIds(db, row.key) == {} && FindFill(db.fills, event.fillId).Some?
    requires FindEventByFill(db.events, event.fillId).None? && exists e :: e in db.events && e.id == event.id
    ensures PP.ApplyProjection(db, PP.OpenPosition(id, row, event), pick).1 == PP.Raced(PrimaryKey)
  {
    hide AddEvent, PositionOk, IntentsOk, OrdersOk, OpenKeysUnique;
    UsedEventId(db.(positions := db.positions[id := row]), event, pick);
  }

  /** A clash of identifiers is not a race for the position: it ends as a persistence error. */
  lemma UsedIdentifierAnswers(
    db: Ledger, f: Fill, key: PositionKey, positionId: PositionId, eventId: EventId, pick: nat)
    requires Inv(db) && f in db.fills && Belongs(db, f, key) && !Projected(db, f) && !Overtaken(db, f)
    requires f.quantity > 0 && Representable(db, key, f)
    requires positionId !in db.positions && exists e :: e in db.events && e.id == eventId
    ensures FreshProjection(db, f.id, positionId, eventId, pick).1 == PP.Raced(PrimaryKey)
    ensures PP.ResolveDuplicate(db, f.id, PrimaryKey) == PP.Failed(PP.PersistenceFailed)
  {
    hide Inv, Belongs, Overtaken, Representable, PP.LoadSource, PP.PlanProjection, PP.ApplyProjection;
    FillIsProjectable(db, f);
    var s := PP.LoadSource(db, f.id).value;
    OneKey(db, f, key, PP.KeyOf(s));
    PlanRefusals(db, s, positionId, eventId);
    StoredFill(db, f);
    if FindOpen(db, key).Some? {
      var id := FindOpen(db, key).value;
      KeyOfOpen(db, key);
      OvertakenByPosition(db, f, key, id);
      IncreasePlanned(db, s, id, positionId, eventId);
      NextSequenceUnused(db, id, db.positions[id].version);
      UsedEventIdIncrease(db, PP.PlanProjection(db, s, positionId, eventId).value, pick);
    } else {
      var held := OpeningOf(db, s, positionId, eventId);
      var write := PP.PlanProjection(db, s, positionId, eventId).value;
      UsedEventIdOpening(db, positionId, write.position, write.event, pick);
    }
  }

  lemma UsedEventIdIncrease(db: Ledger, write: PP.ProjectionWrite, pick: nat)
    requires write.IncreasePosition? && write.event.positionId in db.positions
    requires FindFill(db.fills, write.event.fillId).Some? && FindEventByFill(db.events, write.event.fillId).None?
    requires exists e :: e in db.events && e.id == write.event.id
    requires forall e :: e in db.events ==>
               !(e.positionId == write.event.positionId && e.sequence == write.event.sequence)
    ensures PP.ApplyProjection(db, write, pick).1 == PP.Raced(PrimaryKey)
  {
    hide AddEvent;
    UsedEventId(db, write.event, pick);
  }

  lemma OpeningOf(db: Ledger, s: PP.Source, positionId: PositionId, eventId: EventId) returns (held: Holding)
    requires s.fill.quantity > 0 && FindOpen(db, PP.KeyOf(s)).None?
    requires PP.PlanProjection(db, s, positionId, eventId).Ok?
    ensures PP.PlanProjection(db, s, positionId, eventId)
            == Ok(PP.OpenPosition(positionId, PositionFor(s, held),
                                  PP.NewEvent(s, eventId, positionId, OPENED, 1, held,
                                              Money(0, s.intent.currency))))
  {
    hide BuyPosition, FindOpen;
    held := BuyPosition(None, s.fill.quantity, s.fill.price).value;
  }
}
