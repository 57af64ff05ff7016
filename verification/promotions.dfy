/**
 * The promotion entity (Promotion) and its JPA repository (PromotionRepository).
 * A promotion's descriptive fields never change after it is built; only its
 * status does, through `Start` and `End`. Times are whole seconds on one clock.
 */
module Promotions {
  import opened Wrappers
  import opened JavaInt
  import opened Ids

  datatype PromotionStatus = Scheduled | Active | Ended

  /** The read-only view of a promotion handed out by the services (PromotionResponse). */
  datatype PromotionSnapshot = PromotionSnapshot(
    id: PromotionId,
    name: string,
    startTime: int,
    endTime: int,
    totalStock: Int32,
    pointAmount: Int32,
    status: PromotionStatus)

  class Promotion {
    const id: PromotionId
    const name: string
    const startTime: int
    const endTime: int
    /** The number of winners (the first-come-first-served stock). */
    const totalStock: Int32
    const pointAmount: Int32
    var status: PromotionStatus

    /** The builder: a promotion built without a status starts out SCHEDULED. */
    constructor (id: PromotionId, name: string, startTime: int, endTime: int,
                 totalStock: Int32, pointAmount: Int32, status: Option<PromotionStatus>)
      ensures this.id == id && this.name == name
      ensures this.startTime == startTime && this.endTime == endTime
      ensures this.totalStock == totalStock && this.pointAmount == pointAmount
      ensures this.status == (if status.Some? then status.value else Scheduled)
    {
      this.id := id;
      this.name := name;
      this.startTime := startTime;
      this.endTime := endTime;
      this.totalStock := totalStock;
      this.pointAmount := pointAmount;
      this.status := if status.Some? then status.value else Scheduled;
    }

    /** Running at `now`: ACTIVE and strictly inside the promotion window. */
    predicate IsActive(now: int)
      reads this
    {
      status == Active && startTime < now && now < endTime
    }

    /** Open for joining at `now`: running and with some stock to give away. */
    predicate CanParticipate(now: int)
      reads this
    {
      IsActive(now) && totalStock > 0
    }

    /**
     * Starts the promotion; there is no guard on the current status. From then on a
     * promotion with stock admits joiners exactly strictly inside its window.
     */
    method Start()
      modifies this
      ensures status == Active
      ensures forall now :: CanParticipate(now) <==> startTime < now < endTime && totalStock > 0
    {
      status := Active;
    }

    /** Ends the promotion; there is no guard on the current status. From then on no time admits a joiner. */
    method End()
      modifies this
      ensures status == Ended
      ensures forall now :: !IsActive(now) && !CanParticipate(now)
    {
      status := Ended;
    }

    function Snapshot(): (s: PromotionSnapshot)
      reads this
      ensures s.id == id && s.status == status && s.totalStock == totalStock
    {
      PromotionSnapshot(id, name, startTime, endTime, totalStock, pointAmount, status)
    }
  }

  /** A promotion that is not ACTIVE (SCHEDULED or ENDED) turns every joiner away, at any time. */
  lemma OnlyActivePromotionsAdmit(p: Promotion, now: int)
    requires p.status != Active
    ensures !p.IsActive(now) && !p.CanParticipate(now)
  {
  }

  /**
   * The promotion table. `order` is the order in which rows were saved; it is the
   * order `FindByStatus` lists them in (the source leaves that order to the database).
   */
  class PromotionRepository {
    var rows: map<PromotionId, Promotion>
    var order: seq<PromotionId>

    /** Every row is listed once, and each row is its own object stored under its own id. */
    ghost predicate Valid()
      reads this, rows.Values
    {
      (forall i, j :: 0 <= i < j < |order| ==> order[i] != order[j]) &&
      (forall id :: id in rows <==> id in order) &&
      (forall id :: id in rows ==> rows[id].id == id)
    }

    constructor ()
      ensures Valid() && rows == map[] && order == []
    {
      rows := map[];
      order := [];
    }

    function FindById(id: PromotionId): (r: Option<Promotion>)
      reads this
      ensures r.Some? <==> id in rows
      ensures r.Some? ==> r.value == rows[id]
    {
      if id in rows then Some(rows[id]) else None
    }

    /** The promotions whose status is `status`, in saving order. */
    function FindByStatus(status: PromotionStatus): (r: seq<Promotion>)
      reads this, rows.Values
      requires Valid()
      ensures forall i :: 0 <= i < |r| ==> r[i].id in rows && rows[r[i].id] == r[i] && r[i].status == status
      ensures forall id :: id in rows && rows[id].status == status ==> rows[id] in r
    {
      Matching(order, status)
    }

    /** The promotions among the rows listed in `ids` whose status is `status`, in list order. */
    function Matching(ids: seq<PromotionId>, status: PromotionStatus): (r: seq<Promotion>)
      reads this, rows.Values
      requires forall id :: id in ids ==> id in rows && rows[id].id == id
      ensures forall i :: 0 <= i < |r| ==> r[i].id in rows && rows[r[i].id] == r[i] && r[i].status == status
      ensures forall id :: id in ids && rows[id].status == status ==> rows[id] in r
    {
      if ids == [] then []
      else
        var rest := Matching(ids[1..], status);
        assert forall id :: id in ids <==> id == ids[0] || id in ids[1..];
        if rows[ids[0]].status == status then [rows[ids[0]]] + rest else rest
    }

    /** Saving a new promotion: a fresh id goes at the end of the listing order. */
    method Save(p: Promotion)
      requires Valid() && p.id !in rows
      modifies this
      ensures Valid()
      ensures rows == old(rows)[p.id := p] && order == old(order) + [p.id]
    {
      rows := rows[p.id := p];
      order := order + [p.id];
    }
  }
}
