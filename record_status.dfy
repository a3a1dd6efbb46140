/**
 * The derived status of a notification record (the computed properties of
 * NotificationRecord): the record's current success, error message, delivery
 * status, delivery time and read time are those of its latest result, the
 * one with the greatest creation stamp. The source orders the results with a
 * stable descending sort and takes the first, so among results with equal
 * stamps the one earlier in the collection is the latest.
 */
module RecordStatus {

  import opened Common
  import opened Entities
  import Seqs

  type Results = seq<Entity<NotificationResult>>

  /**
   * The record's `Results` collection: the visible rows of the results table
   * that point at the record, in table order.
   */
  function ResultsOf(rows: Results, recordId: Id): (r: Results)
    ensures forall x :: x in r <==> x in rows && !x.isDeleted && x.data.notificationId == recordId
  {
    Seqs.Filter(rows, (x: Entity<NotificationResult>) => !x.isDeleted && x.data.notificationId == recordId)
  }

  /** Results added for other records leave a record's collection as it was. */
  lemma ResultsOfAppend(rows: Results, added: Results, recordId: Id)
    ensures ResultsOf(rows + added, recordId) == ResultsOf(rows, recordId) + ResultsOf(added, recordId)
  {
    Seqs.FilterAppend(rows, added, (x: Entity<NotificationResult>) => !x.isDeleted && x.data.notificationId == recordId);
  }

  /** Position of the latest result: a greatest stamp, and the first position holding one. */
  function LatestIndex(rs: Results): (i: nat)
    requires rs != []
    ensures i < |rs|
    ensures forall k :: 0 <= k < |rs| ==> rs[k].createdAt <= rs[i].createdAt
    ensures forall k :: 0 <= k < i ==> rs[k].createdAt < rs[i].createdAt
  {
    if |rs| == 1 then 0
    else
      var j := LatestIndex(rs[1..]) + 1;
      if rs[0].createdAt >= rs[j].createdAt then 0 else j
  }

  /** `Results.OrderByDescending(r => r.CreatedAt).FirstOrDefault()`. */
  function Latest(rs: Results): (r: Option<Entity<NotificationResult>>)
    ensures r.None? <==> rs == []
    ensures r.Some? ==> r.value in rs && forall x :: x in rs ==> x.createdAt <= r.value.createdAt
  {
    if rs == [] then None else Some(rs[LatestIndex(rs)])
  }

  /** `WasSuccessful`: the latest result succeeded; false when there is no result. */
  predicate WasSuccessful(rs: Results)
  {
    match Latest(rs)
    case None => false
    case Some(r) => r.data.success
  }

  /** `ErrorMessage` */
  function ErrorMessage(rs: Results): Option<string>
  {
    match Latest(rs)
    case None => None
    case Some(r) => r.data.errorMessage
  }

  /** `DeliveryStatus` */
  function DeliveryStatus(rs: Results): Option<string>
  {
    match Latest(rs)
    case None => None
    case Some(r) => r.data.deliveryStatus
  }

  /** `DeliveredAt` */
  function DeliveredAt(rs: Results): Option<Time>
  {
    match Latest(rs)
    case None => None
    case Some(r) => r.data.deliveredAt
  }

  /** `ReadAt` */
  function ReadAt(rs: Results): Option<Time>
  {
    match Latest(rs)
    case None => None
    case Some(r) => r.data.readAt
  }

  /** The derived status of a record without results: not successful, and every derived field null. */
  lemma NoResultsNoStatus(rs: Results)
    requires rs == []
    ensures !WasSuccessful(rs)
    ensures ErrorMessage(rs).None? && DeliveryStatus(rs).None? && DeliveredAt(rs).None? && ReadAt(rs).None?
  {
  }

  /** The two properties of LatestIndex pin the position down. */
  lemma LatestIndexUnique(rs: Results, i: nat)
    requires i < |rs|
    requires forall k :: 0 <= k < |rs| ==> rs[k].createdAt <= rs[i].createdAt
    requires forall k :: 0 <= k < i ==> rs[k].createdAt < rs[i].createdAt
    ensures LatestIndex(rs) == i
  {
  }

  /** All five derived fields come from one and the same result, the newest one. */
  lemma StatusFromOneResult(rs: Results)
    requires rs != []
    ensures var r := rs[LatestIndex(rs)].data;
      && WasSuccessful(rs) == r.success
      && ErrorMessage(rs) == r.errorMessage
      && DeliveryStatus(rs) == r.deliveryStatus
      && DeliveredAt(rs) == r.deliveredAt
      && ReadAt(rs) == r.readAt
  {
  }

  /** A result stamped later than every existing one becomes the latest. */
  lemma {:induction false} AppendNewer(rs: Results, x: Entity<NotificationResult>)
    requires forall k :: 0 <= k < |rs| ==> rs[k].createdAt < x.createdAt
    ensures Latest(rs + [x]) == Some(x)
    ensures WasSuccessful(rs + [x]) == x.data.success
    ensures ErrorMessage(rs + [x]) == x.data.errorMessage
    ensures DeliveryStatus(rs + [x]) == x.data.deliveryStatus
    ensures DeliveredAt(rs + [x]) == x.data.deliveredAt
    ensures ReadAt(rs + [x]) == x.data.readAt
  {
    var s := rs + [x];
    LatestIndexUnique(s, |rs|);
  }

  /** A newer failed attempt after an earlier success makes the record unsuccessful again. */
  lemma NewerFailureOverridesSuccess(rs: Results, x: Entity<NotificationResult>)
    requires WasSuccessful(rs)
    requires forall k :: 0 <= k < |rs| ==> rs[k].createdAt < x.createdAt
    requires !x.data.success
    ensures !WasSuccessful(rs + [x])
  {
    AppendNewer(rs, x);
  }

  /** Stamps that strictly increase along the collection: the last result is the latest. */
  lemma IncreasingStampsLastWins(rs: Results)
    requires rs != []
    requires forall i, j :: 0 <= i < j < |rs| ==> rs[i].createdAt < rs[j].createdAt
    ensures Latest(rs) == Some(rs[|rs| - 1])
    ensures WasSuccessful(rs) == rs[|rs| - 1].data.success
  {
    LatestIndexUnique(rs, |rs| - 1);
  }

  predicate DistinctStamps(rs: Results)
  {
    forall i, j :: 0 <= i < j < |rs| ==> rs[i].createdAt != rs[j].createdAt
  }

  /**
   * With pairwise distinct stamps the latest result, and so the whole
   * derived status, does not depend on the order of the collection.
   */
  lemma LatestOrderIndependent(a: Results, b: Results)
    requires multiset(a) == multiset(b)
    requires DistinctStamps(a)
    ensures Latest(a) == Latest(b)
    ensures WasSuccessful(a) == WasSuccessful(b)
    ensures ErrorMessage(a) == ErrorMessage(b) && DeliveryStatus(a) == DeliveryStatus(b)
    ensures DeliveredAt(a) == DeliveredAt(b) && ReadAt(a) == ReadAt(b)
  {
    if a != [] {
      assert |b| == |a| by {
        assert |multiset(a)| == |multiset(b)|;
      }
      var x := Latest(a).value;
      var y := Latest(b).value;
      assert x in multiset(b);
      assert y in multiset(a);
      assert x.createdAt == y.createdAt;
      var i :| 0 <= i < |a| && a[i] == x;
      var j :| 0 <= j < |a| && a[j] == y;
      assert i == j;
    } else {
      assert b == [] by {
        assert |multiset(b)| == 0;
      }
    }
  }
}
