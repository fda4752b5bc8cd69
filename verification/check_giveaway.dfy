/** The expiry scan and the single-giveaway check (apps/bot/src/utils/giveaway/check-giveaway.ts). */
module CheckGiveaway {
  import opened GiveawayModel
  import EndGiveaway

  /** The query `{ ended: false, endTime: { $lte: now } }`. */
  predicate Due(g: Giveaway, now: int) {
    !g.ended && g.endTime <= now
  }

  /** The ids of the records the scan finds. */
  function DueIds(giveaways: map<int, Giveaway>, now: int): (due: set<int>)
    ensures forall id :: id in due <==> id in giveaways && Due(giveaways[id], now)
  {
    set id | id in giveaways && Due(giveaways[id], now)
  }

  /** What the scan leaves behind for one record: a due record whose save succeeds is closed
      with a valid draw; every other record is untouched. */
  ghost predicate ScanOutcome(before: Giveaway, after: Giveaway, due: bool, saved: bool) {
    if due && saved then EndGiveaway.ValidDraw(before, after.winners) && after == EndGiveaway.Closed(before, after.winners)
    else after == before
  }

  /** `execute()`: find the due records, then attempt to end each one, counting the successes.
      A failed end (`saveOk(id)` false) does not stop the others. The found records are
      visited in id order, which is the order the store holds them in (ids are handed out
      increasing). `pick(id)` is the random source of the end of `id`. */
  method Execute(store: GiveawayStore, now: int, pick: int -> EndGiveaway.Oracle, saveOk: int -> bool)
    returns (endedCount: nat)
    requires store.Valid()
    modifies store
    ensures store.Valid()
    ensures store.settings == old(store.settings)
    ensures EndedStaysEnded(old(store.giveaways), store.giveaways)
    ensures store.giveaways.Keys == old(store.giveaways).Keys
    ensures forall id :: id in old(store.giveaways) ==>
      ScanOutcome(old(store.giveaways)[id], store.giveaways[id], id in DueIds(old(store.giveaways), now), saveOk(id))
    ensures endedCount == |set id | id in DueIds(old(store.giveaways), now) && saveOk(id)|
    ensures endedCount <= |DueIds(old(store.giveaways), now)|
    ensures DueIds(old(store.giveaways), now) == {} ==> endedCount == 0 && store.giveaways == old(store.giveaways)
  {
    var due := DueIds(store.giveaways, now);
    endedCount := EndFound(store, due, now, pick, saveOk);
  }

  /** The loop of `execute()` over the found records `due`. */
  method EndFound(store: GiveawayStore, due: set<int>, now: int, pick: int -> EndGiveaway.Oracle,
                  saveOk: int -> bool)
    returns (endedCount: nat)
    requires store.Valid()
    requires due == DueIds(store.giveaways, now)
    modifies store
    ensures store.Valid()
    ensures store.settings == old(store.settings)
    ensures EndedStaysEnded(old(store.giveaways), store.giveaways)
    ensures store.giveaways.Keys == old(store.giveaways).Keys
    ensures forall id :: id in old(store.giveaways) ==>
      ScanOutcome(old(store.giveaways)[id], store.giveaways[id], id in due, saveOk(id))
    ensures endedCount == |set id | id in due && saveOk(id)|
    ensures endedCount <= |due|
    ensures due == {} ==> store.giveaways == old(store.giveaways)
  {
    endedCount := 0;
    for id := 1 to Counter(store.settings) + 1
      invariant store.Valid() && store.settings == old(store.settings)
      invariant ScanProgress(old(store.giveaways), store.giveaways, due, saveOk, id, endedCount)
    {
      endedCount := VisitId(store, due, now, pick, saveOk, id, old(store.giveaways), endedCount);
    }
    ScanFinish(old(store.giveaways), store.giveaways, due, saveOk, Counter(store.settings) + 1);
  }

  /** The loop invariant of the scan: ids below `bound` have been visited, the others are
      untouched, and `count` is the number of successful ends so far. */
  ghost predicate ScanProgress(orig: map<int, Giveaway>, current: map<int, Giveaway>, due: set<int>,
                               saveOk: int -> bool, bound: int, count: int)
  {
    && current.Keys == orig.Keys
    && EndedStaysEnded(orig, current)
    && (forall x :: x in orig && x >= bound ==> current[x] == orig[x])
    && ScannedBelow(orig, current, due, saveOk, bound)
    && count == |SucceededBelow(due, saveOk, bound)|
  }

  /** One turn of the loop: visit `id`, ending it when it was found. */
  method VisitId(store: GiveawayStore, due: set<int>, now: int, pick: int -> EndGiveaway.Oracle,
                 saveOk: int -> bool, id: int, ghost orig: map<int, Giveaway>, count: nat)
    returns (count': nat)
    requires store.Valid()
    requires due == DueIds(orig, now)
    requires ScanProgress(orig, store.giveaways, due, saveOk, id, count)
    modifies store
    ensures store.Valid() && store.settings == old(store.settings)
    ensures ScanProgress(orig, store.giveaways, due, saveOk, id + 1, count')
  {
    SucceededStep(due, id, saveOk);
    ghost var before := store.giveaways;
    count' := count;
    if id in due {
      var success := EndDue(store, id, now, pick(id), saveOk(id));
      EndedStaysEndedTrans(orig, before, store.giveaways);
      if success {
        count' := count + 1;
      }
    }
    ScannedStep(orig, before, store.giveaways, due, saveOk, id);
  }

  /** Every record with an id below `bound` has had its outcome. */
  ghost predicate ScannedBelow(before: map<int, Giveaway>, after: map<int, Giveaway>, due: set<int>,
                               saveOk: int -> bool, bound: int)
    requires before.Keys == after.Keys
  {
    forall x :: x in before && x < bound ==> ScanOutcome(before[x], after[x], x in due, saveOk(x))
  }

  lemma ScannedStep(orig: map<int, Giveaway>, before: map<int, Giveaway>, after: map<int, Giveaway>,
                    due: set<int>, saveOk: int -> bool, id: int)
    requires orig.Keys == before.Keys == after.Keys
    requires ScannedBelow(orig, before, due, saveOk, id)
    requires id in orig ==> before[id] == orig[id]
    requires id in due ==> id in orig && after == before[id := after[id]] && ScanOutcome(before[id], after[id], true, saveOk(id))
    requires id !in due ==> after == before
    ensures ScannedBelow(orig, after, due, saveOk, id + 1)
  {
    forall x | x in orig && x < id + 1
      ensures ScanOutcome(orig[x], after[x], x in due, saveOk(x))
    {
      if x == id && id !in due {
        assert ScanOutcome(orig[x], after[x], false, saveOk(x));
      }
    }
  }

  /** Once every id has been visited: every record has its outcome, the successes are at most
      the records found, and with nothing found nothing changed. */
  lemma ScanFinish(before: map<int, Giveaway>, after: map<int, Giveaway>, due: set<int>,
                   saveOk: int -> bool, bound: int)
    requires before.Keys == after.Keys
    requires ScannedBelow(before, after, due, saveOk, bound)
    requires forall x :: x in before ==> x < bound
    requires due <= before.Keys
    ensures forall x :: x in before ==> ScanOutcome(before[x], after[x], x in due, saveOk(x))
    ensures SucceededBelow(due, saveOk, bound) == (set x | x in due && saveOk(x))
    ensures |set x | x in due && saveOk(x)| <= |due|
    ensures due == {} ==> after == before
  {
    SubsetCard((set x | x in due && saveOk(x)), due);
    if due == {} {
      assert forall x :: x in before ==> after[x] == before[x];
    }
  }

  /** The found records below `bound` whose end succeeds. */
  ghost function SucceededBelow(due: set<int>, saveOk: int -> bool, bound: int): set<int> {
    set x | x in due && x < bound && saveOk(x)
  }

  lemma SucceededStep(due: set<int>, id: int, saveOk: int -> bool)
    ensures |SucceededBelow(due, saveOk, id + 1)|
         == |SucceededBelow(due, saveOk, id)| + (if id in due && saveOk(id) then 1 else 0)
  {
    if id in due && saveOk(id) {
      assert SucceededBelow(due, saveOk, id + 1) == SucceededBelow(due, saveOk, id) + {id};
    } else {
      assert SucceededBelow(due, saveOk, id + 1) == SucceededBelow(due, saveOk, id);
    }
  }

  lemma SubsetCard(a: set<int>, b: set<int>)
    requires a <= b
    ensures |a| <= |b|
  {
    assert b == a + (b - a);
  }

  /** One iteration of the scan: ending a record the scan found succeeds exactly when its
      save does, and changes nothing but that record. */
  method EndDue(store: GiveawayStore, id: int, now: int, pick: EndGiveaway.Oracle, saveOk: bool)
    returns (success: bool)
    requires store.Valid() && id in store.giveaways && Due(store.giveaways[id], now)
    modifies store
    ensures store.Valid() && store.settings == old(store.settings)
    ensures EndedStaysEnded(old(store.giveaways), store.giveaways)
    ensures success == saveOk
    ensures id in store.giveaways
    ensures store.giveaways == old(store.giveaways)[id := store.giveaways[id]]
    ensures ScanOutcome(old(store.giveaways)[id], store.giveaways[id], true, saveOk)
  {
    var result := EndGiveaway.Execute(store, id, pick, saveOk);
    success := result.success;
  }

  /** `checkById(giveawayId)`: false, with nothing changed, for a missing, already ended or
      not yet due giveaway; otherwise the outcome of ending it. */
  method CheckById(store: GiveawayStore, giveawayId: int, now: int, pick: EndGiveaway.Oracle, saveOk: bool)
    returns (ok: bool)
    requires store.Valid()
    modifies store
    ensures store.Valid()
    ensures store.settings == old(store.settings)
    ensures EndedStaysEnded(old(store.giveaways), store.giveaways)
    ensures ok <==> giveawayId in old(store.giveaways) && Due(old(store.giveaways)[giveawayId], now) && saveOk
    ensures !ok ==> store.giveaways == old(store.giveaways)
    ensures ok ==>
      && EndGiveaway.ValidDraw(old(store.giveaways)[giveawayId], store.giveaways[giveawayId].winners)
      && store.giveaways == old(store.giveaways)[giveawayId :=
           EndGiveaway.Closed(old(store.giveaways)[giveawayId], store.giveaways[giveawayId].winners)]
  {
    if giveawayId !in store.giveaways {
      return false;
    }
    var g := store.giveaways[giveawayId];
    if g.ended {
      return false;
    }
    if g.endTime > now {
      return false;
    }
    var result := EndGiveaway.Execute(store, giveawayId, pick, saveOk);
    ok := result.success;
  }
}
